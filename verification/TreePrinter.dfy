/** The printed form of a tree object and its C-quoted names. Text is bytes. */
module TreePrinter {
  import opened Wrappers
  import opened Binary

  const SPACE: Byte := 0x20
  const TAB: Byte := 0x09
  const NEWLINE: Byte := 0x0a
  const QUOTE: Byte := 0x22
  const BACKSLASH: Byte := 0x5c
  const ZERO: Byte := 0x30
  const OID_SIZE := 20

  // ---- Quoting ----

  predicate NeedsQuote(c: Byte) {
    c < 0x20 || c == 0x7f || c == QUOTE || c == BACKSLASH || c >= 0x80
  }

  /** The letter of a one-letter escape, if the byte has one. */
  function Letter(c: Byte): Option<Byte> {
    if c == 0x07 then Some(0x61) else if c == 0x08 then Some(0x62) else if c == 0x09 then Some(0x74)
    else if c == 0x0a then Some(0x6e) else if c == 0x0b then Some(0x76) else if c == 0x0c then Some(0x66)
    else if c == 0x0d then Some(0x72) else if c == QUOTE then Some(QUOTE) else if c == BACKSLASH then Some(BACKSLASH)
    else None
  }

  function Octal(c: Byte): Bytes {
    [ZERO + c / 64, ZERO + (c / 8) % 8, ZERO + c % 8]
  }

  function Escape(c: Byte): (e: Bytes)
    ensures |e| > 0
  {
    if Letter(c).Some? then [BACKSLASH, Letter(c).value]
    else if NeedsQuote(c) then [BACKSLASH] + Octal(c)
    else [c]
  }

  function Escaped(b: Bytes): Bytes {
    if b == [] then [] else Escape(b[0]) + Escaped(b[1..])
  }

  predicate AnyNeedsQuote(b: Bytes) {
    exists i :: 0 <= i < |b| && NeedsQuote(b[i])
  }

  function Quote(b: Bytes): Bytes {
    if AnyNeedsQuote(b) then [QUOTE] + Escaped(b) + [QUOTE] else b
  }

  lemma {:induction false} EscapedAppend(a: Bytes, b: Bytes)
    ensures Escaped(a + b) == Escaped(a) + Escaped(b)
  {
    hide Escape;
    if a == [] {
      assert a + b == b;
    } else {
      EscapedAppend(a[1..], b);
      assert (a + b)[1..] == a[1..] + b;
      assert Escape(a[0]) + (Escaped(a[1..]) + Escaped(b)) == Escape(a[0]) + Escaped(a[1..]) + Escaped(b);
    }
  }

  /** Quotes a path name when it has to. */
  method QuotePath(b: Bytes) returns (s: Bytes)
    ensures s == Quote(b)
  {
    hide Escape;
    var needsQuote := false;
    for i := 0 to |b|
      invariant !needsQuote && forall j :: 0 <= j < i ==> !NeedsQuote(b[j])
    {
      if NeedsQuote(b[i]) {
        needsQuote := true;
        break;
      }
    }
    if !needsQuote {
      return b;
    }
    s := [QUOTE];
    for i := 0 to |b|
      invariant s == [QUOTE] + Escaped(b[..i])
    {
      EscapedAppend(b[..i], [b[i]]);
      assert b[..i + 1] == b[..i] + [b[i]];
      assert Escaped([b[i]]) == Escape(b[i]);
      s := s + Escape(b[i]);
    }
    assert b[..|b|] == b;
    s := s + [QUOTE];
  }

  // ---- Unquoting ----

  /** The byte a one-letter escape stands for. */
  function Unletter(l: Byte): Option<Byte> {
    if l == 0x61 then Some(0x07) else if l == 0x62 then Some(0x08) else if l == 0x74 then Some(0x09)
    else if l == 0x6e then Some(0x0a) else if l == 0x76 then Some(0x0b) else if l == 0x66 then Some(0x0c)
    else if l == 0x72 then Some(0x0d) else if l == QUOTE then Some(QUOTE) else if l == BACKSLASH then Some(BACKSLASH)
    else None
  }

  predicate OctalDigit(c: Byte) { ZERO <= c < ZERO + 8 }

  /** The first byte of escaped text and the length of its escape. */
  function Unescape(s: Bytes): (r: Option<(Byte, nat)>)
    ensures r.Some? ==> 0 < r.value.1 <= |s|
  {
    if s == [] then None
    else if s[0] != BACKSLASH then Some((s[0], 1))
    else if |s| < 2 then None
    else if Unletter(s[1]).Some? then Some((Unletter(s[1]).value, 2))
    else if |s| < 4 || !OctalDigit(s[1]) || !OctalDigit(s[2]) || !OctalDigit(s[3]) then None
    else
      var v := 64 * (s[1] - ZERO) + 8 * (s[2] - ZERO) + (s[3] - ZERO);
      if v < 256 then Some((v, 4)) else None
  }

  /** Escaped text up to the closing quote, which must end it. */
  function UnescapeAll(s: Bytes): Option<Bytes> {
    if s == [QUOTE] then Some([])
    else
      match Unescape(s)
      case None => None
      case Some((c, n)) =>
        match UnescapeAll(s[n..])
        case None => None
        case Some(rest) => Some([c] + rest)
  }

  function Unquote(s: Bytes): Option<Bytes> {
    if s != [] && s[0] == QUOTE then UnescapeAll(s[1..]) else Some(s)
  }

  lemma OctalRoundTrip(c: Byte)
    ensures OctalDigit(Octal(c)[0]) && OctalDigit(Octal(c)[1]) && OctalDigit(Octal(c)[2])
    ensures 64 * (Octal(c)[0] - ZERO) + 8 * (Octal(c)[1] - ZERO) + (Octal(c)[2] - ZERO) == c
  {}

  lemma EscapeRoundTrip(c: Byte, rest: Bytes)
    ensures Unescape(Escape(c) + rest) == Some((c, |Escape(c)|))
    ensures Escape(c) + rest != [QUOTE]
  {
    OctalRoundTrip(c);
    var s := Escape(c) + rest;
    if Letter(c).None? && NeedsQuote(c) {
      assert s[0] == BACKSLASH && s[1] == Octal(c)[0] && s[2] == Octal(c)[1] && s[3] == Octal(c)[2];
    }
  }

  lemma {:induction false} UnescapeEscaped(b: Bytes)
    ensures UnescapeAll(Escaped(b) + [QUOTE]) == Some(b)
  {
    hide Escape, Unescape;
    if b != [] {
      var rest := Escaped(b[1..]) + [QUOTE];
      UnescapeEscaped(b[1..]);
      EscapeRoundTrip(b[0], rest);
      assert Escaped(b) + [QUOTE] == Escape(b[0]) + rest;
      assert (Escape(b[0]) + rest)[|Escape(b[0])|..] == rest;
      assert b == [b[0]] + b[1..];
    }
  }

  /** Quoting can be undone on every byte string. */
  lemma UnquoteQuote(b: Bytes)
    ensures Unquote(Quote(b)) == Some(b)
  {
    hide Escaped, UnescapeAll;
    if AnyNeedsQuote(b) {
      UnescapeEscaped(b);
      assert Quote(b)[1..] == Escaped(b) + [QUOTE];
    }
  }

  predicate Printable(s: Bytes) {
    forall i :: 0 <= i < |s| ==> 0x20 <= s[i] < 0x7f
  }

  lemma {:induction false} EscapedPrintable(b: Bytes)
    ensures Printable(Escaped(b))
  {
    if b != [] {
      EscapedPrintable(b[1..]);
      assert Printable(Escape(b[0]));
    }
  }

  /** A quoted name has no control byte and no byte above ASCII. */
  lemma QuotePrintable(b: Bytes)
    ensures Printable(Quote(b))
  {
    EscapedPrintable(b);
  }

  // ---- Tree objects ----

  datatype Entry = Entry(mode: Bytes, name: Bytes, oid: Bytes) {
    predicate Valid() { SPACE !in mode && 0 !in name && |oid| == 20 }
  }

  function EncodeEntry(e: Entry): Bytes {
    e.mode + [SPACE] + e.name + [0] + e.oid
  }

  function EncodeTree(es: seq<Entry>): Bytes {
    if es == [] then [] else EncodeEntry(es[0]) + EncodeTree(es[1..])
  }

  predicate AllValid(es: seq<Entry>) {
    forall i :: 0 <= i < |es| ==> es[i].Valid()
  }

  /** The first entry of a tree object and the data after it. */
  function TakeEntry(data: Bytes): (r: Option<(Entry, Bytes)>)
    ensures r.Some? ==> r.value.0.Valid() && |r.value.1| < |data|
  {
    match IndexByte(data, SPACE)
    case None => None
    case Some(sp) =>
      var mode, rest := data[..sp], data[sp + 1..];
      match IndexByte(rest, 0)
      case None => None
      case Some(nul) =>
        var name, tail := rest[..nul], rest[nul + 1..];
        if |tail| < OID_SIZE then None
        else Some((Entry(mode, name, tail[..OID_SIZE]), tail[OID_SIZE..]))
  }

  lemma TakenIsEncoded(data: Bytes)
    requires TakeEntry(data).Some?
    ensures data == EncodeEntry(TakeEntry(data).value.0) + TakeEntry(data).value.1
  {
    hide IndexByte;
    var sp := IndexByte(data, SPACE).value;
    CutAt(data, sp);
    var mode, rest := data[..sp], data[sp + 1..];
    var nul := IndexByte(rest, 0).value;
    CutAt(rest, nul);
    var name, tail := rest[..nul], rest[nul + 1..];
    assert tail == tail[..OID_SIZE] + tail[OID_SIZE..];
    RegroupTwo(mode, [SPACE], name, [0], tail[..OID_SIZE], tail[OID_SIZE..]);
  }

  function TreeEntries(data: Bytes): Option<seq<Entry>>
    decreases |data|
  {
    if data == [] then Some([])
    else
      match TakeEntry(data)
      case None => None
      case Some((e, rest)) =>
        match TreeEntries(rest)
        case None => None
        case Some(es) => Some([e] + es)
  }

  lemma TakeEncoded(e: Entry, rest: Bytes)
    requires e.Valid()
    ensures TakeEntry(EncodeEntry(e) + rest) == Some((e, rest))
  {
    var afterName := e.oid + rest;
    var afterMode := e.name + [0] + afterName;
    var data := EncodeEntry(e) + rest;
    hide IndexByte;
    RegroupTwo(e.mode, [SPACE], e.name, [0], e.oid, rest);
    Cut(e.mode, SPACE, afterMode);
    Cut(e.name, 0, afterName);
    assert afterName[..OID_SIZE] == e.oid && afterName[OID_SIZE..] == rest;
  }

  lemma {:induction false} EncodedIsParsed(es: seq<Entry>)
    requires AllValid(es)
    ensures TreeEntries(EncodeTree(es)) == Some(es)
  {
    hide TakeEntry;
    if es != [] {
      TakeEncoded(es[0], EncodeTree(es[1..]));
      EncodedIsParsed(es[1..]);
      assert es == [es[0]] + es[1..];
    }
  }

  lemma {:induction false} ParsedIsEncoded(data: Bytes)
    requires TreeEntries(data).Some?
    ensures AllValid(TreeEntries(data).value) && EncodeTree(TreeEntries(data).value) == data
    decreases |data|
  {
    if data != [] {
      hide EncodeEntry;
      TakenIsEncoded(data);
      var (e, rest) := TakeEntry(data).value;
      ParsedIsEncoded(rest);
      var es := TreeEntries(rest).value;
      assert ([e] + es)[1..] == es;
    }
  }

  /** The tree objects that parse as `es` are exactly its encoding. */
  lemma ParsesIffEncoded(data: Bytes, es: seq<Entry>)
    ensures TreeEntries(data) == Some(es) <==> AllValid(es) && data == EncodeTree(es)
  {
    if TreeEntries(data) == Some(es) { ParsedIsEncoded(data); }
    if AllValid(es) { EncodedIsParsed(es); }
  }

  // ---- Printing ----

  const TREE: Bytes := [0x74, 0x72, 0x65, 0x65]
  const COMMIT: Bytes := [0x63, 0x6f, 0x6d, 0x6d, 0x69, 0x74]
  const BLOB: Bytes := [0x62, 0x6c, 0x6f, 0x62]

  function TypeOf(mode: Bytes): (t: Bytes)
    ensures SPACE !in t
  {
    if mode == [0x34, 0x30, 0x30, 0x30, 0x30] || mode == [0x30, 0x34, 0x30, 0x30, 0x30, 0x30] then TREE
    else if mode == [0x31, 0x36, 0x30, 0x30, 0x30, 0x30] then COMMIT
    else BLOB
  }

  function Padded(mode: Bytes): Bytes
    decreases 6 - |mode|
  {
    if |mode| < 6 then Padded([ZERO] + mode) else mode
  }

  function HexDigit(n: int): Byte
    requires 0 <= n < 16
  {
    if n < 10 then ZERO + n else 0x61 + n - 10
  }

  function Hex(b: Bytes): (h: Bytes)
    ensures |h| == 2 * |b|
  {
    if b == [] then [] else [HexDigit(b[0] / 16), HexDigit(b[0] % 16)] + Hex(b[1..])
  }

  function Line(e: Entry): Bytes {
    Padded(e.mode) + [SPACE] + TypeOf(e.mode) + [SPACE] + Hex(e.oid) + [TAB] + Quote(e.name) + [NEWLINE]
  }

  function Lines(es: seq<Entry>): Bytes {
    if es == [] then [] else Line(es[0]) + Lines(es[1..])
  }

  /** What is printed and whether all of it was well formed. */
  function Pretty(data: Bytes): (bool, Bytes)
    decreases |data|
  {
    if data == [] then (true, [])
    else
      match TakeEntry(data)
      case None => (false, [])
      case Some((e, rest)) => (Pretty(rest).0, Line(e) + Pretty(rest).1)
  }

  /** Printing succeeds exactly on well-formed tree objects and prints one line per entry. */
  lemma {:induction false} PrettyPrintsEntries(data: Bytes)
    ensures Pretty(data).0 <==> TreeEntries(data).Some?
    ensures TreeEntries(data).Some? ==> Pretty(data).1 == Lines(TreeEntries(data).value)
    decreases |data|
  {
    hide Line;
    if data != [] && TakeEntry(data).Some? {
      var (e, rest) := TakeEntry(data).value;
      PrettyPrintsEntries(rest);
      if TreeEntries(rest).Some? {
        assert ([e] + TreeEntries(rest).value)[1..] == TreeEntries(rest).value;
      }
    }
  }

  method PrettyTree(object_: Bytes) returns (ok: bool, out: Bytes)
    ensures (ok, out) == Pretty(object_)
  {
    hide TakeEntry, Line;
    out := [];
    var data := object_;
    assert [] + Pretty(data).1 == Pretty(data).1;
    while |data| > 0
      invariant Pretty(object_) == (Pretty(data).0, out + Pretty(data).1)
      decreases |data|
    {
      var next := TakeEntry(data);
      if next.None? {
        assert out + [] == out;
        return false, out;
      }
      var (e, rest) := next.value;
      var line := PrintEntry(e);
      assert out + (Line(e) + Pretty(rest).1) == (out + Line(e)) + Pretty(rest).1;
      out := out + line;
      data := rest;
    }
    assert out + [] == out;
    ok := true;
  }

  method PrintEntry(e: Entry) returns (line: Bytes)
    ensures line == Line(e)
  {
    var padded := e.mode;
    while |padded| < 6
      invariant Padded(padded) == Padded(e.mode)
      decreases 6 - |padded|
    {
      padded := [ZERO] + padded;
    }
    var name := QuotePath(e.name);
    line := padded + [SPACE] + TypeOf(e.mode) + [SPACE] + Hex(e.oid) + [TAB] + name + [NEWLINE];
  }

  // ---- Parsing the text back ----

  function Unhexed(c: Byte): Option<Byte> {
    if ZERO <= c < ZERO + 10 then Some(c - ZERO) else if 0x61 <= c < 0x67 then Some(c - 0x61 + 10) else None
  }

  function Unhex(h: Bytes): Option<Bytes> {
    if h == [] then Some([])
    else if |h| == 1 || Unhexed(h[0]).None? || Unhexed(h[1]).None? then None
    else
      match Unhex(h[2..])
      case None => None
      case Some(b) =>
        var v := 16 * Unhexed(h[0]).value + Unhexed(h[1]).value;
        if v < 256 then Some([v] + b) else None
  }

  /** A mode without its padding. */
  function Stripped(mode: Bytes): Bytes {
    if mode != [] && mode[0] == ZERO then Stripped(mode[1..]) else mode
  }

  /** The text up to a separator and the text after it. */
  function Field(text: Bytes, sep: Byte): (r: Option<(Bytes, Bytes)>)
    ensures r.Some? ==> |r.value.1| < |text|
  {
    match IndexByte(text, sep)
    case None => None
    case Some(i) => Some((text[..i], text[i + 1..]))
  }

  /** One printed line and the text after it. */
  function ParseLine(text: Bytes): (r: Option<(Entry, Bytes)>)
    ensures r.Some? ==> |r.value.1| < |text|
  {
    match Field(text, SPACE)
    case None => None
    case Some((mode, afterMode)) =>
      match Field(afterMode, SPACE)
      case None => None
      case Some((_, afterType)) =>
        match Field(afterType, TAB)
        case None => None
        case Some((hex, afterOid)) =>
          match Field(afterOid, NEWLINE)
          case None => None
          case Some((quoted, rest)) =>
            if Unhex(hex).None? || Unquote(quoted).None? then None
            else Some((Entry(mode, Unquote(quoted).value, Unhex(hex).value), rest))
  }

  function ParseText(text: Bytes): Option<seq<Entry>>
    decreases |text|
  {
    if text == [] then Some([])
    else
      match ParseLine(text)
      case None => None
      case Some((e, rest)) =>
        match ParseText(rest)
        case None => None
        case Some(es) => Some([e] + es)
  }

  lemma {:induction false} UnhexHex(b: Bytes)
    ensures Unhex(Hex(b)) == Some(b)
  {
    if b != [] {
      UnhexHex(b[1..]);
      var h := Hex(b);
      assert h[2..] == Hex(b[1..]);
      assert Unhexed(h[0]) == Some(b[0] / 16) && Unhexed(h[1]) == Some(b[0] % 16);
      assert 16 * (b[0] / 16) + b[0] % 16 == b[0];
      assert b == [b[0]] + b[1..];
    }
  }

  lemma {:induction false} PaddedFacts(mode: Bytes)
    ensures Stripped(Padded(mode)) == Stripped(mode)
    ensures SPACE !in mode ==> SPACE !in Padded(mode)
    decreases 6 - |mode|
  {
    if |mode| < 6 {
      PaddedFacts([ZERO] + mode);
      assert ([ZERO] + mode)[1..] == mode;
    }
  }

  lemma PrintableHasNoNewline(s: Bytes)
    requires Printable(s)
    ensures NEWLINE !in s
  {}

  lemma FieldIsCut(a: Bytes, sep: Byte, rest: Bytes)
    requires sep !in a
    ensures Field(a + [sep] + rest, sep) == Some((a, rest))
  {
    Cut(a, sep, rest);
  }

  lemma {:induction false} HexHasNoTab(b: Bytes)
    ensures TAB !in Hex(b)
  {
    if b != [] { HexHasNoTab(b[1..]); }
  }

  /** Parsing finds the fields of a line where the separators put them. */
  lemma FieldsAreParsed(mode: Bytes, typ: Bytes, hex: Bytes, quoted: Bytes, rest: Bytes)
    requires SPACE !in mode && SPACE !in typ && TAB !in hex && NEWLINE !in quoted
    requires Unhex(hex).Some? && Unquote(quoted).Some?
    ensures ParseLine(mode + [SPACE] + (typ + [SPACE] + (hex + [TAB] + (quoted + [NEWLINE] + rest))))
            == Some((Entry(mode, Unquote(quoted).value, Unhex(hex).value), rest))
  {
    hide Field, Unhex, Unquote;
    var afterOid := quoted + [NEWLINE] + rest;
    var afterType := hex + [TAB] + afterOid;
    FieldIsCut(mode, SPACE, typ + [SPACE] + afterType);
    FieldIsCut(typ, SPACE, afterType);
    FieldIsCut(hex, TAB, afterOid);
    FieldIsCut(quoted, NEWLINE, rest);
  }

  lemma LineIsParsed(e: Entry, rest: Bytes)
    requires e.Valid()
    ensures ParseLine(Line(e) + rest) == Some((e.(mode := Padded(e.mode)), rest))
  {
    hide ParseLine, Line, Padded, Hex, Unhex, Quote, Unquote, Stripped, TypeOf, Printable;
    PaddedFacts(e.mode);
    UnquoteQuote(e.name);
    QuotePrintable(e.name);
    PrintableHasNoNewline(Quote(e.name));
    UnhexHex(e.oid);
    HexHasNoTab(e.oid);
    FieldsAreParsed(Padded(e.mode), TypeOf(e.mode), Hex(e.oid), Quote(e.name), rest);
    RegroupLine(e, rest);
    RegroupTwo(Padded(e.mode), [SPACE], TypeOf(e.mode), [SPACE], Hex(e.oid) + [TAB], Quote(e.name) + [NEWLINE] + rest);
  }

  lemma RegroupLine(e: Entry, rest: Bytes)
    ensures Line(e) + rest
            == Padded(e.mode) + [SPACE] + TypeOf(e.mode) + [SPACE] + (Hex(e.oid) + [TAB]) + (Quote(e.name) + [NEWLINE] + rest)
  {
    hide Padded, TypeOf, Hex, Quote;
    var head := Padded(e.mode) + [SPACE] + TypeOf(e.mode) + [SPACE];
    Regroup(head, Hex(e.oid), [TAB], Quote(e.name) + [NEWLINE]);
    assert head + Hex(e.oid) + [TAB] == head + (Hex(e.oid) + [TAB]);
    var upToName := head + Hex(e.oid) + [TAB];
    Regroup(upToName, Quote(e.name), [NEWLINE], rest);
    assert upToName + Quote(e.name) + ([NEWLINE] + rest) == upToName + (Quote(e.name) + [NEWLINE] + rest);
  }

  lemma Cut(a: Bytes, b: Byte, rest: Bytes)
    requires b !in a
    ensures var s := a + [b] + rest;
            IndexByte(s, b) == Some(|a|) && s[..|a|] == a && s[|a| + 1..] == rest
  {
    IndexByteAfter(a, b, rest);
  }

  /** The entries as the text shows them, with padded modes. */
  function PaddedAll(es: seq<Entry>): (r: seq<Entry>)
    ensures |r| == |es| && forall i :: 0 <= i < |es| ==> r[i] == es[i].(mode := Padded(es[i].mode))
  {
    seq(|es|, i requires 0 <= i < |es| => es[i].(mode := Padded(es[i].mode)))
  }

  function StrippedAll(es: seq<Entry>): (r: seq<Entry>)
    ensures |r| == |es| && forall i :: 0 <= i < |es| ==> r[i] == es[i].(mode := Stripped(es[i].mode))
  {
    seq(|es|, i requires 0 <= i < |es| => es[i].(mode := Stripped(es[i].mode)))
  }

  lemma {:induction false} LinesAreParsed(es: seq<Entry>)
    requires AllValid(es)
    ensures ParseText(Lines(es)) == Some(PaddedAll(es))
  {
    hide Line, ParseLine, Padded;
    if es != [] {
      LineIsParsed(es[0], Lines(es[1..]));
      LineIsNotEmpty(es[0]);
      LinesAreParsed(es[1..]);
      assert PaddedAll(es) == [es[0].(mode := Padded(es[0].mode))] + PaddedAll(es[1..]);
    }
  }

  lemma LineIsNotEmpty(e: Entry)
    ensures Line(e) != []
  {}

  predicate Unpadded(mode: Bytes) {
    mode == [] || mode[0] != ZERO
  }

  lemma StrippedIsShorter(mode: Bytes)
    ensures |Stripped(mode)| <= |mode|
    ensures Stripped(mode) == mode <==> Unpadded(mode)
  {
    if mode != [] && mode[0] == ZERO { StrippedIsShorter(mode[1..]); }
  }

  /** For every well-formed tree object the printed text can be parsed back; taking the padding off
      gives the same modes, names and object ids exactly when no mode starts with a zero. */
  lemma TextDeterminesTree(data: Bytes)
    requires TreeEntries(data).Some?
    ensures Pretty(data).0 && ParseText(Pretty(data).1) == Some(PaddedAll(TreeEntries(data).value))
    ensures StrippedAll(PaddedAll(TreeEntries(data).value)) == TreeEntries(data).value
            <==> forall i :: 0 <= i < |TreeEntries(data).value| ==> Unpadded(TreeEntries(data).value[i].mode)
  {
    hide Pretty, ParseText, TreeEntries, Stripped, Padded;
    PrettyPrintsEntries(data);
    ParsedIsEncoded(data);
    var es := TreeEntries(data).value;
    LinesAreParsed(es);
    var back := StrippedAll(PaddedAll(es));
    forall i | 0 <= i < |es| ensures back[i] == es[i] <==> Unpadded(es[i].mode) {
      PaddedFacts(es[i].mode);
      StrippedIsShorter(es[i].mode);
    }
    if back != es {
      assert exists i :: 0 <= i < |es| && back[i] != es[i];
    }
  }

  // ---- Which trees print the same text ----

  /** Padding reaches six digits and puts zeros in front. */
  lemma {:induction false} PaddedShape(mode: Bytes)
    ensures |Padded(mode)| >= 6 && (|mode| >= 6 ==> Padded(mode) == mode)
    ensures |mode| == 5 ==> Padded(mode) == [ZERO] + mode
    ensures |mode| < 6 ==> Padded(mode)[0] == ZERO
    ensures |mode| < 5 ==> Padded(mode)[1] == ZERO
    decreases 6 - |mode|
  {
    if |mode| < 6 {
      PaddedShape([ZERO] + mode);
      if |mode| == 4 { assert [ZERO] + ([ZERO] + mode) == [ZERO, ZERO] + mode; }
    }
  }

  /** The printed type depends on the padded mode only. */
  lemma TypeFromPadded(a: Bytes, b: Bytes)
    requires Padded(a) == Padded(b)
    ensures TypeOf(a) == TypeOf(b)
  {
    hide Padded;
    PaddedShape(a);
    PaddedShape(b);
    PaddedType(a);
    PaddedType(b);
  }

  lemma PaddedType(mode: Bytes)
    ensures TypeOf(mode) == TypeOf(Padded(mode))
  {
    hide Padded;
    PaddedShape(mode);
    if |mode| == 5 {
      assert ([ZERO] + mode)[1..] == mode;
      assert [0x30, 0x34, 0x30, 0x30, 0x30, 0x30][1..] == [0x34, 0x30, 0x30, 0x30, 0x30];
    } else if |mode| < 5 {
      assert [0x30, 0x34, 0x30, 0x30, 0x30, 0x30][1] != ZERO;
    }
  }

  lemma {:induction false} SamePaddedSameLines(a: seq<Entry>, b: seq<Entry>)
    requires PaddedAll(a) == PaddedAll(b)
    ensures Lines(a) == Lines(b)
  {
    assert |a| == |PaddedAll(a)| == |PaddedAll(b)| == |b|;
    if a != [] {
      hide Padded, TypeOf, Hex, Quote;
      assert PaddedAll(a)[0] == PaddedAll(b)[0];
      TypeFromPadded(a[0].mode, b[0].mode);
      assert PaddedAll(a[1..]) == PaddedAll(a)[1..] && PaddedAll(b[1..]) == PaddedAll(b)[1..];
      SamePaddedSameLines(a[1..], b[1..]);
    }
  }

  /** Two well-formed tree objects print the same text if and only if their entries agree on names,
      object ids and padded modes. */
  lemma SameTextIff(a: Bytes, b: Bytes)
    requires TreeEntries(a).Some? && TreeEntries(b).Some?
    ensures Pretty(a).1 == Pretty(b).1 <==> PaddedAll(TreeEntries(a).value) == PaddedAll(TreeEntries(b).value)
  {
    hide Pretty, ParseText, TreeEntries, Padded, Lines;
    TextDeterminesTree(a);
    TextDeterminesTree(b);
    PrettyPrintsEntries(a);
    PrettyPrintsEntries(b);
    if PaddedAll(TreeEntries(a).value) == PaddedAll(TreeEntries(b).value) {
      SamePaddedSameLines(TreeEntries(a).value, TreeEntries(b).value);
    }
  }

  const FIVE_DIGITS: Bytes := [0x34, 0x30, 0x30, 0x30, 0x30]

  /** A tree entry is printed alike whether its mode is written with five digits or with six. */
  lemma PaddedModesCollide(name: Bytes, oid: Bytes) returns (a: Bytes, b: Bytes)
    requires 0 !in name && |oid| == OID_SIZE
    ensures a != b && TreeEntries(a).Some? && TreeEntries(b).Some? && Pretty(a).1 == Pretty(b).1
  {
    var short, long := Entry(FIVE_DIGITS, name, oid), Entry([ZERO] + FIVE_DIGITS, name, oid);
    assert short.Valid() && long.Valid();
    a, b := EncodeTree([short]), EncodeTree([long]);
    hide Padded, Pretty, TreeEntries, EncodeTree;
    EncodedIsParsed([short]);
    EncodedIsParsed([long]);
    PaddedShape(FIVE_DIGITS);
    PaddedShape([ZERO] + FIVE_DIGITS);
    assert PaddedAll([short])[0] == PaddedAll([long])[0];
    SameTextIff(a, b);
    assert TreeEntries(a) != TreeEntries(b);
  }

  // ---- The printed characters ----

  /** The bytes of a text of ASCII characters. */
  function Ascii(s: string): (b: Bytes)
    ensures |b| == |s| && forall i :: 0 <= i < |s| ==> b[i] == s[i] as int % 256
  {
    seq(|s|, i requires 0 <= i < |s| => s[i] as int % 256)
  }

  /** The mode decides the type: the two spellings of a tree, that of a gitlink, and blobs. */
  lemma TypeIff(mode: Bytes)
    ensures TypeOf(mode) == Ascii("tree") <==> mode == Ascii("40000") || mode == Ascii("040000")
    ensures TypeOf(mode) == Ascii("commit") <==> mode == Ascii("160000")
    ensures TypeOf(mode) == Ascii("blob") <==> mode !in {Ascii("40000"), Ascii("040000"), Ascii("160000")}
  {
    assert Ascii("tree") == TREE && Ascii("commit") == COMMIT && Ascii("blob") == BLOB;
    assert Ascii("40000") == [0x34, 0x30, 0x30, 0x30, 0x30] && Ascii("040000") == [0x30, 0x34, 0x30, 0x30, 0x30, 0x30];
    assert Ascii("160000") == [0x31, 0x36, 0x30, 0x30, 0x30, 0x30];
    assert TREE[0] == 0x74 && COMMIT[0] == 0x63 && BLOB[0] == 0x62;
  }

  /** A mode is filled up with zeros on the left to six characters. */
  lemma {:induction false} PaddedIs(mode: Bytes)
    ensures var p, n := Padded(mode), |mode|;
            && |p| == (if n < 6 then 6 else n) && p[|p| - n..] == mode && forall i :: 0 <= i < |p| - n ==> p[i] == '0' as int
    decreases 6 - |mode|
  {
    if |mode| < 6 {
      PaddedIs([ZERO] + mode);
      var p := Padded(mode);
      assert p[|p| - |mode| - 1..] == [ZERO] + mode;
      assert p[|p| - |mode|..] == p[|p| - |mode| - 1..][1..];
    }
  }

  /** An id is printed as two lower-case hexadecimal digits per byte. */
  lemma {:induction false} HexIs(b: Bytes, i: nat)
    requires i < |b|
    ensures Hex(b)[2 * i] == "0123456789abcdef"[b[i] / 16] as int && Hex(b)[2 * i + 1] == "0123456789abcdef"[b[i] % 16] as int
  {
    var d := "0123456789abcdef";
    assert forall n :: 0 <= n < 16 ==> HexDigit(n) == d[n] as int;
    if i > 0 {
      HexIs(b[1..], i - 1);
      assert Hex(b) == [HexDigit(b[0] / 16), HexDigit(b[0] % 16)] + Hex(b[1..]);
    }
  }

  /** Printable ASCII without double quotes and backslashes. */
  predicate PlainName(b: Bytes) {
    forall i :: 0 <= i < |b| ==> 0x20 <= b[i] < 0x7f && b[i] != '\"' as int && b[i] != '\\' as int
  }

  lemma NeedsQuoteIff(b: Bytes)
    ensures AnyNeedsQuote(b) <==> !PlainName(b)
  {
    forall i | 0 <= i < |b| ensures NeedsQuote(b[i]) <==> !(0x20 <= b[i] < 0x7f && b[i] != '\"' as int && b[i] != '\\' as int) {}
    hide NeedsQuote;
  }

  /** A name is quoted exactly if it has a control or non-ASCII byte, a double quote or a backslash. */
  lemma QuotedIff(b: Bytes)
    ensures (Quote(b) == b) <==> PlainName(b)
    ensures !PlainName(b) ==> Quote(b) == Ascii("\"") + Escaped(b) + Ascii("\"")
  {
    hide Escaped, AnyNeedsQuote, PlainName;
    NeedsQuoteIff(b);
    if AnyNeedsQuote(b) {
      EscapedIsLonger(b);
      QuoteLength(b);
      assert Ascii("\"") == [QUOTE];
    }
  }

  lemma QuoteLength(b: Bytes)
    requires AnyNeedsQuote(b)
    ensures |Quote(b)| == |Escaped(b)| + 2
  {
    hide Escaped, AnyNeedsQuote;
  }

  lemma {:induction false} EscapedIsLonger(b: Bytes)
    ensures |Escaped(b)| >= |b|
  {
    if b != [] { EscapedIsLonger(b[1..]); }
  }

  /** The escape of a byte: a letter for seven control bytes, itself after a backslash for a quote and
      a backslash, three octal digits for any other unprintable byte, and the byte alone otherwise. */
  lemma EscapeIs(c: Byte)
    ensures 7 <= c <= 13 ==> Escape(c) == ['\\' as int, "abtnvfr"[c - 7] as int]
    ensures c == '\"' as int || c == '\\' as int ==> Escape(c) == ['\\' as int, c]
    ensures (c < 7 || 13 < c < 0x20 || c >= 0x7f) ==>
              && |Escape(c)| == 4 && Escape(c)[0] == '\\' as int
              && (forall i :: 1 <= i < 4 ==> '0' as int <= Escape(c)[i] <= '7' as int)
              && 64 * (Escape(c)[1] - '0' as int) + 8 * (Escape(c)[2] - '0' as int) + (Escape(c)[3] - '0' as int) == c
    ensures 0x20 <= c < 0x7f && c != '\"' as int && c != '\\' as int ==> Escape(c) == [c]
  {
    OctalRoundTrip(c);
  }

  /** One printed line. */
  lemma LineIs(e: Entry)
    ensures Line(e) == Padded(e.mode) + Ascii(" ") + TypeOf(e.mode) + Ascii(" ") + Hex(e.oid) + Ascii("\t") + Quote(e.name) + Ascii("\n")
  {
    hide Padded, TypeOf, Hex, Quote;
    assert Ascii(" ") == [SPACE] && Ascii("\t") == [TAB] && Ascii("\n") == [NEWLINE];
  }
}
