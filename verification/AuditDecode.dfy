/** The line decoder for activity objects: it sees the decompressed stream in
    fragments and must not depend on how the stream was cut. JSON decoding of one
    line is a parameter. */
module AuditDecode {
  import opened Wrappers
  import opened Binary

  const MAX_OBJECT := 64 * 1024 * 1024
  const MAX_LINE := 4 * 1024 * 1024
  const NEWLINE: Byte := 0x0a
  const CR: Byte := 0x0d

  // ---- Lines ----

  /** The finished lines of a text, without their newlines, and what follows the last one. */
  datatype Lines = Lines(finished: seq<Bytes>, partial: Bytes) {
    function All(): seq<Bytes> { finished + [partial] }
  }

  function Split(data: Bytes): Lines {
    if data == [] then Lines([], [])
    else
      var front, b := Split(data[..|data| - 1]), data[|data| - 1];
      if b == NEWLINE then Lines(front.finished + [front.partial], [])
      else front.(partial := front.partial + [b])
  }

  function Terminated(lines: seq<Bytes>): Bytes {
    if lines == [] then [] else Terminated(lines[..|lines| - 1]) + lines[|lines| - 1] + [NEWLINE]
  }

  /** Splitting loses nothing and leaves no newline inside a line. */
  lemma {:induction false} SplitIsExact(data: Bytes)
    ensures Terminated(Split(data).finished) + Split(data).partial == data
    ensures NEWLINE !in Split(data).partial
    ensures forall i :: 0 <= i < |Split(data).finished| ==> NEWLINE !in Split(data).finished[i]
  {
    if data != [] {
      var front, b := data[..|data| - 1], data[|data| - 1];
      SplitIsExact(front);
      var s, t := Split(front), Split(data);
      assert data == front + [b];
      if b == NEWLINE {
        assert t.finished[..|s.finished|] == s.finished;
        assert Terminated(t.finished) == Terminated(s.finished) + s.partial + [NEWLINE];
      } else {
        assert Terminated(s.finished) + (s.partial + [b]) == Terminated(s.finished) + s.partial + [b];
      }
    }
  }

  /** Bytes without a newline extend the unfinished line. */
  lemma {:induction false} SplitPlain(data: Bytes, more: Bytes)
    requires NEWLINE !in more
    ensures Split(data + more) == Split(data).(partial := Split(data).partial + more)
  {
    if more == [] {
      assert data + more == data;
    } else {
      var front, b := more[..|more| - 1], more[|more| - 1];
      SplitPlain(data, front);
      assert (data + more)[..|data + more| - 1] == data + front;
      assert more == front + [b];
    }
  }

  /** A newline finishes the line. */
  lemma NewlineFinishes(data: Bytes)
    ensures Split(data + [NEWLINE]) == Lines(Split(data).All(), [])
  {
    assert (data + [NEWLINE])[..|data|] == data;
  }

  // ---- What a line yields ----

  datatype Tally<E> = Tally(events: seq<E>, skipped: nat)

  function WithoutCR(line: Bytes): Bytes {
    if line != [] && line[|line| - 1] == CR then line[..|line| - 1] else line
  }

  function Count<E>(t: Tally<E>, line: Bytes, json: Bytes -> Option<E>): Tally<E> {
    if |line| > MAX_LINE then t.(skipped := t.skipped + 1)
    else if WithoutCR(line) == [] then t
    else
      match json(WithoutCR(line))
      case None => t.(skipped := t.skipped + 1)
      case Some(e) => t.(events := t.events + [e])
  }

  function CountAll<E>(lines: seq<Bytes>, json: Bytes -> Option<E>): Tally<E> {
    if lines == [] then Tally([], 0)
    else Count(CountAll(lines[..|lines| - 1], json), lines[|lines| - 1], json)
  }

  lemma CountLast<E>(s: Lines, json: Bytes -> Option<E>)
    ensures CountAll(s.All(), json) == Count(CountAll(s.finished, json), s.partial, json)
  {
    assert s.All()[..|s.All()| - 1] == s.finished;
  }

  // ---- The same, line by line ----

  /** `text` is the line without its trailing carriage return, if it has one. */
  predicate Strips(line: Bytes, text: Bytes) {
    line == text + [13] || (line == text && (line == [] || line[|line| - 1] != 13))
  }

  /** The line is over 4 MiB, or is not blank and does not decode. */
  ghost predicate Skipped<E>(line: Bytes, json: Bytes -> Option<E>) {
    |line| > 4194304 || exists text :: Strips(line, text) && text != [] && json(text).None?
  }

  /** The line is within 4 MiB, not blank, and decodes to `e`. */
  ghost predicate Gives<E>(line: Bytes, json: Bytes -> Option<E>, e: E) {
    |line| <= 4194304 && exists text :: Strips(line, text) && text != [] && json(text) == Some(e)
  }

  ghost function SkippedLines<E>(lines: seq<Bytes>, json: Bytes -> Option<E>): set<nat> {
    set i | 0 <= i < |lines| && Skipped(lines[i], json)
  }

  lemma StripsIff(line: Bytes, text: Bytes)
    ensures Strips(line, text) <==> text == WithoutCR(line)
  {
    if line == text + [13] { assert line[..|line| - 1] == text; }
    if line != [] && line[|line| - 1] == 13 { assert line == line[..|line| - 1] + [13]; }
  }

  lemma CountIs<E>(t: Tally<E>, line: Bytes, json: Bytes -> Option<E>)
    ensures Count(t, line, json).skipped == t.skipped + if Skipped(line, json) then 1 else 0
    ensures if exists e :: Gives(line, json, e)
            then exists e :: Gives(line, json, e) && Count(t, line, json).events == t.events + [e]
            else Count(t, line, json).events == t.events
  {
    forall text ensures Strips(line, text) <==> text == WithoutCR(line) { StripsIff(line, text); }
    var text := WithoutCR(line);
    assert Strips(line, text);
    hide Strips, WithoutCR;
    if |line| <= MAX_LINE && text != [] && json(text).Some? {
      assert Gives(line, json, json(text).value);
    }
  }

  /** The skipped count is the number of over-long and malformed lines, blank lines apart. */
  lemma {:induction false} SkippedIsCounted<E>(lines: seq<Bytes>, json: Bytes -> Option<E>)
    ensures CountAll(lines, json).skipped == |SkippedLines(lines, json)|
  {
    hide Count, Skipped;
    if lines != [] {
      var n := |lines| - 1;
      SkippedIsCounted(lines[..n], json);
      CountIs(CountAll(lines[..n], json), lines[n], json);
      assert forall i :: 0 <= i < n ==> lines[..n][i] == lines[i];
      var before, after := SkippedLines(lines[..n], json), SkippedLines(lines, json);
      assert after == if Skipped(lines[n], json) then before + {n} else before;
    }
  }

  /** The events are what the other lines decode to, in order: event `j` comes from line `at[j]`, and
      every line that decodes is one of them. */
  lemma {:induction false} EventsAreDecoded<E>(lines: seq<Bytes>, json: Bytes -> Option<E>) returns (at: seq<nat>)
    ensures |at| == |CountAll(lines, json).events|
    ensures forall j :: 0 <= j < |at| ==> at[j] < |lines| && Gives(lines[at[j]], json, CountAll(lines, json).events[j])
    ensures forall j, k :: 0 <= j < k < |at| ==> at[j] < at[k]
    ensures forall i, e :: 0 <= i < |lines| && Gives(lines[i], json, e) ==> i in at
  {
    hide Count, Gives;
    at := [];
    if lines != [] {
      var n := |lines| - 1;
      var front := lines[..n];
      assert forall i :: 0 <= i < n ==> front[i] == lines[i];
      at := EventsAreDecoded(front, json);
      CountIs(CountAll(front, json), lines[n], json);
      var old_at, es := at, CountAll(front, json).events;
      if e :| Gives(lines[n], json, e) {
        at := old_at + [n];
        var last :| Gives(lines[n], json, last) && CountAll(lines, json).events == es + [last];
        assert forall j :: 0 <= j < |old_at| ==> at[j] == old_at[j] && (es + [last])[j] == es[j];
        assert at[|old_at|] == n && (es + [last])[|old_at|] == last;
      }
      forall i, e | 0 <= i < |lines| && Gives(lines[i], json, e) ensures i in at {
        if i < n {
          assert i in old_at;
          var j :| 0 <= j < |old_at| && old_at[j] == i;
          assert at[j] == i;
        } else {
          assert at[|at| - 1] == n;
        }
      }
    }
  }

  // ---- Fragments ----

  /** A read: up to a newline, a full buffer, the end of the stream, or a failed read. */
  datatype Fragment =
    | Line(bytes: Bytes)
    | BufferFull(bytes: Bytes)
    | End(bytes: Bytes)
    | Broken(bytes: Bytes)

  predicate WellCut(f: Fragment) {
    if f.Line? then f.bytes != [] && f.bytes[|f.bytes| - 1] == NEWLINE && NEWLINE !in f.bytes[..|f.bytes| - 1]
    else NEWLINE !in f.bytes
  }

  function Joined(fs: seq<Fragment>): Bytes {
    if fs == [] then [] else Joined(fs[..|fs| - 1]) + fs[|fs| - 1].bytes
  }

  /** One byte past the cap is enough to tell that the object went on. */
  function Limited(data: Bytes): Bytes {
    if |data| > MAX_OBJECT + 1 then data[..MAX_OBJECT + 1] else data
  }

  /** `fs` is a way to read `data`: the reads end at the end of the limited stream or at a failure. */
  predicate Reads(data: Bytes, fs: seq<Fragment>) {
    && fs != []
    && (forall i :: 0 <= i < |fs| ==> WellCut(fs[i]))
    && (forall i :: 0 <= i < |fs| - 1 ==> fs[i].Line? || fs[i].BufferFull?)
    && match fs[|fs| - 1]
       case End(_) => Joined(fs) == Limited(data)
       case Broken(_) => Joined(fs) <= Limited(data)
       case _ => false
  }

  /** One way to read an object: line by line. */
  function LineByLine(data: Bytes): (fs: seq<Fragment>)
    ensures |fs| == |Split(data).finished| + 1
  {
    var s := Split(data);
    seq(|s.finished|, i requires 0 <= i < |s.finished| => Line(s.finished[i] + [NEWLINE])) + [End(s.partial)]
  }

  lemma {:induction false} JoinedLines(fs: seq<Fragment>, lines: seq<Bytes>)
    requires |fs| == |lines| && forall i :: 0 <= i < |lines| ==> fs[i] == Line(lines[i] + [NEWLINE])
    ensures Joined(fs) == Terminated(lines)
  {
    if lines != [] {
      var n := |lines| - 1;
      JoinedLines(fs[..n], lines[..n]);
      assert Terminated(lines[..n]) + (lines[n] + [NEWLINE]) == Terminated(lines[..n]) + lines[n] + [NEWLINE];
    }
  }

  /** Every object within the limit can be read to its end. */
  lemma EveryObjectCanBeRead(data: Bytes)
    requires |data| <= 67108864
    ensures Reads(data, LineByLine(data)) && LineByLine(data)[|LineByLine(data)| - 1].End?
  {
    SplitIsExact(data);
    var fs, lines := LineByLine(data), Split(data).finished;
    var n := |lines|;
    hide Split;
    JoinedLines(fs[..n], lines);
    assert fs[..|fs| - 1] == fs[..n];
    forall i | 0 <= i < |fs| ensures WellCut(fs[i]) {
      if i < n { assert (lines[i] + [NEWLINE])[..|lines[i]|] == lines[i]; }
    }
  }

  // ---- The decoder ----

  class Decoder<E> {
    var events: seq<E>
    var skipped: nat
    var line: Bytes
    var overLong: bool

    /** The decoder has read `data` and holds its unfinished line. */
    ghost predicate Holds(data: Bytes, json: Bytes -> Option<E>)
      reads this
    {
      var s := Split(data);
      && Tally(events, skipped) == CountAll(s.finished, json)
      && overLong == (|s.partial| > MAX_LINE)
      && line == if overLong then [] else s.partial
    }

    constructor (ghost json: Bytes -> Option<E>)
      ensures Holds([], json)
    {
      events, skipped, line, overLong := [], 0, [], false;
    }

    /** Takes a fragment without its newline into the current line. */
    method Append(frag: Bytes, ghost data: Bytes, ghost json: Bytes -> Option<E>)
      requires Holds(data, json) && NEWLINE !in frag
      modifies this
      ensures Holds(data + frag, json)
    {
      SplitPlain(data, frag);
      if !overLong {
        if |line| + |frag| > MAX_LINE {
          overLong := true;
          line := [];
        } else {
          line := line + frag;
        }
      }
    }

    /** Decodes or counts the current line and starts the next one. */
    method Flush(json: Bytes -> Option<E>, ghost data: Bytes)
      requires Holds(data, json)
      modifies this
      ensures Tally(events, skipped) == CountAll(Split(data).All(), json)
      ensures Holds(data + [NEWLINE], json)
    {
      hide Split, CountAll;
      NewlineFinishes(data);
      CountLast(Split(data), json);
      if line != [] && line[|line| - 1] == CR {
        line := line[..|line| - 1];
      }
      if overLong {
        skipped := skipped + 1;
      } else if line != [] {
        match json(line)
        case None => skipped := skipped + 1;
        case Some(e) => events := events + [e];
      }
      line := [];
      overLong := false;
    }
  }

  /** Decoding gives the same result however the stream is cut: the events and the number of
      skipped lines of the plain splitting. It fails exactly on a failed read or an object
      over the size limit. */
  method DecodeGz<E>(ghost data: Bytes, fs: seq<Fragment>, json: Bytes -> Option<E>)
    returns (ok: bool, events: seq<E>, skipped: nat)
    requires Reads(data, fs)
    ensures ok <==> fs[|fs| - 1].End? && |data| <= 67108864
    ensures ok ==> Tally(events, skipped) == CountAll(Split(data).All(), json)
    ensures !ok ==> events == []
  {
    hide Split, CountAll, Decoder.Holds, Limited, Joined;
    var d := new Decoder(json);
    var read := 0;
    ghost var before: Bytes := [];
    NothingJoined(fs);
    for i := 0 to |fs|
      invariant forall j :: 0 <= j < i ==> fs[j].Line? || fs[j].BufferFull?
      invariant before == Joined(fs[..i]) && read == |before| && d.Holds(before, json)
    {
      JoinedOneMore(fs, i);
      var frag := fs[i].bytes;
      read := read + |frag|;
      if |frag| > 0 && frag[|frag| - 1] == NEWLINE {
        frag := frag[..|frag| - 1];
      }
      d.Append(frag, before, json);
      match fs[i] {
        case Line(bytes) =>
          d.Flush(json, before + frag);
          assert before + frag + [NEWLINE] == before + bytes;
        case BufferFull(_) =>
        case End(_) =>
          assert fs[..i + 1] == fs;
          LimitedTellsSize(data);
          d.Flush(json, before + frag);
          return read <= MAX_OBJECT, if read <= MAX_OBJECT then d.events else [], d.skipped;
        case Broken(_) =>
          return false, [], d.skipped;
      }
      before := before + fs[i].bytes;
    }
  }

  lemma NothingJoined(fs: seq<Fragment>)
    ensures Joined(fs[..0]) == []
  {}

  lemma JoinedOneMore(fs: seq<Fragment>, i: nat)
    requires i < |fs|
    ensures Joined(fs[..i + 1]) == Joined(fs[..i]) + fs[i].bytes
  {
    assert fs[..i + 1][..i] == fs[..i];
  }

  lemma LimitedTellsSize(data: Bytes)
    ensures |Limited(data)| <= MAX_OBJECT <==> |data| <= MAX_OBJECT
    ensures |data| <= MAX_OBJECT ==> Limited(data) == data
  {}
}
