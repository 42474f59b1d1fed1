/** What the diff parser makes of a patch as git prints it, from a list of changes. */
module DiffRoundTrip {
  import opened Wrappers
  import opened DiffParser

  /** A path as git writes it: plain, or in quotes with its special characters escaped. */
  datatype Name = Plain(path: string) | Quoted(escaped: string)

  datatype Kind =
    | Added(mode: string)
    | Deleted(mode: string)
    | Modified
    | Renamed(source: Name, similarity: string)
    | Copied(source: Name, similarity: string)

  /** A line of a hunk, or the remark that the line before has no newline. */
  datatype PrintedLine = Content(line: DiffLine) | NoNewline

  datatype PrintedHunk = PrintedHunk(header: string, lines: seq<PrintedLine>)

  /** One file of a patch: what happened to the file at `path`, and its hunks. */
  datatype Change = Change(kind: Kind, path: Name, modes: Option<(string, string)>, index: Option<string>,
                           binary: bool, hunks: seq<PrintedHunk>)

  predicate PrintableLine(l: PrintedLine) {
    l.Content? ==> l.line.kind == '+' || l.line.kind == '-' || l.line.kind == ' '
  }

  predicate PrintableHunk(h: PrintedHunk) {
    "@@" <= h.header && forall i :: 0 <= i < |h.lines| ==> PrintableLine(h.lines[i])
  }

  predicate Printable(c: Change) {
    && Text(c.path) != "" && Text(Source(c)) != ""
    && forall i :: 0 <= i < |c.hunks| ==> PrintableHunk(c.hunks[i])
  }

  // ---- The printed lines ----

  function Text(n: Name): string {
    match n
    case Plain(path) => path
    case Quoted(escaped) => escaped
  }

  /** A name with the prefix that tells the two sides apart; quotes go around both. */
  function Label(prefix: string, n: Name): string {
    match n
    case Plain(path) => prefix + path
    case Quoted(escaped) => ['"'] + prefix + escaped + ['"']
  }

  /** A name that ends a line by itself is followed by a tab if it contains a space. */
  function Tab(text: string): string {
    if ' ' in text then "\t" else ""
  }

  function Source(c: Change): Name {
    match c.kind
    case Renamed(source, _) => source
    case Copied(source, _) => source
    case _ => c.path
  }

  function HeaderRest(c: Change): string {
    Label("a/", Source(c)) + " " + Label("b/", c.path)
  }

  function HeaderLine(c: Change): string {
    HEADER + HeaderRest(c)
  }

  function ModeLines(c: Change): seq<string> {
    match c.modes
    case None => []
    case Some((before, after)) => ["old mode " + before, "new mode " + after]
  }

  function KindLines(c: Change): seq<string> {
    match c.kind
    case Added(mode) => ["new file mode " + mode]
    case Deleted(mode) => ["deleted file mode " + mode]
    case Modified => []
    case Renamed(source, similarity) =>
      ["similarity index " + similarity, "rename from " + Label("", source), "rename to " + Label("", c.path)]
    case Copied(source, similarity) =>
      ["similarity index " + similarity, "copy from " + Label("", source), "copy to " + Label("", c.path)]
  }

  function IndexLines(c: Change): seq<string> {
    match c.index
    case None => []
    case Some(ids) => ["index " + ids]
  }

  function OldLabel(c: Change): string {
    if c.kind.Added? then "/dev/null" else Label("a/", Source(c))
  }

  function NewLabel(c: Change): string {
    if c.kind.Deleted? then "/dev/null" else Label("b/", c.path)
  }

  /** The two path lines that come before the first hunk, or the line that stands for binary content. */
  function BodyLines(c: Change): seq<string> {
    if c.binary then ["Binary files " + (OldLabel(c) + " and " + NewLabel(c) + " differ")]
    else if c.hunks == [] then []
    else ["--- " + (OldLabel(c) + Tab(OldLabel(c))), "+++ " + (NewLabel(c) + Tab(NewLabel(c)))]
  }

  function PrintLine(l: PrintedLine): string {
    match l
    case Content(line) => [line.kind] + line.text
    case NoNewline => "\\ No newline at end of file"
  }

  function PrintLines(ls: seq<PrintedLine>): seq<string> {
    if ls == [] then [] else PrintLines(ls[..|ls| - 1]) + [PrintLine(ls[|ls| - 1])]
  }

  function PrintHunks(hs: seq<PrintedHunk>): seq<string> {
    if hs == [] then []
    else PrintHunks(hs[..|hs| - 1]) + ([hs[|hs| - 1].header] + PrintLines(hs[|hs| - 1].lines))
  }

  function HeadLines(c: Change): seq<string> {
    (ModeLines(c) + KindLines(c)) + (IndexLines(c) + BodyLines(c))
  }

  function PrintChange(c: Change): seq<string> {
    [HeaderLine(c)] + (HeadLines(c) + PrintHunks(c.hunks))
  }

  function PrintChanges(cs: seq<Change>): seq<string> {
    if cs == [] then [] else PrintChanges(cs[..|cs| - 1]) + PrintChange(cs[|cs| - 1])
  }

  // ---- What is shown for a change ----

  function StatusOf(kind: Kind): char {
    match kind
    case Added(_) => 'A'
    case Deleted(_) => 'D'
    case Modified => 'M'
    case Renamed(_, _) => 'R'
    case Copied(_, _) => 'C'
  }

  predicate Moved(c: Change) {
    c.kind.Renamed? || c.kind.Copied?
  }

  predicate HasPathLines(c: Change) {
    !c.binary && c.hunks != []
  }

  /** A name as a path line shows it: without its prefix if it is plain, and with the tab. */
  function FromPathLine(prefix: string, n: Name): string {
    match n
    case Plain(path) => path + Tab(Label(prefix, n))
    case Quoted(_) => Label(prefix, n) + Tab(Label(prefix, n))
  }

  function OldPathOf(c: Change): string {
    if HasPathLines(c) && !c.kind.Added? then FromPathLine("a/", Source(c))
    else if Moved(c) then Label("", c.kind.source)
    else ""
  }

  /** The new path; where no line names it, the best guess from the file header. */
  function NewPathOf(c: Change): string {
    if HasPathLines(c) && !c.kind.Deleted? then FromPathLine("b/", c.path)
    else if Moved(c) then Label("", c.path)
    else HeaderPath(HeaderRest(c))
  }

  /** A file with its hunks, dropped when there are too many changed lines. */
  function Filled(f: FileDiff, hs: seq<Hunk>): FileDiff {
    var p, m := CountIn(hs, '+'), CountIn(hs, '-');
    var large := p + m >= MAX_LINES_PER_FILE;
    f.(additions := p, deletions := m, tooLarge := large, hunks := if large then [] else hs)
  }

  function Bare(c: Change): FileDiff {
    FileDiff(StatusOf(c.kind), OldPathOf(c), NewPathOf(c), c.binary, 0, 0, false, [])
  }

  /** The content lines of a hunk. */
  function Kept(ls: seq<PrintedLine>): seq<DiffLine> {
    if ls == [] then []
    else Kept(ls[..|ls| - 1]) + if ls[|ls| - 1].Content? then [ls[|ls| - 1].line] else []
  }

  function ShownHunk(h: PrintedHunk): Hunk {
    Hunk(h.header, Kept(h.lines))
  }

  function ShownHunks(hs: seq<PrintedHunk>): seq<Hunk> {
    if hs == [] then [] else ShownHunks(hs[..|hs| - 1]) + [ShownHunk(hs[|hs| - 1])]
  }

  function Shown(c: Change): FileDiff {
    Filled(Bare(c), ShownHunks(c.hunks))
  }

  function ShownAll(cs: seq<Change>): (r: seq<FileDiff>)
    ensures |r| == |cs| && forall i :: 0 <= i < |cs| ==> r[i] == Shown(cs[i])
  {
    seq(|cs|, i requires 0 <= i < |cs| => Shown(cs[i]))
  }

  // ---- Hunks ----

  function Current(files: seq<FileDiff>, f: FileDiff, h: Option<Hunk>, inHunks: bool): State {
    State(files, Some(f), h, inHunks, false)
  }

  /** The state inside a hunk: counting goes on, and the hunk is kept until the file is too large. */
  function InHunk(files: seq<FileDiff>, f: FileDiff, hs: seq<Hunk>, h: Hunk): State {
    var p, m := CountIn(hs, '+') + CountKind(h.lines, '+'), CountIn(hs, '-') + CountKind(h.lines, '-');
    var g := f.(additions := p, deletions := m);
    if p + m >= MAX_LINES_PER_FILE
    then Current(files, g.(tooLarge := true, hunks := []), None, true)
    else Current(files, g.(tooLarge := false, hunks := hs), Some(h), true)
  }

  lemma TakesContent(files: seq<FileDiff>, f: FileDiff, hs: seq<Hunk>, h: Hunk, l: DiffLine)
    requires PrintableLine(Content(l))
    ensures Step(InHunk(files, f, hs, h), PrintLine(Content(l))) == InHunk(files, f, hs, h.(lines := h.lines + [l]))
  {
    hide CountIn, CountKind;
    CountOneMore(h.lines, l, '+');
    CountOneMore(h.lines, l, '-');
    var ln := PrintLine(Content(l));
    assert ln[0] == l.kind && ln[1..] == l.text;
    StepIsContent(InHunk(files, f, hs, h), ln);
    assert DiffLine(ln[0], ln[1..]) == l;
  }

  /** Inside the hunks, a line that starts with a content mark is content, whatever follows the mark. */
  lemma StepIsContent(s: State, ln: string)
    requires !s.truncated && s.cur.Some? && s.inHunks && ln != "" && (ln[0] == '+' || ln[0] == '-' || ln[0] == ' ')
    ensures Step(s, ln) == ContentLine(s, ln)
  {
    hide ContentLine;
    assert ln[0] != HEADER[0] && ln[0] != "@@"[0];
    assert ln[..1] == [ln[0]];
  }

  /** A line that is no header, no hunk start and no content changes nothing. */
  predicate Ignored(ln: string) {
    && !(HEADER <= ln) && !("@@" <= ln) && !("+" <= ln || "-" <= ln || " " <= ln)
  }

  lemma TakesNoNewline(s: State)
    requires s.inHunks
    ensures Step(s, PrintLine(NoNewline)) == s
  {
    var ln := PrintLine(NoNewline);
    assert ln[0] != HEADER[0] && ln[0] != "@@"[0] && ln[0] != '+' && ln[0] != '-' && ln[0] != ' ';
    assert Ignored(ln);
  }

  lemma {:induction false} TakesLines(files: seq<FileDiff>, f: FileDiff, hs: seq<Hunk>, h: Hunk, ls: seq<PrintedLine>)
    requires forall i :: 0 <= i < |ls| ==> PrintableLine(ls[i])
    requires h.lines == []
    ensures Run(InHunk(files, f, hs, h), PrintLines(ls)) == InHunk(files, f, hs, h.(lines := Kept(ls)))
  {
    hide Step, InHunk, PrintLine;
    if ls == [] {
      assert h.(lines := []) == h;
    } else {
      var front, l := ls[..|ls| - 1], ls[|ls| - 1];
      var s := InHunk(files, f, hs, h.(lines := Kept(front)));
      TakesLines(files, f, hs, h, front);
      RunAppend(InHunk(files, f, hs, h), PrintLines(front), [PrintLine(l)]);
      RunOne(s, PrintLine(l));
      if l.Content? {
        TakesContent(files, f, hs, h.(lines := Kept(front)), l.line);
      } else {
        InHunkIsInHunks(files, f, hs, h.(lines := Kept(front)));
        TakesNoNewline(s);
        assert Kept(ls) == Kept(front);
      }
    }
  }

  /** A state whose current file has just these hunks. */
  predicate Holds(s: State, files: seq<FileDiff>, f: FileDiff, hs: seq<Hunk>) {
    && !s.truncated
    && FlushHunk(s.(inHunks := true)) == Current(files, Filled(f, hs), None, true)
  }

  lemma StartsHunk(s: State, files: seq<FileDiff>, f: FileDiff, hs: seq<Hunk>, header: string)
    requires Holds(s, files, f, hs) && "@@" <= header
    requires !s.inHunks ==> s.curHunk.None?
    ensures Step(s, header) == InHunk(files, f, hs, Hunk(header, []))
  {
    hide CountIn;
    StepIsHunkStart(s, header);
  }

  lemma StepIsHunkStart(s: State, ln: string)
    requires !s.truncated && s.cur.Some? && "@@" <= ln
    ensures var t := FlushHunk(s.(inHunks := true));
            Step(s, ln) == if t.cur.Some? && t.cur.value.tooLarge then t else t.(curHunk := Some(Hunk(ln, [])))
  {
    assert ln[0] == '@';
    NoHeaderLine(s.cur.value, ln);
  }

  lemma NoHeaderLine(f: FileDiff, ln: string)
    requires ln != "" && ln[0] == '@'
    ensures FileHeaderLine(f, ln).None? && !(HEADER <= ln)
  {}

  lemma EndsHunk(files: seq<FileDiff>, f: FileDiff, hs: seq<Hunk>, h: Hunk)
    ensures Holds(InHunk(files, f, hs, h), files, f, hs + [h])
  {
    hide CountKind;
    assert (hs + [h])[..|hs|] == hs;
  }

  lemma {:induction false} TakesHunks(s: State, files: seq<FileDiff>, f: FileDiff, hs: seq<PrintedHunk>)
    requires Holds(s, files, f, []) && s.curHunk.None?
    requires forall i :: 0 <= i < |hs| ==> PrintableHunk(hs[i])
    ensures Holds(Run(s, PrintHunks(hs)), files, f, ShownHunks(hs))
    ensures hs == [] || Run(s, PrintHunks(hs)).inHunks
  {
    hide Step, InHunk, Holds, PrintLines, Kept;
    if hs != [] {
      var front, h := hs[..|hs| - 1], hs[|hs| - 1];
      TakesHunks(s, files, f, front);
      var t := Run(s, PrintHunks(front));
      RunAppend(s, PrintHunks(front), [h.header] + PrintLines(h.lines));
      RunAppend(t, [h.header], PrintLines(h.lines));
      RunOne(t, h.header);
      StartsHunk(t, files, f, ShownHunks(front), h.header);
      TakesLines(files, f, ShownHunks(front), Hunk(h.header, []), h.lines);
      assert Hunk(h.header, []).(lines := Kept(h.lines)) == ShownHunk(h);
      EndsHunk(files, f, ShownHunks(front), ShownHunk(h));
      InHunkIsInHunks(files, f, ShownHunks(front), ShownHunk(h));
    }
  }

  lemma InHunkIsInHunks(files: seq<FileDiff>, f: FileDiff, hs: seq<Hunk>, h: Hunk)
    ensures InHunk(files, f, hs, h).inHunks
  {}

  // ---- File headers ----

  lemma Trimmed(prefix: string, rest: string)
    ensures prefix <= prefix + rest && TrimPrefix(prefix + rest, prefix) == rest
  {}

  lemma TakesHeader(s: State, c: Change)
    requires !s.truncated && |FlushFile(s).files| < MAX_FILES
    ensures Step(s, HeaderLine(c)) == FlushFile(s).(inHunks := false, cur := Some(NewFile(HeaderLine(c))))
    ensures NewFile(HeaderLine(c)) == FileDiff('M', "", HeaderPath(HeaderRest(c)), false, 0, 0, false, [])
  {
    hide FlushFile, HeaderPath, HeaderRest;
    Trimmed(HEADER, HeaderRest(c));
  }

  /** The current file after one line before its first hunk, if it is such a line. */
  function HeadLine(f: FileDiff, ln: string): Option<FileDiff> {
    if HEADER <= ln then None
    else if FileHeaderLine(f, ln).Some? then FileHeaderLine(f, ln)
    else if Ignored(ln) then Some(f)
    else None
  }

  lemma TakesFileLine(files: seq<FileDiff>, f: FileDiff, ln: string)
    requires HeadLine(f, ln).Some?
    ensures Step(Current(files, f, None, false), ln) == Current(files, HeadLine(f, ln).value, None, false)
  {
    hide FileHeaderLine;
  }

  /** The current file after some of its lines before the first hunk. */
  function ApplyAll(f: FileDiff, ls: seq<string>): Option<FileDiff> {
    if ls == [] then Some(f)
    else
      var before := ApplyAll(f, ls[..|ls| - 1]);
      if before.None? then None else HeadLine(before.value, ls[|ls| - 1])
  }

  lemma {:induction false} TakesFileLines(files: seq<FileDiff>, f: FileDiff, ls: seq<string>)
    requires ApplyAll(f, ls).Some?
    ensures Run(Current(files, f, None, false), ls) == Current(files, ApplyAll(f, ls).value, None, false)
  {
    hide Step, HeadLine;
    if ls != [] {
      var front := ls[..|ls| - 1];
      TakesFileLines(files, f, front);
      TakesFileLine(files, ApplyAll(f, front).value, ls[|ls| - 1]);
    }
  }

  lemma {:induction false} ApplyAppend(f: FileDiff, a: seq<string>, b: seq<string>)
    requires ApplyAll(f, a).Some?
    ensures ApplyAll(f, a + b) == ApplyAll(ApplyAll(f, a).value, b)
  {
    hide HeadLine;
    if b == [] {
      assert a + b == a;
    } else {
      ApplyAppend(f, a, b[..|b| - 1]);
      assert (a + b)[..|a + b| - 1] == a + b[..|b| - 1];
    }
  }

  lemma ApplyNone(f: FileDiff)
    ensures ApplyAll(f, []) == Some(f)
  {}

  lemma ApplyOne(f: FileDiff, ln: string, g: FileDiff)
    requires HeadLine(f, ln) == Some(g)
    ensures ApplyAll(f, [ln]) == Some(g)
  {
    hide HeadLine;
    assert [ln][..0] == [];
  }

  lemma ApplyTwo(f: FileDiff, a: string, g: FileDiff, b: string, h: FileDiff)
    requires HeadLine(f, a) == Some(g) && HeadLine(g, b) == Some(h)
    ensures ApplyAll(f, [a, b]) == Some(h)
  {
    hide HeadLine;
    ApplyOne(f, a, g);
    assert [a, b][..1] == [a];
  }

  lemma ApplyThree(f: FileDiff, a: string, b: string, g: FileDiff, c: string, h: FileDiff)
    requires HeadLine(f, a) == Some(f) && HeadLine(f, b) == Some(g) && HeadLine(g, c) == Some(h)
    ensures ApplyAll(f, [a, b, c]) == Some(h)
  {
    hide HeadLine;
    ApplyTwo(f, a, f, b, g);
    assert [a, b, c][..2] == [a, b];
  }

  lemma Differs(prefix: string, ln: string, i: nat)
    requires i < |prefix| && i < |ln| && prefix[i] != ln[i]
    ensures !(prefix <= ln)
  {}

  /** A line that starts with none of the marks the parser looks for says nothing. */
  lemma TakesRemark(f: FileDiff, ln: string)
    requires ln != "" && (ln[0] == 'o' || ln[0] == 's' || ln[0] == 'i')
    ensures HeadLine(f, ln) == Some(f)
  {}

  lemma TakesNewMode(f: FileDiff, rest: string)
    ensures HeadLine(f, "new mode " + rest) == Some(f)
  {
    assert ("new mode " + rest)[0] == 'n';
    Differs("new file", "new mode " + rest, 4);
  }

  lemma TakesNewFile(f: FileDiff, mode: string)
    ensures HeadLine(f, "new file mode " + mode) == Some(f.(status := 'A'))
  {
    Differs(HEADER, "new file mode " + mode, 0);
    assert "new file mode " + mode == "new file" + (" mode " + mode);
  }

  lemma TakesDeletedFile(f: FileDiff, mode: string)
    ensures HeadLine(f, "deleted file mode " + mode) == Some(f.(status := 'D'))
  {
    Differs(HEADER, "deleted file mode " + mode, 1);
    Differs("new file", "deleted file mode " + mode, 0);
    assert "deleted file mode " + mode == "deleted file" + (" mode " + mode);
  }

  lemma TakesBinary(f: FileDiff, rest: string)
    ensures HeadLine(f, "Binary files " + rest) == Some(f.(binary := true))
  {
    assert ("Binary files " + rest)[0] == 'B';
    Trimmed("Binary files ", rest);
  }

  lemma TakesRename(f: FileDiff, path: string)
    ensures HeadLine(f, "rename from " + path) == Some(f.(status := 'R', oldPath := path))
    ensures HeadLine(f, "rename to " + path) == Some(f.(newPath := path))
  {
    Trimmed("rename from ", path);
    Trimmed("rename to ", path);
    assert ("rename from " + path)[0] == 'r' && ("rename to " + path)[0] == 'r';
    Differs("rename from ", "rename to " + path, 7);
  }

  lemma TakesCopy(f: FileDiff, path: string)
    ensures HeadLine(f, "copy from " + path) == Some(f.(status := 'C', oldPath := path))
    ensures HeadLine(f, "copy to " + path) == Some(f.(newPath := path))
  {
    Trimmed("copy from ", path);
    Trimmed("copy to ", path);
    assert ("copy from " + path)[0] == 'c' && ("copy to " + path)[0] == 'c';
    Differs("copy from ", "copy to " + path, 5);
  }

  lemma TakesOldPath(f: FileDiff, p: string)
    ensures HeadLine(f, "--- " + p) == Some(if p != "/dev/null" then f.(oldPath := TrimPrefix(p, "a/")) else f)
  {
    Trimmed("--- ", p);
    assert ("--- " + p)[0] == '-';
  }

  lemma TakesNewPath(f: FileDiff, p: string)
    ensures HeadLine(f, "+++ " + p) == Some(if p != "/dev/null" then f.(newPath := TrimPrefix(p, "b/")) else f)
  {
    Trimmed("+++ ", p);
    assert ("+++ " + p)[0] == '+';
  }

  lemma TakesModes(c: Change, f: FileDiff)
    ensures ApplyAll(f, ModeLines(c)) == Some(f)
  {
    hide HeadLine, ApplyAll;
    match c.modes
    case None => ApplyNone(f);
    case Some((before, after)) =>
      TakesRemark(f, "old mode " + before);
      TakesNewMode(f, after);
      ApplyTwo(f, "old mode " + before, f, "new mode " + after, f);
  }

  /** The file after the lines that say what happened to it. */
  function Named(c: Change, f: FileDiff): FileDiff {
    var g := f.(status := StatusOf(c.kind));
    if Moved(c) then g.(oldPath := Label("", c.kind.source), newPath := Label("", c.path)) else g
  }

  lemma TakesKind(c: Change, f: FileDiff)
    requires f.status == 'M'
    ensures ApplyAll(f, KindLines(c)) == Some(Named(c, f))
  {
    hide HeadLine, ApplyAll, Label;
    match c.kind {
      case Added(mode) =>
        TakesNewFile(f, mode);
        ApplyOne(f, "new file mode " + mode, f.(status := 'A'));
      case Deleted(mode) =>
        TakesDeletedFile(f, mode);
        ApplyOne(f, "deleted file mode " + mode, f.(status := 'D'));
      case Modified =>
        ApplyNone(f);
      case Renamed(source, similarity) =>
        var g := f.(status := 'R', oldPath := Label("", source));
        TakesRemark(f, "similarity index " + similarity);
        TakesRename(f, Label("", source));
        TakesRename(g, Label("", c.path));
        ApplyThree(f, "similarity index " + similarity, "rename from " + Label("", source), g,
                   "rename to " + Label("", c.path), Named(c, f));
      case Copied(source, similarity) =>
        var g := f.(status := 'C', oldPath := Label("", source));
        TakesRemark(f, "similarity index " + similarity);
        TakesCopy(f, Label("", source));
        TakesCopy(g, Label("", c.path));
        ApplyThree(f, "similarity index " + similarity, "copy from " + Label("", source), g,
                   "copy to " + Label("", c.path), Named(c, f));
    }
  }

  lemma TakesIndex(c: Change, f: FileDiff)
    ensures ApplyAll(f, IndexLines(c)) == Some(f)
  {
    hide HeadLine, ApplyAll;
    match c.index
    case None => ApplyNone(f);
    case Some(ids) =>
      TakesRemark(f, "index " + ids);
      ApplyOne(f, "index " + ids, f);
  }

  /** The file after the lines that come before its first hunk. */
  function Pathed(c: Change, f: FileDiff): FileDiff {
    if c.binary then f.(binary := true)
    else if c.hunks == [] then f
    else f.(oldPath := if c.kind.Added? then f.oldPath else FromPathLine("a/", Source(c)),
            newPath := if c.kind.Deleted? then f.newPath else FromPathLine("b/", c.path))
  }

  lemma DevNullHasNoTab()
    ensures "/dev/null" + Tab("/dev/null") == "/dev/null"
  {}

  /** A label on a path line is never taken for /dev/null, and loses its prefix only if it is plain. */
  lemma LabelOnPathLine(prefix: string, n: Name)
    requires prefix == "a/" || prefix == "b/"
    ensures var p := Label(prefix, n) + Tab(Label(prefix, n));
            p != "/dev/null" && TrimPrefix(p, prefix) == FromPathLine(prefix, n)
  {
    var tab := Tab(Label(prefix, n));
    var p := Label(prefix, n) + tab;
    match n
    case Plain(path) =>
      assert p == prefix + (path + tab) && p[0] == prefix[0];
      Trimmed(prefix, path + tab);
    case Quoted(escaped) =>
      assert p[0] == '"';
  }

  lemma TakesBody(c: Change, f: FileDiff)
    ensures ApplyAll(f, BodyLines(c)) == Some(Pathed(c, f))
  {
    hide HeadLine, ApplyAll, Label, Tab, FromPathLine, TrimPrefix;
    if c.binary {
      TakesBinary(f, OldLabel(c) + " and " + NewLabel(c) + " differ");
      ApplyOne(f, "Binary files " + (OldLabel(c) + " and " + NewLabel(c) + " differ"), f.(binary := true));
    } else if c.hunks == [] {
      ApplyNone(f);
    } else {
      var p, q := OldLabel(c) + Tab(OldLabel(c)), NewLabel(c) + Tab(NewLabel(c));
      DevNullHasNoTab();
      LabelOnPathLine("a/", Source(c));
      LabelOnPathLine("b/", c.path);
      var g := if c.kind.Added? then f else f.(oldPath := FromPathLine("a/", Source(c)));
      TakesOldPath(f, p);
      TakesNewPath(g, q);
      ApplyTwo(f, "--- " + p, g, "+++ " + q, Pathed(c, f));
    }
  }

  lemma HeadLinesGiveBare(c: Change)
    ensures ApplyAll(NewFile(HeaderLine(c)), HeadLines(c)) == Some(Bare(c))
  {
    hide ApplyAll, HeaderPath, ModeLines, KindLines, IndexLines, BodyLines, Label, Tab, FromPathLine, HeaderRest;
    Trimmed(HEADER, HeaderRest(c));
    var f := NewFile(HeaderLine(c));
    TakesModes(c, f);
    TakesKind(c, f);
    ApplyAppend(f, ModeLines(c), KindLines(c));
    TakesIndex(c, Named(c, f));
    TakesBody(c, Named(c, f));
    ApplyAppend(Named(c, f), IndexLines(c), BodyLines(c));
    ApplyAppend(f, ModeLines(c) + KindLines(c), IndexLines(c) + BodyLines(c));
  }

  // ---- Whole patches ----

  /** A printed change closes the file before it and adds just itself. */
  lemma TakesChange(s: State, c: Change)
    requires Printable(c) && !s.truncated && |FlushFile(s).files| < MAX_FILES
    requires FlushFile(s).cur.None? && FlushFile(s).curHunk.None?
    ensures var t := Run(s, PrintChange(c));
            !t.truncated && FlushFile(t) == FlushFile(s).(files := FlushFile(s).files + [Shown(c)], inHunks := t.inHunks)
  {
    hide Step, FlushFile, HeadLines, HeaderLine, PrintHunks, NewFile, Bare, Holds, ShownHunks;
    var files := FlushFile(s).files;
    var head := HeadLines(c);
    var a := Current(files, NewFile(HeaderLine(c)), None, false);
    var b := Current(files, Bare(c), None, false);
    TakesHeader(s, c);
    FlushKeepsTruncated(s);
    RunAppend(s, [HeaderLine(c)], head + PrintHunks(c.hunks));
    RunOne(s, HeaderLine(c));
    RunAppend(a, head, PrintHunks(c.hunks));
    HeadLinesGiveBare(c);
    TakesFileLines(files, NewFile(HeaderLine(c)), head);
    BareHoldsNothing(files, c);
    TakesHunks(b, files, Bare(c), c.hunks);
    HoldsFlushed(Run(b, PrintHunks(c.hunks)), files, Bare(c), ShownHunks(c.hunks));
    FlushKeepsTruncated(Run(b, PrintHunks(c.hunks)));
  }

  lemma FlushKeepsTruncated(s: State)
    ensures FlushFile(s).truncated == s.truncated
  {}

  lemma BareHoldsNothing(files: seq<FileDiff>, c: Change)
    ensures Holds(Current(files, Bare(c), None, false), files, Bare(c), [])
  {
    hide NewPathOf, OldPathOf;
  }

  lemma HoldsFlushed(s: State, files: seq<FileDiff>, f: FileDiff, hs: seq<Hunk>)
    requires Holds(s, files, f, hs)
    ensures FlushFile(s) == State(files + [Filled(f, hs)], None, None, s.inHunks, false)
  {
    hide Filled;
  }

  /** Up to the file limit, printing and parsing shows every change once, in order. */
  lemma {:induction false} TakesChanges(cs: seq<Change>)
    requires |cs| <= MAX_FILES && forall i :: 0 <= i < |cs| ==> Printable(cs[i])
    ensures var t := Run(START, PrintChanges(cs));
            && !t.truncated && FlushFile(t).files == ShownAll(cs)
            && FlushFile(t).cur.None? && FlushFile(t).curHunk.None?
  {
    hide Step, FlushFile, Shown, PrintChange;
    if cs == [] {
      StartFlushes();
    } else {
      var front := cs[..|cs| - 1];
      TakesChanges(front);
      TakesChange(Run(START, PrintChanges(front)), cs[|cs| - 1]);
      RunAppend(START, PrintChanges(front), PrintChange(cs[|cs| - 1]));
      assert ShownAll(cs) == ShownAll(front) + [Shown(cs[|cs| - 1])];
    }
  }

  lemma StartFlushes()
    ensures FlushFile(START) == START
  {}

  lemma Reassociate<T>(a: seq<T>, b: seq<T>, c: seq<T>)
    ensures (a + b) + c == a + (b + c)
  {}

  lemma {:induction false} PrintAppend(a: seq<Change>, b: seq<Change>)
    ensures PrintChanges(a + b) == PrintChanges(a) + PrintChanges(b)
  {
    hide PrintChange;
    if b == [] {
      assert a + b == a;
    } else {
      PrintAppend(a, b[..|b| - 1]);
      assert (a + b)[..|a + b| - 1] == a + b[..|b| - 1];
      Reassociate(PrintChanges(a), PrintChanges(b[..|b| - 1]), PrintChange(b[|b| - 1]));
    }
  }

  lemma StartsWithHeader(cs: seq<Change>)
    requires cs != []
    ensures PrintChanges(cs) != [] && PrintChanges(cs)[0] == HeaderLine(cs[0])
  {
    hide HeaderLine, HeadLines, PrintHunks;
    assert cs == [cs[0]] + cs[1..];
    PrintAppend([cs[0]], cs[1..]);
    assert [cs[0]][..0] == [];
    assert PrintChanges([cs[0]]) == [] + PrintChange(cs[0]);
  }

  /** What parsing a printed patch gives: all its changes, or the first ones up to the limit. */
  function Expected(cs: seq<Change>): (seq<FileDiff>, bool) {
    if |cs| <= MAX_FILES then (WithPaths(ShownAll(cs)), false) else (ShownAll(cs[..MAX_FILES]), true)
  }

  lemma LinesWithinLimit(cs: seq<Change>)
    requires |cs| <= MAX_FILES && forall i :: 0 <= i < |cs| ==> Printable(cs[i])
    ensures var s := Run(START, PrintChanges(cs) + [""]);
            !s.truncated && FlushFile(s).files == ShownAll(cs)
  {
    hide Step, FlushFile, PrintChanges, Run;
    TakesChanges(cs);
    RunAppend(START, PrintChanges(cs), [""]);
    RunOne(Run(START, PrintChanges(cs)), "");
    EmptyLine(Run(START, PrintChanges(cs)));
  }

  lemma LinesBeyondLimit(cs: seq<Change>)
    requires |cs| > MAX_FILES && forall i :: 0 <= i < |cs| ==> Printable(cs[i])
    ensures var s := Run(START, PrintChanges(cs) + [""]);
            s.truncated && s.files == ShownAll(cs[..MAX_FILES])
  {
    hide Step, FlushFile, PrintChanges, HeaderLine, Shown, Run;
    var first, rest := cs[..MAX_FILES], cs[MAX_FILES..];
    TakesChanges(first);
    assert first + rest == cs;
    PrintAppend(first, rest);
    StartsWithHeader(rest);
    var t := Run(START, PrintChanges(first));
    var ls := PrintChanges(rest) + [""];
    assert PrintChanges(cs) + [""] == PrintChanges(first) + ls && ls == [ls[0]] + ls[1..];
    RunAppend(START, PrintChanges(first), ls);
    RunAppend(t, [ls[0]], ls[1..]);
    RunOne(t, ls[0]);
    HeaderStops(t, rest[0]);
    StoppedStays(Step(t, ls[0]), ls[1..]);
  }

  lemma EmptyLine(s: State)
    ensures Step(s, "") == s
  {}

  lemma HeaderStops(s: State, c: Change)
    requires !s.truncated && |FlushFile(s).files| == MAX_FILES
    ensures Step(s, HeaderLine(c)).truncated && Step(s, HeaderLine(c)).files == FlushFile(s).files
  {
    hide FlushFile, HeaderRest;
    Trimmed(HEADER, HeaderRest(c));
  }

  // ---- Text ----

  predicate OneLined(c: Change) {
    && OneLine(Text(Source(c))) && OneLine(Text(c.path)) && OneLinedKind(c.kind)
    && (c.modes.Some? ==> OneLine(c.modes.value.0) && OneLine(c.modes.value.1))
    && (c.index.Some? ==> OneLine(c.index.value))
    && forall i :: 0 <= i < |c.hunks| ==> OneLinedHunk(c.hunks[i])
  }

  predicate OneLinedKind(kind: Kind) {
    match kind
    case Added(mode) => OneLine(mode)
    case Deleted(mode) => OneLine(mode)
    case Modified => true
    case Renamed(_, similarity) => OneLine(similarity)
    case Copied(_, similarity) => OneLine(similarity)
  }

  predicate OneLinedHunk(h: PrintedHunk) {
    OneLine(h.header) && forall i :: 0 <= i < |h.lines| ==> OneLinedLine(h.lines[i])
  }

  predicate OneLinedLine(l: PrintedLine) {
    l.Content? ==> OneLine(l.line.text)
  }

  predicate AllOneLine(ls: seq<string>) {
    forall i :: 0 <= i < |ls| ==> OneLine(ls[i])
  }

  /** The lines before the changes, as the commit id that comes before the patch of a root commit. */
  predicate Preamble(ls: seq<string>) {
    forall i :: 0 <= i < |ls| ==> OneLine(ls[i]) && !(HEADER <= ls[i])
  }

  function PatchLines(preamble: seq<string>, cs: seq<Change>): seq<string> {
    preamble + (PrintChanges(cs) + [""])
  }

  function PrintText(preamble: seq<string>, cs: seq<Change>): string {
    JoinLines(PatchLines(preamble, cs))
  }

  /** Every change can be printed as lines. */
  predicate Patch(preamble: seq<string>, cs: seq<Change>) {
    Preamble(preamble) && forall i :: 0 <= i < |cs| ==> Printable(cs[i]) && OneLined(cs[i])
  }

  /** Lines before the first file header are skipped. */
  lemma {:induction false} SkipsPreamble(ls: seq<string>)
    requires Preamble(ls)
    ensures Run(START, ls) == START
  {
    if ls != [] {
      SkipsPreamble(ls[..|ls| - 1]);
      assert !(HEADER <= ls[|ls| - 1]);
    }
  }

  lemma {:induction false} LinesAreOneLine(ls: seq<PrintedLine>)
    requires forall i :: 0 <= i < |ls| ==> PrintableLine(ls[i]) && OneLinedLine(ls[i])
    ensures AllOneLine(PrintLines(ls))
  {
    if ls != [] { LinesAreOneLine(ls[..|ls| - 1]); }
  }

  lemma {:induction false} HunksAreOneLine(hs: seq<PrintedHunk>)
    requires forall i :: 0 <= i < |hs| ==> PrintableHunk(hs[i]) && OneLinedHunk(hs[i])
    ensures AllOneLine(PrintHunks(hs))
  {
    hide PrintLines;
    if hs != [] {
      HunksAreOneLine(hs[..|hs| - 1]);
      LinesAreOneLine(hs[|hs| - 1].lines);
    }
  }

  lemma LabelIsOneLine(prefix: string, n: Name)
    requires OneLine(prefix) && OneLine(Text(n))
    ensures OneLine(Label(prefix, n)) && OneLine(Tab(Label(prefix, n)))
  {}

  lemma HeaderIsOneLine(c: Change)
    requires OneLined(c)
    ensures OneLine(HeaderLine(c))
  {
    hide Label, Tab;
    LabelIsOneLine("a/", Source(c));
    LabelIsOneLine("b/", c.path);
  }

  lemma ModeAndIndexAreOneLine(c: Change)
    requires OneLined(c)
    ensures AllOneLine(ModeLines(c)) && AllOneLine(IndexLines(c))
  {}

  lemma KindIsOneLine(c: Change)
    requires OneLined(c)
    ensures AllOneLine(KindLines(c))
  {
    hide Label, Tab;
    LabelIsOneLine("", Source(c));
    LabelIsOneLine("", c.path);
  }

  lemma PathLinesAreOneLine(p: string)
    requires OneLine(p)
    ensures OneLine("--- " + (p + Tab(p))) && OneLine("+++ " + (p + Tab(p)))
  {}

  lemma BinaryIsOneLine(p: string, q: string)
    requires OneLine(p) && OneLine(q)
    ensures OneLine("Binary files " + (p + " and " + q + " differ"))
  {}

  lemma BodyIsOneLine(c: Change)
    requires OneLined(c)
    ensures AllOneLine(BodyLines(c))
  {
    LabelIsOneLine("a/", Source(c));
    LabelIsOneLine("b/", c.path);
    assert OneLine("/dev/null");
    hide Label, Tab, OneLine;
    PathLinesAreOneLine(OldLabel(c));
    PathLinesAreOneLine(NewLabel(c));
    BinaryIsOneLine(OldLabel(c), NewLabel(c));
  }

  lemma {:induction false} ChangesAreOneLine(cs: seq<Change>)
    requires Patch([], cs)
    ensures AllOneLine(PrintChanges(cs))
  {
    hide HeaderLine, ModeLines, KindLines, IndexLines, BodyLines, PrintHunks, OneLine, OneLinedKind;
    if cs != [] {
      var c := cs[|cs| - 1];
      ChangesAreOneLine(cs[..|cs| - 1]);
      HeaderIsOneLine(c);
      ModeAndIndexAreOneLine(c);
      KindIsOneLine(c);
      BodyIsOneLine(c);
      HunksAreOneLine(c.hunks);
    }
  }

  /** The lines of a printed patch are what the parser splits it into, and it starts with the changes. */
  lemma PatchRuns(preamble: seq<string>, cs: seq<Change>)
    requires Patch(preamble, cs)
    ensures SplitLines(PrintText(preamble, cs)) == PatchLines(preamble, cs)
    ensures Run(START, PatchLines(preamble, cs)) == Run(START, PrintChanges(cs) + [""])
  {
    hide SplitLines, JoinLines, PrintChanges, Run, OneLined, Printable;
    var ls := PatchLines(preamble, cs);
    ChangesAreOneLine(cs);
    assert OneLine("");
    hide OneLine;
    forall i | 0 <= i < |ls| ensures OneLine(ls[i]) {
      if i < |preamble| { assert ls[i] == preamble[i]; }
    }
    SplitJoined(ls);
    SkipsPreamble(preamble);
    RunAppend(START, preamble, PrintChanges(cs) + [""]);
  }

  lemma PatchIsPrintable(preamble: seq<string>, cs: seq<Change>)
    requires Patch(preamble, cs)
    ensures forall i :: 0 <= i < |cs| ==> Printable(cs[i])
  {
    hide Printable, OneLined;
  }

  /** Parsing a printed patch gives back its changes, up to the two limits. */
  lemma RoundTrip(preamble: seq<string>, cs: seq<Change>)
    requires Patch(preamble, cs)
    ensures ParseOf(PrintText(preamble, cs)) == Expected(cs)
  {
    hide SplitLines, PrintText, PatchLines, PrintChanges, Run, FlushFile, Printable;
    PatchRuns(preamble, cs);
    PatchIsPrintable(preamble, cs);
    if |cs| <= MAX_FILES { LinesWithinLimit(cs); } else { LinesBeyondLimit(cs); }
  }

  // ---- What is shown, field by field ----

  /** How many lines of the hunks start with `kind`. */
  function LinesOf(hs: seq<PrintedHunk>, kind: char): nat {
    if hs == [] then 0 else LinesIn(hs[0].lines, kind) + LinesOf(hs[1..], kind)
  }

  function LinesIn(ls: seq<PrintedLine>, kind: char): nat {
    if ls == [] then 0 else (if ls[0].Content? && ls[0].line.kind == kind then 1 else 0) + LinesIn(ls[1..], kind)
  }

  /** The lines of a hunk without the remarks. */
  function Contents(ls: seq<PrintedLine>): seq<DiffLine> {
    if ls == [] then [] else (match ls[0] case Content(line) => [line] case NoNewline => []) + Contents(ls[1..])
  }

  lemma {:induction false} ContentsOneMore(ls: seq<PrintedLine>, l: PrintedLine)
    ensures Contents(ls + [l]) == Contents(ls) + if l.Content? then [l.line] else []
  {
    if ls == [] {
      assert [] + [l] == [l] && [l][1..] == [];
    } else {
      var all := ls + [l];
      ContentsOneMore(ls[1..], l);
      assert all[1..] == ls[1..] + [l] && all[0] == ls[0];
    }
  }

  lemma {:induction false} LinesInOneMore(ls: seq<PrintedLine>, l: PrintedLine, kind: char)
    ensures LinesIn(ls + [l], kind) == LinesIn(ls, kind) + if l.Content? && l.line.kind == kind then 1 else 0
  {
    if ls == [] {
      assert [] + [l] == [l] && [l][1..] == [];
    } else {
      var all := ls + [l];
      LinesInOneMore(ls[1..], l, kind);
      assert all[1..] == ls[1..] + [l] && all[0] == ls[0];
    }
  }

  lemma {:induction false} KeptIs(ls: seq<PrintedLine>, kind: char)
    ensures Kept(ls) == Contents(ls) && CountKind(Kept(ls), kind) == LinesIn(ls, kind)
  {
    if ls != [] {
      var front, l := ls[..|ls| - 1], ls[|ls| - 1];
      KeptIs(front, kind);
      assert ls == front + [l];
      ContentsOneMore(front, l);
      LinesInOneMore(front, l, kind);
      if l.Content? { CountOneMore(Kept(front), l.line, kind); } else { assert Kept(front) + [] == Kept(front); }
    }
  }

  lemma {:induction false} LinesOfOneMore(hs: seq<PrintedHunk>, h: PrintedHunk, kind: char)
    ensures LinesOf(hs + [h], kind) == LinesOf(hs, kind) + LinesIn(h.lines, kind)
  {
    hide LinesIn;
    if hs == [] {
      assert [] + [h] == [h] && [h][1..] == [];
    } else {
      var all := hs + [h];
      LinesOfOneMore(hs[1..], h, kind);
      assert all[1..] == hs[1..] + [h] && all[0] == hs[0];
    }
  }

  lemma {:induction false} ShownCounts(hs: seq<PrintedHunk>, kind: char)
    ensures CountIn(ShownHunks(hs), kind) == LinesOf(hs, kind)
  {
    hide Kept, Contents, CountKind, LinesIn;
    if hs != [] {
      var n := |hs| - 1;
      var front, h := hs[..n], hs[n];
      ShownCounts(front, kind);
      KeptIs(h.lines, kind);
      var shown := ShownHunks(hs);
      assert shown == ShownHunks(front) + [ShownHunk(h)] && shown[..|shown| - 1] == ShownHunks(front);
      assert hs == front + [h];
      LinesOfOneMore(front, h, kind);
    }
  }

  lemma {:induction false} ShownHunksAre(hs: seq<PrintedHunk>)
    ensures |ShownHunks(hs)| == |hs|
    ensures forall i :: 0 <= i < |hs| ==> ShownHunks(hs)[i] == Hunk(hs[i].header, Contents(hs[i].lines))
  {
    hide Kept, Contents;
    if hs != [] {
      var n := |hs| - 1;
      ShownHunksAre(hs[..n]);
      KeptIs(hs[n].lines, '+');
      forall i | 0 <= i < |hs| ensures ShownHunks(hs)[i] == Hunk(hs[i].header, Contents(hs[i].lines)) {
        if i < n { assert hs[..n][i] == hs[i]; }
      }
    }
  }

  /** What is shown for a change: the letter of its kind, whether it is binary, how many lines were added
      and deleted, and below 3000 of them its hunks with their content lines. */
  lemma ShownIs(c: Change)
    ensures var f := Shown(c);
            && f.status == (if c.kind.Added? then 'A' else if c.kind.Deleted? then 'D' else if c.kind.Renamed? then 'R'
                            else if c.kind.Copied? then 'C' else 'M')
            && f.binary == c.binary
            && f.additions == LinesOf(c.hunks, '+') && f.deletions == LinesOf(c.hunks, '-')
            && (f.tooLarge <==> f.additions + f.deletions >= 3000) && (f.tooLarge ==> f.hunks == [])
            && (!f.tooLarge ==> && |f.hunks| == |c.hunks|
                                && forall i :: 0 <= i < |c.hunks| ==> f.hunks[i] == Hunk(c.hunks[i].header, Contents(c.hunks[i].lines)))
  {
    hide Contents, CountIn, LinesOf;
    ShownHunksAre(c.hunks);
    ShownCounts(c.hunks, '+');
    ShownCounts(c.hunks, '-');
  }

  /** Up to 300 files the parse shows every change, with its old path where the new one is missing;
      beyond that the first 300, marked as truncated. */
  lemma ParseShows(preamble: seq<string>, cs: seq<Change>)
    requires Patch(preamble, cs)
    ensures var (files, truncated) := ParseOf(PrintText(preamble, cs));
            && (truncated <==> |cs| > 300) && |files| == (if |cs| > 300 then 300 else |cs|)
            && forall i :: 0 <= i < |files| ==>
                 files[i] == if Shown(cs[i]).newPath == "" && !truncated then Shown(cs[i]).(newPath := Shown(cs[i]).oldPath) else Shown(cs[i])
  {
    hide ParseOf, PrintText, Shown, Patch;
    RoundTrip(preamble, cs);
  }

  // ---- Which paths are shown right ----

  predicate HasMark(p: string) {
    |p| >= 3 && (" b/" <= p || HasMark(p[1..]))
  }

  lemma {:induction false} MarkSplits(p: string, q: string)
    ensures |HeaderPath(p + " b/" + q)| >= |q|
    ensures HeaderPath(p + " b/" + q) == q <==> !HasMark(p)
  {
    var s := p + " b/" + q;
    assert s == p + (" b/" + q);
    if p == "" {
      assert s == " b/" + q && s[3..] == q;
    } else {
      MarkSplits(p[1..], q);
      assert s[1..] == p[1..] + " b/" + q;
      if |p| >= 3 {
        assert s[0] == p[0] && s[1] == p[1] && s[2] == p[2];
      } else if |p| == 2 {
        assert s[2] == ' ';
      } else {
        assert s[1] == ' ';
      }
    }
  }

  lemma PlainHeader(p: string)
    ensures HeaderPath("a/" + p + " " + ("b/" + p)) == p <==> !HasMark(p)
    ensures p != "" ==> HeaderPath("a/" + p + " " + ("b/" + p)) != ""
  {
    var ap := "a/" + p;
    assert "a/" + p + " " + ("b/" + p) == ap + " b/" + p;
    MarkSplits(ap, p);
    assert ap[1..][1..] == p;
    assert ap[0] == 'a' && ap[1..][0] == '/';
  }

  lemma {:induction false} MarkedFirst(x: string, y: string)
    requires HasMark(x)
    ensures |HeaderPath(x + y)| >= |y|
  {
    if " b/" <= x {
      assert " b/" <= x + y;
    } else {
      assert !(" b/" <= x + y) by { assert forall i :: 0 <= i < 3 ==> (x + y)[i] == x[i]; }
      assert (x + y)[1..] == x[1..] + y;
      MarkedFirst(x[1..], y);
    }
  }

  lemma {:induction false} NoMarkAppend(x: string, y: string)
    requires !HasMark(x) && !HasMark(y) && x != "" && x[|x| - 1] == '"'
    ensures !HasMark(x + y)
  {
    var s := x + y;
    if |x| == 1 {
      assert s[1..] == y && s[0] == '"';
    } else {
      assert s[1..] == x[1..] + y && s[1] == x[1];
      if |x| == 2 {
        assert s[1] == '"';
      } else {
        assert s[0] == x[0] && s[2] == x[2];
      }
      assert !(" b/" <= s);
      NoMarkAppend(x[1..], y);
    }
  }

  lemma NoMarkCons(c: char, s: string)
    requires !HasMark(s) && (c != ' ' || s == "" || s[0] != 'b')
    ensures !HasMark([c] + s)
  {
    var t := [c] + s;
    assert t[1..] == s && t[0] == c;
    if s != "" { assert t[1] == s[0]; }
  }

  lemma NoMarkTail(c: char, s: string)
    requires !HasMark([c] + s)
    ensures !HasMark(s)
  {
    assert ([c] + s)[1..] == s;
  }

  /** Of a quoted name the file header gives away nothing, or more than the name. */
  lemma QuotedHeader(e: string)
    ensures var h := HeaderPath(Label("a/", Quoted(e)) + " " + Label("b/", Quoted(e)));
            h == "" || |h| > |e|
  {
    var tail := e + ['"'];
    var x, y := Label("a/", Quoted(e)), Label("b/", Quoted(e));
    assert x == ['"'] + (['a'] + (['/'] + tail)) && y == ['"'] + (['b'] + (['/'] + tail));
    var rest := x + ([' '] + y);
    assert x + " " + y == rest;
    if HasMark(x) {
      MarkedFirst(x, [' '] + y);
    } else {
      NoMarkTail('"', ['a'] + (['/'] + tail));
      NoMarkTail('a', ['/'] + tail);
      NoMarkTail('/', tail);
      NoMarkCons('/', tail);
      NoMarkCons('b', ['/'] + tail);
      NoMarkCons('"', ['b'] + (['/'] + tail));
      NoMarkCons(' ', y);
      hide HasMark;
      NoMarkAppend(x, [' '] + y);
      NoMarkNoPath(rest);
    }
  }

  lemma QuotedIsLonger(c: Change)
    requires c.path.Quoted?
    ensures NewPathOf(c) == "" || |NewPathOf(c)| > |c.path.escaped|
  {
    hide HeaderPath;
    QuotedHeader(c.path.escaped);
  }

  /** The new path is shown as it is exactly if the name is not quoted and, where a path line names it,
      has no space, or, where only the file header names it, has no " b/". */
  lemma NewPathShownIff(c: Change)
    requires Printable(c)
    ensures Shown(c).newPath == Text(c.path)
            <==> && c.path.Plain?
                 && (if HasPathLines(c) && !c.kind.Deleted? then ' ' !in c.path.path
                     else if Moved(c) then true
                     else !HasMark(c.path.path))
  {
    hide CountIn, ShownHunks, HasMark, HeaderPath;
    if c.path.Plain? {
      PlainHeader(c.path.path);
      PlainOnPathLine("b/", c.path.path);
    } else {
      QuotedIsLonger(c);
    }
  }

  /** A file that is shown with a new path is parsed just as shown. */
  lemma ParsedAsShown(preamble: seq<string>, cs: seq<Change>, i: nat)
    requires Patch(preamble, cs) && i < |cs| && i < MAX_FILES
    ensures |ParseOf(PrintText(preamble, cs)).0| > i
    ensures Shown(cs[i]).newPath != "" ==> ParseOf(PrintText(preamble, cs)).0[i] == Shown(cs[i])
  {
    hide ParseOf, PrintText, Shown, Patch;
    RoundTrip(preamble, cs);
  }

  lemma PlainOnPathLine(prefix: string, path: string)
    requires prefix == "a/" || prefix == "b/"
    ensures FromPathLine(prefix, Plain(path)) == path <==> ' ' !in path
  {
    assert ' ' !in prefix;
  }

  /** The old path of a change that has one is shown under the same condition on path lines. */
  lemma OldPathShownIff(c: Change)
    requires Source(c).Plain? && (Moved(c) || (HasPathLines(c) && !c.kind.Added?))
    ensures Shown(c).oldPath == Source(c).path <==> !HasPathLines(c) || ' ' !in Source(c).path
  {
    hide CountIn, ShownHunks;
    PlainOnPathLine("a/", Source(c).path);
  }

  // ---- A cut patch and its file limit ----

  /** A deleted text file with a quoted name that the file header does not give away. */
  predicate Unnamed(c: Change) {
    c.kind.Deleted? && HasPathLines(c) && c.path.Quoted? && !HasMark(HeaderRest(c))
  }

  lemma {:induction false} NoMarkNoPath(s: string)
    requires s != "" && s[|s| - 1] != '/'
    ensures HeaderPath(s) == "" <==> !HasMark(s)
  {
    if |s| >= 3 && !(" b/" <= s) {
      assert s[1..][|s[1..]| - 1] == s[|s| - 1];
      NoMarkNoPath(s[1..]);
    }
  }

  /** Exactly such a file is shown under its old path for want of a new one. */
  lemma NeedsPathIff(c: Change)
    requires Printable(c)
    ensures NeedsPath(Shown(c)) <==> Unnamed(c)
  {
    hide CountIn, ShownHunks;
    if c.path.Plain? { PlainHeader(c.path.path); }
    if c.path.Quoted? {
      var rest := HeaderRest(c);
      assert rest[|rest| - 1] == '"';
      NoMarkNoPath(rest);
    }
  }

  lemma PatchFiles(preamble: seq<string>, cs: seq<Change>)
    requires Patch(preamble, cs)
    ensures Files(PrintText(preamble, cs)) == ShownAll(if |cs| <= MAX_FILES then cs else cs[..MAX_FILES])
    ensures ParseOf(PrintText(preamble, cs)).1 <==> |cs| > MAX_FILES
  {
    hide SplitLines, PrintText, PatchLines, PrintChanges, Run, FlushFile, Shown, Printable;
    RoundTrip(preamble, cs);
    if |cs| > MAX_FILES {
      TruncatedFiles(PrintText(preamble, cs));
    } else {
      PatchRuns(preamble, cs);
      PatchIsPrintable(preamble, cs);
      LinesWithinLimit(cs);
    }
  }

  /** For a patch as git prints it, cut at any byte: the files kept after dropping the last one are a
      prefix of the whole patch's files if and only if the whole patch is within the file limit, or the
      cut one is beyond it too, or no kept file is an unnamed one. */
  lemma CutPathsArePrefixIff(preamble: seq<string>, cs: seq<Change>, p: string)
    requires Patch(preamble, cs) && p <= PrintText(preamble, cs)
    ensures DropLast(ParseOf(p).0) <= ParseOf(PrintText(preamble, cs)).0
            <==> || |cs| <= 300 || Headers(SplitLines(p)) > 300
                 || forall i :: 0 <= i < |cs| && i < Headers(SplitLines(p)) - 1 ==> !Unnamed(cs[i])
  {
    hide SplitLines, PrintText, OneLined, Printable, Shown, Unnamed, NeedsPath, ParseOf, Files, Headers;
    var raw := PrintText(preamble, cs);
    PatchFiles(preamble, cs);
    PatchIsPrintable(preamble, cs);
    TruncatedIff(p);
    TruncatedIff(raw);
    KeptPathsArePrefixIff(p, raw);
    if !ParseOf(p).1 && ParseOf(raw).1 {
      KeptFilesArePrefix(p, raw);
      FilesCount(p);
      var kept := DropLast(Files(p));
      forall i | 0 <= i < |kept| ensures NeedsPath(kept[i]) <==> Unnamed(cs[i]) {
        assert kept[i] == Files(raw)[i];
        NeedsPathIff(cs[i]);
      }
      UnnamedKept(cs, kept);
    }
  }

  lemma UnnamedKept(cs: seq<Change>, kept: seq<FileDiff>)
    requires |kept| <= |cs| && forall i :: 0 <= i < |kept| ==> (NeedsPath(kept[i]) <==> Unnamed(cs[i]))
    ensures (forall f :: f in kept ==> !NeedsPath(f)) <==> (forall i :: 0 <= i < |kept| ==> !Unnamed(cs[i]))
  {
    hide NeedsPath, Unnamed;
    if forall f :: f in kept ==> !NeedsPath(f) {
      forall i | 0 <= i < |kept| ensures !Unnamed(cs[i]) { assert kept[i] in kept; }
    }
  }

  // ---- Instances ----

  const HUNK := PrintedHunk("@@ -1 +0,0 @@", [Content(DiffLine('-', "x"))])

  /** The deletion of a text file whose name is a double quote. */
  const UNNAMED := Change(Deleted("100644"), Quoted("\\\""), None, None, false, [HUNK])

  const NAMED := Change(Modified, Plain("y"), None, None, false, [HUNK])

  lemma {:induction false} NoMark(s: string, at: int)
    requires forall i :: 0 <= i < |s| && s[i] == ' ' ==> i == at
    requires 0 <= at && at + 1 < |s| ==> s[at + 1] != 'b'
    ensures !HasMark(s)
  {
    if |s| >= 3 {
      if s[0] == ' ' { Differs(" b/", s, 1); } else { Differs(" b/", s, 0); }
      NoMark(s[1..], at - 1);
    }
  }

  lemma UnnamedHeader()
    ensures !HasMark(HeaderRest(UNNAMED))
  {
    var rest := HeaderRest(UNNAMED);
    assert rest == ("\"a/\\\"\"" + " ") + "\"b/\\\"\"";
    assert |"\"a/\\\"\""| == 6 && rest[6] == ' ' && rest[7] == '"';
    assert ' ' !in "\"a/\\\"\"" && ' ' !in "\"b/\\\"\"";
    hide HasMark;
    NoMark(rest, 6);
  }

  lemma UnnamedIsUnnamed()
    ensures Unnamed(UNNAMED) && Patch([], [UNNAMED, NAMED])
  {
    hide HasMark, HeaderRest;
    UnnamedHeader();
    assert HUNK.header == "@@" + " -1 +0,0 @@" && OneLine(HUNK.header) && OneLine("x") && OneLine("100644");
    assert OneLine(Text(UNNAMED.path)) && OneLine("y");
  }

  /** A change to a text file whose name has a space is shown with a tab after the name. */
  lemma SpaceShowsTab()
    ensures var files := ParseOf(PrintText([], [NAMED.(path := Plain("a b"))])).0;
            |files| > 0 && files[0].newPath == "a b" + "\t"
  {
    var c := NAMED.(path := Plain("a b"));
    SpaceIsTabbed();
    UnnamedIsUnnamed();
    OtherNameIsPatch(NAMED, Plain("a b"));
    hide Patch, Shown, ParseOf;
    ParsedAsShown([], [c], 0);
  }

  lemma SpaceIsTabbed()
    ensures Shown(NAMED.(path := Plain("a b"))).newPath == "a b" + "\t"
  {
    hide CountIn, ShownHunks, HeaderPath;
    assert ("b/" + "a b")[3] == ' ';
  }

  lemma OtherNameIsPatch(c: Change, n: Name)
    requires (c == NAMED || c == UNNAMED) && Patch([], [UNNAMED, NAMED]) && OneLine(Text(n)) && Text(n) != ""
    ensures Patch([], [c.(path := n)]) && Printable(c.(path := n))
  {
    assert Printable([UNNAMED, NAMED][0]) && OneLined([UNNAMED, NAMED][0]);
    assert Printable([UNNAMED, NAMED][1]) && OneLined([UNNAMED, NAMED][1]);
    hide PrintableHunk, OneLinedHunk, OneLine;
  }

  /** The deletion of a text file whose name has a " b/" is shown under another name. */
  lemma MarkShowsOther()
    ensures var files := ParseOf(PrintText([], [UNNAMED.(path := Plain("x b/y"))])).0;
            |files| > 0 && files[0].newPath != "x b/y"
  {
    var n := Plain("x b/y");
    var c := UNNAMED.(path := n);
    assert "x b/y"[1..] == " b/" + "y" && HasMark("x b/y");
    UnnamedIsUnnamed();
    OtherNameIsPatch(UNNAMED, n);
    hide Shown, HeaderPath, Patch, ParseOf, HasMark, Printable;
    NewPathShownIff(c);
    MarkedHeaderNotEmpty(c);
    ParsedAsShown([], [c], 0);
  }

  lemma MarkedHeaderNotEmpty(c: Change)
    requires c.path.Plain? && c.path.path != "" && c.kind.Deleted?
    ensures Shown(c).newPath != ""
  {
    hide CountIn, ShownHunks, HeaderPath, HasMark;
    PlainHeader(c.path.path);
  }

  function Repeated(n: nat): (cs: seq<Change>)
    ensures |cs| == n && forall i :: 0 <= i < n ==> cs[i] == NAMED
  {
    seq(n, _ => NAMED)
  }

  lemma {:induction false} JoinPrefix(a: seq<string>, b: seq<string>)
    requires a != []
    ensures JoinLines(a) + ['\n'] <= JoinLines(a + b) || b == []
  {
    if |b| == 1 {
      assert (a + b)[..|a + b| - 1] == a;
    } else if b != [] {
      JoinPrefix(a, b[..|b| - 1]);
      assert (a + b)[..|a + b| - 1] == a + b[..|b| - 1];
    }
  }

  /** The text of the first changes is a prefix of the text of all. */
  lemma FewerIsPrefix(a: seq<Change>, b: seq<Change>)
    requires a != [] && b != []
    ensures PrintText([], a) <= PrintText([], a + b)
  {
    hide JoinLines, PrintChanges;
    NoPreamble(a);
    NoPreamble(a + b);
    StartsWithHeader(a);
    StartsWithHeader(b);
    PrintAppend(a, b);
    var x, y := PrintChanges(a), PrintChanges(b) + [""];
    assert PrintChanges(a + b) + [""] == x + y;
    JoinPrefix(x, y);
    TrailingNewline(x);
  }

  lemma NoPreamble(cs: seq<Change>)
    ensures PatchLines([], cs) == PrintChanges(cs) + [""]
  {
    hide PrintChanges;
  }

  lemma TrailingNewline(ls: seq<string>)
    requires ls != []
    ensures JoinLines(ls + [""]) == JoinLines(ls) + ['\n']
  {
    assert (ls + [""])[..|ls|] == ls;
  }

  /** A patch of 301 files that starts with an unnamed deletion, cut after its second file, shows a
      path that the whole patch shows empty: filling in old paths is skipped at the file limit. */
  lemma CutShowsOtherPaths() returns (cs: seq<Change>, p: string)
    ensures Patch([], cs) && p <= PrintText([], cs) && !(DropLast(ParseOf(p).0) <= ParseOf(PrintText([], cs)).0)
  {
    hide PrintText, OneLined, Printable, ParseOf, SplitLines, Headers;
    UnnamedIsUnnamed();
    var first := [UNNAMED, NAMED];
    cs := first + Repeated(MAX_FILES - 1);
    p := PrintText([], first);
    assert first[1] == NAMED && forall i :: 0 <= i < |cs| ==> cs[i] == UNNAMED || cs[i] == NAMED;
    PatchOf(first, cs);
    FewerIsPrefix(first, Repeated(MAX_FILES - 1));
    PatchFiles([], first);
    TruncatedIff(p);
    FilesCount(p);
    CutPathsArePrefixIff([], cs, p);
    assert cs[0] == UNNAMED;
  }

  lemma PatchOf(first: seq<Change>, cs: seq<Change>)
    requires Patch([], first) && forall i :: 0 <= i < |cs| ==> cs[i] in first
    ensures Patch([], cs)
  {
    hide Printable, OneLined;
  }
}
