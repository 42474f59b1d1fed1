/** The unified-diff parser behind the commit page: a pass over the lines of a
    patch that may have been cut off at a byte limit. */
module DiffParser {
  import opened Wrappers

  const MAX_FILES := 300
  const MAX_LINES_PER_FILE := 3000

  datatype DiffLine = DiffLine(kind: char, text: string)

  datatype Hunk = Hunk(header: string, lines: seq<DiffLine>)

  datatype FileDiff = FileDiff(
    status: char, oldPath: string, newPath: string, binary: bool,
    additions: nat, deletions: nat, tooLarge: bool, hunks: seq<Hunk>)

  // ---- Lines ----

  /** The parts of a text between newlines. */
  function SplitLines(s: string): (ls: seq<string>)
    ensures |ls| > 0
  {
    if s == "" then [""]
    else
      var front := SplitLines(s[..|s| - 1]);
      if s[|s| - 1] == '\n' then front + [""]
      else front[..|front| - 1] + [front[|front| - 1] + [s[|s| - 1]]]
  }

  /** A prefix of a text has the same lines up to one that is cut short. */
  lemma {:induction false} PrefixLines(p: string, s: string)
    requires p <= s
    ensures var a, b := SplitLines(p), SplitLines(s);
            && |a| <= |b| && a[..|a| - 1] == b[..|a| - 1] && a[|a| - 1] <= b[|a| - 1]
    decreases |s|
  {
    if |p| < |s| {
      var front := s[..|s| - 1];
      assert p <= front;
      PrefixLines(p, front);
    } else {
      assert p == s;
    }
  }

  /** The text of some lines, each but the last followed by a newline. */
  function JoinLines(ls: seq<string>): string {
    if ls == [] then ""
    else if |ls| == 1 then ls[0]
    else JoinLines(ls[..|ls| - 1]) + ['\n'] + ls[|ls| - 1]
  }

  predicate OneLine(ln: string) {
    '\n' !in ln
  }

  function ExtendLast(ls: seq<string>, t: string): (r: seq<string>)
    requires |ls| > 0
    ensures |r| == |ls|
  {
    ls[..|ls| - 1] + [ls[|ls| - 1] + t]
  }

  lemma ExtendLastTwice(ls: seq<string>, t: string, u: string)
    requires |ls| > 0
    ensures ExtendLast(ExtendLast(ls, t), u) == ExtendLast(ls, t + u)
  {
    assert (ls[|ls| - 1] + t) + u == ls[|ls| - 1] + (t + u);
  }

  lemma SplitOneMore(s: string, c: char)
    requires c != '\n'
    ensures SplitLines(s + [c]) == ExtendLast(SplitLines(s), [c])
  {
    assert (s + [c])[..|s|] == s;
  }

  lemma {:induction false} SplitAppend(s: string, t: string)
    requires OneLine(t)
    ensures SplitLines(s + t) == ExtendLast(SplitLines(s), t)
    decreases |t|
  {
    hide SplitLines;
    if t == "" {
      var ls := SplitLines(s);
      assert s + t == s && ls[|ls| - 1] + t == ls[|ls| - 1];
    } else {
      var front, c := t[..|t| - 1], t[|t| - 1];
      SplitAppend(s, front);
      SplitOneMore(s + front, c);
      ExtendLastTwice(SplitLines(s), front, [c]);
      assert front + [c] == t && (s + front) + [c] == s + t;
    }
  }

  lemma SplitNewline(s: string, t: string)
    requires OneLine(t)
    ensures SplitLines(s + ['\n'] + t) == SplitLines(s) + [t]
  {
    assert (s + ['\n'])[..|s|] == s;
    SplitAppend(s + ['\n'], t);
    assert "" + t == t;
  }

  /** Splitting undoes joining. */
  lemma {:induction false} SplitJoined(ls: seq<string>)
    requires |ls| > 0 && forall i :: 0 <= i < |ls| ==> OneLine(ls[i])
    ensures SplitLines(JoinLines(ls)) == ls
  {
    if |ls| == 1 {
      SplitAppend("", ls[0]);
      assert "" + ls[0] == ls[0];
    } else {
      hide SplitLines;
      SplitJoined(ls[..|ls| - 1]);
      SplitNewline(JoinLines(ls[..|ls| - 1]), ls[|ls| - 1]);
    }
  }

  // ---- The parser's state ----

  datatype State = State(files: seq<FileDiff>, cur: Option<FileDiff>, curHunk: Option<Hunk>, inHunks: bool, truncated: bool)

  const START := State([], None, None, false, false)

  function FlushHunk(s: State): State {
    if s.cur.Some? && s.curHunk.Some?
    then s.(cur := Some(s.cur.value.(hunks := s.cur.value.hunks + [s.curHunk.value])), curHunk := None)
    else s
  }

  function FlushFile(s: State): State {
    var t := FlushHunk(s);
    if t.cur.Some? then t.(files := t.files + [t.cur.value], cur := None) else t
  }

  function TrimPrefix(s: string, prefix: string): string {
    if prefix <= s then s[|prefix|..] else s
  }

  /** The path after the first " b/" of a file header. */
  function HeaderPath(rest: string): string {
    if |rest| < 3 then ""
    else if " b/" <= rest then rest[3..]
    else HeaderPath(rest[1..])
  }

  const HEADER := "diff --git "

  function NewFile(ln: string): FileDiff {
    FileDiff('M', "", HeaderPath(TrimPrefix(ln, HEADER)), false, 0, 0, false, [])
  }

  /** A header line of the current file, before its first hunk. */
  function FileHeaderLine(f: FileDiff, ln: string): Option<FileDiff> {
    if "new file" <= ln then Some(f.(status := 'A'))
    else if "deleted file" <= ln then Some(f.(status := 'D'))
    else if "rename from " <= ln then Some(f.(status := 'R', oldPath := TrimPrefix(ln, "rename from ")))
    else if "rename to " <= ln then Some(f.(newPath := TrimPrefix(ln, "rename to ")))
    else if "copy from " <= ln then Some(f.(status := 'C', oldPath := TrimPrefix(ln, "copy from ")))
    else if "copy to " <= ln then Some(f.(newPath := TrimPrefix(ln, "copy to ")))
    else if "Binary files " <= ln then Some(f.(binary := true))
    else if "--- " <= ln then
      var p := TrimPrefix(ln, "--- ");
      Some(if p != "/dev/null" then f.(oldPath := TrimPrefix(p, "a/")) else f)
    else if "+++ " <= ln then
      var p := TrimPrefix(ln, "+++ ");
      Some(if p != "/dev/null" then f.(newPath := TrimPrefix(p, "b/")) else f)
    else None
  }

  /** A hunk line: counted, and kept unless the file became too large. */
  function ContentLine(s: State, ln: string): State
    requires s.cur.Some? && ln != ""
  {
    var f := s.cur.value;
    if s.curHunk.None? && !f.tooLarge then s
    else
      var g := if ln[0] == '+' then f.(additions := f.additions + 1)
               else if ln[0] == '-' then f.(deletions := f.deletions + 1)
               else f;
      if f.tooLarge then s.(cur := Some(g))
      else if g.additions + g.deletions >= MAX_LINES_PER_FILE then
        s.(cur := Some(g.(tooLarge := true, hunks := [])), curHunk := None)
      else
        var h := s.curHunk.value;
        s.(cur := Some(g), curHunk := Some(h.(lines := h.lines + [DiffLine(ln[0], ln[1..])])))
  }

  function Step(s: State, ln: string): State {
    if s.truncated then s
    else if HEADER <= ln then
      var t := FlushFile(s).(inHunks := false);
      if |t.files| >= MAX_FILES then t.(truncated := true)
      else t.(cur := Some(NewFile(ln)))
    else if s.cur.None? then s
    else if !s.inHunks && FileHeaderLine(s.cur.value, ln).Some? then
      s.(cur := FileHeaderLine(s.cur.value, ln))
    else if "@@" <= ln then
      var t := FlushHunk(s.(inHunks := true));
      if t.cur.Some? && t.cur.value.tooLarge then t
      else t.(curHunk := Some(Hunk(ln, [])))
    else if "+" <= ln || "-" <= ln || " " <= ln then ContentLine(s, ln)
    else s
  }

  function Run(s: State, ls: seq<string>): State {
    if ls == [] then s else Step(Run(s, ls[..|ls| - 1]), ls[|ls| - 1])
  }

  /** The parsed files before old paths are filled in for missing new paths. */
  function Files(raw: string): seq<FileDiff> {
    FlushFile(Run(START, SplitLines(raw))).files
  }

  function WithPath(f: FileDiff): FileDiff {
    if f.newPath == "" then f.(newPath := f.oldPath) else f
  }

  function WithPaths(fs: seq<FileDiff>): (r: seq<FileDiff>)
    ensures |r| == |fs| && forall i :: 0 <= i < |fs| ==> r[i] == WithPath(fs[i])
  {
    seq(|fs|, i requires 0 <= i < |fs| => WithPath(fs[i]))
  }

  /** What the parser returns: a patch with too many files is returned as it stands. */
  function ParseOf(raw: string): (seq<FileDiff>, bool) {
    var s := Run(START, SplitLines(raw));
    if s.truncated then (s.files, true) else (WithPaths(FlushFile(s).files), false)
  }

  // ---- What each file says about itself ----

  function CountKind(ls: seq<DiffLine>, kind: char): nat {
    if ls == [] then 0 else CountKind(ls[..|ls| - 1], kind) + if ls[|ls| - 1].kind == kind then 1 else 0
  }

  function CountIn(hs: seq<Hunk>, kind: char): nat {
    if hs == [] then 0 else CountIn(hs[..|hs| - 1], kind) + CountKind(hs[|hs| - 1].lines, kind)
  }

  /** A file that is too large shows no hunks; any other file's totals count its hunk lines. */
  predicate Consistent(f: FileDiff) {
    && (f.tooLarge <==> f.additions + f.deletions >= 3000)
    && (f.tooLarge ==> f.hunks == [])
    && (!f.tooLarge ==> f.additions == CountIn(f.hunks, '+') && f.deletions == CountIn(f.hunks, '-'))
  }

  function OpenLines(h: Option<Hunk>): seq<DiffLine> {
    if h.Some? then h.value.lines else []
  }

  /** The current file is consistent once its open hunk is counted in. */
  predicate CurrentConsistent(f: FileDiff, h: Option<Hunk>) {
    && (f.tooLarge <==> f.additions + f.deletions >= MAX_LINES_PER_FILE)
    && (f.tooLarge ==> f.hunks == [] && h.None?)
    && (!f.tooLarge ==>
          && f.additions == CountIn(f.hunks, '+') + CountKind(OpenLines(h), '+')
          && f.deletions == CountIn(f.hunks, '-') + CountKind(OpenLines(h), '-'))
  }

  predicate Sound(s: State) {
    && |s.files| <= MAX_FILES
    && (s.cur.Some? ==> |s.files| < MAX_FILES && !s.truncated && CurrentConsistent(s.cur.value, s.curHunk))
    && (s.cur.None? ==> s.curHunk.None? && (s.truncated || s.files == []))
    && forall i :: 0 <= i < |s.files| ==> Consistent(s.files[i])
  }

  lemma FlushHunkSound(s: State)
    requires Sound(s)
    ensures Sound(FlushHunk(s)) && FlushHunk(s).curHunk.None? && FlushHunk(s).files == s.files
    ensures s.cur.Some? ==> FlushHunk(s).cur.Some? && FlushHunk(s).cur.value.tooLarge == s.cur.value.tooLarge
    ensures s.cur.None? ==> FlushHunk(s) == s
  {
    if s.cur.Some? && s.curHunk.Some? {
      var hs := s.cur.value.hunks + [s.curHunk.value];
      assert hs[..|hs| - 1] == s.cur.value.hunks;
    }
  }

  lemma FlushFileSound(s: State)
    requires Sound(s)
    ensures var t := FlushFile(s);
            && |t.files| <= MAX_FILES && t.cur.None? && t.curHunk.None? && s.files <= t.files
            && (forall i :: 0 <= i < |t.files| ==> Consistent(t.files[i]))
            && |t.files| == |s.files| + (if s.cur.Some? then 1 else 0)
            && t.truncated == s.truncated
  {
    FlushHunkSound(s);
  }

  lemma CountOneMore(ls: seq<DiffLine>, l: DiffLine, kind: char)
    ensures CountKind(ls + [l], kind) == CountKind(ls, kind) + if l.kind == kind then 1 else 0
  {
    assert (ls + [l])[..|ls|] == ls;
  }

  lemma ContentLineSound(s: State, ln: string)
    requires Sound(s) && s.cur.Some? && ln != ""
    ensures Sound(ContentLine(s, ln)) && ContentLine(s, ln).files == s.files
  {
    hide Consistent, CountIn, CountKind;
    if s.curHunk.Some? {
      CountOneMore(s.curHunk.value.lines, DiffLine(ln[0], ln[1..]), '+');
      CountOneMore(s.curHunk.value.lines, DiffLine(ln[0], ln[1..]), '-');
    }
  }

  lemma HeaderLineKeepsCounts(f: FileDiff, h: Option<Hunk>, ln: string)
    requires CurrentConsistent(f, h) && FileHeaderLine(f, ln).Some?
    ensures CurrentConsistent(FileHeaderLine(f, ln).value, h)
  {
    hide CountIn, CountKind;
  }

  lemma HunkStartSound(s: State, ln: string)
    requires Sound(s) && s.cur.Some? && s.cur.value.tooLarge == false
    ensures Sound(FlushHunk(s).(curHunk := Some(Hunk(ln, []))))
  {
    FlushHunkSound(s);
  }

  /** A step keeps the state sound and never takes a finished file back. */
  lemma StepSound(s: State, ln: string)
    requires Sound(s)
    ensures Sound(Step(s, ln)) && s.files <= Step(s, ln).files
  {
    hide FileHeaderLine, ContentLine, FlushHunk, FlushFile, CurrentConsistent, Consistent;
    if s.truncated {
    } else if HEADER <= ln {
      FlushFileSound(s);
      NewFileConsistent(ln);
    } else if s.cur.None? {
    } else if !s.inHunks && FileHeaderLine(s.cur.value, ln).Some? {
      HeaderLineKeepsCounts(s.cur.value, s.curHunk, ln);
    } else if "@@" <= ln {
      var t := s.(inHunks := true);
      FlushHunkSound(t);
      if !s.cur.value.tooLarge { HunkStartSound(t, ln); }
    } else if "+" <= ln || "-" <= ln || " " <= ln {
      ContentLineSound(s, ln);
    }
  }

  lemma NewFileConsistent(ln: string)
    ensures CurrentConsistent(NewFile(ln), None)
  {}

  lemma {:induction false} RunSound(s: State, ls: seq<string>)
    requires Sound(s)
    ensures Sound(Run(s, ls)) && s.files <= Run(s, ls).files
  {
    hide Step, Sound;
    if ls != [] {
      RunSound(s, ls[..|ls| - 1]);
      StepSound(Run(s, ls[..|ls| - 1]), ls[|ls| - 1]);
    }
  }

  // ---- Main results ----

  /** Every parse has at most 300 files, each consistent with its own hunks. */
  lemma FilesAreConsistent(raw: string)
    ensures |ParseOf(raw).0| <= 300
    ensures forall i :: 0 <= i < |ParseOf(raw).0| ==> Consistent(ParseOf(raw).0[i])
  {
    hide Run, FlushFile, Consistent;
    StartSound();
    RunSound(START, SplitLines(raw));
    var s := Run(START, SplitLines(raw));
    FlushFileSound(s);
    forall f ensures Consistent(WithPath(f)) <==> Consistent(f) { WithPathConsistent(f); }
  }

  lemma StartSound()
    ensures Sound(START)
  {}

  lemma WithPathConsistent(f: FileDiff)
    ensures Consistent(WithPath(f)) <==> Consistent(f)
  {}

  lemma {:induction false} RunAppend(s: State, a: seq<string>, b: seq<string>)
    ensures Run(s, a + b) == Run(Run(s, a), b)
  {
    hide Step;
    if b == [] {
      assert a + b == a;
    } else {
      RunAppend(s, a, b[..|b| - 1]);
      assert (a + b)[..|a + b| - 1] == a + b[..|b| - 1];
    }
  }

  function DropLast(fs: seq<FileDiff>): seq<FileDiff> {
    if fs == [] then [] else fs[..|fs| - 1]
  }

  /** From a common state, a cut-off line and the whole line it came from agree on all files but the last. */
  lemma CutLine(s: State, q: string, ln: string)
    requires Sound(s) && q <= ln
    ensures DropLast(FlushFile(Step(s, q)).files) <= Step(s, ln).files
  {
    hide FileHeaderLine, ContentLine, CurrentConsistent, Consistent, NewFile;
    StepSound(s, q);
    StepSound(s, ln);
    FlushFileSound(s);
    FlushFileSound(Step(s, q));
    if !s.truncated && !(HEADER <= q) {
      StepKeepsFiles(s, q);
    }
  }

  lemma StepKeepsFiles(s: State, ln: string)
    requires Sound(s) && !(HEADER <= ln)
    ensures Step(s, ln).files == s.files && Step(s, ln).cur.Some? == s.cur.Some?
  {
    hide CurrentConsistent, Consistent;
  }

  /** The files kept from a patch that was cut off at any byte, all but the last one, are a prefix
      of the files of the whole patch. */
  lemma KeptFilesArePrefix(p: string, raw: string)
    requires p <= raw
    ensures DropLast(Files(p)) <= Files(raw)
  {
    hide SplitLines, Step, Run, FlushFile, Sound;
    PrefixLines(p, raw);
    var a, b := SplitLines(p), SplitLines(raw);
    var n := |a| - 1;
    var s := Run(START, a[..n]);
    StartSound();
    RunSound(START, a[..n]);
    assert a == a[..n] + [a[n]] && b == b[..n] + ([b[n]] + b[n + 1..]);
    RunAppend(START, a[..n], [a[n]]);
    RunAppend(START, b[..n], [b[n]] + b[n + 1..]);
    RunAppend(s, [b[n]], b[n + 1..]);
    RunOne(s, a[n]);
    RunOne(s, b[n]);
    CutLine(s, a[n], b[n]);
    StepSound(s, b[n]);
    RunSound(Step(s, b[n]), b[n + 1..]);
    FlushFileSound(Run(START, b));
  }

  lemma RunOne(s: State, ln: string)
    ensures Run(s, [ln]) == Step(s, ln)
  {
    assert [ln][..0] == [];
  }

  /** A prefix of a patch stops at the file limit only if the whole patch does, and then on the same files. */
  lemma TruncationSpreads(p: string, raw: string)
    requires p <= raw && ParseOf(p).1
    ensures ParseOf(raw) == ParseOf(p)
  {
    hide SplitLines, Step;
    PrefixLines(p, raw);
    var a, b := SplitLines(p), SplitLines(raw);
    var n := |a| - 1;
    var s := Run(START, a[..n]);
    assert a == a[..n] + [a[n]] && b == b[..n] + ([b[n]] + b[n + 1..]);
    RunAppend(START, a[..n], [a[n]]);
    RunAppend(START, b[..n], [b[n]] + b[n + 1..]);
    RunAppend(s, [b[n]], b[n + 1..]);
    RunOne(s, a[n]);
    RunOne(s, b[n]);
    TruncatingStep(s, a[n], b[n]);
    StoppedStays(Step(s, b[n]), b[n + 1..]);
  }

  lemma TruncatingStep(s: State, q: string, ln: string)
    requires q <= ln && Step(s, q).truncated
    ensures Step(s, ln) == Step(s, q)
  {}

  /** Kept files whose path is filled in from the old one. */
  predicate NeedsPath(f: FileDiff) {
    f.newPath == "" && f.oldPath != ""
  }

  /** How many of the lines are file headers. */
  function Headers(ls: seq<string>): nat {
    if ls == [] then 0 else Headers(ls[..|ls| - 1]) + if HEADER <= ls[|ls| - 1] then 1 else 0
  }

  /** The headers seen so far are the files so far, until there is one too many. */
  lemma {:induction false} RunCountsHeaders(ls: seq<string>)
    ensures var s := Run(START, ls);
            if s.truncated then |s.files| == MAX_FILES < Headers(ls)
            else |s.files| + (if s.cur.Some? then 1 else 0) == Headers(ls) <= MAX_FILES
  {
    if ls != [] {
      hide Sound, Step;
      var front := ls[..|ls| - 1];
      RunCountsHeaders(front);
      StartSound();
      RunSound(START, front);
      StepCountsHeader(Run(START, front), ls[|ls| - 1]);
    }
  }

  lemma StepCountsHeader(s: State, ln: string)
    requires Sound(s)
    ensures var t, n := Step(s, ln), |s.files| + (if s.cur.Some? then 1 else 0) + (if HEADER <= ln then 1 else 0);
            if s.truncated then t == s
            else if n > MAX_FILES then t.truncated && |t.files| == MAX_FILES
            else !t.truncated && |t.files| + (if t.cur.Some? then 1 else 0) == n
  {
    FlushFileSound(s);
    if !s.truncated && !(HEADER <= ln) { StepKeepsFiles(s, ln); }
    hide FileHeaderLine, ContentLine, CurrentConsistent, Consistent, NewFile, FlushFile;
  }

  /** The parse stops at the file limit exactly when more than 300 lines are file headers. */
  lemma TruncatedIff(raw: string)
    ensures ParseOf(raw).1 <==> Headers(SplitLines(raw)) > 300
  {
    hide Run, SplitLines, Headers, FlushFile;
    RunCountsHeaders(SplitLines(raw));
  }

  lemma FilesCount(raw: string)
    requires !ParseOf(raw).1
    ensures |Files(raw)| == Headers(SplitLines(raw))
  {
    hide Run, SplitLines, Headers, FlushFile, Sound;
    StartSound();
    RunSound(START, SplitLines(raw));
    RunCountsHeaders(SplitLines(raw));
    FlushFileSound(Run(START, SplitLines(raw)));
  }

  /** With the paths filled in, the kept files stay a prefix of the whole patch's files unless the
      whole patch has more than 300 file headers, the cut one has not, and a kept file needs its path. */
  lemma KeptPathsArePrefixIff(p: string, raw: string)
    requires p <= raw
    ensures DropLast(ParseOf(p).0) <= ParseOf(raw).0
            <==> || Headers(SplitLines(p)) > 300 || Headers(SplitLines(raw)) <= 300
                 || (forall f :: f in DropLast(Files(p)) ==> !NeedsPath(f))
  {
    hide Run, SplitLines, FlushFile, Headers;
    TruncatedIff(p);
    TruncatedIff(raw);
    if ParseOf(p).1 {
      TruncationSpreads(p, raw);
    } else {
      KeptFilesArePrefix(p, raw);
      var kept, b := DropLast(Files(p)), Files(raw);
      assert DropLast(WithPaths(Files(p))) == WithPaths(kept);
      if ParseOf(raw).1 {
        TruncatedFiles(raw);
        FilledIffNeeded(kept, b);
      } else {
        assert WithPaths(kept) <= WithPaths(b);
      }
    }
  }

  lemma TruncatedFiles(raw: string)
    requires ParseOf(raw).1
    ensures Files(raw) == ParseOf(raw).0
  {
    hide SplitLines, Run;
    StartSound();
    RunSound(START, SplitLines(raw));
  }

  lemma FilledIffNeeded(kept: seq<FileDiff>, b: seq<FileDiff>)
    requires kept <= b
    ensures WithPaths(kept) <= b <==> forall f :: f in kept ==> !NeedsPath(f)
  {
    if forall f :: f in kept ==> !NeedsPath(f) {
      forall i | 0 <= i < |kept| ensures WithPaths(kept)[i] == kept[i] {
        assert !NeedsPath(kept[i]);
      }
      assert WithPaths(kept) == kept;
    } else {
      var i :| 0 <= i < |kept| && NeedsPath(kept[i]);
      assert WithPaths(kept)[i] != b[i];
    }
  }

  // ---- The line loop ----

  class Parser {
    var files: seq<FileDiff>
    var cur: Option<FileDiff>
    var curHunk: Option<Hunk>
    var inHunks: bool
    var truncated: bool

    function View(): State
      reads this
    {
      State(files, cur, curHunk, inHunks, truncated)
    }

    constructor ()
      ensures View() == START
    {
      files, cur, curHunk, inHunks, truncated := [], None, None, false, false;
    }

    method FlushOpenHunk()
      modifies this
      ensures View() == FlushHunk(old(View()))
    {
      if cur.Some? && curHunk.Some? {
        cur := Some(cur.value.(hunks := cur.value.hunks + [curHunk.value]));
        curHunk := None;
      }
    }

    method FlushCurrent()
      modifies this
      ensures View() == FlushFile(old(View()))
    {
      FlushOpenHunk();
      if cur.Some? {
        files := files + [cur.value];
        cur := None;
      }
    }

    method Content(ln: string)
      requires cur.Some? && ln != ""
      modifies this
      ensures View() == ContentLine(old(View()), ln)
    {
      if curHunk.None? && !cur.value.tooLarge {
        return;
      }
      var tooLarge := cur.value.tooLarge;
      if ln[0] == '+' {
        cur := Some(cur.value.(additions := cur.value.additions + 1));
      } else if ln[0] == '-' {
        cur := Some(cur.value.(deletions := cur.value.deletions + 1));
      }
      if tooLarge {
        return;
      }
      if cur.value.additions + cur.value.deletions >= MAX_LINES_PER_FILE {
        cur := Some(cur.value.(tooLarge := true, hunks := []));
        curHunk := None;
        return;
      }
      curHunk := Some(curHunk.value.(lines := curHunk.value.lines + [DiffLine(ln[0], ln[1..])]));
    }

    /** One line; `stop` when the file limit ends the parse. */
    method Take(ln: string) returns (stop: bool)
      requires !truncated
      modifies this
      ensures View() == Step(old(View()), ln) && stop == truncated
    {
      stop := false;
      if HEADER <= ln {
        FlushCurrent();
        inHunks := false;
        if |files| >= MAX_FILES {
          truncated := true;
          return true;
        }
        cur := Some(NewFile(ln));
      } else if cur.None? {
      } else if !inHunks && FileHeaderLine(cur.value, ln).Some? {
        cur := FileHeaderLine(cur.value, ln);
      } else if "@@" <= ln {
        inHunks := true;
        FlushOpenHunk();
        if cur.value.tooLarge {
          return;
        }
        curHunk := Some(Hunk(ln, []));
      } else if "+" <= ln || "-" <= ln || " " <= ln {
        Content(ln);
      }
    }
  }

  lemma {:induction false} StoppedStays(s: State, ls: seq<string>)
    requires s.truncated
    ensures Run(s, ls) == s
  {
    if ls != [] { StoppedStays(s, ls[..|ls| - 1]); }
  }

  lemma TakeAndDrop(ls: seq<string>, i: nat)
    requires i <= |ls|
    ensures ls == ls[..i] + ls[i..]
  {}

  /** Parses a patch line by line. */
  method ParseUnifiedDiff(raw: string) returns (files: seq<FileDiff>, truncated: bool)
    ensures (files, truncated) == ParseOf(raw)
  {
    hide Step, SplitLines;
    var lines := SplitLines(raw);
    var p := new Parser();
    for i := 0 to |lines|
      invariant p.View() == Run(START, lines[..i]) && !p.truncated
    {
      assert lines[..i + 1][..i] == lines[..i];
      var stop := p.Take(lines[i]);
      if stop {
        TakeAndDrop(lines, i + 1);
        RunAppend(START, lines[..i + 1], lines[i + 1..]);
        StoppedStays(p.View(), lines[i + 1..]);
        return p.files, true;
      }
    }
    assert lines[..|lines|] == lines;
    p.FlushCurrent();
    files := [];
    for i := 0 to |p.files|
      invariant |files| == i && forall j :: 0 <= j < i ==> files[j] == WithPath(p.files[j])
    {
      var f := p.files[i];
      if f.newPath == "" {
        f := f.(newPath := f.oldPath);
      }
      files := files + [f];
    }
    assert files == WithPaths(p.files);
    truncated := false;
  }

  /** The files shown for a commit; a capped patch loses its last file and is marked. */
  method ShownFiles(raw: string, capped: bool) returns (files: seq<FileDiff>, truncated: bool)
    ensures files == if capped then DropLast(ParseOf(raw).0) else ParseOf(raw).0
    ensures truncated == (capped || ParseOf(raw).1)
  {
    files, truncated := ParseUnifiedDiff(raw);
    if capped {
      if |files| > 0 {
        files := files[..|files| - 1];
      }
      truncated := true;
    }
  }
}
