/** The sweep phase: every candidate of a mark is classified against a fresh
    root and then deleted, skipped or reported, one at a time, while other
    clients keep using the bucket. */
module GcSweep {
  import opened Wrappers
  import opened GcModel
  import GcMark
  import ObjectStore

  /** Index candidates under the delta prefix are reported under a heading of their own. */
  datatype Heading = TxHeading | PackHeading | IndexHeading | DeltaHeading | BundleHeading | MarkerHeading

  datatype Entry = Entry(heading: Heading, key: Key)

  datatype Reason = WasRevived | RetentionNotMet | TxSweepDisarmed | NotFound | VersionMismatch

  datatype Skip = Skip(entry: Entry, reason: Reason)

  /** How the store answered while one candidate was handled. */
  datatype Answer =
    | Removed
    | Vanished
    | Changed
    | Failed(removed: bool)     // a lost reply may hide a delete that took effect
    | RecordReturned            // an orphan marker's transaction record exists again
    | RecordUnknown             // ... or could not be looked up
    | NotAsked

  datatype Fate = Deleted | Skipped(reason: Reason) | Errored

  const DELTA_INFIX := "/indexes/reachability-delta/"

  predicate Contains(s: string, sub: string) {
    sub <= s || (s != [] && Contains(s[1..], sub))
  }

  function HeadingOf(cat: Category, key: Key): Heading {
    match cat
    case TxRecords => TxHeading
    case CanonicalPacks => PackHeading
    case Indexes => if Contains(key, DELTA_INFIX) then DeltaHeading else IndexHeading
    case Bundles => BundleHeading
    case OrphanMarkers => MarkerHeading
  }

  /** What a sweep is run with; `root` is the manifest read at its start. */
  datatype Setting = Setting(repo: RepoKeys, root: Manifest, mark: Mark, now: int, dryRun: bool)

  datatype Work = Work(cat: Category, candidate: Candidate) {
    function Label(): Entry { Entry(HeadingOf(cat, candidate.key), candidate.key) }
  }

  function DecisionFor(g: Setting, w: Work): Decision {
    Classify(w.cat, w.candidate, g.mark.retention, g.now, References(g.repo, g.root, w.candidate.key), g.mark.armed)
  }

  /** The fate of one candidate, given how the store answered. */
  function FateOf(g: Setting, w: Work, a: Answer): Fate {
    if w.cat == OrphanMarkers && !g.dryRun && a.RecordReturned? then Skipped(WasRevived)
    else if w.cat == OrphanMarkers && !g.dryRun && a.RecordUnknown? then Errored
    else match DecisionFor(g, w)
      case Revived => Skipped(WasRevived)
      case Retention => Skipped(RetentionNotMet)
      case Disarmed => Skipped(TxSweepDisarmed)
      case Delete =>
        if g.dryRun then Deleted
        else match a
          case Removed => Deleted
          case Vanished => Skipped(NotFound)
          case Changed => Skipped(VersionMismatch)
          case _ => Errored
  }

  /** The candidates in the order the sweep takes them. */
  function WorkOn(mark: Mark): seq<Work> {
    Tagged(TxRecords, mark.txRecords) + Tagged(CanonicalPacks, mark.canonicalPacks) +
    Tagged(Indexes, mark.indexes) + Tagged(Bundles, mark.bundles) + Tagged(OrphanMarkers, mark.orphanMarkers)
  }

  function Tagged(cat: Category, cs: seq<Candidate>): (ws: seq<Work>)
    ensures |ws| == |cs| && forall i :: 0 <= i < |cs| ==> ws[i] == Work(cat, cs[i])
  {
    seq(|cs|, i requires 0 <= i < |cs| => Work(cat, cs[i]))
  }

  /** The outcome record of a sweep. */
  datatype Report = Report(deleted: seq<Entry>, skipped: seq<Skip>, errors: seq<Entry>) {
    function Add(e: Entry, f: Fate): Report {
      match f
      case Deleted => this.(deleted := deleted + [e])
      case Skipped(r) => this.(skipped := skipped + [Skip(e, r)])
      case Errored => this.(errors := errors + [e])
    }

    ghost function Mentions(): multiset<Entry> {
      multiset(deleted) + multiset(SkippedEntries(skipped)) + multiset(errors)
    }
  }

  function SkippedEntries(ss: seq<Skip>): (es: seq<Entry>)
    ensures |es| == |ss| && forall i :: 0 <= i < |ss| ==> es[i] == ss[i].entry
  {
    seq(|ss|, i requires 0 <= i < |ss| => ss[i].entry)
  }

  function Outcome(g: Setting, ws: seq<Work>, answers: seq<Answer>): Report
    requires |ws| == |answers|
  {
    if ws == [] then Report([], [], [])
    else
      var n := |ws| - 1;
      Outcome(g, ws[..n], answers[..n]).Add(ws[n].Label(), FateOf(g, ws[n], answers[n]))
  }

  /** The deletes that took effect in the bucket. */
  function RemovedKeys(ws: seq<Work>, answers: seq<Answer>): seq<Key>
    requires |ws| == |answers|
  {
    if ws == [] then []
    else
      var n := |ws| - 1;
      RemovedKeys(ws[..n], answers[..n]) + RemovedBy(ws[n], answers[n])
  }

  function RemovedBy(w: Work, a: Answer): seq<Key> {
    if a == Removed || a == Failed(true) then [w.candidate.key] else []
  }

  /** The store is asked to delete only what was classified for deletion, and in a dry run nothing. */
  predicate Plausible(g: Setting, w: Work, a: Answer) {
    (a == Removed || a == Failed(true)) ==> !g.dryRun && DecisionFor(g, w) == Delete
  }

  predicate AllPlausible(g: Setting, ws: seq<Work>, answers: seq<Answer>)
    requires |ws| == |answers|
  {
    ws == [] ||
    (var n := |ws| - 1; AllPlausible(g, ws[..n], answers[..n]) && Plausible(g, ws[n], answers[n]))
  }

  // ---- Properties of the outcome ----

  lemma AddMentionsOneMore(r: Report, e: Entry, f: Fate)
    ensures r.Add(e, f).Mentions() == r.Mentions() + multiset{e}
  {
    if f.Skipped? {
      assert SkippedEntries(r.Add(e, f).skipped) == SkippedEntries(r.skipped) + [e];
    }
  }

  /** Each candidate lands in exactly one of the three lists, exactly once. */
  lemma {:induction false} EveryCandidateIsAccountedForOnce(g: Setting, ws: seq<Work>, answers: seq<Answer>)
    requires |ws| == |answers|
    ensures Outcome(g, ws, answers).Mentions() == multiset(Entries(ws))
  {
    if ws != [] {
      var n := |ws| - 1;
      EveryCandidateIsAccountedForOnce(g, ws[..n], answers[..n]);
      AddMentionsOneMore(Outcome(g, ws[..n], answers[..n]), ws[n].Label(), FateOf(g, ws[n], answers[n]));
      assert Entries(ws) == Entries(ws[..n]) + [ws[n].Label()];
    }
  }

  function Entries(ws: seq<Work>): (es: seq<Entry>)
    ensures |es| == |ws| && forall i :: 0 <= i < |ws| ==> es[i] == ws[i].Label()
  {
    seq(|ws|, i requires 0 <= i < |ws| => ws[i].Label())
  }

  /** `xs` is obtained from `ys` by leaving elements out. */
  ghost predicate Subsequence<T>(xs: seq<T>, ys: seq<T>) {
    if xs == [] then true
    else if ys == [] then false
    else || Subsequence(xs, ys[..|ys| - 1])
         || (xs[|xs| - 1] == ys[|ys| - 1] && Subsequence(xs[..|xs| - 1], ys[..|ys| - 1]))
  }

  lemma SubsequenceExtends<T>(xs: seq<T>, ys: seq<T>, z: T)
    requires Subsequence(xs, ys)
    ensures Subsequence(xs, ys + [z]) && Subsequence(xs + [z], ys + [z])
  {
    assert (ys + [z])[..|ys + [z]| - 1] == ys;
    assert (xs + [z])[..|xs + [z]| - 1] == xs;
  }

  /** On the same root and clock a real sweep deletes a subsequence of what the dry run announces. */
  lemma {:induction false} RealSweepIsWithinDryRun(g: Setting, ws: seq<Work>, answers: seq<Answer>, dry: seq<Answer>)
    requires |ws| == |answers| == |dry|
    ensures Subsequence(Outcome(g.(dryRun := false), ws, answers).deleted, Outcome(g.(dryRun := true), ws, dry).deleted)
  {
    if ws != [] {
      var n := |ws| - 1;
      RealSweepIsWithinDryRun(g, ws[..n], answers[..n], dry[..n]);
      SubsequenceExtends(Outcome(g.(dryRun := false), ws[..n], answers[..n]).deleted,
                         Outcome(g.(dryRun := true), ws[..n], dry[..n]).deleted, ws[n].Label());
    }
  }

  /** Only candidates that the fresh root does not reference and whose retention has passed leave the bucket. */
  lemma {:induction false} OnlyCondemnedKeysAreRemoved(g: Setting, ws: seq<Work>, answers: seq<Answer>, k: Key)
    requires |ws| == |answers| && AllPlausible(g, ws, answers)
    requires k in RemovedKeys(ws, answers)
    ensures !g.dryRun && !References(g.repo, g.root, k)
    ensures exists i :: 0 <= i < |ws| && ws[i].candidate.key == k && g.now - ws[i].candidate.firstSeen >= g.mark.retention
  {
    var n := |ws| - 1;
    if k in RemovedKeys(ws[..n], answers[..n]) {
      OnlyCondemnedKeysAreRemoved(g, ws[..n], answers[..n], k);
      var i :| 0 <= i < n && ws[..n][i].candidate.key == k && g.now - ws[..n][i].candidate.firstSeen >= g.mark.retention;
      assert ws[i] == ws[..n][i];
    }
  }

  // ---- The rules of a sweep, candidate by candidate ----

  /** The work is the mark, category after category. */
  lemma WorkIsTheMark(mark: Mark, i: nat)
    ensures var t, p, x, b := |mark.txRecords|, |mark.canonicalPacks|, |mark.indexes|, |mark.bundles|;
            && |WorkOn(mark)| == t + p + x + b + |mark.orphanMarkers|
            && (i < |WorkOn(mark)| ==>
                  WorkOn(mark)[i] == if i < t then Work(TxRecords, mark.txRecords[i])
                                     else if i < t + p then Work(CanonicalPacks, mark.canonicalPacks[i - t])
                                     else if i < t + p + x then Work(Indexes, mark.indexes[i - t - p])
                                     else if i < t + p + x + b then Work(Bundles, mark.bundles[i - t - p - x])
                                     else Work(OrphanMarkers, mark.orphanMarkers[i - t - p - x - b]))
  {}

  /** A report only grows. */
  ghost predicate Within(r: Report, q: Report) {
    r.deleted <= q.deleted && r.skipped <= q.skipped && r.errors <= q.errors
  }

  /** Each fate is in the report. */
  lemma {:induction false} FateIsReported(g: Setting, ws: seq<Work>, answers: seq<Answer>, i: nat)
    requires |ws| == |answers| && i < |ws|
    ensures var r, e, f := Outcome(g, ws, answers), ws[i].Label(), FateOf(g, ws[i], answers[i]);
            (f.Deleted? ==> e in r.deleted) && (f.Skipped? ==> Skip(e, f.reason) in r.skipped) && (f.Errored? ==> e in r.errors)
  {
    hide FateOf, HeadingOf;
    var n := |ws| - 1;
    var before, e, f := Outcome(g, ws[..n], answers[..n]), ws[n].Label(), FateOf(g, ws[n], answers[n]);
    assert Within(before, before.Add(e, f));
    if i < n {
      FateIsReported(g, ws[..n], answers[..n], i);
      assert ws[..n][i] == ws[i] && answers[..n][i] == answers[i];
    } else {
      var r := before.Add(e, f);
      match f
      case Deleted => assert r.deleted[|before.deleted|] == e;
      case Skipped(x) => assert r.skipped[|before.skipped|] == Skip(e, x);
      case Errored => assert r.errors[|before.errors|] == e;
    }
  }

  /** The fresh root does not name the candidate, and its retention has passed. */
  predicate Expired(g: Setting, c: Candidate) {
    !References(g.repo, g.root, c.key) && g.now - c.firstSeen >= g.mark.retention
  }

  /** A candidate whose record returned, or that the root names again, is skipped as revived; a young
      one waits; with an unarmed mark every transaction record is skipped and none is removed. */
  lemma SparedCandidates(g: Setting, ws: seq<Work>, answers: seq<Answer>, i: nat)
    requires |ws| == |answers| && AllPlausible(g, ws, answers) && i < |ws|
    requires !(ws[i].cat == OrphanMarkers && !g.dryRun && (answers[i].RecordReturned? || answers[i].RecordUnknown?))
    ensures var c, e, r := ws[i].candidate, ws[i].Label(), Outcome(g, ws, answers);
            && (References(g.repo, g.root, c.key) ==> Skip(e, WasRevived) in r.skipped && !IsRemoval(answers[i]))
            && (!References(g.repo, g.root, c.key) && g.now - c.firstSeen < g.mark.retention
                ==> Skip(e, RetentionNotMet) in r.skipped && !IsRemoval(answers[i]))
            && (ws[i].cat == TxRecords && !g.mark.armed ==> !IsRemoval(answers[i]) && (Expired(g, c) ==> Skip(e, TxSweepDisarmed) in r.skipped))
  {
    FateIsReported(g, ws, answers, i);
    PlausibleAt(g, ws, answers, i);
    hide Outcome, AllPlausible, References, HeadingOf;
  }

  /** Any other candidate is deleted, or announced by a dry run, as the store lets it. */
  lemma SweptCandidates(g: Setting, ws: seq<Work>, answers: seq<Answer>, i: nat)
    requires |ws| == |answers| && i < |ws| && Expired(g, ws[i].candidate) && (ws[i].cat == TxRecords ==> g.mark.armed)
    requires g.dryRun || !(answers[i].RecordReturned? || answers[i].RecordUnknown?)
    ensures var e, r := ws[i].Label(), Outcome(g, ws, answers);
            && (g.dryRun || answers[i] == Removed ==> e in r.deleted)
            && (!g.dryRun && answers[i] == Vanished ==> Skip(e, NotFound) in r.skipped)
            && (!g.dryRun && answers[i] == Changed ==> Skip(e, VersionMismatch) in r.skipped)
            && (!g.dryRun && answers[i].Failed? ==> e in r.errors)
  {
    FateIsReported(g, ws, answers, i);
    hide Outcome, References, HeadingOf;
  }

  /** A marker whose record is back is skipped as revived; one whose record is in doubt is an error. */
  lemma MarkerLookups(g: Setting, ws: seq<Work>, answers: seq<Answer>, i: nat)
    requires |ws| == |answers| && AllPlausible(g, ws, answers) && i < |ws| && ws[i].cat == OrphanMarkers && !g.dryRun
    ensures answers[i] == RecordReturned ==> Skip(ws[i].Label(), WasRevived) in Outcome(g, ws, answers).skipped
    ensures answers[i] == RecordUnknown ==> ws[i].Label() in Outcome(g, ws, answers).errors
  {
    FateIsReported(g, ws, answers, i);
    hide Outcome, References, HeadingOf;
  }

  predicate IsRemoval(a: Answer) {
    a == Removed || a == Failed(true)
  }

  lemma {:induction false} PlausibleAt(g: Setting, ws: seq<Work>, answers: seq<Answer>, i: nat)
    requires |ws| == |answers| && AllPlausible(g, ws, answers) && i < |ws|
    ensures Plausible(g, ws[i], answers[i])
  {
    hide Plausible;
    var n := |ws| - 1;
    if i < n {
      PlausibleAt(g, ws[..n], answers[..n], i);
      assert ws[..n][i] == ws[i] && answers[..n][i] == answers[i];
    }
  }

  /** The removals are those of the answers. */
  lemma {:induction false} RemovedIff(ws: seq<Work>, answers: seq<Answer>, k: Key)
    requires |ws| == |answers|
    ensures k in RemovedKeys(ws, answers) <==> exists i :: 0 <= i < |ws| && ws[i].candidate.key == k && IsRemoval(answers[i])
  {
    if ws != [] {
      var n := |ws| - 1;
      RemovedIff(ws[..n], answers[..n], k);
      if i :| 0 <= i < |ws| && ws[i].candidate.key == k && IsRemoval(answers[i]) {
        if i < n { assert ws[..n][i] == ws[i] && answers[..n][i] == answers[i]; }
      }
      if i :| 0 <= i < n && ws[..n][i].candidate.key == k && IsRemoval(answers[..n][i]) {
        assert ws[i].candidate.key == k && IsRemoval(answers[i]);
      }
    }
  }

  /** No removal of a sweep is of a key that the fresh root names in any of its fields. */
  lemma NamedKeysStay(g: Setting, ws: seq<Work>, answers: seq<Answer>)
    requires |ws| == |answers| && AllPlausible(g, ws, answers)
    ensures var b, tx, gone := g.root.body, g.root.latestTx, RemovedKeys(ws, answers);
            && g.repo.prefix + "manifest/root.json" !in gone
            && (tx != "" ==> g.repo.prefix + "tx/" + tx + ".json" !in gone && g.repo.prefix + "tx/" + tx + ".json" + ".commit" !in gone)
            && (forall i :: 0 <= i < |b.packs| ==> Spared(b.packs[i].packKey, gone) && Spared(b.packs[i].idxKey, gone) && Spared(b.packs[i].bitmapKey, gone))
            && (b.objectMap.Some? ==> Spared(b.objectMap.value, gone)) && (b.commitGraph.Some? ==> Spared(b.commitGraph.value, gone))
            && (forall i :: 0 <= i < |b.deltas| ==> Spared(b.deltas[i], gone)) && (forall i :: 0 <= i < |b.refShards| ==> Spared(b.refShards[i], gone))
            && (forall i :: 0 <= i < |b.bundles| ==> Spared(b.bundles[i].bundleKey, gone) && Spared(b.bundles[i].sidecarKey, gone))
  {
    forall k | k in RemovedKeys(ws, answers) ensures !References(g.repo, g.root, k) {
      OnlyCondemnedKeysAreRemoved(g, ws, answers, k);
    }
    hide RemovedKeys;
    forall i | 0 <= i < |g.root.body.packs|
      ensures PackReferences(g.root.body.packs[i], g.root.body.packs[i].packKey)
      ensures PackReferences(g.root.body.packs[i], g.root.body.packs[i].idxKey)
      ensures PackReferences(g.root.body.packs[i], g.root.body.packs[i].bitmapKey)
    {}
    forall i | 0 <= i < |g.root.body.bundles|
      ensures BundleReferences(g.root.body.bundles[i], g.root.body.bundles[i].bundleKey)
      ensures BundleReferences(g.root.body.bundles[i], g.root.body.bundles[i].sidecarKey)
    {}
  }

  /** An empty field names nothing. */
  predicate Spared(k: Key, gone: seq<Key>) {
    k != "" ==> k !in gone
  }

  /** The headings of a report: reachability deltas have one of their own. */
  lemma HeadingIff(cat: Category, key: Key)
    ensures HeadingOf(cat, key) == DeltaHeading <==>
              cat == Indexes && exists a: string, b: string :: key == a + "/indexes/reachability-delta/" + b
    ensures HeadingOf(cat, key) == IndexHeading ==> cat == Indexes
    ensures (HeadingOf(cat, key) == TxHeading <==> cat == TxRecords) && (HeadingOf(cat, key) == PackHeading <==> cat == CanonicalPacks)
    ensures (HeadingOf(cat, key) == BundleHeading <==> cat == Bundles) && (HeadingOf(cat, key) == MarkerHeading <==> cat == OrphanMarkers)
  {
    hide Contains;
    ContainsIff(key, DELTA_INFIX);
  }

  lemma {:induction false} ContainsIff(s: string, sub: string)
    ensures Contains(s, sub) <==> exists a, b :: s == a + sub + b
  {
    if Contains(s, sub) {
      var i := FirstPlace(s, sub);
      assert s == s[..i] + sub + s[i + |sub|..];
    }
    if a, b :| s == a + sub + b { ContainsAt(s, sub, a, b); }
  }

  lemma {:induction false} FirstPlace(s: string, sub: string) returns (i: nat)
    requires Contains(s, sub)
    ensures i + |sub| <= |s| && s[i..i + |sub|] == sub
  {
    if sub <= s {
      i := 0;
    } else {
      i := FirstPlace(s[1..], sub);
      assert s[i + 1..i + 1 + |sub|] == s[1..][i..i + |sub|];
      i := i + 1;
    }
  }

  lemma {:induction false} ContainsAt(s: string, sub: string, a: string, b: string)
    requires s == a + sub + b
    ensures Contains(s, sub)
  {
    if a == [] {
      assert s == sub + b;
    } else {
      assert s[1..] == a[1..] + sub + b;
      ContainsAt(s[1..], sub, a[1..], b);
    }
  }

  /** A key reported as deleted was removed by this sweep. */
  lemma {:induction false} ReportedDeletesHappened(g: Setting, ws: seq<Work>, answers: seq<Answer>, e: Entry)
    requires |ws| == |answers| && !g.dryRun && e in Outcome(g, ws, answers).deleted
    ensures e.key in RemovedKeys(ws, answers)
  {
    var n := |ws| - 1;
    if e in Outcome(g, ws[..n], answers[..n]).deleted {
      ReportedDeletesHappened(g, ws[..n], answers[..n], e);
    }
  }

  // ---- The sweep itself ----

  class SweepRecord {
    var report: Report

    constructor ()
      ensures report == Report([], [], [])
    {
      report := Report([], [], []);
    }

    method Append(e: Entry, f: Fate)
      modifies this
      ensures report == old(report).Add(e, f)
    {
      match f
      case Deleted => report := report.(deleted := report.deleted + [e]);
      case Skipped(r) => report := report.(skipped := report.skipped + [Skip(e, r)]);
      case Errored => report := report.(errors := report.errors + [e]);
    }
  }

  function RemovalEffects<B>(ks: seq<Key>): (es: seq<ObjectStore.Effect<B>>)
    ensures |es| == |ks| && forall i :: 0 <= i < |ks| ==> es[i] == ObjectStore.Removed(ks[i])
  {
    seq(|ks|, i requires 0 <= i < |ks| => ObjectStore.Removed(ks[i]))
  }

  // ---- What the store's answers witness ----

  type Instants<B> = seq<ObjectStore.Contents<B>>

  ghost predicate AbsentSince<B>(key: Key, from: nat, m: Instants<B>) {
    exists n :: from <= n < |m| && key !in m[n]
  }

  ghost predicate PresentSince<B>(key: Key, from: nat, m: Instants<B>) {
    exists n :: from <= n < |m| && key in m[n]
  }

  ghost predicate ReplacedSince<B>(key: Key, from: nat, m: Instants<B>) {
    exists n, j :: from <= n < j < |m| && key in m[n] && key in m[j] && m[n][key].version != m[j][key].version
  }

  /** The answer to a request for a delete is what happened in the bucket since the instant `from`;
      the store is asked exactly about candidates classified for deletion. */
  ghost predicate Witnessed<B>(g: Setting, w: Work, a: Answer, from: nat, m: Instants<B>) {
    match a
    case NotAsked => g.dryRun || DecisionFor(g, w) != Delete
    case Removed => true
    case Vanished => DecisionFor(g, w) == Delete && !g.dryRun && AbsentSince(w.candidate.key, from, m)
    case Changed => DecisionFor(g, w) == Delete && !g.dryRun && ReplacedSince(w.candidate.key, from, m)
    case Failed(_) => DecisionFor(g, w) == Delete && !g.dryRun && from < |m|
    case RecordReturned => LooksForRecord(g, w) && PresentSince(RecordOf(w.candidate.key), from, m)
    case RecordUnknown => LooksForRecord(g, w) && from < |m|
  }

  /** A real sweep looks for the record of an orphan marker first. */
  predicate LooksForRecord(g: Setting, w: Work) {
    w.cat == OrphanMarkers && !g.dryRun
  }

  function RecordOf(marker: Key): Key {
    TrimSuffix(marker, MARKER_SUFFIX)
  }

  /** ... and goes on with the marker only if it saw that there is none. */
  ghost predicate RecordSought<B>(g: Setting, w: Work, a: Answer, from: nat, m: Instants<B>) {
    LooksForRecord(g, w) && !a.RecordReturned? && !a.RecordUnknown? ==> AbsentSince(RecordOf(w.candidate.key), from, m)
  }

  ghost predicate AllWitnessed<B>(g: Setting, ws: seq<Work>, answers: seq<Answer>, from: nat, m: Instants<B>)
    requires |ws| == |answers|
  {
    forall i :: 0 <= i < |ws| ==> Witnessed(g, ws[i], answers[i], from, m) && RecordSought(g, ws[i], answers[i], from, m)
  }

  lemma WitnessedLonger<B>(g: Setting, w: Work, a: Answer, from: nat, m: Instants<B>, start: nat, longer: Instants<B>)
    requires start <= from && m <= longer
    ensures Witnessed(g, w, a, from, m) ==> Witnessed(g, w, a, start, longer)
    ensures RecordSought(g, w, a, from, m) ==> RecordSought(g, w, a, start, longer)
  {
    hide DecisionFor;
    var key, record := w.candidate.key, RecordOf(w.candidate.key);
    if AbsentSince(key, from, m) { var n :| from <= n < |m| && key !in m[n]; assert key !in longer[n]; }
    if AbsentSince(record, from, m) { var n :| from <= n < |m| && record !in m[n]; assert record !in longer[n]; }
    if PresentSince(record, from, m) { var n :| from <= n < |m| && record in m[n]; assert record in longer[n]; }
    if ReplacedSince(key, from, m) {
      var n, j :| from <= n < j < |m| && key in m[n] && key in m[j] && m[n][key].version != m[j][key].version;
      assert key in longer[n] && key in longer[j] && longer[n][key].version != longer[j][key].version;
    }
  }

  lemma WitnessedOneMore<B>(g: Setting, ws: seq<Work>, answers: seq<Answer>, w: Work, a: Answer, start: nat, m: Instants<B>, from: nat, longer: Instants<B>)
    requires |ws| == |answers| && AllWitnessed(g, ws, answers, start, m) && m <= longer && start <= from
    requires Witnessed(g, w, a, from, longer) && RecordSought(g, w, a, from, longer)
    ensures AllWitnessed(g, ws + [w], answers + [a], start, longer)
  {
    hide Witnessed, RecordSought;
    var ws', answers' := ws + [w], answers + [a];
    forall i | 0 <= i < |ws'|
      ensures Witnessed(g, ws'[i], answers'[i], start, longer) && RecordSought(g, ws'[i], answers'[i], start, longer)
    {
      if i < |ws| {
        assert ws'[i] == ws[i] && answers'[i] == answers[i];
        WitnessedLonger(g, ws[i], answers[i], start, m, start, longer);
      } else {
        WitnessedLonger(g, w, a, from, longer, start, longer);
      }
    }
  }

  /** The store call for this candidate failed. */
  predicate Failing(a: Answer) {
    a.Failed? || a.RecordUnknown?
  }

  function Failures(answers: seq<Answer>): nat {
    if answers == [] then 0 else Failures(answers[..|answers| - 1]) + if Failing(answers[|answers| - 1]) then 1 else 0
  }

  /** The report has one error for each failed store call. */
  lemma {:induction false} ErrorsAreFailures<B>(g: Setting, ws: seq<Work>, answers: seq<Answer>, from: nat, m: Instants<B>)
    requires |ws| == |answers| && AllWitnessed(g, ws, answers, from, m)
    ensures |Outcome(g, ws, answers).errors| == Failures(answers)
  {
    hide AbsentSince, PresentSince, ReplacedSince, DecisionFor, RecordSought;
    if ws != [] {
      var n := |ws| - 1;
      forall i | 0 <= i < n
        ensures Witnessed(g, ws[..n][i], answers[..n][i], from, m) && RecordSought(g, ws[..n][i], answers[..n][i], from, m)
      {
        assert ws[..n][i] == ws[i] && answers[..n][i] == answers[i];
      }
      ErrorsAreFailures(g, ws[..n], answers[..n], from, m);
      assert Witnessed(g, ws[n], answers[n], from, m);
    }
  }

  /** A sweep removes an orphan marker only if at some instant it had no record. */
  lemma {:induction false} RemovedMarkersHadNoRecord<B>(g: Setting, ws: seq<Work>, answers: seq<Answer>, from: nat, m: Instants<B>, k: Key)
    requires |ws| == |answers| && AllPlausible(g, ws, answers) && AllWitnessed(g, ws, answers, from, m)
    requires k in RemovedKeys(ws, answers)
    ensures exists i :: 0 <= i < |ws| && ws[i].candidate.key == k && (ws[i].cat == OrphanMarkers ==> AbsentSince(RecordOf(k), from, m))
  {
    hide Witnessed, DecisionFor, AbsentSince;
    var n := |ws| - 1;
    if k in RemovedKeys(ws[..n], answers[..n]) {
      forall i | 0 <= i < n
        ensures Witnessed(g, ws[..n][i], answers[..n][i], from, m) && RecordSought(g, ws[..n][i], answers[..n][i], from, m)
      {
        assert ws[..n][i] == ws[i] && answers[..n][i] == answers[i];
      }
      RemovedMarkersHadNoRecord(g, ws[..n], answers[..n], from, m, k);
      var i :| 0 <= i < n && ws[..n][i].candidate.key == k && (ws[..n][i].cat == OrphanMarkers ==> AbsentSince(RecordOf(k), from, m));
      assert ws[i] == ws[..n][i];
    } else {
      assert k in RemovedBy(ws[n], answers[n]) && RecordSought(g, ws[n], answers[n], from, m);
    }
  }

  /** Acts on one classified candidate and records its fate. */
  method ApplyDecision<B(==, !new)>(s: ObjectStore.Bucket<B>, g: Setting, w: Work, out: SweepRecord) returns (ghost a: Answer)
    requires s.Valid()
    modifies s, out
    ensures s.Valid() && Plausible(g, w, a)
    ensures !a.RecordReturned? && !a.RecordUnknown? && old(s.moments) <= s.moments
    ensures s.failures == old(s.failures) + if Failing(a) then 1 else 0
    ensures Witnessed(g, w, a, |old(s.moments)|, s.moments)
    ensures out.report == old(out.report).Add(w.Label(), FateOf(g, w, a))
    ensures s.effects == old(s.effects) + RemovalEffects(RemovedBy(w, a))
    ensures g.dryRun ==> unchanged(s)
  {
    a := NotAsked;
    var key := w.candidate.key;
    match DecisionFor(g, w)
    case Revived => out.Append(w.Label(), Skipped(WasRevived));
    case Retention => out.Append(w.Label(), Skipped(RetentionNotMet));
    case Disarmed => out.Append(w.Label(), Skipped(TxSweepDisarmed));
    case Delete =>
      if g.dryRun {
        out.Append(w.Label(), Deleted);
        return;
      }
      var meta := s.Head(key);
      if meta.Absent? {
        a := Vanished;
        out.Append(w.Label(), Skipped(NotFound));
        return;
      } else if meta.HeadFailed? {
        a := Failed(false);
        out.Append(w.Label(), Errored);
        return;
      }
      ghost var before := s.effects;
      var del := s.DeleteIfVersionMatches(key, meta.version);
      match del
      case Deleted =>
        a := Removed;
        out.Append(w.Label(), Fate.Deleted);
      case VersionChanged =>
        a := Changed;
        out.Append(w.Label(), Skipped(VersionMismatch));
      case NothingThere =>
        a := Vanished;
        out.Append(w.Label(), Skipped(NotFound));
      case DeleteFailed =>
        a := Failed(s.effects != before);
        out.Append(w.Label(), Errored);
  }

  const MARKER_SUFFIX := ".commit"

  function TrimSuffix(s: string, suffix: string): string {
    if |s| >= |suffix| && s[|s| - |suffix|..] == suffix then s[..|s| - |suffix|] else s
  }

  /** One candidate, an orphan marker being looked up beside its record first. */
  method SweepOne<B(==, !new)>(s: ObjectStore.Bucket<B>, g: Setting, w: Work, out: SweepRecord) returns (ghost a: Answer)
    requires s.Valid()
    modifies s, out
    ensures s.Valid() && Plausible(g, w, a) && old(s.moments) <= s.moments
    ensures s.failures == old(s.failures) + if Failing(a) then 1 else 0
    ensures Witnessed(g, w, a, |old(s.moments)|, s.moments) && RecordSought(g, w, a, |old(s.moments)|, s.moments)
    ensures out.report == old(out.report).Add(w.Label(), FateOf(g, w, a))
    ensures s.effects == old(s.effects) + RemovalEffects(RemovedBy(w, a))
    ensures g.dryRun ==> unchanged(s)
  {
    ghost var from := |s.moments|;
    if w.cat == OrphanMarkers && !g.dryRun {
      var record := s.Head(TrimSuffix(w.candidate.key, MARKER_SUFFIX));
      ghost var sought := s.moments;
      if record.Present? {
        a := RecordReturned;
        out.Append(w.Label(), Skipped(WasRevived));
        return;
      } else if !record.Absent? {
        a := RecordUnknown;
        out.Append(w.Label(), Errored);
        return;
      }
      assert RecordOf(w.candidate.key) !in sought[|sought| - 1];
      a := ApplyDecision(s, g, w, out);
      assert RecordOf(w.candidate.key) !in s.moments[|sought| - 1];
      WitnessedLonger(g, w, a, |sought|, s.moments, from, s.moments);
      return;
    }
    a := ApplyDecision(s, g, w, out);
  }

  lemma OutcomeOfOneMore<B>(g: Setting, ws: seq<Work>, answers: seq<Answer>, w: Work, a: Answer)
    requires |ws| == |answers| && AllPlausible(g, ws, answers) && Plausible(g, w, a)
    ensures AllPlausible(g, ws + [w], answers + [a])
    ensures Outcome(g, ws + [w], answers + [a]) == Outcome(g, ws, answers).Add(w.Label(), FateOf(g, w, a))
    ensures RemovalEffects<B>(RemovedKeys(ws + [w], answers + [a]))
            == RemovalEffects<B>(RemovedKeys(ws, answers)) + RemovalEffects<B>(RemovedBy(w, a))
  {
    assert (ws + [w])[..|ws|] == ws && (answers + [a])[..|ws|] == answers;
  }

  /** The state of a sweep that has handled `ws`. */
  ghost predicate Swept<B>(g: Setting, ws: seq<Work>, answers: seq<Answer>, report: Report,
                           base: seq<ObjectStore.Effect<B>>, effects: seq<ObjectStore.Effect<B>>, start: nat, m: Instants<B>) {
    && |ws| == |answers| && AllPlausible(g, ws, answers) && AllWitnessed(g, ws, answers, start, m)
    && report == Outcome(g, ws, answers) && effects == base + RemovalEffects(RemovedKeys(ws, answers))
  }

  lemma SweptNone<B>(g: Setting, base: seq<ObjectStore.Effect<B>>, m: Instants<B>)
    ensures Swept(g, [], [], Report([], [], []), base, base, |m|, m)
  {}

  lemma SweptIs<B>(g: Setting, ws: seq<Work>, answers: seq<Answer>, report: Report,
                   base: seq<ObjectStore.Effect<B>>, effects: seq<ObjectStore.Effect<B>>, start: nat, m: Instants<B>)
    requires Swept(g, ws, answers, report, base, effects, start, m)
    ensures |ws| == |answers| && AllPlausible(g, ws, answers) && AllWitnessed(g, ws, answers, start, m)
    ensures report == Outcome(g, ws, answers) && effects == base + RemovalEffects(RemovedKeys(ws, answers))
  {}

  lemma SweptOneMore<B>(g: Setting, ws: seq<Work>, answers: seq<Answer>, report: Report,
                        base: seq<ObjectStore.Effect<B>>, effects: seq<ObjectStore.Effect<B>>, start: nat, m: Instants<B>,
                        w: Work, a: Answer, effects': seq<ObjectStore.Effect<B>>, longer: Instants<B>)
    requires Swept(g, ws, answers, report, base, effects, start, m) && m <= longer && start <= |m|
    requires Plausible(g, w, a) && Witnessed(g, w, a, |m|, longer) && RecordSought(g, w, a, |m|, longer)
    requires effects' == effects + RemovalEffects(RemovedBy(w, a))
    ensures Swept(g, ws + [w], answers + [a], report.Add(w.Label(), FateOf(g, w, a)), base, effects', start, longer)
  {
    hide AllPlausible, AllWitnessed, Plausible, Outcome, FateOf, RemovedKeys, RemovedBy, RemovalEffects, Witnessed, RecordSought;
    WitnessedOneMore(g, ws, answers, w, a, start, m, |m|, longer);
    OutcomeOfOneMore<B>(g, ws, answers, w, a);
    var before, more := RemovalEffects<B>(RemovedKeys(ws, answers)), RemovalEffects<B>(RemovedBy(w, a));
    assert (base + before) + more == base + (before + more);
  }

  /** Handles a list of candidates in order, whatever the store answers. */
  method SweepAll<B(==, !new)>(s: ObjectStore.Bucket<B>, g: Setting, ws: seq<Work>, out: SweepRecord) returns (ghost answers: seq<Answer>)
    requires s.Valid() && out.report == Report([], [], [])
    modifies s, out
    ensures s.Valid() && |answers| == |ws|
    ensures AllPlausible(g, ws, answers) && AllWitnessed(g, ws, answers, |old(s.moments)|, s.moments)
    ensures out.report == Outcome(g, ws, answers)
    ensures s.effects == old(s.effects) + RemovalEffects(RemovedKeys(ws, answers))
    ensures s.failures == old(s.failures) + Failures(answers)
    ensures g.dryRun ==> unchanged(s)
  {
    hide Swept, Plausible, FateOf, RemovedBy, RemovalEffects, Witnessed, RecordSought;
    answers := [];
    SweptNone(g, s.effects, s.moments);
    assert ws[..0] == [];
    for i := 0 to |ws|
      invariant s.Valid() && old(s.moments) <= s.moments
      invariant Swept(g, ws[..i], answers, out.report, old(s.effects), s.effects, |old(s.moments)|, s.moments)
      invariant s.failures == old(s.failures) + Failures(answers)
      invariant g.dryRun ==> unchanged(s)
    {
      ghost var report, effects, m := out.report, s.effects, s.moments;
      var a := SweepOne(s, g, ws[i], out);
      SweptOneMore(g, ws[..i], answers, report, old(s.effects), effects, |old(s.moments)|, m, ws[i], a, s.effects, s.moments);
      assert ws[..i + 1] == ws[..i] + [ws[i]];
      assert (answers + [a])[..|answers|] == answers;
      answers := answers + [a];
    }
    assert ws[..|ws|] == ws;
    SweptIs(g, ws, answers, out.report, old(s.effects), s.effects, |old(s.moments)|, s.moments);
  }

  /** Runs the whole sweep; fails, and touches nothing, exactly if the root cannot be read or does
      not parse. Otherwise the report and the removals are those of `Outcome` and `RemovedKeys` for
      whatever the store answered, as the bucket's own history bears out; a dry run does not touch
      the store. */
  method RunSweep<B(==, !new)>(s: ObjectStore.Bucket<B>, repo: RepoKeys, root: Result<GcMark.RootView, ()>, mark: Mark, now: int, dryRun: bool)
    returns (r: Result<SweepRecord, ()>, ghost g: Setting, ghost answers: seq<Answer>)
    requires s.Valid()
    modifies s
    ensures s.Valid()
    ensures r.Err? <==> root.Err? || root.value.raw.Unreadable?
    ensures r.Err? ==> unchanged(s)
    ensures r.Ok? ==> && fresh(r.value) && |answers| == |WorkOn(mark)|
                      && g == Setting(repo, Manifest(root.value.latestTx, GcMark.BodyOf(root.value.raw)), mark, now, dryRun)
                      && AllPlausible(g, WorkOn(mark), answers)
                      && AllWitnessed(g, WorkOn(mark), answers, |old(s.moments)|, s.moments)
                      && |r.value.report.errors| == s.failures - old(s.failures)
                      && r.value.report == Outcome(g, WorkOn(mark), answers)
                      && s.effects == old(s.effects) + RemovalEffects(RemovedKeys(WorkOn(mark), answers))
    ensures dryRun ==> unchanged(s)
  {
    hide AllPlausible, AllWitnessed, Outcome, RemovedKeys, RemovalEffects;
    g, answers := Setting(repo, Manifest("", EMPTY_BODY), mark, now, dryRun), [];
    if root.Err? {
      return Err(()), g, answers;
    }
    var _, ok := GcMark.BuildLiveSet(repo, root.value.latestTx, root.value.raw);
    if !ok {
      return Err(()), g, answers;
    }
    var setting := Setting(repo, Manifest(root.value.latestTx, GcMark.BodyOf(root.value.raw)), mark, now, dryRun);
    g := setting;
    var out := new SweepRecord();
    answers := SweepAll(s, setting, WorkOn(mark), out);
    ErrorsAreFailures(setting, WorkOn(mark), answers, |old(s.moments)|, s.moments);
    r := Ok(out);
  }
}
