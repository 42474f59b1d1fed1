/** Commits, marks and sweeps interleaved step by step over one bucket, by any
    number of concurrent runs. The main result, `IntactIffRetentionDominates`,
    says exactly for which deployments no run can lose a referenced object. */
module GcSafety {
  import opened Wrappers
  import opened GcModel

  type Positive = n: nat | n > 0 witness 1

  /** What a deployment promises the collector. */
  datatype Deployment = Deployment(
    rewrites: bool,      // a key may be written again after it was deleted
    maxDelay: nat,       // longest time from writing a key to committing it
    maxListing: nat,     // longest time from a mark's clock read to its last listing
    minRetention: Positive)   // smallest retention pinned in a mark

  /** A mark reads the root, then the clock, then the previous mark, then lists. */
  datatype MarkRun =
    | RootRead(root: Manifest)
    | ClockRead(root: Manifest, mark: Mark)
    | Listing(root: Manifest, prev: Option<Mark>, mark: Mark)

  /** A sweep reads the clock, then the root, then heads and deletes key by key. */
  datatype SweepRun =
    | Started(mark: Mark, startedAt: nat)
    | Deleting(mark: Mark, startedAt: nat, current: Manifest, head: Option<(Key, nat)>)

  datatype State = State(
    repo: RepoKeys,
    now: nat,
    objects: map<Key, nat>,     // stored keys and their versions
    nextVersion: nat,
    writtenAt: map<Key, nat>,   // when each key was last written, deleted keys included
    root: Manifest,
    marks: seq<Mark>,           // persisted marks
    markRuns: map<nat, MarkRun>,
    sweepRuns: map<nat, SweepRun>)

  datatype Event =
    | Tick(elapsed: nat)
    | Put(key: Key)
    | Commit(root: Manifest)
    | MarkReadRoot(id: nat)
    | MarkReadClock(id: nat, retention: nat)
    | MarkReadPrevious(id: nat, previous: Option<nat>)
    | MarkObserve(id: nat, cat: Category, key: Key)
    | MarkPersist(id: nat)
    | MarkPrune(which: nat)
    | SweepStart(id: nat, which: nat)
    | SweepReadRoot(id: nat)
    | SweepHead(id: nat, cat: Category, index: nat)
    | SweepDelete(id: nat)

  predicate Refs(s: State, k: Key) {
    References(s.repo, s.root, k)
  }

  /** A commit may start to reference a key that is not written yet, or one
      written no longer than `maxDelay` ago. */
  ghost predicate CommitAllowed(d: Deployment, s: State, root: Manifest) {
    forall k :: References(s.repo, root, k) && !Refs(s, k) && k in s.writtenAt
                ==> s.now <= s.writtenAt[k] + d.maxDelay
  }

  ghost predicate Enabled(d: Deployment, s: State, e: Event) {
    match e
    case Tick(_) => true
    case Put(k) => k !in s.objects && (k in s.writtenAt ==> d.rewrites)
    case Commit(root) => CommitAllowed(d, s, root)
    case MarkReadRoot(id) => true
    case MarkReadClock(id, retention) =>
      id in s.markRuns && s.markRuns[id].RootRead? && retention >= d.minRetention
    case MarkReadPrevious(id, which) =>
      && id in s.markRuns && s.markRuns[id].ClockRead?
      && (which.Some? ==> which.value < |s.marks|)
    case MarkObserve(id, cat, k) =>
      && id in s.markRuns && s.markRuns[id].Listing?
      && s.now <= s.markRuns[id].mark.startedAt + d.maxListing
      && k in s.objects && Filed(s.repo, cat, k)
      && (cat == OrphanMarkers || !References(s.repo, s.markRuns[id].root, k))
    case MarkPersist(id) => id in s.markRuns && s.markRuns[id].Listing?
    case MarkPrune(which) => which < |s.marks|
    case SweepStart(id, which) => which < |s.marks|
    case SweepReadRoot(id) => id in s.sweepRuns && s.sweepRuns[id].Started?
    case SweepHead(id, cat, i) =>
      && id in s.sweepRuns && s.sweepRuns[id].Deleting?
      && i < |s.sweepRuns[id].mark.Listed(cat)|
      && Condemned(s.repo, s.sweepRuns[id], cat, s.sweepRuns[id].mark.Listed(cat)[i])
      && s.sweepRuns[id].mark.Listed(cat)[i].key in s.objects
    case SweepDelete(id) =>
      id in s.sweepRuns && s.sweepRuns[id].Deleting? && s.sweepRuns[id].head.Some?
  }

  /** The sweep's classification of candidate `c` is to delete it. */
  predicate Condemned(repo: RepoKeys, w: SweepRun, cat: Category, c: Candidate)
    requires w.Deleting?
  {
    Classify(cat, c, w.mark.retention, w.startedAt, References(repo, w.current, c.key), w.mark.armed) == Delete
  }

  function Apply(s: State, e: Event): State {
    match e
    case Tick(elapsed) => s.(now := s.now + elapsed)
    case Put(k) =>
      s.(objects := s.objects[k := s.nextVersion],
         nextVersion := s.nextVersion + 1,
         writtenAt := s.writtenAt[k := s.now])
    case Commit(root) => s.(root := root)
    case MarkReadRoot(id) => s.(markRuns := s.markRuns[id := RootRead(s.root)])
    case MarkReadClock(id, retention) =>
      if id !in s.markRuns then s else
        s.(markRuns := s.markRuns[id := ClockRead(s.markRuns[id].root, EmptyMark(s.now, retention, true))])
    case MarkReadPrevious(id, which) =>
      if id !in s.markRuns || s.markRuns[id].RootRead? then s else
        var prev := if which.Some? && which.value < |s.marks| then Some(s.marks[which.value]) else None;
        s.(markRuns := s.markRuns[id := Listing(s.markRuns[id].root, prev, s.markRuns[id].mark)])
    case MarkObserve(id, cat, k) =>
      if id !in s.markRuns || !s.markRuns[id].Listing? then s else
        var r := s.markRuns[id];
        var c := Carry(r.prev, cat, k, r.mark.startedAt);
        s.(markRuns := s.markRuns[id := r.(mark := r.mark.With(cat, r.mark.Listed(cat) + [c]))])
    case MarkPersist(id) =>
      if id !in s.markRuns || !s.markRuns[id].Listing? then s else
        s.(marks := [s.markRuns[id].mark] + s.marks, markRuns := s.markRuns - {id})
    case MarkPrune(which) =>
      if which >= |s.marks| then s else s.(marks := s.marks[..which] + s.marks[which + 1..])
    case SweepStart(id, which) =>
      if which >= |s.marks| then s else
        s.(sweepRuns := s.sweepRuns[id := Started(s.marks[which], s.now)])
    case SweepReadRoot(id) =>
      if id !in s.sweepRuns then s else
        var w := s.sweepRuns[id];
        s.(sweepRuns := s.sweepRuns[id := Deleting(w.mark, w.startedAt, s.root, None)])
    case SweepHead(id, cat, i) =>
      if id !in s.sweepRuns || !s.sweepRuns[id].Deleting? || i >= |s.sweepRuns[id].mark.Listed(cat)| then s else
        var w := s.sweepRuns[id];
        var k := w.mark.Listed(cat)[i].key;
        if k !in s.objects then s else
          s.(sweepRuns := s.sweepRuns[id := w.(head := Some((k, s.objects[k])))])
    case SweepDelete(id) =>
      if id !in s.sweepRuns || !s.sweepRuns[id].Deleting? || s.sweepRuns[id].head.None? then s else
        var w := s.sweepRuns[id];
        var (k, v) := w.head.value;
        var s' := s.(sweepRuns := s.sweepRuns[id := w.(head := None)]);
        if k in s.objects && s.objects[k] == v then s'.(objects := s.objects - {k}) else s'
  }

  // ---- Runs ----

  predicate Initial(s: State) {
    s == State(s.repo, 0, map[], 0, map[], s.root, [], map[], map[])
  }

  function Exec(s: State, es: seq<Event>): State {
    if es == [] then s else Apply(Exec(s, es[..|es| - 1]), es[|es| - 1])
  }

  /** Every event of the run happens only when the deployment allows it. */
  ghost predicate Legal(d: Deployment, s: State, es: seq<Event>) {
    es == [] ||
    (Legal(d, s, es[..|es| - 1]) && Enabled(d, Exec(s, es[..|es| - 1]), es[|es| - 1]))
  }

  /** No key the current manifest references has been lost: each is either still
      to be written or present. */
  ghost predicate Intact(s: State) {
    forall k :: Refs(s, k) && k in s.writtenAt ==> k in s.objects
  }

  // ---- The invariant ----

  /** A mark lists only keys that were written at most `maxListing` after their
      first-seen time. */
  ghost predicate MarkSound(d: Deployment, s: State, m: Mark) {
    && m.retention >= d.minRetention
    && forall cat, i :: 0 <= i < |m.Listed(cat)| ==> CandidateSound(d, s, m.Listed(cat)[i])
  }

  ghost predicate CandidateSound(d: Deployment, s: State, c: Candidate) {
    c.key in s.writtenAt && s.writtenAt[c.key] <= c.firstSeen + d.maxListing
  }

  ghost predicate MarkRunSound(d: Deployment, s: State, r: MarkRun) {
    && (!r.RootRead? ==> MarkSound(d, s, r.mark))
    && (r.Listing? && r.prev.Some? ==> MarkSound(d, s, r.prev.value))
  }

  /** Too old to be referenced by any later commit, and not referenced now. */
  ghost predicate Dead(d: Deployment, s: State, k: Key) {
    k in s.writtenAt && s.now > s.writtenAt[k] + d.maxDelay && !Refs(s, k)
  }

  ghost predicate SweepRunSound(d: Deployment, s: State, w: SweepRun) {
    && MarkSound(d, s, w.mark)
    && w.startedAt <= s.now
    && (w.Deleting? ==>
          && (forall cat, i :: 0 <= i < |w.mark.Listed(cat)| && Condemned(s.repo, w, cat, w.mark.Listed(cat)[i])
                               ==> Dead(d, s, w.mark.Listed(cat)[i].key))
          && (w.head.Some? ==> Dead(d, s, w.head.value.0)))
  }

  ghost predicate Inv(d: Deployment, s: State) {
    && (forall k :: k in s.objects ==> k in s.writtenAt)
    && (forall k :: k in s.writtenAt ==> s.writtenAt[k] <= s.now)
    && (forall k :: k in s.writtenAt && k !in s.objects ==> Dead(d, s, k))
    && (forall i :: 0 <= i < |s.marks| ==> MarkSound(d, s, s.marks[i]))
    && (forall id :: id in s.markRuns ==> MarkRunSound(d, s, s.markRuns[id]))
    && (forall id :: id in s.sweepRuns ==> SweepRunSound(d, s, s.sweepRuns[id]))
  }

  ghost predicate Safe(d: Deployment) {
    !d.rewrites && d.maxDelay + d.maxListing < d.minRetention
  }

  /** Write-once and time monotonicity carry every fact about marks and dead keys
      from `s` to `t`, unless the root changed. */
  ghost predicate Grows(s: State, t: State) {
    && s.repo == t.repo
    && s.now <= t.now
    && (forall k :: k in s.writtenAt ==> k in t.writtenAt && t.writtenAt[k] == s.writtenAt[k])
  }

  lemma MarkSoundGrows(d: Deployment, s: State, t: State, m: Mark)
    requires Grows(s, t) && MarkSound(d, s, m)
    ensures MarkSound(d, t, m)
  {
    forall cat, i | 0 <= i < |m.Listed(cat)| ensures CandidateSound(d, t, m.Listed(cat)[i]) {
      assert CandidateSound(d, s, m.Listed(cat)[i]);
    }
  }

  lemma DeadGrows(d: Deployment, s: State, t: State, k: Key)
    requires Grows(s, t) && Dead(d, s, k)
    requires t.root == s.root || CommitAllowed(d, s, t.root)
    ensures Dead(d, t, k)
  {}

  lemma SweepRunSoundGrows(d: Deployment, s: State, t: State, w: SweepRun)
    requires Grows(s, t) && SweepRunSound(d, s, w)
    requires t.root == s.root || CommitAllowed(d, s, t.root)
    ensures SweepRunSound(d, t, w)
  {
    MarkSoundGrows(d, s, t, w.mark);
    if w.Deleting? {
      forall cat, i | 0 <= i < |w.mark.Listed(cat)| && Condemned(s.repo, w, cat, w.mark.Listed(cat)[i])
        ensures Dead(d, t, w.mark.Listed(cat)[i].key)
      {
        DeadGrows(d, s, t, w.mark.Listed(cat)[i].key);
      }
      if w.head.Some? {
        DeadGrows(d, s, t, w.head.value.0);
      }
    }
  }

  /** The parts of the invariant that no single run owns. */
  lemma InvGrows(d: Deployment, s: State, t: State)
    requires Inv(d, s) && Grows(s, t)
    requires t.root == s.root || CommitAllowed(d, s, t.root)
    ensures forall i :: 0 <= i < |s.marks| ==> MarkSound(d, t, s.marks[i])
    ensures forall id :: id in s.markRuns ==> MarkRunSound(d, t, s.markRuns[id])
    ensures forall id :: id in s.sweepRuns ==> SweepRunSound(d, t, s.sweepRuns[id])
    ensures forall k :: k in s.writtenAt && k !in s.objects ==> Dead(d, t, k)
  {
    forall i | 0 <= i < |s.marks| ensures MarkSound(d, t, s.marks[i]) {
      MarkSoundGrows(d, s, t, s.marks[i]);
    }
    forall id | id in s.markRuns ensures MarkRunSound(d, t, s.markRuns[id]) {
      var r := s.markRuns[id];
      if !r.RootRead? { MarkSoundGrows(d, s, t, r.mark); }
      if r.Listing? && r.prev.Some? { MarkSoundGrows(d, s, t, r.prev.value); }
    }
    forall id | id in s.sweepRuns ensures SweepRunSound(d, t, s.sweepRuns[id]) {
      SweepRunSoundGrows(d, s, t, s.sweepRuns[id]);
    }
    forall k | k in s.writtenAt && k !in s.objects ensures Dead(d, t, k) {
      DeadGrows(d, s, t, k);
    }
  }

  lemma ObserveKeepsMark(d: Deployment, s: State, r: MarkRun, cat: Category, k: Key)
    requires r.Listing? && MarkRunSound(d, s, r)
    requires k in s.writtenAt && s.writtenAt[k] <= s.now <= r.mark.startedAt + d.maxListing
    ensures MarkSound(d, s, r.mark.With(cat, r.mark.Listed(cat) + [Carry(r.prev, cat, k, r.mark.startedAt)]))
  {
    var c := Carry(r.prev, cat, k, r.mark.startedAt);
    var m := r.mark.With(cat, r.mark.Listed(cat) + [c]);
    assert CandidateSound(d, s, c) by {
      if c != Candidate(k, r.mark.startedAt) {
        var i :| 0 <= i < |r.prev.value.Listed(cat)| && r.prev.value.Listed(cat)[i] == c;
      }
    }
    forall cat', i | 0 <= i < |m.Listed(cat')| ensures CandidateSound(d, s, m.Listed(cat')[i]) {
      if cat' == cat && i == |r.mark.Listed(cat)| {
        assert m.Listed(cat')[i] == c;
      } else {
        assert m.Listed(cat')[i] == r.mark.Listed(cat')[i];
      }
    }
  }

  /** A freshly read root: what the sweep condemns was written too long ago for
      any commit still to come. */
  lemma ReadRootCondemnsDeadKeys(d: Deployment, s: State, w: SweepRun)
    requires Safe(d) && Inv(d, s) && SweepRunSound(d, s, w) && w.Started?
    ensures SweepRunSound(d, s, Deleting(w.mark, w.startedAt, s.root, None))
  {
    var w' := Deleting(w.mark, w.startedAt, s.root, None);
    forall cat, i | 0 <= i < |w'.mark.Listed(cat)| && Condemned(s.repo, w', cat, w'.mark.Listed(cat)[i])
      ensures Dead(d, s, w'.mark.Listed(cat)[i].key)
    {
      assert CandidateSound(d, s, w.mark.Listed(cat)[i]);
    }
  }

  lemma StorageStepKeepsInv(d: Deployment, s: State, e: Event)
    requires Safe(d) && Inv(d, s) && Enabled(d, s, e)
    requires e.Tick? || e.Put? || e.Commit?
    ensures Inv(d, Apply(s, e))
  {
    InvGrows(d, s, Apply(s, e));
  }

  lemma ObserveKeepsInv(d: Deployment, s: State, e: Event)
    requires Inv(d, s) && Enabled(d, s, e) && e.MarkObserve?
    ensures Inv(d, Apply(s, e))
  {
    var t := Apply(s, e);
    InvGrows(d, s, t);
    ObserveKeepsMark(d, s, s.markRuns[e.id], e.cat, e.key);
    MarkSoundGrows(d, s, t, t.markRuns[e.id].mark);
  }

  lemma MarkStepKeepsInv(d: Deployment, s: State, e: Event)
    requires Inv(d, s) && Enabled(d, s, e)
    requires e.MarkReadRoot? || e.MarkReadClock? || e.MarkReadPrevious?
    ensures Inv(d, Apply(s, e))
  {
    InvGrows(d, s, Apply(s, e));
  }

  lemma MarkRecordStepKeepsInv(d: Deployment, s: State, e: Event)
    requires Inv(d, s) && Enabled(d, s, e)
    requires e.MarkPersist? || e.MarkPrune?
    ensures Inv(d, Apply(s, e))
  {
    var t := Apply(s, e);
    InvGrows(d, s, t);
    forall i | 0 <= i < |t.marks| ensures MarkSound(d, t, t.marks[i]) {
      if e.MarkPersist? {
        assert i > 0 ==> t.marks[i] == s.marks[i - 1];
        assert MarkRunSound(d, t, s.markRuns[e.id]);
      } else {
        assert t.marks[i] == if i < e.which then s.marks[i] else s.marks[i + 1];
      }
    }
  }

  lemma SweepReadStepKeepsInv(d: Deployment, s: State, e: Event)
    requires Safe(d) && Inv(d, s) && Enabled(d, s, e)
    requires e.SweepStart? || e.SweepReadRoot? || e.SweepHead?
    ensures Inv(d, Apply(s, e))
  {
    var t := Apply(s, e);
    InvGrows(d, s, t);
    if e.SweepReadRoot? {
      ReadRootCondemnsDeadKeys(d, s, s.sweepRuns[e.id]);
      SweepRunSoundGrows(d, s, t, t.sweepRuns[e.id]);
    }
  }

  lemma DeleteKeepsInv(d: Deployment, s: State, e: Event)
    requires Inv(d, s) && Enabled(d, s, e) && e.SweepDelete?
    ensures Inv(d, Apply(s, e))
  {
    hide MarkSound, MarkRunSound, Dead, Classify, References, CommitAllowed;
    InvGrows(d, s, Apply(s, e));
  }

  lemma StepKeepsInv(d: Deployment, s: State, e: Event)
    requires Safe(d) && Inv(d, s) && Enabled(d, s, e)
    ensures Inv(d, Apply(s, e))
  {
    match e
    case Tick(_) => StorageStepKeepsInv(d, s, e);
    case Put(_) => StorageStepKeepsInv(d, s, e);
    case Commit(_) => StorageStepKeepsInv(d, s, e);
    case MarkReadRoot(_) => MarkStepKeepsInv(d, s, e);
    case MarkReadClock(_, _) => MarkStepKeepsInv(d, s, e);
    case MarkReadPrevious(_, _) => MarkStepKeepsInv(d, s, e);
    case MarkObserve(_, _, _) => ObserveKeepsInv(d, s, e);
    case MarkPersist(_) => MarkRecordStepKeepsInv(d, s, e);
    case MarkPrune(_) => MarkRecordStepKeepsInv(d, s, e);
    case SweepStart(_, _) => SweepReadStepKeepsInv(d, s, e);
    case SweepReadRoot(_) => SweepReadStepKeepsInv(d, s, e);
    case SweepHead(_, _, _) => SweepReadStepKeepsInv(d, s, e);
    case SweepDelete(_) => DeleteKeepsInv(d, s, e);
  }

  lemma {:induction false} RunKeepsInv(d: Deployment, s: State, es: seq<Event>)
    requires Safe(d) && Initial(s) && Legal(d, s, es)
    ensures Inv(d, Exec(s, es))
  {
    if es != [] {
      RunKeepsInv(d, s, es[..|es| - 1]);
      StepKeepsInv(d, Exec(s, es[..|es| - 1]), es[|es| - 1]);
    }
  }

  /** Every reachable state of a safe deployment is intact, and a delete never
      removes a key that the manifest references at that moment. */
  lemma NoReferencedKeyIsLost(d: Deployment, s: State, es: seq<Event>)
    requires Safe(d) && Initial(s) && Legal(d, s, es)
    ensures Intact(Exec(s, es))
    ensures forall id :: Enabled(d, Exec(s, es), SweepDelete(id))
                         ==> !Refs(Exec(s, es), Exec(s, es).sweepRuns[id].head.value.0)
  {
    RunKeepsInv(d, s, es);
    var t := Exec(s, es);
    forall id | Enabled(d, t, SweepDelete(id))
      ensures !Refs(t, t.sweepRuns[id].head.value.0)
    {
      assert SweepRunSound(d, t, t.sweepRuns[id]);
    }
  }

  // ---- Runs that lose data outside the safe deployments ----

  ghost predicate Reaches(d: Deployment, s: State, t: State) {
    exists es :: Legal(d, s, es) && Exec(s, es) == t
  }

  lemma Here(d: Deployment, s: State)
    ensures Reaches(d, s, s)
  {
    assert Legal(d, s, []) && Exec(s, []) == s;
  }

  lemma {:induction false} Then(d: Deployment, s: State, t: State, e: Event)
    requires Reaches(d, s, t) && Enabled(d, t, e)
    ensures Reaches(d, s, Apply(t, e))
  {
    var es :| Legal(d, s, es) && Exec(s, es) == t;
    assert (es + [e])[..|es + [e]| - 1] == es;
    assert Legal(d, s, es + [e]) && Exec(s, es + [e]) == Apply(t, e);
  }

  const NO_PACKS := Manifest("", EMPTY_BODY)

  /** A pack of the repository. */
  function DemoKey(repo: RepoKeys): Key {
    repo.prefix + "packs/canonical/" + "p"
  }

  function OnePack(repo: RepoKeys): Manifest {
    Manifest("", EMPTY_BODY.(packs := [PackEntry(DemoKey(repo), "", "")]))
  }

  lemma DemoReferences(repo: RepoKeys)
    ensures forall k :: References(repo, OnePack(repo), k) <==> References(repo, NO_PACKS, k) || k == DemoKey(repo)
    ensures !References(repo, NO_PACKS, DemoKey(repo)) && Filed(repo, CanonicalPacks, DemoKey(repo))
  {
    var key := DemoKey(repo);
    assert key[|repo.prefix|] == 'p' && repo.RootManifestKey()[|repo.prefix|] == 'm';
    var p := PackEntry(key, "", "");
    assert OnePack(repo).body.packs[0] == p;
    forall k | k != key ensures !BodyReferences(OnePack(repo).body, k) {
      assert forall i :: 0 <= i < |OnePack(repo).body.packs| ==> OnePack(repo).body.packs[i] == p;
    }
  }

  function DemoStart(repo: RepoKeys): State {
    State(repo, 0, map[], 0, map[], NO_PACKS, [], map[], map[])
  }

  /** A mark that holds the demo pack as first seen at time 0. */
  function DemoMark(repo: RepoKeys, startedAt: int, retention: int): Mark {
    Mark(startedAt, retention, true, [], [Candidate(DemoKey(repo), 0)], [], [], [])
  }

  /** A mark reads the root, the clock and the newest mark; it is then listing. */
  lemma ReachListing(d: Deployment, s: State, t: State, id: nat) returns (u: State)
    requires Reaches(d, s, t)
    ensures var prev := if t.marks == [] then None else Some(t.marks[0]);
            var run := Listing(t.root, prev, EmptyMark(t.now, d.minRetention, true));
            Reaches(d, s, u) && u == t.(markRuns := t.markRuns[id := run])
  {
    hide Reaches;
    var which := if t.marks == [] then None else Some(0);
    var prev := if t.marks == [] then None else Some(t.marks[0]);
    var blank := EmptyMark(t.now, d.minRetention, true);
    var t1 := t.(markRuns := t.markRuns[id := RootRead(t.root)]);
    Then(d, s, t, MarkReadRoot(id));
    assert Apply(t, MarkReadRoot(id)) == t1;
    var t2 := t.(markRuns := t1.markRuns[id := ClockRead(t.root, blank)]);
    Then(d, s, t1, MarkReadClock(id, d.minRetention));
    assert Apply(t1, MarkReadClock(id, d.minRetention)) == t2;
    u := t.(markRuns := t2.markRuns[id := Listing(t.root, prev, blank)]);
    Then(d, s, t2, MarkReadPrevious(id, which));
    assert Apply(t2, MarkReadPrevious(id, which)) == u;
    assert u.markRuns == t.markRuns[id := Listing(t.root, prev, blank)];
  }

  /** A listing mark finds the demo pack, carries its first-seen time and is persisted. */
  lemma ReachPersisted(d: Deployment, s: State, t: State, id: nat, prev: Option<Mark>, startedAt: nat) returns (u: State)
    requires Reaches(d, s, t) && t.root == NO_PACKS && DemoKey(t.repo) in t.objects
    requires id in t.markRuns && t.markRuns[id] == Listing(NO_PACKS, prev, EmptyMark(startedAt, d.minRetention, true))
    requires t.now <= startedAt + d.maxListing
    requires Carry(prev, CanonicalPacks, DemoKey(t.repo), startedAt) == Candidate(DemoKey(t.repo), 0)
    ensures Reaches(d, s, u)
    ensures u == t.(marks := [DemoMark(t.repo, startedAt, d.minRetention)] + t.marks, markRuns := t.markRuns - {id})
  {
    DemoReferences(t.repo);
    var key := DemoKey(t.repo);
    hide Carry, References, Filed, Reaches;
    Then(d, s, t, MarkObserve(id, CanonicalPacks, key));
    var t1 := Apply(t, MarkObserve(id, CanonicalPacks, key));
    assert [] + [Candidate(key, 0)] == [Candidate(key, 0)];
    assert t1.markRuns[id] == Listing(NO_PACKS, prev, DemoMark(t.repo, startedAt, d.minRetention));
    Then(d, s, t1, MarkPersist(id));
    u := Apply(t1, MarkPersist(id));
    assert u.markRuns == t.markRuns - {id};
  }

  /** The first mark started at time 0 and listed the demo pack, written `late` after that. */
  lemma ReachMarked(d: Deployment, repo: RepoKeys, late: nat) returns (t: State)
    requires late <= d.maxListing
    ensures Reaches(d, DemoStart(repo), t)
    ensures t == State(repo, late, map[DemoKey(repo) := 0], 1, map[DemoKey(repo) := late], NO_PACKS,
                       [DemoMark(repo, 0, d.minRetention)], t.markRuns, map[])
  {
    hide Reaches, DemoKey;
    var s := DemoStart(repo);
    Here(d, s);
    t := ReachListing(d, s, s, 0);
    Then(d, s, t, Tick(late));
    t := Apply(t, Tick(late));
    Then(d, s, t, Put(DemoKey(repo)));
    t := Apply(t, Put(DemoKey(repo)));
    t := ReachPersisted(d, s, t, 0, None, 0);
  }

  /** Sweep `id` is about to delete the demo pack. */
  predicate AtHead(s: State, id: nat) {
    && s.root == NO_PACKS
    && DemoKey(s.repo) in s.objects && DemoKey(s.repo) in s.writtenAt
    && id in s.sweepRuns && s.sweepRuns[id].Deleting?
    && s.sweepRuns[id].head == Some((DemoKey(s.repo), s.objects[DemoKey(s.repo)]))
  }

  /** A sweep of the newest mark gets as far as the demo pack. */
  lemma ReachHead(d: Deployment, s: State, t: State, id: nat, startedAt: int) returns (u: State)
    requires Reaches(d, s, t) && t.root == NO_PACKS
    requires DemoKey(t.repo) in t.objects && DemoKey(t.repo) in t.writtenAt
    requires t.marks != [] && t.marks[0] == DemoMark(t.repo, startedAt, d.minRetention) && t.now >= d.minRetention
    ensures Reaches(d, s, u) && AtHead(u, id) && u == t.(sweepRuns := u.sweepRuns)
  {
    DemoReferences(t.repo);
    hide References, Reaches, DemoKey;
    var m := t.marks[0];
    Then(d, s, t, SweepStart(id, 0));
    var t1 := t.(sweepRuns := t.sweepRuns[id := Started(m, t.now)]);
    assert Apply(t, SweepStart(id, 0)) == t1;
    Then(d, s, t1, SweepReadRoot(id));
    var t2 := t.(sweepRuns := t1.sweepRuns[id := Deleting(m, t.now, NO_PACKS, None)]);
    assert Apply(t1, SweepReadRoot(id)) == t2;
    assert m.Listed(CanonicalPacks)[0] == Candidate(DemoKey(t.repo), 0);
    Then(d, s, t2, SweepHead(id, CanonicalPacks, 0));
    u := Apply(t2, SweepHead(id, CanonicalPacks, 0));
  }

  /** A commit that references the demo pack between the sweep's root read and its delete. */
  lemma CommitBeforeDelete(d: Deployment, s: State, t: State, id: nat) returns (u: State)
    requires Reaches(d, s, t) && AtHead(t, id)
    requires t.now <= t.writtenAt[DemoKey(t.repo)] + d.maxDelay
    ensures Reaches(d, s, u) && !Intact(u)
  {
    DemoReferences(t.repo);
    hide References, Reaches, DemoKey, OnePack;
    Then(d, s, t, Commit(OnePack(t.repo)));
    var t1 := t.(root := OnePack(t.repo));
    Then(d, s, t1, SweepDelete(id));
    u := Apply(t1, SweepDelete(id));
    assert Refs(u, DemoKey(t.repo));
  }

  /** When the commit delay and the listing time together reach the retention, a pack of any
      repository can be listed, committed in time and still be deleted. */
  lemma ShortRetentionLosesData(d: Deployment, repo: RepoKeys) returns (u: State)
    requires d.maxDelay + d.maxListing >= d.minRetention
    ensures Reaches(d, DemoStart(repo), u) && !Intact(u)
  {
    hide Reaches, DemoKey;
    var s := DemoStart(repo);
    var t := ReachMarked(d, repo, d.maxListing);
    Then(d, s, t, Tick(d.maxDelay));
    t := Apply(t, Tick(d.maxDelay));
    u := ReachHead(d, s, t, 0, 0);
    u := CommitBeforeDelete(d, s, u, 0);
  }

  /** A pack that was marked, swept, written again and marked once more is recorded as first seen
      before it was written. */
  lemma RewrittenKeyInheritsFirstSeen(d: Deployment, repo: RepoKeys) returns (t: State)
    requires d.rewrites
    ensures Reaches(d, DemoStart(repo), t) && t.repo == repo && t.root == NO_PACKS && t.now == d.minRetention
    ensures DemoKey(repo) in t.objects && DemoKey(repo) in t.writtenAt && t.writtenAt[DemoKey(repo)] == d.minRetention
    ensures t.marks == [DemoMark(repo, d.minRetention, d.minRetention), DemoMark(repo, 0, d.minRetention)]
  {
    hide Reaches, DemoKey;
    var s, key := DemoStart(repo), DemoKey(repo);
    t := ReachMarked(d, repo, 0);
    Then(d, s, t, Tick(d.minRetention));
    t := Apply(t, Tick(d.minRetention));
    t := ReachHead(d, s, t, 0, 0);
    Then(d, s, t, SweepDelete(0));
    t := Apply(t, SweepDelete(0));
    Then(d, s, t, Put(key));
    t := Apply(t, Put(key));
    t := ReachListing(d, s, t, 1);
    var prev := DemoMark(repo, 0, d.minRetention);
    assert prev.Listed(CanonicalPacks)[0] == Candidate(key, 0);
    t := ReachPersisted(d, s, t, 1, Some(prev), d.minRetention);
  }

  /** A pack deleted and written again under the same name inherits the old first-seen time from the
      previous mark, so the next sweep deletes it while it is being committed. */
  lemma RewriteLosesData(d: Deployment, repo: RepoKeys) returns (u: State)
    requires d.rewrites
    ensures Reaches(d, DemoStart(repo), u) && !Intact(u)
  {
    hide Reaches, DemoKey, DemoMark;
    var s := DemoStart(repo);
    var t := RewrittenKeyInheritsFirstSeen(d, repo);
    u := ReachHead(d, s, t, 1, d.minRetention);
    u := CommitBeforeDelete(d, s, u, 1);
  }

  ghost predicate RunIntact(d: Deployment, s: State, es: seq<Event>) {
    Initial(s) && Legal(d, s, es) ==> Intact(Exec(s, es))
  }

  lemma UnsafeDeploymentLosesData(d: Deployment, repo: RepoKeys)
    requires !Safe(d)
    ensures exists s: State, es :: s.repo == repo && !RunIntact(d, s, es)
  {
    var u: State;
    if d.rewrites {
      u := RewriteLosesData(d, repo);
    } else {
      u := ShortRetentionLosesData(d, repo);
    }
    var s := DemoStart(repo);
    var es :| Legal(d, s, es) && Exec(s, es) == u;
    assert !RunIntact(d, s, es);
  }

  /** In every repository: garbage collection never loses a referenced object, in any
      interleaving, exactly when keys are written once and the pinned retention is longer
      than the commit delay plus the listing time. */
  lemma IntactIffRetentionDominates(d: Deployment, repo: RepoKeys)
    ensures (forall s: State, es :: s.repo == repo ==> RunIntact(d, s, es))
            <==> !d.rewrites && d.maxDelay + d.maxListing < d.minRetention
  {
    if Safe(d) {
      forall s: State, es | s.repo == repo ensures RunIntact(d, s, es) {
        if Initial(s) && Legal(d, s, es) {
          NoReferencedKeyIsLost(d, s, es);
        }
      }
    } else {
      UnsafeDeploymentLosesData(d, repo);
    }
  }
}
