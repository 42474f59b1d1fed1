/** One repository's life under garbage collection: pushes, persisted marks,
    sweeps of the newest mark and pruning, in any order. */
module GcHistory {
  import opened Wrappers
  import opened GcModel
  import opened GcMark
  import GcSweep
  import Sorting

  datatype State = State(
    repo: RepoKeys,
    stored: set<Key>,
    root: Manifest,
    marks: seq<Mark>)   // newest first

  datatype Event =
    | Push(written: set<Key>, root: Manifest)
    | MarkPhase(clock: int, retention: int, found: Found, armedNow: bool)
      // `obstructed` are the keys whose delete failed or lost a race; `survivors` what pruning left
    | SweepPhase(clock: int, obstructed: set<Key>, survivors: seq<Mark>)

  lemma FiledOnce(repo: RepoKeys, a: Category, b: Category, k: Key)
    requires Filed(repo, a, k) && Filed(repo, b, k)
    ensures a == b
  {
    var n := |repo.prefix|;
    assert a == CanonicalPacks || b == CanonicalPacks ==> k[n] == 'p';
    assert a == Indexes || b == Indexes ==> k[n] == 'i';
    assert a == Bundles || b == Bundles ==> k[n] == 'b';
    assert a.TxRecords? || a.OrphanMarkers? || b.TxRecords? || b.OrphanMarkers? ==> k[n] == 't';
  }

  /** Nothing claims `k`: the root does not reference a pack, index or bundle; a transaction record
      has no commit marker and is not the current one; a commit marker has no record. */
  ghost predicate Unclaimed(s: State, cat: Category, k: Key) {
    match cat
    case TxRecords => !References(s.repo, s.root, k) && forall tx :: k == s.repo.TxRecordKey(tx) ==> s.repo.CommitMarkerKey(tx) !in s.stored
    case OrphanMarkers => forall tx :: k == s.repo.CommitMarkerKey(tx) ==> s.repo.TxRecordKey(tx) !in s.stored
    case _ => !References(s.repo, s.root, k)
  }

  ghost predicate Orphaned(s: State, cat: Category, k: Key) {
    k in s.stored && Filed(s.repo, cat, k) && Unclaimed(s, cat, k)
  }

  /** A mark finds exactly the orphaned keys of each category. */
  ghost predicate Finds(s: State, found: Found) {
    forall cat, k :: k in found.In(cat) <==> Orphaned(s, cat, k)
  }

  /** Some commit marker is stored. */
  ghost predicate HasMarker(s: State) {
    exists tx :: s.repo.CommitMarkerKey(tx) in s.stored
  }

  ghost predicate Enabled(s: State, e: Event) {
    match e
    case Push(_, _) => true
    case MarkPhase(_, retention, found, armedNow) => retention > 0 && Finds(s, found) && (armedNow <==> HasMarker(s))
    case SweepPhase(_, _, survivors) =>
      && s.marks != []
      && (if |s.marks| <= DEFAULT_KEEP then survivors == s.marks else s.marks[..DEFAULT_KEEP] <= survivors)
  }

  function Latest(s: State): Option<Mark> {
    if s.marks == [] then None else Some(s.marks[0])
  }

  /** The sweep deletes `k` for one of its entries in the newest mark. */
  ghost predicate Sweeps(s: State, e: Event, k: Key)
    requires e.SweepPhase? && s.marks != []
  {
    && k !in e.obstructed
    && exists cat, i :: 0 <= i < |s.marks[0].Listed(cat)| && Condemns(s, e.clock, cat, s.marks[0].Listed(cat)[i], k)
  }

  ghost predicate Condemns(s: State, clock: int, cat: Category, c: Candidate, k: Key)
    requires s.marks != []
  {
    && c.key == k
    && (cat == OrphanMarkers ==> GcSweep.RecordOf(k) !in s.stored)
    && Classify(cat, c, s.marks[0].retention, clock, References(s.repo, s.root, k), s.marks[0].armed) == Delete
  }

  ghost function Apply(s: State, e: Event): State {
    match e
    case Push(written, root) => s.(stored := s.stored + written, root := root)
    case MarkPhase(clock, retention, found, armedNow) =>
      s.(marks := [MarkOf(Latest(s), found, clock, retention, armedNow)] + s.marks)
    case SweepPhase(_, _, survivors) =>
      if s.marks == [] then s
      else s.(stored := (set k | k in s.stored && !Sweeps(s, e, k)), marks := survivors)
  }

  ghost function Exec(s: State, es: seq<Event>): State {
    if es == [] then s else Apply(Exec(s, es[..|es| - 1]), es[|es| - 1])
  }

  ghost predicate Legal(s: State, es: seq<Event>) {
    es == [] ||
    (Legal(s, es[..|es| - 1]) && Enabled(Exec(s, es[..|es| - 1]), es[|es| - 1]))
  }

  // ---- What is said about one key ----

  /** The newest mark records `k`, filed under `cat`, as first seen at `f` and nothing else about it. */
  ghost predicate Tracked(s: State, cat: Category, k: Key, f: int) {
    && s.marks != []
    && Candidate(k, f) in s.marks[0].Listed(cat)
    && forall cat', i :: 0 <= i < |s.marks[0].Listed(cat')| && s.marks[0].Listed(cat')[i].key == k
                         ==> cat' == cat && s.marks[0].Listed(cat')[i] == Candidate(k, f)
  }

  /** Every mark of the run finds `k` unclaimed, and no push writes it. */
  ghost predicate LeftAlone(s: State, es: seq<Event>, cat: Category, k: Key) {
    es == [] ||
    (var t, e := Exec(s, es[..|es| - 1]), es[|es| - 1];
     && LeftAlone(s, es[..|es| - 1], cat, k)
     && (e.MarkPhase? ==> Unclaimed(t, cat, k))
     && (e.Push? ==> k !in e.written))
  }

  /** A sweep that finds `k` unreferenced at or after its first-seen time plus the retention pinned in
      the mark, with no error or conflict on `k`; for a transaction record the mark must be armed, and
      a commit marker must have no record by now. */
  ghost predicate Due(s: State, e: Event, cat: Category, k: Key, f: int) {
    && e.SweepPhase? && s.marks != []
    && e.clock - f >= s.marks[0].retention
    && !References(s.repo, s.root, k)
    && (cat == TxRecords ==> s.marks[0].armed)
    && (cat == OrphanMarkers ==> forall tx :: k == s.repo.CommitMarkerKey(tx) ==> s.repo.TxRecordKey(tx) !in s.stored)
    && k !in e.obstructed
  }

  /** Some sweep of the run was due for `k`. */
  ghost predicate EverDue(s: State, es: seq<Event>, cat: Category, k: Key, f: int) {
    es != [] &&
    (EverDue(s, es[..|es| - 1], cat, k, f) || Due(Exec(s, es[..|es| - 1]), es[|es| - 1], cat, k, f))
  }

  // ---- The keys of transactions ----

  lemma SuffixAfterSlash(dir: string, k: Key, suffix: string)
    requires dir != "" && dir[|dir| - 1] == '/' && dir <= k && HasSuffix(k, suffix) && '/' !in suffix
    ensures |dir| + |suffix| <= |k|
  {
    assert forall i :: 0 <= i < |suffix| ==> suffix[i] == k[|k| - |suffix| + i] && suffix[i] in suffix;
  }

  /** The listed records and markers are those of transactions. */
  lemma TxKeys(repo: RepoKeys, k: Key)
    ensures Filed(repo, TxRecords, k) <==> exists tx :: k == repo.TxRecordKey(tx)
    ensures Filed(repo, OrphanMarkers, k) <==> exists tx :: k == repo.CommitMarkerKey(tx)
  {
    var dir := repo.prefix + "tx/";
    if Filed(repo, TxRecords, k) {
      SuffixAfterSlash(dir, k, ".json");
      var tx := k[|dir|..|k| - |".json"|];
      assert k == repo.TxRecordKey(tx);
    }
    if Filed(repo, OrphanMarkers, k) {
      SuffixAfterSlash(dir, k, ".json.commit");
      var tx := k[|dir|..|k| - |".json.commit"|];
      assert k == repo.CommitMarkerKey(tx);
    }
    if tx :| k == repo.TxRecordKey(tx) { RecordKeyIsFiled(repo, tx); }
    if tx :| k == repo.CommitMarkerKey(tx) { RecordKeyIsFiled(repo, tx); }
  }

  lemma RecordKeyIsFiled(repo: RepoKeys, tx: string)
    ensures Filed(repo, TxRecords, repo.TxRecordKey(tx)) && Filed(repo, OrphanMarkers, repo.CommitMarkerKey(tx))
    ensures GcSweep.RecordOf(repo.CommitMarkerKey(tx)) == repo.TxRecordKey(tx)
  {
    var dir, r, m := repo.prefix + "tx/", repo.TxRecordKey(tx), repo.CommitMarkerKey(tx);
    assert r == dir + tx + ".json" && r[..|dir|] == dir && r[|r| - 5..] == ".json";
    assert m == dir + tx + ".json.commit" && m[..|dir|] == dir && m[|m| - 12..] == ".json.commit" && m[|m| - 7..] == ".commit";
    assert r[|r| - 1] == 'n' && ".json.commit"[11] == 't';
  }

  lemma SameTx(repo: RepoKeys, a: string, b: string)
    ensures repo.TxRecordKey(a) == repo.TxRecordKey(b) ==> a == b
    ensures repo.CommitMarkerKey(a) == repo.CommitMarkerKey(b) ==> a == b
  {
    if repo.TxRecordKey(a) == repo.TxRecordKey(b) { SameMiddle(repo.prefix + "tx/", a, b, ".json"); }
    if repo.CommitMarkerKey(a) == repo.CommitMarkerKey(b) {
      assert forall t :: repo.CommitMarkerKey(t) == repo.prefix + "tx/" + t + ".json.commit";
      SameMiddle(repo.prefix + "tx/", a, b, ".json.commit");
    }
  }

  lemma SameMiddle(p: string, a: string, b: string, q: string)
    requires p + a + q == p + b + q
    ensures a == b
  {
    assert |a| == |b| && a == (p + a + q)[|p|..|p| + |a|] && b == (p + b + q)[|p|..|p| + |b|];
  }

  /** The first mark that finds `k` fixes its first-seen time. */
  lemma FirstMarkStartsTheClock(s: State, e: Event, cat: Category, k: Key)
    requires Enabled(s, e) && e.MarkPhase? && Orphaned(s, cat, k)
    requires s.marks != [] ==> forall i :: 0 <= i < |s.marks[0].Listed(cat)| ==> s.marks[0].Listed(cat)[i].key != k
    ensures Tracked(Apply(s, e), cat, k, e.clock)
  {
    MarkTracks(s, e, cat, k);
  }

  /** A mark that finds `k` records it, once per listing, with its carried first-seen time. */
  lemma MarkTracks(s: State, e: Event, cat: Category, k: Key)
    requires Enabled(s, e) && e.MarkPhase? && Orphaned(s, cat, k)
    ensures Tracked(Apply(s, e), cat, k, Carry(Latest(s), cat, k, e.clock).firstSeen)
  {
    hide Filed, Unclaimed;
    var t := Apply(s, e);
    var c := Carry(Latest(s), cat, k, e.clock);
    assert c == Candidate(k, c.firstSeen);
    assert k in e.found.In(cat);
    var i :| 0 <= i < |e.found.In(cat)| && e.found.In(cat)[i] == k;
    assert t.marks[0].Listed(cat)[i] == c;
    forall cat', i | 0 <= i < |t.marks[0].Listed(cat')| && t.marks[0].Listed(cat')[i].key == k
      ensures cat' == cat && t.marks[0].Listed(cat')[i] == c
    {
      assert e.found.In(cat')[i] == k;
      assert k in e.found.In(cat');
      FiledOnce(s.repo, cat, cat', k);
    }
  }

  /** A marker's record is gone exactly if that of its transaction is. */
  lemma RecordGone(s: State, k: Key)
    requires Filed(s.repo, OrphanMarkers, k)
    ensures GcSweep.RecordOf(k) !in s.stored <==> forall tx :: k == s.repo.CommitMarkerKey(tx) ==> s.repo.TxRecordKey(tx) !in s.stored
  {
    TxKeys(s.repo, k);
    var t :| k == s.repo.CommitMarkerKey(t);
    RecordKeyIsFiled(s.repo, t);
    forall tx | k == s.repo.CommitMarkerKey(tx) ensures tx == t { SameTx(s.repo, tx, t); }
  }

  /** While `k` is stored, each step keeps its first-seen time, and takes `k` away exactly when it is due. */
  lemma StepKeepsFirstSeen(s: State, e: Event, cat: Category, k: Key, f: int)
    requires Enabled(s, e) && Filed(s.repo, cat, k)
    requires k in s.stored && Tracked(s, cat, k, f)
    requires e.MarkPhase? ==> Unclaimed(s, cat, k)
    ensures k in Apply(s, e).stored <==> !Due(s, e, cat, k, f)
    ensures Tracked(Apply(s, e), cat, k, f)
  {
    if e.MarkPhase? {
      MarkTracks(s, e, cat, k);
      CarriesTracked(s, cat, k, f, e.clock);
    } else if e.SweepPhase? {
      assert e.survivors[0] == s.marks[0];
      SweepsWhenDue(s, e, cat, k, f);
    }
  }

  lemma CarriesTracked(s: State, cat: Category, k: Key, f: int, now: int)
    requires Tracked(s, cat, k, f)
    ensures Carry(Latest(s), cat, k, now) == Candidate(k, f)
  {
    var c := Carry(Latest(s), cat, k, now);
    var i :| 0 <= i < |s.marks[0].Listed(cat)| && s.marks[0].Listed(cat)[i] == Candidate(k, f);
    assert Lookup(s.marks[0].Listed(cat), k).Some?;
    assert c in s.marks[0].Listed(cat) && c.key == k;
  }

  lemma SweepsWhenDue(s: State, e: Event, cat: Category, k: Key, f: int)
    requires e.SweepPhase? && s.marks != [] && Filed(s.repo, cat, k) && Tracked(s, cat, k, f)
    ensures Sweeps(s, e, k) <==> Due(s, e, cat, k, f)
  {
    hide Filed, References;
    if cat == OrphanMarkers { RecordGone(s, k); }
    var i :| 0 <= i < |s.marks[0].Listed(cat)| && s.marks[0].Listed(cat)[i] == Candidate(k, f);
    if Due(s, e, cat, k, f) {
      assert Condemns(s, e.clock, cat, s.marks[0].Listed(cat)[i], k);
    }
  }

  /** A step cannot bring back a key that no push writes. */
  lemma StepKeepsAbsent(s: State, e: Event, k: Key)
    requires Enabled(s, e) && k !in s.stored && (e.Push? ==> k !in e.written)
    ensures k !in Apply(s, e).stored
  {}

  /** Across any chain of marks, sweeps, prunes and pushes, a key of any category that nothing claims
      keeps its first-seen time while it is stored, and is stored exactly until the first sweep at
      which it is due. */
  lemma {:induction false} StoredUntilDue(s: State, es: seq<Event>, cat: Category, k: Key, f: int)
    requires Legal(s, es) && LeftAlone(s, es, cat, k)
    requires Filed(s.repo, cat, k) && k in s.stored && Tracked(s, cat, k, f)
    ensures Exec(s, es).repo == s.repo
    ensures k in Exec(s, es).stored <==> !EverDue(s, es, cat, k, f)
    ensures k in Exec(s, es).stored ==> Tracked(Exec(s, es), cat, k, f)
  {
    hide Filed, Unclaimed, Due, Tracked;
    if es != [] {
      var n := |es| - 1;
      var t, e := Exec(s, es[..n]), es[n];
      StoredUntilDue(s, es[..n], cat, k, f);
      if k in t.stored {
        StepKeepsFirstSeen(t, e, cat, k, f);
      } else {
        StepKeepsAbsent(t, e, k);
      }
    }
  }

  // ---- When transaction records may be swept ----

  predicate Armed(s: State) {
    s.marks != [] && s.marks[0].armed
  }

  /** Some mark of the run was taken while a commit marker was stored. */
  ghost predicate SawMarker(s: State, es: seq<Event>) {
    es != [] &&
    (SawMarker(s, es[..|es| - 1]) || (es[|es| - 1].MarkPhase? && HasMarker(Exec(s, es[..|es| - 1]))))
  }

  /** The newest mark is armed exactly if it was, or if some mark since has seen a commit marker,
      whatever is pruned. */
  lemma {:induction false} ArmedIff(s: State, es: seq<Event>)
    requires Legal(s, es)
    ensures Armed(Exec(s, es)) <==> Armed(s) || SawMarker(s, es)
  {
    hide HasMarker, Finds;
    if es != [] {
      ArmedIff(s, es[..|es| - 1]);
      var t, e := Exec(s, es[..|es| - 1]), es[|es| - 1];
      if e.SweepPhase? {
        assert e.survivors[0] == t.marks[0];
      }
    }
  }

  // ---- The mark phase as code ----

  const INDEX_KINDS := ["object-map/", "commit-graph/", "reachability/", "reachability-delta/"]

  lemma IndexPrefixes(repo: RepoKeys, k: Key)
    ensures Filed(repo, Indexes, k) <==> exists kind :: kind in INDEX_KINDS && repo.prefix + "indexes/" + kind <= k
  {
    var p := repo.prefix;
    assert p + "indexes/" + INDEX_KINDS[0] == p + "indexes/object-map/" && p + "indexes/" + INDEX_KINDS[1] == p + "indexes/commit-graph/";
    assert p + "indexes/" + INDEX_KINDS[2] == p + "indexes/reachability/";
    assert p + "indexes/" + INDEX_KINDS[3] == p + "indexes/reachability-delta/";
    assert forall i :: 0 <= i < 4 ==> INDEX_KINDS[i] in INDEX_KINDS;
  }

  /** The listings return exactly what is stored under their prefixes. */
  ghost predicate Lists(s: State, listed: Listings) {
    forall k ::
      && (k in Flatten(listed.packs.pages) <==> k in s.stored && s.repo.prefix + "packs/canonical/" <= k)
      && (k in Flatten(listed.indexes.pages) <==>
            k in s.stored && exists kind :: kind in INDEX_KINDS && s.repo.prefix + "indexes/" + kind <= k)
      && (k in Flatten(listed.bundles.pages) <==> k in s.stored && s.repo.prefix + "bundles/" <= k)
      && (k in Flatten(listed.tx.pages) <==> k in s.stored && s.repo.prefix + "tx/" <= k)
  }

  lemma UnreferencedMembers(ks: seq<Key>, live: set<Key>, k: Key)
    ensures k in Unreferenced(ks, live) <==> k in ks && k !in live
  {
    Sorting.FilterMembers(ks, x => x !in live, k);
  }

  lemma EnumeratedMembers(ks: seq<Key>, p: Key -> bool, k: Key)
    requires Enumerates(ks, p)
    ensures k in ks <==> p(k)
  {
    assert k in ks <==> multiset(ks)[k] > 0;
  }

  /** The code's test for an orphan record, on the listing of the transaction directory. */
  lemma OrphanRecordIff(s: State, listed: seq<Key>, live: set<Key>, k: Key)
    requires forall x :: x in listed <==> x in s.stored && s.repo.prefix + "tx/" <= x
    requires forall x :: x in live <==> References(s.repo, s.root, x)
    ensures IsOrphanRecord(listed, live, k) <==> Orphaned(s, TxRecords, k)
  {
    hide References;
    TxKeys(s.repo, k);
    if Filed(s.repo, TxRecords, k) {
      var t :| k == s.repo.TxRecordKey(t);
      RecordKeyIsFiled(s.repo, t);
      forall tx | k == s.repo.TxRecordKey(tx) ensures tx == t { SameTx(s.repo, tx, t); }
      assert s.repo.CommitMarkerKey(t) == k + ".commit";
    }
  }

  lemma OrphanMarkerIff(s: State, listed: seq<Key>, k: Key)
    requires forall x :: x in listed <==> x in s.stored && s.repo.prefix + "tx/" <= x
    ensures IsOrphanMarker(listed, k) <==> Orphaned(s, OrphanMarkers, k)
  {
    TxKeys(s.repo, k);
    if Filed(s.repo, OrphanMarkers, k) {
      var t :| k == s.repo.CommitMarkerKey(t);
      RecordKeyIsFiled(s.repo, t);
      forall tx | k == s.repo.CommitMarkerKey(tx) ensures tx == t { SameTx(s.repo, tx, t); }
      assert MarkedRecord(k) == s.repo.TxRecordKey(t);
    }
  }

  lemma MarkerListedIff(s: State, listed: seq<Key>)
    requires forall x :: x in listed <==> x in s.stored && s.repo.prefix + "tx/" <= x
    ensures (exists k :: k in listed && IsMarker(k)) <==> HasMarker(s)
  {
    if k :| k in listed && IsMarker(k) { TxKeys(s.repo, k); }
    if tx :| s.repo.CommitMarkerKey(tx) in s.stored {
      RecordKeyIsFiled(s.repo, tx);
      assert s.repo.CommitMarkerKey(tx) in listed;
    }
  }

  /** What a mark discovers in such listings is what the phase is said to find. */
  lemma DiscoveriesAreFindings(s: State, listed: Listings, live: set<Key>, found: Found)
    requires Lists(s, listed) && forall k :: k in live <==> References(s.repo, s.root, k)
    requires found.packs == Unreferenced(Flatten(listed.packs.pages), live)
    requires found.indexes == Unreferenced(Flatten(listed.indexes.pages), live)
    requires found.bundles == Unreferenced(Flatten(listed.bundles.pages), live)
    requires Enumerates(found.tx, k => IsOrphanRecord(Flatten(listed.tx.pages), live, k))
    requires Enumerates(found.markers, k => IsOrphanMarker(Flatten(listed.tx.pages), k))
    ensures Finds(s, found)
  {
    hide Flatten, Unreferenced, Enumerates, References, IsOrphanRecord, IsOrphanMarker;
    forall k
      ensures k in found.packs <==> Orphaned(s, CanonicalPacks, k)
      ensures k in found.indexes <==> Orphaned(s, Indexes, k)
      ensures k in found.bundles <==> Orphaned(s, Bundles, k)
      ensures k in found.tx <==> Orphaned(s, TxRecords, k)
      ensures k in found.markers <==> Orphaned(s, OrphanMarkers, k)
    {
      IndexPrefixes(s.repo, k);
      UnreferencedMembers(Flatten(listed.packs.pages), live, k);
      UnreferencedMembers(Flatten(listed.indexes.pages), live, k);
      UnreferencedMembers(Flatten(listed.bundles.pages), live, k);
      EnumeratedMembers(found.tx, x => IsOrphanRecord(Flatten(listed.tx.pages), live, x), k);
      EnumeratedMembers(found.markers, x => IsOrphanMarker(Flatten(listed.tx.pages), x), k);
      OrphanRecordIff(s, Flatten(listed.tx.pages), live, k);
      OrphanMarkerIff(s, Flatten(listed.tx.pages), k);
    }
    hide Orphaned;
    forall cat, k ensures k in found.In(cat) <==> Orphaned(s, cat, k) {}
  }

  lemma ListedMarkers(s: State, listed: Listings)
    requires Lists(s, listed)
    ensures (exists k :: k in Flatten(listed.tx.pages) && IsMarker(k)) <==> HasMarker(s)
  {
    hide Flatten;
    MarkerListedIff(s, Flatten(listed.tx.pages));
  }

  /** Running the mark of a repository is a mark phase of its history. */
  method MarkIsPhase(s: State, listed: Listings, now: int, requested: int) returns (m: Result<Mark, ()>, ghost e: Event)
    requires Lists(s, listed)
    requires !(listed.packs.fails || listed.indexes.fails || listed.tx.fails || listed.bundles.fails)
    ensures m.Ok? && e.MarkPhase? && e.clock == now && Enabled(s, e)
    ensures e.retention == if requested > 0 then requested else 604800
    ensures m.value.startedAt == now && m.value.retention == e.retention && (m.value.armed <==> Armed(s) || HasMarker(s))
    ensures Apply(s, e) == s.(marks := [m.value] + s.marks)
  {
    hide Lists, Finds, Flatten, Unreferenced, Enumerates, References, HasMarker, IsMarker;
    ghost var found, live;
    m, found, live := RunMark(s.repo, Ok(RootView(s.root.latestTx, Parsed(s.root.body))), Ok(Latest(s)), listed, now, requested);
    DiscoveriesAreFindings(s, listed, live, found);
    ListedMarkers(s, listed);
    e := MarkPhase(now, PinnedRetention(requested), found, exists k :: k in Flatten(listed.tx.pages) && IsMarker(k));
  }
}
