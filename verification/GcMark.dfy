/** The mark phase: discovery of unreferenced keys over paged listings and the
    carry-forward of first-seen times from the previous mark. A paged listing
    is the sequence of pages the store returns, in ascending key order. */
module GcMark {
  import opened Wrappers
  import opened GcModel
  import opened Order
  import opened Sorting
  import ObjectStore

  type Pages = seq<seq<Key>>

  /** The pages a listing returns, and whether the call after them fails. */
  datatype Listing = Listing(pages: Pages, fails: bool)

  /** The root as read from storage. */
  datatype RootView = RootView(latestTx: string, raw: RawBody)

  function Flatten(pages: Pages): seq<Key> {
    if pages == [] then [] else Flatten(pages[..|pages| - 1]) + pages[|pages| - 1]
  }

  // ---- Live set ----

  /** The manifest body as read from storage: missing, unreadable or parsed. */
  datatype RawBody = NoBody | Unreadable | Parsed(body: Body)

  function BodyOf(raw: RawBody): Body {
    if raw.Parsed? then raw.body else EMPTY_BODY
  }

  method AddKey(live: set<Key>, k: Key) returns (r: set<Key>)
    ensures r == live + if k == "" then {} else {k}
  {
    r := if k != "" then live + {k} else live;
  }

  /** Collects exactly the keys the manifest references; an unreadable body is an error. */
  method BuildLiveSet(repo: RepoKeys, latestTx: string, raw: RawBody) returns (live: set<Key>, ok: bool)
    ensures ok <==> !raw.Unreadable?
    ensures ok ==> forall k :: k in live <==> References(repo, Manifest(latestTx, BodyOf(raw)), k)
    ensures !ok ==> forall k :: k in live <==> HeaderReferences(repo, latestTx, k)
  {
    live := {repo.RootManifestKey()};
    if latestTx != "" {
      live := live + {repo.TxRecordKey(latestTx)};
      live := live + {repo.CommitMarkerKey(latestTx)};
    }
    if raw.Unreadable? {
      return live, false;
    }
    var body := BodyOf(raw);
    var packs := PackKeys(body.packs);
    var bundles := BundleKeys(body.bundles);
    var deltas := NonEmptyKeys(body.deltas);
    var shards := NonEmptyKeys(body.refShards);
    live := live + packs;
    if body.objectMap.Some? {
      live := AddKey(live, body.objectMap.value);
    }
    if body.commitGraph.Some? {
      live := AddKey(live, body.commitGraph.value);
    }
    live := live + deltas + bundles + shards;
    ok := true;
  }

  method PackKeys(ps: seq<PackEntry>) returns (r: set<Key>)
    ensures forall k :: k in r <==> k != "" && exists i :: 0 <= i < |ps| && PackReferences(ps[i], k)
  {
    r := {};
    for n := 0 to |ps|
      invariant forall k :: k in r <==> k != "" && exists i :: 0 <= i < n && PackReferences(ps[i], k)
    {
      r := AddKey(r, ps[n].packKey);
      r := AddKey(r, ps[n].idxKey);
      r := AddKey(r, ps[n].bitmapKey);
    }
  }

  method BundleKeys(bs: seq<BundleEntry>) returns (r: set<Key>)
    ensures forall k :: k in r <==> k != "" && exists i :: 0 <= i < |bs| && BundleReferences(bs[i], k)
  {
    r := {};
    for n := 0 to |bs|
      invariant forall k :: k in r <==> k != "" && exists i :: 0 <= i < n && BundleReferences(bs[i], k)
    {
      r := AddKey(r, bs[n].bundleKey);
      r := AddKey(r, bs[n].sidecarKey);
    }
  }

  method NonEmptyKeys(ks: seq<Key>) returns (r: set<Key>)
    ensures forall k :: k in r <==> k != "" && k in ks
  {
    r := {};
    for n := 0 to |ks|
      invariant forall k :: k in r <==> k != "" && k in ks[..n]
    {
      r := AddKey(r, ks[n]);
    }
    assert ks[..|ks|] == ks;
  }

  // ---- Discovery ----

  function Unreferenced(ks: seq<Key>, live: set<Key>): seq<Key> {
    Filter(ks, k => k !in live)
  }

  method KeepUnreferenced(page: seq<Key>, live: set<Key>, out: seq<Key>) returns (r: seq<Key>)
    ensures r == out + Unreferenced(page, live)
  {
    r := out;
    var p := k => k !in live;
    for j := 0 to |page|
      invariant r == out + Filter(page[..j], p)
    {
      FilterOneMore(page[..j], page[j], p);
      assert page[..j + 1] == page[..j] + [page[j]];
      if page[j] !in live {
        r := r + [page[j]];
      }
    }
    assert page[..|page|] == page;
  }

  lemma UnreferencedAppend(a: seq<Key>, b: seq<Key>, live: set<Key>)
    ensures Unreferenced(a + b, live) == Unreferenced(a, live) + Unreferenced(b, live)
  {
    FilterAppend(a, b, k => k !in live);
  }

  /** Every listed key that is not live, in listing order; fails exactly when a listing call does. */
  method ListExcludingLive(listing: Listing, live: set<Key>) returns (r: Result<seq<Key>, ()>)
    ensures r.Err? <==> listing.fails
    ensures r.Ok? ==> r.value == Unreferenced(Flatten(listing.pages), live)
  {
    var pages, out := listing.pages, [];
    for i := 0 to |pages|
      invariant out == Unreferenced(Flatten(pages[..i]), live)
    {
      hide Unreferenced;
      out := KeepUnreferenced(pages[i], live, out);
      UnreferencedAppend(Flatten(pages[..i]), pages[i], live);
      assert pages[..i + 1][..i] == pages[..i];
    }
    assert pages[..|pages|] == pages;
    r := if listing.fails then Err(()) else Ok(out);
  }

  /** A transaction record without commit marker that is not the current transaction. */
  predicate IsOrphanRecord(listed: seq<Key>, live: set<Key>, k: Key) {
    k in listed && IsRecord(k) && k !in live && !(k + ".commit" in listed && IsMarker(k + ".commit"))
  }

  function MarkedRecord(marker: Key): Key
    requires IsMarker(marker)
  {
    marker[..|marker| - |".commit"|]
  }

  /** A commit marker whose transaction record is gone. */
  predicate IsOrphanMarker(listed: seq<Key>, k: Key) {
    k in listed && IsMarker(k) && !(MarkedRecord(k) in listed && IsRecord(MarkedRecord(k)))
  }

  lemma StringAtMostIsOrder()
    ensures Preorder(StringAtMost)
    ensures forall a, b :: StringAtMost(a, b) && StringAtMost(b, a) ==> a == b
  {
    forall a, b ensures StringAtMost(a, b) || StringAtMost(b, a) {
      LessTotal(Codes(a), Codes(b));
    }
    forall a, b, c | StringAtMost(a, b) && StringAtMost(b, c) ensures StringAtMost(a, c) {
      if Codes(a) != Codes(b) && Codes(b) != Codes(c) {
        LessTransitive(Codes(a), Codes(b), Codes(c));
      }
    }
    forall a, b | StringAtMost(a, b) && StringAtMost(b, a) ensures a == b {
      LessAsymmetric(Codes(a), Codes(b));
      CodesInjective(a, b);
    }
  }

  /** The elements of a set in ascending order. */
  method SortedKeys(s: set<Key>) returns (r: seq<Key>)
    ensures Sorted(r, StringAtMost) && multiset(r) == multiset(s)
  {
    var rest := s;
    r := [];
    while rest != {}
      invariant multiset(r) + multiset(rest) == multiset(s)
      decreases rest
    {
      var k :| k in rest;
      r := r + [k];
      rest := rest - {k};
    }
    StringAtMostIsOrder();
    SortSorted(r, StringAtMost);
    r := Sort(r, StringAtMost);
  }

  /** `ks` lists exactly the keys on which `p` holds, once each, in ascending order. */
  ghost predicate Enumerates(ks: seq<Key>, p: Key -> bool) {
    Sorted(ks, StringAtMost) && forall k :: multiset(ks)[k] == if p(k) then 1 else 0
  }

  datatype Discovered = Discovered(candidates: seq<Key>, orphanMarkers: seq<Key>, armed: bool)

  /** Orphan records and orphan markers, each in ascending order without repetition, and
      whether any marker exists at all. */
  method DiscoverIn(pages: Pages, live: set<Key>) returns (r: Discovered)
    ensures Enumerates(r.candidates, k => IsOrphanRecord(Flatten(pages), live, k))
    ensures Enumerates(r.orphanMarkers, k => IsOrphanMarker(Flatten(pages), k))
    ensures r.armed <==> exists k :: k in Flatten(pages) && IsMarker(k)
  {
    var records: set<Key>, markers: set<Key> := {}, {};
    for i := 0 to |pages|
      invariant records == set k | k in Flatten(pages[..i]) && IsRecord(k)
      invariant markers == set k | k in Flatten(pages[..i]) && IsMarker(k)
    {
      for j := 0 to |pages[i]|
        invariant records == set k | k in Flatten(pages[..i]) + pages[i][..j] && IsRecord(k)
        invariant markers == set k | k in Flatten(pages[..i]) + pages[i][..j] && IsMarker(k)
      {
        if HasSuffix(pages[i][j], ".json.commit") {
          markers := markers + {pages[i][j]};
        } else if HasSuffix(pages[i][j], ".json") {
          records := records + {pages[i][j]};
        }
      }
      assert pages[i][..|pages[i]|] == pages[i];
      assert pages[..i + 1][..i] == pages[..i];
    }
    assert pages[..|pages|] == pages;
    var armed := |markers| > 0;
    var orphans := set k | k in records && k !in live && k + ".commit" !in markers;
    var unmatched := set k | k in markers && MarkedRecord(k) !in records;
    var candidates := SortedKeys(orphans);
    var orphanMarkers := SortedKeys(unmatched);
    r := Discovered(candidates, orphanMarkers, armed);
    if armed {
      var k :| k in markers;
      assert k in Flatten(pages) && IsMarker(k);
    } else {
      assert forall k :: k in Flatten(pages) && IsMarker(k) ==> k in markers;
    }
  }

  /** The same from a listing; fails exactly when a listing call does. */
  method DiscoverTxRecords(listing: Listing, live: set<Key>) returns (r: Result<Discovered, ()>)
    ensures r.Err? <==> listing.fails
    ensures r.Ok? ==> Enumerates(r.value.candidates, k => IsOrphanRecord(Flatten(listing.pages), live, k))
    ensures r.Ok? ==> Enumerates(r.value.orphanMarkers, k => IsOrphanMarker(Flatten(listing.pages), k))
    ensures r.Ok? ==> (r.value.armed <==> exists k :: k in Flatten(listing.pages) && IsMarker(k))
  {
    hide Enumerates, Flatten;
    var d := DiscoverIn(listing.pages, live);
    r := if listing.fails then Err(()) else Ok(d);
  }

  // ---- Carry-forward ----

  function CarryAll(prev: Option<Mark>, cat: Category, ks: seq<Key>, now: int): (cs: seq<Candidate>)
    ensures |cs| == |ks| && forall i :: 0 <= i < |ks| ==> cs[i] == Carry(prev, cat, ks[i], now)
  {
    seq(|ks|, i requires 0 <= i < |ks| => Carry(prev, cat, ks[i], now))
  }

  /** A lookup table over a candidate list; a repeated key keeps its last entry. */
  method IndexByKey(cs: seq<Candidate>) returns (m: map<Key, Candidate>)
    ensures forall k :: (k in m <==> Lookup(cs, k).Some?) && (k in m ==> Lookup(cs, k) == Some(m[k]))
  {
    m := map[];
    for i := 0 to |cs|
      invariant forall k :: (k in m <==> Lookup(cs[..i], k).Some?) && (k in m ==> Lookup(cs[..i], k) == Some(m[k]))
    {
      m := m[cs[i].key := cs[i]];
      assert cs[..i + 1][..i] == cs[..i];
    }
    assert cs[..|cs|] == cs;
  }

  /** One category of the new mark: known keys keep their entry, new ones start now. */
  method CarryForward(prev: Option<Mark>, cat: Category, ks: seq<Key>, now: int) returns (cs: seq<Candidate>)
    ensures cs == CarryAll(prev, cat, ks, now)
  {
    var known: map<Key, Candidate> := map[];
    if prev.Some? {
      known := IndexByKey(prev.value.Listed(cat));
    }
    cs := [];
    for i := 0 to |ks|
      invariant |cs| == i && forall j :: 0 <= j < i ==> cs[j] == Carry(prev, cat, ks[j], now)
    {
      if ks[i] in known {
        cs := cs + [known[ks[i]]];
      } else {
        cs := cs + [Candidate(ks[i], now)];
      }
    }
  }

  /** The keys one mark records, by category. */
  datatype Found = Found(packs: seq<Key>, indexes: seq<Key>, tx: seq<Key>, bundles: seq<Key>, markers: seq<Key>) {
    function In(cat: Category): seq<Key> {
      match cat
      case TxRecords => tx
      case CanonicalPacks => packs
      case Indexes => indexes
      case Bundles => bundles
      case OrphanMarkers => markers
    }
  }

  /** The mark record for these keys: first-seen times carried by name, armed once and for all. */
  function MarkOf(prev: Option<Mark>, found: Found, now: int, retention: int, armedNow: bool): (m: Mark)
    ensures forall cat :: m.Listed(cat) == CarryAll(prev, cat, found.In(cat), now)
    ensures m.armed <==> armedNow || (prev.Some? && prev.value.armed)
  {
    Mark(now, retention, armedNow || (prev.Some? && prev.value.armed),
         CarryAll(prev, TxRecords, found.tx, now),
         CarryAll(prev, CanonicalPacks, found.packs, now),
         CarryAll(prev, Indexes, found.indexes, now),
         CarryAll(prev, Bundles, found.bundles, now),
         CarryAll(prev, OrphanMarkers, found.markers, now))
  }

  /** What one mark lists under the four prefixes. */
  datatype Listings = Listings(packs: Listing, indexes: Listing, tx: Listing, bundles: Listing)

  const DEFAULT_RETENTION := 7 * 24 * 3600

  function PinnedRetention(requested: int): int {
    if requested <= 0 then DEFAULT_RETENTION else requested
  }

  /** A store call that the mark depends on failed, or the manifest body does not parse. */
  predicate MarkFails(root: Result<RootView, ()>, prev: Result<Option<Mark>, ()>, listed: Listings) {
    || root.Err? || root.value.raw.Unreadable? || prev.Err?
    || listed.packs.fails || listed.indexes.fails || listed.tx.fails || listed.bundles.fails
  }

  /** Runs one mark. Each list holds the discovered keys with carried first-seen
      times, and the armed flag is sticky. */
  method RunMark(repo: RepoKeys, root: Result<RootView, ()>, prev: Result<Option<Mark>, ()>, listed: Listings, now: int, requested: int)
    returns (r: Result<Mark, ()>, ghost found: Found, ghost live: set<Key>)
    ensures r.Err? <==> MarkFails(root, prev, listed)
    ensures r.Ok? ==> forall k :: k in live <==> References(repo, Manifest(root.value.latestTx, BodyOf(root.value.raw)), k)
    ensures r.Ok? ==> found.packs == Unreferenced(Flatten(listed.packs.pages), live)
    ensures r.Ok? ==> found.indexes == Unreferenced(Flatten(listed.indexes.pages), live)
    ensures r.Ok? ==> found.bundles == Unreferenced(Flatten(listed.bundles.pages), live)
    ensures r.Ok? ==> Enumerates(found.tx, k => IsOrphanRecord(Flatten(listed.tx.pages), live, k))
    ensures r.Ok? ==> Enumerates(found.markers, k => IsOrphanMarker(Flatten(listed.tx.pages), k))
    ensures r.Ok? ==> r.value == MarkOf(prev.value, found, now, PinnedRetention(requested),
                                        exists k :: k in Flatten(listed.tx.pages) && IsMarker(k))
  {
    hide Enumerates, Flatten, Unreferenced, References;
    r, found, live := Err(()), Found([], [], [], [], []), {};
    if root.Err? {
      return;
    }
    var liveKeys, ok := BuildLiveSet(repo, root.value.latestTx, root.value.raw);
    live := liveKeys;
    if !ok || prev.Err? {
      return;
    }
    var packs := ListExcludingLive(listed.packs, liveKeys);
    if packs.Err? {
      return;
    }
    var indexes := ListExcludingLive(listed.indexes, liveKeys);
    if indexes.Err? {
      return;
    }
    var tx := DiscoverTxRecords(listed.tx, liveKeys);
    if tx.Err? {
      return;
    }
    var bundles := ListExcludingLive(listed.bundles, liveKeys);
    if bundles.Err? {
      return;
    }
    found := Found(packs.value, indexes.value, tx.value.candidates, bundles.value, tx.value.orphanMarkers);

    var armed := tx.value.armed;
    if prev.value.Some? && prev.value.value.armed {
      armed := true;
    }
    var packCands := CarryForward(prev.value, CanonicalPacks, packs.value, now);
    var indexCands := CarryForward(prev.value, Indexes, indexes.value, now);
    var txCands := CarryForward(prev.value, TxRecords, tx.value.candidates, now);
    var bundleCands := CarryForward(prev.value, Bundles, bundles.value, now);
    var markerCands := CarryForward(prev.value, OrphanMarkers, tx.value.orphanMarkers, now);
    var retention := if requested <= 0 then DEFAULT_RETENTION else requested;
    r := Ok(Mark(now, retention, armed, txCands, packCands, indexCands, bundleCands, markerCands));
  }

  // ---- Pruning of old marks ----

  const DEFAULT_KEEP := 10

  /** `e` removes a mark record that is not among the newest `keep`. */
  ghost predicate PrunesOld<B>(e: ObjectStore.Effect<B>, newestFirst: seq<Key>, keep: int) {
    exists j :: 0 <= keep <= j < |newestFirst| && e == ObjectStore.Removed(newestFirst[j])
  }

  /** During the call `key` was absent at some instant, or another version took its place. */
  ghost predicate GoneOrReplaced<B>(moments: seq<ObjectStore.Contents<B>>, lo: nat, key: Key) {
    || (exists i :: lo <= i < |moments| && key !in moments[i])
    || (exists i, j :: lo <= i < j < |moments| && key in moments[i] && key in moments[j]
                       && moments[i][key].version != moments[j][key].version)
  }

  lemma GoneStaysGone<B>(a: seq<ObjectStore.Contents<B>>, b: seq<ObjectStore.Contents<B>>, lo: nat, key: Key)
    requires a <= b && GoneOrReplaced(a, lo, key)
    ensures GoneOrReplaced(b, lo, key)
  {
    if i :| lo <= i < |a| && key !in a[i] {
      assert b[i] == a[i];
    } else {
      var i, j :| lo <= i < j < |a| && key in a[i] && key in a[j] && a[i][key].version != a[j][key].version;
      assert b[i] == a[i] && b[j] == a[j];
    }
  }

  /** One old record: removed, or gone already, or replaced; otherwise the prune stops. */
  method PruneOne<B(==, !new)>(s: ObjectStore.Bucket<B>, key: Key) returns (ok: bool)
    requires s.Valid()
    modifies s
    ensures s.Valid() && old(s.moments) <= s.moments
    ensures s.effects == old(s.effects) || s.effects == old(s.effects) + [ObjectStore.Removed(key)]
    ensures ok ==> GoneOrReplaced(s.moments, |old(s.moments)|, key)
    ensures s.failures == old(s.failures) + if ok then 0 else 1
  {
    var meta := s.Head(key);
    ghost var i := |s.moments| - 1;
    if meta.Absent? {
      assert key !in s.moments[i];
      return true;
    }
    if meta.HeadFailed? {
      return false;
    }
    ghost var seen := s.moments;
    var del := s.DeleteIfVersionMatches(key, meta.version);
    assert s.moments[i] == seen[i];
    assert !del.DeleteFailed? && !del.VersionChanged? ==> key !in s.moments[|s.moments| - 1];
    ok := !del.DeleteFailed?;
  }

  /** Deletes mark records beyond the newest `keep`. Whatever the store answers, only
      records past that point can go, so the newest mark always survives; and if it
      succeeds every such record was gone or replaced during the call. If the records
      cannot be listed it fails and touches nothing. */
  method PruneMarks<B(==, !new)>(s: ObjectStore.Bucket<B>, listed: Result<seq<Key>, ()>, keep: int) returns (ok: bool)
    requires s.Valid()
    modifies s
    ensures s.Valid() && old(s.effects) <= s.effects
    ensures listed.Err? ==> !ok && unchanged(s)
    ensures listed.Ok? ==> forall i :: |old(s.effects)| <= i < |s.effects| ==> PrunesOld(s.effects[i], listed.value, if keep < 1 then 10 else keep)
    ensures listed.Ok? ==> s.failures == old(s.failures) + if ok then 0 else 1
    ensures ok ==> forall j :: (if keep < 1 then 10 else keep) <= j < |listed.value| ==> GoneOrReplaced(s.moments, |old(s.moments)|, listed.value[j])
  {
    hide GoneOrReplaced;
    if listed.Err? {
      return false;
    }
    var newestFirst := listed.value;
    var n := if keep < 1 then DEFAULT_KEEP else keep;
    if |newestFirst| <= n {
      return true;
    }
    for j := n to |newestFirst|
      invariant s.Valid() && old(s.effects) <= s.effects && old(s.moments) <= s.moments && s.failures == old(s.failures)
      invariant forall i :: |old(s.effects)| <= i < |s.effects| ==> PrunesOld(s.effects[i], newestFirst, n)
      invariant forall i :: n <= i < j ==> GoneOrReplaced(s.moments, |old(s.moments)|, newestFirst[i])
    {
      ghost var before, seen := s.effects, s.moments;
      assert PrunesOld<B>(ObjectStore.Removed(newestFirst[j]), newestFirst, n);
      var pruned := PruneOne(s, newestFirst[j]);
      assert s.effects == before || s.effects == before + [ObjectStore.Removed(newestFirst[j])];
      if !pruned {
        return false;
      }
      forall i | n <= i < j ensures GoneOrReplaced(s.moments, |old(s.moments)|, newestFirst[i]) {
        GoneStaysGone(seen, s.moments, |old(s.moments)|, newestFirst[i]);
      }
      GoneEarlier(s.moments, |seen|, |old(s.moments)|, newestFirst[j]);
    }
    return true;
  }

  lemma GoneEarlier<B>(moments: seq<ObjectStore.Contents<B>>, lo: nat, earlier: nat, key: Key)
    requires earlier <= lo && GoneOrReplaced(moments, lo, key)
    ensures GoneOrReplaced(moments, earlier, key)
  {}
}
