/** The data the garbage collector works on: manifests, mark records and the
    sweep decision. Times and durations are integers in one unit. */
module GcModel {
  import opened Wrappers

  type Key = string

  /** Storage keys derived from a repository's prefix. */
  datatype RepoKeys = RepoKeys(prefix: string) {
    function RootManifestKey(): Key { prefix + "manifest/root.json" }
    function TxRecordKey(tx: string): Key { prefix + "tx/" + tx + ".json" }
    function CommitMarkerKey(tx: string): Key { TxRecordKey(tx) + ".commit" }
  }

  datatype PackEntry = PackEntry(packKey: Key, idxKey: Key, bitmapKey: Key)

  datatype BundleEntry = BundleEntry(bundleKey: Key, sidecarKey: Key)

  datatype Body = Body(
    packs: seq<PackEntry>,
    objectMap: Option<Key>,
    commitGraph: Option<Key>,
    deltas: seq<Key>,
    bundles: seq<BundleEntry>,
    refShards: seq<Key>)

  /** The part of a root manifest the collector reads. */
  datatype Manifest = Manifest(latestTx: string, body: Body)

  const EMPTY_BODY := Body([], None, None, [], [], [])

  predicate HeaderReferences(repo: RepoKeys, latestTx: string, k: Key) {
    || k == repo.RootManifestKey()
    || (latestTx != "" && (k == repo.TxRecordKey(latestTx) || k == repo.CommitMarkerKey(latestTx)))
  }

  predicate PackReferences(p: PackEntry, k: Key) {
    k == p.packKey || k == p.idxKey || k == p.bitmapKey
  }

  predicate BundleReferences(b: BundleEntry, k: Key) {
    k == b.bundleKey || k == b.sidecarKey
  }

  /** The body names `k`; an empty string in a key field names nothing. */
  predicate BodyReferences(body: Body, k: Key) {
    && k != ""
    && (|| (exists i :: 0 <= i < |body.packs| && PackReferences(body.packs[i], k))
        || body.objectMap == Some(k)
        || body.commitGraph == Some(k)
        || k in body.deltas
        || (exists i :: 0 <= i < |body.bundles| && BundleReferences(body.bundles[i], k))
        || k in body.refShards)
  }

  /** `k` is protected by the manifest. */
  predicate References(repo: RepoKeys, m: Manifest, k: Key) {
    HeaderReferences(repo, m.latestTx, k) || BodyReferences(m.body, k)
  }

  // ---- Mark records ----

  datatype Category = TxRecords | CanonicalPacks | Indexes | Bundles | OrphanMarkers

  predicate HasSuffix(s: string, suffix: string) {
    |suffix| <= |s| && s[|s| - |suffix|..] == suffix
  }

  predicate IsMarker(k: Key) { HasSuffix(k, ".json.commit") }

  predicate IsRecord(k: Key) { HasSuffix(k, ".json") && !IsMarker(k) }

  /** The category a key is listed under. */
  predicate Filed(repo: RepoKeys, cat: Category, k: Key) {
    match cat
    case CanonicalPacks => repo.prefix + "packs/canonical/" <= k
    case Indexes =>
      || repo.prefix + "indexes/object-map/" <= k
      || repo.prefix + "indexes/commit-graph/" <= k
      || repo.prefix + "indexes/reachability/" <= k
      || repo.prefix + "indexes/reachability-delta/" <= k
    case Bundles => repo.prefix + "bundles/" <= k
    case TxRecords => repo.prefix + "tx/" <= k && IsRecord(k)
    case OrphanMarkers => repo.prefix + "tx/" <= k && IsMarker(k)
  }

  datatype Candidate = Candidate(key: Key, firstSeen: int)

  datatype Mark = Mark(
    startedAt: int,
    retention: int,
    armed: bool,
    txRecords: seq<Candidate>,
    canonicalPacks: seq<Candidate>,
    indexes: seq<Candidate>,
    bundles: seq<Candidate>,
    orphanMarkers: seq<Candidate>)
  {
    function Listed(cat: Category): seq<Candidate> {
      match cat
      case TxRecords => txRecords
      case CanonicalPacks => canonicalPacks
      case Indexes => indexes
      case Bundles => bundles
      case OrphanMarkers => orphanMarkers
    }

    function With(cat: Category, cs: seq<Candidate>): (m: Mark)
      ensures forall c :: m.Listed(c) == if c == cat then cs else Listed(c)
      ensures m.startedAt == startedAt && m.retention == retention && m.armed == armed
    {
      match cat
      case TxRecords => this.(txRecords := cs)
      case CanonicalPacks => this.(canonicalPacks := cs)
      case Indexes => this.(indexes := cs)
      case Bundles => this.(bundles := cs)
      case OrphanMarkers => this.(orphanMarkers := cs)
    }
  }

  function EmptyMark(startedAt: int, retention: int, armed: bool): Mark {
    Mark(startedAt, retention, armed, [], [], [], [], [])
  }

  /** The entry for `key` in a candidate list; a repeated key keeps its last entry. */
  function Lookup(cs: seq<Candidate>, key: Key): (r: Option<Candidate>)
    ensures r.None? <==> forall i :: 0 <= i < |cs| ==> cs[i].key != key
    ensures r.Some? ==> r.value in cs && r.value.key == key
  {
    if cs == [] then None
    else if cs[|cs| - 1].key == key then Some(cs[|cs| - 1])
    else Lookup(cs[..|cs| - 1], key)
  }

  /** First-seen times are carried forward by key name only. */
  function Carry(prev: Option<Mark>, cat: Category, key: Key, now: int): (c: Candidate)
    ensures c.key == key
    ensures c == Candidate(key, now) || (prev.Some? && c in prev.value.Listed(cat))
  {
    match prev
    case None => Candidate(key, now)
    case Some(p) =>
      match Lookup(p.Listed(cat), key)
      case Some(c0) => c0
      case None => Candidate(key, now)
  }

  // ---- Sweep decision ----

  datatype Decision = Delete | Revived | Retention | Disarmed

  function Classify(cat: Category, c: Candidate, retention: int, now: int, live: bool, armed: bool): Decision {
    if live then Revived
    else if now - c.firstSeen < retention then Retention
    else if cat == TxRecords && !armed then Disarmed
    else Delete
  }
}
