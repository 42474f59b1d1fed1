/** The two readers of the commit graph. `Open` builds a table by object id;
    `OpenFromStore` keeps the raw records and finds parents by binary search. The
    trailer hash is a parameter. */
module CommitGraphRead {
  import opened Wrappers
  import opened Binary
  import opened Order
  import opened CommitGraph

  const MAGIC: Bytes := [0x42, 0x56, 0x43, 0x47]
  const MAX_INDEX_SIZE := 0x4000_0000
  const MAX_INT32 := 0x7fff_ffff

  // ---- What a file holds ----

  datatype Header = Header(version: nat, nCommits: nat, nTips: nat)

  /** The header of a file whose trailer, magic and version are right and whose tips fit. */
  function HeaderOf(sha: Bytes -> Bytes, all: Bytes): (h: Option<Header>)
    ensures h.Some? ==> |all| >= HEADER_SIZE + TRAILER_SIZE + TIP_SIZE * h.value.nTips
    ensures h.Some? ==> h.value.version == VERSION_V1 || h.value.version == VERSION_V2
  {
    if |all| < HEADER_SIZE + TRAILER_SIZE then None
    else if sha(all[..|all| - TRAILER_SIZE]) != all[|all| - TRAILER_SIZE..] then None
    else if all[..4] != MAGIC then None
    else
      var ver, n, t := FromBigEndian(all[4..8]), FromBigEndian(all[8..16]), FromBigEndian(all[16..20]);
      if ver != VERSION_V1 && ver != VERSION_V2 then None
      else if n > MAX_INT32 then None
      else if HEADER_SIZE + t * TIP_SIZE > |all| - TRAILER_SIZE then None
      else Some(Header(ver, n, t))
  }

  function TipBytes(all: Bytes, nTips: nat): (b: Bytes)
    requires |all| >= HEADER_SIZE + TRAILER_SIZE + TIP_SIZE * nTips
    ensures |b| == TIP_SIZE * nTips
  {
    all[HEADER_SIZE..HEADER_SIZE + TIP_SIZE * nTips]
  }

  /** The commit records and, after them, the string table. */
  function RecordBytes(all: Bytes, nTips: nat): Bytes
    requires |all| >= HEADER_SIZE + TRAILER_SIZE + TIP_SIZE * nTips
  {
    all[HEADER_SIZE + TIP_SIZE * nTips..|all| - TRAILER_SIZE]
  }

  datatype File = File(version: nat, records: seq<Record>, tipBytes: Bytes, nTips: nat, stringTable: Bytes)

  function FileOf(sha: Bytes -> Bytes, all: Bytes): (f: Option<File>)
    ensures f.Some? ==> |f.value.tipBytes| == TIP_SIZE * f.value.nTips
  {
    match HeaderOf(sha, all)
    case None => None
    case Some(h) =>
      var body := RecordBytes(all, h.nTips);
      match RecordsIn(h.version, body, h.nCommits)
      case None => None
      case Some(p) => Some(File(h.version, p.records, TipBytes(all, h.nTips), h.nTips, body[p.end..]))
  }

  // ---- Tips ----

  /** The NUL-terminated string at `off`. */
  function CString(table: Bytes, off: nat): Option<Bytes> {
    if off >= |table| then None
    else
      match IndexByte(table[off..], 0)
      case None => None
      case Some(n) => Some(table[off..off + n])
  }

  function TipAt(tipBytes: Bytes, table: Bytes, i: nat): Option<Tip>
    requires TIP_SIZE * (i + 1) <= |tipBytes|
  {
    match CString(table, FromBigEndian(tipBytes[TIP_SIZE * i..TIP_SIZE * i + 4]))
    case None => None
    case Some(ref) => Some(Tip(ref, tipBytes[TIP_SIZE * i + 4..TIP_SIZE * (i + 1)]))
  }

  function TipsIn(tipBytes: Bytes, table: Bytes, n: nat): (r: Option<seq<Tip>>)
    requires TIP_SIZE * n <= |tipBytes|
    ensures r.Some? ==> |r.value| == n
  {
    if n == 0 then Some([])
    else
      var front, last := TipsIn(tipBytes, table, n - 1), TipAt(tipBytes, table, n - 1);
      if front.None? || last.None? then None else Some(front.value + [last.value])
  }

  predicate TipsKnown(tips: seq<Tip>, rs: seq<Record>) {
    forall i :: 0 <= i < |tips| ==> HasOid(rs, tips[i].oid)
  }

  // ---- Acceptance ----

  /** What `Open` accepts. */
  predicate Readable(sha: Bytes -> Bytes, all: Bytes) {
    match FileOf(sha, all)
    case None => false
    case Some(f) => DistinctOids(f.records) && Closed(f.records)
  }

  /** What `OpenFromStore` accepts. */
  predicate Loadable(sha: Bytes -> Bytes, all: Bytes) {
    && |all| <= MAX_INDEX_SIZE
    && match FileOf(sha, all)
       case None => false
       case Some(f) =>
         && SortedByOid(f.records) && Closed(f.records)
         && match TipsIn(f.tipBytes, f.stringTable, f.nTips)
            case None => false
            case Some(ts) => TipsKnown(ts, f.records)
  }

  /** Everything `OpenFromStore` accepts is accepted by `Open`. */
  lemma LoadableIsReadable(sha: Bytes -> Bytes, all: Bytes)
    requires Loadable(sha, all)
    ensures Readable(sha, all)
  {
    SortedIsDistinct(FileOf(sha, all).value.records);
  }

  /** The header of an accepted file, byte by byte: it ends with the digest of all before it, starts
      with "BVCG" and a known version, and its numbers have the most significant byte first. */
  lemma HeaderLayout(sha: Bytes -> Bytes, all: Bytes, h: Header)
    ensures HeaderOf(sha, all) == Some(h) <==>
              && |all| >= 64 && sha(all[..|all| - 32]) == all[|all| - 32..] && all[..4] == [0x42, 0x56, 0x43, 0x47]
              && h.version == Number(all[4], all[5], all[6], all[7]) && (h.version == 1 || h.version == 2)
              && h.nCommits == 0x1_0000_0000 * Number(all[8], all[9], all[10], all[11]) + Number(all[12], all[13], all[14], all[15])
              && h.nCommits <= 0x7fff_ffff
              && h.nTips == Number(all[16], all[17], all[18], all[19])
              && 64 + 24 * h.nTips <= |all|
  {
    if |all| >= 64 {
      hide FromBigEndian;
      FourBytes(all[4..8]);
      FourBytes(all[16..20]);
      EightBytes(all[8..16]);
      assert all[8..16][..4] == all[8..12] && all[8..16][4..] == all[12..16];
      FourBytes(all[8..12]);
      FourBytes(all[12..16]);
    }
  }

  /** A tip is a four-byte offset and an id; its name runs from there to the next NUL. */
  lemma TipLayout(tipBytes: Bytes, table: Bytes, i: nat, t: Tip)
    requires 24 * (i + 1) <= |tipBytes|
    ensures TipAt(tipBytes, table, i) == Some(t) <==>
              var at := 24 * i;
              var off := Number(tipBytes[at], tipBytes[at + 1], tipBytes[at + 2], tipBytes[at + 3]);
              && off + |t.ref| < |table| && t.ref == table[off..off + |t.ref|] && 0 !in t.ref && table[off + |t.ref|] == 0
              && t.oid == tipBytes[at + 4..at + 24]
  {
    hide CString, FromBigEndian, Number;
    var at := 24 * i;
    assert tipBytes[at..at + 4] == [tipBytes[at], tipBytes[at + 1], tipBytes[at + 2], tipBytes[at + 3]];
    FourBytes(tipBytes[at..at + 4]);
    CStringIff(table, FromBigEndian(tipBytes[at..at + 4]), t.ref);
  }

  /** The string at `off` runs to the first NUL. */
  lemma CStringIff(table: Bytes, off: nat, ref: Bytes)
    ensures CString(table, off) == Some(ref) <==>
              off + |ref| < |table| && ref == table[off..off + |ref|] && 0 !in ref && table[off + |ref|] == 0
  {
    hide IndexByte;
    if off + |ref| < |table| && ref == table[off..off + |ref|] && 0 !in ref && table[off + |ref|] == 0 {
      var rest := table[off..];
      assert rest[..|ref|] == ref && rest[|ref|] == 0;
      IndexByteIsFirst(rest, 0, |ref|);
    }
    if CString(table, off) == Some(ref) {
      var n := IndexByte(table[off..], 0).value;
      assert table[off..][..n] == table[off..off + n];
    }
  }

  /** What the store reader accepts: at most 1 GiB, ids strictly ascending, every parent and every
      tip among the commits, and every tip named. */
  lemma LoadableIff(sha: Bytes -> Bytes, all: Bytes)
    ensures Loadable(sha, all) <==>
              && |all| <= 0x4000_0000 && FileOf(sha, all).Some?
              && var f := FileOf(sha, all).value;
                 var rs, ts := f.records, TipsIn(f.tipBytes, f.stringTable, f.nTips);
                 && (forall i, j :: 0 <= i < j < |rs| ==> Less(rs[i].oid, rs[j].oid))
                 && (forall i, p :: 0 <= i < |rs| && p in rs[i].parents ==> exists k :: 0 <= k < |rs| && rs[k].oid == p)
                 && ts.Some? && forall t :: t in ts.value ==> exists k :: 0 <= k < |rs| && rs[k].oid == t.oid
  {
    hide FileOf, TipsIn, Less, Closed, TipsKnown;
    if FileOf(sha, all).Some? {
      var f := FileOf(sha, all).value;
      ClosedIff(f.records);
      if TipsIn(f.tipBytes, f.stringTable, f.nTips).Some? { KnownIff(TipsIn(f.tipBytes, f.stringTable, f.nTips).value, f.records); }
    }
  }

  /** The other reader asks for distinct ids instead, and does not look at the tips. */
  lemma ReadableIff(sha: Bytes -> Bytes, all: Bytes)
    ensures Readable(sha, all) <==>
              && FileOf(sha, all).Some?
              && var rs := FileOf(sha, all).value.records;
                 && (forall i, j :: 0 <= i < j < |rs| ==> rs[i].oid != rs[j].oid)
                 && forall i, p :: 0 <= i < |rs| && p in rs[i].parents ==> exists k :: 0 <= k < |rs| && rs[k].oid == p
  {
    hide FileOf, Closed;
    if FileOf(sha, all).Some? { ClosedIff(FileOf(sha, all).value.records); }
  }

  lemma KnownIff(ts: seq<Tip>, rs: seq<Record>)
    ensures TipsKnown(ts, rs) <==> forall t :: t in ts ==> exists k :: 0 <= k < |rs| && rs[k].oid == t.oid
  {
    if TipsKnown(ts, rs) {
      forall t | t in ts ensures exists k :: 0 <= k < |rs| && rs[k].oid == t.oid {
        var i :| 0 <= i < |ts| && ts[i] == t;
        assert HasOid(rs, ts[i].oid);
      }
    }
    if forall t :: t in ts ==> exists k :: 0 <= k < |rs| && rs[k].oid == t.oid {
      forall i | 0 <= i < |ts| ensures HasOid(rs, ts[i].oid) {
        assert ts[i] in ts;
      }
    }
  }

  lemma ClosedIff(rs: seq<Record>)
    ensures Closed(rs) <==> forall i, p :: 0 <= i < |rs| && p in rs[i].parents ==> exists k :: 0 <= k < |rs| && rs[k].oid == p
  {
    if Closed(rs) {
      forall i, p | 0 <= i < |rs| && p in rs[i].parents ensures exists k :: 0 <= k < |rs| && rs[k].oid == p {
        var j :| 0 <= j < |rs[i].parents| && rs[i].parents[j] == p;
        assert HasOid(rs, rs[i].parents[j]);
      }
    }
    if forall i, p :: 0 <= i < |rs| && p in rs[i].parents ==> exists k :: 0 <= k < |rs| && rs[k].oid == p {
      forall i, j | 0 <= i < |rs| && 0 <= j < |rs[i].parents| ensures HasOid(rs, rs[i].parents[j]) {
        assert rs[i].parents[j] in rs[i].parents;
      }
    }
  }

  // ---- Reading records one by one ----

  /** Reading `n` records reads record `m` after the first `m`. */
  lemma {:induction false} RecordsInPrefix(ver: int, buf: Bytes, m: nat, n: nat)
    requires m < n && RecordsIn(ver, buf, n).Some?
    ensures RecordsIn(ver, buf, m).Some?
    ensures RecordsIn(ver, buf, m).value.records == RecordsIn(ver, buf, n).value.records[..m]
    ensures RecordAt(ver, buf, RecordsIn(ver, buf, m).value.end) == Some(RecordsIn(ver, buf, n).value.records[m])
  {
    hide RecordAt;
    if m < n - 1 {
      RecordsInPrefix(ver, buf, m, n - 1);
    }
  }

  method ReadOids(buf: Bytes, start: nat, n: nat) returns (os: seq<OID>)
    requires start + OID_SIZE * n <= |buf|
    ensures os == Oids(buf, start, n)
  {
    os := [];
    for j := 0 to n
      invariant |os| == j
      invariant forall k :: 0 <= k < j ==> os[k] == buf[start + OID_SIZE * k..start + OID_SIZE * (k + 1)]
    {
      os := os + [buf[start + j * OID_SIZE..start + (j + 1) * OID_SIZE]];
    }
  }

  /** The table holds exactly the records, by object id. */
  ghost predicate IndexedBy(m: map<OID, Record>, rs: seq<Record>) {
    && (forall o :: o in m <==> HasOid(rs, o))
    && (forall i :: 0 <= i < |rs| ==> rs[i].oid in m && m[rs[i].oid] == rs[i])
  }

  lemma IndexedByOneMore(m: map<OID, Record>, rs: seq<Record>, r: Record)
    requires IndexedBy(m, rs) && r.oid !in m
    ensures IndexedBy(m[r.oid := r], rs + [r])
  {
    var m', rs' := m[r.oid := r], rs + [r];
    assert rs'[..|rs'| - 1] == rs;
    forall o ensures o in m' <==> HasOid(rs', o) { HasOidInFront(rs', o); }
    forall i | 0 <= i < |rs'| ensures rs'[i].oid in m' && m'[rs'[i].oid] == rs'[i] {
      if i < |rs| { assert rs'[i] == rs[i]; }
    }
  }

  lemma RepeatedIsNotDistinct(rs: seq<Record>, n: nat)
    requires n < |rs| && HasOid(rs[..n], rs[n].oid)
    ensures !DistinctOids(rs)
  {
    var front := rs[..n];
    var i :| 0 <= i < |front| && front[i].oid == rs[n].oid;
    assert rs[i] == front[i];
  }

  lemma DistinctOneMore(rs: seq<Record>, r: Record)
    requires DistinctOids(rs) && !HasOid(rs, r.oid)
    ensures DistinctOids(rs + [r])
  {}

  method ReadRecord(buf: Bytes, pos: nat, ver: int) returns (r: Option<Record>)
    ensures r == RecordAt(ver, buf, pos)
  {
    if pos + MinRecord(ver) > |buf| {
      return None;
    }
    var oid := buf[pos..pos + OID_SIZE];
    var gen := if ver == VERSION_V2 then FromLittleEndian(buf[pos + 20..pos + 24]) else 0;
    var nParents := buf[pos + CountOffset(ver)];
    var recLen := MinRecord(ver) + nParents * OID_SIZE;
    if pos + recLen > |buf| {
      return None;
    }
    var parents := ReadOids(buf, pos + MinRecord(ver), nParents);
    return Some(Record(oid, gen, parents));
  }

  /** Reads `n` records into a table; fails on truncation or a repeated object id. */
  method ParseRecordBytes(buf: Bytes, n: nat, ver: int) returns (ok: bool, m: map<OID, Record>)
    ensures ok <==> RecordsIn(ver, buf, n).Some? && DistinctOids(RecordsIn(ver, buf, n).value.records)
    ensures ok ==> IndexedBy(m, RecordsIn(ver, buf, n).value.records)
  {
    hide RecordAt;
    m := map[];
    var pos: nat := 0;
    ghost var rs: seq<Record> := [];
    for i := 0 to n
      invariant RecordsIn(ver, buf, i) == Some(Parsed(rs, pos)) && |rs| == i
      invariant DistinctOids(rs) && IndexedBy(m, rs)
    {
      if RecordsIn(ver, buf, n).Some? { RecordsInPrefix(ver, buf, i, n); }
      var next := ReadRecord(buf, pos, ver);
      if next.None? {
        return false, m;
      }
      var r := next.value;
      if r.oid in m {
        if RecordsIn(ver, buf, n).Some? { RepeatedIsNotDistinct(RecordsIn(ver, buf, n).value.records, i); }
        return false, m;
      }
      IndexedByOneMore(m, rs, r);
      DistinctOneMore(rs, r);
      m, rs := m[r.oid := r], rs + [r];
      pos := pos + RecordSize(ver, r);
    }
    ok := true;
  }

  /** Every parent in the table is itself a key of it. */
  predicate ClosedTable(m: map<OID, Record>) {
    forall o :: o in m ==> forall p :: p in m[o].parents ==> p in m
  }

  lemma ClosedTableIffClosed(m: map<OID, Record>, rs: seq<Record>)
    requires IndexedBy(m, rs)
    ensures ClosedTable(m) <==> Closed(rs)
  {
    if ClosedTable(m) {
      forall i, j | 0 <= i < |rs| && 0 <= j < |rs[i].parents| ensures HasOid(rs, rs[i].parents[j]) {
        assert rs[i].parents[j] in m[rs[i].oid].parents;
      }
    }
    if Closed(rs) {
      forall o | o in m ensures forall p :: p in m[o].parents ==> p in m {
        var i :| 0 <= i < |rs| && rs[i].oid == o;
      }
    }
  }

  /** The in-memory reader: accepts exactly the readable files and indexes all their records. */
  method Open(sha: Bytes -> Bytes, all: Bytes) returns (r: Option<map<OID, Record>>)
    ensures r.Some? <==> Readable(sha, all)
    ensures r.Some? ==> IndexedBy(r.value, FileOf(sha, all).value.records)
  {
    var h := HeaderOf(sha, all);
    if h.None? {
      return None;
    }
    var ok, m := ParseRecordBytes(RecordBytes(all, h.value.nTips), h.value.nCommits, h.value.version);
    if !ok {
      return None;
    }
    ClosedTableIffClosed(m, FileOf(sha, all).value.records);
    if !ClosedTable(m) {
      return None;
    }
    return Some(m);
  }

  // ---- The store reader ----

  datatype Graph = Graph(commits: Bytes, commitOffsets: seq<nat>, tips: seq<Tip>, version: nat)

  /** Record `i` starts at `offsets[i]` and ends by `end`. */
  ghost predicate Located(ver: int, buf: Bytes, offsets: seq<nat>, rs: seq<Record>, end: nat) {
    && |offsets| == |rs|
    && forall i :: 0 <= i < |rs| ==>
         RecordAt(ver, buf, offsets[i]) == Some(rs[i]) && offsets[i] + RecordSize(ver, rs[i]) <= end
  }

  ghost predicate Represents(g: Graph, rs: seq<Record>) {
    Located(g.version, g.commits, g.commitOffsets, rs, |g.commits|)
  }

  lemma SortedOneMore(rs: seq<Record>, r: Record)
    requires SortedByOid(rs) && (rs == [] || Less(rs[|rs| - 1].oid, r.oid))
    ensures SortedByOid(rs + [r])
  {
    forall i | 0 <= i < |rs| ensures Less(rs[i].oid, r.oid) {
      if i < |rs| - 1 { LessTransitive(rs[i].oid, rs[|rs| - 1].oid, r.oid); }
    }
  }

  method RecordLength(buf: Bytes, pos: nat, ver: int) returns (r: Option<nat>)
    ensures r.Some? <==> RecordAt(ver, buf, pos).Some?
    ensures r.Some? ==> r.value == RecordSize(ver, RecordAt(ver, buf, pos).value) && pos + OID_SIZE <= |buf|
    ensures r.Some? ==> buf[pos..pos + OID_SIZE] == RecordAt(ver, buf, pos).value.oid
  {
    if pos + MinRecord(ver) > |buf| {
      return None;
    }
    var nParents := buf[pos + CountOffset(ver)];
    var recLen := MinRecord(ver) + nParents * OID_SIZE;
    if pos + recLen > |buf| {
      return None;
    }
    return Some(recLen);
  }

  lemma LocatedOneMore(ver: int, buf: Bytes, offsets: seq<nat>, rs: seq<Record>, pos: nat, r: Record)
    requires Located(ver, buf, offsets, rs, pos) && RecordAt(ver, buf, pos) == Some(r)
    ensures Located(ver, buf, offsets + [pos], rs + [r], pos + RecordSize(ver, r))
  {
    hide RecordAt;
    var offsets', rs' := offsets + [pos], rs + [r];
    forall i | 0 <= i < |rs'|
      ensures RecordAt(ver, buf, offsets'[i]) == Some(rs'[i])
      ensures offsets'[i] + RecordSize(ver, rs'[i]) <= pos + RecordSize(ver, r)
    {
      if i < |rs| { assert offsets'[i] == offsets[i] && rs'[i] == rs[i]; }
    }
  }

  lemma NotSorted(rs: seq<Record>, i: nat)
    requires 0 < i < |rs| && !Less(rs[..i][i - 1].oid, rs[i].oid)
    ensures !SortedByOid(rs)
  {}

  /** Finds the record offsets; fails on truncation or when object ids do not ascend strictly. */
  method ScanCommits(buf: Bytes, n: nat, ver: int) returns (ok: bool, offsets: seq<nat>, total: nat)
    ensures ok <==> RecordsIn(ver, buf, n).Some? && SortedByOid(RecordsIn(ver, buf, n).value.records)
    ensures ok ==> total == RecordsIn(ver, buf, n).value.end
                   && Located(ver, buf, offsets, RecordsIn(ver, buf, n).value.records, total)
  {
    hide RecordAt;
    offsets := [];
    var pos: nat := 0;
    var prev: OID := [];
    ghost var rs: seq<Record> := [];
    for i := 0 to n
      invariant RecordsIn(ver, buf, i) == Some(Parsed(rs, pos)) && |rs| == i
      invariant SortedByOid(rs) && Located(ver, buf, offsets, rs, pos)
      invariant i > 0 ==> prev == rs[i - 1].oid
    {
      if RecordsIn(ver, buf, n).Some? { RecordsInPrefix(ver, buf, i, n); }
      var recLen := RecordLength(buf, pos, ver);
      if recLen.None? {
        return false, [], 0;
      }
      ghost var r := RecordAt(ver, buf, pos).value;
      var cur := buf[pos..pos + OID_SIZE];
      if i > 0 && !Less(prev, cur) {
        if RecordsIn(ver, buf, n).Some? { NotSorted(RecordsIn(ver, buf, n).value.records, i); }
        return false, [], 0;
      }
      SortedOneMore(rs, r);
      LocatedOneMore(ver, buf, offsets, rs, pos, r);
      offsets, rs, prev := offsets + [pos], rs + [r], cur;
      pos := pos + recLen.value;
    }
    ok, total := true, pos;
  }

  lemma RecordAtInPrefix(ver: int, buf: Bytes, pos: nat, end: nat)
    requires RecordAt(ver, buf, pos).Some? && end <= |buf|
    requires pos + RecordSize(ver, RecordAt(ver, buf, pos).value) <= end
    ensures RecordAt(ver, buf[..end], pos) == RecordAt(ver, buf, pos)
  {
    var r := RecordAt(ver, buf, pos).value;
    RecordAtIsEncoded(ver, buf, pos);
    SliceOfSlice(buf, 0, end, pos, pos + RecordSize(ver, r));
    assert buf[0..end] == buf[..end];
    EncodedRecordIsRead(ver, r, buf[..end], pos);
  }

  lemma LocatedInPrefix(ver: int, buf: Bytes, offsets: seq<nat>, rs: seq<Record>, end: nat)
    requires Located(ver, buf, offsets, rs, end) && end <= |buf|
    ensures Located(ver, buf[..end], offsets, rs, end)
  {
    forall i | 0 <= i < |rs| ensures RecordAt(ver, buf[..end], offsets[i]) == Some(rs[i]) {
      RecordAtInPrefix(ver, buf, offsets[i], end);
    }
  }

  method ReadTips(tipBytes: Bytes, table: Bytes, n: nat) returns (r: Option<seq<Tip>>)
    requires TIP_SIZE * n <= |tipBytes|
    ensures r == TipsIn(tipBytes, table, n)
  {
    hide CString, FromBigEndian;
    var tips := [];
    for i := 0 to n
      invariant TipsIn(tipBytes, table, i) == Some(tips)
    {
      var off := FromBigEndian(tipBytes[i * TIP_SIZE..i * TIP_SIZE + 4]);
      var oid := tipBytes[i * TIP_SIZE + 4..i * TIP_SIZE + 24];
      var ref := CString(table, off);
      if ref.None? {
        TipsInFails(tipBytes, table, i + 1, n);
        return None;
      }
      tips := tips + [Tip(ref.value, oid)];
    }
    return Some(tips);
  }

  lemma {:induction false} TipsInFails(tipBytes: Bytes, table: Bytes, m: nat, n: nat)
    requires m <= n && TIP_SIZE * n <= |tipBytes| && TipsIn(tipBytes, table, m).None?
    ensures TipsIn(tipBytes, table, n).None?
  {
    if m < n { TipsInFails(tipBytes, table, m, n - 1); }
  }

  method CommitSet(buf: Bytes, offsets: seq<nat>, ver: int, ghost rs: seq<Record>, ghost end: nat) returns (s: set<OID>)
    requires Located(ver, buf, offsets, rs, end)
    ensures forall o :: o in s <==> HasOid(rs, o)
  {
    s := {};
    for i := 0 to |offsets|
      invariant forall o :: o in s <==> exists j :: 0 <= j < i && rs[j].oid == o
    {
      assert buf[offsets[i]..offsets[i] + OID_SIZE] == rs[i].oid;
      s := s + {buf[offsets[i]..offsets[i] + OID_SIZE]};
    }
  }

  /** Whether `n` object ids laid end to end are all in `known`. */
  method OidsKnown(buf: Bytes, start: nat, n: nat, known: set<OID>) returns (ok: bool)
    requires start + OID_SIZE * n <= |buf|
    ensures ok <==> forall j :: 0 <= j < n ==> Oids(buf, start, n)[j] in known
  {
    for p := 0 to n
      invariant forall j :: 0 <= j < p ==> Oids(buf, start, n)[j] in known
    {
      if buf[start + p * OID_SIZE..start + (p + 1) * OID_SIZE] !in known {
        assert Oids(buf, start, n)[p] !in known;
        return false;
      }
    }
    ok := true;
  }

  /** The parents of the first `n` records are all among the records. */
  ghost predicate ClosedUpTo(rs: seq<Record>, n: nat) {
    forall k, j :: 0 <= k < n && k < |rs| && 0 <= j < |rs[k].parents| ==> HasOid(rs, rs[k].parents[j])
  }

  lemma ParentsAt(ver: int, buf: Bytes, off: nat, r: Record)
    requires RecordAt(ver, buf, off) == Some(r)
    ensures off + RecordSize(ver, r) <= |buf| && buf[off + CountOffset(ver)] == |r.parents|
    ensures r.parents == Oids(buf, off + MinRecord(ver), |r.parents|)
  {}

  /** Whether every parent of every located record is in `known`. */
  method ParentsKnown(buf: Bytes, offsets: seq<nat>, ver: int, known: set<OID>, ghost rs: seq<Record>, ghost end: nat)
    returns (ok: bool)
    requires Located(ver, buf, offsets, rs, end) && forall o :: o in known <==> HasOid(rs, o)
    ensures ok <==> Closed(rs)
  {
    hide RecordAt, Oids;
    for i := 0 to |offsets|
      invariant ClosedUpTo(rs, i)
    {
      ParentsAt(ver, buf, offsets[i], rs[i]);
      var nParents := buf[offsets[i] + CountOffset(ver)];
      var allKnown := OidsKnown(buf, offsets[i] + MinRecord(ver), nParents, known);
      if !allKnown {
        return false;
      }
    }
    ok := true;
  }

  /** The capacity test on the commit count never rejects a file that would parse. */
  lemma {:induction false} RecordsFit(ver: int, buf: Bytes, n: nat)
    requires RecordsIn(ver, buf, n).Some?
    ensures RecordsIn(ver, buf, n).value.end >= if ver == VERSION_V2 then 25 * n else 21 * n
    ensures n <= |buf| / MinRecord(ver)
  {
    hide RecordAt;
    if n > 0 {
      RecordsFit(ver, buf, n - 1);
    }
  }

  /** The store reader: accepts exactly the loadable files, whose records and tips it holds. */
  method OpenFromStore(sha: Bytes -> Bytes, all: Bytes) returns (r: Option<Graph>)
    ensures r.Some? <==> Loadable(sha, all)
    ensures r.Some? ==>
              var f := FileOf(sha, all).value;
              && Represents(r.value, f.records) && r.value.version == f.version
              && TipsIn(f.tipBytes, f.stringTable, f.nTips) == Some(r.value.tips)
  {
    if |all| > MAX_INDEX_SIZE {
      return None;
    }
    var header := HeaderOf(sha, all);
    if header.None? {
      return None;
    }
    var h := header.value;
    var buf := RecordBytes(all, h.nTips);
    if h.nCommits > |buf| / MinRecord(h.version) {
      if RecordsIn(h.version, buf, h.nCommits).Some? { RecordsFit(h.version, buf, h.nCommits); }
      return None;
    }
    var ok, offsets, total := ScanCommits(buf, h.nCommits, h.version);
    if !ok {
      return None;
    }
    ghost var f := FileOf(sha, all).value;
    var tips := ReadTips(TipBytes(all, h.nTips), buf[total..], h.nTips);
    if tips.None? {
      return None;
    }
    var known := CommitSet(buf, offsets, h.version, f.records, total);
    if exists i :: 0 <= i < |tips.value| && tips.value[i].oid !in known {
      return None;
    }
    var closed := ParentsKnown(buf, offsets, h.version, known, f.records, total);
    if !closed {
      return None;
    }
    LocatedInPrefix(h.version, buf, offsets, f.records, total);
    return Some(Graph(buf[..total], offsets, tips.value, h.version));
  }

  // ---- Lookups ----

  lemma FoundOnlyHere(rs: seq<Record>, oid: OID, i: nat)
    requires SortedByOid(rs) && i <= |rs|
    requires forall k :: 0 <= k < i ==> Less(rs[k].oid, oid)
    requires forall k :: i <= k < |rs| ==> !Less(rs[k].oid, oid)
    ensures HasOid(rs, oid) <==> i < |rs| && rs[i].oid == oid
  {
    LessAsymmetric(oid, oid);
    forall k | i < k < |rs| ensures rs[k].oid != oid {
      assert Less(rs[i].oid, rs[k].oid);
    }
  }

  lemma OidAt(ver: int, buf: Bytes, off: nat, r: Record)
    requires RecordAt(ver, buf, off) == Some(r)
    ensures off + OID_SIZE <= |buf| && buf[off..off + OID_SIZE] == r.oid
  {}

  /** The first record whose object id is not below `oid`. */
  method SearchOid(g: Graph, oid: OID, ghost rs: seq<Record>) returns (i: nat)
    requires Represents(g, rs) && SortedByOid(rs)
    ensures i <= |rs|
    ensures forall k :: 0 <= k < i ==> Less(rs[k].oid, oid)
    ensures forall k :: i <= k < |rs| ==> !Less(rs[k].oid, oid)
  {
    hide RecordAt;
    i := 0;
    var j := |g.commitOffsets|;
    while i < j
      invariant 0 <= i <= j <= |rs|
      invariant forall k :: 0 <= k < i ==> Less(rs[k].oid, oid)
      invariant forall k :: j <= k < |rs| ==> !Less(rs[k].oid, oid)
    {
      var h := (i + j) / 2;
      var off := g.commitOffsets[h];
      OidAt(g.version, g.commits, off, rs[h]);
      if Less(g.commits[off..off + OID_SIZE], oid) {
        forall k | 0 <= k < h ensures Less(rs[k].oid, oid) { LessTransitive(rs[k].oid, rs[h].oid, oid); }
        i := h + 1;
      } else {
        forall k | h <= k < |rs| ensures !Less(rs[k].oid, oid) {
          if k > h && Less(rs[k].oid, oid) { LessTransitive(rs[h].oid, rs[k].oid, oid); }
        }
        j := h;
      }
    }
  }

  /** Binary search for a commit's parents. */
  method Parents(g: Graph, oid: OID, ghost rs: seq<Record>) returns (r: Option<seq<OID>>)
    requires Represents(g, rs) && SortedByOid(rs)
    ensures r == ParentsOf(rs, oid)
  {
    hide RecordAt;
    SortedIsDistinct(rs);
    var i := SearchOid(g, oid, rs);
    FoundOnlyHere(rs, oid, i);
    if i == |g.commitOffsets| {
      return None;
    }
    var off := g.commitOffsets[i];
    OidAt(g.version, g.commits, off, rs[i]);
    ParentsAt(g.version, g.commits, off, rs[i]);
    if g.commits[off..off + OID_SIZE] != oid {
      return None;
    }
    var n := g.commits[off + CountOffset(g.version)];
    var parents := ReadOids(g.commits, off + MinRecord(g.version), n);
    return Some(parents);
  }

  /** For every file the store reader loads, the table of the other reader gives every
      object id the same parents as the search. */
  lemma ReadersAgree(sha: Bytes -> Bytes, all: Bytes, m: map<OID, Record>, o: OID)
    requires Loadable(sha, all) && IndexedBy(m, FileOf(sha, all).value.records)
    ensures ParentsOf(FileOf(sha, all).value.records, o) == if o in m then Some(m[o].parents) else None
  {
    var rs := FileOf(sha, all).value.records;
    SortedIsDistinct(rs);
    if o in m {
      var i :| 0 <= i < |rs| && rs[i].oid == o;
    }
  }

  /** Opens a file with both readers and asks each for a commit's parents: whatever the store reader
      accepts the other one accepts, and the search and the table give the same answer. */
  method ReadBoth(sha: Bytes -> Bytes, all: Bytes, oid: OID)
    returns (stored: Option<Graph>, table: Option<map<OID, Record>>, found: Option<seq<OID>>, listed: Option<seq<OID>>)
    ensures stored.Some? <==> Loadable(sha, all)
    ensures stored.Some? ==> table.Some? && found == listed == ParentsOf(FileOf(sha, all).value.records, oid)
  {
    hide Loadable, Readable, FileOf, Represents, IndexedBy, ParentsOf, SortedByOid;
    stored := OpenFromStore(sha, all);
    table := Open(sha, all);
    found, listed := None, None;
    if stored.Some? {
      LoadableIsReadable(sha, all);
      LoadableIsSorted(sha, all);
      found := Parents(stored.value, oid, FileOf(sha, all).value.records);
      ReadersAgree(sha, all, table.value, oid);
      listed := if oid in table.value then Some(table.value[oid].parents) else None;
    }
  }

  lemma LoadableIsSorted(sha: Bytes -> Bytes, all: Bytes)
    requires Loadable(sha, all)
    ensures FileOf(sha, all).Some? && SortedByOid(FileOf(sha, all).value.records)
  {
    hide FileOf, SortedByOid;
  }
}
