/** The .bvcg commit graph: its records, their byte layout in format versions 1
    and 2, and what it means for a buffer to hold a given list of records. */
module CommitGraph {
  import opened Wrappers
  import opened Binary
  import opened Order

  const VERSION_V1 := 1
  const VERSION_V2 := 2
  const HEADER_SIZE := 32
  const TIP_SIZE := 24
  const TRAILER_SIZE := 32
  const OID_SIZE := 20
  const MAX_PARENTS := 255
  const UINT32 := 0x1_0000_0000

  type OID = Bytes

  datatype Tip = Tip(ref: Bytes, oid: OID) {
    predicate Typed() { |oid| == OID_SIZE }
  }

  datatype Record = Record(oid: OID, generation: nat, parents: seq<OID>) {
    /** Object ids have 20 bytes and the generation 32 bits. */
    predicate Typed() {
      |oid| == OID_SIZE && generation < UINT32 && AllOids(parents)
    }
  }

  predicate AllOids(os: seq<OID>) {
    forall i :: 0 <= i < |os| ==> |os[i]| == OID_SIZE
  }

  predicate AllTyped(rs: seq<Record>) {
    forall i :: 0 <= i < |rs| ==> rs[i].Typed()
  }

  /** `r` can be written in version `ver`; version 1 has no generation field. */
  predicate Storable(ver: int, r: Record) {
    r.Typed() && |r.parents| <= MAX_PARENTS && (ver != VERSION_V2 ==> r.generation == 0)
  }

  predicate AllStorable(ver: int, rs: seq<Record>) {
    forall i :: 0 <= i < |rs| ==> Storable(ver, rs[i])
  }

  // ---- Byte layout ----

  /** Offset of the parent count in a record. */
  function CountOffset(ver: int): nat {
    if ver == VERSION_V2 then OID_SIZE + 4 else OID_SIZE
  }

  /** The smallest record size. */
  function MinRecord(ver: int): nat {
    CountOffset(ver) + 1
  }

  function Joined(os: seq<OID>): (bs: Bytes)
    ensures AllOids(os) ==> |bs| == OID_SIZE * |os|
  {
    if os == [] then [] else Joined(os[..|os| - 1]) + os[|os| - 1]
  }

  function EncodeRecord(ver: int, r: Record): (bs: Bytes)
    requires Storable(ver, r)
    ensures |bs| == MinRecord(ver) + OID_SIZE * |r.parents|
  {
    r.oid + (if ver == VERSION_V2 then LittleEndian(r.generation, 4) else []) + [|r.parents|] + Joined(r.parents)
  }

  function EncodeRecords(ver: int, rs: seq<Record>): (bs: Bytes)
    requires AllStorable(ver, rs)
  {
    if rs == [] then [] else EncodeRecords(ver, rs[..|rs| - 1]) + EncodeRecord(ver, rs[|rs| - 1])
  }

  // ---- Reading a record ----

  /** `n` object ids laid end to end from `start`. */
  function Oids(buf: Bytes, start: nat, n: nat): (os: seq<OID>)
    requires start + OID_SIZE * n <= |buf|
    ensures |os| == n && AllOids(os)
    ensures forall j :: 0 <= j < n ==> os[j] == buf[start + OID_SIZE * j..start + OID_SIZE * (j + 1)]
  {
    seq(n, j requires 0 <= j < n => buf[start + OID_SIZE * j..start + OID_SIZE * (j + 1)])
  }

  /** The record that starts at `pos`, unless the buffer is too short for it. */
  function RecordAt(ver: int, buf: Bytes, pos: nat): (r: Option<Record>)
    ensures r.Some? ==> Storable(ver, r.value) && pos + RecordSize(ver, r.value) <= |buf|
  {
    if pos + MinRecord(ver) > |buf| then None
    else
      var n := buf[pos + CountOffset(ver)];
      if pos + MinRecord(ver) + OID_SIZE * n > |buf| then None
      else
        var gen := if ver == VERSION_V2 then buf[pos + 20..pos + 24] else [];
        FromLittleEndianRoundTrip(gen);
        Pow256Values();
        Some(Record(buf[pos..pos + OID_SIZE], FromLittleEndian(gen), Oids(buf, pos + MinRecord(ver), n)))
  }

  function RecordSize(ver: int, r: Record): nat {
    MinRecord(ver) + OID_SIZE * |r.parents|
  }

  datatype Parsed = Parsed(records: seq<Record>, end: nat)

  /** The first `n` records of a buffer and where they end. */
  function RecordsIn(ver: int, buf: Bytes, n: nat): (r: Option<Parsed>)
    ensures r.Some? ==> |r.value.records| == n && AllStorable(ver, r.value.records) && r.value.end <= |buf|
  {
    if n == 0 then Some(Parsed([], 0))
    else
      match RecordsIn(ver, buf, n - 1)
      case None => None
      case Some(p) =>
        match RecordAt(ver, buf, p.end)
        case None => None
        case Some(r) => Some(Parsed(p.records + [r], p.end + RecordSize(ver, r)))
  }

  // ---- Reading undoes writing, and only that ----

  lemma {:induction false} JoinedOids(buf: Bytes, start: nat, n: nat)
    requires start + OID_SIZE * n <= |buf|
    ensures Joined(Oids(buf, start, n)) == buf[start..start + OID_SIZE * n]
  {
    if n > 0 {
      JoinedOids(buf, start, n - 1);
      assert Oids(buf, start, n)[..n - 1] == Oids(buf, start, n - 1);
    }
  }

  lemma {:induction false} OidsJoined(os: seq<OID>, buf: Bytes, start: nat)
    requires AllOids(os) && start + OID_SIZE * |os| <= |buf|
    requires buf[start..start + OID_SIZE * |os|] == Joined(os)
    ensures Oids(buf, start, |os|) == os
  {
    if os != [] {
      var n := |os| - 1;
      var mid := start + OID_SIZE * n;
      var whole := buf[start..mid + OID_SIZE];
      assert whole[..OID_SIZE * n] == buf[start..mid] == Joined(os[..n]);
      assert whole[OID_SIZE * n..] == buf[mid..mid + OID_SIZE] == os[n];
      OidsJoined(os[..n], buf, start);
      assert Oids(buf, start, n + 1) == Oids(buf, start, n) + [buf[mid..mid + OID_SIZE]];
      assert os == os[..n] + [os[n]];
    }
  }

  /** A decoded record is written back to the bytes it was read from. */
  lemma RecordAtIsEncoded(ver: int, buf: Bytes, pos: nat)
    requires RecordAt(ver, buf, pos).Some?
    ensures var r := RecordAt(ver, buf, pos).value;
            buf[pos..pos + RecordSize(ver, r)] == EncodeRecord(ver, r)
  {
    var r := RecordAt(ver, buf, pos).value;
    var c, end := pos + CountOffset(ver), pos + RecordSize(ver, r);
    JoinedOids(buf, c + 1, |r.parents|);
    FourSlices(buf, pos, pos + 20, c, end);
    FromLittleEndianRoundTrip(buf[pos + 20..c]);
    if ver != VERSION_V2 {
      assert buf[pos + 20..c] == [];
    }
  }

  lemma EncodedFields(ver: int, r: Record)
    requires Storable(ver, r)
    ensures var bs, c := EncodeRecord(ver, r), CountOffset(ver);
            && bs[..20] == r.oid && bs[c] == |r.parents| && bs[c + 1..] == Joined(r.parents)
            && (ver == VERSION_V2 ==> bs[20..24] == LittleEndian(r.generation, 4))
  {}

  /** An encoded record is read back as it was. */
  lemma EncodedRecordIsRead(ver: int, r: Record, buf: Bytes, pos: nat)
    requires Storable(ver, r) && pos + RecordSize(ver, r) <= |buf|
    requires buf[pos..pos + RecordSize(ver, r)] == EncodeRecord(ver, r)
    ensures RecordAt(ver, buf, pos) == Some(r)
  {
    EncodedFields(ver, r);
    var end, c := pos + RecordSize(ver, r), CountOffset(ver);
    SliceOfSlice(buf, pos, end, 0, 20);
    SliceOfSlice(buf, pos, end, c + 1, end - pos);
    assert buf[pos + c] == buf[pos..end][c];
    OidsJoined(r.parents, buf, pos + c + 1);
    if ver == VERSION_V2 {
      Pow256Values();
      LittleEndianRoundTrip(r.generation, 4);
      SliceOfSlice(buf, pos, end, 20, 24);
    }
  }

  lemma EncodeOneMore(ver: int, front: seq<Record>, r: Record)
    requires AllStorable(ver, front) && Storable(ver, r)
    ensures EncodeRecords(ver, front + [r]) == EncodeRecords(ver, front) + EncodeRecord(ver, r)
  {
    hide EncodeRecord;
    assert (front + [r])[..|front|] == front;
  }

  lemma EncodedOneMore(ver: int, buf: Bytes, front: seq<Record>, end: nat)
    requires AllStorable(ver, front) && end <= |buf| && buf[..end] == EncodeRecords(ver, front)
    requires RecordAt(ver, buf, end).Some?
    ensures var r := RecordAt(ver, buf, end).value;
            buf[..end + RecordSize(ver, r)] == EncodeRecords(ver, front + [r])
  {
    hide RecordAt, EncodeRecord, EncodeRecords;
    var r := RecordAt(ver, buf, end).value;
    RecordAtIsEncoded(ver, buf, end);
    EncodeOneMore(ver, front, r);
    SliceJoins(buf, end, end + RecordSize(ver, r), EncodeRecords(ver, front), EncodeRecord(ver, r));
  }

  lemma {:induction false} RecordsInAreEncoded(ver: int, buf: Bytes, n: nat)
    requires RecordsIn(ver, buf, n).Some?
    ensures var p := RecordsIn(ver, buf, n).value;
            buf[..p.end] == EncodeRecords(ver, p.records)
  {
    hide RecordAt, EncodeRecord;
    if n > 0 {
      RecordsInAreEncoded(ver, buf, n - 1);
      var q := RecordsIn(ver, buf, n - 1).value;
      EncodedOneMore(ver, buf, q.records, q.end);
    }
  }

  /** `buf` starts with `rs` in version `ver`, and the encoding ends at `end`. */
  predicate StartsWith(ver: int, buf: Bytes, rs: seq<Record>, end: nat) {
    AllStorable(ver, rs) && end == |EncodeRecords(ver, rs)| && EncodeRecords(ver, rs) <= buf
  }

  lemma StartsWithFront(ver: int, buf: Bytes, front: seq<Record>, r: Record, end: nat)
    requires StartsWith(ver, buf, front + [r], end)
    ensures AllStorable(ver, front) && Storable(ver, r) && end >= RecordSize(ver, r)
    ensures StartsWith(ver, buf, front, end - RecordSize(ver, r))
    ensures RecordAt(ver, buf, end - RecordSize(ver, r)) == Some(r)
  {
    hide RecordAt, EncodeRecord, EncodeRecords;
    var rs := front + [r];
    assert Storable(ver, rs[|front|]) && rs[|front|] == r;
    assert forall i :: 0 <= i < |front| ==> front[i] == rs[i];
    EncodeOneMore(ver, front, r);
    var bs := EncodeRecords(ver, front);
    PrefixSplits(bs, EncodeRecord(ver, r), buf);
    EncodedRecordIsRead(ver, r, buf, |bs|);
  }

  lemma OneMoreIsRead(ver: int, buf: Bytes, front: seq<Record>, r: Record, end: nat)
    requires RecordsIn(ver, buf, |front|) == Some(Parsed(front, end)) && RecordAt(ver, buf, end) == Some(r)
    ensures RecordsIn(ver, buf, |front + [r]|) == Some(Parsed(front + [r], end + RecordSize(ver, r)))
  {}

  lemma {:induction false} EncodedRecordsAreRead(ver: int, buf: Bytes, rs: seq<Record>, end: nat)
    requires StartsWith(ver, buf, rs, end)
    ensures RecordsIn(ver, buf, |rs|) == Some(Parsed(rs, end))
  {
    hide RecordAt, EncodeRecord, Storable;
    if |rs| > 0 {
      var front, r := rs[..|rs| - 1], rs[|rs| - 1];
      assert rs == front + [r];
      StartsWithFront(ver, buf, front, r, end);
      EncodedRecordsAreRead(ver, buf, front, end - RecordSize(ver, r));
      OneMoreIsRead(ver, buf, front, r, end - RecordSize(ver, r));
    }
  }

  /** A buffer is read as `rs` exactly when it starts with the encoding of `rs`. */
  lemma ReadIffEncoded(ver: int, buf: Bytes, rs: seq<Record>, end: nat)
    ensures RecordsIn(ver, buf, |rs|) == Some(Parsed(rs, end)) <==> StartsWith(ver, buf, rs, end)
  {
    if RecordsIn(ver, buf, |rs|) == Some(Parsed(rs, end)) {
      RecordsInAreEncoded(ver, buf, |rs|);
    }
    if StartsWith(ver, buf, rs, end) {
      EncodedRecordsAreRead(ver, buf, rs, end);
    }
  }

  /** The bytes of a record, place by place: the id, in version 2 the generation with its least
      significant byte first, the number of parents and their ids. */
  lemma RecordLayout(ver: int, buf: Bytes, pos: nat)
    requires RecordAt(ver, buf, pos).Some?
    ensures var r, c := RecordAt(ver, buf, pos).value, if ver == 2 then pos + 24 else pos + 20;
            && c + 1 + 20 * |r.parents| <= |buf| && r.oid == buf[pos..pos + 20] && |r.parents| == buf[c]
            && (ver == 2 ==> r.generation == Number(buf[pos + 23], buf[pos + 22], buf[pos + 21], buf[pos + 20]))
            && (ver != 2 ==> r.generation == 0)
            && forall j :: 0 <= j < |r.parents| ==> r.parents[j] == buf[c + 1 + 20 * j..c + 1 + 20 * (j + 1)]
  {
    if ver == 2 { FourBytes(buf[pos + 20..pos + 24]); }
  }

  /** A record is missing exactly if the buffer ends before its parents do. */
  lemma RecordMissing(ver: int, buf: Bytes, pos: nat)
    ensures RecordAt(ver, buf, pos).None? <==>
              var c := if ver == 2 then pos + 24 else pos + 20;
              c >= |buf| || c + 1 + 20 * (buf[c] as int) > |buf|
  {}

  // ---- Records as a set ----

  predicate SortedByOid(rs: seq<Record>) {
    forall i, j :: 0 <= i < j < |rs| ==> Less(rs[i].oid, rs[j].oid)
  }

  predicate DistinctOids(rs: seq<Record>) {
    forall i, j :: 0 <= i < j < |rs| ==> rs[i].oid != rs[j].oid
  }

  predicate HasOid(rs: seq<Record>, o: OID) {
    exists i :: 0 <= i < |rs| && rs[i].oid == o
  }

  /** Every parent is itself among the records. */
  predicate Closed(rs: seq<Record>) {
    forall i, j :: 0 <= i < |rs| && 0 <= j < |rs[i].parents| ==> HasOid(rs, rs[i].parents[j])
  }

  lemma SortedIsDistinct(rs: seq<Record>)
    requires SortedByOid(rs)
    ensures DistinctOids(rs)
  {
    forall i, j | 0 <= i < j < |rs| ensures rs[i].oid != rs[j].oid {
      LessAsymmetric(rs[i].oid, rs[j].oid);
    }
  }

  lemma HasOidInFront(rs: seq<Record>, o: OID)
    requires rs != []
    ensures HasOid(rs, o) <==> rs[|rs| - 1].oid == o || HasOid(rs[..|rs| - 1], o)
  {
    var front := rs[..|rs| - 1];
    assert forall i :: 0 <= i < |front| ==> front[i] == rs[i];
  }

  /** The parents recorded for `o`. */
  function ParentsOf(rs: seq<Record>, o: OID): (r: Option<seq<OID>>)
    ensures r.Some? <==> HasOid(rs, o)
    ensures DistinctOids(rs) ==> forall i :: 0 <= i < |rs| && rs[i].oid == o ==> r == Some(rs[i].parents)
  {
    if rs == [] then None
    else
      HasOidInFront(rs, o);
      if rs[|rs| - 1].oid == o then Some(rs[|rs| - 1].parents) else ParentsOf(rs[..|rs| - 1], o)
  }
}
