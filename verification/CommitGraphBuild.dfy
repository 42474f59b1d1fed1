/** The writer of the commit graph, the round trip through the readers, and the
    independence of the bytes from the order of the input. */
module CommitGraphBuild {
  import opened Wrappers
  import opened Binary
  import opened Order
  import opened Sorting
  import opened CommitGraph
  import opened CommitGraphRead
  import Generations

  predicate OidAtMost(a: Record, b: Record) {
    AtMost(a.oid, b.oid)
  }

  predicate TipAtMost(a: Tip, b: Tip) {
    Less(a.ref, b.ref) || (a.ref == b.ref && AtMost(a.oid, b.oid))
  }

  predicate FewParents(rs: seq<Record>) {
    forall i :: 0 <= i < |rs| ==> |rs[i].parents| <= MAX_PARENTS
  }

  predicate AllTipsTyped(tips: seq<Tip>) {
    forall i :: 0 <= i < |tips| ==> tips[i].Typed()
  }

  // ---- String table ----

  datatype Strings = Strings(offsets: map<Bytes, nat>, table: Bytes)

  /** Each distinct ref name once, NUL-terminated, in order of first use. */
  function StringsOf(tips: seq<Tip>): Strings {
    if tips == [] then Strings(map[], [])
    else AddString(StringsOf(tips[..|tips| - 1]), tips[|tips| - 1].ref)
  }

  function AddString(s: Strings, ref: Bytes): Strings {
    if ref in s.offsets then s
    else Strings(s.offsets[ref := |s.table| % UINT32], s.table + ref + [0])
  }

  method BuildStrings(tips: seq<Tip>) returns (s: Strings)
    ensures s == StringsOf(tips)
  {
    var offsets: map<Bytes, nat>, table: Bytes := map[], [];
    for i := 0 to |tips|
      invariant Strings(offsets, table) == StringsOf(tips[..i])
    {
      assert tips[..i + 1][..i] == tips[..i];
      if tips[i].ref in offsets {
        continue;
      }
      offsets := offsets[tips[i].ref := |table| % UINT32];
      table := table + tips[i].ref + [0];
    }
    assert tips[..|tips|] == tips;
    s := Strings(offsets, table);
  }

  /** `ref` and its terminator lie at `off`. */
  predicate EntryAt(table: Bytes, off: nat, ref: Bytes) {
    off + |ref| < |table| && table[off..off + |ref|] == ref && table[off + |ref|] == 0
  }

  lemma EntryStays(table: Bytes, more: Bytes, off: nat, ref: Bytes)
    requires EntryAt(table, off, ref)
    ensures EntryAt(table + more, off, ref)
  {
    assert (table + more)[off..off + |ref|] == table[off..off + |ref|];
  }

  lemma EntryIsNew(table: Bytes, ref: Bytes)
    ensures EntryAt(table + ref + [0], |table|, ref)
  {
    assert (table + ref + [0])[|table|..|table| + |ref|] == ref;
  }

  /** Below 4 GiB every ref name is found at its offset. */
  lemma {:induction false} StringsAreFound(tips: seq<Tip>, ref: Bytes)
    requires |StringsOf(tips).table| < UINT32
    ensures ref in StringsOf(tips).offsets <==> exists i :: 0 <= i < |tips| && tips[i].ref == ref
    ensures ref in StringsOf(tips).offsets ==> EntryAt(StringsOf(tips).table, StringsOf(tips).offsets[ref], ref)
  {
    hide EntryAt;
    if tips != [] {
      var front, last := tips[..|tips| - 1], tips[|tips| - 1].ref;
      var s := StringsOf(front);
      StringsAreFound(front, ref);
      assert forall i :: 0 <= i < |front| ==> front[i] == tips[i];
      if last !in s.offsets {
        assert s.table + last + [0] == s.table + (last + [0]);
        EntryIsNew(s.table, last);
        if ref in s.offsets {
          EntryStays(s.table, last + [0], s.offsets[ref], ref);
        }
      }
    }
  }

  // ---- Byte layout ----

  function EncodeTip(offsets: map<Bytes, nat>, t: Tip): (bs: Bytes)
    ensures t.Typed() ==> |bs| == TIP_SIZE
  {
    BigEndian(if t.ref in offsets then offsets[t.ref] else 0, 4) + t.oid
  }

  function EncodeTips(offsets: map<Bytes, nat>, tips: seq<Tip>): (bs: Bytes)
    ensures AllTipsTyped(tips) ==> |bs| == TIP_SIZE * |tips|
  {
    if tips == [] then [] else EncodeTips(offsets, tips[..|tips| - 1]) + EncodeTip(offsets, tips[|tips| - 1])
  }

  const RESERVED: Bytes := [0, 0, 0, 0, 0, 0, 0, 0, 0, 0, 0, 0]

  function EncodeHeader(nCommits: nat, nTips: nat): (bs: Bytes)
    ensures |bs| == HEADER_SIZE
  {
    MAGIC + BigEndian(VERSION_V2, 4) + BigEndian(nCommits, 8) + BigEndian(nTips, 4) + RESERVED
  }

  function Content(rs: seq<Record>, tips: seq<Tip>): Bytes
    requires AllStorable(VERSION_V2, rs)
  {
    var s := StringsOf(tips);
    EncodeHeader(|rs|, |tips|) + EncodeTips(s.offsets, tips) + EncodeRecords(VERSION_V2, rs) + s.table
  }

  /** The file for records and tips that are already sorted. */
  function Assemble(sha: Bytes -> Bytes, rs: seq<Record>, tips: seq<Tip>): Option<Bytes>
    requires AllTyped(rs)
  {
    if DistinctOids(rs) && FewParents(rs) && TipsKnown(tips, rs) && Closed(rs) then
      var content := Content(rs, tips);
      Some(content + sha(content))
    else None
  }

  function BuildOf(sha: Bytes -> Bytes, commits: seq<Record>, tips: seq<Tip>): Option<Bytes>
    requires AllTyped(commits)
  {
    SortKeepsTyped(commits);
    Assemble(sha, Sort(commits, OidAtMost), Sort(tips, TipAtMost))
  }

  lemma SameElements<T>(a: seq<T>, b: seq<T>, i: nat) returns (j: nat)
    requires multiset(a) == multiset(b) && i < |a|
    ensures j < |b| && b[j] == a[i]
  {
    assert a[i] in multiset(b);
    j :| 0 <= j < |b| && b[j] == a[i];
  }

  lemma SortKeepsTyped(commits: seq<Record>)
    requires AllTyped(commits)
    ensures AllTyped(Sort(commits, OidAtMost))
  {
    var s := Sort(commits, OidAtMost);
    forall i | 0 <= i < |s| ensures s[i].Typed() {
      var j := SameElements(s, commits, i);
    }
  }

  /** Writes the file; the loops append tip by tip and record by record. */
  method Build(sha: Bytes -> Bytes, commits: seq<Record>, tips: seq<Tip>) returns (r: Option<Bytes>)
    requires AllTyped(commits)
    ensures r == BuildOf(sha, commits, tips)
  {
    SortKeepsTyped(commits);
    var rs := Sort(commits, OidAtMost);
    var sorted := Sort(tips, TipAtMost);
    if !DistinctOids(rs) || !FewParents(rs) || !TipsKnown(sorted, rs) || !Closed(rs) {
      return None;
    }
    var strings := BuildStrings(sorted);
    var buf := EncodeHeader(|rs|, |sorted|);
    var tipBytes := WriteTips(strings.offsets, sorted);
    var recordBytes := WriteRecords(rs);
    buf := buf + tipBytes + recordBytes + strings.table;
    return Some(buf + sha(buf));
  }

  method WriteTips(offsets: map<Bytes, nat>, tips: seq<Tip>) returns (bs: Bytes)
    ensures bs == EncodeTips(offsets, tips)
  {
    bs := [];
    for i := 0 to |tips|
      invariant bs == EncodeTips(offsets, tips[..i])
    {
      assert tips[..i + 1][..i] == tips[..i];
      bs := bs + EncodeTip(offsets, tips[i]);
    }
    assert tips[..|tips|] == tips;
  }

  method WriteRecords(rs: seq<Record>) returns (bs: Bytes)
    requires AllStorable(VERSION_V2, rs)
    ensures bs == EncodeRecords(VERSION_V2, rs)
  {
    hide EncodeRecord;
    bs := [];
    for i := 0 to |rs|
      invariant bs == EncodeRecords(VERSION_V2, rs[..i])
    {
      assert rs[..i + 1][..i] == rs[..i];
      bs := bs + EncodeRecord(VERSION_V2, rs[i]);
    }
    assert rs[..|rs|] == rs;
  }

  // ---- Reading the file back ----

  /** A ref name as a NUL-terminated reader sees it. */
  function UpToNul(ref: Bytes): Bytes {
    match IndexByte(ref, 0)
    case None => ref
    case Some(i) => ref[..i]
  }

  function AsRead(tips: seq<Tip>): (ts: seq<Tip>)
    ensures |ts| == |tips| && forall i :: 0 <= i < |tips| ==> ts[i] == Tip(UpToNul(tips[i].ref), tips[i].oid)
  {
    seq(|tips|, i requires 0 <= i < |tips| => Tip(UpToNul(tips[i].ref), tips[i].oid))
  }

  predicate NulFree(tips: seq<Tip>) {
    forall i :: 0 <= i < |tips| ==> 0 !in tips[i].ref
  }

  lemma EntryIsRead(table: Bytes, off: nat, ref: Bytes)
    requires EntryAt(table, off, ref)
    ensures CString(table, off) == Some(UpToNul(ref))
  {
    hide IndexByte;
    var rest := table[off..];
    SliceOfSlice(table, off, |table|, 0, |ref|);
    assert table[off..|table|] == rest && rest[..|ref|] == ref && rest[|ref|] == 0;
    match IndexByte(ref, 0)
    case None =>
      IndexByteIsFirst(rest, 0, |ref|);
    case Some(i) =>
      assert rest[i] == ref[i] && rest[..i] == ref[..i];
      IndexByteIsFirst(rest, 0, i);
      assert table[off..off + i] == ref[..i];
  }

  lemma TipIsRead(offsets: map<Bytes, nat>, t: Tip, tipBytes: Bytes, table: Bytes, i: nat)
    requires t.Typed() && TIP_SIZE * (i + 1) <= |tipBytes|
    requires tipBytes[TIP_SIZE * i..TIP_SIZE * (i + 1)] == EncodeTip(offsets, t)
    requires t.ref in offsets && offsets[t.ref] < UINT32 && EntryAt(table, offsets[t.ref], t.ref)
    ensures TipAt(tipBytes, table, i) == Some(Tip(UpToNul(t.ref), t.oid))
  {
    hide CString, IndexByte, BigEndian, FromBigEndian;
    var bs := EncodeTip(offsets, t);
    SliceOfSlice(tipBytes, TIP_SIZE * i, TIP_SIZE * (i + 1), 0, 4);
    SliceOfSlice(tipBytes, TIP_SIZE * i, TIP_SIZE * (i + 1), 4, TIP_SIZE);
    assert bs[..4] == BigEndian(offsets[t.ref], 4) && bs[4..] == t.oid;
    assert bs[0..4] == bs[..4] && bs[4..TIP_SIZE] == bs[4..];
    Pow256Values();
    BigEndianRoundTrip(offsets[t.ref], 4);
    EntryIsRead(table, offsets[t.ref], t.ref);
  }

  lemma {:induction false} TipsInExtends(tipBytes: Bytes, more: Bytes, table: Bytes, n: nat)
    requires TIP_SIZE * n <= |tipBytes|
    ensures TipsIn(tipBytes + more, table, n) == TipsIn(tipBytes, table, n)
  {
    hide CString;
    if n > 0 {
      TipsInExtends(tipBytes, more, table, n - 1);
      var all, i := tipBytes + more, n - 1;
      assert all[TIP_SIZE * i..TIP_SIZE * i + 4] == tipBytes[TIP_SIZE * i..TIP_SIZE * i + 4];
      assert all[TIP_SIZE * i + 4..TIP_SIZE * n] == tipBytes[TIP_SIZE * i + 4..TIP_SIZE * n];
    }
  }

  /** Every ref name of `tips` is found in the table through a 32-bit offset. */
  predicate Resolves(s: Strings, tips: seq<Tip>) {
    forall i :: 0 <= i < |tips| ==>
      && tips[i].ref in s.offsets && s.offsets[tips[i].ref] < UINT32
      && EntryAt(s.table, s.offsets[tips[i].ref], tips[i].ref)
  }

  lemma {:induction false} TipsAreRead(s: Strings, tips: seq<Tip>)
    requires AllTipsTyped(tips) && Resolves(s, tips)
    ensures TipsIn(EncodeTips(s.offsets, tips), s.table, |tips|) == Some(AsRead(tips))
  {
    hide EncodeTip, TipAt, UpToNul, EntryAt;
    if tips != [] {
      var n := |tips| - 1;
      var front, last := tips[..n], tips[n];
      TipsAreRead(s, front);
      var a, b := EncodeTips(s.offsets, front), EncodeTip(s.offsets, last);
      TipsInExtends(a, b, s.table, n);
      assert (a + b)[TIP_SIZE * n..TIP_SIZE * (n + 1)] == b;
      TipIsRead(s.offsets, last, a + b, s.table, n);
      assert AsRead(tips) == AsRead(front) + [Tip(UpToNul(last.ref), last.oid)];
    }
  }

  lemma StringsResolve(tips: seq<Tip>)
    requires |StringsOf(tips).table| < UINT32
    ensures Resolves(StringsOf(tips), tips)
  {
    hide StringsOf;
    forall i | 0 <= i < |tips|
      ensures tips[i].ref in StringsOf(tips).offsets && StringsOf(tips).offsets[tips[i].ref] < UINT32
      ensures EntryAt(StringsOf(tips).table, StringsOf(tips).offsets[tips[i].ref], tips[i].ref)
    {
      StringsAreFound(tips, tips[i].ref);
    }
  }

  lemma Section<T>(a: seq<T>, b: seq<T>, c: seq<T>)
    ensures (a + b + c)[|a|..|a| + |b|] == b
  {
    assert a + b + c == a + (b + c);
  }

  /** The four sections are found where the readers look for them. */
  lemma FileSections(head: Bytes, tipBytes: Bytes, records: Bytes, table: Bytes, trailer: Bytes, nTips: nat)
    requires |head| == HEADER_SIZE && |tipBytes| == TIP_SIZE * nTips && |trailer| == TRAILER_SIZE
    ensures var all := head + tipBytes + records + table + trailer;
            && all[..HEADER_SIZE] == head
            && all[|all| - TRAILER_SIZE..] == trailer
            && all[..|all| - TRAILER_SIZE] == head + tipBytes + records + table
            && TipBytes(all, nTips) == tipBytes && RecordBytes(all, nTips) == records + table
  {
    var all := head + tipBytes + records + table + trailer;
    assert all == head + tipBytes + (records + table + trailer);
    Section(head, tipBytes, records + table + trailer);
    assert all == (head + tipBytes) + (records + table) + trailer;
    Section(head + tipBytes, records + table, trailer);
  }

  lemma HeaderFields(nCommits: nat, nTips: nat)
    ensures var h := EncodeHeader(nCommits, nTips);
            && h[..4] == MAGIC && h[4..8] == BigEndian(VERSION_V2, 4)
            && h[8..16] == BigEndian(nCommits, 8) && h[16..20] == BigEndian(nTips, 4)
  {
    hide BigEndian;
    var v, n, t := BigEndian(VERSION_V2, 4), BigEndian(nCommits, 8), BigEndian(nTips, 4);
    var h := EncodeHeader(nCommits, nTips);
    Section(MAGIC, v, n + t + RESERVED);
    assert h == MAGIC + v + (n + t + RESERVED);
    Section(MAGIC + v, n, t + RESERVED);
    assert h == (MAGIC + v) + n + (t + RESERVED);
    Section(MAGIC + v + n, t, RESERVED);
    assert h[..4] == MAGIC;
  }

  lemma HeaderIsRead(sha: Bytes -> Bytes, all: Bytes, nCommits: nat, nTips: nat)
    requires |all| >= HEADER_SIZE + TRAILER_SIZE + TIP_SIZE * nTips
    requires all[..HEADER_SIZE] == EncodeHeader(nCommits, nTips)
    requires all[|all| - TRAILER_SIZE..] == sha(all[..|all| - TRAILER_SIZE])
    requires nCommits <= MAX_INT32 && nTips < UINT32
    ensures HeaderOf(sha, all) == Some(Header(VERSION_V2, nCommits, nTips))
  {
    hide BigEndian, FromBigEndian, EncodeHeader;
    HeaderFields(nCommits, nTips);
    var h := all[..HEADER_SIZE];
    assert all[0..HEADER_SIZE] == h;
    SliceOfSlice(all, 0, HEADER_SIZE, 0, 4);
    assert all[0..4] == all[..4] && h[0..4] == h[..4];
    SliceOfSlice(all, 0, HEADER_SIZE, 4, 8);
    SliceOfSlice(all, 0, HEADER_SIZE, 8, 16);
    SliceOfSlice(all, 0, HEADER_SIZE, 16, 20);
    Pow256Values();
    BigEndianRoundTrip(VERSION_V2, 4);
    BigEndianRoundTrip(nCommits, 8);
    BigEndianRoundTrip(nTips, 4);
  }

  /** A written file of at most 1 GiB is read as the records and tips that went in. */
  lemma AssembledIsRead(sha: Bytes -> Bytes, rs: seq<Record>, tips: seq<Tip>)
    requires forall x :: |sha(x)| == TRAILER_SIZE
    requires AllStorable(VERSION_V2, rs) && AllTipsTyped(tips)
    requires |Content(rs, tips)| + TRAILER_SIZE <= MAX_INDEX_SIZE
    ensures var all, s := Content(rs, tips) + sha(Content(rs, tips)), StringsOf(tips);
            FileOf(sha, all) == Some(File(VERSION_V2, rs, EncodeTips(s.offsets, tips), |tips|, s.table))
    ensures var s := StringsOf(tips);
            TipsIn(EncodeTips(s.offsets, tips), s.table, |tips|) == Some(AsRead(tips))
  {
    hide RecordsIn, EncodeTips, EncodeHeader, EncodeRecords, StringsOf, TipsIn, EntryAt, HeaderOf;
    var s := StringsOf(tips);
    var head, tipBytes := EncodeHeader(|rs|, |tips|), EncodeTips(s.offsets, tips);
    var records := EncodeRecords(VERSION_V2, rs);
    var content := Content(rs, tips);
    var all := content + sha(content);
    FileSections(head, tipBytes, records, s.table, sha(content), |tips|);
    EncodedRecordsAreRead(VERSION_V2, records + s.table, rs, |records|);
    RecordsFit(VERSION_V2, records + s.table, |rs|);
    HeaderIsRead(sha, all, |rs|, |tips|);
    assert (records + s.table)[|records|..] == s.table;
    StringsResolve(tips);
    TipsAreRead(s, tips);
  }

  // ---- Order independence ----

  lemma RecordOrder()
    ensures Preorder(OidAtMost)
  {
    forall a: Record, b: Record ensures OidAtMost(a, b) || OidAtMost(b, a) { LessTotal(a.oid, b.oid); }
    forall a: Record, b: Record, c: Record | OidAtMost(a, b) && OidAtMost(b, c) ensures OidAtMost(a, c) {
      if a.oid != b.oid && b.oid != c.oid { LessTransitive(a.oid, b.oid, c.oid); }
    }
  }

  lemma AtMostTransitive(a: Bytes, b: Bytes, c: Bytes)
    requires AtMost(a, b) && AtMost(b, c)
    ensures AtMost(a, c)
  {
    if a != b && b != c { LessTransitive(a, b, c); }
  }

  lemma TipOrder()
    ensures Preorder(TipAtMost)
    ensures forall a, b :: TipAtMost(a, b) && TipAtMost(b, a) ==> a == b
  {
    forall a: Tip, b: Tip ensures TipAtMost(a, b) || TipAtMost(b, a) {
      LessTotal(a.ref, b.ref);
      LessTotal(a.oid, b.oid);
    }
    forall a: Tip, b: Tip, c: Tip | TipAtMost(a, b) && TipAtMost(b, c) ensures TipAtMost(a, c) {
      if a.ref != b.ref && b.ref != c.ref {
        LessTransitive(a.ref, b.ref, c.ref);
      } else if a.ref == b.ref == c.ref {
        LessAsymmetric(a.ref, a.ref);
        AtMostTransitive(a.oid, b.oid, c.oid);
      }
    }
    forall a: Tip, b: Tip | TipAtMost(a, b) && TipAtMost(b, a) ensures a == b {
      LessAsymmetric(a.ref, b.ref);
      LessAsymmetric(b.ref, b.ref);
      LessAsymmetric(a.oid, b.oid);
    }
  }

  ghost function OidSet(rs: seq<Record>): set<OID> {
    set i | 0 <= i < |rs| :: rs[i].oid
  }

  lemma {:induction false} DistinctIffCount(rs: seq<Record>)
    ensures |OidSet(rs)| <= |rs|
    ensures DistinctOids(rs) <==> |OidSet(rs)| == |rs|
  {
    if rs != [] {
      var front, last := rs[..|rs| - 1], rs[|rs| - 1];
      DistinctIffCount(front);
      assert OidSet(rs) == OidSet(front) + {last.oid};
      assert forall i :: 0 <= i < |front| ==> front[i] == rs[i];
      assert last.oid in OidSet(front) <==> HasOid(front, last.oid);
      if DistinctOids(front) && !HasOid(front, last.oid) {
        DistinctOneMore(front, last);
        assert rs == front + [last];
      }
    }
  }

  lemma SameDistinct(a: seq<Record>, b: seq<Record>)
    requires multiset(a) == multiset(b)
    ensures DistinctOids(a) <==> DistinctOids(b)
  {
    DistinctIffCount(a);
    DistinctIffCount(b);
    forall o ensures o in OidSet(a) <==> o in OidSet(b) { SameOids(a, b, o); }
    assert OidSet(a) == OidSet(b);
    assert |a| == |multiset(a)| == |multiset(b)| == |b|;
  }

  lemma SortSame(a: seq<Record>, b: seq<Record>)
    requires multiset(a) == multiset(b) && DistinctOids(a)
    ensures Sort(a, OidAtMost) == Sort(b, OidAtMost)
  {
    RecordOrder();
    var x, y := Sort(a, OidAtMost), Sort(b, OidAtMost);
    SortSorted(a, OidAtMost);
    SortSorted(b, OidAtMost);
    SameDistinct(a, x);
    forall p, q | p in x && q in x && OidAtMost(p, q) && OidAtMost(q, p) ensures p == q {
      LessAsymmetric(p.oid, q.oid);
    }
    SortedUnique(x, y, OidAtMost);
  }

  /** Any order of the commits and of the tips gives the same bytes, or the same refusal. */
  lemma BuildIsCanonical(sha: Bytes -> Bytes, a: seq<Record>, b: seq<Record>, s: seq<Tip>, t: seq<Tip>)
    requires AllTyped(a) && AllTyped(b) && multiset(a) == multiset(b) && multiset(s) == multiset(t)
    ensures BuildOf(sha, a, s) == BuildOf(sha, b, t)
  {
    hide Sort, Content, TipsKnown, Closed;
    TipOrder();
    SortSorted(s, TipAtMost);
    SortSorted(t, TipAtMost);
    SortedUnique(Sort(s, TipAtMost), Sort(t, TipAtMost), TipAtMost);
    SameDistinct(a, Sort(a, OidAtMost));
    SameDistinct(a, Sort(b, OidAtMost));
    if DistinctOids(a) {
      SortSame(a, b);
    }
  }

  // ---- The round trip ----

  lemma SortedRecordsAscend(commits: seq<Record>)
    requires DistinctOids(commits)
    ensures SortedByOid(Sort(commits, OidAtMost))
  {
    RecordOrder();
    var s := Sort(commits, OidAtMost);
    SortSorted(commits, OidAtMost);
    SameDistinct(commits, s);
    forall i, j | 0 <= i < j < |s| ensures Less(s[i].oid, s[j].oid) {
      assert OidAtMost(s[i], s[j]);
    }
  }

  lemma SameOids(a: seq<Record>, b: seq<Record>, o: OID)
    requires multiset(a) == multiset(b)
    ensures HasOid(a, o) <==> HasOid(b, o)
  {
    if i :| 0 <= i < |a| && a[i].oid == o { var j := SameElements(a, b, i); }
    if i :| 0 <= i < |b| && b[i].oid == o { var j := SameElements(b, a, i); }
  }

  lemma SameClosed(a: seq<Record>, b: seq<Record>)
    requires multiset(a) == multiset(b) && Closed(a)
    ensures Closed(b)
  {
    forall i, j | 0 <= i < |b| && 0 <= j < |b[i].parents| ensures HasOid(b, b[i].parents[j]) {
      var k := SameElements(b, a, i);
      assert HasOid(a, a[k].parents[j]);
      SameOids(a, b, b[i].parents[j]);
    }
  }

  lemma SameTipsKnown(a: seq<Record>, b: seq<Record>, s: seq<Tip>, t: seq<Tip>)
    requires multiset(a) == multiset(b) && multiset(s) == multiset(t) && TipsKnown(s, a)
    ensures TipsKnown(t, b)
  {
    forall i | 0 <= i < |t| ensures HasOid(b, t[i].oid) {
      var k := SameElements(t, s, i);
      SameOids(a, b, t[i].oid);
    }
  }

  lemma SameFewParents(a: seq<Record>, b: seq<Record>)
    requires multiset(a) == multiset(b) && FewParents(a)
    ensures FewParents(b)
  {
    forall i | 0 <= i < |b| ensures |b[i].parents| <= MAX_PARENTS { var k := SameElements(b, a, i); }
  }

  /** The writer refuses exactly repeated commits, too many parents, unknown tips and dangling parents. */
  lemma BuildSucceedsIff(sha: Bytes -> Bytes, commits: seq<Record>, tips: seq<Tip>)
    requires AllTyped(commits)
    ensures BuildOf(sha, commits, tips).Some?
            <==> DistinctOids(commits) && FewParents(commits) && TipsKnown(tips, commits) && Closed(commits)
  {
    hide Sort, Content;
    var rs, ts := Sort(commits, OidAtMost), Sort(tips, TipAtMost);
    SameDistinct(commits, rs);
    if FewParents(commits) { SameFewParents(commits, rs); }
    if FewParents(rs) { SameFewParents(rs, commits); }
    if Closed(commits) { SameClosed(commits, rs); }
    if Closed(rs) { SameClosed(rs, commits); }
    if TipsKnown(tips, commits) { SameTipsKnown(commits, rs, tips, ts); }
    if TipsKnown(ts, rs) { SameTipsKnown(rs, commits, ts, tips); }
  }

  /** The same, in terms of the commits and tips themselves. */
  lemma RefusedIff(sha: Bytes -> Bytes, commits: seq<Record>, tips: seq<Tip>)
    requires AllTyped(commits)
    ensures BuildOf(sha, commits, tips).Some? <==>
              && (forall i, j :: 0 <= i < j < |commits| ==> commits[i].oid != commits[j].oid)
              && (forall i :: 0 <= i < |commits| ==> |commits[i].parents| <= 255)
              && (forall t :: t in tips ==> exists k :: 0 <= k < |commits| && commits[k].oid == t.oid)
              && (forall i, p :: 0 <= i < |commits| && p in commits[i].parents ==> exists k :: 0 <= k < |commits| && commits[k].oid == p)
  {
    hide BuildOf, Closed, TipsKnown;
    BuildSucceedsIff(sha, commits, tips);
    ClosedIff(commits);
    KnownIff(tips, commits);
  }

  lemma SortKeepsTips(tips: seq<Tip>)
    requires AllTipsTyped(tips)
    ensures AllTipsTyped(Sort(tips, TipAtMost))
  {
    var s := Sort(tips, TipAtMost);
    forall i | 0 <= i < |s| ensures s[i].Typed() { var j := SameElements(s, tips, i); }
  }

  /** Reading back what was written, up to 1 GiB: the file loads, its records are the commits
      in object id order with generations and ordered parents, and its tips are the sorted
      tips with each ref name cut at its first NUL. */
  lemma RoundTrip(sha: Bytes -> Bytes, commits: seq<Record>, tips: seq<Tip>)
    requires forall x :: |sha(x)| == TRAILER_SIZE
    requires AllTyped(commits) && AllTipsTyped(tips)
    requires BuildOf(sha, commits, tips).Some? && |BuildOf(sha, commits, tips).value| <= MAX_INDEX_SIZE
    ensures var all := BuildOf(sha, commits, tips).value;
            && Loadable(sha, all)
            && var f := FileOf(sha, all).value;
               && f.version == VERSION_V2 && f.records == Sort(commits, OidAtMost) && SortedByOid(f.records)
               && TipsIn(f.tipBytes, f.stringTable, f.nTips) == Some(AsRead(Sort(tips, TipAtMost)))
  {
    hide Sort, Content, FileOf, TipsIn, TipsKnown, Closed, UpToNul, EncodeTips, StringsOf;
    BuildSucceedsIff(sha, commits, tips);
    var rs, ts := Sort(commits, OidAtMost), Sort(tips, TipAtMost);
    SortKeepsTyped(commits);
    SortKeepsTips(tips);
    AssembledIsRead(sha, rs, ts);
    SortedRecordsAscend(commits);
    AsReadKnown(ts, rs);
  }

  lemma AsReadKnown(tips: seq<Tip>, rs: seq<Record>)
    ensures TipsKnown(AsRead(tips), rs) <==> TipsKnown(tips, rs)
  {
    assert forall i :: 0 <= i < |tips| ==> AsRead(tips)[i].oid == tips[i].oid;
  }

  lemma AsReadIffNulFree(tips: seq<Tip>)
    ensures AsRead(tips) == tips <==> NulFree(tips)
  {
    forall i | 0 <= i < |tips| ensures UpToNul(tips[i].ref) == tips[i].ref <==> 0 !in tips[i].ref {
      if 0 in tips[i].ref { assert |UpToNul(tips[i].ref)| < |tips[i].ref|; }
    }
    if AsRead(tips) == tips {
      forall i | 0 <= i < |tips| ensures 0 !in tips[i].ref {
        assert AsRead(tips)[i] == tips[i];
      }
    }
  }

  lemma SortKeepsNulFree(tips: seq<Tip>)
    ensures NulFree(Sort(tips, TipAtMost)) <==> NulFree(tips)
  {
    hide Sort;
    var s := Sort(tips, TipAtMost);
    if NulFree(tips) {
      forall i | 0 <= i < |s| ensures 0 !in s[i].ref { var j := SameElements(s, tips, i); }
    }
    if NulFree(s) {
      forall i | 0 <= i < |tips| ensures 0 !in tips[i].ref { var j := SameElements(tips, s, i); }
    }
  }

  /** The reader gets the written tips back, sorted, exactly when no ref name contains a NUL. */
  lemma TipsSurviveIffNulFree(sha: Bytes -> Bytes, commits: seq<Record>, tips: seq<Tip>)
    requires forall x :: |sha(x)| == TRAILER_SIZE
    requires AllTyped(commits) && AllTipsTyped(tips)
    requires BuildOf(sha, commits, tips).Some? && |BuildOf(sha, commits, tips).value| <= MAX_INDEX_SIZE
    ensures var all := BuildOf(sha, commits, tips).value;
            && FileOf(sha, all).Some?
            && var f := FileOf(sha, all).value;
               TipsIn(f.tipBytes, f.stringTable, f.nTips) == Some(Sort(tips, TipAtMost)) <==> NulFree(tips)
  {
    hide Sort, FileOf, TipsIn, BuildOf, NulFree, UpToNul, SortedByOid;
    RoundTrip(sha, commits, tips);
    AsReadIffNulFree(Sort(tips, TipAtMost));
    SortKeepsNulFree(tips);
  }

  /** The tips come back by ref name, and those of one name by object id: for names without a NUL, the
      tips read from a built file are the input in that order. */
  lemma TipsComeBackInOrder(sha: Bytes -> Bytes, commits: seq<Record>, tips: seq<Tip>)
    requires forall x :: |sha(x)| == TRAILER_SIZE
    requires AllTyped(commits) && AllTipsTyped(tips) && forall i :: 0 <= i < |tips| ==> 0 !in tips[i].ref
    requires BuildOf(sha, commits, tips).Some? && |BuildOf(sha, commits, tips).value| <= MAX_INDEX_SIZE
    ensures var file := FileOf(sha, BuildOf(sha, commits, tips).value);
            && file.Some? && multiset(file.value.records) == multiset(commits)
            && var read := TipsIn(file.value.tipBytes, file.value.stringTable, file.value.nTips);
               && read.Some? && multiset(read.value) == multiset(tips)
               && forall i, j :: 0 <= i < j < |read.value| ==>
                    || Less(read.value[i].ref, read.value[j].ref)
                    || (read.value[i].ref == read.value[j].ref && AtMost(read.value[i].oid, read.value[j].oid))
  {
    hide FileOf, TipsIn, BuildOf, SortedByOid, Less, Sort;
    RoundTrip(sha, commits, tips);
    TipsSurviveIffNulFree(sha, commits, tips);
    TipOrder();
    SortSorted(tips, TipAtMost);
    forall i, j | 0 <= i < j < |Sort(tips, TipAtMost)|
      ensures TipAtMost(Sort(tips, TipAtMost)[i], Sort(tips, TipAtMost)[j])
    {}
  }

  // ---- The string table ----

  /** The ref names of the tips, each once, in order of first use. */
  function Names(tips: seq<Tip>): (ns: seq<Bytes>)
    ensures forall r :: r in ns <==> exists i :: 0 <= i < |tips| && tips[i].ref == r
    ensures forall i, j :: 0 <= i < j < |ns| ==> ns[i] != ns[j]
  {
    if tips == [] then []
    else
      var front, last := tips[..|tips| - 1], tips[|tips| - 1];
      assert forall i :: 0 <= i < |front| ==> front[i] == tips[i];
      if last.ref in Names(front) then Names(front) else Names(front) + [last.ref]
  }

  function Terminated(ns: seq<Bytes>): Bytes {
    if ns == [] then [] else Terminated(ns[..|ns| - 1]) + ns[|ns| - 1] + [0]
  }

  /** The string table is the distinct names, each followed by a NUL. */
  lemma {:induction false} TableIsNames(tips: seq<Tip>)
    ensures StringsOf(tips).table == Terminated(Names(tips))
    ensures StringsOf(tips).offsets.Keys == set r | r in Names(tips)
  {
    if tips != [] {
      var front, last := tips[..|tips| - 1], tips[|tips| - 1];
      TableIsNames(front);
      if last.ref !in Names(front) {
        assert Names(tips)[..|Names(tips)| - 1] == Names(front);
      }
    }
  }

  /** The names in a written file ascend. */
  lemma {:induction false} NamesAscend(tips: seq<Tip>)
    requires forall i, j :: 0 <= i < j < |tips| ==> AtMost(tips[i].ref, tips[j].ref)
    ensures forall i, j :: 0 <= i < j < |Names(tips)| ==> Less(Names(tips)[i], Names(tips)[j])
  {
    hide Less;
    if tips != [] {
      var front, last := tips[..|tips| - 1], tips[|tips| - 1];
      NamesAscend(front);
      var ns := Names(front);
      if last.ref !in ns {
        forall i | 0 <= i < |ns| ensures Less(ns[i], last.ref) {
          assert ns[i] in ns;
          var k :| 0 <= k < |front| && front[k].ref == ns[i];
          assert front[k] == tips[k];
        }
      }
    }
  }

  /** One commit and a tip whose ref name has a NUL in it: the file is written and read, and the
      name comes back cut. */
  lemma NulIsCut(sha: Bytes -> Bytes, oid: OID)
    requires (forall x :: |sha(x)| == TRAILER_SIZE) && |oid| == OID_SIZE
    ensures var built := BuildOf(sha, [Record(oid, 1, [])], [Tip([0x61, 0, 0x62], oid)]);
            && built.Some? && FileOf(sha, built.value).Some?
            && var f := FileOf(sha, built.value).value;
               TipsIn(f.tipBytes, f.stringTable, f.nTips) == Some([Tip([0x61], oid)])
  {
    var commits, tips := [Record(oid, 1, [])], [Tip([0x61, 0, 0x62], oid)];
    OneCommitIsBuilt(sha, oid);
    SortOne(tips[0], TipAtMost);
    assert AllTyped(commits) && AllTipsTyped(tips);
    hide FileOf, TipsIn, BuildOf, Sort, SortedByOid, UpToNul, Loadable;
    RoundTrip(sha, commits, tips);
    NulCuts(oid);
  }

  lemma NulCuts(oid: OID)
    ensures AsRead([Tip([0x61, 0, 0x62], oid)]) == [Tip([0x61], oid)]
  {
    IndexByteIsFirst([0x61, 0, 0x62], 0, 1);
    assert UpToNul([0x61, 0, 0x62]) == [0x61];
  }

  lemma OneCommitIsSmall(r: Record, t: Tip)
    requires Storable(VERSION_V2, r) && r.parents == [] && t.Typed() && |t.ref| < 256
    ensures AllStorable(VERSION_V2, [r]) && |Content([r], [t])| < 1024
  {
    assert [r][..0] == [] && [t][..0] == [];
    assert AllTipsTyped([t]);
    var s := StringsOf([t]);
    assert s == AddString(StringsOf([t][..0]), t.ref) && StringsOf([t][..0]) == Strings(map[], []);
    assert s.table == [] + t.ref + [0];
    assert EncodeRecords(VERSION_V2, [r]) == [] + EncodeRecord(VERSION_V2, r);
    hide EncodeHeader, EncodeTips, EncodeRecord, EncodeRecords, StringsOf;
  }

  lemma SortOne<T>(x: T, le: (T, T) -> bool)
    ensures Sort([x], le) == [x]
  {}

  lemma OneCommitIsBuilt(sha: Bytes -> Bytes, oid: OID)
    requires (forall x :: |sha(x)| == TRAILER_SIZE) && |oid| == OID_SIZE
    ensures var built := BuildOf(sha, [Record(oid, 1, [])], [Tip([0x61, 0, 0x62], oid)]);
            built.Some? && |built.value| <= MAX_INDEX_SIZE
  {
    var r, t := Record(oid, 1, []), Tip([0x61, 0, 0x62], oid);
    var commits, tips := [r], [t];
    assert AllTyped(commits) && DistinctOids(commits) && FewParents(commits) && Closed(commits);
    assert commits[0].oid == oid;
    assert HasOid(commits, oid) && TipsKnown(tips, commits);
    hide Sort, Content, DistinctOids, FewParents, TipsKnown, Closed, HasOid;
    SortOne(r, OidAtMost);
    SortOne(t, TipAtMost);
    OneCommitIsSmall(r, t);
  }

  // ---- From commits to the file ----

  function AsCommits(commits: seq<Record>): (cs: seq<Generations.Commit<OID>>)
    ensures |cs| == |commits|
    ensures forall i :: 0 <= i < |commits| ==> cs[i] == Generations.Commit(commits[i].oid, commits[i].parents)
  {
    seq(|commits|, i requires 0 <= i < |commits| => Generations.Commit(commits[i].oid, commits[i].parents))
  }

  /** Numbers the commits and writes the file; each stored generation of an acyclic commit set
      is the length of the longest parent chain. */
  method BuildNumbered(sha: Bytes -> Bytes, commits: seq<Record>, tips: seq<Tip>)
    returns (numbered: seq<Record>, r: Option<Bytes>)
    requires AllTyped(commits)
    ensures |numbered| == |commits| && AllTyped(numbered) && r == BuildOf(sha, numbered, tips)
    ensures forall i :: 0 <= i < |commits| ==> numbered[i] == commits[i].(generation := numbered[i].generation)
    ensures Generations.Acyclic(AsCommits(commits)) && |commits| < UINT32 ==>
              forall i :: 0 <= i < |commits| ==>
                Generations.Longest(AsCommits(commits), commits[i].oid, numbered[i].generation)
  {
    hide Generations.Acyclic, Generations.Longest, BuildOf;
    var gens := Generations.ComputeGenerations(AsCommits(commits));
    numbered := [];
    for n := 0 to |commits|
      invariant |numbered| == n
      invariant forall i :: 0 <= i < n ==> AsCommits(commits)[i].oid in gens
      invariant forall i :: 0 <= i < n ==> numbered[i] == commits[i].(generation := gens[commits[i].oid])
    {
      assert AsCommits(commits)[n].oid in gens;
      numbered := numbered + [commits[n].(generation := gens[commits[n].oid])];
    }
    r := Build(sha, numbered, tips);
  }
}
