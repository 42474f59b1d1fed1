/** Newest-first pagination over day-partitioned audit objects. A day is the
    number of its UTC date; object names compare as strings within a day. */
module AuditPage {
  import opened Wrappers
  import opened Order
  import opened Sorting

  const MAX_DAY_LISTS := 100
  const DEFAULT_PER_PAGE := 20
  const SECONDS_PER_DAY := 86400

  /** A key under the log prefix: in a day partition, or outside the layout. */
  datatype Key = Dated(day: int, name: string) | Undated(text: string)

  predicate IsMarker(k: Key) {
    match k
    case Dated(_, name) => name == "" || name[|name| - 1] == '/'
    case Undated(text) => text == "" || text[|text| - 1] == '/'
  }

  predicate KeyLess(a: Key, b: Key) {
    a.Dated? && b.Dated? && (a.day < b.day || (a.day == b.day && StringLess(a.name, b.name)))
  }

  predicate NewerOrSame(a: Key, b: Key) {
    !KeyLess(a, b)
  }

  // ---- Events ----

  datatype Event = Event(ts: int, event: string, tenant: string, repo: string, actor: string)

  datatype Filter = Filter(eventPrefix: string, tenant: string, repo: string, actor: string,
                           since: Option<int>, until: Option<int>)
  {
    predicate Match(e: Event) {
      && (eventPrefix != "" ==> eventPrefix <= e.event)
      && (tenant != "" ==> e.tenant == tenant)
      && (repo != "" ==> e.repo == repo)
      && (actor != "" ==> e.actor == actor)
      && (since.Some? ==> e.ts >= since.value)
      && (until.Some? ==> e.ts <= until.value)
    }
  }

  /** What reading one object gave: a failed get or decode, or its events and size. */
  datatype Reading = Failed | Decoded(events: seq<Event>, size: nat)

  function Matched(f: Filter, r: Reading): seq<Event> {
    match r
    case Failed => []
    case Decoded(evs, _) => Sorting.Filter(evs, (e: Event) => f.Match(e))
  }

  function AllMatched(f: Filter, ks: seq<Key>, read: Key -> Reading): seq<Event> {
    if ks == [] then [] else AllMatched(f, ks[..|ks| - 1], read) + Matched(f, read(ks[|ks| - 1]))
  }

  predicate NewestFirst(a: Event, b: Event) {
    a.ts >= b.ts
  }

  // ---- Listing ----

  /** All keys under the prefix in listing order; pages hold at most `pageSize` of them. The listing
      of the whole prefix may fail, and that of some days. */
  datatype Store = Store(listing: seq<Key>, pageSize: nat, probeDown: bool, downDays: set<int>)

  /** Dated keys are listed in ascending order, and the first key that is not a marker is dated;
      stray keys may follow. */
  ghost predicate WellFormed(s: Store) {
    && s.pageSize > 0
    && (FirstShipped(s.listing).Some? ==> FirstShipped(s.listing).value.Dated?)
    && (forall i, j :: 0 <= i < j < |s.listing| && s.listing[i].Dated? && s.listing[j].Dated?
                       ==> KeyLess(s.listing[i], s.listing[j]))
  }

  predicate Up(s: Store) {
    !s.probeDown && s.downDays == {}
  }

  /** Every name shipped on `day` sorts below "~". */
  ghost predicate DayBelowMark(s: Store, day: int) {
    forall k :: k in s.listing && OnDay(k, day) ==> StringLess(k.name, "~")
  }

  predicate OnDay(k: Key, day: int) {
    k.Dated? && k.day == day && !IsMarker(k)
  }

  /** The shipped objects of one day, newest first. */
  function DayKeys(listing: seq<Key>, day: int): seq<Key> {
    Sort(Sorting.Filter(listing, ShippedOn(day)), NewerOrSame)
  }

  function ShippedOn(day: int): Key -> bool {
    (k: Key) => OnDay(k, day)
  }

  /** The first listed key that is not a folder marker. */
  function FirstShipped(listing: seq<Key>): Option<Key> {
    if listing == [] then None
    else if !IsMarker(listing[0]) then Some(listing[0])
    else FirstShipped(listing[1..])
  }

  lemma {:induction false} FirstShippedIsFirst(listing: seq<Key>, j: nat) returns (i: nat)
    requires j < |listing| && !IsMarker(listing[j])
    ensures i <= j && !IsMarker(listing[i]) && FirstShipped(listing) == Some(listing[i])
  {
    if IsMarker(listing[0]) {
      i := FirstShippedIsFirst(listing[1..], j - 1);
      i := i + 1;
    } else {
      i := 0;
    }
  }

  lemma {:induction false} FirstShippedIsListed(listing: seq<Key>)
    ensures FirstShipped(listing).Some? ==> FirstShipped(listing).value in listing && !IsMarker(FirstShipped(listing).value)
    ensures FirstShipped(listing).None? ==> forall k :: k in listing ==> IsMarker(k)
  {
    if listing != [] { FirstShippedIsListed(listing[1..]); }
  }

  lemma FirstShippedStep(listing: seq<Key>, i: nat)
    requires i < |listing|
    ensures FirstShipped(listing[i..]) == if IsMarker(listing[i]) then FirstShipped(listing[i + 1..]) else Some(listing[i])
  {
    assert listing[i..][0] == listing[i] && listing[i..][1..] == listing[i + 1..];
  }

  // ---- What remains after a cursor ----

  predicate Before(k: Key, cursor: Option<Key>) {
    cursor.None? || KeyLess(k, cursor.value)
  }

  function BeforeCursor(cursor: Option<Key>): Key -> bool {
    (k: Key) => Before(k, cursor)
  }

  function Older(ks: seq<Key>, cursor: Option<Key>): seq<Key> {
    Sorting.Filter(ks, BeforeCursor(cursor))
  }

  lemma OlderOneMore(ks: seq<Key>, i: nat, cursor: Option<Key>)
    requires i < |ks|
    ensures Older(ks[..i + 1], cursor)
            == if Before(ks[i], cursor) then Older(ks[..i], cursor) + [ks[i]] else Older(ks[..i], cursor)
  {
    hide Sorting.Filter, Before;
    FilterOneMore(ks[..i], ks[i], BeforeCursor(cursor));
    assert ks[..i + 1] == ks[..i] + [ks[i]];
  }

  /** The walk from `day` down to `floor`: every key before the cursor. */
  function Walk(listing: seq<Key>, day: int, floor: int, cursor: Option<Key>): seq<Key>
    decreases day - floor + 1
  {
    if day < floor then []
    else Older(DayKeys(listing, day), cursor) + Walk(listing, day - 1, floor, cursor)
  }

  function DayOfTime(t: int): int {
    t / SECONDS_PER_DAY
  }

  function StartDay(f: Filter, now: int, cursor: Option<Key>): int
    requires cursor.Some? ==> cursor.value.Dated?
  {
    var day := if cursor.Some? then cursor.value.day else DayOfTime(now);
    if f.until.Some? && DayOfTime(f.until.value) + 1 < day then DayOfTime(f.until.value) + 1 else day
  }

  function FloorDay(f: Filter, oldest: int): int {
    if f.since.Some? && DayOfTime(f.since.value) > oldest then DayOfTime(f.since.value) else oldest
  }

  /** Everything the pages from `cursor` on have to deliver, newest first. */
  function Remaining(s: Store, f: Filter, now: int, cursor: Option<Key>): seq<Key>
    requires cursor.Some? ==> cursor.value.Dated?
  {
    match FirstShipped(s.listing)
    case Some(Dated(oldest, _)) => Walk(s.listing, StartDay(f, now, cursor), FloorDay(f, oldest), cursor)
    case _ => []
  }

  // ---- Order facts ----

  lemma KeyLessTransitive(a: Key, b: Key, c: Key)
    requires KeyLess(a, b) && KeyLess(b, c)
    ensures KeyLess(a, c)
  {
    if a.day == b.day == c.day { LessTransitive(Codes(a.name), Codes(b.name), Codes(c.name)); }
  }

  lemma KeyLessIrreflexive(a: Key, b: Key)
    ensures !(KeyLess(a, b) && KeyLess(b, a)) && !KeyLess(a, a)
  {
    if a.Dated? { LessAsymmetric(Codes(a.name), Codes(a.name)); }
    if a.Dated? && b.Dated? { LessAsymmetric(Codes(a.name), Codes(b.name)); }
  }

  predicate StrictlyDescending(ks: seq<Key>) {
    forall i, j :: 0 <= i < j < |ks| ==> KeyLess(ks[j], ks[i])
  }

  predicate StrictlyAscending(ks: seq<Key>) {
    forall i, j :: 0 <= i < j < |ks| ==> KeyLess(ks[i], ks[j])
  }

  /** Filtering the dated keys of a well-formed listing keeps them ascending. */
  lemma {:induction false} FilterAscends(s: seq<Key>, p: Key -> bool)
    requires forall k :: k in s && p(k) ==> k.Dated?
    requires forall i, j :: 0 <= i < j < |s| && s[i].Dated? && s[j].Dated? ==> KeyLess(s[i], s[j])
    ensures StrictlyAscending(Sorting.Filter(s, p))
  {
    if s != [] {
      var rest := s[1..];
      assert forall i :: 0 <= i < |rest| ==> rest[i] == s[i + 1];
      FilterAscends(rest, p);
      var t := Sorting.Filter(rest, p);
      if p(s[0]) {
        forall j | 0 <= j < |t| ensures KeyLess(s[0], t[j]) {
          FilterMembers(rest, p, t[j]);
          var i :| 0 <= i < |rest| && rest[i] == t[j];
          assert s[i + 1].Dated?;
        }
      }
    }
  }

  lemma {:induction false} InsertLast(x: Key, s: seq<Key>)
    requires forall i :: 0 <= i < |s| ==> KeyLess(x, s[i])
    ensures Insert(x, s, NewerOrSame) == s + [x]
  {
    if s != [] {
      assert !NewerOrSame(x, s[0]);
      InsertLast(x, s[1..]);
    }
  }

  /** Sorting an ascending list newest first reverses it. */
  lemma {:induction false} SortDescends(s: seq<Key>)
    requires StrictlyAscending(s)
    ensures StrictlyDescending(Sort(s, NewerOrSame)) && forall k :: k in Sort(s, NewerOrSame) <==> k in s
  {
    if s != [] {
      SortDescends(s[1..]);
      var t := Sort(s[1..], NewerOrSame);
      forall i | 0 <= i < |t| ensures KeyLess(s[0], t[i]) {
        assert t[i] in s[1..];
      }
      InsertLast(s[0], t);
      assert s == [s[0]] + s[1..];
    }
  }

  lemma DayKeysOrdered(s: Store, day: int)
    requires WellFormed(s)
    ensures StrictlyDescending(DayKeys(s.listing, day))
    ensures forall k :: k in DayKeys(s.listing, day) <==> k in s.listing && OnDay(k, day)
  {
    hide Sort, Sorting.Filter;
    var p := ShippedOn(day);
    FilterAscends(s.listing, p);
    SortDescends(Sorting.Filter(s.listing, p));
    forall k ensures k in DayKeys(s.listing, day) <==> k in s.listing && OnDay(k, day) {
      FilterMembers(s.listing, p, k);
    }
  }

  // ---- Cursor facts ----

  /** Keys of an earlier day all lie before the cursor. */
  lemma EarlierDayIsOlder(s: Store, day: int, cursor: Option<Key>)
    requires WellFormed(s) && (cursor.Some? ==> cursor.value.Dated? && day < cursor.value.day)
    ensures Older(DayKeys(s.listing, day), cursor) == DayKeys(s.listing, day)
  {
    DayKeysOrdered(s, day);
    FilterAll(DayKeys(s.listing, day), BeforeCursor(cursor));
  }

  lemma {:induction false} WalkSame(s: Store, day: int, floor: int, a: Option<Key>, b: Option<Key>)
    requires WellFormed(s)
    requires a.Some? ==> a.value.Dated? && day < a.value.day
    requires b.Some? ==> b.value.Dated? && day < b.value.day
    ensures Walk(s.listing, day, floor, a) == Walk(s.listing, day, floor, b)
    decreases day - floor + 1
  {
    hide DayKeys, Older;
    if day >= floor {
      EarlierDayIsOlder(s, day, a);
      EarlierDayIsOlder(s, day, b);
      WalkSame(s, day - 1, floor, a, b);
    }
  }

  /** A cursor at one of the day's keys leaves exactly the keys after it. */
  lemma CutAtKey(ks: seq<Key>, i: nat)
    requires StrictlyDescending(ks) && i < |ks|
    ensures Older(ks, Some(ks[i])) == ks[i + 1..]
  {
    var p := BeforeCursor(Some(ks[i]));
    assert ks == ks[..i + 1] + ks[i + 1..];
    FilterAppend(ks[..i + 1], ks[i + 1..], p);
    forall x | x in ks[..i + 1] ensures !p(x) {
      var j :| 0 <= j <= i && ks[j] == x;
      KeyLessIrreflexive(ks[i], ks[j]);
    }
    FilterNone(ks[..i + 1], p);
    FilterAll(ks[i + 1..], p);
  }

  lemma TailIsOlder(ks: seq<Key>, i: nat, cursor: Option<Key>)
    requires StrictlyDescending(ks) && i < |ks| && Before(ks[i], cursor)
    ensures Older(ks[i + 1..], cursor) == ks[i + 1..]
  {
    forall x | x in ks[i + 1..] ensures Before(x, cursor) {
      var j :| i < j < |ks| && ks[j] == x;
      if cursor.Some? { KeyLessTransitive(ks[j], ks[i], cursor.value); }
    }
    FilterAll(ks[i + 1..], BeforeCursor(cursor));
  }

  /** Stopping after `ks[i]` of `day`: what is left is what a page from that key on sees. */
  lemma RemainingAtKey(s: Store, day: int, floor: int, cursor: Option<Key>, i: nat)
    requires WellFormed(s) && floor <= day && (cursor.Some? ==> cursor.value.Dated? && day <= cursor.value.day)
    requires i < |DayKeys(s.listing, day)| && Before(DayKeys(s.listing, day)[i], cursor)
    ensures var ks := DayKeys(s.listing, day);
            Walk(s.listing, day, floor, Some(ks[i]))
            == Older(ks[i + 1..], cursor) + Walk(s.listing, day - 1, floor, cursor)
  {
    var ks := DayKeys(s.listing, day);
    DayKeysOrdered(s, day);
    assert ks[i] in ks;
    CutAtKey(ks, i);
    TailIsOlder(ks, i, cursor);
    WalkSame(s, day - 1, floor, cursor, Some(ks[i]));
  }

  /** The synthetic cursor of a day. */
  function DayMark(day: int): Key {
    Dated(day, "~")
  }

  lemma MarkKeepsDayIff(s: Store, day: int)
    requires WellFormed(s)
    ensures if DayBelowMark(s, day)
            then Older(DayKeys(s.listing, day), Some(DayMark(day))) == DayKeys(s.listing, day)
            else |Older(DayKeys(s.listing, day), Some(DayMark(day)))| < |DayKeys(s.listing, day)|
  {
    var p, ks := BeforeCursor(Some(DayMark(day))), DayKeys(s.listing, day);
    DayKeysOrdered(s, day);
    hide DayKeys;
    if DayBelowMark(s, day) {
      FilterAll(ks, p);
    } else {
      var k :| k in s.listing && OnDay(k, day) && !StringLess(k.name, "~");
      FilterShrinks(ks, p, k);
    }
  }

  lemma {:induction false} FilterShrinks(ks: seq<Key>, p: Key -> bool, k: Key)
    requires k in ks && !p(k)
    ensures |Sorting.Filter(ks, p)| < |ks|
  {
    if k in ks[1..] { FilterShrinks(ks[1..], p, k); } else { FilterNoLonger(ks[1..], p); }
  }

  lemma {:induction false} FilterNoLonger(ks: seq<Key>, p: Key -> bool)
    ensures |Sorting.Filter(ks, p)| <= |ks|
  {
    if ks != [] { FilterNoLonger(ks[1..], p); }
  }

  /** The synthetic cursor of a day that was not listed yet leaves everything that remains exactly
      when every name on that day sorts below "~"; otherwise objects are lost. */
  lemma RemainingAtDayIff(s: Store, day: int, floor: int, cursor: Option<Key>)
    requires WellFormed(s) && floor <= day && (cursor.Some? ==> cursor.value.Dated? && day < cursor.value.day)
    ensures var left, all := Walk(s.listing, day, floor, Some(DayMark(day))), Walk(s.listing, day, floor, cursor);
            if DayBelowMark(s, day) then left == all else |left| < |all|
  {
    hide DayKeys, Older, DayBelowMark;
    MarkKeepsDayIff(s, day);
    EarlierDayIsOlder(s, day, cursor);
    WalkSame(s, day - 1, floor, cursor, Some(DayMark(day)));
  }

  // ---- The walk covers the range ----

  lemma {:induction false} WalkCovers(s: Store, day: int, floor: int, k: Key)
    requires WellFormed(s)
    ensures k in Walk(s.listing, day, floor, None)
            <==> k in s.listing && k.Dated? && !IsMarker(k) && floor <= k.day <= day
    decreases day - floor + 1
  {
    hide DayKeys, Older;
    if day >= floor {
      DayKeysOrdered(s, day);
      EarlierDayIsOlder(s, day, None);
      WalkCovers(s, day - 1, floor, k);
    }
  }

  lemma {:induction false} WalkDescends(s: Store, day: int, floor: int)
    requires WellFormed(s)
    ensures StrictlyDescending(Walk(s.listing, day, floor, None))
    decreases day - floor + 1
  {
    hide DayKeys, Older;
    if day >= floor {
      var a, b := DayKeys(s.listing, day), Walk(s.listing, day - 1, floor, None);
      DayKeysOrdered(s, day);
      EarlierDayIsOlder(s, day, None);
      WalkDescends(s, day - 1, floor);
      forall i, j | 0 <= i < |a| && 0 <= j < |b| ensures KeyLess(b[j], a[i]) {
        WalkCovers(s, day - 1, floor, b[j]);
        assert a[i] in a && b[j] in b;
      }
    }
  }

  // ---- The store calls ----

  datatype Failure = BadLayout | BadCursor | ListFailed

  /** Probes for the oldest partition, page by page. */
  method OldestDay(s: Store) returns (r: Result<Option<int>, Failure>)
    requires s.pageSize > 0
    ensures s.probeDown ==> r == Err(ListFailed)
    ensures !s.probeDown ==>
              match FirstShipped(s.listing)
              case None => r == Ok(None)
              case Some(Dated(day, _)) => r == Ok(Some(day))
              case Some(Undated(_)) => r == Err(BadLayout)
  {
    if s.probeDown {
      return Err(ListFailed);
    }
    assert s.listing[0..] == s.listing && FirstShipped(s.listing[|s.listing|..]) == None;
    hide FirstShipped, IsMarker;
    var token := 0;
    while true
      invariant 0 <= token <= |s.listing|
      invariant FirstShipped(s.listing[token..]) == FirstShipped(s.listing)
      decreases |s.listing| - token
    {
      var end := if token + s.pageSize < |s.listing| then token + s.pageSize else |s.listing|;
      for i := token to end
        invariant FirstShipped(s.listing[i..]) == FirstShipped(s.listing)
      {
        var k := s.listing[i];
        FirstShippedStep(s.listing, i);
        if IsMarker(k) {
          continue;
        }
        match k
        case Dated(day, _) => return Ok(Some(day));
        case Undated(_) => return Err(BadLayout);
      }
      if end == |s.listing| {
        return Ok(None);
      }
      token := end;
    }
  }

  method KeepShipped(page: seq<Key>, out: seq<Key>) returns (keys: seq<Key>)
    ensures keys == out + Sorting.Filter(page, Shipped)
  {
    keys := out;
    for i := 0 to |page|
      invariant keys == out + Sorting.Filter(page[..i], Shipped)
    {
      FilterOneMore(page[..i], page[i], Shipped);
      assert page[..i + 1] == page[..i] + [page[i]];
      if IsMarker(page[i]) {
        continue;
      }
      keys := keys + [page[i]];
    }
    assert page[..|page|] == page;
  }

  predicate Shipped(k: Key) {
    !IsMarker(k)
  }

  /** Goes through a listing page by page and keeps what was shipped. */
  method ListPages(under: seq<Key>, pageSize: nat) returns (keys: seq<Key>)
    requires pageSize > 0
    ensures keys == Sorting.Filter(under, Shipped)
  {
    keys := [];
    assert Sorting.Filter(under[..0], Shipped) == [];
    hide Sorting.Filter, Shipped;
    var token := 0;
    while true
      invariant 0 <= token <= |under| && keys == Sorting.Filter(under[..token], Shipped)
      decreases |under| - token
    {
      var end := if token + pageSize < |under| then token + pageSize else |under|;
      keys := KeepShipped(under[token..end], keys);
      FilterAppend(under[..token], under[token..end], Shipped);
      assert under[..token] + under[token..end] == under[..end];
      if end == |under| {
        assert under[..end] == under;
        break;
      }
      token := end;
    }
  }

  /** Lists one partition page by page and turns it newest first. */
  method ListDay(s: Store, day: int) returns (ok: bool, keys: seq<Key>)
    requires s.pageSize > 0
    ensures ok <==> day !in s.downDays
    ensures ok ==> keys == DayKeys(s.listing, day)
  {
    if day in s.downDays {
      return false, [];
    }
    var inDay := (k: Key) => k.Dated? && k.day == day;
    FilterTwice(s.listing, inDay, Shipped, ShippedOn(day));
    hide Sorting.Filter, Sort;
    keys := ListPages(Sorting.Filter(s.listing, inDay), s.pageSize);
    keys := Sort(keys, NewerOrSame);
    ok := true;
  }

  // ---- One page ----

  datatype Limits = Limits(objectsPerPage: int, maxBytes: int, maxEvents: int) {
    function PerPage(): int { if objectsPerPage <= 0 then DEFAULT_PER_PAGE else objectsPerPage }

    predicate Full(consumed: nat, bytes: nat, events: nat) {
      || consumed >= PerPage()
      || (maxBytes > 0 && bytes >= maxBytes)
      || (maxEvents > 0 && events >= maxEvents)
    }
  }

  function BytesOf(ks: seq<Key>, read: Key -> Reading): nat {
    if ks == [] then 0
    else
      var r := read(ks[|ks| - 1]);
      BytesOf(ks[..|ks| - 1], read) + if r.Decoded? then r.size else 0
  }

  /** Whether taking these objects fills a page. */
  predicate Fills(limits: Limits, f: Filter, read: Key -> Reading, ks: seq<Key>) {
    limits.Full(|ks|, BytesOf(ks, read), |AllMatched(f, ks, read)|)
  }

  /** Whether a page that took these objects one by one never was full. */
  predicate HasRoom(limits: Limits, f: Filter, read: Key -> Reading, ks: seq<Key>) {
    ks == [] || (HasRoom(limits, f, read, ks[..|ks| - 1]) && !Fills(limits, f, read, ks))
  }

  /** Whether the last of these objects filled the page. */
  predicate JustFull(limits: Limits, f: Filter, read: Key -> Reading, ks: seq<Key>) {
    ks != [] && HasRoom(limits, f, read, ks[..|ks| - 1]) && Fills(limits, f, read, ks)
  }

  lemma RoomForOneMore(limits: Limits, f: Filter, read: Key -> Reading, ks: seq<Key>, k: Key)
    requires HasRoom(limits, f, read, ks)
    ensures if Fills(limits, f, read, ks + [k]) then JustFull(limits, f, read, ks + [k]) else HasRoom(limits, f, read, ks + [k])
  {
    assert (ks + [k])[..|ks + [k]| - 1] == ks;
  }

  /** A page lists at most `MAX_DAY_LISTS` days and stops at the first object that fills it. Its
      cursor is that object, unless nothing is left; a page that is not full ends with the mark
      above the next day, or with none if it reached the floor. */
  predicate StopsRight(limits: Limits, f: Filter, read: Key -> Reading, taken: seq<Key>, startDay: int, floorDay: int, next: Option<Key>) {
    && (forall k :: k in taken ==> k.Dated? && startDay - MAX_DAY_LISTS < k.day <= startDay)
    && (HasRoom(limits, f, read, taken) || JustFull(limits, f, read, taken))
    && (HasRoom(limits, f, read, taken) ==>
          next == if startDay - floorDay >= MAX_DAY_LISTS then Some(DayMark(startDay - MAX_DAY_LISTS)) else None)
    && (JustFull(limits, f, read, taken) ==>
          next == Some(taken[|taken| - 1]) || (next == None && taken[|taken| - 1].day == floorDay))
  }

  /** `before` and then those of the first `n` keys that are older than the cursor. */
  function WithOlder(before: seq<Key>, ks: seq<Key>, n: nat, cursor: Option<Key>): seq<Key>
    requires n <= |ks|
  {
    before + Older(ks[..n], cursor)
  }

  lemma WithOneMore(before: seq<Key>, ks: seq<Key>, n: nat, cursor: Option<Key>)
    requires n < |ks|
    ensures WithOlder(before, ks, n + 1, cursor)
            == if Before(ks[n], cursor) then WithOlder(before, ks, n, cursor) + [ks[n]] else WithOlder(before, ks, n, cursor)
  {
    hide Older, Before;
    OlderOneMore(ks, n, cursor);
  }

  lemma WithNoneOrAll(before: seq<Key>, ks: seq<Key>, cursor: Option<Key>)
    ensures WithOlder(before, ks, 0, cursor) == before
    ensures WithOlder(before, ks, |ks|, cursor) == before + Older(ks, cursor)
  {
    assert ks[..|ks|] == ks && ks[..0] == [];
  }

  datatype PageOf = PageOf(events: seq<Event>, next: Option<Key>)

  /** The state of a page that is being filled. */
  class Walker {
    var events: seq<Event>
    var consumed: nat
    var bytesUsed: nat
    var oldest: Option<Key>
    ghost var taken: seq<Key>

    ghost predicate Valid(f: Filter, read: Key -> Reading)
      reads this
    {
      && events == AllMatched(f, taken, read) && consumed == |taken| && bytesUsed == BytesOf(taken, read)
      && (oldest.None? <==> taken == []) && (oldest.Some? ==> oldest.value == taken[|taken| - 1])
    }

    constructor (ghost f: Filter, ghost read: Key -> Reading)
      ensures Valid(f, read) && taken == []
    {
      events, consumed, bytesUsed, oldest, taken := [], 0, 0, None, [];
    }

    /** Reads one object; a failure counts it as consumed and adds nothing. */
    method Take(f: Filter, read: Key -> Reading, key: Key)
      requires Valid(f, read)
      modifies this
      ensures Valid(f, read) && taken == old(taken) + [key] && oldest == Some(key)
    {
      assert (taken + [key])[..|taken|] == taken;
      var r := read(key);
      if r.Decoded? {
        events := events + Sorting.Filter(r.events, (e: Event) => f.Match(e));
        bytesUsed := bytesUsed + r.size;
      }
      oldest := Some(key);
      consumed := consumed + 1;
      taken := taken + [key];
    }

    /** Reads one object and says whether the page is full. */
    method TakeOne(f: Filter, read: Key -> Reading, limits: Limits, key: Key) returns (full: bool)
      requires Valid(f, read) && HasRoom(limits, f, read, taken)
      modifies this
      ensures Valid(f, read) && taken == old(taken) + [key] && oldest == Some(key)
      ensures if full then JustFull(limits, f, read, taken) else HasRoom(limits, f, read, taken)
    {
      hide AllMatched, BytesOf, Limits.Full, HasRoom, JustFull;
      RoomForOneMore(limits, f, read, taken, key);
      Take(f, read, key);
      full := limits.Full(consumed, bytesUsed, |events|);
    }

    /** Takes the keys of one day until a limit is hit; `i` is where it stopped. */
    method TakeDay(f: Filter, read: Key -> Reading, limits: Limits, keys: seq<Key>, cursor: Option<Key>)
      returns (capped: bool, i: nat)
      requires Valid(f, read) && HasRoom(limits, f, read, taken)
      modifies this
      ensures Valid(f, read)
      ensures if capped then JustFull(limits, f, read, taken) else HasRoom(limits, f, read, taken)
      ensures !capped ==> taken == old(taken) + Older(keys, cursor)
      ensures capped ==> i < |keys| && Before(keys[i], cursor) && oldest == Some(keys[i])
                         && taken == WithOlder(old(taken), keys, i + 1, cursor)
    {
      hide Older, Before, Walker.Valid, HasRoom, JustFull, WithOlder;
      WithNoneOrAll(taken, keys, cursor);
      i := 0;
      while i < |keys|
        invariant i <= |keys| && Valid(f, read) && HasRoom(limits, f, read, taken)
        invariant taken == WithOlder(old(taken), keys, i, cursor)
      {
        WithOneMore(old(taken), keys, i, cursor);
        if !Before(keys[i], cursor) {
          i := i + 1;
          continue;
        }
        var full := TakeOne(f, read, limits, keys[i]);
        if full {
          return true, i;
        }
        i := i + 1;
      }
      capped := false;
    }
  }

  /** Of `all` there is `taken` and `rest`, or less if something was lost. */
  ghost predicate Balanced(all: seq<Key>, taken: seq<Key>, rest: seq<Key>, lost: bool) {
    if lost then |taken| + |rest| < |all| else all == taken + rest
  }

  ghost function Left(s: Store, f: Filter, now: int, next: Option<Key>): seq<Key>
    requires next.Some? ==> next.value.Dated?
  {
    if next.Some? then Remaining(s, f, now, next) else []
  }

  /** Every page that is not the last moves on: to an earlier day, or within the day by an object. */
  predicate MovesOn(s: Store, f: Filter, now: int, cursor: Option<Key>, taken: seq<Key>, next: Option<Key>)
    requires cursor.Some? ==> cursor.value.Dated?
  {
    next.Some? ==>
      && next.value.Dated? && FirstShipped(s.listing).Some? && FirstShipped(s.listing).value.Dated?
      && FloorDay(f, FirstShipped(s.listing).value.day) <= next.value.day <= StartDay(f, now, cursor)
      && (next.value.day == StartDay(f, now, cursor) ==> taken != [])
  }

  /** The keys that a page can reach within its day budget. */
  function Window(s: Store, startDay: int, cursor: Option<Key>): seq<Key> {
    Walk(s.listing, startDay, startDay - MAX_DAY_LISTS + 1, cursor)
  }

  /** The day budget ends the page: the floor is out of reach, and what is in reach does not fill it. */
  predicate OutOfDays(s: Store, startDay: int, floorDay: int, cursor: Option<Key>, limits: Limits, f: Filter, read: Key -> Reading) {
    startDay - floorDay >= MAX_DAY_LISTS && HasRoom(limits, f, read, Window(s, startDay, cursor))
  }

  /** The day budget ends the page from `cursor`. */
  ghost predicate RunsOut(s: Store, f: Filter, now: int, cursor: Option<Key>, limits: Limits, read: Key -> Reading)
    requires cursor.Some? ==> cursor.value.Dated?
  {
    && FirstShipped(s.listing).Some? && FirstShipped(s.listing).value.Dated?
    && OutOfDays(s, StartDay(f, now, cursor), FloorDay(f, FirstShipped(s.listing).value.day), cursor, limits, f, read)
  }

  /** A page that would end above a day on which the mark leaves something out. */
  ghost predicate PageLoses(s: Store, f: Filter, now: int, cursor: Option<Key>, limits: Limits, read: Key -> Reading)
    requires cursor.Some? ==> cursor.value.Dated?
  {
    RunsOut(s, f, now, cursor, limits, read) && !DayBelowMark(s, StartDay(f, now, cursor) - MAX_DAY_LISTS)
  }

  predicate AtFloor(s: Store, f: Filter, k: Key) {
    && k.Dated? && FirstShipped(s.listing).Some? && FirstShipped(s.listing).value.Dated?
    && k.day == FloorDay(f, FirstShipped(s.listing).value.day)
  }

  /** The cursor is a day mark exactly if the day budget ended the page, which then took all in its
      reach; a cursor on the floor day is given only if something is left. */
  ghost predicate CursorFits(s: Store, f: Filter, now: int, cursor: Option<Key>, limits: Limits, read: Key -> Reading, taken: seq<Key>, next: Option<Key>)
    requires cursor.Some? ==> cursor.value.Dated?
  {
    && (RunsOut(s, f, now, cursor, limits, read) <==> next == Some(DayMark(StartDay(f, now, cursor) - MAX_DAY_LISTS)))
    && (RunsOut(s, f, now, cursor, limits, read) ==> taken == Window(s, StartDay(f, now, cursor), cursor))
    && (!RunsOut(s, f, now, cursor, limits, read) && next.Some? && AtFloor(s, f, next.value) ==> taken != Remaining(s, f, now, cursor))
  }

  /** A page takes a prefix of what remains, and with what its cursor leaves it is complete unless it
      is one that loses objects. */
  ghost predicate PageKeeps(s: Store, f: Filter, now: int, cursor: Option<Key>, limits: Limits, read: Key -> Reading, taken: seq<Key>, next: Option<Key>)
    requires cursor.Some? ==> cursor.value.Dated?
    requires next.Some? ==> next.value.Dated?
  {
    && taken <= Remaining(s, f, now, cursor)
    && CursorFits(s, f, now, cursor, limits, read, taken, next)
    && Balanced(Remaining(s, f, now, cursor), taken, Left(s, f, now, next), PageLoses(s, f, now, cursor, limits, read))
  }

  lemma RemainingOf(s: Store, f: Filter, now: int, cursor: Option<Key>, oldest: int)
    requires FirstShipped(s.listing).Some? && FirstShipped(s.listing).value.Dated?
    requires oldest == FirstShipped(s.listing).value.day && (cursor.Some? ==> cursor.value.Dated?)
    ensures Remaining(s, f, now, cursor) == Walk(s.listing, StartDay(f, now, cursor), FloorDay(f, oldest), cursor)
  {}

  /** The events of one instant, in order. */
  function EventsAt(es: seq<Event>, ts: int): seq<Event> {
    Sorting.Filter(es, (e: Event) => e.ts == ts)
  }

  /** Newest first, events of the same instant in the order in which they were read. */
  ghost predicate StablyNewestFirst(es: seq<Event>, read: seq<Event>) {
    && Sorted(es, NewestFirst) && multiset(es) == multiset(read)
    && forall ts :: EventsAt(es, ts) == EventsAt(read, ts)
  }

  lemma SortIsNewestFirst(es: seq<Event>)
    ensures StablyNewestFirst(Sort(es, NewestFirst), es)
  {
    hide Sort, Sorting.Filter;
    SortSorted(es, NewestFirst);
    forall ts ensures EventsAt(Sort(es, NewestFirst), ts) == EventsAt(es, ts) {
      SortIsStable(es, NewestFirst, (e: Event) => e.ts == ts);
    }
  }

  /** The part of a page after its checks. */
  method FillPage(s: Store, f: Filter, cursor: Option<Key>, now: int, oldest: int, limits: Limits, read: Key -> Reading)
    returns (ok: bool, page: PageOf, ghost taken: seq<Key>)
    requires s.pageSize > 0 && FirstShipped(s.listing).Some? && FirstShipped(s.listing).value.Dated?
    requires oldest == FirstShipped(s.listing).value.day && (cursor.Some? ==> cursor.value.Dated?)
    requires FloorDay(f, oldest) <= StartDay(f, now, cursor)
    ensures !ok <==> MeetsDownDay(s, StartDay(f, now, cursor), FloorDay(f, oldest), cursor, limits, f, read)
    ensures ok ==> StablyNewestFirst(page.events, AllMatched(f, taken, read))
    ensures ok ==> StopsRight(limits, f, read, taken, StartDay(f, now, cursor), FloorDay(f, oldest), page.next)
    ensures ok ==> MovesOn(s, f, now, cursor, taken, page.next) && (page.next.Some? ==> page.next.value.Dated?)
    ensures ok && WellFormed(s) ==> PageKeeps(s, f, now, cursor, limits, read, taken, page.next)
  {
    hide StopsRight, WellFormed, FirstShipped, StablyNewestFirst, AllMatched, WalkKeeps, PageKeeps, MeetsDownDay;
    var startDay, floorDay := StartDay(f, now, cursor), FloorDay(f, oldest);
    var next: Option<Key>, w: Walker;
    ok, next, w := WalkBack(s, f, cursor, startDay, floorDay, limits, read);
    taken := w.taken;
    if ok && WellFormed(s) { WalkKeepsIsPageKeeps(s, f, now, cursor, oldest, limits, read, taken, next); }
    SortIsNewestFirst(w.events);
    page := PageOf(Sort(w.events, NewestFirst), next);
  }

  /** A listing that the page needs fails. */
  ghost predicate ListingFails(s: Store, f: Filter, cursor: Option<Key>, now: int, limits: Limits, read: Key -> Reading) {
    || s.probeDown
    || (&& FirstShipped(s.listing).Some? && FirstShipped(s.listing).value.Dated?
        && (cursor.Some? ==> cursor.value.Dated?)
        && var startDay, floorDay := StartDay(f, now, cursor), FloorDay(f, FirstShipped(s.listing).value.day);
           floorDay <= startDay && MeetsDownDay(s, startDay, floorDay, cursor, limits, f, read))
  }

  lemma UpNeverFails(s: Store, f: Filter, cursor: Option<Key>, now: int, limits: Limits, read: Key -> Reading)
    requires Up(s)
    ensures !ListingFails(s, f, cursor, now, limits, read)
  {}

  /** `page` is the page from `cursor`, made of the objects `taken`. */
  ghost predicate IsPage(s: Store, f: Filter, now: int, cursor: Option<Key>, limits: Limits, read: Key -> Reading, page: PageOf, taken: seq<Key>)
    requires cursor.Some? ==> cursor.value.Dated?
  {
    && (page.next.Some? ==> page.next.value.Dated?)
    && StablyNewestFirst(page.events, AllMatched(f, taken, read))
    && Ends(s, f, now, cursor, limits, read, taken, page.next)
    && PageKeeps(s, f, now, cursor, limits, read, taken, page.next)
  }

  /** Limits and cursor of a page. */
  predicate Ends(s: Store, f: Filter, now: int, cursor: Option<Key>, limits: Limits, read: Key -> Reading, taken: seq<Key>, next: Option<Key>)
    requires cursor.Some? ==> cursor.value.Dated?
  {
    match FirstShipped(s.listing)
    case Some(Dated(oldest, _)) =>
      if StartDay(f, now, cursor) < FloorDay(f, oldest) then taken == [] && next == None
      else StopsRight(limits, f, read, taken, StartDay(f, now, cursor), FloorDay(f, oldest), next)
    case _ => taken == [] && next == None
  }

  /** One page from `cursor`. */
  method Page(s: Store, f: Filter, cursor: Option<Key>, now: int, limits: Limits, read: Key -> Reading)
    returns (r: Result<PageOf, Failure>, ghost taken: seq<Key>)
    requires s.pageSize > 0
    ensures r == Err(ListFailed) <==> ListingFails(s, f, cursor, now, limits, read)
    ensures !s.probeDown ==>
              (r.Err? && r.error != ListFailed
               <==> FirstShipped(s.listing).Some?
                    && (FirstShipped(s.listing).value.Undated? || (cursor.Some? && cursor.value.Undated?)))
    ensures r.Err? && r.error != ListFailed ==> r.error == if FirstShipped(s.listing).value.Undated? then BadLayout else BadCursor
    ensures r.Ok? ==> StablyNewestFirst(r.value.events, AllMatched(f, taken, read))
    ensures r.Ok? && r.value.next.Some? ==> r.value.next.value.Dated?
    ensures r.Ok? && FirstShipped(s.listing).None? ==> taken == [] && r.value.next == None
    ensures r.Ok? && FirstShipped(s.listing).Some? ==>
              var oldest := FirstShipped(s.listing).value.day;
              if StartDay(f, now, cursor) < FloorDay(f, oldest) then taken == [] && r.value.next == None
              else StopsRight(limits, f, read, taken, StartDay(f, now, cursor), FloorDay(f, oldest), r.value.next)
    ensures r.Ok? && WellFormed(s) && (cursor.Some? ==> cursor.value.Dated?)
            ==> MovesOn(s, f, now, cursor, taken, r.value.next) && IsPage(s, f, now, cursor, limits, read, r.value, taken)
  {
    taken := [];
    EmptyPageKeeps(s, f, now, cursor, limits, read);
    NoEventsAreSorted();
    hide StopsRight, WellFormed, FirstShipped, Remaining, StablyNewestFirst, PageKeeps, MovesOn, MeetsDownDay;
    var probe := OldestDay(s);
    if probe.Err? {
      return Err(probe.error), [];
    }
    if probe.value.None? {
      return Ok(PageOf([], None)), [];
    }
    if cursor.Some? && cursor.value.Undated? {
      return Err(BadCursor), [];
    }
    if StartDay(f, now, cursor) < FloorDay(f, probe.value.value) {
      return Ok(PageOf([], None)), [];
    }
    var ok, page;
    ok, page, taken := FillPage(s, f, cursor, now, probe.value.value, limits, read);
    if !ok {
      return Err(ListFailed), [];
    }
    r := Ok(page);
  }

  lemma NoEventsAreSorted()
    ensures StablyNewestFirst([], [])
  {
    SortIsNewestFirst([]);
  }

  /** An empty last page is right when nothing is left in range. */
  lemma EmptyPageKeeps(s: Store, f: Filter, now: int, cursor: Option<Key>, limits: Limits, read: Key -> Reading)
    ensures (cursor.Some? ==> cursor.value.Dated?)
            && (FirstShipped(s.listing).Some? ==>
                  FirstShipped(s.listing).value.Dated?
                  && StartDay(f, now, cursor) < FloorDay(f, FirstShipped(s.listing).value.day))
            ==> MovesOn(s, f, now, cursor, [], None) && PageKeeps(s, f, now, cursor, limits, read, [], None)
  {}

  /** What is still to come from `next` on. */
  ghost function Rest(s: Store, floor: int, next: Option<Key>): seq<Key> {
    if next.Some? && next.value.Dated? then Walk(s.listing, next.value.day, floor, next) else []
  }

  /** The walk took a prefix, and its cursor leaves the rest unless it is a mark that loses objects. */
  ghost predicate WalkKeeps(s: Store, cursor: Option<Key>, startDay: int, floorDay: int, taken: seq<Key>, next: Option<Key>) {
    var all, mark := Walk(s.listing, startDay, floorDay, cursor), startDay - MAX_DAY_LISTS;
    && taken <= all
    && (next == Some(DayMark(mark)) ==> all == taken + Walk(s.listing, mark, floorDay, cursor))
    && (if next == Some(DayMark(mark)) && !DayBelowMark(s, mark)
        then |taken| + |Rest(s, floorDay, next)| < |all|
        else all == taken + Rest(s, floorDay, next))
    && (next.Some? && next.value.Dated? && next != Some(DayMark(mark)) && next.value.day == floorDay ==> Rest(s, floorDay, next) != [])
  }

  lemma Reassociate<T>(a: seq<T>, b: seq<T>, c: seq<T>)
    ensures a + (b + c) == (a + b) + c
  {}

  /** A walk is the walk over its first days and then the walk over the others. */
  lemma {:induction false} WalkSplits(listing: seq<Key>, day: int, mid: int, floor: int, cursor: Option<Key>)
    requires floor <= mid <= day + 1
    ensures Walk(listing, day, floor, cursor) == Walk(listing, day, mid, cursor) + Walk(listing, mid - 1, floor, cursor)
    decreases day - floor + 1
  {
    hide DayKeys, Older;
    if mid <= day {
      WalkSplits(listing, day - 1, mid, floor, cursor);
      Reassociate(Older(DayKeys(listing, day), cursor), Walk(listing, day - 1, mid, cursor), Walk(listing, mid - 1, floor, cursor));
    }
  }

  lemma {:induction false} WalkDays(s: Store, day: int, floor: int, cursor: Option<Key>)
    ensures Within(Walk(s.listing, day, floor, cursor), floor - 1, day)
    decreases day - floor + 1
  {
    hide DayKeys, Older, Within;
    if day < floor {
      NoneWithin(floor - 1, day);
    } else {
      WalkDays(s, day - 1, floor, cursor);
      DayWithin(s, day, cursor);
      JoinWithin(Older(DayKeys(s.listing, day), cursor), Walk(s.listing, day - 1, floor, cursor), floor, day);
    }
  }

  lemma NoneWithin(mark: int, day: int)
    ensures Within([], mark, day)
  {}

  lemma DayWithin(s: Store, day: int, cursor: Option<Key>)
    ensures Within(Older(DayKeys(s.listing, day), cursor), day - 1, day)
  {
    hide DayKeys, Older;
    TakenWithin(s, [], day, day, cursor, 0);
    assert [] + Older(DayKeys(s.listing, day), cursor) == Older(DayKeys(s.listing, day), cursor);
  }

  lemma JoinWithin(a: seq<Key>, b: seq<Key>, floor: int, day: int)
    requires floor <= day && Within(a, day - 1, day) && Within(b, floor - 1, day - 1)
    ensures Within(a + b, floor - 1, day)
  {}

  lemma {:induction false} PrefixHasRoom(limits: Limits, f: Filter, read: Key -> Reading, p: seq<Key>, ks: seq<Key>)
    requires p <= ks && HasRoom(limits, f, read, ks)
    ensures HasRoom(limits, f, read, p)
  {
    hide Fills;
    if p == ks {
    } else {
      PrefixHasRoom(limits, f, read, p, ks[..|ks| - 1]);
    }
  }

  /** A prefix whose keys are all newer than the rest lies within the first part. */
  lemma ShortPrefix(taken: seq<Key>, a: seq<Key>, b: seq<Key>, day: int, startDay: int)
    requires taken <= a + b && Within(taken, day, startDay) && forall k :: k in b ==> k.Dated? && k.day <= day
    ensures taken <= a
  {
    if |taken| > |a| { ReachesRest(taken, a, b); }
  }

  lemma ReachesRest(taken: seq<Key>, a: seq<Key>, b: seq<Key>)
    requires taken <= a + b && |taken| > |a|
    ensures taken[|a|] in b && taken[|a|] in taken
  {
    assert taken[|a|] == (a + b)[|a|] == b[0];
  }

  /** The mark is the cursor exactly when the day budget ends the page. */
  lemma MarkIffOutOfDays(s: Store, cursor: Option<Key>, startDay: int, floorDay: int, limits: Limits, f: Filter, read: Key -> Reading, taken: seq<Key>, next: Option<Key>)
    requires floorDay <= startDay && WalkKeeps(s, cursor, startDay, floorDay, taken, next)
    requires StopsRight(limits, f, read, taken, startDay, floorDay, next)
    ensures next == Some(DayMark(startDay - MAX_DAY_LISTS)) <==> OutOfDays(s, startDay, floorDay, cursor, limits, f, read)
  {
    hide Walk, HasRoom, JustFull, DayBelowMark, Fills;
    var mark := startDay - MAX_DAY_LISTS;
    if floorDay <= mark {
      var window, rest := Window(s, startDay, cursor), Walk(s.listing, mark, floorDay, cursor);
      WalkSplits(s.listing, startDay, mark + 1, floorDay, cursor);
      if next == Some(DayMark(mark)) {
        assert |taken| == |window| && taken == (taken + rest)[..|taken|] && window == (window + rest)[..|window|];
        FullTaken(limits, f, read, taken);
      } else if HasRoom(limits, f, read, window) {
        WalkDays(s, mark, floorDay, cursor);
        ShortPrefix(taken, window, rest, mark, startDay);
        PrefixHasRoom(limits, f, read, taken, window);
      }
    } else {
      FullTaken(limits, f, read, taken);
    }
  }

  lemma FullTaken(limits: Limits, f: Filter, read: Key -> Reading, taken: seq<Key>)
    ensures JustFull(limits, f, read, taken) ==> taken != [] && taken[|taken| - 1] in taken
  {}

  lemma TakesWindow(s: Store, cursor: Option<Key>, startDay: int, floorDay: int, limits: Limits, f: Filter, read: Key -> Reading, taken: seq<Key>, next: Option<Key>)
    requires floorDay <= startDay && WalkKeeps(s, cursor, startDay, floorDay, taken, next)
    requires StopsRight(limits, f, read, taken, startDay, floorDay, next)
    requires OutOfDays(s, startDay, floorDay, cursor, limits, f, read)
    ensures taken == Window(s, startDay, cursor)
  {
    hide Walk, StopsRight, HasRoom, DayBelowMark;
    MarkIffOutOfDays(s, cursor, startDay, floorDay, limits, f, read, taken, next);
    var mark := startDay - MAX_DAY_LISTS;
    WalkSplits(s.listing, startDay, mark + 1, floorDay, cursor);
    SameFirstPart(taken, Window(s, startDay, cursor), Walk(s.listing, mark, floorDay, cursor));
  }

  lemma SameFirstPart(a: seq<Key>, b: seq<Key>, c: seq<Key>)
    requires a + c == b + c
    ensures a == b
  {
    assert |a| == |b| && a == (a + c)[..|a|] && b == (b + c)[..|b|];
  }

  lemma WalkKeepsIsPageKeeps(s: Store, f: Filter, now: int, cursor: Option<Key>, oldest: int, limits: Limits, read: Key -> Reading, taken: seq<Key>, next: Option<Key>)
    requires FirstShipped(s.listing).Some? && FirstShipped(s.listing).value.Dated?
    requires oldest == FirstShipped(s.listing).value.day && (cursor.Some? ==> cursor.value.Dated?)
    requires next.Some? ==> next.value.Dated? && next.value.day <= StartDay(f, now, cursor)
    requires FloorDay(f, oldest) <= StartDay(f, now, cursor)
    requires WalkKeeps(s, cursor, StartDay(f, now, cursor), FloorDay(f, oldest), taken, next)
    requires StopsRight(limits, f, read, taken, StartDay(f, now, cursor), FloorDay(f, oldest), next)
    ensures PageKeeps(s, f, now, cursor, limits, read, taken, next)
  {
    hide FirstShipped, Walk, DayBelowMark, OutOfDays, StopsRight;
    if RunsOut(s, f, now, cursor, limits, read) { TakesWindow(s, cursor, StartDay(f, now, cursor), FloorDay(f, oldest), limits, f, read, taken, next); }
    MarkIffOutOfDays(s, cursor, StartDay(f, now, cursor), FloorDay(f, oldest), limits, f, read, taken, next);
    RemainingOf(s, f, now, cursor, oldest);
    if next.Some? {
      assert StartDay(f, now, next) == next.value.day;
      RemainingOf(s, f, now, next, oldest);
    }
    hide Remaining;
  }

  /** The walk comes to a day whose listing fails before it is full. */
  ghost predicate MeetsDownDay(s: Store, startDay: int, floorDay: int, cursor: Option<Key>, limits: Limits, f: Filter, read: Key -> Reading) {
    exists d :: d in s.downDays && floorDay <= d <= startDay && startDay - d < MAX_DAY_LISTS
                && HasRoom(limits, f, read, Walk(s.listing, startDay, d + 1, cursor))
  }

  /** The backward walk over partitions. */
  method WalkBack(s: Store, f: Filter, cursor: Option<Key>, startDay: int, floorDay: int, limits: Limits, read: Key -> Reading)
    returns (ok: bool, next: Option<Key>, w: Walker)
    requires s.pageSize > 0 && floorDay <= startDay
    requires cursor.Some? ==> cursor.value.Dated? && startDay <= cursor.value.day
    ensures fresh(w) && w.Valid(f, read)
    ensures !ok <==> MeetsDownDay(s, startDay, floorDay, cursor, limits, f, read)
    ensures ok ==> StopsRight(limits, f, read, w.taken, startDay, floorDay, next)
    ensures ok && next.Some? ==> next.value.Dated? && floorDay <= next.value.day <= startDay
                                 && (next.value.day == startDay ==> w.taken != [])
    ensures ok && WellFormed(s) ==> WalkKeeps(s, cursor, startDay, floorDay, w.taken, next)
  {
    hide DayKeys, Older, AllMatched, WellFormed, BytesOf, Fills, JustFull, HasRoom, WithOlder, Walk, DayBelowMark,
         StopsRight, WalkKeeps, Within, Before, Walker.Valid, OnDay, MeetsDownDay;
    w := new Walker(f, read);
    ok, next := true, None;
    var day, dayLists := startDay, 0;
    ghost var low := startDay;
    NothingTaken(limits, f, read, s, startDay, floorDay, cursor);
    while day >= floorDay
      invariant fresh(w) && w.Valid(f, read) && low == day <= startDay && dayLists == startDay - day <= MAX_DAY_LISTS
      invariant HasRoom(limits, f, read, w.taken) && Within(w.taken, low, startDay)
      invariant Walk(s.listing, startDay, floorDay, cursor) == w.taken + Walk(s.listing, low, floorDay, cursor)
      invariant AllUp(s, low, startDay)
      decreases day - floorDay + 1
    {
      if dayLists >= MAX_DAY_LISTS {
        UpMeetsNone(s, startDay, floorDay, cursor, limits, f, read, low);
        BudgetStops(limits, f, read, w.taken, startDay, floorDay);
        if WellFormed(s) { BudgetKeeps(s, cursor, startDay, floorDay, w.taken); }
        next := Some(DayMark(day));
        return;
      }
      var listed, keys := ListDay(s, day);
      TakenIsWalk(s, startDay, day, floorDay, cursor, w.taken);
      if !listed {
        MeetsHere(s, startDay, floorDay, cursor, limits, f, read, day);
        return false, None, w;
      }
      dayLists := dayLists + 1;
      ghost var before := w.taken;
      var capped, i := w.TakeDay(f, read, limits, keys, cursor);
      TakenWithin(s, before, day, startDay, cursor, if capped then i + 1 else |keys|);
      if capped {
        var lastOfFloor := day == floorDay && i == |keys| - 1;
        if !lastOfFloor && w.oldest.Some? {
          next := w.oldest;
        }
        DayKeysOnDay(s, day);
        LastTaken(w, f, read, keys, i, day);
        CapStops(limits, f, read, w.taken, startDay, floorDay, day, next);
        CapMeetsNone(s, startDay, floorDay, cursor, limits, f, read, day, i, w.taken);
        if WellFormed(s) { CapKeeps(s, startDay, day, floorDay, cursor, before, i, next); }
        return;
      }
      WalkOneDay(s, day, floorDay, cursor, before);
      low := day - 1;
      if day == floorDay {
        break;
      }
      day := day - 1;
    }
    UpMeetsNone(s, startDay, floorDay, cursor, limits, f, read, low);
    FloorStops(limits, f, read, w.taken, startDay, floorDay, low);
    FloorKeeps(s, cursor, startDay, floorDay, w.taken, low);
  }

  /** No day above `low` is down. */
  predicate AllUp(s: Store, low: int, startDay: int) {
    forall d :: d in s.downDays ==> d <= low || d > startDay
  }

  lemma UpMeetsNone(s: Store, startDay: int, floorDay: int, cursor: Option<Key>, limits: Limits, f: Filter, read: Key -> Reading, low: int)
    requires AllUp(s, low, startDay) && (low < floorDay || low <= startDay - MAX_DAY_LISTS)
    ensures !MeetsDownDay(s, startDay, floorDay, cursor, limits, f, read)
  {
    hide HasRoom, Walk;
  }

  lemma MeetsHere(s: Store, startDay: int, floorDay: int, cursor: Option<Key>, limits: Limits, f: Filter, read: Key -> Reading, day: int)
    requires day in s.downDays && floorDay <= day <= startDay && startDay - day < MAX_DAY_LISTS
    requires HasRoom(limits, f, read, Walk(s.listing, startDay, day + 1, cursor))
    ensures MeetsDownDay(s, startDay, floorDay, cursor, limits, f, read)
  {
    hide HasRoom, Walk;
  }

  lemma TakenIsWalk(s: Store, startDay: int, day: int, floorDay: int, cursor: Option<Key>, taken: seq<Key>)
    requires floorDay <= day <= startDay
    requires Walk(s.listing, startDay, floorDay, cursor) == taken + Walk(s.listing, day, floorDay, cursor)
    ensures taken == Walk(s.listing, startDay, day + 1, cursor)
  {
    hide Walk;
    WalkSplits(s.listing, startDay, day + 1, floorDay, cursor);
    var a, b := Walk(s.listing, startDay, day + 1, cursor), Walk(s.listing, day, floorDay, cursor);
    assert |a| == |taken| && a == (a + b)[..|a|] && taken == (taken + b)[..|taken|];
  }

  /** A full page ends before it meets a day below. */
  lemma CapMeetsNone(s: Store, startDay: int, floorDay: int, cursor: Option<Key>, limits: Limits, f: Filter, read: Key -> Reading, day: int, i: nat, taken: seq<Key>)
    requires AllUp(s, day, startDay) && day !in s.downDays && day <= startDay && i < |DayKeys(s.listing, day)|
    requires taken == WithOlder(Walk(s.listing, startDay, day + 1, cursor), DayKeys(s.listing, day), i + 1, cursor)
    requires JustFull(limits, f, read, taken)
    ensures !MeetsDownDay(s, startDay, floorDay, cursor, limits, f, read)
  {
    hide HasRoom, JustFull, Walk, WithOlder, DayKeys;
    FullIsNotRoom(limits, f, read, taken);
    forall d | d in s.downDays && floorDay <= d <= startDay
      ensures !HasRoom(limits, f, read, Walk(s.listing, startDay, d + 1, cursor))
    {
      TakenWithinWalk(s, startDay, day, d, cursor, i, taken);
      if HasRoom(limits, f, read, Walk(s.listing, startDay, d + 1, cursor)) {
        PrefixHasRoom(limits, f, read, taken, Walk(s.listing, startDay, d + 1, cursor));
      }
    }
  }

  lemma TakenWithinWalk(s: Store, startDay: int, day: int, d: int, cursor: Option<Key>, i: nat, taken: seq<Key>)
    requires d < day <= startDay && i < |DayKeys(s.listing, day)|
    requires taken == WithOlder(Walk(s.listing, startDay, day + 1, cursor), DayKeys(s.listing, day), i + 1, cursor)
    ensures taken <= Walk(s.listing, startDay, d + 1, cursor)
  {
    hide DayKeys, Older, Walk;
    var ks, before := DayKeys(s.listing, day), Walk(s.listing, startDay, day + 1, cursor);
    WalkSplits(s.listing, startDay, day + 1, d + 1, cursor);
    WalkOneDay(s, day, d + 1, cursor, before);
    OlderSplits(ks, i + 1, cursor);
    var a, b, c := Older(ks[..i + 1], cursor), Older(ks[i + 1..], cursor), Walk(s.listing, day - 1, d + 1, cursor);
    assert before + (a + b) + c == (before + a) + (b + c);
  }

  lemma LastTaken(w: Walker, f: Filter, read: Key -> Reading, keys: seq<Key>, i: nat, day: int)
    requires w.Valid(f, read) && i < |keys| && w.oldest == Some(keys[i]) && forall k :: k in keys ==> OnDay(k, day)
    ensures w.taken != [] && w.taken[|w.taken| - 1] == keys[i] && keys[i].Dated? && keys[i].day == day
  {
    assert keys[i] in keys;
  }

  lemma BudgetStops(limits: Limits, f: Filter, read: Key -> Reading, taken: seq<Key>, startDay: int, floorDay: int)
    requires HasRoom(limits, f, read, taken) && Within(taken, startDay - MAX_DAY_LISTS, startDay)
    requires startDay - floorDay >= MAX_DAY_LISTS
    ensures StopsRight(limits, f, read, taken, startDay, floorDay, Some(DayMark(startDay - MAX_DAY_LISTS)))
  {
    RoomIsNotFull(limits, f, read, taken);
    hide HasRoom, JustFull;
  }

  lemma CapStops(limits: Limits, f: Filter, read: Key -> Reading, taken: seq<Key>, startDay: int, floorDay: int, day: int, next: Option<Key>)
    requires JustFull(limits, f, read, taken) && Within(taken, day - 1, startDay) && startDay - MAX_DAY_LISTS < day
    requires taken != [] && taken[|taken| - 1].Dated? && taken[|taken| - 1].day == day
    requires next == Some(taken[|taken| - 1]) || (next == None && day == floorDay)
    ensures StopsRight(limits, f, read, taken, startDay, floorDay, next)
  {
    FullIsNotRoom(limits, f, read, taken);
    hide HasRoom, JustFull;
  }

  lemma FloorStops(limits: Limits, f: Filter, read: Key -> Reading, taken: seq<Key>, startDay: int, floorDay: int, low: int)
    requires HasRoom(limits, f, read, taken) && Within(taken, low, startDay)
    requires low < floorDay && startDay - low <= MAX_DAY_LISTS
    ensures StopsRight(limits, f, read, taken, startDay, floorDay, None)
  {
    RoomIsNotFull(limits, f, read, taken);
    hide HasRoom, JustFull;
  }

  lemma BudgetKeeps(s: Store, cursor: Option<Key>, startDay: int, floorDay: int, taken: seq<Key>)
    requires WellFormed(s) && floorDay <= startDay - MAX_DAY_LISTS
    requires cursor.Some? ==> cursor.value.Dated? && startDay <= cursor.value.day
    requires Walk(s.listing, startDay, floorDay, cursor) == taken + Walk(s.listing, startDay - MAX_DAY_LISTS, floorDay, cursor)
    ensures WalkKeeps(s, cursor, startDay, floorDay, taken, Some(DayMark(startDay - MAX_DAY_LISTS)))
  {
    hide WellFormed, Walk, DayBelowMark;
    RemainingAtDayIff(s, startDay - MAX_DAY_LISTS, floorDay, cursor);
  }

  lemma FloorKeeps(s: Store, cursor: Option<Key>, startDay: int, floorDay: int, taken: seq<Key>, low: int)
    requires low < floorDay && Walk(s.listing, startDay, floorDay, cursor) == taken + Walk(s.listing, low, floorDay, cursor)
    ensures WalkKeeps(s, cursor, startDay, floorDay, taken, None)
  {
    hide DayKeys, Older, DayBelowMark;
  }

  /** A walk that a full page ended loses nothing. */
  lemma CapKeeps(s: Store, startDay: int, day: int, floor: int, cursor: Option<Key>, before: seq<Key>, i: nat, next: Option<Key>)
    requires WellFormed(s) && floor <= day && startDay - MAX_DAY_LISTS < day <= startDay
    requires cursor.Some? ==> cursor.value.Dated? && day <= cursor.value.day
    requires i < |DayKeys(s.listing, day)| && Before(DayKeys(s.listing, day)[i], cursor)
    requires Walk(s.listing, startDay, floor, cursor) == before + Walk(s.listing, day, floor, cursor)
    requires next == if day == floor && i == |DayKeys(s.listing, day)| - 1 then None else Some(DayKeys(s.listing, day)[i])
    ensures WalkKeeps(s, cursor, startDay, floor, WithOlder(before, DayKeys(s.listing, day), i + 1, cursor), next)
  {
    hide WellFormed, DayKeys, Older, Walk, Before, DayBelowMark;
    CapSplits(s, day, floor, cursor, before, i);
    if i + 1 < |DayKeys(s.listing, day)| { LeavesNext(s, day, floor, i); }
  }

  lemma LeavesNext(s: Store, day: int, floor: int, i: nat)
    requires WellFormed(s) && floor <= day && i + 1 < |DayKeys(s.listing, day)|
    ensures Walk(s.listing, day, floor, Some(DayKeys(s.listing, day)[i])) != []
  {
    var ks := DayKeys(s.listing, day);
    DayKeysOrdered(s, day);
    hide DayKeys, WellFormed, Sorting.Filter;
    FilterMembers(ks, BeforeCursor(Some(ks[i])), ks[i + 1]);
  }

  predicate Within(ks: seq<Key>, day: int, startDay: int) {
    forall k :: k in ks ==> k.Dated? && day < k.day <= startDay
  }

  lemma NothingTaken(limits: Limits, f: Filter, read: Key -> Reading, s: Store, startDay: int, floorDay: int, cursor: Option<Key>)
    ensures HasRoom(limits, f, read, []) && Within([], startDay, startDay)
    ensures Walk(s.listing, startDay, floorDay, cursor) == [] + Walk(s.listing, startDay, floorDay, cursor)
  {}

  lemma RoomIsNotFull(limits: Limits, f: Filter, read: Key -> Reading, ks: seq<Key>)
    requires HasRoom(limits, f, read, ks)
    ensures !JustFull(limits, f, read, ks)
  {
    hide Fills;
  }

  lemma FullIsNotRoom(limits: Limits, f: Filter, read: Key -> Reading, ks: seq<Key>)
    requires JustFull(limits, f, read, ks)
    ensures ks != [] && !HasRoom(limits, f, read, ks)
  {
    hide Fills;
  }

  lemma DayKeysOnDay(s: Store, day: int)
    ensures forall k :: k in DayKeys(s.listing, day) ==> OnDay(k, day)
  {
    hide Sorting.Filter, Sort;
    var p := ShippedOn(day);
    forall k | k in DayKeys(s.listing, day) ensures OnDay(k, day) {
      assert k in multiset(Sorting.Filter(s.listing, p));
      FilterMembers(s.listing, p, k);
    }
  }

  lemma TakenWithin(s: Store, before: seq<Key>, day: int, startDay: int, cursor: Option<Key>, n: nat)
    requires day <= startDay && n <= |DayKeys(s.listing, day)| && Within(before, day, startDay)
    ensures Within(WithOlder(before, DayKeys(s.listing, day), n, cursor), day - 1, startDay)
    ensures Within(before + Older(DayKeys(s.listing, day), cursor), day - 1, startDay)
  {
    var ks := DayKeys(s.listing, day);
    DayKeysOnDay(s, day);
    hide DayKeys, Sorting.Filter;
    forall k | k in Older(ks[..n], cursor) ensures OnDay(k, day) {
      FilterMembers(ks[..n], BeforeCursor(cursor), k);
      assert k in ks;
    }
    forall k | k in Older(ks, cursor) ensures OnDay(k, day) {
      FilterMembers(ks, BeforeCursor(cursor), k);
    }
  }

  lemma WalkOneDay(s: Store, day: int, floor: int, cursor: Option<Key>, before: seq<Key>)
    requires floor <= day
    ensures before + Walk(s.listing, day, floor, cursor)
            == before + Older(DayKeys(s.listing, day), cursor) + Walk(s.listing, day - 1, floor, cursor)
    ensures day == floor ==> Walk(s.listing, day - 1, floor, cursor) == []
  {
    hide DayKeys, Older;
  }

  /** What a cap after key `i` of `day` leaves over. */
  lemma CapSplits(s: Store, day: int, floor: int, cursor: Option<Key>, before: seq<Key>, i: nat)
    requires WellFormed(s) && floor <= day && (cursor.Some? ==> cursor.value.Dated? && day <= cursor.value.day)
    requires i < |DayKeys(s.listing, day)| && Before(DayKeys(s.listing, day)[i], cursor)
    ensures var ks := DayKeys(s.listing, day);
            && ks[i].Dated? && ks[i].day == day
            && before + Walk(s.listing, day, floor, cursor)
               == before + Older(ks[..i + 1], cursor) + Walk(s.listing, day, floor, Some(ks[i]))
            && (day == floor && i == |ks| - 1 ==> Walk(s.listing, day, floor, Some(ks[i])) == [])
  {
    hide DayKeys, WellFormed, Before;
    var ks := DayKeys(s.listing, day);
    DayKeysOrdered(s, day);
    assert ks[i] in ks;
    RemainingAtKey(s, day, floor, cursor, i);
    OlderSplits(ks, i + 1, cursor);
    WalkOneDay(s, day, floor, cursor, before);
    var a, b, c := Older(ks[..i + 1], cursor), Older(ks[i + 1..], cursor), Walk(s.listing, day - 1, floor, cursor);
    assert before + (a + b) + c == before + a + (b + c);
    if i == |ks| - 1 { assert ks[i + 1..] == []; }
  }

  lemma OlderSplits(ks: seq<Key>, i: nat, cursor: Option<Key>)
    requires i <= |ks|
    ensures Older(ks, cursor) == Older(ks[..i], cursor) + Older(ks[i..], cursor)
  {
    assert ks == ks[..i] + ks[i..];
    FilterAppend(ks[..i], ks[i..], BeforeCursor(cursor));
  }

  // ---- Following the cursors ----

  /** How many days lie between the cursor and the floor. */
  ghost function DaysLeft(s: Store, f: Filter, now: int, cursor: Option<Key>): int
    requires cursor.Some? ==> cursor.value.Dated?
  {
    match FirstShipped(s.listing)
    case Some(Dated(oldest, _)) => StartDay(f, now, cursor) - FloorDay(f, oldest)
    case _ => 0
  }

  /** The cursor that the `i`-th page was read from. */
  function CursorOf(pages: seq<PageOf>, i: nat): Option<Key>
    requires i <= |pages|
  {
    if i == 0 then None else pages[i - 1].next
  }

  /** What the reads for the `i`-th page give. */
  function ReadAt(read: (nat, Key) -> Reading, i: nat): Key -> Reading {
    (k: Key) => read(i, k)
  }

  /** No page is one that loses objects. */
  ghost predicate NothingLost(s: Store, f: Filter, now: int, limits: Limits, read: (nat, Key) -> Reading, pages: seq<PageOf>) {
    forall i :: 0 <= i < |pages| ==>
      && (CursorOf(pages, i).Some? ==> CursorOf(pages, i).value.Dated?)
      && !PageLoses(s, f, now, CursorOf(pages, i), limits, ReadAt(read, i))
  }

  lemma NothingLostOneMore(s: Store, f: Filter, now: int, limits: Limits, read: (nat, Key) -> Reading, pages: seq<PageOf>, page: PageOf)
    requires CursorOf(pages, |pages|).Some? ==> CursorOf(pages, |pages|).value.Dated?
    ensures NothingLost(s, f, now, limits, read, pages + [page])
            <==> NothingLost(s, f, now, limits, read, pages)
                 && !PageLoses(s, f, now, CursorOf(pages, |pages|), limits, ReadAt(read, |pages|))
  {
    hide PageLoses, ReadAt;
    var more := pages + [page];
    forall i | 0 <= i < |pages| ensures CursorOf(more, i) == CursorOf(pages, i) && more[i] == pages[i] {}
    assert CursorOf(more, |pages|) == CursorOf(pages, |pages|) && more[|pages|] == page;
    if NothingLost(s, f, now, limits, read, more) {
      forall i | 0 <= i < |pages|
        ensures (CursorOf(pages, i).Some? ==> CursorOf(pages, i).value.Dated?)
        ensures !PageLoses(s, f, now, CursorOf(pages, i), limits, ReadAt(read, i))
      {
        assert CursorOf(more, i) == CursorOf(pages, i);
      }
    }
  }

  lemma BalancedStep(all: seq<Key>, taken: seq<Key>, rest: seq<Key>, lost: bool, t: seq<Key>, left: seq<Key>, loses: bool)
    requires Balanced(all, taken, rest, lost) && Balanced(rest, t, left, loses)
    ensures Balanced(all, taken + t, left, lost || loses)
  {
    if !lost && !loses { assert taken + (t + left) == taken + t + left; }
  }

  lemma BalancedEnd(all: seq<Key>, taken: seq<Key>, lost: bool)
    requires Balanced(all, taken, [], lost)
    ensures taken == all <==> !lost
  {}

  /** Of two full or unfinished prefixes neither can be shorter, if an unfinished one took everything. */
  lemma SamePrefix(limits: Limits, f: Filter, read: Key -> Reading, all: seq<Key>, t: seq<Key>, u: seq<Key>)
    requires t <= all && u <= all && JustFull(limits, f, read, t)
    requires JustFull(limits, f, read, u) || (HasRoom(limits, f, read, u) && u == all)
    ensures t == u
  {
    FullIsNotRoom(limits, f, read, t);
    if |t| < |u| {
      var v := if JustFull(limits, f, read, u) then u[..|u| - 1] else u;
      PrefixHasRoom(limits, f, read, t, v);
    } else if |u| < |t| {
      PrefixHasRoom(limits, f, read, u, t[..|t| - 1]);
      RoomIsNotFull(limits, f, read, u);
    }
  }

  /** A page that the day budget does not end: it took everything, or its last object filled it. */
  predicate Halts(limits: Limits, f: Filter, read: Key -> Reading, floorDay: int, all: seq<Key>, t: seq<Key>, next: Option<Key>) {
    && t <= all && (next == None ==> t == all)
    && (next.Some? && next.value.Dated? && next.value.day == floorDay ==> t != all)
    && if next == None && HasRoom(limits, f, read, t) then true
       else JustFull(limits, f, read, t) && t[|t| - 1].Dated?
            && (next == Some(t[|t| - 1]) || (next == None && t[|t| - 1].day == floorDay))
  }

  lemma HaltsDetermined(limits: Limits, f: Filter, read: Key -> Reading, floorDay: int, all: seq<Key>, t: seq<Key>, n: Option<Key>, u: seq<Key>, m: Option<Key>)
    requires Halts(limits, f, read, floorDay, all, t, n) && Halts(limits, f, read, floorDay, all, u, m)
    ensures t == u && n == m
  {
    hide HasRoom, Fills;
    if JustFull(limits, f, read, t) {
      SamePrefix(limits, f, read, all, t, u);
      FullIsNotRoom(limits, f, read, t);
    } else if JustFull(limits, f, read, u) {
      SamePrefix(limits, f, read, all, u, t);
    }
  }

  lemma StopHalts(limits: Limits, f: Filter, read: Key -> Reading, startDay: int, floorDay: int, all: seq<Key>, t: seq<Key>, next: Option<Key>)
    requires StopsRight(limits, f, read, t, startDay, floorDay, next) && next != Some(DayMark(startDay - MAX_DAY_LISTS))
    requires t <= all && (next == None ==> t == all)
    requires next.Some? && next.value.Dated? && next.value.day == floorDay ==> t != all
    ensures Halts(limits, f, read, floorDay, all, t, next)
  {
    hide HasRoom, Fills;
    if JustFull(limits, f, read, t) { assert t[|t| - 1] in t; }
  }

  lemma PageHalts(s: Store, f: Filter, now: int, cursor: Option<Key>, limits: Limits, read: Key -> Reading, p: PageOf, t: seq<Key>, oldest: int)
    requires cursor.Some? ==> cursor.value.Dated?
    requires IsPage(s, f, now, cursor, limits, read, p, t) && !RunsOut(s, f, now, cursor, limits, read)
    requires FirstShipped(s.listing).Some? && FirstShipped(s.listing).value.Dated? && oldest == FirstShipped(s.listing).value.day
    requires StartDay(f, now, cursor) >= FloorDay(f, oldest)
    ensures Halts(limits, f, read, FloorDay(f, oldest), Remaining(s, f, now, cursor), t, p.next)
  {
    hide Remaining, FirstShipped, StopsRight, Halts, StablyNewestFirst, RunsOut, DayBelowMark, StartDay, FloorDay;
    StopHalts(limits, f, read, StartDay(f, now, cursor), FloorDay(f, oldest), Remaining(s, f, now, cursor), t, p.next);
  }

  lemma TakenDetermined(s: Store, f: Filter, now: int, cursor: Option<Key>, limits: Limits, read: Key -> Reading,
                        p: PageOf, t: seq<Key>, q: PageOf, u: seq<Key>)
    requires cursor.Some? ==> cursor.value.Dated?
    requires IsPage(s, f, now, cursor, limits, read, p, t) && IsPage(s, f, now, cursor, limits, read, q, u)
    ensures t == u && p.next == q.next
  {
    hide Remaining, FirstShipped, StopsRight, Halts, StablyNewestFirst, RunsOut, Window, StartDay, FloorDay, Balanced, Left;
    if RunsOut(s, f, now, cursor, limits, read) {
    } else if FirstShipped(s.listing).Some? && FirstShipped(s.listing).value.Dated?
              && StartDay(f, now, cursor) >= FloorDay(f, FirstShipped(s.listing).value.day) {
      var oldest := FirstShipped(s.listing).value.day;
      PageHalts(s, f, now, cursor, limits, read, p, t, oldest);
      PageHalts(s, f, now, cursor, limits, read, q, u, oldest);
      HaltsDetermined(limits, f, read, FloorDay(f, oldest), Remaining(s, f, now, cursor), t, p.next, u, q.next);
    }
  }

  /** The store, the clock, the filter, the limits and the reads determine a page. */
  lemma PageIsDetermined(s: Store, f: Filter, now: int, cursor: Option<Key>, limits: Limits, read: Key -> Reading,
                         p: PageOf, t: seq<Key>, q: PageOf, u: seq<Key>)
    requires cursor.Some? ==> cursor.value.Dated?
    requires IsPage(s, f, now, cursor, limits, read, p, t) && IsPage(s, f, now, cursor, limits, read, q, u)
    ensures p == q && t == u
  {
    TakenDetermined(s, f, now, cursor, limits, read, p, t, q, u);
    hide Ends, PageKeeps, Sorted, Sorting.Filter, AllMatched;
    assert |p.events| == |multiset(p.events)| == |multiset(q.events)| == |q.events|;
    forall ts ensures EventsAt(p.events, ts) == EventsAt(q.events, ts) {
      assert EventsAt(p.events, ts) == EventsAt(AllMatched(f, t, read), ts);
      assert EventsAt(q.events, ts) == EventsAt(AllMatched(f, t, read), ts);
    }
    EventsDetermined(p.events, q.events);
  }

  /** Each page is the one from its cursor, made of the objects in its part. */
  ghost predicate ArePages(s: Store, f: Filter, now: int, limits: Limits, read: (nat, Key) -> Reading, pages: seq<PageOf>, parts: seq<seq<Key>>) {
    |parts| == |pages| && forall i :: 0 <= i < |pages| ==>
      && (CursorOf(pages, i).Some? ==> CursorOf(pages, i).value.Dated?)
      && IsPage(s, f, now, CursorOf(pages, i), limits, ReadAt(read, i), pages[i], parts[i])
  }

  lemma NoPagesYet(s: Store, f: Filter, now: int, limits: Limits, read: (nat, Key) -> Reading)
    ensures ArePages(s, f, now, limits, read, [], []) && Joined<Key>([]) == []
  {}

  lemma OneMorePage(s: Store, f: Filter, now: int, limits: Limits, read: (nat, Key) -> Reading, pages: seq<PageOf>, parts: seq<seq<Key>>, page: PageOf, part: seq<Key>)
    requires ArePages(s, f, now, limits, read, pages, parts)
    requires CursorOf(pages, |pages|).Some? ==> CursorOf(pages, |pages|).value.Dated?
    requires IsPage(s, f, now, CursorOf(pages, |pages|), limits, ReadAt(read, |pages|), page, part)
    ensures ArePages(s, f, now, limits, read, pages + [page], parts + [part])
    ensures Joined(parts + [part]) == Joined(parts) + part
  {
    hide IsPage, ReadAt;
    var more, moreParts := pages + [page], parts + [part];
    assert moreParts[..|moreParts| - 1] == parts;
    forall i | 0 <= i < |more|
      ensures CursorOf(more, i) == CursorOf(pages, i)
      ensures CursorOf(more, i).Some? ==> CursorOf(more, i).value.Dated?
      ensures IsPage(s, f, now, CursorOf(more, i), limits, ReadAt(read, i), more[i], moreParts[i])
    {
      assert CursorOf(more, i) == CursorOf(pages, i);
      assert i < |pages| ==> more[i] == pages[i] && moreParts[i] == parts[i];
    }
  }

  /** All objects of the parts, in order. */
  function Joined<T>(parts: seq<seq<T>>): seq<T> {
    if parts == [] then [] else Joined(parts[..|parts| - 1]) + parts[|parts| - 1]
  }

  /** Following the cursors ends, and its pages are made of every shipped object of the range, once and
      newest first, if and only if no page is one that loses objects; otherwise one is in no page. */
  method FollowCursors(s: Store, f: Filter, now: int, limits: Limits, read: (nat, Key) -> Reading)
    returns (pages: seq<PageOf>, ghost parts: seq<seq<Key>>)
    requires WellFormed(s) && Up(s)
    ensures pages != [] && pages[|pages| - 1].next == None
    ensures ArePages(s, f, now, limits, read, pages, parts)
    ensures Joined(parts) == Remaining(s, f, now, None) <==> NothingLost(s, f, now, limits, read, pages)
    ensures !NothingLost(s, f, now, limits, read, pages) ==> exists k :: k in Remaining(s, f, now, None) && k !in Joined(parts)
    ensures (forall day :: DayBelowMark(s, day)) ==> Joined(parts) == Remaining(s, f, now, None)
  {
    hide Remaining, WellFormed, AllMatched, Sort, StopsRight, StablyNewestFirst, DayBelowMark, NothingLost, PageLoses, RunsOut, ReadAt, ListingFails, ArePages, Joined, Ends;
    pages, parts := [], [];
    ghost var lost := false;
    NothingLostYet(s, f, now, limits, read);
    NoPagesYet(s, f, now, limits, read);
    while true
      invariant CursorOf(pages, |pages|).Some? ==> CursorOf(pages, |pages|).value.Dated? && DaysLeft(s, f, now, CursorOf(pages, |pages|)) >= 0
      invariant ArePages(s, f, now, limits, read, pages, parts)
      invariant lost <==> !NothingLost(s, f, now, limits, read, pages)
      invariant Balanced(Remaining(s, f, now, None), Joined(parts), Remaining(s, f, now, CursorOf(pages, |pages|)), lost)
      invariant lost ==> exists day :: !DayBelowMark(s, day)
      decreases CursorOf(pages, |pages|).None?, DaysLeft(s, f, now, CursorOf(pages, |pages|)), |Remaining(s, f, now, CursorOf(pages, |pages|))|
    {
      PageNeverFails(s);
      UpNeverFails(s, f, CursorOf(pages, |pages|), now, limits, ReadAt(read, |pages|));
      var n, cursor := |pages|, CursorOf(pages, |pages|);
      var page, t := Page(s, f, cursor, now, limits, ReadAt(read, n));
      NothingLostOneMore(s, f, now, limits, read, pages, page.value);
      OneMorePage(s, f, now, limits, read, pages, parts, page.value, t);
      LossNeedsAName(s, f, now, cursor, limits, ReadAt(read, n));
      ghost var loses := PageLoses(s, f, now, cursor, limits, ReadAt(read, n));
      BalancedStep(Remaining(s, f, now, None), Joined(parts), Remaining(s, f, now, cursor), lost, t, Left(s, f, now, page.value.next), loses);
      lost := lost || loses;
      pages, parts := pages + [page.value], parts + [t];
      if page.value.next.None? {
        BalancedEnd(Remaining(s, f, now, None), Joined(parts), lost);
        if lost { SomeKeyIsLost(s, f, now, Joined(parts)); }
        break;
      }
    }
  }

  // ---- The events of all pages ----

  /** The events of the pages, one page after the other. */
  function AllEvents(pages: seq<PageOf>): seq<Event> {
    if pages == [] then [] else AllEvents(pages[..|pages| - 1]) + pages[|pages| - 1].events
  }

  lemma {:induction false} SameReads(f: Filter, ks: seq<Key>, read: Key -> Reading, r: Key -> Reading)
    requires forall k :: read(k) == r(k)
    ensures AllMatched(f, ks, read) == AllMatched(f, ks, r)
  {
    if ks != [] { SameReads(f, ks[..|ks| - 1], read, r); }
  }

  lemma {:induction false} MatchedAppend(f: Filter, a: seq<Key>, b: seq<Key>, r: Key -> Reading)
    ensures AllMatched(f, a + b, r) == AllMatched(f, a, r) + AllMatched(f, b, r)
  {
    hide Matched;
    if b == [] {
      assert a + b == a;
    } else {
      var n, ab := |b| - 1, a + b;
      MatchedAppend(f, a, b[..n], r);
      assert ab[..|ab| - 1] == a + b[..n] && ab[|ab| - 1] == b[n];
      Reassociate(AllMatched(f, a, r), AllMatched(f, b[..n], r), Matched(f, r(b[n])));
    }
  }

  lemma NoneMatched(f: Filter, r: Key -> Reading)
    ensures AllMatched(f, [], r) == []
  {}

  lemma {:induction false} EventsAddUp(f: Filter, r: Key -> Reading, pages: seq<PageOf>, parts: seq<seq<Key>>)
    requires |parts| == |pages|
    requires forall i :: 0 <= i < |pages| ==> multiset(pages[i].events) == multiset(AllMatched(f, parts[i], r))
    ensures multiset(AllEvents(pages)) == multiset(AllMatched(f, Joined(parts), r))
  {
    hide AllMatched;
    if pages == [] {
      NoneMatched(f, r);
    } else {
      var n := |pages| - 1;
      EventsAddUp(f, r, pages[..n], parts[..n]);
      MatchedAppend(f, Joined(parts[..n]), parts[n], r);
    }
  }

  /** If reading an object gives the same on every page, the pages show each matching event of their
      objects as often as it was read. */
  lemma PagesShowEveryEvent(s: Store, f: Filter, now: int, limits: Limits, read: (nat, Key) -> Reading, r: Key -> Reading,
                            pages: seq<PageOf>, parts: seq<seq<Key>>)
    requires ArePages(s, f, now, limits, read, pages, parts) && forall i, k :: read(i, k) == r(k)
    ensures multiset(AllEvents(pages)) == multiset(AllMatched(f, Joined(parts), r))
  {
    hide AllMatched, Ends, PageKeeps, Sorted, EventsAt, Joined, AllEvents;
    forall i | 0 <= i < |pages| ensures multiset(pages[i].events) == multiset(AllMatched(f, parts[i], r)) {
      assert IsPage(s, f, now, CursorOf(pages, i), limits, ReadAt(read, i), pages[i], parts[i]);
      SameReads(f, parts[i], ReadAt(read, i), r);
    }
    EventsAddUp(f, r, pages, parts);
  }

  // ---- A page is determined by its inputs ----

  lemma {:induction false} EventsDetermined(a: seq<Event>, b: seq<Event>)
    requires Sorted(a, NewestFirst) && Sorted(b, NewestFirst) && |a| == |b|
    requires forall ts :: EventsAt(a, ts) == EventsAt(b, ts)
    ensures a == b
  {
    if a != [] {
      FirstEvents(a, b);
      FirstEvents(b, a);
      forall ts ensures EventsAt(a[1..], ts) == EventsAt(b[1..], ts) {
        LaterEvents(a, ts);
        LaterEvents(b, ts);
        assert EventsAt(a, ts) == EventsAt(b, ts);
      }
      EventsDetermined(a[1..], b[1..]);
      assert a == [a[0]] + a[1..] && b == [b[0]] + b[1..];
    }
  }

  lemma LaterEvents(a: seq<Event>, ts: int)
    requires a != []
    ensures EventsAt(a, ts) == (if a[0].ts == ts then [a[0]] else []) + EventsAt(a[1..], ts)
    ensures EventsAt(a[1..], ts) == if a[0].ts == ts then EventsAt(a, ts)[1..] else EventsAt(a, ts)
  {}

  lemma FirstEvents(a: seq<Event>, b: seq<Event>)
    requires a != [] && b != [] && Sorted(b, NewestFirst) && EventsAt(a, a[0].ts) == EventsAt(b, a[0].ts)
    ensures b[0].ts >= a[0].ts && (b[0].ts == a[0].ts ==> b[0] == a[0])
  {
    var ts := a[0].ts;
    FilterMembers(b, (e: Event) => e.ts == ts, a[0]);
    assert EventsAt(a, ts)[0] == a[0];
    var j :| 0 <= j < |b| && b[j] == a[0];
    if j > 0 { assert NewestFirst(b[0], b[j]); }
    if b[0].ts == ts { assert EventsAt(b, ts)[0] == b[0]; }
  }

  lemma SomeKeyIsLost(s: Store, f: Filter, now: int, taken: seq<Key>)
    requires WellFormed(s) && |taken| < |Remaining(s, f, now, None)|
    ensures exists k :: k in Remaining(s, f, now, None) && k !in taken
  {
    hide Remaining, WellFormed;
    var all := Remaining(s, f, now, None);
    RangeIsCovered(s, f, now, DayMark(0));
    if forall k :: k in all ==> k in taken {
      forall i, j | 0 <= i < j < |all| ensures all[i] != all[j] { KeyLessIrreflexive(all[i], all[i]); }
      DistinctFits(all, taken);
    }
  }

  lemma NothingLostYet(s: Store, f: Filter, now: int, limits: Limits, read: (nat, Key) -> Reading)
    ensures NothingLost(s, f, now, limits, read, [])
  {}

  lemma LossNeedsAName(s: Store, f: Filter, now: int, cursor: Option<Key>, limits: Limits, read: Key -> Reading)
    requires cursor.Some? ==> cursor.value.Dated?
    ensures PageLoses(s, f, now, cursor, limits, read) ==> exists day :: !DayBelowMark(s, day)
  {
    hide DayBelowMark, OutOfDays;
  }

  // ---- Which stores lose objects ----

  /** Limits that a page over this store never reaches. */
  function WideLimits(s: Store): Limits {
    Limits(|s.listing| + 1, 0, 0)
  }

  lemma {:induction false} WideHasRoom(s: Store, f: Filter, read: Key -> Reading, ks: seq<Key>)
    requires |ks| <= |s.listing|
    ensures HasRoom(WideLimits(s), f, read, ks)
  {
    hide AllMatched, BytesOf;
    if ks != [] { WideHasRoom(s, f, read, ks[..|ks| - 1]); }
  }

  lemma {:induction false} DistinctFits(ks: seq<Key>, all: seq<Key>)
    requires forall i, j :: 0 <= i < j < |ks| ==> ks[i] != ks[j]
    requires forall k :: k in ks ==> k in all
    ensures |ks| <= |all|
  {
    if ks != [] {
      var n := |ks| - 1;
      assert ks[n] in all;
      var j :| 0 <= j < |all| && all[j] == ks[n];
      var rest := all[..j] + all[j + 1..];
      forall k | k in ks[..n] ensures k in rest {
        var i :| 0 <= i < n && ks[i] == k;
        assert k in ks && k != ks[n];
        var m :| 0 <= m < |all| && all[m] == k;
        assert rest[if m < j then m else m - 1] == k;
      }
      DistinctFits(ks[..n], rest);
    }
  }

  lemma WindowFits(s: Store, startDay: int)
    requires WellFormed(s)
    ensures |Window(s, startDay, None)| <= |s.listing|
  {
    var ks, floor := Window(s, startDay, None), startDay - MAX_DAY_LISTS + 1;
    WalkDescends(s, startDay, floor);
    hide Walk, WellFormed;
    forall k | k in ks ensures k in s.listing { WalkCovers(s, startDay, floor, k); }
    forall i, j | 0 <= i < j < |ks| ensures ks[i] != ks[j] { KeyLessIrreflexive(ks[i], ks[i]); }
    DistinctFits(ks, s.listing);
  }

  lemma ClockOfDay(day: int)
    ensures DayOfTime(day * SECONDS_PER_DAY) == day
  {}

  /** A name that reaches "~" on some day is lost to a reader whose clock is a hundred days later. */
  lemma SomeClockLoses(s: Store, day: int, read: Key -> Reading)
    requires WellFormed(s) && !DayBelowMark(s, day)
    ensures PageLoses(s, NO_FILTER, (day + MAX_DAY_LISTS) * SECONDS_PER_DAY, None, WideLimits(s), read)
  {
    hide Walk, WellFormed, FirstShipped, HasRoom, DayOfTime, StringLess;
    var startDay := day + MAX_DAY_LISTS;
    ClockOfDay(startDay);
    var k :| k in s.listing && OnDay(k, day) && !StringLess(k.name, "~");
    OldestIsOldest(s, k);
    WindowFits(s, startDay);
    WideHasRoom(s, NO_FILTER, read, Window(s, startDay, None));
  }

  /** No clock, no filter, no limits and no reads make a first page lose objects, exactly when every
      shipped name of the store sorts below "~". */
  lemma NoPageLosesIff(s: Store)
    requires WellFormed(s)
    ensures (forall f, now, limits, read :: !PageLoses(s, f, now, None, limits, read)) <==> forall day :: DayBelowMark(s, day)
  {
    hide WellFormed, DayBelowMark, PageLoses;
    if day :| !DayBelowMark(s, day) {
      SomeClockLoses(s, day, _ => Failed);
    } else {
      forall f, now, limits, read ensures !PageLoses(s, f, now, None, limits, read) {
        BelowMarkKeeps(s, f, now, limits, read);
      }
    }
  }

  lemma BelowMarkKeeps(s: Store, f: Filter, now: int, limits: Limits, read: Key -> Reading)
    requires forall day :: DayBelowMark(s, day)
    ensures !PageLoses(s, f, now, None, limits, read)
  {}

  /** Following the cursors from that clock does lose an object: it is in none of the pages. */
  method FollowingLoses(s: Store, day: int, read: (nat, Key) -> Reading) returns (pages: seq<PageOf>, ghost parts: seq<seq<Key>>)
    requires WellFormed(s) && Up(s) && !DayBelowMark(s, day)
    ensures pages != [] && pages[|pages| - 1].next == None
    ensures ArePages(s, NO_FILTER, (day + MAX_DAY_LISTS) * SECONDS_PER_DAY, WideLimits(s), read, pages, parts)
    ensures exists k :: k in Remaining(s, NO_FILTER, (day + MAX_DAY_LISTS) * SECONDS_PER_DAY, None) && k !in Joined(parts)
  {
    hide Remaining, WellFormed, DayBelowMark, PageLoses, ReadAt, ArePages, Joined;
    SomeClockLoses(s, day, ReadAt(read, 0));
    pages, parts := FollowCursors(s, NO_FILTER, (day + MAX_DAY_LISTS) * SECONDS_PER_DAY, WideLimits(s), read);
    assert CursorOf(pages, 0) == None;
  }

  lemma PageNeverFails(s: Store)
    requires WellFormed(s)
    ensures s.pageSize > 0 && (FirstShipped(s.listing).Some? ==> FirstShipped(s.listing).value.Dated?)
  {}

  const NO_FILTER := Filter("", "", "", "", None, None)
  const LOST := Dated(0, "~x")
  const LOSING := Store([LOST], 1, false, {})

  lemma LosingFacts()
    ensures WellFormed(LOSING) && FirstShipped(LOSING.listing) == Some(LOST)
    ensures OnDay(LOST, 0) && !StringLess(LOST.name, "~")
  {
    assert LOST.name[1] == 'x';
    assert Codes("~x")[0] == Codes("~")[0] && Codes("~x")[1..] != [] && Codes("~")[1..] == [];
  }

  /** Nothing of the losing store is newer than day 0. */
  lemma FirstTakesNothing(now: int, taken: seq<Key>)
    requires taken <= Remaining(LOSING, NO_FILTER, now, None) && forall k :: k in taken ==> k.Dated? && k.day > 0
    ensures taken == []
  {
    hide Remaining;
    LosingFacts();
    if taken != [] {
      assert taken[0] in taken && taken[0] in Remaining(LOSING, NO_FILTER, now, None);
      RangeIsCovered(LOSING, NO_FILTER, now, taken[0]);
    }
  }

  /** Nothing of it is left below the mark of day 0. */
  lemma NothingBelowMark(now: int)
    ensures Remaining(LOSING, NO_FILTER, now, Some(DayMark(0))) == []
  {
    LosingFacts();
    var ks := DayKeys(LOSING.listing, 0);
    DayKeysOrdered(LOSING, 0);
    assert forall k :: k in ks ==> k == LOST;
    hide DayKeys;
    FilterNone(ks, BeforeCursor(Some(DayMark(0))));
  }

  const HUNDRED_DAYS := 100 * SECONDS_PER_DAY

  lemma LosingDays()
    ensures StartDay(NO_FILTER, HUNDRED_DAYS, None) == 100 && StartDay(NO_FILTER, HUNDRED_DAYS, Some(DayMark(0))) == 0
    ensures FloorDay(NO_FILTER, 0) == 0
  {
    ClockOfDay(100);
  }

  /** A page that took nothing ends at a mark or at the end. */
  lemma EmptyStops(limits: Limits, read: Key -> Reading, startDay: int, next: Option<Key>)
    requires StopsRight(limits, NO_FILTER, read, [], startDay, 0, next)
    ensures next == if startDay >= MAX_DAY_LISTS then Some(DayMark(startDay - MAX_DAY_LISTS)) else None
  {
    assert HasRoom(limits, NO_FILTER, read, []);
  }

  /** The day budget of the first page runs out above day 0. */
  method FirstPage(limits: Limits, read: Key -> Reading) returns (first: PageOf)
    ensures first == PageOf([], Some(DayMark(0))) && IsPage(LOSING, NO_FILTER, HUNDRED_DAYS, None, limits, read, first, [])
  {
    hide WellFormed, Remaining, HasRoom, JustFull, FirstShipped, ListingFails, PageLoses, MovesOn, StablyNewestFirst, StartDay, FloorDay, Balanced, Left;
    LosingFacts();
    LosingDays();
    UpNeverFails(LOSING, NO_FILTER, None, HUNDRED_DAYS, limits, read);
    var r, taken := Page(LOSING, NO_FILTER, None, HUNDRED_DAYS, limits, read);
    FirstTakesNothing(HUNDRED_DAYS, taken);
    EmptyStops(limits, read, 100, r.value.next);
    NoEvents(r.value.events);
    first := r.value;
  }

  /** The second page starts at the mark, below which there is nothing. */
  method SecondPage(limits: Limits, read: Key -> Reading) returns (second: PageOf)
    ensures second == PageOf([], None) && IsPage(LOSING, NO_FILTER, HUNDRED_DAYS, Some(DayMark(0)), limits, read, second, [])
  {
    hide WellFormed, Remaining, HasRoom, JustFull, FirstShipped, ListingFails, PageLoses, MovesOn, StablyNewestFirst, StopsRight, StartDay, FloorDay, Balanced, Left;
    LosingFacts();
    LosingDays();
    NothingBelowMark(HUNDRED_DAYS);
    UpNeverFails(LOSING, NO_FILTER, Some(DayMark(0)), HUNDRED_DAYS, limits, read);
    var r, taken := Page(LOSING, NO_FILTER, Some(DayMark(0)), HUNDRED_DAYS, limits, read);
    EmptyStops(limits, read, 0, r.value.next);
    NoEvents(r.value.events);
    second := r.value;
  }

  /** One object whose name sorts above "~", a hundred days old: the first page is empty because its
      day budget runs out, and the second one, from the mark, is empty too. */
  method LosesObject(limits: Limits, read: Key -> Reading) returns (first: PageOf, second: PageOf)
    ensures WellFormed(LOSING) && Up(LOSING)
    ensures LOST in Remaining(LOSING, NO_FILTER, HUNDRED_DAYS, None)
    ensures first == PageOf([], Some(DayMark(0))) && IsPage(LOSING, NO_FILTER, HUNDRED_DAYS, None, limits, read, first, [])
    ensures second == PageOf([], None) && IsPage(LOSING, NO_FILTER, HUNDRED_DAYS, first.next, limits, read, second, [])
  {
    hide IsPage;
    LosingFacts();
    RangeIsCovered(LOSING, NO_FILTER, HUNDRED_DAYS, LOST);
    first := FirstPage(limits, read);
    second := SecondPage(limits, read);
  }

  lemma NoEvents(es: seq<Event>)
    ensures StablyNewestFirst(es, []) ==> es == []
  {
    if multiset(es) == multiset([]) { assert |es| == |multiset(es)|; }
  }

  /** The range in the listing's own terms. */
  lemma RangeIsCovered(s: Store, f: Filter, now: int, k: Key)
    requires WellFormed(s)
    ensures StrictlyDescending(Remaining(s, f, now, None))
    ensures k in Remaining(s, f, now, None) <==>
              && k in s.listing && k.Dated? && !IsMarker(k) && k.day <= StartDay(f, now, None)
              && (f.since.Some? ==> k.day >= DayOfTime(f.since.value))
  {
    FirstShippedIsListed(s.listing);
    match FirstShipped(s.listing)
    case None =>
    case Some(first) =>
      var floor := FloorDay(f, first.day);
      WalkDescends(s, StartDay(f, now, None), floor);
      WalkCovers(s, StartDay(f, now, None), floor, k);
      if k in s.listing && k.Dated? && !IsMarker(k) {
        OldestIsOldest(s, k);
      }
  }

  lemma OldestIsOldest(s: Store, k: Key)
    requires WellFormed(s) && k in s.listing && k.Dated? && !IsMarker(k)
    ensures FirstShipped(s.listing).Some? && FirstShipped(s.listing).value.Dated?
    ensures FirstShipped(s.listing).value.day <= k.day
  {
    var j :| 0 <= j < |s.listing| && s.listing[j] == k;
    var i := FirstShippedIsFirst(s.listing, j);
    if i < j { assert KeyLess(s.listing[i], s.listing[j]); }
  }
}
