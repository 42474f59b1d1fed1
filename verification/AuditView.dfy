/** What a reader of the audit log sees, in terms of the stored objects and the
    filter's own fields: which objects a page may come from, which events it
    shows and when it stops. */
module AuditView {
  import opened Wrappers
  import opened Order
  import opened Sorting
  import opened AuditPage

  // ---- Which events are shown ----

  /** Everything decoded from the objects, in order. */
  function ReadEvents(ks: seq<Key>, read: Key -> Reading): seq<Event> {
    if ks == [] then []
    else
      EventsIn(read(ks[0])) + ReadEvents(ks[1..], read)
  }

  /** Every non-empty field of the filter agrees with the event, and it lies within the bounds. */
  predicate Wanted(f: Filter, e: Event) {
    && (f.eventPrefix == "" || f.eventPrefix <= e.event)
    && f.tenant in {"", e.tenant} && f.repo in {"", e.repo} && f.actor in {"", e.actor}
    && !(f.since.Some? && e.ts < f.since.value) && !(f.until.Some? && e.ts > f.until.value)
  }

  lemma {:induction false} FilterCounts(es: seq<Event>, p: Event -> bool, e: Event)
    ensures multiset(Sorting.Filter(es, p))[e] == if p(e) then multiset(es)[e] else 0
  {
    if es != [] {
      FilterCounts(es[1..], p, e);
      assert es == [es[0]] + es[1..];
    }
  }

  function EventsIn(r: Reading): seq<Event> {
    if r.Decoded? then r.events else []
  }

  lemma {:induction false} ReadOneMore(ks: seq<Key>, k: Key, read: Key -> Reading)
    ensures ReadEvents(ks + [k], read) == ReadEvents(ks, read) + EventsIn(read(k))
  {
    hide EventsIn;
    if ks == [] {
      assert [] + [k] == [k] && [k][1..] == [];
      assert EventsIn(read(k)) + [] == EventsIn(read(k)) == [] + EventsIn(read(k));
    } else {
      var all := ks + [k];
      ReadOneMore(ks[1..], k, read);
      assert all[1..] == ks[1..] + [k] && all[0] == ks[0];
      Reassociate(EventsIn(read(ks[0])), ReadEvents(ks[1..], read), EventsIn(read(k)));
    }
  }

  lemma MatchIsWanted(f: Filter, e: Event)
    ensures f.Match(e) <==> Wanted(f, e)
  {}

  lemma MatchedIn(f: Filter, r: Reading, e: Event)
    ensures multiset(Matched(f, r))[e] == if Wanted(f, e) then multiset(EventsIn(r))[e] else 0
  {
    hide Wanted, Filter.Match;
    MatchIsWanted(f, e);
    if r.Decoded? { FilterCounts(r.events, (x: Event) => f.Match(x), e); }
  }

  lemma {:induction false} MatchedCounts(f: Filter, ks: seq<Key>, read: Key -> Reading, e: Event)
    ensures multiset(AllMatched(f, ks, read))[e] == if Wanted(f, e) then multiset(ReadEvents(ks, read))[e] else 0
  {
    hide Wanted, Matched, EventsIn;
    if ks != [] {
      var front, k := ks[..|ks| - 1], ks[|ks| - 1];
      MatchedCounts(f, front, read, e);
      ReadOneMore(front, k, read);
      assert ks == front + [k];
      MatchedIn(f, read(k), e);
    }
  }

  /** A page shows, newest first, exactly the events of its objects that agree with every non-empty
      field of the filter and lie within its bounds, as often as they were read. */
  lemma PageShows(s: Store, f: Filter, now: int, cursor: Option<Key>, limits: Limits, read: Key -> Reading, page: PageOf, taken: seq<Key>)
    requires cursor.Some? ==> cursor.value.Dated?
    requires IsPage(s, f, now, cursor, limits, read, page, taken)
    ensures forall i, j :: 0 <= i < j < |page.events| ==> page.events[i].ts >= page.events[j].ts
    ensures forall e :: e in page.events ==>
              && (f.eventPrefix != "" ==> f.eventPrefix <= e.event) && (f.tenant != "" ==> e.tenant == f.tenant)
              && (f.repo != "" ==> e.repo == f.repo) && (f.actor != "" ==> e.actor == f.actor)
              && (f.since.Some? ==> f.since.value <= e.ts) && (f.until.Some? ==> e.ts <= f.until.value)
    ensures forall e :: multiset(page.events)[e] == if Wanted(f, e) then multiset(ReadEvents(taken, read))[e] else 0
  {
    hide AllMatched, Ends, PageKeeps, ReadEvents, EventsAt;
    forall e ensures multiset(page.events)[e] == if Wanted(f, e) then multiset(ReadEvents(taken, read))[e] else 0 {
      MatchedCounts(f, taken, read, e);
    }
    forall e | e in page.events ensures Wanted(f, e) { assert multiset(page.events)[e] > 0; }
    forall i, j | 0 <= i < j < |page.events| ensures page.events[i].ts >= page.events[j].ts {
      assert NewestFirst(page.events[i], page.events[j]);
    }
  }

  /** An empty filter shows every event that was read. */
  lemma EmptyFilterShowsAll(s: Store, now: int, cursor: Option<Key>, limits: Limits, read: Key -> Reading, page: PageOf, taken: seq<Key>)
    requires cursor.Some? ==> cursor.value.Dated?
    requires IsPage(s, Filter("", "", "", "", None, None), now, cursor, limits, read, page, taken)
    ensures multiset(page.events) == multiset(ReadEvents(taken, read))
  {
    hide IsPage;
    PageShows(s, Filter("", "", "", "", None, None), now, cursor, limits, read, page, taken);
  }

  /** The same over all pages that following the cursors gives, if reading an object gives the same on
      every page. */
  lemma PagesShow(s: Store, f: Filter, now: int, limits: Limits, read: (nat, Key) -> Reading, r: Key -> Reading,
                  pages: seq<PageOf>, parts: seq<seq<Key>>, e: Event)
    requires ArePages(s, f, now, limits, read, pages, parts) && forall i, k :: read(i, k) == r(k)
    ensures multiset(AllEvents(pages))[e] == if Wanted(f, e) then multiset(ReadEvents(Joined(parts), r))[e] else 0
  {
    hide ArePages, AllMatched, AllEvents, Joined, ReadEvents;
    PagesShowEveryEvent(s, f, now, limits, read, r, pages, parts);
    MatchedCounts(f, Joined(parts), r, e);
  }

  // ---- Which objects are in range ----

  lemma {:induction false} WalkIs(s: Store, day: int, floor: int, cursor: Option<Key>, k: Key)
    requires WellFormed(s)
    ensures k in Walk(s.listing, day, floor, cursor)
            <==> k in s.listing && k.Dated? && !IsMarker(k) && floor <= k.day <= day && Before(k, cursor)
    decreases day - floor + 1
  {
    hide DayKeys, WellFormed, Before, Sorting.Filter, IsMarker;
    if day >= floor {
      DayKeysOrdered(s, day);
      FilterMembers(DayKeys(s.listing, day), BeforeCursor(cursor), k);
      WalkIs(s, day - 1, floor, cursor, k);
    }
  }

  lemma DayIsAtMost(day: int, t: int)
    ensures day <= DayOfTime(t) <==> day * 86400 <= t
    ensures day >= DayOfTime(t) <==> t < (day + 1) * 86400
    ensures day <= DayOfTime(t) + 1 <==> day * 86400 <= t + 86400
  {}

  /** What is left from a cursor: the shipped objects below it, or up to the clock's day, that are not
      after the day that follows `until` and not before the day of `since`. */
  lemma RemainingIs(s: Store, f: Filter, now: int, cursor: Option<Key>, k: Key)
    requires WellFormed(s) && (cursor.Some? ==> cursor.value.Dated?)
    ensures k in Remaining(s, f, now, cursor) <==>
              && k in s.listing && k.Dated? && k.name != "" && k.name[|k.name| - 1] != '/'
              && (cursor.None? ==> k.day * 86400 <= now)
              && (cursor.Some? ==> k.day < cursor.value.day || (k.day == cursor.value.day && StringLess(k.name, cursor.value.name)))
              && (f.until.Some? ==> k.day * 86400 <= f.until.value + 86400)
              && (f.since.Some? ==> f.since.value < (k.day + 1) * 86400)
  {
    if k in s.listing && k.Dated? && !IsMarker(k) { OldestIsOldest(s, k); }
    match FirstShipped(s.listing)
    case Some(Dated(oldest, _)) =>
      WalkIs(s, StartDay(f, now, cursor), FloorDay(f, oldest), cursor, k);
      hide WellFormed, FirstShipped, Walk, DayOfTime, StringLess;
      if k.Dated? {
        DayIsAtMost(k.day, now);
        if f.until.Some? { DayIsAtMost(k.day, f.until.value); }
        if f.since.Some? { DayIsAtMost(k.day, f.since.value); }
      }
    case _ =>
  }

  /** A folder marker: a key whose last part is empty. */
  predicate IsFolder(k: Key) {
    var text := if k.Dated? then k.name else k.text;
    text == "" || text[|text| - 1] == '/'
  }

  /** The oldest object is the first key of the listing that is no folder marker, dated or not. */
  lemma {:induction false} OldestIs(ks: seq<Key>, k: Key)
    ensures FirstShipped(ks) == Some(k) ==> exists i :: 0 <= i < |ks| && ks[i] == k && !IsFolder(k) && forall j :: 0 <= j < i ==> IsFolder(ks[j])
    ensures FirstShipped(ks) == None ==> forall j :: 0 <= j < |ks| ==> IsFolder(ks[j])
  {
    if ks != [] && IsMarker(ks[0]) {
      OldestIs(ks[1..], k);
      if FirstShipped(ks) == Some(k) {
        var i :| 0 <= i < |ks[1..]| && ks[1..][i] == k && !IsFolder(k) && forall j :: 0 <= j < i ==> IsFolder(ks[1..][j]);
        forall j | 0 <= j < i + 1 ensures IsFolder(ks[j]) { if j > 0 { assert ks[j] == ks[1..][j - 1]; } }
        assert ks[i + 1] == k;
      } else if FirstShipped(ks) == None {
        forall j | 0 <= j < |ks| ensures IsFolder(ks[j]) { if j > 0 { assert ks[j] == ks[1..][j - 1]; } }
      }
    }
  }

  // ---- When a page stops ----

  /** The sizes of the objects that could be decoded. */
  function TotalSize(ks: seq<Key>, read: Key -> Reading): nat {
    if ks == [] then 0 else (match read(ks[0]) case Decoded(_, size) => size case Failed => 0) + TotalSize(ks[1..], read)
  }

  lemma {:induction false} SizeOneMore(ks: seq<Key>, k: Key, read: Key -> Reading)
    ensures TotalSize(ks + [k], read) == TotalSize(ks, read) + if read(k).Decoded? then read(k).size else 0
  {
    if ks == [] {
      assert [] + [k] == [k] && [k][1..] == [];
    } else {
      var all := ks + [k];
      SizeOneMore(ks[1..], k, read);
      assert all[1..] == ks[1..] + [k] && all[0] == ks[0];
    }
  }

  lemma {:induction false} BytesAreSizes(ks: seq<Key>, read: Key -> Reading)
    ensures BytesOf(ks, read) == TotalSize(ks, read)
  {
    if ks != [] {
      var front, k := ks[..|ks| - 1], ks[|ks| - 1];
      BytesAreSizes(front, read);
      SizeOneMore(front, k, read);
      assert ks == front + [k];
    }
  }

  function CountWanted(f: Filter, es: seq<Event>): nat {
    if es == [] then 0 else (if Wanted(f, es[0]) then 1 else 0) + CountWanted(f, es[1..])
  }

  lemma {:induction false} CountAppend(f: Filter, a: seq<Event>, b: seq<Event>)
    ensures CountWanted(f, a + b) == CountWanted(f, a) + CountWanted(f, b)
  {
    hide Wanted;
    if a == [] {
      assert a + b == b;
    } else {
      CountAppend(f, a[1..], b);
      assert (a + b)[1..] == a[1..] + b && (a + b)[0] == a[0];
    }
  }

  lemma {:induction false} FilterLength(f: Filter, es: seq<Event>)
    ensures |Sorting.Filter(es, (x: Event) => f.Match(x))| == CountWanted(f, es)
  {
    if es != [] { FilterLength(f, es[1..]); }
  }

  lemma MatchedLengthIn(f: Filter, r: Reading)
    ensures |Matched(f, r)| == CountWanted(f, EventsIn(r))
  {
    FilterLength(f, EventsIn(r));
  }

  /** How many of the events of these objects are wanted. */
  lemma {:induction false} MatchedLength(f: Filter, ks: seq<Key>, read: Key -> Reading)
    ensures |AllMatched(f, ks, read)| == CountWanted(f, ReadEvents(ks, read))
  {
    hide Wanted, Matched, EventsIn;
    if ks != [] {
      var front, k := ks[..|ks| - 1], ks[|ks| - 1];
      MatchedLength(f, front, read);
      MatchedLengthIn(f, read(k));
      ReadOneMore(front, k, read);
      assert ks == front + [k];
      CountAppend(f, ReadEvents(front, read), EventsIn(read(k)));
    }
  }

  /** One of the three limits is reached: 20 objects unless another number is set, and the bytes and
      the events if there is a limit on them. */
  predicate Reached(limits: Limits, objects: nat, bytes: nat, events: nat) {
    || (if limits.objectsPerPage > 0 then objects >= limits.objectsPerPage else objects >= 20)
    || 0 < limits.maxBytes <= bytes
    || 0 < limits.maxEvents <= events
  }

  lemma {:induction false} RoomBelow(limits: Limits, f: Filter, read: Key -> Reading, ks: seq<Key>, n: nat)
    requires HasRoom(limits, f, read, ks) && 0 < n <= |ks|
    ensures !Reached(limits, n, TotalSize(ks[..n], read), CountWanted(f, ReadEvents(ks[..n], read)))
  {
    hide AllMatched, ReadEvents, CountWanted, BytesOf, TotalSize;
    if n == |ks| {
      assert ks[..n] == ks;
      BytesAreSizes(ks, read);
      MatchedLength(f, ks, read);
    } else {
      RoomBelow(limits, f, read, ks[..|ks| - 1], n);
      assert ks[..|ks| - 1][..n] == ks[..n];
    }
  }

  /** A page stops at the first object that reaches a limit: with one fewer it would not have. If it
      continues at an object, that object reached one; if it continues at a mark, none was reached, and
      the mark is "~" on the hundredth day before the first one it lists. */
  lemma PageStops(s: Store, f: Filter, now: int, cursor: Option<Key>, limits: Limits, read: Key -> Reading, page: PageOf, taken: seq<Key>)
    requires cursor.Some? ==> cursor.value.Dated?
    requires IsPage(s, f, now, cursor, limits, read, page, taken)
    ensures forall n :: 0 < n < |taken| ==> !Reached(limits, n, TotalSize(taken[..n], read), CountWanted(f, ReadEvents(taken[..n], read)))
    ensures page.next.Some? ==>
              if taken != [] && Reached(limits, |taken|, TotalSize(taken, read), |page.events|)
              then page.next.value == taken[|taken| - 1]
              else page.next.value == Dated(StartDay(f, now, cursor) - 100, "~")
  {
    hide PageKeeps, EventsAt, AllMatched, HasRoom, Fills, StartDay, FloorDay, FirstShipped, Sorted;
    assert |page.events| == |multiset(page.events)| == |multiset(AllMatched(f, taken, read))| == |AllMatched(f, taken, read)|;
    BytesAreSizes(taken, read);
    if taken != [] { StopsAt(limits, f, read, taken); }
    forall n | 0 < n < |taken| ensures !Reached(limits, n, TotalSize(taken[..n], read), CountWanted(f, ReadEvents(taken[..n], read))) {
      StopsBelow(limits, f, read, taken, n);
    }
  }

  lemma StopsAt(limits: Limits, f: Filter, read: Key -> Reading, ks: seq<Key>)
    requires ks != [] && (HasRoom(limits, f, read, ks) || JustFull(limits, f, read, ks))
    ensures JustFull(limits, f, read, ks) <==> Reached(limits, |ks|, TotalSize(ks, read), |AllMatched(f, ks, read)|)
    ensures !(HasRoom(limits, f, read, ks) && JustFull(limits, f, read, ks))
  {
    hide AllMatched;
    BytesAreSizes(ks, read);
  }

  lemma StopsBelow(limits: Limits, f: Filter, read: Key -> Reading, ks: seq<Key>, n: nat)
    requires (HasRoom(limits, f, read, ks) || JustFull(limits, f, read, ks)) && 0 < n < |ks|
    ensures !Reached(limits, n, TotalSize(ks[..n], read), CountWanted(f, ReadEvents(ks[..n], read)))
  {
    RoomBelow(limits, f, read, ks[..|ks| - 1], n);
    assert ks[..|ks| - 1][..n] == ks[..n];
  }
}
