/** The build-trigger delivery table and the statements run against it. Times
    are integers; the outcome of a delivery attempt is a parameter. */
module DeliveryQueue {
  import opened Wrappers
  import opened Sorting

  type Id = string
  type TriggerId = string

  datatype Status = Pending | InFlight | Delivered | DeadLetter

  datatype Row = Row(trigger: TriggerId, status: Status, attempts: nat, nextAttemptAt: int, lastAttemptAt: int)

  type Rows = map<Id, Row>
  type Triggers = map<TriggerId, bool>   // whether the trigger is active

  /** One claimed delivery: the row's id and the attempt count it was claimed with. */
  datatype Attempt = Attempt(id: Id, attempts: nat)

  datatype Outcome = Succeeded | FailedPermanently | Failed

  // ---- Row updates ----

  predicate Due(rows: Rows, triggers: Triggers, now: int, id: Id) {
    && id in rows && rows[id].status == Pending && rows[id].nextAttemptAt <= now
    && rows[id].trigger in triggers && triggers[rows[id].trigger]
  }

  function Claimed(r: Row, now: int): Row {
    r.(status := InFlight, attempts := r.attempts + 1, lastAttemptAt := now)
  }

  function ClaimRows(rows: Rows, ids: set<Id>, now: int): Rows {
    map id | id in rows :: if id in ids then Claimed(rows[id], now) else rows[id]
  }

  predicate Reclaimable(r: Row, cutoff: int) {
    r.status == InFlight && r.lastAttemptAt < cutoff
  }

  function ReclaimRows(rows: Rows, cutoff: int): Rows {
    map id | id in rows :: if Reclaimable(rows[id], cutoff) then rows[id].(status := Pending) else rows[id]
  }

  predicate Orphan(r: Row, triggers: Triggers) {
    r.status == Pending && r.trigger !in triggers
  }

  function DeadLetterRows(rows: Rows, triggers: Triggers, now: int): Rows {
    map id | id in rows ::
      if Orphan(rows[id], triggers) then rows[id].(status := DeadLetter, nextAttemptAt := now) else rows[id]
  }

  /** The row after attempt `a` reported; `retryAt` is the time of the next try. */
  function Recorded(r: Row, a: Attempt, outcome: Outcome, scheduleLength: nat, now: int, retryAt: int): Row {
    if outcome == Succeeded then r.(status := Delivered, nextAttemptAt := now)
    else if outcome == FailedPermanently || a.attempts >= scheduleLength + 1
      then r.(status := DeadLetter, nextAttemptAt := now)
    else r.(status := Pending, nextAttemptAt := retryAt)
  }

  predicate Replayable(r: Row) {
    r.status != InFlight
  }

  // ---- Which rows a claim takes ----

  /** Each claimed row is due and not locked, and counts one more attempt. */
  ghost predicate EachDue(rows: Rows, triggers: Triggers, now: int, locked: set<Id>, claimed: seq<Attempt>) {
    forall i :: 0 <= i < |claimed| ==>
      && Due(rows, triggers, now, claimed[i].id) && claimed[i].id !in locked
      && claimed[i].attempts == rows[claimed[i].id].attempts + 1
  }

  ghost predicate InDueOrder(rows: Rows, claimed: seq<Attempt>)
    requires forall i :: 0 <= i < |claimed| ==> claimed[i].id in rows
  {
    forall i, j :: 0 <= i < j < |claimed| ==> rows[claimed[i].id].nextAttemptAt <= rows[claimed[j].id].nextAttemptAt
  }

  predicate DistinctIds(claimed: seq<Attempt>) {
    forall i, j :: 0 <= i < j < |claimed| ==> claimed[i].id != claimed[j].id
  }

  /** A due row is left behind only by a full batch, and only by one of earlier rows. */
  ghost predicate TakesEarliest(rows: Rows, triggers: Triggers, now: int, batch: nat, locked: set<Id>, claimed: seq<Attempt>)
    requires forall i :: 0 <= i < |claimed| ==> claimed[i].id in rows
  {
    forall id :: Due(rows, triggers, now, id) && id !in locked && id !in Ids(claimed) ==>
      |claimed| == batch
      && forall i :: 0 <= i < |claimed| ==> rows[claimed[i].id].nextAttemptAt <= rows[id].nextAttemptAt
  }

  /** `claimed` is a legal answer to "the earliest due rows, up to `batch`, locked ones skipped". */
  ghost predicate LegalClaim(rows: Rows, triggers: Triggers, now: int, batch: nat, locked: set<Id>, claimed: seq<Attempt>) {
    && |claimed| <= batch && EachDue(rows, triggers, now, locked, claimed)
    && DistinctIds(claimed) && TakesEarliest(rows, triggers, now, batch, locked, claimed)
  }

  function Ids(claimed: seq<Attempt>): set<Id> {
    set i | 0 <= i < |claimed| :: claimed[i].id
  }

  predicate EarlierRow(a: (Id, int), b: (Id, int)) {
    a.1 <= b.1
  }

  lemma EarlierIsPreorder()
    ensures Preorder(EarlierRow)
  {}

  /** Lists the given rows by due time. */
  method ByDueTime(rows: Rows, ids: set<Id>) returns (order: seq<(Id, int)>)
    requires forall id :: id in ids ==> id in rows
    ensures Sorted(order, EarlierRow)
    ensures forall i :: 0 <= i < |order| ==> order[i].0 in ids && order[i].1 == rows[order[i].0].nextAttemptAt
    ensures forall i, j :: 0 <= i < j < |order| ==> order[i].0 != order[j].0
    ensures forall id :: id in ids ==> exists i :: 0 <= i < |order| && order[i].0 == id
  {
    var rest := ids;
    var out: seq<(Id, int)> := [];
    while rest != {}
      invariant rest <= ids
      invariant multiset(out) == multiset(Tagged(rows, ids - rest))
      decreases rest
    {
      var id :| id in rest;
      assert Tagged(rows, ids - (rest - {id})) == Tagged(rows, ids - rest) + {(id, rows[id].nextAttemptAt)};
      assert (id, rows[id].nextAttemptAt) !in Tagged(rows, ids - rest);
      out := out + [(id, rows[id].nextAttemptAt)];
      rest := rest - {id};
    }
    assert ids - rest == ids;
    EarlierIsPreorder();
    SortSorted(out, EarlierRow);
    order := Sort(out, EarlierRow);
    OrderFacts(rows, ids, order);
  }

  function Tagged(rows: Rows, ids: set<Id>): set<(Id, int)>
    requires forall id :: id in ids ==> id in rows
  {
    set id | id in ids :: (id, rows[id].nextAttemptAt)
  }

  lemma OrderFacts(rows: Rows, ids: set<Id>, order: seq<(Id, int)>)
    requires forall id :: id in ids ==> id in rows
    requires multiset(order) == multiset(Tagged(rows, ids))
    ensures forall i :: 0 <= i < |order| ==> order[i].0 in ids && order[i].1 == rows[order[i].0].nextAttemptAt
    ensures forall i, j :: 0 <= i < j < |order| ==> order[i].0 != order[j].0
    ensures forall id :: id in ids ==> exists i :: 0 <= i < |order| && order[i].0 == id
  {
    forall i | 0 <= i < |order| ensures order[i].0 in ids && order[i].1 == rows[order[i].0].nextAttemptAt {
      assert order[i] in multiset(order);
    }
    forall i, j | 0 <= i < j < |order| ensures order[i].0 != order[j].0 {
      if order[i] == order[j] { TwiceInBag(order, i, j); }
    }
    forall id | id in ids ensures exists i :: 0 <= i < |order| && order[i].0 == id {
      assert (id, rows[id].nextAttemptAt) in multiset(order);
    }
  }

  lemma TwiceInBag<T>(s: seq<T>, i: nat, j: nat)
    requires i < j < |s| && s[i] == s[j]
    ensures multiset(s)[s[i]] >= 2
  {
    assert s == s[..j] + [s[j]] + s[j + 1..];
    assert s[i] in s[..j];
  }

  /** The attempts for the first `n` rows of an order. */
  function AttemptsFor(rows: Rows, order: seq<(Id, int)>, n: nat): (as_: seq<Attempt>)
    requires n <= |order| && forall i :: 0 <= i < |order| ==> order[i].0 in rows
    ensures |as_| == n
    ensures forall i :: 0 <= i < n ==> as_[i] == Attempt(order[i].0, rows[order[i].0].attempts + 1)
  {
    seq(n, i requires 0 <= i < n => Attempt(order[i].0, rows[order[i].0].attempts + 1))
  }

  /** `order` lists the rows of `due` once each, by due time. */
  ghost predicate OrderOf(rows: Rows, due: set<Id>, order: seq<(Id, int)>) {
    && Sorted(order, EarlierRow)
    && (forall i :: 0 <= i < |order| ==> order[i].0 in due && order[i].0 in rows && order[i].1 == rows[order[i].0].nextAttemptAt)
    && (forall i, j :: 0 <= i < j < |order| ==> order[i].0 != order[j].0)
    && (forall id :: id in due ==> exists i :: 0 <= i < |order| && order[i].0 == id)
  }

  lemma FirstOnesAreInOrder(rows: Rows, due: set<Id>, order: seq<(Id, int)>, n: nat)
    requires OrderOf(rows, due, order) && n <= |order|
    ensures InDueOrder(rows, AttemptsFor(rows, order, n)) && DistinctIds(AttemptsFor(rows, order, n))
  {
    var claimed := AttemptsFor(rows, order, n);
    forall i, j | 0 <= i < j < |claimed|
      ensures claimed[i].id != claimed[j].id
      ensures rows[claimed[i].id].nextAttemptAt <= rows[claimed[j].id].nextAttemptAt
    {
      assert EarlierRow(order[i], order[j]);
    }
  }

  lemma RestIsLater(rows: Rows, due: set<Id>, order: seq<(Id, int)>, n: nat, id: Id)
    requires OrderOf(rows, due, order) && n <= |order| && id in due && id !in Ids(AttemptsFor(rows, order, n))
    ensures id in rows && n < |order|
    ensures forall i :: 0 <= i < n ==> rows[order[i].0].nextAttemptAt <= rows[id].nextAttemptAt
  {
    var k :| 0 <= k < |order| && order[k].0 == id;
    var claimed := AttemptsFor(rows, order, n);
    assert forall m :: 0 <= m < n ==> claimed[m].id in Ids(claimed);
    forall i | 0 <= i < n ensures rows[order[i].0].nextAttemptAt <= rows[id].nextAttemptAt {
      assert EarlierRow(order[i], order[k]);
    }
  }

  lemma FirstOnesAreLegal(rows: Rows, triggers: Triggers, now: int, batch: nat, locked: set<Id>, due: set<Id>, order: seq<(Id, int)>)
    requires forall id :: id in due <==> Due(rows, triggers, now, id) && id !in locked
    requires OrderOf(rows, due, order)
    ensures var n := if |order| < batch then |order| else batch;
            && LegalClaim(rows, triggers, now, batch, locked, AttemptsFor(rows, order, n))
            && InDueOrder(rows, AttemptsFor(rows, order, n))
  {
    hide Due, Sorted, InDueOrder, DistinctIds;
    var n := if |order| < batch then |order| else batch;
    var claimed := AttemptsFor(rows, order, n);
    FirstOnesAreInOrder(rows, due, order, n);
    forall id | Due(rows, triggers, now, id) && id !in locked && id !in Ids(claimed)
      ensures |claimed| == batch
      ensures forall i :: 0 <= i < |claimed| ==> rows[claimed[i].id].nextAttemptAt <= rows[id].nextAttemptAt
    {
      RestIsLater(rows, due, order, n, id);
    }
  }

  lemma NothingClaimed(rows: Rows, claimed: seq<Attempt>, now: int)
    ensures ClaimRows(rows, Ids(claimed[..0]), now) == rows
  {}

  /** Updating one more selected row claims one more row. */
  lemma ClaimOneMore(rows: Rows, triggers: Triggers, now: int, stamp: int, batch: nat, locked: set<Id>, claimed: seq<Attempt>, i: nat)
    requires LegalClaim(rows, triggers, now, batch, locked, claimed) && i < |claimed|
    ensures var before, id := ClaimRows(rows, Ids(claimed[..i]), stamp), claimed[i].id;
            && id in before && before[id] == rows[id] && claimed[i].attempts == rows[id].attempts + 1
            && ClaimRows(rows, Ids(claimed[..i + 1]), stamp) == before[id := Claimed(rows[id], stamp)]
  {
    var id := claimed[i].id;
    assert Due(rows, triggers, now, id);
    assert id !in Ids(claimed[..i]);
    assert Ids(claimed[..i + 1]) == Ids(claimed[..i]) + {id};
  }

  // ---- The table ----

  lemma {:induction false} DistinctBag(s: seq<Attempt>, x: Attempt)
    requires DistinctIds(s)
    ensures multiset(s)[x] <= 1
  {
    if s != [] {
      var front, last := s[..|s| - 1], s[|s| - 1];
      DistinctBag(front, x);
      assert s == front + [last];
      forall i | 0 <= i < |front| ensures front[i] != last {}
    }
  }

  lemma SameDistinctIds(a: seq<Attempt>, b: seq<Attempt>)
    requires DistinctIds(a) && multiset(a) == multiset(b)
    ensures DistinctIds(b)
  {
    forall i, j | 0 <= i < j < |b| ensures b[i].id != b[j].id {
      assert b[i] in multiset(a) && b[j] in multiset(a);
      var k :| 0 <= k < |a| && a[k] == b[i];
      var m :| 0 <= m < |a| && a[m] == b[j];
      if b[i] == b[j] {
        TwiceInBag(b, i, j);
        DistinctBag(a, b[i]);
      }
    }
  }

  /** A legal claim stays one in any other order. */
  lemma AnyOrderIsLegal(rows: Rows, triggers: Triggers, now: int, batch: nat, locked: set<Id>, a: seq<Attempt>, b: seq<Attempt>)
    requires LegalClaim(rows, triggers, now, batch, locked, a) && multiset(a) == multiset(b)
    ensures LegalClaim(rows, triggers, now, batch, locked, b)
  {
    SameDistinctIds(a, b);
    hide DistinctIds, Due;
    assert |a| == |multiset(a)| == |multiset(b)| == |b|;
    forall i | 0 <= i < |b| ensures exists k :: 0 <= k < |a| && a[k] == b[i] { assert b[i] in multiset(a); }
    forall k | 0 <= k < |a| ensures a[k].id in Ids(b) {
      assert a[k] in multiset(b);
      var i :| 0 <= i < |b| && b[i] == a[k];
    }
  }

  datatype ReplayResult = Replayed | NotFound | InFlightNow

  class Table {
    var rows: Rows
    var triggers: Triggers

    constructor ()
      ensures rows == map[] && triggers == map[]
    {
      rows, triggers := map[], map[];
    }

    /** The due rows that nobody has locked, earliest first, up to `batch`. */
    method Select(now: int, batch: nat, locked: set<Id>) returns (claimed: seq<Attempt>)
      ensures LegalClaim(rows, triggers, now, batch, locked, claimed) && InDueOrder(rows, claimed)
    {
      var due := set id | id in rows && Due(rows, triggers, now, id) && id !in locked;
      var order := ByDueTime(rows, due);
      var n := if |order| < batch then |order| else batch;
      FirstOnesAreLegal(rows, triggers, now, batch, locked, due, order);
      claimed := AttemptsFor(rows, order, n);
    }

    /** SELECT at `now`, then UPDATE row by row at `stamp`, in one transaction. */
    method ClaimSerialized(now: int, stamp: int, batch: nat) returns (claimed: seq<Attempt>)
      modifies this`rows
      ensures LegalClaim(old(rows), triggers, now, batch, {}, claimed) && InDueOrder(old(rows), claimed)
      ensures rows == ClaimRows(old(rows), Ids(claimed), stamp)
    {
      hide LegalClaim, ClaimRows, InDueOrder;
      claimed := Select(now, batch, {});
      NothingClaimed(rows, claimed, stamp);
      for i := 0 to |claimed|
        invariant rows == ClaimRows(old(rows), Ids(claimed[..i]), stamp)
      {
        ClaimOneMore(old(rows), triggers, now, stamp, batch, {}, claimed, i);
        var id := claimed[i].id;
        rows := rows[id := rows[id].(status := InFlight, lastAttemptAt := stamp, attempts := claimed[i].attempts)];
      }
      assert claimed[..|claimed|] == claimed;
    }

    /** One UPDATE over the due rows that nobody else has locked; it returns them in any order. */
    method ClaimSkipLocked(now: int, batch: nat, locked: set<Id>) returns (claimed: seq<Attempt>)
      modifies this`rows
      ensures LegalClaim(old(rows), triggers, now, batch, locked, claimed)
      ensures rows == ClaimRows(old(rows), Ids(claimed), now)
    {
      hide LegalClaim, InDueOrder;
      var selected := Select(now, batch, locked);
      claimed :| multiset(claimed) == multiset(selected);
      AnyOrderIsLegal(rows, triggers, now, batch, locked, selected, claimed);
      var ids := Ids(claimed);
      rows := map id | id in rows ::
        if id in ids then rows[id].(status := InFlight, lastAttemptAt := now, attempts := rows[id].attempts + 1) else rows[id];
    }

    /** UPDATE of one row by id, which changes nothing if there is no such row. */
    method SetStatus(id: Id, status: Status, nextAttemptAt: int)
      modifies this`rows
      ensures rows == if id in old(rows)
                      then old(rows)[id := old(rows)[id].(status := status, nextAttemptAt := nextAttemptAt)] else old(rows)
    {
      if id in rows {
        rows := rows[id := rows[id].(status := status, nextAttemptAt := nextAttemptAt)];
      }
    }

    /** Writes what an attempt reported, whatever the row's status is by now. The backoff index
        is always within the schedule: an attempt that counts from 1 needs no clamping. */
    method RecordResult(a: Attempt, outcome: Outcome, schedule: seq<int>, jitter: int, now: int)
      returns (ghost retryAt: int)
      requires a.attempts > 0 || schedule != []
      modifies this`rows
      ensures a.id !in old(rows) ==> rows == old(rows)
      ensures a.id in old(rows) ==>
                rows == old(rows)[a.id := Recorded(old(rows)[a.id], a, outcome, |schedule|, now, retryAt)]
      ensures outcome == Failed && a.attempts <= |schedule|
              ==> retryAt == now + schedule[if a.attempts == 0 then 0 else a.attempts - 1] + jitter
    {
      retryAt := now;
      if outcome == Succeeded {
        SetStatus(a.id, Delivered, now);
        return;
      }
      var maxAttempts := |schedule| + 1;
      if outcome == FailedPermanently || a.attempts >= maxAttempts {
        SetStatus(a.id, DeadLetter, now);
        return;
      }
      var idx := a.attempts - 1;
      if idx < 0 {
        idx := 0;
      }
      if idx >= |schedule| {
        idx := |schedule| - 1;
      }
      var nextAt := now + schedule[idx] + jitter;
      retryAt := nextAt;
      SetStatus(a.id, Pending, nextAt);
    }

    method Reclaim(now: int, threshold: int)
      modifies this`rows
      ensures rows == ReclaimRows(old(rows), now - threshold)
    {
      var cutoff := now - threshold;
      rows := map id | id in rows ::
        if rows[id].status == InFlight && rows[id].lastAttemptAt < cutoff then rows[id].(status := Pending) else rows[id];
    }

    method DeadLetterOrphans(now: int) returns (n: nat)
      modifies this`rows
      ensures rows == DeadLetterRows(old(rows), triggers, now)
      ensures n == |set id | id in old(rows) && Orphan(old(rows)[id], triggers)|
    {
      n := |set id | id in rows && Orphan(rows[id], triggers)|;
      rows := map id | id in rows ::
        if rows[id].status == Pending && rows[id].trigger !in triggers
        then rows[id].(status := DeadLetter, nextAttemptAt := now) else rows[id];
    }

    /** Puts a row that is not in flight back to pending; attempts are kept. */
    method Replay(id: Id, now: int) returns (r: ReplayResult)
      modifies this`rows
      ensures r == if id !in old(rows) then NotFound else if Replayable(old(rows)[id]) then Replayed else InFlightNow
      ensures rows == if r == Replayed then old(rows)[id := old(rows)[id].(status := Pending, nextAttemptAt := now)] else old(rows)
    {
      if id in rows && (rows[id].status == Pending || rows[id].status == Delivered || rows[id].status == DeadLetter) {
        rows := rows[id := rows[id].(status := Pending, nextAttemptAt := now)];
        return Replayed;
      }
      r := if id !in rows then NotFound else InFlightNow;
    }

    /** Adds a delivery for a trigger that fired. */
    method Insert(id: Id, trigger: TriggerId, now: int)
      requires id !in rows
      modifies this`rows
      ensures rows == old(rows)[id := Row(trigger, Pending, 0, now, 0)]
    {
      rows := rows[id := Row(trigger, Pending, 0, now, 0)];
    }
  }
}
