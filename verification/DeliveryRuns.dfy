/** Whole runs of the delivery queue: enqueues, claims, reports, reclaims,
    orphan sweeps, replays and trigger changes in any order and at any times. */
module DeliveryRuns {
  import opened Wrappers
  import opened DeliveryQueue

  datatype State = State(
    rows: Rows,
    triggers: Triggers,
    outstanding: set<Attempt>,   // claimed, not reported, not reclaimed
    abandoned: set<Attempt>,     // reclaimed before they reported
    claims: map<Id, nat>,        // how often each row was claimed, reclaimed and replayed
    reclaims: map<Id, nat>,
    replays: map<Id, nat>)

  datatype Event =
    | Enqueue(id: Id, trigger: TriggerId, now: int)
    | Claim(now: int, stamp: int, batch: nat, locked: set<Id>, claimed: seq<Attempt>)
    | Report(attempt: Attempt, outcome: Outcome, now: int, retryAt: int)
    | Vanish(attempt: Attempt)       // the worker dies or its update fails
    | Reclaim(cutoff: int)
    | SweepOrphans(now: int)
    | Replay(id: Id, now: int)
    | SetTrigger(trigger: TriggerId, active: bool)
    | RemoveTrigger(trigger: TriggerId)

  function Count(m: map<Id, nat>, id: Id): nat {
    if id in m then m[id] else 0
  }

  ghost predicate Enabled(s: State, e: Event) {
    match e
    case Enqueue(id, _, _) => id !in s.rows
    case Claim(now, _, batch, locked, claimed) => LegalClaim(s.rows, s.triggers, now, batch, locked, claimed)
    case Report(a, _, _, _) => a in s.outstanding || a in s.abandoned
    case Vanish(a) => a in s.outstanding || a in s.abandoned
    case _ => true
  }

  /** The documented assumption: an attempt that was reclaimed never reports back. */
  predicate Prompt(s: State, e: Event) {
    e.Report? ==> e.attempt in s.outstanding
  }

  function Bumped(m: map<Id, nat>, rows: Rows, ids: set<Id>): map<Id, nat> {
    map id | id in rows :: if id in ids then Count(m, id) + 1 else Count(m, id)
  }

  function Reclaimed(rows: Rows, cutoff: int): set<Id> {
    set id | id in rows && Reclaimable(rows[id], cutoff)
  }

  ghost function Apply(s: State, e: Event, scheduleLength: nat): State {
    match e
    case Enqueue(id, trigger, now) => s.(rows := s.rows[id := Row(trigger, Pending, 0, now, 0)])
    case Claim(_, stamp, _, _, claimed) =>
      s.(rows := ClaimRows(s.rows, Ids(claimed), stamp),
         outstanding := s.outstanding + (set a | a in claimed),
         claims := Bumped(s.claims, s.rows, Ids(claimed)))
    case Report(a, outcome, now, retryAt) =>
      var t := s.(outstanding := s.outstanding - {a}, abandoned := s.abandoned - {a});
      if a.id !in s.rows then t
      else t.(rows := s.rows[a.id := Recorded(s.rows[a.id], a, outcome, scheduleLength, now, retryAt)])
    case Vanish(a) => s.(outstanding := s.outstanding - {a}, abandoned := s.abandoned - {a})
    case Reclaim(cutoff) =>
      var ids := Reclaimed(s.rows, cutoff);
      s.(rows := ReclaimRows(s.rows, cutoff),
         outstanding := (set a | a in s.outstanding && a.id !in ids),
         abandoned := s.abandoned + (set a | a in s.outstanding && a.id in ids),
         reclaims := Bumped(s.reclaims, s.rows, ids))
    case SweepOrphans(now) => s.(rows := DeadLetterRows(s.rows, s.triggers, now))
    case Replay(id, now) =>
      if id in s.rows && Replayable(s.rows[id]) then
        s.(rows := s.rows[id := s.rows[id].(status := Pending, nextAttemptAt := now)],
           replays := Bumped(s.replays, s.rows, {id}))
      else s
    case SetTrigger(t, active) => s.(triggers := s.triggers[t := active])
    case RemoveTrigger(t) => s.(triggers := s.triggers - {t})
  }

  predicate Initial(s: State) {
    s == State(map[], map[], {}, {}, map[], map[], map[])
  }

  ghost function Exec(s: State, es: seq<Event>, n: nat): State {
    if es == [] then s else Apply(Exec(s, es[..|es| - 1], n), es[|es| - 1], n)
  }

  ghost predicate Legal(s: State, es: seq<Event>, n: nat) {
    es == [] ||
    (Legal(s, es[..|es| - 1], n) && Enabled(Exec(s, es[..|es| - 1], n), es[|es| - 1]))
  }

  ghost predicate AllPrompt(s: State, es: seq<Event>, n: nat) {
    es == [] ||
    (AllPrompt(s, es[..|es| - 1], n) && Prompt(Exec(s, es[..|es| - 1], n), es[|es| - 1]))
  }

  // ---- Invariant ----

  /** A row's attempts stay within its budget: one less while it waits for its next claim. */
  ghost predicate WithinBudget(s: State, id: Id, r: Row, n: nat) {
    && r.attempts <= n + 1 + Count(s.reclaims, id) + Count(s.replays, id)
    && (r.status == Pending ==> r.attempts <= n + Count(s.reclaims, id) + Count(s.replays, id))
    && r.attempts == Count(s.claims, id)
  }

  /** A claimed attempt that is still out is the one its in-flight row was last claimed for. */
  ghost predicate Current(rows: Rows, a: Attempt) {
    a.attempts > 0 && a.id in rows && rows[a.id].status == InFlight && rows[a.id].attempts == a.attempts
  }

  ghost predicate Inv(s: State, n: nat) {
    && (forall id :: id in s.rows ==> WithinBudget(s, id, s.rows[id], n))
    && (forall a :: a in s.outstanding ==> Current(s.rows, a))
    && (forall id :: id !in s.rows ==> Count(s.claims, id) == 0)
  }

  lemma ClaimKeepsInv(s: State, e: Event, n: nat)
    requires Inv(s, n) && Enabled(s, e) && e.Claim?
    ensures Inv(Apply(s, e, n), n)
  {
    var t := Apply(s, e, n);
    forall a | a in t.outstanding ensures Current(t.rows, a) {
      if a in e.claimed {
        var i :| 0 <= i < |e.claimed| && e.claimed[i] == a;
        assert a.id in Ids(e.claimed);
      } else {
        assert Current(s.rows, a);
        forall i | 0 <= i < |e.claimed| ensures e.claimed[i].id != a.id {
          assert Due(s.rows, s.triggers, e.now, e.claimed[i].id);
        }
      }
    }
    forall id | id in t.rows ensures WithinBudget(t, id, t.rows[id], n) {
      assert WithinBudget(s, id, s.rows[id], n);
      if id in Ids(e.claimed) {
        var i :| 0 <= i < |e.claimed| && e.claimed[i].id == id;
        assert Due(s.rows, s.triggers, e.now, id);
      }
    }
  }

  lemma ReportKeepsInv(s: State, e: Event, n: nat)
    requires Inv(s, n) && Prompt(s, e) && e.Report?
    ensures Inv(Apply(s, e, n), n)
  {
    var t := Apply(s, e, n);
    var a := e.attempt;
    assert Current(s.rows, a) && WithinBudget(s, a.id, s.rows[a.id], n);
    forall b | b in t.outstanding ensures Current(t.rows, b) {
      assert Current(s.rows, b);
      assert b.id == a.id ==> b == a;
    }
    forall id | id in t.rows ensures WithinBudget(t, id, t.rows[id], n) {
      assert WithinBudget(s, id, s.rows[id], n);
    }
  }

  lemma ReclaimKeepsInv(s: State, e: Event, n: nat)
    requires Inv(s, n) && e.Reclaim?
    ensures Inv(Apply(s, e, n), n)
  {
    var t := Apply(s, e, n);
    forall id | id in t.rows ensures WithinBudget(t, id, t.rows[id], n) {
      assert WithinBudget(s, id, s.rows[id], n);
    }
    forall a | a in t.outstanding ensures Current(t.rows, a) {
      assert Current(s.rows, a);
    }
  }

  lemma OtherStepKeepsInv(s: State, e: Event, n: nat)
    requires Inv(s, n) && Enabled(s, e) && !e.Claim? && !e.Report? && !e.Reclaim?
    ensures Inv(Apply(s, e, n), n)
  {
    var t := Apply(s, e, n);
    forall id | id in t.rows ensures WithinBudget(t, id, t.rows[id], n) {
      if id in s.rows { assert WithinBudget(s, id, s.rows[id], n); }
    }
    forall a | a in t.outstanding ensures Current(t.rows, a) {
      assert Current(s.rows, a);
    }
  }

  lemma StepKeepsInv(s: State, e: Event, n: nat)
    requires Inv(s, n) && Enabled(s, e) && Prompt(s, e)
    ensures Inv(Apply(s, e, n), n)
  {
    if e.Claim? {
      ClaimKeepsInv(s, e, n);
    } else if e.Report? {
      ReportKeepsInv(s, e, n);
    } else if e.Reclaim? {
      ReclaimKeepsInv(s, e, n);
    } else {
      OtherStepKeepsInv(s, e, n);
    }
  }

  lemma {:induction false} RunKeepsInv(s: State, es: seq<Event>, n: nat)
    requires Initial(s) && Legal(s, es, n) && AllPrompt(s, es, n)
    ensures Inv(Exec(s, es, n), n)
  {
    hide Inv, Enabled, Apply;
    if es != [] {
      RunKeepsInv(s, es[..|es| - 1], n);
      StepKeepsInv(Exec(s, es[..|es| - 1], n), es[|es| - 1], n);
    } else {
      InitialInv(s, n);
    }
  }

  lemma InitialInv(s: State, n: nat)
    requires Initial(s)
    ensures Inv(s, n)
  {}

  // ---- Main results ----

  /** A delivery's attempts never exceed the schedule plus one, plus its reclaims and replays; a row
      that was never reclaimed or replayed is not offered again after that many claims. */
  lemma AttemptsAreBounded(s: State, es: seq<Event>, n: nat, id: Id)
    requires Initial(s) && Legal(s, es, n) && AllPrompt(s, es, n) && id in Exec(s, es, n).rows
    ensures var t := Exec(s, es, n);
            && t.rows[id].attempts == Count(t.claims, id)
            && t.rows[id].attempts <= n + 1 + Count(t.reclaims, id) + Count(t.replays, id)
            && (Count(t.reclaims, id) == 0 && Count(t.replays, id) == 0 && Count(t.claims, id) == n + 1
                ==> t.rows[id].status != Pending)
  {
    RunKeepsInv(s, es, n);
    assert WithinBudget(Exec(s, es, n), id, Exec(s, es, n).rows[id], n);
  }

  /** Each in-flight row has at most one attempt out, and that attempt counts from 1. */
  lemma OneAttemptPerRow(s: State, es: seq<Event>, n: nat, a: Attempt, b: Attempt)
    requires Initial(s) && Legal(s, es, n) && AllPrompt(s, es, n)
    requires a in Exec(s, es, n).outstanding && b in Exec(s, es, n).outstanding && a.id == b.id
    ensures a == b && a.attempts > 0
    ensures a.id in Exec(s, es, n).rows && Exec(s, es, n).rows[a.id].status == InFlight
  {
    RunKeepsInv(s, es, n);
    assert Current(Exec(s, es, n).rows, a) && Current(Exec(s, es, n).rows, b);
  }

  /** The report of the last attempt in the budget is final: without reclaims and replays a row
      is delivered or dead-lettered after at most `n + 1` claims. */
  lemma LastReportIsFinal(s: State, es: seq<Event>, n: nat, e: Event)
    requires Initial(s) && Legal(s, es, n) && AllPrompt(s, es, n)
    requires var t := Exec(s, es, n);
             && e.Report? && e.attempt in t.outstanding && Count(t.claims, e.attempt.id) == n + 1
    ensures var t := Apply(Exec(s, es, n), e, n);
            e.attempt.id in t.rows && (t.rows[e.attempt.id].status == Delivered || t.rows[e.attempt.id].status == DeadLetter)
  {
    RunKeepsInv(s, es, n);
    var t := Exec(s, es, n);
    assert Current(t.rows, e.attempt) && WithinBudget(t, e.attempt.id, t.rows[e.attempt.id], n);
  }

  predicate Terminal(r: Row) {
    r.status == Delivered || r.status == DeadLetter
  }

  /** One step leaves a finished row alone unless it replays it or reports an attempt that was
      reclaimed before. */
  lemma TerminalStep(s: State, e: Event, n: nat, id: Id)
    requires Inv(s, n) && Enabled(s, e) && Prompt(s, e)
    requires id in s.rows && Terminal(s.rows[id]) && !(e.Replay? && e.id == id)
    ensures id in Apply(s, e, n).rows && Apply(s, e, n).rows[id] == s.rows[id]
  {
    if e.Report? {
      assert Current(s.rows, e.attempt);
    } else if e.Claim? {
      forall i | 0 <= i < |e.claimed| ensures e.claimed[i].id != id {
        assert Due(s.rows, s.triggers, e.now, e.claimed[i].id);
      }
    }
  }

  /** Delivered and dead-lettered rows leave those states only by replay. */
  lemma TerminalUntilReplayed(s: State, es: seq<Event>, n: nat, e: Event, id: Id)
    requires Initial(s) && Legal(s, es, n) && AllPrompt(s, es, n)
    requires Enabled(Exec(s, es, n), e) && Prompt(Exec(s, es, n), e)
    requires id in Exec(s, es, n).rows && Terminal(Exec(s, es, n).rows[id]) && !(e.Replay? && e.id == id)
    ensures id in Apply(Exec(s, es, n), e, n).rows
    ensures Apply(Exec(s, es, n), e, n).rows[id] == Exec(s, es, n).rows[id]
  {
    hide Inv, Enabled, Apply, Legal, Exec, AllPrompt;
    RunKeepsInv(s, es, n);
    TerminalStep(Exec(s, es, n), e, n, id);
  }

  // ---- Runs in which reclaimed attempts may report ----

  /** Attempts are out only for known rows and count from 1, and a row that was never reclaimed has at most the one
      attempt it is in flight for. */
  ghost predicate LooseInv(s: State) {
    && (forall a :: a in s.outstanding || a in s.abandoned ==> a.id in s.rows && a.attempts > 0)
    && (forall a :: a in s.outstanding && Count(s.reclaims, a.id) == 0 ==> Current(s.rows, a))
    && (forall a :: a in s.abandoned ==> Count(s.reclaims, a.id) > 0)
  }

  lemma ClaimKeepsLooseInv(s: State, e: Event, n: nat)
    requires LooseInv(s) && Enabled(s, e) && e.Claim?
    ensures LooseInv(Apply(s, e, n))
  {
    var t := Apply(s, e, n);
    forall a | a in t.outstanding
      ensures a.id in t.rows && a.attempts > 0 && (Count(t.reclaims, a.id) == 0 ==> Current(t.rows, a))
    {
      if a in e.claimed {
        var i :| 0 <= i < |e.claimed| && e.claimed[i] == a;
        assert a.id in Ids(e.claimed);
      } else if Count(s.reclaims, a.id) == 0 {
        assert Current(s.rows, a);
        forall i | 0 <= i < |e.claimed| ensures e.claimed[i].id != a.id {
          assert Due(s.rows, s.triggers, e.now, e.claimed[i].id);
        }
      }
    }
  }

  lemma StepKeepsLooseInv(s: State, e: Event, n: nat)
    requires LooseInv(s) && Enabled(s, e)
    ensures LooseInv(Apply(s, e, n))
  {
    if e.Claim? { ClaimKeepsLooseInv(s, e, n); }
  }

  lemma {:induction false} RunKeepsLooseInv(s: State, es: seq<Event>, n: nat)
    requires Initial(s) && Legal(s, es, n)
    ensures LooseInv(Exec(s, es, n))
  {
    hide LooseInv, Enabled, Apply;
    if es == [] {
      assert LooseInv(s) by { InitialLooseInv(s); }
    } else {
      RunKeepsLooseInv(s, es[..|es| - 1], n);
      StepKeepsLooseInv(Exec(s, es[..|es| - 1], n), es[|es| - 1], n);
    }
  }

  lemma InitialLooseInv(s: State)
    requires Initial(s)
    ensures LooseInv(s)
  {}

  /** In every run whatsoever, a finished row goes back to pending exactly by a replay of it or by
      the report of a plain failure with attempts left; and such a report is possible only for a
      row that was reclaimed before. */
  lemma FinishedRowReopensIff(s: State, es: seq<Event>, n: nat, e: Event, id: Id)
    requires Initial(s) && Legal(s, es, n) && Enabled(Exec(s, es, n), e)
    requires id in Exec(s, es, n).rows && Terminal(Exec(s, es, n).rows[id])
    ensures id in Apply(Exec(s, es, n), e, n).rows
    ensures Apply(Exec(s, es, n), e, n).rows[id].status == Pending
            <==> || (e.Replay? && e.id == id)
                 || (e.Report? && e.attempt.id == id && e.outcome == Failed && e.attempt.attempts <= n)
    ensures e.Report? && e.attempt.id == id ==> Count(Exec(s, es, n).reclaims, id) > 0
  {
    hide Legal, Exec;
    RunKeepsLooseInv(s, es, n);
    var t := Exec(s, es, n);
    if e.Claim? {
      forall i | 0 <= i < |e.claimed| ensures e.claimed[i].id != id {
        assert Due(t.rows, t.triggers, e.now, e.claimed[i].id);
      }
    }
  }

  /** No claim takes a row of a disabled or removed trigger, or one that is not pending and due. */
  lemma ClaimsOnlyActive(s: State, e: Event, n: nat, id: Id)
    requires Enabled(s, e) && e.Claim? && id in s.rows && Apply(s, e, n).rows[id] != s.rows[id]
    ensures s.rows[id].trigger in s.triggers && s.triggers[s.rows[id].trigger]
    ensures s.rows[id].status == Pending && s.rows[id].nextAttemptAt <= e.now
  {
    assert id in Ids(e.claimed);
    var i :| 0 <= i < |e.claimed| && e.claimed[i].id == id;
    assert Due(s.rows, s.triggers, e.now, e.claimed[i].id);
  }

  // ---- Why a row is in its state ----

  /** What each step does to a row, field by field. */
  lemma RowAfter(s: State, e: Event, n: nat, id: Id)
    requires Enabled(s, e) && id in s.rows
    ensures id in Apply(s, e, n).rows
    ensures var r, q := s.rows[id], Apply(s, e, n).rows[id];
            match e
            case Claim(_, stamp, _, _, claimed) =>
              if exists a :: a in claimed && a.id == id
              then r.status == Pending && q == Row(r.trigger, InFlight, r.attempts + 1, r.nextAttemptAt, stamp)
              else q == r
            case Report(a, outcome, now, retryAt) =>
              if a.id != id then q == r
              else if outcome == Succeeded then q == Row(r.trigger, Delivered, r.attempts, now, r.lastAttemptAt)
              else if outcome == FailedPermanently || a.attempts > n then q == Row(r.trigger, DeadLetter, r.attempts, now, r.lastAttemptAt)
              else q == Row(r.trigger, Pending, r.attempts, retryAt, r.lastAttemptAt)
            case Reclaim(cutoff) =>
              q == if r.status == InFlight && r.lastAttemptAt < cutoff
                   then Row(r.trigger, Pending, r.attempts, r.nextAttemptAt, r.lastAttemptAt) else r
            case SweepOrphans(now) =>
              q == if r.status == Pending && r.trigger !in s.triggers
                   then Row(r.trigger, DeadLetter, r.attempts, now, r.lastAttemptAt) else r
            case Replay(i, now) =>
              q == if i == id && r.status != InFlight then Row(r.trigger, Pending, r.attempts, now, r.lastAttemptAt) else r
            case _ => q == r
  {
    if e.Claim? {
      if a :| a in e.claimed && a.id == id {
        var i :| 0 <= i < |e.claimed| && e.claimed[i] == a;
        assert Due(s.rows, s.triggers, e.now, e.claimed[i].id);
      }
      if id in Ids(e.claimed) {
        var i :| 0 <= i < |e.claimed| && e.claimed[i].id == id;
        assert e.claimed[i] in e.claimed;
      }
    }
  }

  /** The step reports a success for the row. */
  predicate Delivers(e: Event, id: Id) {
    e.Report? && e.attempt.id == id && e.outcome == Succeeded
  }

  /** The step sweeps the pending row of a removed trigger, or reports a permanent failure or one whose
      attempt count is above the schedule length. */
  predicate GivesUp(s: State, e: Event, n: nat, id: Id) {
    || (e.SweepOrphans? && id in s.rows && s.rows[id].status == Pending && s.rows[id].trigger !in s.triggers)
    || (e.Report? && e.attempt.id == id && (e.outcome == FailedPermanently || (e.outcome == Failed && e.attempt.attempts > n)))
  }

  /** The step reports on the row or replays it. */
  predicate Touches(e: Event, id: Id) {
    (e.Report? && e.attempt.id == id) || (e.Replay? && e.id == id)
  }

  /** A step makes a row delivered or dead-lettered exactly by the one or the other; a finished row
      keeps its state exactly until a step touches it. */
  lemma FinishesIff(s: State, e: Event, n: nat, id: Id)
    requires Enabled(s, e) && id in s.rows
    ensures var r, q := s.rows[id], Apply(s, e, n).rows[id];
            && (q.status == Delivered <==> Delivers(e, id) || (r.status == Delivered && !Touches(e, id)))
            && (q.status == DeadLetter <==> GivesUp(s, e, n, id) || (r.status == DeadLetter && !Touches(e, id)))
  {
    hide Enabled, Apply;
    RowAfter(s, e, n, id);
  }

  /** Why a row is finished: a step of the run that no later one touches. */
  ghost predicate Because(s: State, es: seq<Event>, n: nat, id: Id, i: nat) {
    && i < |es| && (forall j :: i < j < |es| ==> !Touches(es[j], id))
    && id in Exec(s, es, n).rows
    && match Exec(s, es, n).rows[id].status
       case Delivered => Delivers(es[i], id)
       case DeadLetter => GivesUp(Exec(s, es[..i], n), es[i], n, id)
       case _ => false
  }

  lemma KeepsBecause(s: State, es: seq<Event>, n: nat, id: Id, i: nat)
    requires es != [] && Because(s, es[..|es| - 1], n, id, i) && !Touches(es[|es| - 1], id)
    requires id in Exec(s, es, n).rows && Exec(s, es, n).rows[id].status == Exec(s, es[..|es| - 1], n).rows[id].status
    ensures Because(s, es, n, id, i)
  {
    hide Exec, Touches, GivesUp;
    var front := es[..|es| - 1];
    assert front[i] == es[i] && front[..i] == es[..i];
    assert forall j :: 0 <= j < |front| ==> front[j] == es[j];
  }

  /** In every run a row is delivered only because a report said so, and dead-lettered only because its
      trigger was gone, a failure was permanent or its attempts were used up; and nothing touched it since. */
  lemma {:induction false} WhyFinished(s: State, es: seq<Event>, n: nat, id: Id) returns (i: nat)
    requires Initial(s) && Legal(s, es, n) && id in Exec(s, es, n).rows && Terminal(Exec(s, es, n).rows[id])
    ensures Because(s, es, n, id, i)
  {
    hide Enabled, Apply, Initial, GivesUp;
    if es == [] { InitialRows(s); }
    var front, e := es[..|es| - 1], es[|es| - 1];
    var t := Exec(s, front, n);
    if id !in t.rows { NewRowIsPending(t, e, n, id); }
    FinishesIff(t, e, n, id);
    if t.rows[id].status == Exec(s, es, n).rows[id].status && !Touches(e, id) {
      i := WhyFinished(s, front, n, id);
      KeepsBecause(s, es, n, id, i);
    } else {
      i := |es| - 1;
    }
  }

  lemma InitialRows(s: State)
    requires Initial(s)
    ensures s.rows == map[]
  {}

  lemma NewRowIsPending(s: State, e: Event, n: nat, id: Id)
    requires Enabled(s, e) && id !in s.rows && id in Apply(s, e, n).rows
    ensures Apply(s, e, n).rows[id].status == Pending
  {}
}
