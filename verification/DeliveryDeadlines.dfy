/** Runs of the delivery queue against a clock. An attempt reports within a fixed
    time of its claim, if at all, and rows are reclaimed after a fixed threshold.
    The main results say exactly for which deployments a reclaimed attempt never
    reports back and a finished row is final. */
module DeliveryDeadlines {
  import opened Wrappers
  import opened DeliveryQueue
  import opened DeliveryRuns

  /** `maxAttempt` is the longest time from a claim to the report of that attempt. */
  datatype Deployment = Deployment(scheduleLength: nat, maxAttempt: nat, threshold: nat)

  datatype Timed = Timed(queue: State, now: int, claimedAt: map<Attempt, int>)

  datatype TimedEvent = Tick(elapsed: nat) | Do(event: Event)

  /** The event uses the clock as it stands. */
  predicate OnTime(d: Deployment, t: Timed, e: Event) {
    match e
    case Enqueue(_, _, now) => now == t.now
    case Claim(now, stamp, _, _, _) => now <= stamp == t.now
    case Report(a, _, now, _) => now == t.now && a in t.claimedAt && t.now <= t.claimedAt[a] + d.maxAttempt
    case Reclaim(cutoff) => cutoff == t.now - d.threshold
    case SweepOrphans(now) => now == t.now
    case Replay(_, now) => now == t.now
    case _ => true
  }

  ghost predicate MayHappen(d: Deployment, t: Timed, te: TimedEvent) {
    te.Do? ==> Enabled(t.queue, te.event) && OnTime(d, t, te.event)
  }

  function ClaimTimes(m: map<Attempt, int>, e: Event): map<Attempt, int> {
    if e.Claim? then m + (map a | a in e.claimed :: e.stamp) else m
  }

  ghost function After(d: Deployment, t: Timed, te: TimedEvent): Timed {
    match te
    case Tick(elapsed) => t.(now := t.now + elapsed)
    case Do(e) => Timed(Apply(t.queue, e, d.scheduleLength), t.now, ClaimTimes(t.claimedAt, e))
  }

  predicate Fresh(t: Timed) {
    Initial(t.queue) && t.claimedAt == map[]
  }

  ghost function Outcome(d: Deployment, t: Timed, es: seq<TimedEvent>): Timed {
    if es == [] then t else After(d, Outcome(d, t, es[..|es| - 1]), es[|es| - 1])
  }

  ghost predicate Possible(d: Deployment, t: Timed, es: seq<TimedEvent>) {
    es == [] ||
    (Possible(d, t, es[..|es| - 1]) && MayHappen(d, Outcome(d, t, es[..|es| - 1]), es[|es| - 1]))
  }

  // ---- Deployments whose threshold dominates ----

  /** An attempt that is out was claimed when its row says. */
  ghost predicate Dated(t: Timed, a: Attempt) {
    && a in t.claimedAt && Current(t.queue.rows, a)
    && t.queue.rows[a.id].lastAttemptAt == t.claimedAt[a]
  }

  /** An attempt that was reclaimed is past its time. */
  predicate Expired(d: Deployment, t: Timed, a: Attempt) {
    a in t.claimedAt && t.claimedAt[a] + d.maxAttempt < t.now
  }

  /** Attempts count up, so a claim never reuses one. */
  predicate Counted(t: Timed, a: Attempt) {
    a.id in t.queue.rows && a.attempts <= t.queue.rows[a.id].attempts
  }

  ghost predicate TimedInv(d: Deployment, t: Timed) {
    && Inv(t.queue, d.scheduleLength)
    && (forall a :: a in t.queue.outstanding ==> Dated(t, a))
    && (forall a :: a in t.queue.abandoned ==> Expired(d, t, a))
    && (forall a :: a in t.claimedAt ==> Counted(t, a))
  }

  lemma TimelyIsPrompt(d: Deployment, t: Timed, e: Event)
    requires TimedInv(d, t) && Enabled(t.queue, e) && OnTime(d, t, e)
    ensures Prompt(t.queue, e)
  {}

  lemma ClaimIsNew(t: Timed, e: Event, a: Attempt)
    requires (forall b :: b in t.claimedAt ==> Counted(t, b)) && e.Claim? && Enabled(t.queue, e) && a in e.claimed
    ensures a !in t.claimedAt && a.id in Ids(e.claimed) && a.id in t.queue.rows
    ensures a.attempts == t.queue.rows[a.id].attempts + 1
  {
    var i :| 0 <= i < |e.claimed| && e.claimed[i] == a;
    assert Due(t.queue.rows, t.queue.triggers, e.now, a.id);
  }

  lemma InFlightIsNotClaimed(s: State, e: Event, id: Id)
    requires e.Claim? && Enabled(s, e) && id in s.rows && s.rows[id].status == InFlight
    ensures id !in Ids(e.claimed)
  {
    forall i | 0 <= i < |e.claimed| ensures e.claimed[i].id != id {
      assert Due(s.rows, s.triggers, e.now, e.claimed[i].id);
    }
  }

  lemma ClaimKeepsDates(d: Deployment, t: Timed, e: Event, a: Attempt)
    requires TimedInv(d, t) && MayHappen(d, t, Do(e)) && e.Claim?
    ensures var u := After(d, t, Do(e));
            && (a in u.queue.outstanding ==> Dated(u, a))
            && (a in u.queue.abandoned ==> Expired(d, u, a))
            && (a in u.claimedAt ==> Counted(u, a))
  {
    hide Inv, LegalClaim;
    if a in e.claimed {
      ClaimIsNew(t, e, a);
    } else if a in t.queue.outstanding {
      assert Dated(t, a);
      InFlightIsNotClaimed(t.queue, e, a.id);
    }
  }

  lemma ClaimKeepsTimedInv(d: Deployment, t: Timed, e: Event)
    requires TimedInv(d, t) && MayHappen(d, t, Do(e)) && e.Claim?
    ensures TimedInv(d, After(d, t, Do(e)))
  {
    StepKeepsInv(t.queue, e, d.scheduleLength);
    forall a { ClaimKeepsDates(d, t, e, a); }
    hide Inv, LegalClaim, Dated, Expired, Counted;
  }

  lemma OutstandingIsCurrent(s: State, n: nat, a: Attempt)
    requires Inv(s, n) && a in s.outstanding
    ensures Current(s.rows, a)
  {}

  lemma ReclaimKeepsTimedInv(d: Deployment, t: Timed, e: Event)
    requires d.maxAttempt <= d.threshold
    requires TimedInv(d, t) && MayHappen(d, t, Do(e)) && e.Reclaim?
    ensures TimedInv(d, After(d, t, Do(e)))
  {
    StepKeepsInv(t.queue, e, d.scheduleLength);
    hide Inv;
  }

  lemma OtherKeepsDates(d: Deployment, t: Timed, e: Event, a: Attempt)
    requires TimedInv(d, t) && MayHappen(d, t, Do(e)) && !e.Claim? && !e.Reclaim?
    requires a in Apply(t.queue, e, d.scheduleLength).outstanding ==> Current(Apply(t.queue, e, d.scheduleLength).rows, a)
    ensures var u := After(d, t, Do(e));
            && (a in u.queue.outstanding ==> Dated(u, a))
            && (a in u.queue.abandoned ==> Expired(d, u, a))
            && (a in u.claimedAt ==> Counted(u, a))
  {
    hide Inv;
    if a in t.queue.outstanding { assert Dated(t, a); }
    if a in t.claimedAt { assert Counted(t, a); }
  }

  lemma OtherKeepsTimedInv(d: Deployment, t: Timed, e: Event)
    requires TimedInv(d, t) && MayHappen(d, t, Do(e)) && !e.Claim? && !e.Reclaim?
    ensures TimedInv(d, After(d, t, Do(e)))
  {
    hide Inv, Apply, Enabled, OnTime, Dated, Expired, Counted;
    TimelyIsPrompt(d, t, e);
    StepKeepsInv(t.queue, e, d.scheduleLength);
    var u := After(d, t, Do(e));
    forall a ensures && (a in u.queue.outstanding ==> Dated(u, a))
                     && (a in u.queue.abandoned ==> Expired(d, u, a))
                     && (a in u.claimedAt ==> Counted(u, a))
    {
      if a in u.queue.outstanding { OutstandingIsCurrent(u.queue, d.scheduleLength, a); }
      OtherKeepsDates(d, t, e, a);
    }
  }

  lemma StepKeepsTimedInv(d: Deployment, t: Timed, te: TimedEvent)
    requires d.maxAttempt <= d.threshold && TimedInv(d, t) && MayHappen(d, t, te)
    ensures TimedInv(d, After(d, t, te))
  {
    hide Inv, Enabled, OnTime, Apply;
    match te
    case Tick(_) =>
    case Do(e) =>
      if e.Claim? {
        ClaimKeepsTimedInv(d, t, e);
      } else if e.Reclaim? {
        ReclaimKeepsTimedInv(d, t, e);
      } else {
        OtherKeepsTimedInv(d, t, e);
      }
  }

  lemma {:induction false} RunKeepsTimedInv(d: Deployment, t: Timed, es: seq<TimedEvent>)
    requires d.maxAttempt <= d.threshold && Fresh(t) && Possible(d, t, es)
    ensures TimedInv(d, Outcome(d, t, es))
  {
    if es == [] {
      InitialInv(t.queue, d.scheduleLength);
    } else {
      hide TimedInv, MayHappen, After;
      RunKeepsTimedInv(d, t, es[..|es| - 1]);
      StepKeepsTimedInv(d, Outcome(d, t, es[..|es| - 1]), es[|es| - 1]);
    }
  }

  /** The events of a timed run without the passing of time. */
  function Untimed(es: seq<TimedEvent>): seq<Event> {
    if es == [] then []
    else
      var front := Untimed(es[..|es| - 1]);
      if es[|es| - 1].Do? then front + [es[|es| - 1].event] else front
  }

  /** Every timed run is a run of the queue, and if the threshold dominates one in which no
      reclaimed attempt reports; so what holds of those runs holds here. */
  lemma {:induction false} TimedRunIsRun(d: Deployment, t: Timed, es: seq<TimedEvent>)
    requires Fresh(t) && Possible(d, t, es)
    ensures Legal(t.queue, Untimed(es), d.scheduleLength)
    ensures Outcome(d, t, es).queue == Exec(t.queue, Untimed(es), d.scheduleLength)
    ensures d.maxAttempt <= d.threshold ==> AllPrompt(t.queue, Untimed(es), d.scheduleLength)
  {
    if es != [] {
      hide Enabled, Apply, OnTime, TimedInv, Prompt;
      var front, te := es[..|es| - 1], es[|es| - 1];
      TimedRunIsRun(d, t, front);
      if te.Do? {
        var run := Untimed(front);
        assert (run + [te.event])[..|run|] == run;
        if d.maxAttempt <= d.threshold {
          RunKeepsTimedInv(d, t, front);
          TimelyIsPrompt(d, Outcome(d, t, front), te.event);
        }
      }
    }
  }

  // ---- Deployments whose threshold does not ----

  const START := Timed(State(map[], map[], {}, {}, map[], map[], map[]), 0, map[])

  ghost predicate Reaches(d: Deployment, t: Timed) {
    exists es :: Possible(d, START, es) && Outcome(d, START, es) == t
  }

  lemma AtStart(d: Deployment)
    ensures Reaches(d, START)
  {
    assert Possible(d, START, []) && Outcome(d, START, []) == START;
  }

  lemma Next(d: Deployment, t: Timed, te: TimedEvent)
    requires Reaches(d, t) && MayHappen(d, t, te)
    ensures Reaches(d, After(d, t, te))
  {
    hide MayHappen, After;
    var es :| Possible(d, START, es) && Outcome(d, START, es) == t;
    assert (es + [te])[..|es|] == es;
    assert Possible(d, START, es + [te]) && Outcome(d, START, es + [te]) == After(d, t, te);
  }

  const DELIVERY: Id := "d"
  const TRIGGER: TriggerId := "t"

  function Nth(n: nat): Attempt {
    Attempt(DELIVERY, n)
  }

  /** The queue holds one delivery, with this row. */
  predicate Holds(t: Timed, row: Row) {
    t.queue.rows == map[DELIVERY := row] && t.queue.triggers == map[TRIGGER := true] && row.trigger == TRIGGER
  }

  lemma ReachEnqueued(d: Deployment) returns (t: Timed)
    ensures Reaches(d, t) && t.now == 0 && t.claimedAt == map[]
    ensures Holds(t, Row(TRIGGER, Pending, 0, 0, 0)) && t.queue.outstanding == {} && t.queue.abandoned == {}
  {
    hide Reaches;
    AtStart(d);
    Next(d, START, Do(SetTrigger(TRIGGER, true)));
    t := After(d, START, Do(SetTrigger(TRIGGER, true)));
    Next(d, t, Do(Enqueue(DELIVERY, TRIGGER, 0)));
    t := After(d, t, Do(Enqueue(DELIVERY, TRIGGER, 0)));
  }

  lemma OnlyRowIsClaimed(s: State, now: int, row: Row)
    requires s.rows == map[DELIVERY := row] && s.triggers == map[TRIGGER := true]
    requires row.trigger == TRIGGER && row.status == Pending && row.nextAttemptAt <= now
    ensures LegalClaim(s.rows, s.triggers, now, 1, {}, [Nth(row.attempts + 1)])
    ensures ClaimRows(s.rows, Ids([Nth(row.attempts + 1)]), now) == map[DELIVERY := Claimed(row, now)]
  {
    assert [Nth(row.attempts + 1)][0].id in Ids([Nth(row.attempts + 1)]);
  }

  /** The one delivery is claimed once more. */
  lemma ReachClaimed(d: Deployment, t: Timed, row: Row) returns (u: Timed)
    requires Reaches(d, t) && Holds(t, row) && row.status == Pending && row.nextAttemptAt <= t.now
    ensures Reaches(d, u) && u.now == t.now && Holds(u, Claimed(row, t.now))
    ensures u.queue.outstanding == t.queue.outstanding + {Nth(row.attempts + 1)} && u.queue.abandoned == t.queue.abandoned
    ensures u.claimedAt == t.claimedAt[Nth(row.attempts + 1) := t.now]
  {
    hide Reaches, LegalClaim, ClaimRows, Ids;
    var a := Nth(row.attempts + 1);
    var e := Claim(t.now, t.now, 1, {}, [a]);
    OnlyRowIsClaimed(t.queue, t.now, row);
    Next(d, t, Do(e));
    u := After(d, t, Do(e));
    assert (set b | b in [a]) == {a};
  }

  /** A reclaim after the threshold takes the first attempt's row back. */
  lemma ReachReclaimed(d: Deployment, t: Timed) returns (u: Timed)
    requires Reaches(d, t) && t.now == 0 && Holds(t, Row(TRIGGER, InFlight, 1, 0, 0))
    requires t.queue.outstanding == {Nth(1)} && t.queue.abandoned == {}
    ensures Reaches(d, u) && u.now == d.threshold + 1 && Holds(u, Row(TRIGGER, Pending, 1, 0, 0))
    ensures u.queue.outstanding == {} && u.queue.abandoned == {Nth(1)} && u.claimedAt == t.claimedAt
  {
    hide Reaches;
    Next(d, t, Tick(d.threshold + 1));
    u := After(d, t, Tick(d.threshold + 1));
    Next(d, u, Do(Reclaim(1)));
    assert Reclaimed(u.queue.rows, 1) == {DELIVERY};
    u := After(d, u, Do(Reclaim(1)));
    assert u.queue.abandoned == {Nth(1)};
  }

  /** The second attempt delivers while the first, reclaimed one may still report. */
  lemma ReachDelivered(d: Deployment) returns (u: Timed)
    requires d.threshold < d.maxAttempt
    ensures Reaches(d, u) && Holds(u, Row(TRIGGER, Delivered, 2, d.threshold + 1, d.threshold + 1))
    ensures Nth(1) in u.queue.abandoned && Nth(1) !in u.queue.outstanding
    ensures forall outcome, retryAt :: MayHappen(d, u, Do(Report(Nth(1), outcome, u.now, retryAt)))
  {
    hide Reaches;
    u := ReachEnqueued(d);
    u := ReachClaimed(d, u, Row(TRIGGER, Pending, 0, 0, 0));
    u := ReachReclaimed(d, u);
    u := ReachClaimed(d, u, Row(TRIGGER, Pending, 1, 0, 0));
    var e := Report(Nth(2), Succeeded, u.now, 0);
    Next(d, u, Do(e));
    u := After(d, u, Do(e));
  }

  // ---- Main results ----

  /** In every run, no report of a reclaimed attempt is possible. */
  ghost predicate AlwaysPrompt(d: Deployment) {
    forall t, e :: Reaches(d, t) && MayHappen(d, t, Do(e)) ==> Prompt(t.queue, e)
  }

  /** In every run, a finished row is changed by nothing but a replay. */
  ghost predicate FinishedIsFinal(d: Deployment) {
    forall t, e, id :: Reaches(d, t) && MayHappen(d, t, Do(e)) && FinishedBefore(t, e, id) ==>
      id in After(d, t, Do(e)).queue.rows && After(d, t, Do(e)).queue.rows[id] == t.queue.rows[id]
  }

  /** In every run, a finished row becomes pending by nothing but a replay. */
  ghost predicate NeverReopened(d: Deployment) {
    forall t, e, id :: Reaches(d, t) && MayHappen(d, t, Do(e)) && FinishedBefore(t, e, id) ==>
      id in After(d, t, Do(e)).queue.rows && After(d, t, Do(e)).queue.rows[id].status != Pending
  }

  predicate FinishedBefore(t: Timed, e: Event, id: Id) {
    id in t.queue.rows && Terminal(t.queue.rows[id]) && !(e.Replay? && e.id == id)
  }

  lemma ReachedInv(d: Deployment, t: Timed)
    requires d.maxAttempt <= d.threshold && Reaches(d, t)
    ensures TimedInv(d, t)
  {
    var es :| Possible(d, START, es) && Outcome(d, START, es) == t;
    RunKeepsTimedInv(d, START, es);
  }

  /** Reclaimed attempts never report back, in any run, exactly when the reclaim threshold is at
      least the longest time an attempt takes. */
  lemma PromptIffThresholdDominates(d: Deployment)
    ensures AlwaysPrompt(d) <==> d.maxAttempt <= d.threshold
  {
    hide Reaches, MayHappen, TimedInv;
    if d.maxAttempt <= d.threshold {
      forall t, e | Reaches(d, t) && MayHappen(d, t, Do(e)) ensures Prompt(t.queue, e) {
        ReachedInv(d, t);
        MayHappenMeans(d, t, e);
        TimelyIsPrompt(d, t, e);
      }
    } else {
      var u := ReachDelivered(d);
      assert MayHappen(d, u, Do(Report(Nth(1), Failed, u.now, 0)));
    }
  }

  lemma MayHappenMeans(d: Deployment, t: Timed, e: Event)
    requires MayHappen(d, t, Do(e))
    ensures Enabled(t.queue, e) && OnTime(d, t, e)
  {}

  /** Finished rows change only by replay, in any run, under exactly the same condition. */
  lemma FinalIffThresholdDominates(d: Deployment)
    ensures FinishedIsFinal(d) <==> d.maxAttempt <= d.threshold
  {
    hide Reaches, MayHappen;
    if d.maxAttempt <= d.threshold {
      forall t, e, id | Reaches(d, t) && MayHappen(d, t, Do(e)) && FinishedBefore(t, e, id)
        ensures id in After(d, t, Do(e)).queue.rows && After(d, t, Do(e)).queue.rows[id] == t.queue.rows[id]
      {
        hide Apply, Enabled, OnTime, Inv;
        ReachedInv(d, t);
        MayHappenMeans(d, t, e);
        TimelyIsPrompt(d, t, e);
        TerminalStep(t.queue, e, d.scheduleLength, id);
      }
    } else {
      var u := ReachDelivered(d);
      var e := Report(Nth(1), FailedPermanently, u.now, 0);
      assert MayHappen(d, u, Do(e)) && FinishedBefore(u, e, DELIVERY);
      assert After(d, u, Do(e)).queue.rows[DELIVERY].status == DeadLetter;
    }
  }

  /** Finished rows go back to pending only by replay exactly when the threshold dominates or
      there is no retry at all. */
  lemma ReopenedIff(d: Deployment)
    ensures NeverReopened(d) <==> d.maxAttempt <= d.threshold || d.scheduleLength == 0
  {
    hide Reaches, MayHappen;
    if d.maxAttempt <= d.threshold {
      FinalIffThresholdDominates(d);
      hide After;
    } else if d.scheduleLength == 0 {
      forall t, e, id | Reaches(d, t) && MayHappen(d, t, Do(e)) && FinishedBefore(t, e, id)
        ensures id in After(d, t, Do(e)).queue.rows && After(d, t, Do(e)).queue.rows[id].status != Pending
      {
        NoRetryNoReopening(d, t, e, id);
      }
    } else {
      var u := ReachDelivered(d);
      var e := Report(Nth(1), Failed, u.now, 0);
      assert MayHappen(d, u, Do(e)) && FinishedBefore(u, e, DELIVERY);
      assert After(d, u, Do(e)).queue.rows[DELIVERY].status == Pending;
    }
  }

  /** Attempts count from 1, so without a schedule every failure is final. */
  lemma NoRetryNoReopening(d: Deployment, t: Timed, e: Event, id: Id)
    requires d.scheduleLength == 0 && Reaches(d, t) && MayHappen(d, t, Do(e)) && FinishedBefore(t, e, id)
    ensures id in After(d, t, Do(e)).queue.rows && After(d, t, Do(e)).queue.rows[id].status != Pending
  {
    var es :| Possible(d, START, es) && Outcome(d, START, es) == t;
    TimedRunIsRun(d, START, es);
    hide Legal, Exec;
    RunKeepsLooseInv(START.queue, Untimed(es), 0);
    FinishedRowReopensIff(START.queue, Untimed(es), 0, e, id);
  }
}
