/** The lease protocol against a clock. Each instance reads a clock that runs up to
    `maxSkew` ahead of real time. A document is stamped first and stored later, and
    an instance replicates only while its last one was stamped at most `maxGap` ago.
    The main result says exactly for
    which time to live two instances can never replicate at once. */
module LeaseTiming {
  import opened Wrappers
  import opened LeaseProtocol

  datatype Deployment = Deployment(ttl: nat, maxGap: nat, maxSkew: nat)

  datatype Timed = Timed(
    protocol: State,
    now: int,
    stamped: map<Id, int>,    // when an instance stamped the document it tries to acquire with
    wrote: map<Id, int>)      // when the last document an instance stored was stamped

  datatype TimedEvent = Tick(elapsed: nat) | Do(event: Event, stampedAt: int)

  predicate ClockReads(d: Deployment, at: int, clock: int) {
    at <= clock <= at + d.maxSkew
  }

  /** A document stamped at `at`, with this clock, is stored in time. */
  predicate InTime(d: Deployment, t: Timed, at: int, clock: int) {
    at <= t.now <= at + d.maxGap && ClockReads(d, at, clock)
  }

  predicate OnTime(d: Deployment, t: Timed, e: Event, at: int) {
    match e
    case TryCreate(_, now, ttl, _) => InTime(d, t, at, now) && ttl == d.ttl
    case TryTakeover(id, now, _) => ClockReads(d, t.now, now) && id in t.stamped && t.now <= t.stamped[id] + d.maxGap
    case Heartbeat(_, now, ttl, _) => InTime(d, t, at, now) && ttl == d.ttl
    case _ => true
  }

  /** Time passes only while every replicating instance has written recently enough. */
  ghost predicate MayHappen(d: Deployment, t: Timed, te: TimedEvent) {
    match te
    case Tick(elapsed) =>
      forall id :: id in t.protocol.instances && t.protocol.instances[id].phase.Running? ==>
        id in t.wrote && t.now + elapsed <= t.wrote[id] + d.maxGap
    case Do(e, at) => Enabled(t.protocol, e) && OnTime(d, t, e, at)
  }

  function Stamps(t: Timed, e: Event, at: int): map<Id, int> {
    if e.TryCreate? then t.stamped[e.id := at] else t.stamped
  }

  function Writes(t: Timed, e: Event, at: int): map<Id, int> {
    if Apply(t.protocol, e).issued == t.protocol.issued then t.wrote
    else t.wrote[e.id := if e.TryTakeover? && e.id in t.stamped then t.stamped[e.id] else at]
  }

  function After(t: Timed, te: TimedEvent): Timed {
    match te
    case Tick(elapsed) => t.(now := t.now + elapsed)
    case Do(e, at) => Timed(Apply(t.protocol, e), t.now, Stamps(t, e, at), Writes(t, e, at))
  }

  const START := Timed(State(None, 1, map[], map[]), 0, map[], map[])

  function Outcome(es: seq<TimedEvent>): Timed {
    if es == [] then START else After(Outcome(es[..|es| - 1]), es[|es| - 1])
  }

  ghost predicate Possible(d: Deployment, es: seq<TimedEvent>) {
    es == [] || (Possible(d, es[..|es| - 1]) && MayHappen(d, Outcome(es[..|es| - 1]), es[|es| - 1]))
  }

  ghost predicate Reaches(d: Deployment, t: Timed) {
    exists es :: Possible(d, es) && Outcome(es) == t
  }

  // ---- Long enough times to live ----

  /** A document that was stamped at `at`. */
  predicate StampedAt(d: Deployment, doc: LeaseDoc, at: int) {
    doc.renewedAt >= at && doc.ttl == d.ttl
  }

  /** The document an instance tries to acquire with carries its time. */
  predicate PendingSound(d: Deployment, t: Timed, id: Id, p: Phase) {
    && (p.Reading? ==> id in t.stamped && StampedAt(d, p.mine, t.stamped[id]))
    && (p.Judging? ==> id in t.stamped && StampedAt(d, p.mine, t.stamped[id]))
  }

  /** A replicating instance is named by a stored document stamped at most `maxGap` ago. */
  predicate RunnerSound(d: Deployment, t: Timed, id: Id) {
    && id in t.wrote && t.now <= t.wrote[id] + d.maxGap
    && t.protocol.lease.Some? && t.protocol.lease.value.doc.instance == id
    && StampedAt(d, t.protocol.lease.value.doc, t.wrote[id])
  }

  ghost predicate TimedInv(d: Deployment, t: Timed) {
    && Inv(t.protocol)
    && forall id :: id in t.protocol.instances ==> MemberSound(d, t, id)
  }

  lemma NobodyIsDisplaced(d: Deployment, t: Timed, e: Event, at: int)
    requires d.maxGap + d.maxSkew < d.ttl && TimedInv(d, t) && OnTime(d, t, e, at)
    ensures !Displaces(t.protocol, e)
  {
    if e.TryTakeover? && e.id in t.protocol.instances {
      assert InstanceSound(t.protocol, e.id, t.protocol.instances[e.id]);
    }
  }

  /** What the invariant says of one instance. */
  predicate MemberSound(d: Deployment, t: Timed, id: Id)
    requires id in t.protocol.instances
  {
    var p := t.protocol.instances[id].phase;
    PendingSound(d, t, id, p) && (p.Running? ==> RunnerSound(d, t, id))
  }

  lemma ActorStaysSound(d: Deployment, t: Timed, e: Event, at: int)
    requires TimedInv(d, t) && Enabled(t.protocol, e) && OnTime(d, t, e, at) && !Displaces(t.protocol, e)
    requires e.id in t.protocol.instances
    ensures e.id in Apply(t.protocol, e).instances && MemberSound(d, After(t, Do(e, at)), e.id)
  {
    assert InstanceSound(t.protocol, e.id, t.protocol.instances[e.id]);
    assert MemberSound(d, t, e.id);
    hide Inv;
  }

  lemma StarterIsSound(d: Deployment, t: Timed, e: Event, at: int)
    requires e.Start? && Enabled(t.protocol, e)
    ensures MemberSound(d, After(t, Do(e, at)), e.id)
  {}

  lemma OthersStaySound(d: Deployment, t: Timed, e: Event, at: int, id: Id)
    requires TimedInv(d, t) && Enabled(t.protocol, e) && OnTime(d, t, e, at) && !Displaces(t.protocol, e)
    requires id in t.protocol.instances && id != e.id
    ensures id in Apply(t.protocol, e).instances && MemberSound(d, After(t, Do(e, at)), id)
  {
    if e.id in t.protocol.instances { assert InstanceSound(t.protocol, e.id, t.protocol.instances[e.id]); }
    assert MemberSound(d, t, id);
    hide Inv;
  }

  lemma StepKeepsTimedInv(d: Deployment, t: Timed, te: TimedEvent)
    requires d.maxGap + d.maxSkew < d.ttl && TimedInv(d, t) && MayHappen(d, t, te)
    ensures TimedInv(d, After(t, te))
  {
    match te
    case Tick(_) => hide Inv;
    case Do(e, at) =>
      NobodyIsDisplaced(d, t, e, at);
      StepKeepsInv(t.protocol, e);
      hide Inv, PendingSound, RunnerSound;
      forall id | id in Apply(t.protocol, e).instances ensures MemberSound(d, After(t, te), id) {
        if id != e.id { OthersStaySound(d, t, e, at, id); } else if !e.Start? { ActorStaysSound(d, t, e, at); } else { StarterIsSound(d, t, e, at); }
      }
  }

  lemma {:induction false} RunKeepsTimedInv(d: Deployment, es: seq<TimedEvent>)
    requires d.maxGap + d.maxSkew < d.ttl && Possible(d, es)
    ensures TimedInv(d, Outcome(es))
  {
    if es != [] {
      hide TimedInv, MayHappen, After;
      RunKeepsTimedInv(d, es[..|es| - 1]);
      StepKeepsTimedInv(d, Outcome(es[..|es| - 1]), es[|es| - 1]);
    }
  }

  // ---- Too short ones ----

  lemma AtStart(d: Deployment)
    ensures Reaches(d, START)
  {
    assert Possible(d, []) && Outcome([]) == START;
  }

  lemma Next(d: Deployment, t: Timed, te: TimedEvent, u: Timed)
    requires Reaches(d, t) && MayHappen(d, t, te) && After(t, te) == u
    ensures Reaches(d, u)
  {
    hide MayHappen, After;
    var es :| Possible(d, es) && Outcome(es) == t;
    assert (es + [te])[..|es|] == es;
    assert Possible(d, es + [te]) && Outcome(es + [te]) == u;
  }

  const FIRST: Id := "a"
  const SECOND: Id := "b"

  /** The first instance replicates, having stamped its document at time 0. */
  function Alone(d: Deployment): Timed {
    var doc := LeaseDoc(FIRST, 0, d.ttl);
    Timed(State(Some(Stored(1, doc)), 2, map[FIRST := Instance(1, Running)], map[1 := doc]),
          0, map[FIRST := 0], map[FIRST := 0])
  }

  lemma ReachAlone(d: Deployment)
    ensures Reaches(d, Alone(d))
  {
    hide Reaches;
    AtStart(d);
    var s1 := State(None, 1, map[FIRST := Instance(0, Creating(0))], map[]);
    Next(d, START, Do(Start(FIRST), 0), Timed(s1, 0, map[], map[]));
    Next(d, Timed(s1, 0, map[], map[]), Do(TryCreate(FIRST, 0, d.ttl, Delivered), 0), Alone(d));
  }

  /** ... and a second one has read its document `maxGap` later. */
  function Contended(d: Deployment): Timed {
    var doc, mine := LeaseDoc(FIRST, 0, d.ttl), LeaseDoc(SECOND, d.maxGap, d.ttl);
    Timed(State(Some(Stored(1, doc)), 2,
                map[FIRST := Instance(1, Running), SECOND := Instance(0, Judging(mine, Stored(1, doc)))], map[1 := doc]),
          d.maxGap, map[FIRST := 0, SECOND := d.maxGap], map[FIRST := 0])
  }

  lemma ReachContended(d: Deployment)
    ensures Reaches(d, Contended(d))
  {
    hide Reaches;
    ReachAlone(d);
    var t, u := Alone(d), Contended(d);
    var mine := LeaseDoc(SECOND, d.maxGap, d.ttl);
    var t1 := t.(now := d.maxGap);
    Next(d, t, Tick(d.maxGap), t1);
    var t2 := t1.(protocol := t1.protocol.(instances := map[FIRST := Instance(1, Running), SECOND := Instance(0, Creating(0))]));
    Next(d, t1, Do(Start(SECOND), 0), t2);
    var t3 := u.(protocol := u.protocol.(instances := map[FIRST := Instance(1, Running), SECOND := Instance(0, Reading(0, mine))]));
    Next(d, t2, Do(TryCreate(SECOND, d.maxGap, d.ttl, Delivered), d.maxGap), t3);
    Next(d, t3, Do(ReadLease(SECOND, Delivered), 0), u);
  }

  // ---- Main result ----

  /** Two instances never replicate at once, in any run, exactly when the time to live is longer
      than the time between two writes of a replicating instance plus the clock skew. */
  lemma ExclusiveIffTtlDominates(d: Deployment)
    ensures (forall t :: Reaches(d, t) ==> !TwoRun(t.protocol)) <==> d.maxGap + d.maxSkew < d.ttl
  {
    if d.maxGap + d.maxSkew < d.ttl {
      forall t | Reaches(d, t) ensures !TwoRun(t.protocol) {
        var es :| Possible(d, es) && Outcome(es) == t;
        RunKeepsTimedInv(d, es);
        NamedRunnersAreOne(t.protocol);
      }
    } else {
      hide Reaches;
      ReachContended(d);
      var t, e := Contended(d), TryTakeover(SECOND, d.maxGap + d.maxSkew, Delivered);
      Next(d, t, Do(e, 0), After(t, Do(e, 0)));
      assert BothRun(After(t, Do(e, 0)).protocol, FIRST, SECOND);
    }
  }
}
