/** Any number of instances competing for the lease, step by step, with writes
    that are refused and writes whose reply is lost. Clocks are per instance and
    unrelated: each event carries the time its instance reads. */
module LeaseProtocol {
  import opened Wrappers

  type Id = string

  const ACQUIRE_ATTEMPTS := 4

  datatype LeaseDoc = LeaseDoc(instance: Id, renewedAt: int, ttl: int) {
    predicate ExpiredAt(now: int) { now >= renewedAt + ttl }
  }

  datatype Stored = Stored(version: nat, doc: LeaseDoc)

  /** Where an instance stands between two store calls. */
  datatype Phase =
    | Idle
    | Creating(attempt: nat)
    | Reading(attempt: nat, mine: LeaseDoc)
    | Judging(mine: LeaseDoc, seen: Stored)
    | Running      // acquired and replicating
    | Stopped      // lost the lease, replication off
    | Closed

  datatype Instance = Instance(ver: nat, phase: Phase)

  datatype State = State(
    lease: Option<Stored>,
    issued: nat,                     // every version in use is below this
    instances: map<Id, Instance>,
    written: map<nat, LeaseDoc>)     // what was stored under each version, for the record

  /** The store refuses the call, carries it out, or carries it out and loses the reply. */
  datatype Reply = Refused | Delivered | ReplyLost

  datatype Event =
    | Start(id: Id)
    | TryCreate(id: Id, now: int, ttl: int, reply: Reply)
    | ReadLease(id: Id, reply: Reply)
    | TryTakeover(id: Id, now: int, reply: Reply)
    | Heartbeat(id: Id, now: int, ttl: int, reply: Reply)
    | Close(id: Id, reply: Reply)

  predicate Enabled(s: State, e: Event) {
    match e
    case Start(id) => id !in s.instances
    case TryCreate(id, _, _, _) => id in s.instances && s.instances[id].phase.Creating?
    case ReadLease(id, _) => id in s.instances && s.instances[id].phase.Reading?
    case TryTakeover(id, _, _) => id in s.instances && s.instances[id].phase.Judging?
    case Heartbeat(id, _, _, _) => id in s.instances && s.instances[id].phase.Running?
    case Close(id, _) => id in s.instances && (s.instances[id].phase.Running? || s.instances[id].phase.Stopped?)
  }

  function At(s: State, id: Id, p: Phase): State {
    if id in s.instances then s.(instances := s.instances[id := s.instances[id].(phase := p)]) else s
  }

  /** `id` writes `doc`; it learns the new version only when the reply arrives. */
  function Write(s: State, id: Id, doc: LeaseDoc, learned: bool, p: Phase): State {
    if id !in s.instances then s else
      var i := s.instances[id];
      State(Some(Stored(s.issued, doc)), s.issued + 1,
            s.instances[id := Instance(if learned then s.issued else i.ver, p)],
            s.written[s.issued := doc])
  }

  predicate Holds(s: State, id: Id) {
    id in s.instances && s.lease.Some? && s.instances[id].ver == s.lease.value.version
  }

  function Apply(s: State, e: Event): State {
    match e
    case Start(id) =>
      if id in s.instances then s
      else s.(instances := s.instances[id := Instance(0, Creating(0))])
    case TryCreate(id, now, ttl, reply) =>
      if id !in s.instances || !s.instances[id].phase.Creating? then s else
        var doc := LeaseDoc(id, now, ttl);
        if reply == Refused then At(s, id, Idle)
        else if s.lease.None? then Write(s, id, doc, reply == Delivered, if reply == Delivered then Running else Idle)
        else if reply == Delivered then At(s, id, Reading(s.instances[id].phase.attempt, doc))
        else At(s, id, Idle)
    case ReadLease(id, reply) =>
      if id !in s.instances || !s.instances[id].phase.Reading? then s else
        var p := s.instances[id].phase;
        if reply != Delivered then At(s, id, Idle)
        else if s.lease.Some? then At(s, id, Judging(p.mine, s.lease.value))
        else if p.attempt + 1 < ACQUIRE_ATTEMPTS then At(s, id, Creating(p.attempt + 1))
        else At(s, id, Idle)
    case TryTakeover(id, now, reply) =>
      if id !in s.instances || !s.instances[id].phase.Judging? then s else
        var p := s.instances[id].phase;
        if !p.seen.doc.ExpiredAt(now) || reply == Refused then At(s, id, Idle)
        else if s.lease.Some? && s.lease.value.version == p.seen.version then
          Write(s, id, p.mine, reply == Delivered, if reply == Delivered then Running else Idle)
        else At(s, id, Idle)
    case Heartbeat(id, now, ttl, reply) =>
      if id !in s.instances || !s.instances[id].phase.Running? || reply == Refused then s
      else if Holds(s, id) then Write(s, id, LeaseDoc(id, now, ttl), reply == Delivered, Running)
      else if reply == Delivered then At(s, id, Stopped)
      else s
    case Close(id, reply) =>
      if id !in s.instances || !(s.instances[id].phase.Running? || s.instances[id].phase.Stopped?) then s
      else if s.instances[id].phase.Running? && reply != Refused && Holds(s, id)
      then At(s, id, Closed).(lease := None)
      else At(s, id, Closed)
  }

  predicate Initial(s: State) {
    s == State(None, 1, map[], map[])
  }

  function Exec(s: State, es: seq<Event>): State {
    if es == [] then s else Apply(Exec(s, es[..|es| - 1]), es[|es| - 1])
  }

  predicate Legal(s: State, es: seq<Event>) {
    es == [] || (Legal(s, es[..|es| - 1]) && Enabled(Exec(s, es[..|es| - 1]), es[|es| - 1]))
  }

  // ---- Invariant ----

  /** The record of writes knows this stored lease. */
  predicate OnRecord(s: State, l: Stored) {
    l.version in s.written && s.written[l.version] == l.doc
  }

  /** What an instance knows is its own or was really stored. */
  predicate InstanceSound(s: State, id: Id, i: Instance) {
    && (i.ver != 0 ==> i.ver in s.written && s.written[i.ver].instance == id)
    && (i.phase.Reading? ==> i.phase.mine.instance == id)
    && (i.phase.Judging? ==> i.phase.mine.instance == id && OnRecord(s, i.phase.seen))
    && (i.phase.Running? || i.phase.Stopped? ==> i.ver != 0)
  }

  ghost predicate Inv(s: State) {
    && s.issued > 0
    && (forall v :: v in s.written ==> 0 < v < s.issued)
    && (s.lease.Some? ==> OnRecord(s, s.lease.value))
    && (forall id :: id in s.instances ==> InstanceSound(s, id, s.instances[id]))
  }

  lemma AtKeepsInv(s: State, id: Id, p: Phase)
    requires Inv(s) && (id in s.instances ==> InstanceSound(s, id, s.instances[id].(phase := p)))
    ensures Inv(At(s, id, p))
  {}

  lemma WriteKeepsInv(s: State, id: Id, doc: LeaseDoc, learned: bool, p: Phase)
    requires Inv(s) && doc.instance == id && (p.Idle? || p.Running?)
    requires p.Running? ==> learned || (id in s.instances && s.instances[id].ver != 0)
    ensures Inv(Write(s, id, doc, learned, p))
  {
    var t := Write(s, id, doc, learned, p);
    if id in s.instances {
      forall q | q in t.instances ensures InstanceSound(t, q, t.instances[q]) {
        assert InstanceSound(s, q, s.instances[q]);
      }
    }
  }

  lemma StepKeepsInv(s: State, e: Event)
    requires Inv(s)
    ensures Inv(Apply(s, e))
  {
    hide Inv, At, Write;
    if e.id in s.instances { KnownIsSound(s, e.id); }
    match e
    case Start(id) => StartKeepsInv(s, id);
    case TryCreate(id, now, ttl, reply) =>
      if id in s.instances && s.instances[id].phase.Creating? {
        var doc := LeaseDoc(id, now, ttl);
        AtKeepsInv(s, id, Idle);
        AtKeepsInv(s, id, Reading(s.instances[id].phase.attempt, doc));
        WriteKeepsInv(s, id, doc, true, Running);
        WriteKeepsInv(s, id, doc, false, Idle);
      }
    case ReadLease(id, _) =>
      if id in s.instances && s.instances[id].phase.Reading? {
        var p := s.instances[id].phase;
        AtKeepsInv(s, id, Idle);
        AtKeepsInv(s, id, Creating(p.attempt + 1));
        if s.lease.Some? { AtKeepsInv(s, id, Judging(p.mine, s.lease.value)); }
      }
    case TryTakeover(id, _, _) =>
      if id in s.instances && s.instances[id].phase.Judging? {
        var p := s.instances[id].phase;
        AtKeepsInv(s, id, Idle);
        WriteKeepsInv(s, id, p.mine, true, Running);
        WriteKeepsInv(s, id, p.mine, false, Idle);
      }
    case Heartbeat(id, now, ttl, reply) =>
      if id in s.instances && s.instances[id].phase.Running? {
        AtKeepsInv(s, id, Stopped);
        WriteKeepsInv(s, id, LeaseDoc(id, now, ttl), reply == Delivered, Running);
      }
    case Close(id, _) =>
      AtKeepsInv(s, id, Closed);
      RemoveKeepsInv(At(s, id, Closed));
  }

  lemma KnownIsSound(s: State, id: Id)
    requires Inv(s) && id in s.instances
    ensures InstanceSound(s, id, s.instances[id]) && (s.lease.Some? ==> OnRecord(s, s.lease.value))
  {}

  lemma StartKeepsInv(s: State, id: Id)
    requires Inv(s)
    ensures Inv(Apply(s, Start(id)))
  {}

  lemma RemoveKeepsInv(s: State)
    requires Inv(s)
    ensures Inv(s.(lease := None))
  {
    forall q | q in s.instances ensures InstanceSound(s.(lease := None), q, s.instances[q]) {
      assert InstanceSound(s, q, s.instances[q]);
    }
  }

  lemma {:induction false} RunKeepsInv(s: State, es: seq<Event>)
    requires Initial(s)
    ensures Inv(Exec(s, es))
  {
    if es != [] {
      RunKeepsInv(s, es[..|es| - 1]);
      StepKeepsInv(Exec(s, es[..|es| - 1]), es[|es| - 1]);
    }
  }

  // ---- Main results ----

  /** At most one instance holds the stored version, and the stored document names it. */
  lemma AtMostOneHolder(s: State, es: seq<Event>, a: Id, b: Id)
    requires Initial(s) && Holds(Exec(s, es), a) && Holds(Exec(s, es), b)
    ensures a == b && Exec(s, es).lease.value.doc.instance == a
  {
    RunKeepsInv(s, es);
    var t := Exec(s, es);
    assert InstanceSound(t, a, t.instances[a]) && InstanceSound(t, b, t.instances[b]);
  }

  /** Why the stored lease may change in one step: it is created where there was none, its holder
      renews or deletes it, or an instance on whose clock it has expired replaces it. */
  predicate Justified(s: State, e: Event) {
    match e
    case TryCreate(_, _, _, _) => s.lease.None?
    case Heartbeat(id, _, _, _) => Holds(s, id) && s.lease.value.doc.instance == id
    case Close(id, _) => Holds(s, id) && s.lease.value.doc.instance == id && s.instances[id].phase.Running?
    case TryTakeover(_, now, _) => s.lease.Some? && s.lease.value.doc.ExpiredAt(now)
    case _ => false
  }

  /** In every run, every change of the lease is justified. In particular the Renew or Release of
      an instance that no longer holds it changes nothing. */
  lemma EveryChangeIsJustified(s: State, es: seq<Event>, e: Event)
    requires Initial(s) && Apply(Exec(s, es), e).lease != Exec(s, es).lease
    ensures Justified(Exec(s, es), e)
  {
    RunKeepsInv(s, es);
    var t := Exec(s, es);
    if e.TryTakeover? {
      assert InstanceSound(t, e.id, t.instances[e.id]);
    } else if e.Heartbeat? || e.Close? {
      assert InstanceSound(t, e.id, t.instances[e.id]);
    }
  }

  /** `id` knows a version that is not the stored one any more. */
  predicate Stale(s: State, id: Id, v: nat) {
    id in s.instances && s.instances[id].ver == v && v != 0 && !Holds(s, id)
  }

  lemma StepKeepsStale(s: State, e: Event, id: Id, v: nat)
    requires Inv(s) && Stale(s, id, v)
    ensures id in Apply(s, e).instances
    ensures Apply(s, e).instances[id].ver == v ==> Stale(Apply(s, e), id, v)
    ensures Apply(s, e).instances[id].ver != v ==> Apply(s, e).instances[id].ver >= s.issued
    ensures s.issued <= Apply(s, e).issued
  {
    assert InstanceSound(s, id, s.instances[id]);
  }

  /** A version once lost is lost for good: unless it acquires again, a stale instance stays stale. */
  lemma {:induction false} StaleForever(s: State, es: seq<Event>, id: Id, v: nat)
    requires Inv(s) && Stale(s, id, v)
    ensures Inv(Exec(s, es)) && Exec(s, es).issued >= s.issued && id in Exec(s, es).instances
    ensures Exec(s, es).instances[id].ver == v ==> Stale(Exec(s, es), id, v)
    ensures Exec(s, es).instances[id].ver != v ==> Exec(s, es).instances[id].ver >= s.issued
  {
    if es != [] {
      var front, e := es[..|es| - 1], es[|es| - 1];
      StaleForever(s, front, id, v);
      var t := Exec(s, front);
      StepKeepsInv(t, e);
      if t.instances[id].ver == v {
        StepKeepsStale(t, e, id, v);
      } else {
        StepKeepsVersion(t, e, id);
      }
    }
  }

  /** An instance's version only moves forward. */
  lemma StepKeepsVersion(s: State, e: Event, id: Id)
    requires Inv(s) && id in s.instances
    ensures id in Apply(s, e).instances && s.instances[id].ver <= Apply(s, e).instances[id].ver
    ensures s.issued <= Apply(s, e).issued
  {
    assert InstanceSound(s, id, s.instances[id]);
  }

  /** A renewal whose reply is lost leaves the instance stale: its next heartbeat stops it,
      although the stored document is its own. */
  lemma LostReplyStopsHolder(s: State, es: seq<Event>, id: Id, now: int, ttl: int, later: int)
    requires Initial(s) && Holds(Exec(s, es), id) && Exec(s, es).instances[id].phase.Running?
    ensures var t := Apply(Exec(s, es), Heartbeat(id, now, ttl, ReplyLost));
            && t.lease.Some? && t.lease.value.doc.instance == id && !Holds(t, id)
            && Apply(t, Heartbeat(id, later, ttl, Delivered)).instances[id].phase == Stopped
            && Apply(t, Heartbeat(id, later, ttl, Delivered)).lease == t.lease
  {
    RunKeepsInv(s, es);
    var t := Exec(s, es);
    assert InstanceSound(t, id, t.instances[id]);
  }

  predicate BothRun(s: State, a: Id, b: Id) {
    && a in s.instances && s.instances[a].phase == Running
    && b in s.instances && s.instances[b].phase == Running
  }

  // ---- Who replicates ----

  predicate TwoRun(s: State) {
    exists a, b :: a in s.instances && b in s.instances && a != b && BothRun(s, a, b)
  }

  /** A takeover that replaces the document of an instance that is still replicating. */
  predicate Displaces(s: State, e: Event) {
    && e.TryTakeover? && e.reply != Refused
    && e.id in s.instances && s.instances[e.id].phase.Judging? && s.instances[e.id].phase.seen.doc.ExpiredAt(e.now)
    && s.lease.Some? && s.lease.value.version == s.instances[e.id].phase.seen.version
    && s.lease.value.doc.instance in s.instances && s.instances[s.lease.value.doc.instance].phase.Running?
  }

  /** Whoever replicates is named by the stored document. */
  ghost predicate RunnersNamed(s: State) {
    forall id :: id in s.instances && s.instances[id].phase.Running? ==>
      s.lease.Some? && s.lease.value.doc.instance == id
  }

  lemma StepKeepsRunnersNamed(s: State, e: Event)
    requires Inv(s) && RunnersNamed(s) && !Displaces(s, e)
    ensures RunnersNamed(Apply(s, e))
  {
    if e.id in s.instances { assert InstanceSound(s, e.id, s.instances[e.id]); }
  }

  lemma NamedRunnersAreOne(s: State)
    requires RunnersNamed(s)
    ensures !TwoRun(s)
  {}

  lemma DisplacementOverlaps(s: State, e: Event)
    requires Inv(s) && Displaces(s, e) && e.reply == Delivered
    ensures TwoRun(Apply(s, e))
  {
    var x := s.lease.value.doc.instance;
    assert BothRun(Apply(s, e), x, e.id);
  }

  ghost predicate NeverDisplaces(s: State, es: seq<Event>) {
    es == [] || (NeverDisplaces(s, es[..|es| - 1]) && !Displaces(Exec(s, es[..|es| - 1]), es[|es| - 1]))
  }

  lemma {:induction false} RunKeepsRunnersNamed(s: State, es: seq<Event>)
    requires Initial(s) && NeverDisplaces(s, es)
    ensures RunnersNamed(Exec(s, es))
  {
    hide Inv, Displaces, Apply;
    if es != [] {
      var front := es[..|es| - 1];
      RunKeepsRunnersNamed(s, front);
      RunKeepsInv(s, front);
      StepKeepsRunnersNamed(Exec(s, front), es[|es| - 1]);
    }
  }

  /** While no takeover displaced an instance that was still replicating, at most one instance
      replicates; and the next step makes it two exactly if it is such a takeover and its reply arrives. */
  lemma SecondRunnerIff(s: State, es: seq<Event>, e: Event)
    requires Initial(s) && NeverDisplaces(s, es)
    ensures !TwoRun(Exec(s, es))
    ensures TwoRun(Apply(Exec(s, es), e)) <==> Displaces(Exec(s, es), e) && e.reply == Delivered
  {
    hide Inv, Exec, NeverDisplaces;
    RunKeepsInv(s, es);
    RunKeepsRunnersNamed(s, es);
    var t := Exec(s, es);
    NamedRunnersAreOne(t);
    if Displaces(t, e) {
      if e.reply == Delivered { DisplacementOverlaps(t, e); } else { LostTakeoverRunsNobody(t, e); }
    } else {
      StepKeepsRunnersNamed(t, e);
      NamedRunnersAreOne(Apply(t, e));
    }
  }

  /** A takeover whose reply is lost starts nobody. */
  lemma LostTakeoverRunsNobody(s: State, e: Event)
    requires e.TryTakeover? && e.reply != Delivered && !TwoRun(s)
    ensures !TwoRun(Apply(s, e))
  {
    var t := Apply(s, e);
    forall a, b | a in t.instances && b in t.instances && a != b ensures !BothRun(t, a, b) {
      assert !BothRun(s, a, b);
    }
  }

  // ---- What each step achieves ----

  /** The document is past its time to live. */
  predicate Over(doc: LeaseDoc, now: int) {
    doc.renewedAt + doc.ttl <= now
  }

  /** Acquiring: an absent lease is created, a present one is read, and an expired one that is still the
      stored one is taken over; a delivered write makes the instance run with its version. Nothing else
      writes, and four attempts that find the lease gone again are the last. */
  lemma AcquireSteps(s: State, e: Event)
    requires Enabled(s, e) && (e.TryCreate? || e.ReadLease? || e.TryTakeover?)
    ensures var t, i := Apply(s, e), s.instances[e.id];
            && e.id in t.instances && (forall q :: q in s.instances && q != e.id ==> q in t.instances && t.instances[q] == s.instances[q])
            && var j := t.instances[e.id];
               match e
               case TryCreate(id, now, ttl, reply) =>
                 if reply == Refused then t.lease == s.lease && j == Instance(i.ver, Idle)
                 else if s.lease.None? then
                   && t.lease == Some(Stored(s.issued, LeaseDoc(id, now, ttl)))
                   && j == if reply == Delivered then Instance(s.issued, Running) else Instance(i.ver, Idle)
                 else && t.lease == s.lease
                      && j == Instance(i.ver, if reply == Delivered then Reading(i.phase.attempt, LeaseDoc(id, now, ttl)) else Idle)
               case ReadLease(_, reply) =>
                 && t.lease == s.lease
                 && j == Instance(i.ver, if reply != Delivered then Idle
                                         else if s.lease.Some? then Judging(i.phase.mine, s.lease.value)
                                         else if i.phase.attempt < 3 then Creating(i.phase.attempt + 1) else Idle)
               case TryTakeover(_, now, reply) =>
                 if Over(i.phase.seen.doc, now) && reply != Refused && s.lease.Some? && s.lease.value.version == i.phase.seen.version
                 then && t.lease == Some(Stored(s.issued, i.phase.mine))
                      && j == if reply == Delivered then Instance(s.issued, Running) else Instance(i.ver, Idle)
                 else t.lease == s.lease && j == Instance(i.ver, Idle)
               case _ => true
  {}

  /** Holding: the heartbeat of the holder renews the document and keeps it running, and that of any other
      instance stops it; closing removes the lease of the holder and of nobody else. */
  lemma HolderSteps(s: State, e: Event)
    requires Enabled(s, e) && (e.Heartbeat? || e.Close?)
    ensures var t, i := Apply(s, e), s.instances[e.id];
            && e.id in t.instances && (forall q :: q in s.instances && q != e.id ==> q in t.instances && t.instances[q] == s.instances[q])
            && var j, holds := t.instances[e.id], s.lease.Some? && s.lease.value.version == i.ver;
               match e
               case Heartbeat(id, now, ttl, reply) =>
                 if holds && reply != Refused
                 then && t.lease == Some(Stored(s.issued, LeaseDoc(id, now, ttl)))
                      && j == Instance(if reply == Delivered then s.issued else i.ver, Running)
                 else t.lease == s.lease && j == if reply == Delivered then Instance(i.ver, Stopped) else i
               case Close(_, reply) =>
                 && j == Instance(i.ver, Closed)
                 && t.lease == if i.phase.Running? && holds && reply != Refused then None else s.lease
               case _ => true
  {}
}
