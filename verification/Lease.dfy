/** One instance's view of the replica lease: a document it creates, renews,
    takes over or releases by compare-and-swap on the version it knows. */
module Lease {
  import opened Wrappers
  import opened ObjectStore
  import P = LeaseProtocol

  /** The stored lease object: a document, or bytes that do not parse as one. */
  datatype LeaseBody = Document(doc: P.LeaseDoc) | Unparsable

  datatype AcquireOutcome = Acquired | Held | AcquireFailed
  datatype RenewOutcome = Renewed | Lost | RenewFailed

  /** The write that replaces the object of version `seen`, when that was an expired document. */
  ghost predicate ReplacesExpired(before: Contents<LeaseBody>, key: Key, now: int) {
    key in before && before[key].body.Document? && before[key].body.doc.ExpiredAt(now)
  }

  /** The stored lease had version `v`. */
  ghost predicate HeldAt(contents: Contents<LeaseBody>, key: Key, v: nat) {
    key in contents && contents[key].version == v
  }

  // ---- Store calls as steps of the protocol ----

  const NO_DOCUMENT := P.LeaseDoc("", 0, 0)

  /** The lease as the protocol sees it. Bytes that do not parse are a lease like any other, except
      that reading them fails. */
  function Seen(c: Contents<LeaseBody>, key: Key): Option<P.Stored> {
    if key in c then Some(P.Stored(c[key].version, if c[key].body.Document? then c[key].body.doc else NO_DOCUMENT)) else None
  }

  /** A store call, with the contents it saw and left, or a decision taken without one. */
  datatype Call =
    | Sent(event: P.Event, before: Contents<LeaseBody>, after: Contents<LeaseBody>, wrote: bool)
    | Decided(event: P.Event, before: Contents<LeaseBody>)
  {
    function Left(): Contents<LeaseBody> { if Sent? then after else before }
  }

  /** The instants that a call adds to the store's history. */
  function InstantsOf(c: Call): seq<Contents<LeaseBody>> {
    if c.Decided? then [] else if c.wrote then [c.before, c.after] else [c.before]
  }

  function Instants(cs: seq<Call>): seq<Contents<LeaseBody>> {
    if cs == [] then [] else Instants(cs[..|cs| - 1]) + InstantsOf(cs[|cs| - 1])
  }

  /** The protocol state of one instance on its own, as the call finds it. */
  function Alone(key: Key, c: Call, i: P.Instance): P.State {
    var version := if key in c.Left() then c.Left()[key].version else 0;
    P.State(Seen(c.before, key), version, map[c.event.id := i], map[])
  }

  /** The call is the protocol's event: it is enabled, and leaves the lease as the protocol says. Only
      the decision to leave an unexpired lease alone takes no call. */
  predicate Fits(key: Key, c: Call, i: P.Instance) {
    && (c.Decided? ==> c.event.TryTakeover? && i.phase.Judging? && !i.phase.seen.doc.ExpiredAt(c.event.now))
    && (c.Sent? && !c.wrote ==> c.after == c.before)
    && P.Enabled(Alone(key, c, i), c.event) && P.Apply(Alone(key, c, i), c.event).lease == Seen(c.Left(), key)
  }

  /** The instance after the call's event. */
  function Next(key: Key, c: Call, i: P.Instance): P.Instance {
    var t := P.Apply(Alone(key, c, i), c.event);
    if c.event.id in t.instances then t.instances[c.event.id] else i
  }

  function After(key: Key, cs: seq<Call>, i: P.Instance): P.Instance {
    if cs == [] then i else Next(key, cs[|cs| - 1], After(key, cs[..|cs| - 1], i))
  }

  predicate Follows(key: Key, cs: seq<Call>, i: P.Instance) {
    cs == [] || (Follows(key, cs[..|cs| - 1], i) && Fits(key, cs[|cs| - 1], After(key, cs[..|cs| - 1], i)))
  }

  /** The calls account for every instant between `earlier` and `later`, and are protocol events of `id`
      that take it from `i` to `j`. */
  ghost predicate Traces(key: Key, id: P.Id, cs: seq<Call>, i: P.Instance, j: P.Instance,
                         earlier: seq<Contents<LeaseBody>>, later: seq<Contents<LeaseBody>>) {
    && later == earlier + Instants(cs) && (forall n :: 0 <= n < |cs| ==> cs[n].event.id == id)
    && Follows(key, cs, i) && After(key, cs, i) == j
  }

  /** One call takes the instance from `i` to `j`. */
  ghost predicate Steps(key: Key, id: P.Id, c: Call, i: P.Instance, j: P.Instance,
                        earlier: seq<Contents<LeaseBody>>, later: seq<Contents<LeaseBody>>) {
    && later == earlier + InstantsOf(c) && c.event.id == id
    && Fits(key, c, i) && Next(key, c, i) == j
  }

  lemma NoCalls(key: Key, id: P.Id, i: P.Instance, m: seq<Contents<LeaseBody>>)
    ensures Traces(key, id, [], i, i, m, m)
  {}

  lemma OneMoreCall(key: Key, id: P.Id, cs: seq<Call>, i: P.Instance, j: P.Instance, c: Call, k: P.Instance,
                    earlier: seq<Contents<LeaseBody>>, mid: seq<Contents<LeaseBody>>, later: seq<Contents<LeaseBody>>)
    requires Traces(key, id, cs, i, j, earlier, mid) && Steps(key, id, c, j, k, mid, later)
    ensures Traces(key, id, cs + [c], i, k, earlier, later)
  {
    hide Fits, Next, InstantsOf;
    var more := cs + [c];
    assert more[..|more| - 1] == cs && more[|more| - 1] == c;
    assert earlier + Instants(cs) + InstantsOf(c) == earlier + (Instants(cs) + InstantsOf(c));
  }

  /** The state with `id` as its only instance. */
  function Only(s: P.State, id: P.Id): P.State
    requires id in s.instances
  {
    P.State(s.lease, s.issued, map[id := s.instances[id]], map[])
  }

  /** `t` agrees with `u` on the lease and on `id`, and with `s` on the other instances. */
  ghost predicate Agrees(s: P.State, id: P.Id, t: P.State, u: P.State) {
    && t.lease == u.lease && t.instances.Keys == s.instances.Keys && id in t.instances && id in u.instances
    && t.instances[id] == u.instances[id]
    && forall q :: q in s.instances && q != id ==> q in t.instances && t.instances[q] == s.instances[q]
  }

  lemma AtAgrees(s: P.State, id: P.Id, p: P.Phase)
    requires id in s.instances
    ensures Agrees(s, id, P.At(s, id, p), P.At(Only(s, id), id, p))
    ensures Agrees(s, id, P.At(s, id, p).(lease := None), P.At(Only(s, id), id, p).(lease := None))
  {}

  lemma WriteAgrees(s: P.State, id: P.Id, doc: P.LeaseDoc, learned: bool, p: P.Phase)
    requires id in s.instances
    ensures Agrees(s, id, P.Write(s, id, doc, learned, p), P.Write(Only(s, id), id, doc, learned, p))
  {}

  /** A protocol event moves an instance, and the lease, in the same way among any others. */
  lemma SameAmongOthers(s: P.State, e: P.Event)
    requires P.Enabled(s, e) && !e.Start?
    ensures Agrees(s, e.id, P.Apply(s, e), P.Apply(Only(s, e.id), e))
  {
    forall p ensures Agrees(s, e.id, P.At(s, e.id, p), P.At(Only(s, e.id), e.id, p))
             ensures Agrees(s, e.id, P.At(s, e.id, p).(lease := None), P.At(Only(s, e.id), e.id, p).(lease := None)) {
      AtAgrees(s, e.id, p);
    }
    forall doc, learned, p ensures Agrees(s, e.id, P.Write(s, e.id, doc, learned, p), P.Write(Only(s, e.id), e.id, doc, learned, p)) {
      WriteAgrees(s, e.id, doc, learned, p);
    }
    assert Agrees(s, e.id, s, Only(s, e.id)) && P.Holds(s, e.id) == P.Holds(Only(s, e.id), e.id);
    hide Agrees, P.At, P.Write, P.Holds;
  }

  // ---- What a store call did, from the instants it added ----

  function SentCall(e: P.Event, earlier: seq<Contents<LeaseBody>>, later: seq<Contents<LeaseBody>>): Call
    requires |earlier| < |later|
  {
    Sent(e, later[|earlier|], later[|later| - 1], |later| == |earlier| + 2)
  }

  /** The store answered the call, or none was needed. */
  predicate Answered(c: Call) {
    !c.event.Start? && c.event.reply == P.Delivered
  }

  /** The call read bytes that do not parse. */
  predicate ReadsJunk(key: Key, c: Call) {
    c.event.ReadLease? && key in c.before && c.before[key].body.Unparsable?
  }

  function ReplyTo(failed: bool, wrote: bool): P.Reply {
    if !failed then P.Delivered else if wrote then P.ReplyLost else P.Refused
  }

  /** One or two more instants: the call saw the first, and any second one is its write of `doc`. */
  predicate WritesAtMost(key: Key, doc: P.LeaseDoc, earlier: seq<Contents<LeaseBody>>, later: seq<Contents<LeaseBody>>) {
    && earlier <= later && |earlier| < |later| <= |earlier| + 2
    && (|later| == |earlier| + 2 ==>
          var after := later[|later| - 1];
          key in after && after == later[|earlier|][key := Object(after[key].version, Document(doc))])
  }

  /** A conditional put writes, unless it fails, exactly when the condition `met` holds. */
  predicate Answers(put: PutReply, met: bool, wrote: bool, now: Contents<LeaseBody>, key: Key) {
    if put.Stored? then wrote && met && key in now && put.version == now[key].version
    else if put.PutFailed? then wrote ==> met
    else !wrote && !met
  }

  lemma CreateSteps(key: Key, id: P.Id, now: int, ttl: int, i: P.Instance, put: PutReply,
                    earlier: seq<Contents<LeaseBody>>, later: seq<Contents<LeaseBody>>) returns (c: Call, j: P.Instance)
    requires i.phase.Creating? && WritesAtMost(key, P.LeaseDoc(id, now, ttl), earlier, later)
    requires Answers(put, key !in later[|earlier|], |later| == |earlier| + 2, later[|later| - 1], key)
    ensures c.event.TryCreate? && c.event.now == now && c.event.ttl == ttl && (Answered(c) <==> !put.PutFailed?)
    ensures Steps(key, id, c, i, j, earlier, later)
    ensures j == if put.Stored? then P.Instance(put.version, P.Running)
                 else if put.PutFailed? then P.Instance(i.ver, P.Idle)
                 else P.Instance(i.ver, P.Reading(i.phase.attempt, P.LeaseDoc(id, now, ttl)))
  {
    c := SentCall(P.TryCreate(id, now, ttl, ReplyTo(put.PutFailed?, |later| == |earlier| + 2)), earlier, later);
    j := if put.Stored? then P.Instance(put.version, P.Running)
    else if put.PutFailed? then P.Instance(i.ver, P.Idle)
    else P.Instance(i.ver, P.Reading(i.phase.attempt, P.LeaseDoc(id, now, ttl)));
  }

  lemma ReadSteps(key: Key, id: P.Id, i: P.Instance, got: GetReply<LeaseBody>,
                  earlier: seq<Contents<LeaseBody>>, later: seq<Contents<LeaseBody>>) returns (c: Call, j: P.Instance)
    requires i.phase.Reading? && earlier <= later && |later| == |earlier| + 1
    requires got.Found? ==> key in later[|earlier|] && later[|earlier|][key] == got.obj
    requires got.NotFound? ==> key !in later[|earlier|]
    ensures c.event.ReadLease? && (Answered(c) <==> !got.GetFailed? && (got.Found? ==> got.obj.body.Document?))
    ensures Steps(key, id, c, i, j, earlier, later)
    ensures j.ver == i.ver
    ensures c.before == later[|earlier|]
    ensures got.GetFailed? || (got.Found? && got.obj.body.Unparsable?) ==> j.phase == P.Idle
    ensures got.NotFound? ==> j.phase == if i.phase.attempt + 1 < P.ACQUIRE_ATTEMPTS then P.Creating(i.phase.attempt + 1) else P.Idle
    ensures got.Found? && got.obj.body.Document?
            ==> j.phase == P.Judging(i.phase.mine, P.Stored(got.obj.version, got.obj.body.doc))
  {
    c := SentCall(P.ReadLease(id, ReplyTo(got.GetFailed? || (got.Found? && got.obj.body.Unparsable?), false)), earlier, later);
    j := Next(key, c, i);
  }

  /** An unexpired lease is left alone. */
  lemma LeaveSteps(key: Key, id: P.Id, now: int, i: P.Instance, seen: Contents<LeaseBody>,
                   moments: seq<Contents<LeaseBody>>) returns (c: Call)
    requires i.phase.Judging? && !i.phase.seen.doc.ExpiredAt(now)
    ensures c.event.TryTakeover? && c.event.now == now && Answered(c)
    ensures Steps(key, id, c, i, P.Instance(i.ver, P.Idle), moments, moments)
  {
    c := Decided(P.TryTakeover(id, now, P.Delivered), seen);
  }

  lemma TakeoverSteps(key: Key, id: P.Id, now: int, i: P.Instance, put: PutReply,
                      earlier: seq<Contents<LeaseBody>>, later: seq<Contents<LeaseBody>>) returns (c: Call)
    requires i.phase.Judging? && i.phase.seen.doc.ExpiredAt(now) && WritesAtMost(key, i.phase.mine, earlier, later)
    requires Answers(put, HeldAt(later[|earlier|], key, i.phase.seen.version), |later| == |earlier| + 2, later[|later| - 1], key)
    ensures c.event.TryTakeover? && c.event.now == now && (Answered(c) <==> !put.PutFailed?)
    ensures Steps(key, id, c, i, if put.Stored? then P.Instance(put.version, P.Running) else P.Instance(i.ver, P.Idle), earlier, later)
  {
    c := SentCall(P.TryTakeover(id, now, ReplyTo(put.PutFailed?, |later| == |earlier| + 2)), earlier, later);
  }

  lemma RenewSteps(key: Key, id: P.Id, now: int, ttl: int, i: P.Instance, put: PutReply,
                   earlier: seq<Contents<LeaseBody>>, later: seq<Contents<LeaseBody>>) returns (c: Call)
    requires i.phase.Running? && WritesAtMost(key, P.LeaseDoc(id, now, ttl), earlier, later)
    requires Answers(put, HeldAt(later[|earlier|], key, i.ver), |later| == |earlier| + 2, later[|later| - 1], key)
    ensures c.event.Heartbeat? && c.event.now == now && c.event.ttl == ttl && (Answered(c) <==> !put.PutFailed?)
    ensures Steps(key, id, c, i, if put.Stored? then P.Instance(put.version, P.Running)
                             else P.Instance(i.ver, if put.PutFailed? then P.Running else P.Stopped), earlier, later)
  {
    c := SentCall(P.Heartbeat(id, now, ttl, ReplyTo(put.PutFailed?, |later| == |earlier| + 2)), earlier, later);
  }

  lemma ReleaseSteps(key: Key, id: P.Id, i: P.Instance, ok: bool,
                     earlier: seq<Contents<LeaseBody>>, later: seq<Contents<LeaseBody>>) returns (c: Call)
    requires i.phase.Running? && earlier <= later && |earlier| < |later| <= |earlier| + 2
    requires |later| == |earlier| + 2 ==> later[|later| - 1] == later[|earlier|] - {key} && HeldAt(later[|earlier|], key, i.ver)
    requires ok && |later| == |earlier| + 1 ==> !HeldAt(later[|earlier|], key, i.ver)
    ensures c.event.Close? && (Answered(c) <==> ok) && Steps(key, id, c, i, P.Instance(i.ver, P.Closed), earlier, later)
  {
    c := SentCall(P.Close(id, ReplyTo(!ok, |later| == |earlier| + 2)), earlier, later);
  }

  // ---- The times of the calls ----

  /** The two times that an attempt reads: one to stamp, one to compare with the expiry. */
  predicate ReadBy(clock: nat -> int, attempt: nat, stamped: int, compared: int) {
    attempt < P.ACQUIRE_ATTEMPTS && stamped == clock(2 * attempt) && compared == clock(2 * attempt + 1)
  }

  lemma ReadsClock(clock: nat -> int, attempt: nat)
    requires attempt < P.ACQUIRE_ATTEMPTS
    ensures ReadBy(clock, attempt, clock(2 * attempt), clock(2 * attempt + 1))
  {}

  /** Attempt `n` makes the calls `2 * n` and `2 * n + 1`, a create with its first time and a read; a
      takeover comes last, with the second time of the attempt before it. */
  predicate Timed(calls: seq<Call>, clock: nat -> int, ttl: int) {
    forall k :: 0 <= k < |calls| ==> TimedAt(calls[k].event, k, |calls|, clock, ttl)
  }

  predicate TimedAt(e: P.Event, k: nat, n: nat, clock: nat -> int, ttl: int) {
    match e
    case TryCreate(_, now, t, _) => k % 2 == 0 && now == clock(k) && t == ttl
    case ReadLease(_, _) => k % 2 == 1
    case TryTakeover(_, now, _) => k % 2 == 0 && k > 0 && k == n - 1 && now == clock(k - 1)
    case _ => false
  }

  /** The calls of one attempt are on time. */
  lemma AttemptOnTime(e: P.Event, attempt: nat, clock: nat -> int, ttl: int)
    ensures e.TryCreate? && e.now == clock(2 * attempt) && e.ttl == ttl ==> TimedAt(e, 2 * attempt, 2 * attempt + 1, clock, ttl)
    ensures e.ReadLease? ==> TimedAt(e, 2 * attempt + 1, 2 * attempt + 2, clock, ttl)
    ensures e.TryTakeover? && e.now == clock(2 * attempt + 1) ==> TimedAt(e, 2 * attempt + 2, 2 * attempt + 3, clock, ttl)
  {}

  /** The calls so far are `n`, none of them a takeover. */
  predicate Unfinished(calls: seq<Call>, n: nat) {
    |calls| == n && forall k :: 0 <= k < |calls| ==> !calls[k].event.TryTakeover?
  }

  lemma TimedOneMore(calls: seq<Call>, clock: nat -> int, ttl: int, c: Call, n: nat)
    requires Timed(calls, clock, ttl) && Unfinished(calls, n) && TimedAt(c.event, n, n + 1, clock, ttl)
    ensures Timed(calls + [c], clock, ttl)
    ensures !c.event.TryTakeover? ==> Unfinished(calls + [c], n + 1)
  {
    var more := calls + [c];
    forall k | 0 <= k < |more| ensures TimedAt(more[k].event, k, |more|, clock, ttl) {
      if k < n { assert more[k] == calls[k] && TimedAt(calls[k].event, k, n, clock, ttl); }
    }
  }

  /** What an attempt has called so far, step by step and on time. */
  ghost predicate Trail(key: Key, id: P.Id, ttl: int, clock: nat -> int, calls: seq<Call>, i: P.Instance, j: P.Instance,
                        earlier: seq<Contents<LeaseBody>>, later: seq<Contents<LeaseBody>>) {
    Traces(key, id, calls, i, j, earlier, later) && Timed(calls, clock, ttl)
  }

  lemma StartTrail(key: Key, id: P.Id, ttl: int, clock: nat -> int, i: P.Instance, m: seq<Contents<LeaseBody>>)
    ensures Trail(key, id, ttl, clock, [], i, i, m, m) && Unfinished([], 0)
  {
    NoCalls(key, id, i, m);
  }

  lemma TrailOneMore(key: Key, id: P.Id, ttl: int, clock: nat -> int, calls: seq<Call>, n: nat, i: P.Instance, j: P.Instance, c: Call, k: P.Instance,
                     earlier: seq<Contents<LeaseBody>>, mid: seq<Contents<LeaseBody>>, later: seq<Contents<LeaseBody>>)
    requires Trail(key, id, ttl, clock, calls, i, j, earlier, mid) && Unfinished(calls, n)
    requires Steps(key, id, c, j, k, mid, later) && TimedAt(c.event, n, n + 1, clock, ttl)
    ensures Trail(key, id, ttl, clock, calls + [c], i, k, earlier, later)
    ensures !c.event.TryTakeover? ==> Unfinished(calls + [c], n + 1)
  {
    hide Traces, Steps, Timed, TimedAt, Unfinished;
    OneMoreCall(key, id, calls, i, j, c, k, earlier, mid, later);
    TimedOneMore(calls, clock, ttl, c, n);
  }

  class Lease {
    const store: Bucket<LeaseBody>
    const key: Key
    const ttl: int
    const id: string
    var ver: nat          // the version this instance wrote last; 0 before the first acquire
    var tookOver: bool
    var prevHolder: string

    constructor (store: Bucket<LeaseBody>, key: Key, ttl: int, id: string)
      ensures this.store == store && this.key == key && this.ttl == ttl && this.id == id
      ensures ver == 0 && !tookOver
    {
      this.store, this.key, this.ttl, this.id := store, key, ttl, id;
      ver, tookOver, prevHolder := 0, false, "";
    }

    function Body(now: int): LeaseBody {
      Document(P.LeaseDoc(id, now, ttl))
    }

    /** Claims the lease. Success is exactly one write of this instance's document, and it holds the
        version of that write. A write, even one whose reply is lost, fills an empty place or replaces
        a document already expired on this clock, and a takeover is noted with the holder it replaced.
        Finding the lease held writes nothing; any other failure wrote at most once. `clock(2 * n)` is
        the time stamped by attempt `n` and `clock(2 * n + 1)` the time it compares with the expiry.
        Its store calls are protocol events, with these times, that take it from its first attempt to
        running or idle. It fails exactly if a store call failed or the lease it read does not parse. */
    method Acquire(clock: nat -> int)
      returns (r: AcquireOutcome, ghost stamped: int, ghost compared: int, ghost calls: seq<Call>)
      requires store.Valid()
      modifies this, store
      ensures store.Valid()
      ensures r == Acquired ==> && store.effects == old(store.effects) + [Wrote(key, Body(stamped))]
                                && key in store.objects
                                && store.objects[key] == Object(ver, Body(stamped))
      ensures store.effects != old(store.effects) ==> |store.moments| >= 2
      ensures store.effects != old(store.effects) && key in store.moments[|store.moments| - 2]
              ==> ReplacesExpired(store.moments[|store.moments| - 2], key, compared)
      ensures r == Acquired && key in store.moments[|store.moments| - 2]
              ==> tookOver && prevHolder == store.moments[|store.moments| - 2][key].body.doc.instance
      ensures r == Acquired && key !in store.moments[|store.moments| - 2]
              ==> tookOver == old(tookOver) && prevHolder == old(prevHolder)
      ensures r == Held ==> store.effects == old(store.effects)
      ensures r == AcquireFailed ==> || store.effects == old(store.effects)
                                     || store.effects == old(store.effects) + [Wrote(key, Body(stamped))]
      ensures r != Acquired ==> ver == old(ver) && tookOver == old(tookOver) && prevHolder == old(prevHolder)
      ensures store.effects != old(store.effects) ==> exists n :: ReadBy(clock, n, stamped, compared)
      ensures calls != [] && (r == AcquireFailed <==> !Answered(calls[|calls| - 1]))
      ensures r == AcquireFailed <==> store.failures > old(store.failures) || ReadsJunk(key, calls[|calls| - 1])
      ensures Trail(key, id, ttl, clock, calls, P.Instance(old(ver), P.Creating(0)), Settled(r), old(store.moments), store.moments)
    {
      hide Trail, Steps, Unfinished, TimedAt, Answered, ReadBy;
      stamped, compared, calls := 0, 0, [];
      ghost var first, was := P.Instance(ver, P.Creating(0)), store.moments;
      ghost var i := first;
      StartTrail(key, id, ttl, clock, i, was);
      for attempt := 0 to P.ACQUIRE_ATTEMPTS
        invariant store.Valid() && store.effects == old(store.effects)
        invariant ver == old(ver) && tookOver == old(tookOver) && prevHolder == old(prevHolder)
        invariant i == P.Instance(ver, if attempt < P.ACQUIRE_ATTEMPTS then P.Creating(attempt) else P.Idle)
        invariant Trail(key, id, ttl, clock, calls, first, i, was, store.moments) && Unfinished(calls, 2 * attempt)
        invariant attempt > 0 ==> calls != [] && Answered(calls[|calls| - 1]) && !ReadsJunk(key, calls[|calls| - 1])
        invariant store.failures == old(store.failures)
      {
        var b := Body(clock(2 * attempt));
        stamped, compared := clock(2 * attempt), clock(2 * attempt + 1);
        ReadsClock(clock, attempt);
        ghost var m := store.moments;
        var put, c, j := Create(b, i);
        AttemptOnTime(c.event, attempt, clock, ttl);
        TrailOneMore(key, id, ttl, clock, calls, 2 * attempt, first, i, c, j, was, m, store.moments);
        calls, i, m := calls + [c], j, store.moments;
        if put.Stored? {
          ver := put.version;
          r := Acquired;
          return;
        }
        if !put.AlreadyExists? {
          r := AcquireFailed;
          return;
        }
        var got;
        got, c, j := Read(i);
        AttemptOnTime(c.event, attempt, clock, ttl);
        TrailOneMore(key, id, ttl, clock, calls, 2 * attempt + 1, first, i, c, j, was, m, store.moments);
        calls, i, m := calls + [c], j, store.moments;
        if got.NotFound? {
          continue;
        }
        if got.GetFailed? || got.obj.body.Unparsable? {
          r := AcquireFailed;
          return;
        }
        var doc := got.obj.body.doc;
        if clock(2 * attempt + 1) < doc.renewedAt + doc.ttl {
          c := LeaveSteps(key, id, compared, i, store.Now(), m);
          AttemptOnTime(c.event, attempt, clock, ttl);
          TrailOneMore(key, id, ttl, clock, calls, 2 * attempt + 2, first, i, c, P.Instance(ver, P.Idle), was, m, m);
          calls, r := calls + [c], Held;
          return;
        }
        r, c := TakeOver(got.obj, b, compared, i);
        AttemptOnTime(c.event, attempt, clock, ttl);
        TrailOneMore(key, id, ttl, clock, calls, 2 * attempt + 2, first, i, c, Settled(r), was, m, store.moments);
        calls := calls + [c];
        return;
      }
      r := Held;
    }

    /** Creates the lease if there is none. */
    method Create(b: LeaseBody, ghost i: P.Instance) returns (put: PutReply, ghost c: Call, ghost j: P.Instance)
      requires store.Valid() && i.phase.Creating? && b.Document? && b.doc.instance == id
      modifies store
      ensures store.Valid()
      ensures put.Stored? || put.AlreadyExists? || put.PutFailed?
      ensures store.failures == old(store.failures) + if put.PutFailed? then 1 else 0
      ensures put.Stored? ==> && store.effects == old(store.effects) + [Wrote(key, b)]
                              && key in store.objects && store.objects[key] == Object(put.version, b)
      ensures store.effects != old(store.effects) ==> |store.moments| >= 2 && key !in store.moments[|store.moments| - 2]
      ensures put.AlreadyExists? ==> store.effects == old(store.effects)
      ensures put.PutFailed? ==> store.effects == old(store.effects) || store.effects == old(store.effects) + [Wrote(key, b)]
      ensures c.event.TryCreate? && c.event.now == b.doc.renewedAt && c.event.ttl == b.doc.ttl && (Answered(c) <==> !put.PutFailed?)
      ensures Steps(key, id, c, i, j, old(store.moments), store.moments)
      ensures j == if put.Stored? then P.Instance(put.version, P.Running)
                   else if put.PutFailed? then P.Instance(i.ver, P.Idle)
                   else P.Instance(i.ver, P.Reading(i.phase.attempt, b.doc))
    {
      hide Steps;
      ghost var m := store.moments;
      put := store.PutIfAbsent(key, b);
      c, j := CreateSteps(key, id, b.doc.renewedAt, b.doc.ttl, i, put, m, store.moments);
    }

    /** Reads the lease. */
    method Read(ghost i: P.Instance) returns (got: GetReply<LeaseBody>, ghost c: Call, ghost j: P.Instance)
      requires store.Valid() && i.phase.Reading?
      modifies store
      ensures store.Valid() && store.effects == old(store.effects)
      ensures store.failures == old(store.failures) + if got.GetFailed? then 1 else 0
      ensures (got.NotFound? ==> !ReadsJunk(key, c)) && (got.Found? ==> (ReadsJunk(key, c) <==> got.obj.body.Unparsable?))
      ensures got.Found? ==> key in store.objects && store.objects[key] == got.obj && store.moments != [] && store.Now() == store.objects
      ensures c.event.ReadLease? && (Answered(c) <==> !got.GetFailed? && (got.Found? ==> got.obj.body.Document?))
      ensures Steps(key, id, c, i, j, old(store.moments), store.moments) && j.ver == i.ver
      ensures got.GetFailed? || (got.Found? && got.obj.body.Unparsable?) ==> j.phase == P.Idle
      ensures got.NotFound? ==> j.phase == if i.phase.attempt + 1 < P.ACQUIRE_ATTEMPTS then P.Creating(i.phase.attempt + 1) else P.Idle
      ensures got.Found? && got.obj.body.Document?
              ==> j.phase == P.Judging(i.phase.mine, P.Stored(got.obj.version, got.obj.body.doc))
    {
      hide Steps;
      ghost var m := store.moments;
      got := store.Get(key);
      c, j := ReadSteps(key, id, i, got, m, store.moments);
    }

    /** Where an attempt to acquire leaves the instance. */
    ghost function Settled(r: AcquireOutcome): P.Instance
      reads this
    {
      P.Instance(ver, if r == Acquired then P.Running else P.Idle)
    }

    /** Replaces an expired document, if it is still the stored one. */
    method TakeOver(seen: Object<LeaseBody>, b: LeaseBody, ghost now: int, ghost i: P.Instance)
      returns (r: AcquireOutcome, ghost c: Call)
      requires store.Valid() && key in store.objects && store.objects[key] == seen
      requires seen.body.Document? && seen.body.doc.ExpiredAt(now) && b.Document?
      requires i == P.Instance(ver, P.Judging(b.doc, P.Stored(seen.version, seen.body.doc)))
      modifies this, store
      ensures store.Valid()
      ensures r == Acquired ==> && store.effects == old(store.effects) + [Wrote(key, b)]
                                && key in store.objects && store.objects[key] == Object(ver, b)
                                && tookOver && prevHolder == seen.body.doc.instance
      ensures store.effects != old(store.effects)
              ==> |store.moments| >= 2 && key in store.moments[|store.moments| - 2]
                  && store.moments[|store.moments| - 2][key] == seen
      ensures r == Held ==> store.effects == old(store.effects)
      ensures r == AcquireFailed ==> store.effects == old(store.effects) || store.effects == old(store.effects) + [Wrote(key, b)]
      ensures r != Acquired ==> ver == old(ver) && tookOver == old(tookOver) && prevHolder == old(prevHolder)
      ensures c.event.TryTakeover? && c.event.now == now && (r == AcquireFailed <==> !Answered(c))
      ensures store.failures == old(store.failures) + if r == AcquireFailed then 1 else 0
      ensures Steps(key, id, c, i, Settled(r), old(store.moments), store.moments)
    {
      hide Steps;
      ghost var m := store.moments;
      var put := store.PutIfVersionMatches(key, seen.version, b);
      c := TakeoverSteps(key, id, now, i, put, m, store.moments);
      if put.VersionMismatch? || put.Missing? {
        r := Held;
        return;
      }
      if !put.Stored? {
        r := AcquireFailed;
        return;
      }
      ver := put.version;
      tookOver := true;
      prevHolder := seen.body.doc.instance;
      r := Acquired;
    }

    /** Refreshes the document by compare-and-swap: whatever it writes replaces the version this
        instance held. Losing the lease changes nothing in the store. It is the protocol's heartbeat. */
    method Renew(now: int) returns (r: RenewOutcome, ghost c: Call)
      requires store.Valid()
      modifies this`ver, store
      ensures store.Valid()
      ensures r == Renewed ==> && store.effects == old(store.effects) + [Wrote(key, Body(now))]
                               && key in store.objects && store.objects[key] == Object(ver, Body(now))
      ensures r == Lost ==> && store.effects == old(store.effects)
                            && store.moments != [] && (key in store.Now() ==> store.Now()[key].version != ver)
      ensures r == RenewFailed ==> store.effects == old(store.effects) || store.effects == old(store.effects) + [Wrote(key, Body(now))]
      ensures store.effects != old(store.effects) ==> |store.moments| >= 2 && HeldAt(store.moments[|store.moments| - 2], key, old(ver))
      ensures r != Renewed ==> ver == old(ver)
      ensures c.event.Heartbeat? && c.event.now == now && c.event.ttl == ttl && (r == RenewFailed <==> !Answered(c))
      ensures store.failures == old(store.failures) + if r == RenewFailed then 1 else 0
      ensures Steps(key, id, c, P.Instance(old(ver), P.Running),
                    P.Instance(ver, if r == Lost then P.Stopped else P.Running), old(store.moments), store.moments)
    {
      hide Steps;
      ghost var m := store.moments;
      var put := store.PutIfVersionMatches(key, ver, Body(now));
      c := RenewSteps(key, id, now, ttl, P.Instance(ver, P.Running), put, m, store.moments);
      if put.Stored? {
        ver := put.version;
        r := Renewed;
        return;
      }
      if put.VersionMismatch? || put.Missing? {
        r := Lost;
        return;
      }
      r := RenewFailed;
    }

    /** Deletes the lease if this instance still holds it; losing it is not an error. It is the
        protocol's close of a running instance. */
    method Release() returns (ok: bool, ghost c: Call)
      requires store.Valid()
      modifies store
      ensures store.Valid()
      ensures store.effects == old(store.effects) || store.effects == old(store.effects) + [Removed(key)]
      ensures store.effects != old(store.effects) ==> |store.moments| >= 2 && HeldAt(store.moments[|store.moments| - 2], key, ver)
      ensures ok && store.effects == old(store.effects)
              ==> store.moments != [] && (key in store.Now() ==> store.Now()[key].version != ver)
      ensures c.event.Close? && (Answered(c) <==> ok)
      ensures store.failures == old(store.failures) + if ok then 0 else 1
      ensures Steps(key, id, c, P.Instance(ver, P.Running), P.Instance(ver, P.Closed),
                                      old(store.moments), store.moments)
    {
      hide Steps;
      ghost var m := store.moments;
      var del := store.DeleteIfVersionMatches(key, ver);
      ok := !del.DeleteFailed?;
      c := ReleaseSteps(key, id, P.Instance(ver, P.Running), ok, m, store.moments);
    }
  }
}
