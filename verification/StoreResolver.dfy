/** The per-tenant store cache under concurrent Resolve and Invalidate calls.
    Each event is one critical section, one channel operation or one clock read;
    calls interleave freely. A store is named by the cache entry whose opening
    produced it. */
module StoreResolver {
  import opened Wrappers

  type Tenant = string
  type CallId = nat
  type EntryId = nat

  /** `inflight` until its opener stored the outcome; `openerNow` is the clock its opener read. */
  datatype Entry = Entry(tenant: Tenant, opener: CallId, openerNow: int, inflight: bool, expiresAt: int)

  datatype Phase =
    | Looking(now: int)
    | Waiting(entry: EntryId)
    | Opening(entry: EntryId)
    | Closing(entry: EntryId, succeeded: bool)
    | Returned(store: Option<EntryId>, fromCache: bool, now: int)

  datatype Call = Call(tenant: Tenant, phase: Phase)

  datatype State = State(
    nextEntry: EntryId,
    ttl: nat,
    cache: map<Tenant, EntryId>,
    entries: map<EntryId, Entry>,
    calls: map<CallId, Call>,
    closed: map<EntryId, nat>)      // how often each entry's channel was closed

  datatype Event =
    | Begin(call: CallId, tenant: Tenant, now: int)
    | Lookup(call: CallId)
    | Wake(call: CallId, now: int)
    | Cancel(call: CallId)
    | Finish(call: CallId, succeeded: bool)
    | CloseChannel(call: CallId)
    | Invalidate(tenant: Tenant)

  predicate Enabled(s: State, e: Event) {
    match e
    case Begin(c, _, _) => c !in s.calls
    case Lookup(c) => c in s.calls && s.calls[c].phase.Looking?
    case Wake(c, _) => c in s.calls && s.calls[c].phase.Waiting? && Closed(s, s.calls[c].phase.entry) > 0
    case Cancel(c) => c in s.calls && s.calls[c].phase.Waiting?
    case Finish(c, _) => c in s.calls && s.calls[c].phase.Opening?
    case CloseChannel(c) => c in s.calls && s.calls[c].phase.Closing?
    case Invalidate(_) => true
  }

  function Closed(s: State, e: EntryId): nat {
    if e in s.closed then s.closed[e] else 0
  }

  function At(s: State, c: CallId, p: Phase): State {
    if c in s.calls then s.(calls := s.calls[c := s.calls[c].(phase := p)]) else s
  }

  /** The cache lookup: a fresh hit, a wait for another opener, or a new opening. */
  function LookupStep(s: State, c: CallId): State
    requires c in s.calls && s.calls[c].phase.Looking?
  {
    var t, now := s.calls[c].tenant, s.calls[c].phase.now;
    if t in s.cache && s.cache[t] in s.entries && !s.entries[s.cache[t]].inflight && now < s.entries[s.cache[t]].expiresAt then
      At(s, c, Returned(Some(s.cache[t]), true, now))
    else if t in s.cache && s.cache[t] in s.entries && s.entries[s.cache[t]].inflight then
      At(s, c, Waiting(s.cache[t]))
    else OpenStep(s, c, now)
  }

  /** A call takes responsibility for opening its tenant's store. */
  function OpenStep(s: State, c: CallId, now: int): State
    requires c in s.calls
  {
    var t := s.calls[c].tenant;
    At(s, c, Opening(s.nextEntry)).(cache := s.cache[t := s.nextEntry],
                                    entries := s.entries[s.nextEntry := Entry(t, c, now, true, 0)],
                                    nextEntry := s.nextEntry + 1)
  }

  /** The opener stores its outcome: an entry to serve, or a removal of the tenant's entry. */
  function FinishStep(s: State, c: CallId, succeeded: bool): State
    requires c in s.calls && s.calls[c].phase.Opening?
  {
    var t, id := s.calls[c].tenant, s.calls[c].phase.entry;
    if id !in s.entries then s else
      var e := s.entries[id];
      var s' := At(s, c, Closing(id, succeeded));
      if succeeded then s'.(entries := s.entries[id := e.(inflight := false, expiresAt := e.openerNow + s.ttl)])
      else s'.(entries := s.entries[id := e.(inflight := false)], cache := s.cache - {t})
  }

  function Apply(s: State, e: Event): State {
    match e
    case Begin(c, t, now) => s.(calls := s.calls[c := Call(t, Looking(now))])
    case Lookup(c) => if c in s.calls && s.calls[c].phase.Looking? then LookupStep(s, c) else s
    case Wake(c, now) => At(s, c, Looking(now))
    case Cancel(c) => At(s, c, Returned(None, false, 0))
    case Finish(c, succeeded) => if c in s.calls && s.calls[c].phase.Opening? then FinishStep(s, c, succeeded) else s
    case CloseChannel(c) =>
      if c in s.calls && s.calls[c].phase.Closing? then
        var p := s.calls[c].phase;
        At(s, c, Returned(if p.succeeded then Some(p.entry) else None, false, 0))
          .(closed := s.closed[p.entry := Closed(s, p.entry) + 1])
      else s
    case Invalidate(t) => s.(cache := s.cache - {t})
  }

  predicate Initial(s: State) {
    s == State(0, s.ttl, map[], map[], map[], map[])
  }

  function Exec(s: State, es: seq<Event>): State {
    if es == [] then s else Apply(Exec(s, es[..|es| - 1]), es[|es| - 1])
  }

  predicate Legal(s: State, es: seq<Event>) {
    es == [] || (Legal(s, es[..|es| - 1]) && Enabled(Exec(s, es[..|es| - 1]), es[|es| - 1]))
  }

  // ---- Invariant ----

  /** A call is at work on entry `id`. */
  predicate Works(c: Call, id: EntryId) {
    (c.phase.Opening? || c.phase.Closing?) && c.phase.entry == id
  }

  predicate Known(s: State, id: EntryId, t: Tenant) {
    id in s.entries && s.entries[id].tenant == t
  }

  predicate Served(s: State, id: EntryId) {
    id in s.entries && !s.entries[id].inflight && s.entries[id].expiresAt == s.entries[id].openerNow + s.ttl
  }

  /** The cached entry is the tenant's own and still being opened or open to be served. */
  predicate CacheSound(s: State, t: Tenant, id: EntryId) {
    Known(s, id, t) && (s.entries[id].inflight || Served(s, id))
  }

  predicate CallSound(s: State, c: Call) {
    match c.phase
    case Looking(_) => true
    case Waiting(id) => Known(s, id, c.tenant)
    case Opening(id) => Known(s, id, c.tenant) && s.entries[id].inflight && Closed(s, id) == 0
    case Closing(id, succeeded) =>
      Known(s, id, c.tenant) && !s.entries[id].inflight && Closed(s, id) == 0 && (succeeded ==> Served(s, id))
    case Returned(store, fromCache, now) =>
      store.Some? ==> && Known(s, store.value, c.tenant) && Served(s, store.value)
                      && (fromCache ==> now < s.entries[store.value].openerNow + s.ttl)
  }

  /** The opener of an entry is at work on it. */
  predicate BeingOpened(s: State, id: EntryId)
    requires id in s.entries
  {
    var c := s.entries[id].opener;
    c in s.calls && Works(s.calls[c], id)
  }

  /** An entry's channel is open while its opener works on it, and closed once after that. */
  predicate ChannelSound(s: State, id: EntryId)
    requires id in s.entries
  {
    Closed(s, id) <= 1 && (Closed(s, id) == 0 <==> BeingOpened(s, id))
  }

  /** An entry is in flight only while its opener opens it. */
  predicate FlightSound(s: State, id: EntryId)
    requires id in s.entries
  {
    s.entries[id].inflight ==> s.entries[id].opener in s.calls && s.calls[s.entries[id].opener].phase == Opening(id)
  }

  /** Only its opener works on an entry. */
  predicate OwnWork(s: State, c: CallId)
    requires c in s.calls
  {
    var p := s.calls[c].phase;
    p.Opening? || p.Closing? ==> p.entry in s.entries && s.entries[p.entry].opener == c
  }

  ghost predicate EntriesSound(s: State) {
    && (forall id :: id in s.entries ==> id < s.nextEntry && ChannelSound(s, id) && FlightSound(s, id))
    && (forall id :: id in s.closed ==> id in s.entries)
  }

  ghost predicate CachesSound(s: State) {
    forall t :: t in s.cache ==> CacheSound(s, t, s.cache[t])
  }

  ghost predicate CallsSound(s: State) {
    forall c :: c in s.calls ==> CallSound(s, s.calls[c]) && OwnWork(s, c)
  }

  ghost predicate Inv(s: State) {
    EntriesSound(s) && CachesSound(s) && CallsSound(s)
  }

  /** A call that moves between phases without touching an entry. */
  lemma MoveKeepsInv(s: State, c: CallId, p: Phase)
    requires Inv(s) && c in s.calls && (s.calls[c].phase.Looking? || s.calls[c].phase.Waiting?)
    requires !p.Opening? && !p.Closing? && CallSound(s, s.calls[c].(phase := p))
    ensures Inv(At(s, c, p))
  {
    var t := At(s, c, p);
    forall d | d in t.calls ensures CallSound(t, t.calls[d]) && OwnWork(t, d) {
      assert CallSound(s, s.calls[d]) && OwnWork(s, d);
    }
    forall id | id in t.entries ensures ChannelSound(t, id) && FlightSound(t, id) {
      assert ChannelSound(s, id) && FlightSound(s, id);
    }
  }

  lemma OpenKeepsCalls(s: State, c: CallId, now: int)
    requires Inv(s) && c in s.calls && s.calls[c].phase.Looking?
    ensures CallsSound(OpenStep(s, c, now))
  {
    var t := OpenStep(s, c, now);
    forall d | d in t.calls ensures CallSound(t, t.calls[d]) && OwnWork(t, d) {
      assert CallSound(s, s.calls[d]) && OwnWork(s, d);
    }
  }

  lemma OpenKeepsEntries(s: State, c: CallId, now: int)
    requires Inv(s) && c in s.calls && s.calls[c].phase.Looking?
    ensures EntriesSound(OpenStep(s, c, now)) && CachesSound(OpenStep(s, c, now))
  {
    hide CallSound, OwnWork;
    var t := OpenStep(s, c, now);
    forall id | id in t.entries ensures ChannelSound(t, id) && FlightSound(t, id) {
      if id != s.nextEntry { assert ChannelSound(s, id) && FlightSound(s, id); }
    }
    forall u | u in t.cache ensures CacheSound(t, u, t.cache[u]) {
      if u != s.calls[c].tenant { assert CacheSound(s, u, s.cache[u]); }
    }
  }

  lemma FinishKeepsCalls(s: State, c: CallId, succeeded: bool)
    requires Inv(s) && c in s.calls && s.calls[c].phase.Opening?
    ensures CallsSound(FinishStep(s, c, succeeded))
  {
    var t := FinishStep(s, c, succeeded);
    var n := s.calls[c].phase.entry;
    assert CallSound(s, s.calls[c]) && OwnWork(s, c);
    forall d | d in t.calls ensures CallSound(t, t.calls[d]) && OwnWork(t, d) {
      assert CallSound(s, s.calls[d]) && OwnWork(s, d);
    }
  }

  lemma FinishKeepsEntries(s: State, c: CallId, succeeded: bool)
    requires Inv(s) && c in s.calls && s.calls[c].phase.Opening?
    ensures EntriesSound(FinishStep(s, c, succeeded)) && CachesSound(FinishStep(s, c, succeeded))
  {
    var t := FinishStep(s, c, succeeded);
    var n := s.calls[c].phase.entry;
    assert CallSound(s, s.calls[c]) && OwnWork(s, c) && Works(s.calls[c], n);
    hide CallSound, OwnWork;
    forall id | id in t.entries ensures ChannelSound(t, id) && FlightSound(t, id) {
      assert ChannelSound(s, id) && FlightSound(s, id);
    }
    forall u | u in t.cache ensures CacheSound(t, u, t.cache[u]) { assert CacheSound(s, u, s.cache[u]); }
  }

  lemma CloseKeepsCalls(s: State, c: CallId)
    requires Inv(s) && c in s.calls && s.calls[c].phase.Closing?
    ensures CallsSound(Apply(s, CloseChannel(c)))
  {
    var t := Apply(s, CloseChannel(c));
    var n := s.calls[c].phase.entry;
    assert CallSound(s, s.calls[c]) && OwnWork(s, c);
    forall d | d in t.calls ensures CallSound(t, t.calls[d]) && OwnWork(t, d) {
      assert CallSound(s, s.calls[d]) && OwnWork(s, d);
    }
  }

  lemma CloseKeepsEntries(s: State, c: CallId)
    requires Inv(s) && c in s.calls && s.calls[c].phase.Closing?
    ensures EntriesSound(Apply(s, CloseChannel(c))) && CachesSound(Apply(s, CloseChannel(c)))
  {
    var t := Apply(s, CloseChannel(c));
    var n := s.calls[c].phase.entry;
    assert CallSound(s, s.calls[c]) && OwnWork(s, c) && Works(s.calls[c], n);
    hide CallSound, OwnWork;
    forall id | id in t.entries ensures ChannelSound(t, id) && FlightSound(t, id) {
      assert ChannelSound(s, id) && FlightSound(s, id);
    }
    forall u | u in t.cache ensures CacheSound(t, u, t.cache[u]) { assert CacheSound(s, u, s.cache[u]); }
  }

  lemma BeginOrInvalidateKeepsInv(s: State, e: Event)
    requires Inv(s) && Enabled(s, e) && (e.Begin? || e.Invalidate?)
    ensures Inv(Apply(s, e))
  {
    var t := Apply(s, e);
    forall d | d in t.calls ensures CallSound(t, t.calls[d]) && OwnWork(t, d) {
      if d in s.calls { assert CallSound(s, s.calls[d]) && OwnWork(s, d); }
    }
    forall id | id in t.entries ensures ChannelSound(t, id) && FlightSound(t, id) {
      assert ChannelSound(s, id) && FlightSound(s, id);
    }
    forall u | u in t.cache ensures CacheSound(t, u, t.cache[u]) { assert CacheSound(s, u, s.cache[u]); }
  }

  lemma LookupKeepsInv(s: State, c: CallId)
    requires Inv(s) && c in s.calls && s.calls[c].phase.Looking?
    ensures Inv(LookupStep(s, c))
  {
    var t := s.calls[c].tenant;
    if t in s.cache { assert CacheSound(s, t, s.cache[t]); }
    var p := LookupStep(s, c).calls[c].phase;
    if p.Opening? {
      OpenKeepsCalls(s, c, s.calls[c].phase.now);
      OpenKeepsEntries(s, c, s.calls[c].phase.now);
    } else {
      MoveKeepsInv(s, c, p);
    }
  }

  lemma StepKeepsInv(s: State, e: Event)
    requires Inv(s) && Enabled(s, e)
    ensures Inv(Apply(s, e)) && Apply(s, e).ttl == s.ttl
  {
    hide EntriesSound, CachesSound, CallsSound;
    match e
    case Begin(_, _, _) => BeginOrInvalidateKeepsInv(s, e);
    case Invalidate(_) => BeginOrInvalidateKeepsInv(s, e);
    case Lookup(c) => LookupKeepsInv(s, c);
    case Wake(c, now) => MoveKeepsInv(s, c, Looking(now));
    case Cancel(c) => MoveKeepsInv(s, c, Returned(None, false, 0));
    case Finish(c, succeeded) =>
      FinishKeepsCalls(s, c, succeeded);
      FinishKeepsEntries(s, c, succeeded);
    case CloseChannel(c) =>
      CloseKeepsCalls(s, c);
      CloseKeepsEntries(s, c);
  }

  lemma {:induction false} RunKeepsInvFrom(s: State, es: seq<Event>)
    requires Inv(s) && Legal(s, es)
    ensures Inv(Exec(s, es)) && Exec(s, es).ttl == s.ttl
  {
    hide Inv, Enabled, Apply;
    if es != [] {
      RunKeepsInvFrom(s, es[..|es| - 1]);
      StepKeepsInv(Exec(s, es[..|es| - 1]), es[|es| - 1]);
    }
  }

  lemma RunKeepsInv(s: State, es: seq<Event>)
    requires Initial(s) && Legal(s, es)
    ensures Inv(Exec(s, es)) && Exec(s, es).ttl == s.ttl
  {
    hide Inv, Legal, Exec;
    InitialInv(s);
    RunKeepsInvFrom(s, es);
  }

  lemma InitialInv(s: State)
    requires Initial(s)
    ensures Inv(s)
  {}

  // ---- Main results ----

  /** A store served from the cache is served within the time to live after its opener's clock read. */
  lemma ServedWithinTtl(s: State, es: seq<Event>, c: CallId)
    requires Initial(s) && Legal(s, es)
    requires var t := Exec(s, es);
             c in t.calls && t.calls[c].phase.Returned? && t.calls[c].phase.store.Some? && t.calls[c].phase.fromCache
    ensures var t := Exec(s, es);
            && t.calls[c].phase.store.value in t.entries
            && t.entries[t.calls[c].phase.store.value].tenant == t.calls[c].tenant
            && t.calls[c].phase.now < t.entries[t.calls[c].phase.store.value].openerNow + s.ttl
  {
    RunKeepsInv(s, es);
    assert CallSound(Exec(s, es), Exec(s, es).calls[c]);
  }

  /** Every channel is closed at most once, and is closed exactly when its opener is done; so a
      waiting call always has an opener at work or a closed channel. */
  lemma ChannelsCloseOnce(s: State, es: seq<Event>, id: EntryId)
    requires Initial(s) && Legal(s, es) && id in Exec(s, es).entries
    ensures Closed(Exec(s, es), id) <= 1
    ensures Closed(Exec(s, es), id) == 1
            <==> forall c :: c in Exec(s, es).calls ==> !Works(Exec(s, es).calls[c], id)
  {
    RunKeepsInv(s, es);
    var t := Exec(s, es);
    assert ChannelSound(t, id);
    forall c | c in t.calls && Works(t.calls[c], id) ensures BeingOpened(t, id) {
      assert OwnWork(t, c);
    }
  }

  /** Entries of tenant `t` that calls outside `before` use, or that are cached, are numbered from `n`. */
  ghost predicate Fresh(s: State, t: Tenant, n: EntryId, before: set<CallId>) {
    && n <= s.nextEntry
    && (t in s.cache ==> s.cache[t] >= n)
    && forall c :: c in s.calls && c !in before && s.calls[c].tenant == t ==> UsesFrom(s.calls[c].phase, n)
  }

  predicate UsesFrom(p: Phase, n: EntryId) {
    match p
    case Looking(_) => true
    case Waiting(id) => id >= n
    case Opening(id) => id >= n
    case Closing(id, _) => id >= n
    case Returned(store, _, _) => store.Some? ==> store.value >= n
  }

  lemma StepKeepsFresh(s: State, e: Event, t: Tenant, n: EntryId, before: set<CallId>)
    requires Fresh(s, t, n, before)
    ensures Fresh(Apply(s, e), t, n, before)
  {}

  /** A Resolve that begins after Invalidate(t) returned never yields a store whose opening began
      before: the store comes from an entry that did not exist then. */
  lemma {:induction false} InvalidateIsHonoured(s: State, es: seq<Event>, t: Tenant, rest: seq<Event>, c: CallId)
    requires Initial(s) && Legal(s, es)
    ensures var u := Apply(Exec(s, es), Invalidate(t));
            var v := Exec(u, rest);
            && Fresh(v, t, u.nextEntry, u.calls.Keys)
            && (c in v.calls && c !in u.calls && v.calls[c].tenant == t
                && v.calls[c].phase.Returned? && v.calls[c].phase.store.Some?
                ==> v.calls[c].phase.store.value !in u.entries)
    decreases |rest|
  {
    RunKeepsInv(s, es);
    var u := Apply(Exec(s, es), Invalidate(t));
    if rest != [] {
      var front, e := rest[..|rest| - 1], rest[|rest| - 1];
      InvalidateIsHonoured(s, es, t, front, c);
      StepKeepsFresh(Exec(u, front), e, t, u.nextEntry, u.calls.Keys);
    }
  }

  // ---- What a lookup finds ----

  /** What is cached for a tenant is an entry of its own, and expires a time to live after its opener's
      clock read once it is open. */
  lemma CachedEntry(s: State, t: Tenant)
    requires Inv(s) && t in s.cache
    ensures s.cache[t] in s.entries && s.entries[s.cache[t]].tenant == t
    ensures !s.entries[s.cache[t]].inflight ==> s.entries[s.cache[t]].expiresAt == s.entries[s.cache[t]].openerNow + s.ttl
  {
    assert CacheSound(s, t, s.cache[t]);
  }

  lemma NextIsNew(s: State)
    requires Inv(s)
    ensures s.nextEntry !in s.entries
  {}

  /** In every reachable state a lookup takes a cached store that has not expired and changes nothing
      else, waits for an entry in flight, and starts an opening exactly if nothing is cached or what
      is cached has expired. */
  lemma LookupIff(s: State, es: seq<Event>, c: CallId)
    requires Initial(s) && Legal(s, es) && Enabled(Exec(s, es), Lookup(c))
    ensures var r, t := Exec(s, es), Exec(s, es).calls[c].tenant;
            var u, now, id := Apply(r, Lookup(c)), r.calls[c].phase.now, r.nextEntry;
            && id !in r.entries && (t in r.cache ==> r.cache[t] in r.entries)
            && if t in r.cache && r.entries[r.cache[t]].inflight
               then u == r.(calls := r.calls[c := Call(t, Waiting(r.cache[t]))])
               else if t in r.cache && now < r.entries[r.cache[t]].openerNow + s.ttl
               then u == r.(calls := r.calls[c := Call(t, Returned(Some(r.cache[t]), true, now))])
               else u == r.(calls := r.calls[c := Call(t, Opening(id))], cache := r.cache[t := id],
                            entries := r.entries[id := Entry(t, c, now, true, 0)], nextEntry := id + 1)
  {
    hide Inv, Exec, Legal;
    RunKeepsInv(s, es);
    var r, t := Exec(s, es), Exec(s, es).calls[c].tenant;
    NextIsNew(r);
    if t in r.cache { CachedEntry(r, t); }
  }

  lemma OpenerKnown(s: State, c: CallId)
    requires Inv(s) && c in s.calls && s.calls[c].phase.Opening?
    ensures var id := s.calls[c].phase.entry;
            id in s.entries && s.entries[id].tenant == s.calls[c].tenant && s.entries[id].opener == c && Closed(s, id) == 0
  {
    assert CallSound(s, s.calls[c]) && OwnWork(s, c);
  }

  /** An opener that succeeds leaves an entry to serve, and the cache as it is; one that fails drops
      whatever the cache holds for its tenant. */
  lemma OpenerIff(s: State, es: seq<Event>, c: CallId, succeeded: bool)
    requires Initial(s) && Legal(s, es) && Enabled(Exec(s, es), Finish(c, succeeded))
    ensures var r, t, id := Exec(s, es), Exec(s, es).calls[c].tenant, Exec(s, es).calls[c].phase.entry;
            && id in r.entries && Closed(r, id) == 0
            && var e := r.entries[id];
               Apply(r, Finish(c, succeeded)) ==
                 if succeeded
                 then r.(calls := r.calls[c := Call(t, Closing(id, true))], entries := r.entries[id := Entry(t, c, e.openerNow, false, e.openerNow + s.ttl)])
                 else r.(calls := r.calls[c := Call(t, Closing(id, false))], entries := r.entries[id := Entry(t, c, e.openerNow, false, e.expiresAt)],
                         cache := r.cache - {t})
  {
    hide Inv, Exec, Legal;
    RunKeepsInv(s, es);
    OpenerKnown(Exec(s, es), c);
  }

  /** Then its channel is closed, once, and its caller gets the store exactly if the opening succeeded. */
  lemma CloserIff(s: State, es: seq<Event>, c: CallId)
    requires Initial(s) && Legal(s, es) && Enabled(Exec(s, es), CloseChannel(c))
    ensures var r, t, p := Exec(s, es), Exec(s, es).calls[c].tenant, Exec(s, es).calls[c].phase;
            && Closed(r, p.entry) == 0
            && Apply(r, CloseChannel(c)) == r.(calls := r.calls[c := Call(t, Returned(if p.succeeded then Some(p.entry) else None, false, 0))],
                                               closed := r.closed[p.entry := 1])
  {
    RunKeepsInv(s, es);
    hide Exec, Legal;
    var r := Exec(s, es);
    assert CallSound(r, r.calls[c]);
  }

  /** A waiting call looks again, with a fresh clock, once the channel is closed; a cancelled one returns
      nothing. An invalidation only empties the tenant's place in the cache. */
  lemma WaiterIff(s: State, c: CallId, now: int, t: Tenant)
    ensures Enabled(s, Wake(c, now)) <==> c in s.calls && s.calls[c].phase.Waiting? && s.calls[c].phase.entry in s.closed && s.closed[s.calls[c].phase.entry] > 0
    ensures Enabled(s, Wake(c, now)) ==> Apply(s, Wake(c, now)) == s.(calls := s.calls[c := Call(s.calls[c].tenant, Looking(now))])
    ensures Enabled(s, Cancel(c)) ==> Apply(s, Cancel(c)) == s.(calls := s.calls[c := Call(s.calls[c].tenant, Returned(None, false, 0))])
    ensures Apply(s, Invalidate(t)) == s.(cache := s.cache - {t})
  {}

  /** A step that would take tenant `t`'s store out of the cache, or finds it expired. */
  predicate Drops(s: State, e: Event, t: Tenant, expiresAt: int) {
    || e == Invalidate(t)
    || (e.Finish? && !e.succeeded && e.call in s.calls && s.calls[e.call].tenant == t)
    || (e.Lookup? && e.call in s.calls && s.calls[e.call].tenant == t && s.calls[e.call].phase.Looking?
        && s.calls[e.call].phase.now >= expiresAt)
  }

  predicate NeverDrops(s: State, es: seq<Event>, t: Tenant, expiresAt: int) {
    es == [] || (NeverDrops(s, es[..|es| - 1], t, expiresAt) && !Drops(Exec(s, es[..|es| - 1]), es[|es| - 1], t, expiresAt))
  }

  /** Entry `id` is cached for `t` and open. */
  predicate Cached(s: State, t: Tenant, id: EntryId, expiresAt: int) {
    t in s.cache && s.cache[t] == id && id in s.entries && !s.entries[id].inflight && s.entries[id].expiresAt == expiresAt
  }

  lemma StepKeepsCached(s: State, e: Event, t: Tenant, id: EntryId, expiresAt: int)
    requires Inv(s) && Enabled(s, e) && Cached(s, t, id, expiresAt) && !Drops(s, e, t, expiresAt)
    ensures Cached(Apply(s, e), t, id, expiresAt)
    ensures e.Lookup? && s.calls[e.call].tenant == t ==>
              e.call in Apply(s, e).calls && Apply(s, e).calls[e.call].phase == Returned(Some(id), true, s.calls[e.call].phase.now)
  {
    if e.Finish? { assert CallSound(s, s.calls[e.call]); }
    NextIsNew(s);
    hide EntriesSound, CallsSound, CachesSound;
  }

  /** Once a tenant's store is cached, it stays cached, and every lookup of the tenant gets that same
      store without an opening, until a step drops it: an invalidation, a failed opening of the tenant,
      or a lookup at or after its expiry. */
  lemma {:induction false} ServedUntilDropped(s: State, es: seq<Event>, rest: seq<Event>, t: Tenant, id: EntryId, expiresAt: int, e: Event)
    requires Initial(s) && Legal(s, es) && Cached(Exec(s, es), t, id, expiresAt)
    requires Legal(Exec(s, es), rest) && NeverDrops(Exec(s, es), rest, t, expiresAt)
    ensures Inv(Exec(Exec(s, es), rest)) && Cached(Exec(Exec(s, es), rest), t, id, expiresAt)
    ensures var u := Exec(Exec(s, es), rest);
            e.Lookup? && Enabled(u, e) && u.calls[e.call].tenant == t && u.calls[e.call].phase.now < expiresAt
            ==> e.call in Apply(u, e).calls && Apply(u, e).calls[e.call].phase == Returned(Some(id), true, u.calls[e.call].phase.now)
  {
    hide Inv, Cached, Drops, Legal;
    RunKeepsInv(s, es);
    var r := Exec(s, es);
    KeepsCached(r, rest, t, id, expiresAt);
    var u := Exec(r, rest);
    if e.Lookup? && Enabled(u, e) && u.calls[e.call].tenant == t && u.calls[e.call].phase.now < expiresAt {
      EarlyLookupDropsNothing(u, e, t, expiresAt);
      StepKeepsCached(u, e, t, id, expiresAt);
    }
  }

  lemma EarlyLookupDropsNothing(s: State, e: Event, t: Tenant, expiresAt: int)
    requires e.Lookup? && Enabled(s, e) && s.calls[e.call].phase.now < expiresAt
    ensures !Drops(s, e, t, expiresAt)
  {}

  lemma {:induction false} KeepsCached(s: State, es: seq<Event>, t: Tenant, id: EntryId, expiresAt: int)
    requires Inv(s) && Legal(s, es) && Cached(s, t, id, expiresAt) && NeverDrops(s, es, t, expiresAt)
    ensures Inv(Exec(s, es)) && Cached(Exec(s, es), t, id, expiresAt)
  {
    hide Inv, Enabled, Apply, Cached, Drops;
    if es != [] {
      KeepsCached(s, es[..|es| - 1], t, id, expiresAt);
      StepKeepsCached(Exec(s, es[..|es| - 1]), es[|es| - 1], t, id, expiresAt);
      StepKeepsInv(Exec(s, es[..|es| - 1]), es[|es| - 1]);
    }
  }

  // ---- One opening at a time ----

  /** Two calls open the store of `t` at the same time. */
  predicate Overlap(s: State, t: Tenant, c: CallId, d: CallId) {
    && c in s.calls && d in s.calls && c != d && s.calls[c].tenant == s.calls[d].tenant == t
    && s.calls[c].phase.Opening? && s.calls[d].phase.Opening?
  }

  predicate NeverInvalidated(es: seq<Event>, t: Tenant) {
    forall i :: 0 <= i < |es| ==> es[i] != Invalidate(t)
  }

  /** No opening of the store of `t` is in progress. */
  ghost predicate Quiet(s: State, t: Tenant) {
    forall c :: c in s.calls && s.calls[c].phase.Opening? ==> s.calls[c].tenant != t
  }

  /** Every opening in progress for `t` is its cached entry. */
  ghost predicate OpeningsCached(s: State, t: Tenant) {
    forall c :: c in s.calls && s.calls[c].phase.Opening? && s.calls[c].tenant == t ==>
      t in s.cache && s.cache[t] == s.calls[c].phase.entry
  }

  lemma FinishKeepsOpeningsCached(s: State, e: Event, t: Tenant)
    requires Inv(s) && Enabled(s, e) && OpeningsCached(s, t) && e.Finish?
    ensures OpeningsCached(Apply(s, e), t)
  {
    hide EntriesSound, CachesSound, CallSound;
    var u := Apply(s, e);
    forall c | c in u.calls && u.calls[c].phase.Opening? && u.calls[c].tenant == t
      ensures t in u.cache && u.cache[t] == u.calls[c].phase.entry
    {
      if c != e.call { assert OwnWork(s, c) && OwnWork(s, e.call); }
    }
  }

  lemma LookupKeepsOpeningsCached(s: State, e: Event, t: Tenant)
    requires Inv(s) && Enabled(s, e) && OpeningsCached(s, t) && e.Lookup?
    ensures OpeningsCached(Apply(s, e), t)
  {
    hide EntriesSound, OwnWork;
    var u := Apply(s, e);
    forall c | c in u.calls && u.calls[c].phase.Opening? && u.calls[c].tenant == t
      ensures t in u.cache && u.cache[t] == u.calls[c].phase.entry
    {
      if c != e.call { assert CallSound(s, s.calls[c]); }
    }
  }

  lemma StepKeepsOpeningsCached(s: State, e: Event, t: Tenant)
    requires Inv(s) && Enabled(s, e) && OpeningsCached(s, t) && (e == Invalidate(t) ==> Quiet(s, t))
    ensures OpeningsCached(Apply(s, e), t)
  {
    hide Inv, LookupStep, FinishStep;
    if e.Finish? {
      FinishKeepsOpeningsCached(s, e, t);
    } else if e.Lookup? {
      LookupKeepsOpeningsCached(s, e, t);
    }
  }

  /** Every invalidation of `t` finds no opening of it in progress. */
  ghost predicate QuietlyInvalidated(s: State, es: seq<Event>, t: Tenant) {
    es == [] ||
    (var n := |es| - 1; QuietlyInvalidated(s, es[..n], t) && (es[n] == Invalidate(t) ==> Quiet(Exec(s, es[..n]), t)))
  }

  lemma {:induction false} NeverIsQuietly(s: State, es: seq<Event>, t: Tenant)
    requires NeverInvalidated(es, t)
    ensures QuietlyInvalidated(s, es, t)
  {
    if es != [] { NeverIsQuietly(s, es[..|es| - 1], t); }
  }

  lemma {:induction false} RunKeepsOpeningsCached(s: State, es: seq<Event>, t: Tenant)
    requires Inv(s) && OpeningsCached(s, t) && Legal(s, es) && QuietlyInvalidated(s, es, t)
    ensures OpeningsCached(Exec(s, es), t)
  {
    hide Inv, Enabled, Apply, OpeningsCached, Quiet;
    if es != [] {
      var front := es[..|es| - 1];
      RunKeepsOpeningsCached(s, front, t);
      RunKeepsInvFrom(s, front);
      StepKeepsOpeningsCached(Exec(s, front), es[|es| - 1], t);
    }
  }

  lemma CachedOpeningsDoNotOverlap(s: State, t: Tenant, c: CallId, d: CallId)
    requires Inv(s) && OpeningsCached(s, t)
    ensures !Overlap(s, t, c, d)
  {
    if c in s.calls && d in s.calls { assert OwnWork(s, c) && OwnWork(s, d); }
  }

  /** At most one opening per tenant is in progress, in every run whose invalidations of the tenant
      all find no opening of it in progress; in particular in every run that has none. */
  lemma SingleFlight(s: State, es: seq<Event>, t: Tenant, c: CallId, d: CallId)
    requires Initial(s) && Legal(s, es) && QuietlyInvalidated(s, es, t)
    ensures !Overlap(Exec(s, es), t, c, d)
  {
    hide Inv, Legal, Exec, QuietlyInvalidated;
    InitialInv(s);
    assert OpeningsCached(s, t);
    RunKeepsInv(s, es);
    RunKeepsOpeningsCached(s, es, t);
    CachedOpeningsDoNotOverlap(Exec(s, es), t, c, d);
  }

  lemma Nothing(s: State)
    ensures Legal(s, []) && Exec(s, []) == s
  {}

  lemma Then(s: State, es: seq<Event>, t: State, e: Event, u: State)
    requires Legal(s, es) && Exec(s, es) == t && Enabled(t, e) && Apply(t, e) == u
    ensures Legal(s, es + [e]) && Exec(s, es + [e]) == u
  {
    assert (es + [e])[..|es|] == es;
  }

  /** However a run goes on without invalidating `t`, its openings of `t` do not overlap. */
  ghost predicate StaysSingle(s: State, t: Tenant) {
    forall rest, c, d :: Legal(s, rest) && NeverInvalidated(rest, t) ==> !Overlap(Exec(s, rest), t, c, d)
  }

  lemma CachedStaysSingle(s: State, t: Tenant)
    requires Inv(s) && OpeningsCached(s, t)
    ensures StaysSingle(s, t)
  {
    hide Inv, Legal, Exec, NeverInvalidated, OpeningsCached, Overlap;
    forall rest, c, d | Legal(s, rest) && NeverInvalidated(rest, t) ensures !Overlap(Exec(s, rest), t, c, d) {
      NeverIsQuietly(s, rest, t);
      RunKeepsInvFrom(s, rest);
      RunKeepsOpeningsCached(s, rest, t);
      CachedOpeningsDoNotOverlap(Exec(s, rest), t, c, d);
    }
  }

  lemma UnusedCall(calls: map<CallId, Call>) returns (d: CallId)
    ensures d !in calls
  {
    d := LargestBound(calls.Keys);
  }

  lemma {:induction false} LargestBound(ids: set<CallId>) returns (n: CallId)
    ensures forall i :: i in ids ==> i < n
  {
    if ids == {} {
      n := 0;
    } else {
      var i :| i in ids;
      var m := LargestBound(ids - {i});
      n := if i < m then m else i + 1;
      forall j | j in ids ensures j < n { assert j == i || j in ids - {i}; }
    }
  }

  /** A new call that looks after the cached entry expired opens the store. */
  lemma NewCallOpens(s: State, t: Tenant, d: CallId) returns (rest: seq<Event>)
    requires d !in s.calls && (t in s.cache ==> s.cache[t] in s.entries && !s.entries[s.cache[t]].inflight)
    ensures Legal(s, rest) && NeverInvalidated(rest, t)
    ensures var u := Exec(s, rest);
            && d in u.calls && u.calls[d] == Call(t, Opening(s.nextEntry))
            && forall c :: c in s.calls ==> c in u.calls && u.calls[c] == s.calls[c]
  {
    hide Legal, Exec;
    var now := if t in s.cache then s.entries[s.cache[t]].expiresAt else 0;
    var s1 := Apply(s, Begin(d, t, now));
    Nothing(s);
    Then(s, [], s, Begin(d, t, now), s1);
    rest := [] + [Begin(d, t, now)];
    Then(s, rest, s1, Lookup(d), Apply(s1, Lookup(d)));
    rest := rest + [Lookup(d)];
  }

  /** An opening that is not the cached entry is overlapped at once, or by the next call. */
  lemma UncachedOverlaps(s: State, t: Tenant, c: CallId) returns (rest: seq<Event>, d: CallId)
    requires Inv(s) && c in s.calls && s.calls[c].tenant == t && s.calls[c].phase.Opening?
    requires !(t in s.cache && s.cache[t] == s.calls[c].phase.entry)
    ensures Legal(s, rest) && NeverInvalidated(rest, t) && Overlap(Exec(s, rest), t, c, d)
  {
    if t in s.cache && s.entries[s.cache[t]].inflight {
      var id := s.cache[t];
      assert FlightSound(s, id) && CacheSound(s, t, id);
      rest, d := [], s.entries[id].opener;
      assert CallSound(s, s.calls[d]);
    } else {
      if t in s.cache { assert CacheSound(s, t, s.cache[t]); }
      hide Legal, Exec, EntriesSound, CallsSound;
      d := UnusedCall(s.calls);
      rest := NewCallOpens(s, t, d);
    }
  }

  /** In every reachable state, openings of `t` stay single however the run goes on without
      invalidating it, if and only if each of them is the cached entry. */
  lemma StaysSingleIffCached(s: State, es: seq<Event>, t: Tenant)
    requires Initial(s) && Legal(s, es)
    ensures StaysSingle(Exec(s, es), t) <==> OpeningsCached(Exec(s, es), t)
  {
    hide Inv, Legal, Exec;
    RunKeepsInv(s, es);
    var u := Exec(s, es);
    if OpeningsCached(u, t) {
      CachedStaysSingle(u, t);
    } else {
      var c :| c in u.calls && u.calls[c].phase.Opening? && u.calls[c].tenant == t
               && !(t in u.cache && u.cache[t] == u.calls[c].phase.entry);
      var rest, d := UncachedOverlaps(u, t, c);
      assert Overlap(Exec(u, rest), t, c, d);
    }
  }

  /** An invalidation keeps openings single if and only if no opening of the tenant is in progress. */
  lemma InvalidationIsHarmlessIff(s: State, es: seq<Event>, t: Tenant)
    requires Initial(s) && Legal(s, es)
    ensures StaysSingle(Apply(Exec(s, es), Invalidate(t)), t) <==> Quiet(Exec(s, es), t)
  {
    hide Legal, Exec;
    Then(s, es, Exec(s, es), Invalidate(t), Apply(Exec(s, es), Invalidate(t)));
    StaysSingleIffCached(s, es + [Invalidate(t)], t);
  }

  /** One invalidation is enough: for every tenant and time to live there is a run in which it lets
      a second opening start beside the first. */
  lemma InvalidateAllowsSecondOpening(t: Tenant, ttl: nat) returns (s: State, es: seq<Event>)
    ensures Initial(s) && s.ttl == ttl && Legal(s, es) && Overlap(Exec(s, es), t, 0, 1)
    ensures forall i :: 0 <= i < |es| && es[i].Invalidate? ==> i == 3
  {
    hide Legal, Exec;
    s := State(0, ttl, map[], map[], map[], map[]);
    Nothing(s);
    var look := Call(t, Looking(0));
    var s1 := s.(calls := map[0 := look]);
    Then(s, [], s, Begin(0, t, 0), s1);
    var s2 := s.(calls := map[0 := look, 1 := look]);
    Then(s, [] + [Begin(0, t, 0)], s1, Begin(1, t, 0), s2);
    es := [] + [Begin(0, t, 0)] + [Begin(1, t, 0)];
    var s3 := State(1, ttl, map[t := 0], map[0 := Entry(t, 0, 0, true, 0)], map[0 := Call(t, Opening(0)), 1 := look], map[]);
    Then(s, es, s2, Lookup(0), s3);
    es := es + [Lookup(0)];
    var s4 := s3.(cache := map[]);
    Then(s, es, s3, Invalidate(t), s4);
    es := es + [Invalidate(t)];
    Then(s, es, s4, Lookup(1), Apply(s4, Lookup(1)));
    es := es + [Lookup(1)];
  }

  // ---- Which store a request gets ----

  datatype ResolveError = NoSuchBinding | Other

  /** The selection policy: the operator's store only when no resolver is configured or the tenant
      has no binding; every other failure is passed on. */
  function StoreForTenant<S>(resolver: Option<Result<S, ResolveError>>, operator: S): (r: Result<S, ResolveError>)
    ensures r.Err? <==> resolver == Some(Err(Other))
    ensures resolver.Some? && resolver.value.Ok? ==> r == resolver.value
    ensures r.Ok? ==> r.value == operator || resolver == Some(Ok(r.value))
  {
    match resolver
    case None => Ok(operator)
    case Some(Ok(s)) => Ok(s)
    case Some(Err(NoSuchBinding)) => Ok(operator)
    case Some(Err(Other)) => Err(Other)
  }
}
