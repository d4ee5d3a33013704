/** The cache of database instances per tenant: double-checked locking, over every
    interleaving of threads, including the clearing of the cache. */
module FactoryProtocol {
  import opened Options

  type Thread = nat
  type Instance = nat

  datatype Point =
    | Idle
    | Test                       // without the lock
    | WantLock
    | Retest                     // holding the lock
    | Make
    | Put(made: Instance)
    | Unlock
    | Fetch                      // without the lock again
    | Returned(result: Option<Instance>)   // None: the lookup raised

  datatype Caller = Caller(tenant: string, at: Point)

  /** `made` remembers for whom every instance was ever made. */
  datatype State = State(lock: Option<Thread>, instances: map<string, Instance>, callers: map<Thread, Caller>,
                         made: map<Instance, string>, next: Instance)

  const INITIAL := State(None, map[], map[], map[], 0)

  /** `Clear(None)` empties the whole cache. */
  datatype Event = Begin(t: Thread, tenant: string) | Step(t: Thread) | Clear(which: Option<string>)

  function CallerOf(s: State, t: Thread): Caller
  {
    if t in s.callers then s.callers[t] else Caller("", Idle)
  }

  predicate Critical(at: Point) { at.Retest? || at.Make? || at.Put? || at.Unlock? }

  predicate Enabled(s: State, e: Event)
  {
    match e
    case Begin(t, _) => CallerOf(s, t).at.Idle? || CallerOf(s, t).at.Returned?
    case Step(t) =>
      var at := CallerOf(s, t).at;
      !at.Idle? && !at.Returned? && (at.WantLock? ==> s.lock == None)
    case Clear(_) => s.lock == None
  }

  function Next(s: State, c: Caller): Point
  {
    match c.at
    case Test => if c.tenant in s.instances then Fetch else WantLock
    case WantLock => Retest
    case Retest => if c.tenant in s.instances then Unlock else Make
    case Make => Put(s.next)
    case Put(_) => Unlock
    case Unlock => Fetch
    case Fetch => Returned(if c.tenant in s.instances then Some(s.instances[c.tenant]) else None)
    case _ => c.at
  }

  function Apply(s: State, e: Event): State
    requires Enabled(s, e)
  {
    match e
    case Begin(t, tenant) => s.(callers := s.callers[t := Caller(tenant, Test)])
    case Clear(which) => s.(instances := if which.Some? then s.instances - {which.value} else map[])
    case Step(t) =>
      var c := CallerOf(s, t);
      State(if c.at.WantLock? then Some(t) else if c.at.Unlock? then None else s.lock,
            if c.at.Put? then s.instances[c.tenant := c.at.made] else s.instances,
            s.callers[t := c.(at := Next(s, c))],
            if c.at.Make? then s.made[s.next := c.tenant] else s.made,
            if c.at.Make? then s.next + 1 else s.next)
  }

  ghost predicate Runs(s: State, events: seq<Event>, u: State)
    decreases |events|
  {
    if events == [] then s == u
    else Enabled(s, events[0]) && Runs(Apply(s, events[0]), events[1..], u)
  }

  predicate Clears(e: Event, tenant: string) { e.Clear? && (e.which == None || e.which == Some(tenant)) }

  predicate NeverClears(events: seq<Event>, tenant: string)
  {
    forall i :: 0 <= i < |events| ==> !Clears(events[i], tenant)
  }

  // ---------- invariants ----------

  predicate LockFits(s: State, t: Thread)
  {
    s.lock == Some(t) <==> Critical(CallerOf(s, t).at)
  }

  ghost predicate Locked(s: State)
  {
    forall t: Thread :: LockFits(s, t)
  }

  predicate MadeFor(s: State, tenant: string, id: Instance)
  {
    id in s.made && s.made[id] == tenant
  }

  /** What a caller for the tenant has found out is still so. */
  predicate CallerFits(s: State, tenant: string, c: Caller)
  {
    c.tenant == tenant ==>
      && (c.at.Make? || c.at.Put? ==> tenant !in s.instances)
      && (c.at.Put? ==> MadeFor(s, tenant, c.at.made))
      && (c.at.Unlock? || c.at.Fetch? ==> tenant in s.instances)
      && (c.at.Returned? ==> tenant in s.instances && c.at.result == Some(s.instances[tenant]))
  }

  predicate Pending(s: State, tenant: string, id: Instance)
  {
    s.lock.Some? && CallerOf(s, s.lock.value) == Caller(tenant, Put(id))
  }

  /** An instance made for the tenant is the cached one, or about to become it. */
  ghost predicate Sound(s: State, tenant: string)
  {
    && (forall id :: id in s.made ==> id < s.next)
    && (forall t: Thread :: CallerFits(s, tenant, CallerOf(s, t)))
    && (tenant in s.instances ==> MadeFor(s, tenant, s.instances[tenant]))
    && (forall id :: MadeFor(s, tenant, id) ==>
          (tenant in s.instances && s.instances[tenant] == id) || Pending(s, tenant, id))
  }

  lemma LockedKept(s: State, e: Event)
    requires Locked(s) && Enabled(s, e)
    ensures Locked(Apply(s, e))
  {
    forall u: Thread ensures LockFits(Apply(s, e), u) {
      assert LockFits(s, u);
      if e.Step? {
        assert LockFits(s, e.t);
      }
    }
  }

  lemma SoundKept(s: State, e: Event, tenant: string)
    requires Locked(s) && Sound(s, tenant) && Enabled(s, e) && !Clears(e, tenant)
    ensures Sound(Apply(s, e), tenant)
  {
    var u := Apply(s, e);
    if e.Step? {
      assert CallerFits(s, tenant, CallerOf(s, e.t));
      assert LockFits(s, e.t);
    }
    forall t: Thread ensures CallerFits(u, tenant, CallerOf(u, t)) {
      assert CallerFits(s, tenant, CallerOf(s, t));
      assert LockFits(s, t);
    }
    forall id | MadeFor(u, tenant, id)
      ensures (tenant in u.instances && u.instances[tenant] == id) || Pending(u, tenant, id)
    {
      if id in s.made && Pending(s, tenant, id) {
        assert LockFits(s, s.lock.value);
      }
    }
  }

  lemma {:induction false} RunsSound(s: State, events: seq<Event>, u: State, tenant: string)
    requires Locked(s) && Sound(s, tenant) && Runs(s, events, u) && NeverClears(events, tenant)
    ensures Locked(u) && Sound(u, tenant)
    decreases |events|
  {
    if events == [] {
    } else {
      var rest := events[1..];
      assert forall i :: 0 <= i < |rest| ==> rest[i] == events[i + 1];
      assert !Clears(events[0], tenant);
      LockedKept(s, events[0]);
      SoundKept(s, events[0], tenant);
      RunsSound(Apply(s, events[0]), rest, u, tenant);
    }
  }

  // ---------- what callers get ----------

  /** While a tenant's cache entry is never cleared, one pair of databases is made for the
      cache and every caller, on any thread, gets that pair. */
  lemma OneInstancePerTenant(events: seq<Event>, s: State, tenant: string, t: Thread, id: Instance)
    requires Runs(INITIAL, events, s) && NeverClears(events, tenant)
    requires CallerOf(s, t).tenant == tenant && CallerOf(s, t).at.Returned?
    ensures CallerOf(s, t).at.result == Some(id) <==> MadeFor(s, tenant, id)
  {
    RunsSound(INITIAL, events, s, tenant);
    assert CallerFits(s, tenant, CallerOf(s, t));
  }

  /** The lookup after the lock is released never fails for such a tenant. */
  lemma LookupNeverRaises(events: seq<Event>, s: State, t: Thread)
    requires Runs(INITIAL, events, s) && NeverClears(events, CallerOf(s, t).tenant)
    ensures CallerOf(s, t).at != Returned(None)
  {
    RunsSound(INITIAL, events, s, CallerOf(s, t).tenant);
    assert CallerFits(s, CallerOf(s, t).tenant, CallerOf(s, t));
  }

  /** A call for a tenant in the cache never waits for the lock: its next two steps are enabled
      whoever holds it, and return the cached pair. */
  lemma CachedNeverWaits(s: State, t: Thread)
    requires CallerOf(s, t).at.Test? && CallerOf(s, t).tenant in s.instances
    ensures Enabled(s, Step(t)) && Enabled(Apply(s, Step(t)), Step(t))
    ensures CallerOf(Apply(Apply(s, Step(t)), Step(t)), t).at == Returned(Some(s.instances[CallerOf(s, t).tenant]))
  {
    var c := CallerOf(s, t);
    var u := Apply(s, Step(t));
    assert CallerOf(u, t) == Caller(c.tenant, Fetch);
  }

  // ---------- when the lookup raises ----------

  /** The states of a run, one before each event and one after the last. */
  predicate Trace(states: seq<State>, events: seq<Event>)
  {
    && |states| == |events| + 1
    && forall i :: 0 <= i < |events| ==> Enabled(states[i], events[i]) && states[i + 1] == Apply(states[i], events[i])
  }

  lemma {:induction false} TraceOfRun(s: State, events: seq<Event>, u: State) returns (states: seq<State>)
    requires Runs(s, events, u)
    ensures Trace(states, events) && states[0] == s && states[|events|] == u
    decreases |events|
  {
    if events == [] {
      states := [s];
    } else {
      var rest := TraceOfRun(Apply(s, events[0]), events[1..], u);
      states := [s] + rest;
      forall i | 0 <= i < |events|
        ensures Enabled(states[i], events[i]) && states[i + 1] == Apply(states[i], events[i])
      {
        if i > 0 {
          assert events[1..][i - 1] == events[i] && rest[i - 1] == states[i];
        }
      }
    }
  }

  /** The event is the caller's write of the tenant's entry. */
  predicate Puts(s: State, e: Event, tenant: string)
  {
    e.Step? && CallerOf(s, e.t).tenant == tenant && CallerOf(s, e.t).at.Put?
  }

  /** The tenant's entry is cleared between `from` and `to` and not written again after. */
  predicate ClearedFor(states: seq<State>, events: seq<Event>, from: nat, to: nat, tenant: string)
    requires from <= to <= |events| && |states| == |events| + 1
  {
    exists i :: from <= i < to && Clears(events[i], tenant) &&
      forall j :: i < j < to ==> !Puts(states[j], events[j], tenant)
  }

  lemma {:induction false} EntryGoneIff(states: seq<State>, events: seq<Event>, from: nat, to: nat, tenant: string)
    requires Trace(states, events) && from <= to <= |events| && tenant in states[from].instances
    ensures tenant !in states[to].instances <==> ClearedFor(states, events, from, to, tenant)
  {
    if from < to {
      var k := to - 1;
      EntryGoneIff(states, events, from, k, tenant);
      if Clears(events[k], tenant) {
        assert ClearedFor(states, events, from, to, tenant);
      } else if Puts(states[k], events[k], tenant) {
        assert tenant in states[to].instances;
      } else {
        StillGoneIff(states, events, from, k, tenant);
      }
    }
  }

  /** Any other event leaves the entry as it was. */
  lemma StillGoneIff(states: seq<State>, events: seq<Event>, from: nat, k: nat, tenant: string)
    requires Trace(states, events) && from <= k < |events|
    requires !Clears(events[k], tenant) && !Puts(states[k], events[k], tenant)
    ensures tenant in states[k + 1].instances <==> tenant in states[k].instances
    ensures ClearedFor(states, events, from, k + 1, tenant) <==> ClearedFor(states, events, from, k, tenant)
  {
    assert states[k + 1] == Apply(states[k], events[k]);
    if ClearedFor(states, events, from, k, tenant) {
      var i :| from <= i < k && Clears(events[i], tenant) &&
        forall j :: i < j < k ==> !Puts(states[j], events[j], tenant);
      assert forall j :: i < j < k + 1 ==> !Puts(states[j], events[j], tenant);
    }
  }

  predicate ByCaller(e: Event, t: Thread) { !e.Clear? && e.t == t }

  /** The caller found the tenant's entry, or wrote it. */
  predicate Finds(s: State, e: Event, t: Thread)
  {
    var c := CallerOf(s, t);
    e == Step(t) && (c.at.Put? || ((c.at.Test? || c.at.Retest?) && c.tenant in s.instances))
  }

  /** Event `k` is where the caller, now about to release the lock or to look up its entry,
      last knew the entry to be there. */
  ghost predicate LastFound(states: seq<State>, events: seq<Event>, k: nat, n: nat, t: Thread)
    requires n <= |events| && |states| == |events| + 1
  {
    && k < n && Finds(states[k], events[k], t)
    && CallerOf(states[k], t).tenant == CallerOf(states[n], t).tenant
    && (forall j :: k < j < n && ByCaller(events[j], t) ==> CallerOf(states[j], t).at.Unlock?)
  }

  lemma {:induction false} FoundBefore(states: seq<State>, events: seq<Event>, n: nat, t: Thread) returns (k: nat)
    requires Trace(states, events) && states[0] == INITIAL && n <= |events|
    requires CallerOf(states[n], t).at.Unlock? || CallerOf(states[n], t).at.Fetch?
    ensures LastFound(states, events, k, n, t)
    ensures CallerOf(states[n], t).tenant in states[k + 1].instances
    decreases n
  {
    var m := n - 1;
    assert states[n] == Apply(states[m], events[m]);
    if ByCaller(events[m], t) && !CallerOf(states[m], t).at.Unlock? {
      k := m;
    } else {
      k := FoundBefore(states, events, m, t);
    }
  }

  /** When the lookup raises, over all runs: exactly when the tenant's entry was cleared after
      the caller last found or wrote it, and nobody wrote it again before the lookup. */
  lemma LookupRaisesIff(events: seq<Event>, s: State, t: Thread) returns (states: seq<State>, k: nat)
    requires Runs(INITIAL, events, s) && CallerOf(s, t).at.Fetch?
    ensures Trace(states, events) && states[0] == INITIAL && states[|events|] == s
    ensures LastFound(states, events, k, |events|, t)
    ensures Next(s, CallerOf(s, t)) == Returned(None)
            <==> ClearedFor(states, events, k + 1, |events|, CallerOf(s, t).tenant)
  {
    states := TraceOfRun(INITIAL, events, s);
    k := FoundBefore(states, events, |events|, t);
    EntryGoneIff(states, events, k + 1, |events|, CallerOf(s, t).tenant);
  }

  lemma RunsStep(s: State, e: Event, rest: seq<Event>, u: State)
    requires Enabled(s, e) && Runs(Apply(s, e), rest, u)
    ensures Runs(s, [e] + rest, u)
  {
    assert ([e] + rest)[1..] == rest;
  }

  /** Clearing the cache between the release of the lock and the lookup makes the lookup
      raise. */
  lemma ClearingRaises(tenant: string) returns (events: seq<Event>, s: State)
    ensures Runs(INITIAL, events, s) && CallerOf(s, 0) == Caller(tenant, Returned(None))
  {
    var go := Step(0);
    var s1 := Apply(INITIAL, Begin(0, tenant));
    var s2 := Apply(s1, go);
    var s3 := Apply(s2, go);
    var s4 := Apply(s3, go);
    var s5 := Apply(s4, go);
    var s6 := Apply(s5, go);
    var s7 := Apply(s6, go);
    var s8 := Apply(s7, Clear(None));
    s := Apply(s8, go);
    events := [];
    RunsStep(s8, go, events, s);
    events := [go] + events;
    RunsStep(s7, Clear(None), events, s);
    events := [Clear(None)] + events;
    RunsStep(s6, go, events, s);
    events := [go] + events;
    RunsStep(s5, go, events, s);
    events := [go] + events;
    RunsStep(s4, go, events, s);
    events := [go] + events;
    RunsStep(s3, go, events, s);
    events := [go] + events;
    RunsStep(s2, go, events, s);
    events := [go] + events;
    RunsStep(s1, go, events, s);
    events := [go] + events;
    RunsStep(INITIAL, Begin(0, tenant), events, s);
    events := [Begin(0, tenant)] + events;
  }
}
