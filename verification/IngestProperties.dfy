/** What the ingestion lock protocol promises in every reachable state and over every run:
    safety, freedom from deadlock, and calls of bounded length. */
module IngestProperties {
  import opened Options
  import opened IngestProtocol

  // ---------- safety ----------

  /** Two threads inside an ingest or build are never at work for the same tenant. */
  lemma OneThreadPerTenant(s: State, t: Thread, u: Thread)
    requires Reachable(s) && t != u
    requires Depth(StackOf(s, t)) > 0 && Depth(StackOf(s, u)) > 0
    ensures StackOf(s, t)[0].call.tenant != StackOf(s, u)[0].call.tenant
  {
    ReachableInvariant(s);
    MutualExclusion(s, t, u);
  }

  /** A tenant's lock, once created, is never replaced, however the run goes on. */
  lemma {:induction false} LockNeverReplaced(s: State, events: seq<Event>, u: State, tenant: string)
    requires Invariant(s) && Runs(s, events, u) && tenant in s.locks
    ensures tenant in u.locks && u.locks[tenant] == s.locks[tenant]
    decreases |events|
  {
    if events != [] {
      InvariantKept(s, events[0]);
      if events[0].Step? {
        assert GuardFits(s, events[0].t);
      }
      LockNeverReplaced(Apply(s, events[0]), events[1..], u, tenant);
    }
  }

  /** All threads working or waiting for one tenant refer to one lock, and threads of
      different tenants to different ones. */
  lemma OneLockPerTenant(s: State, t: Thread, u: Thread, i: nat, j: nat)
    requires Reachable(s) && i < |StackOf(s, t)| && j < |StackOf(s, u)|
    requires HasRef(StackOf(s, t)[i].at) && HasRef(StackOf(s, u)[j].at)
    ensures StackOf(s, t)[i].at.ref == StackOf(s, u)[j].at.ref
            <==> StackOf(s, t)[i].call.tenant == StackOf(s, u)[j].call.tenant
  {
    ReachableInvariant(s);
    assert Refs(s.locks, StackOf(s, t)) && Refs(s.locks, StackOf(s, u));
  }

  /** No tenant ever has two documents of the same file hash. */
  lemma OneDocumentPerHash(s: State, a: RowKey, b: RowKey)
    requires Reachable(s) && a in s.rows && b in s.rows && a.tenant == b.tenant
    requires s.rows[a].Some? && s.rows[a] == s.rows[b]
    ensures a == b
  {
    ReachableInvariant(s);
    assert Sole(s.rows, a.tenant, a.doc, s.rows[a]);
  }

  /** The duplicate check is still right when the row is written, although other threads
      ran in between. */
  lemma NoFileIngestedTwice(s: State, t: Thread)
    requires Reachable(s) && StackOf(s, t) != [] && Top(StackOf(s, t)).at.Save?
    ensures !Imported(s.rows, Top(StackOf(s, t)).call.tenant, Top(StackOf(s, t)).call.hash)
  {
    ReachableInvariant(s);
    assert HashFits(s.rows, StackOf(s, t));
  }

  /** A build inside an ingest writes the ingested file's hash. A direct build that removed
      the old row writes the row without one; `DirectBuildHash` says exactly which it writes. */
  lemma DirectBuildForgetsHash(s: State, t: Thread)
    requires Reachable(s) && StackOf(s, t) != [] && Top(StackOf(s, t)).at.Finish?
    ensures |StackOf(s, t)| == 2 ==> Top(StackOf(s, t)).at.final == StackOf(s, t)[0].call.hash != None
    ensures |StackOf(s, t)| == 1 && Top(StackOf(s, t)).at.cleaned ==> Top(StackOf(s, t)).at.final == None
  {
    ReachableInvariant(s);
    assert Shape(StackOf(s, t)) && HashFits(s.rows, StackOf(s, t));
  }

  predicate Deletes(events: seq<Event>, key: RowKey)
  {
    exists i :: 0 <= i < |events| && events[i] == ApiDelete(key)
  }

  /** What the row says, once the events have run in which it may be deleted. */
  function Remaining(rows: Rows, key: RowKey, events: seq<Event>): Option<string>
  {
    if key in rows && !Deletes(events, key) then rows[key] else None
  }

  /** While a thread is inside a tenant's section, nobody else writes a row of the tenant;
      it can only be deleted. */
  lemma RowLeftAlone(s: State, e: Event, t: Thread, key: RowKey)
    requires Invariant(s) && Enabled(s, e) && !Acts(e, t)
    requires Depth(StackOf(s, t)) > 0 && StackOf(s, t)[0].call.tenant == key.tenant
    ensures Remaining(Apply(s, e).rows, key, []) == Remaining(s.rows, key, [e])
  {
    assert Deletes([e], key) <==> e == ApiDelete(key) by {
      if e == ApiDelete(key) {
        assert [e][0] == ApiDelete(key);
      }
    }
    if e.Step? {
      var k := StackOf(s, e.t);
      assert Shape(k);
      ShortDepth(k);
      if Inside(Top(k).at) {
        MutualExclusion(s, e.t, t);
      }
    }
  }

  lemma {:induction false} RowWhileInside(s: State, events: seq<Event>, u: State, t: Thread, key: RowKey)
    requires Invariant(s) && Runs(s, events, u)
    requires forall i :: 0 <= i < |events| ==> !Acts(events[i], t)
    requires Depth(StackOf(s, t)) > 0 && StackOf(s, t)[0].call.tenant == key.tenant
    ensures Remaining(u.rows, key, []) == Remaining(s.rows, key, events)
    ensures StackOf(u, t) == StackOf(s, t)
    decreases |events|
  {
    if events != [] {
      var e, rest := events[0], events[1..];
      assert forall i :: 0 <= i < |rest| ==> rest[i] == events[i + 1];
      InvariantKept(s, e);
      OthersUntouched(s, e, t);
      RowLeftAlone(s, e, t, key);
      RowWhileInside(Apply(s, e), rest, u, t, key);
      DeletesFirst(e, rest, key);
      assert [e] + rest == events;
    }
  }

  lemma DeletesFirst(e: Event, rest: seq<Event>, key: RowKey)
    ensures Deletes([e] + rest, key) <==> Deletes([e], key) || Deletes(rest, key)
  {
    var events := [e] + rest;
    assert [e][0] == e == events[0];
    if i :| 0 <= i < |rest| && rest[i] == ApiDelete(key) {
      assert events[i + 1] == ApiDelete(key);
    }
  }

  /** The hash a direct build writes: the row's own, unless the build removed the row before
      it read it, or the row was deleted between the two. Nothing else can change it, as the
      build holds the tenant's lock. So a stored hash is lost exactly in these two cases. */
  lemma DirectBuildHash(s: State, t: Thread, cleaned: bool, events: seq<Event>, u: State)
    requires Reachable(s) && |StackOf(s, t)| == 1 && Top(StackOf(s, t)).at.Clean?
    requires Runs(Apply(s, Step(t, cleaned)), events, u)
    requires forall i :: 0 <= i < |events| ==> !Acts(events[i], t)
    ensures var call := Top(StackOf(s, t)).call;
      var key := RowKey(call.tenant, call.doc);
      && Enabled(u, Step(t, false)) && StackOf(Apply(u, Step(t, false)), t) != []
      && var at := Top(StackOf(Apply(u, Step(t, false)), t)).at;
      && at.Finish?
      && at.final == (if cleaned then None else Remaining(s.rows, key, events))
      && (key in s.rows && s.rows[key].Some? ==> (at.final != s.rows[key] <==> cleaned || Deletes(events, key)))
  {
    ReachableInvariant(s);
    var k := StackOf(s, t);
    assert Shape(k);
    var call := Top(k).call;
    var key := RowKey(call.tenant, call.doc);
    var s1 := Apply(s, Step(t, cleaned));
    InvariantKept(s, Step(t, cleaned));
    assert StackOf(s1, t) == [Frame(call, Read(k[0].at.ref, cleaned))];
    ShortDepth(StackOf(s1, t));
    RowWhileInside(s1, events, u, t, key);
  }

  // ---------- a stored hash is lost ----------

  lemma RunsAppend(s: State, a: seq<Event>, m: State, b: seq<Event>, u: State)
    requires Runs(s, a, m) && Runs(m, b, u)
    ensures Runs(s, a + b, u)
    decreases |a|
  {
    if a == [] {
      assert a + b == b;
    } else {
      assert (a + b)[1..] == a[1..] + b;
      RunsAppend(Apply(s, a[0]), a[1..], m, b, u);
    }
  }

  lemma RunsOne(s: State, e: Event)
    requires Enabled(s, e)
    ensures Runs(s, [e], Apply(s, e))
  {
    assert [e][1..] == [];
  }

  /** One thread alone begins a call and enters its tenant's section. */
  predicate Quiescent(s: State, t: Thread)
  {
    s.guard == None && StackOf(s, t) == [] && forall l :: l in s.holds ==> s.holds[l] == FREE
  }

  predicate Entered(s: State, t: Thread, call: Call, rows: Rows)
  {
    && s.guard == None && s.rows == rows && |StackOf(s, t)| == 1 && Top(StackOf(s, t)).call == call
    && var at := Top(StackOf(s, t)).at;
    && (if call.kind.Ingest? then at.Check? else at.Clean?)
    && HoldOf(s, at.ref) == Hold(Some(t), 1)
    && forall l :: l in s.holds && l != at.ref ==> s.holds[l] == FREE
  }

  /** The thread knows its tenant's lock and is about to acquire it. */
  predicate AtLock(s: State, t: Thread, call: Call, rows: Rows)
  {
    && s.guard == None && s.rows == rows
    && |StackOf(s, t)| == 1 && Top(StackOf(s, t)).call == call && Top(StackOf(s, t)).at.Want?
    && forall l :: l in s.holds ==> s.holds[l] == FREE
  }

  /** The thread has looked into the lock table and still holds the guard. */
  predicate HasLooked(s: State, t: Thread, call: Call, rows: Rows)
  {
    && s.guard == Some(t) && s.rows == rows
    && |StackOf(s, t)| == 1 && Top(StackOf(s, t)).call == call
    && (Top(StackOf(s, t)).at.Create? || Top(StackOf(s, t)).at.Chosen?)
    && forall l :: l in s.holds ==> s.holds[l] == FREE
  }

  lemma LookUp(s: State, t: Thread, call: Call) returns (events: seq<Event>, u: State)
    requires Quiescent(s, t) && (call.hash.Some? <==> call.kind.Ingest?)
    ensures Runs(s, events, u) && HasLooked(u, t, call, s.rows)
  {
    RunsOne(s, Begin(t, call));
    events, u := [Begin(t, call)], Apply(s, Begin(t, call));
    events, u := Go(s, events, u, t);
    events, u := Go(s, events, u, t);
  }

  lemma FindLock(s: State, t: Thread, call: Call) returns (events: seq<Event>, u: State)
    requires Quiescent(s, t) && (call.hash.Some? <==> call.kind.Ingest?)
    ensures Runs(s, events, u) && AtLock(u, t, call, s.rows)
  {
    events, u := LookUp(s, t, call);
    if Top(StackOf(u, t)).at.Create? {
      events, u := Go(s, events, u, t);
    }
    assert StackOf(u, t) == [Frame(call, Chosen(Top(StackOf(u, t)).at.ref))];
    events, u := Go(s, events, u, t);
  }

  lemma Enter(s: State, t: Thread, call: Call) returns (events: seq<Event>, u: State)
    requires Quiescent(s, t) && (call.hash.Some? <==> call.kind.Ingest?)
    ensures Runs(s, events, u) && Entered(u, t, call, s.rows)
  {
    events, u := FindLock(s, t, call);
    events, u := Go(s, events, u, t);
  }

  lemma Go(s: State, events: seq<Event>, m: State, t: Thread) returns (events': seq<Event>, u: State)
    requires Runs(s, events, m) && Enabled(m, Step(t, true))
    ensures Runs(s, events', u) && u == Apply(m, Step(t, true))
  {
    u := Apply(m, Step(t, true));
    events' := events + [Step(t, true)];
    RunsOne(m, Step(t, true));
    RunsAppend(s, events, m, [Step(t, true)], u);
  }

  lemma IngestAlone(s: State, t: Thread, call: Call) returns (events: seq<Event>, u: State)
    requires Quiescent(s, t) && call.kind == Ingest(false) && call.hash.Some?
    requires !Imported(s.rows, call.tenant, call.hash)
    ensures Runs(s, events, u) && Quiescent(u, t) && u.rows == s.rows[RowKey(call.tenant, call.doc) := call.hash]
  {
    events, u := Enter(s, t, call);
    events, u := Go(s, events, u, t);
    events, u := Go(s, events, u, t);
    events, u := Go(s, events, u, t);
  }

  lemma BuildAlone(s: State, t: Thread, call: Call) returns (events: seq<Event>, u: State)
    requires Quiescent(s, t) && call.kind == Build && call.hash.None?
    ensures Runs(s, events, u) && Quiescent(u, t) && u.rows == s.rows[RowKey(call.tenant, call.doc) := None]
  {
    events, u := Enter(s, t, call);
    events, u := Go(s, events, u, t);
    events, u := Go(s, events, u, t);
    events, u := Go(s, events, u, t);
    events, u := Go(s, events, u, t);
  }

  /** A file is ingested without being built, then its index is built directly: the stored
      hash is gone, and the same file would be taken for a new one. */
  lemma StoredHashLost(tenant: string, doc: string, hash: string) returns (before: State, s: State)
    ensures Reachable(before) && before.rows == map[RowKey(tenant, doc) := Some(hash)]
    ensures Reachable(s) && s.rows == map[RowKey(tenant, doc) := None] && !Imported(s.rows, tenant, Some(hash))
  {
    var events, more;
    events, before := IngestAlone(INITIAL, 0, Call(Ingest(false), tenant, doc, Some(hash)));
    more, s := BuildAlone(before, 0, Call(Build, tenant, doc, None));
    RunsAppend(INITIAL, events, before, more, s);
  }

  /** The build inside a confirmed ingest holds the lock a second time. */
  predicate BuildEntered(s: State, t: Thread, call: Call, rows: Rows)
  {
    && s.guard == None && s.rows == rows && |StackOf(s, t)| == 2
    && StackOf(s, t)[0].call == call && StackOf(s, t)[0].at.Leave?
    && Top(StackOf(s, t)).call == Call(Build, call.tenant, call.doc, call.hash) && Top(StackOf(s, t)).at.Clean?
    && var ref := Top(StackOf(s, t)).at.ref;
    && StackOf(s, t)[0].at.ref == ref && HoldOf(s, ref) == Hold(Some(t), 2)
    && forall l :: l in s.holds && l != ref ==> s.holds[l] == FREE
  }

  lemma SaveAndCall(s: State, t: Thread, call: Call) returns (events: seq<Event>, u: State)
    requires Reachable(s) && Quiescent(s, t) && call.kind == Ingest(true) && call.hash.Some?
    requires !Imported(s.rows, call.tenant, call.hash)
    ensures Runs(s, events, u) && u.guard == None && u.rows == s.rows[RowKey(call.tenant, call.doc) := call.hash]
    ensures var k := StackOf(u, t);
      |k| == 2 && k[0].call == call && k[0].at.Leave?
      && k[1] == Frame(Call(Build, call.tenant, call.doc, call.hash), WantGuard)
      && HoldOf(u, k[0].at.ref) == Hold(Some(t), 1)
      && forall l :: l in u.holds && l != k[0].at.ref ==> u.holds[l] == FREE
  {
    events, u := Enter(s, t, call);
    events, u := Go(s, events, u, t);
    events, u := Go(s, events, u, t);
  }

  lemma EnterBuild(s: State, t: Thread, call: Call) returns (events: seq<Event>, u: State)
    requires Reachable(s) && Quiescent(s, t) && call.kind == Ingest(true) && call.hash.Some?
    requires !Imported(s.rows, call.tenant, call.hash)
    ensures Runs(s, events, u) && BuildEntered(u, t, call, s.rows[RowKey(call.tenant, call.doc) := call.hash])
  {
    events, u := SaveAndCall(s, t, call);
    ReachedInvariant(s, events, u);
    events, u := Go(s, events, u, t);
    events, u := Go(s, events, u, t);
    events, u := Go(s, events, u, t);
    events, u := Go(s, events, u, t);
  }

  lemma FinishBuild(s: State, t: Thread, call: Call, rows: Rows) returns (events: seq<Event>, u: State)
    requires BuildEntered(s, t, call, rows) && call.hash.Some?
    ensures Runs(s, events, u) && u.guard == None && u.rows == rows[RowKey(call.tenant, call.doc) := call.hash]
    ensures StackOf(u, t) == [StackOf(s, t)[0]]
    ensures var ref := StackOf(s, t)[0].at.ref;
      HoldOf(u, ref) == Hold(Some(t), 1) && forall l :: l in u.holds && l != ref ==> u.holds[l] == FREE
  {
    events, u := [], s;
    events, u := Go(s, events, u, t);
    events, u := Go(s, events, u, t);
    events, u := Go(s, events, u, t);
    events, u := Go(s, events, u, t);
  }

  /** A confirmed ingest alone: the build runs inside it, with the lock held twice, and in the
      end the document is there with its hash and the lock is free. */
  lemma ConfirmedIngest(s: State, t: Thread, call: Call) returns (events: seq<Event>, mid: State, more: seq<Event>, u: State)
    requires Reachable(s) && Quiescent(s, t) && call.kind == Ingest(true) && call.hash.Some?
    requires !Imported(s.rows, call.tenant, call.hash)
    ensures Runs(s, events, mid) && BuildEntered(mid, t, call, s.rows[RowKey(call.tenant, call.doc) := call.hash])
    ensures Runs(mid, more, u) && Quiescent(u, t) && u.rows == s.rows[RowKey(call.tenant, call.doc) := call.hash]
  {
    events, mid := EnterBuild(s, t, call);
    more, u := FinishBuild(mid, t, call, mid.rows);
    more, u := Go(mid, more, u, t);
  }

  lemma ReachedInvariant(s: State, events: seq<Event>, u: State)
    requires Reachable(s) && Runs(s, events, u)
    ensures Invariant(u)
  {
    var before :| Runs(INITIAL, before, s);
    RunsAppend(INITIAL, before, s, events, u);
    ReachableInvariant(u);
  }

  // ---------- progress ----------

  /** A build inside an ingest never waits for its tenant's lock: the thread has it already. */
  lemma NestedBuildNeverBlocks(s: State, t: Thread)
    requires Reachable(s) && |StackOf(s, t)| == 2 && Top(StackOf(s, t)).at.Want?
    ensures forall cleaned :: Enabled(s, Step(t, cleaned))
  {
    ReachableInvariant(s);
    OwnerReady(s, t);
  }

  /** A thread that owns its tenant's lock can always go on, unless it needs the guard. In
      particular releasing never raises. */
  lemma OwnerReady(s: State, t: Thread)
    requires Invariant(s) && Depth(StackOf(s, t)) > 0 && !Top(StackOf(s, t)).at.WantGuard?
    ensures Ready(s, t, Top(StackOf(s, t)).at)
  {
    var k := StackOf(s, t);
    assert Shape(k) && OwnsWhatItEntered(s, t) && Refs(s.locks, k);
    ShortDepth(k);
  }

  /** The thread can go on, or the guard's holder can. */
  lemma GuardLetsGo(s: State, t: Thread) returns (u: Thread)
    requires Invariant(s) && StackOf(s, t) != [] && Top(StackOf(s, t)).at.WantGuard?
    ensures StackOf(s, u) != [] && Ready(s, u, Top(StackOf(s, u)).at)
  {
    if s.guard == None {
      u := t;
    } else {
      u := s.guard.value;
      assert GuardFits(s, u);
    }
  }

  /** No deadlock: while a call is in progress, some thread with a call in progress can take
      its next step. */
  lemma NoDeadlock(s: State, t: Thread) returns (u: Thread)
    requires Reachable(s) && StackOf(s, t) != []
    ensures StackOf(s, u) != [] && forall cleaned :: Enabled(s, Step(u, cleaned))
  {
    ReachableInvariant(s);
    var at := Top(StackOf(s, t)).at;
    if Ready(s, t, at) {
      u := t;
    } else if at.WantGuard? {
      u := GuardLetsGo(s, t);
    } else {
      assert OwnerInside(s, at.ref) && GuardFits(s, t) && OwnsWhatItEntered(s, t);
      if at.Leave? {
        OwnerReady(s, t);
      }
      var owner := HoldOf(s, at.ref).owner.value;
      if Top(StackOf(s, owner)).at.WantGuard? {
        u := GuardLetsGo(s, owner);
      } else {
        OwnerReady(s, owner);
        u := owner;
      }
    }
  }

  /** An upper bound on the accesses left to a call. */
  function Left(f: Frame): nat
  {
    match f.at
    case WantGuard => if f.call.kind.Ingest? then 17 else 9
    case Look => if f.call.kind.Ingest? then 16 else 8
    case Create => if f.call.kind.Ingest? then 15 else 7
    case Chosen(_) => if f.call.kind.Ingest? then 14 else 6
    case Want(_) => if f.call.kind.Ingest? then 13 else 5
    case Check(_) => 12
    case Save(_) => 11
    case Clean(_) => 4
    case Read(_, _) => 3
    case Finish(_, _, _) => 2
    case Leave(_) => 1
  }

  function StepsLeft(k: seq<Frame>): nat
  {
    if k == [] then 0 else StepsLeft(k[..|k| - 1]) + Left(Top(k))
  }

  /** Whatever a thread does inside a call, it comes closer to the end of it. */
  lemma StepsShrink(s: State, e: Event, t: Thread)
    requires Enabled(s, e) && Acts(e, t) && !e.Begin?
    ensures StepsLeft(StackOf(Apply(s, e), t)) < StepsLeft(StackOf(s, t))
  {
  }

  function StepsOf(events: seq<Event>, t: Thread): nat
  {
    if events == [] then 0 else (if Acts(events[0], t) then 1 else 0) + StepsOf(events[1..], t)
  }

  /** A call ends after boundedly many accesses of its own thread, whatever others do. */
  lemma {:induction false} CallsAreBounded(s: State, events: seq<Event>, u: State, t: Thread)
    requires Runs(s, events, u)
    requires forall i :: 0 <= i < |events| && Acts(events[i], t) ==> !events[i].Begin?
    ensures StepsOf(events, t) + StepsLeft(StackOf(u, t)) <= StepsLeft(StackOf(s, t))
    decreases |events|
  {
    if events == [] {
    } else {
      var e, rest := events[0], events[1..];
      assert forall i :: 0 <= i < |rest| ==> rest[i] == events[i + 1];
      CallsAreBounded(Apply(s, e), rest, u, t);
      if Acts(e, t) {
        StepsShrink(s, e, t);
      } else {
        OthersUntouched(s, e, t);
      }
    }
  }
}
