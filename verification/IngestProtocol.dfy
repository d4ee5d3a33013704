/** The per-tenant ingestion lock protocol, over every interleaving of threads.

    A call of `ingest_document` or `build_index` first obtains its tenant's re-entrant lock
    from a table protected by a guard, then works on the tenant's documents while holding
    it. An ingest that is confirmed at once calls `build_index` on the same thread, which
    runs through the whole protocol a second time. Documents may be deleted at any moment
    without the lock. Each step below is one access to shared state. */
module IngestProtocol {
  import opened Options

  type Thread = nat
  type LockId = nat

  datatype Kind = Ingest(confirm: bool) | Build

  /** A call in progress. An ingest always carries its file's hash and the id derived from
      the file's content. */
  datatype Call = Call(kind: Kind, tenant: string, doc: string, hash: Option<string>)

  datatype Point =
    | WantGuard
    | Look                                       // inside the guard
    | Create
    | Chosen(ref: LockId)
    | Want(ref: LockId)                          // outside again, waiting for the tenant's lock
    | Check(ref: LockId)                         // ingest, holding the lock
    | Save(ref: LockId)
    | Clean(ref: LockId)                         // build, holding the lock
    | Read(ref: LockId, cleaned: bool)           // `cleaned`: the old row was removed
    | Finish(ref: LockId, final: Option<string>, cleaned: bool)
    | Leave(ref: LockId)

  datatype Frame = Frame(call: Call, at: Point)

  /** State of a re-entrant lock. */
  datatype Hold = Hold(owner: Option<Thread>, count: nat)

  const FREE := Hold(None, 0)

  datatype RowKey = RowKey(tenant: string, doc: string)

  /** File hash of every document row. */
  type Rows = map<RowKey, Option<string>>

  datatype State = State(guard: Option<Thread>, locks: map<string, LockId>, nextLock: LockId,
                         holds: map<LockId, Hold>, threads: map<Thread, seq<Frame>>, rows: Rows)

  const INITIAL := State(None, map[], 0, map[], map[], map[])

  function StackOf(s: State, t: Thread): seq<Frame>
  {
    if t in s.threads then s.threads[t] else []
  }

  function HoldOf(s: State, l: LockId): Hold
  {
    if l in s.holds then s.holds[l] else FREE
  }

  function Top(k: seq<Frame>): Frame
    requires k != []
  {
    k[|k| - 1]
  }

  function WithTop(k: seq<Frame>, at: Point): seq<Frame>
    requires k != []
  {
    k[|k| - 1 := Top(k).(at := at)]
  }

  predicate InGuard(at: Point) { at.Look? || at.Create? || at.Chosen? }

  /** The frame is inside the `with` block of the tenant's lock. */
  predicate Inside(at: Point)
  {
    at.Check? || at.Save? || at.Clean? || at.Read? || at.Finish? || at.Leave?
  }

  predicate Working(at: Point) { Inside(at) && !at.Leave? }

  /** How often the thread holds its tenant's lock. */
  function Depth(k: seq<Frame>): nat
  {
    if k == [] then 0 else Depth(k[..|k| - 1]) + if Inside(Top(k).at) then 1 else 0
  }

  predicate Imported(rows: Rows, tenant: string, hash: Option<string>)
  {
    exists key :: key in rows && key.tenant == tenant && rows[key] == hash
  }

  // ---------- steps ----------

  /** `Step` is the next access of the thread; `cleaned` says whether the removal of the old
      document succeeded. `Fail` is an exception inside the `with` block. */
  datatype Event =
    | Begin(t: Thread, call: Call)
    | Step(t: Thread, cleaned: bool)
    | Fail(t: Thread)
    | ApiDelete(key: RowKey)

  predicate Acquirable(h: Hold, t: Thread) { h.owner == None || h.owner == Some(t) }

  /** Whether the thread's next access can happen now. A release by a thread that does not
      own the lock would raise. */
  predicate Ready(s: State, t: Thread, at: Point)
  {
    match at
    case WantGuard => s.guard == None
    case Want(ref) => Acquirable(HoldOf(s, ref), t)
    case Leave(ref) => HoldOf(s, ref).owner == Some(t) && HoldOf(s, ref).count > 0
    case _ => true
  }

  predicate Enabled(s: State, e: Event)
  {
    match e
    case Begin(t, call) => StackOf(s, t) == [] && (call.hash.Some? <==> call.kind.Ingest?)
    case Step(t, _) => StackOf(s, t) != [] && Ready(s, t, Top(StackOf(s, t)).at)
    case Fail(t) => StackOf(s, t) != [] && Working(Top(StackOf(s, t)).at)
    case ApiDelete(_) => true
  }

  function Acquired(h: Hold, t: Thread): Hold { Hold(Some(t), h.count + 1) }

  function Released(h: Hold): Hold
    requires h.count > 0
  {
    if h.count == 1 then FREE else h.(count := h.count - 1)
  }

  /** The thread's stack after its next access. */
  function NextStack(s: State, k: seq<Frame>, cleaned: bool): seq<Frame>
    requires k != []
  {
    var call := Top(k).call;
    match Top(k).at
    case WantGuard => WithTop(k, Look)
    case Look => WithTop(k, if call.tenant in s.locks then Chosen(s.locks[call.tenant]) else Create)
    case Create => WithTop(k, Chosen(s.nextLock))
    case Chosen(ref) => WithTop(k, Want(ref))
    case Want(ref) => WithTop(k, if call.kind.Ingest? then Check(ref) else Clean(ref))
    case Check(ref) => WithTop(k, if Imported(s.rows, call.tenant, call.hash) then Leave(ref) else Save(ref))
    case Save(ref) =>
      if call.kind == Ingest(true)
      then WithTop(k, Leave(ref)) + [Frame(Call(Build, call.tenant, call.doc, call.hash), WantGuard)]
      else WithTop(k, Leave(ref))
    case Clean(ref) => WithTop(k, Read(ref, cleaned))
    case Read(ref, removed) =>
      var key := RowKey(call.tenant, call.doc);
      var stored := if key in s.rows then s.rows[key] else None;
      WithTop(k, Finish(ref, if call.hash.Some? then call.hash else stored, removed))
    case Finish(ref, _, _) => WithTop(k, Leave(ref))
    case Leave(_) => k[..|k| - 1]
  }

  function NextRows(rows: Rows, call: Call, at: Point, cleaned: bool): Rows
  {
    var key := RowKey(call.tenant, call.doc);
    match at
    case Save(_) => rows[key := call.hash]
    case Clean(_) => if cleaned then rows - {key} else rows
    case Finish(_, final, _) => rows[key := final]
    case _ => rows
  }

  function NextHolds(s: State, t: Thread, at: Point): map<LockId, Hold>
    requires Ready(s, t, at)
  {
    match at
    case Want(ref) => s.holds[ref := Acquired(HoldOf(s, ref), t)]
    case Leave(ref) => s.holds[ref := Released(HoldOf(s, ref))]
    case _ => s.holds
  }

  function Stepped(s: State, t: Thread, cleaned: bool): State
    requires Enabled(s, Step(t, cleaned))
  {
    var k := StackOf(s, t);
    var call, at := Top(k).call, Top(k).at;
    State(if at.WantGuard? then Some(t) else if at.Chosen? then None else s.guard,
          if at.Create? then s.locks[call.tenant := s.nextLock] else s.locks,
          if at.Create? then s.nextLock + 1 else s.nextLock,
          NextHolds(s, t, at),
          s.threads[t := NextStack(s, k, cleaned)],
          NextRows(s.rows, call, at, cleaned))
  }

  function Apply(s: State, e: Event): State
    requires Enabled(s, e)
  {
    match e
    case Begin(t, call) => s.(threads := s.threads[t := [Frame(call, WantGuard)]])
    case Step(t, cleaned) => Stepped(s, t, cleaned)
    case Fail(t) => s.(threads := s.threads[t := WithTop(StackOf(s, t), Leave(Top(StackOf(s, t)).at.ref))])
    case ApiDelete(key) => s.(rows := s.rows - {key})
  }

  ghost predicate Runs(s: State, events: seq<Event>, u: State)
    decreases |events|
  {
    if events == [] then s == u
    else Enabled(s, events[0]) && Runs(Apply(s, events[0]), events[1..], u)
  }

  // ---------- invariants ----------

  predicate FrameShape(f: Frame)
  {
    && (f.call.kind.Ingest? ==> f.call.hash.Some?)
    && (f.at.Check? || f.at.Save? ==> f.call.kind.Ingest?)
    && (f.at.Clean? || f.at.Read? || f.at.Finish? ==> f.call.kind.Build?)
  }

  /** A build is either the only call of its thread, and then carries no hash, or runs inside
      an ingest of the same document that has nothing left to do but leave. */
  predicate Shape(k: seq<Frame>)
  {
    && |k| <= 2
    && (forall i :: 0 <= i < |k| ==> FrameShape(k[i]))
    && (|k| == 1 && k[0].call.kind.Build? ==> k[0].call.hash.None?)
    && (|k| == 2 ==> k[0].at.Leave? && k[0].call.kind.Ingest?
                     && k[1].call == Call(Build, k[0].call.tenant, k[0].call.doc, k[0].call.hash))
  }

  ghost predicate Shapes(s: State)
  {
    forall t :: Shape(StackOf(s, t))
  }

  predicate HasRef(at: Point) { at.Chosen? || at.Want? || Inside(at) }

  /** Every lock reference the thread has is the one in the table. */
  predicate Refs(locks: map<string, LockId>, k: seq<Frame>)
  {
    forall i :: 0 <= i < |k| && HasRef(k[i].at) ==>
      k[i].call.tenant in locks && locks[k[i].call.tenant] == k[i].at.ref
  }

  /** One lock per tenant, never shared with another tenant. */
  ghost predicate Table(s: State)
  {
    && (forall a :: a in s.locks ==> s.locks[a] < s.nextLock)
    && (forall a, b :: a in s.locks && b in s.locks && s.locks[a] == s.locks[b] ==> a == b)
    && (forall l :: l in s.holds ==> l < s.nextLock)
    && (forall t :: Refs(s.locks, StackOf(s, t)))
  }

  /** The guard is held by exactly the thread inside its section, and a thread about to
      create a lock is right that there is none. */
  predicate GuardFits(s: State, t: Thread)
  {
    var k := StackOf(s, t);
    && (s.guard == Some(t) <==> k != [] && InGuard(Top(k).at))
    && (k != [] && Top(k).at.Create? ==> Top(k).call.tenant !in s.locks)
  }

  ghost predicate Guarded(s: State)
  {
    forall t :: GuardFits(s, t)
  }

  /** A thread inside its tenant's section owns the tenant's lock as often as it entered. */
  predicate OwnsWhatItEntered(s: State, t: Thread)
  {
    var k := StackOf(s, t);
    Depth(k) > 0 ==>
      k[0].call.tenant in s.locks && HoldOf(s, s.locks[k[0].call.tenant]) == Hold(Some(t), Depth(k))
  }

  /** A lock is free or owned by a thread inside the section of the lock's tenant. */
  predicate OwnerInside(s: State, l: LockId)
  {
    var h := HoldOf(s, l);
    h == FREE || (h.owner.Some? &&
      var k := StackOf(s, h.owner.value);
      Depth(k) > 0 && k[0].call.tenant in s.locks && s.locks[k[0].call.tenant] == l)
  }

  ghost predicate Held(s: State)
  {
    (forall t :: OwnsWhatItEntered(s, t)) && (forall l :: OwnerInside(s, l))
  }

  /** No other document of the tenant has the hash. */
  predicate Sole(rows: Rows, tenant: string, doc: string, hash: Option<string>)
  {
    hash.Some? ==> forall key :: key in rows && key.tenant == tenant && key.doc != doc ==> rows[key] != hash
  }

  /** Each document is the only one of its tenant with its hash. */
  predicate Unique(rows: Rows)
  {
    forall key :: key in rows ==> Sole(rows, key.tenant, key.doc, rows[key])
  }

  /** What a thread inside the section has established about the hash it will write. */
  predicate HashFits(rows: Rows, k: seq<Frame>)
  {
    && (k != [] && Top(k).at.Save? ==> !Imported(rows, Top(k).call.tenant, Top(k).call.hash))
    && (|k| == 2 ==> Sole(rows, k[1].call.tenant, k[1].call.doc, k[1].call.hash))
    && (k != [] && Top(k).at.Finish? ==> Sole(rows, Top(k).call.tenant, Top(k).call.doc, Top(k).at.final))
    && (k != [] ==> ReadFits(rows, Top(k).call, Top(k).at))
  }

  /** A removed row stays away until the build writes it again, and what the build will
      write is the hash it was given, or else what the row still says. */
  predicate ReadFits(rows: Rows, call: Call, at: Point)
  {
    && (at.Read? && at.cleaned ==> RowKey(call.tenant, call.doc) !in rows)
    && (at.Finish? && call.hash.Some? ==> at.final == call.hash)
    && (at.Finish? && call.hash.None? && at.cleaned ==> at.final == None)
  }

  ghost predicate Hashes(s: State)
  {
    Unique(s.rows) && forall t :: HashFits(s.rows, StackOf(s, t))
  }

  ghost predicate Invariant(s: State)
  {
    Shapes(s) && Table(s) && Guarded(s) && Held(s) && Hashes(s)
  }

  // ---------- every step keeps them ----------

  predicate Acts(e: Event, t: Thread) { !e.ApiDelete? && e.t == t }

  lemma OthersUntouched(s: State, e: Event, u: Thread)
    requires Enabled(s, e) && !Acts(e, u)
    ensures StackOf(Apply(s, e), u) == StackOf(s, u)
  {
  }

  lemma ShapesKept(s: State, e: Event)
    requires Shapes(s) && Enabled(s, e)
    ensures Shapes(Apply(s, e))
  {
    forall u ensures Shape(StackOf(Apply(s, e), u)) {
      assert Shape(StackOf(s, u));
      if !Acts(e, u) {
        OthersUntouched(s, e, u);
      }
    }
  }

  lemma RefsKept(s: State, e: Event, u: Thread)
    requires Shapes(s) && Table(s) && Guarded(s) && Enabled(s, e)
    ensures Refs(Apply(s, e).locks, StackOf(Apply(s, e), u))
  {
    assert Shape(StackOf(s, u)) && Refs(s.locks, StackOf(s, u));
    if !Acts(e, u) {
      OthersUntouched(s, e, u);
      if e.Step? {
        assert GuardFits(s, e.t);
      }
    } else {
      assert GuardFits(s, u);
    }
  }

  lemma TableKept(s: State, e: Event)
    requires Shapes(s) && Table(s) && Guarded(s) && Enabled(s, e)
    ensures Table(Apply(s, e))
  {
    forall u ensures Refs(Apply(s, e).locks, StackOf(Apply(s, e), u)) {
      RefsKept(s, e, u);
    }
    if e.Step? {
      assert Refs(s.locks, StackOf(s, e.t));
    }
  }

  lemma GuardKept(s: State, e: Event)
    requires Shapes(s) && Guarded(s) && Enabled(s, e)
    ensures Guarded(Apply(s, e))
  {
    forall u ensures GuardFits(Apply(s, e), u) {
      assert Shape(StackOf(s, u)) && GuardFits(s, u);
      if !Acts(e, u) {
        OthersUntouched(s, e, u);
        if !e.ApiDelete? {
          assert GuardFits(s, e.t);
        }
      }
    }
  }

  lemma ShortDepth(k: seq<Frame>)
    requires |k| <= 2
    ensures Depth(k) == (if |k| >= 1 && Inside(k[0].at) then 1 else 0) + (if |k| == 2 && Inside(k[1].at) then 1 else 0)
  {
    if |k| == 2 {
      assert k[..1][..0] == [] && Top(k[..1]) == k[0];
      assert Depth(k[..1]) == if Inside(k[0].at) then 1 else 0;
    }
  }

  /** Only obtaining and releasing the lock change how often a thread holds it. */
  lemma DepthOfNext(s: State, k: seq<Frame>, cleaned: bool)
    requires k != [] && Shape(k)
    ensures var at := Top(k).at;
      Depth(NextStack(s, k, cleaned)) == Depth(k) + (if at.Want? then 1 else if at.Leave? then -1 else 0)
    ensures NextStack(s, k, cleaned) != [] ==> NextStack(s, k, cleaned)[0].call == k[0].call
  {
    ShortDepth(k);
    if |NextStack(s, k, cleaned)| <= 2 {
      ShortDepth(NextStack(s, k, cleaned));
    }
  }

  lemma DepthKept(s: State, e: Event, u: Thread)
    requires Shapes(s) && Enabled(s, e)
    requires e.Step? && e.t == u ==> !Top(StackOf(s, u)).at.Want? && !Top(StackOf(s, u)).at.Leave?
    ensures Depth(StackOf(Apply(s, e), u)) == Depth(StackOf(s, u))
    ensures Depth(StackOf(s, u)) > 0 ==> StackOf(Apply(s, e), u)[0].call == StackOf(s, u)[0].call
  {
    var k := StackOf(s, u);
    assert Shape(k);
    ShapesKept(s, e);
    assert Shape(StackOf(Apply(s, e), u));
    ShortDepth(k);
    ShortDepth(StackOf(Apply(s, e), u));
  }

  lemma StepOwns(s: State, t: Thread, cleaned: bool)
    requires Shapes(s) && Table(s) && Held(s) && Enabled(s, Step(t, cleaned))
    requires var at := Top(StackOf(s, t)).at; at.Want? || at.Leave?
    ensures OwnsWhatItEntered(Apply(s, Step(t, cleaned)), t)
  {
    var k := StackOf(s, t);
    assert Shape(k) && Refs(s.locks, k) && OwnsWhatItEntered(s, t);
    DepthOfNext(s, k, cleaned);
    assert OwnerInside(s, Top(k).at.ref);
  }

  lemma OwnKept(s: State, e: Event, u: Thread)
    requires Shapes(s) && Table(s) && Guarded(s) && Held(s) && Enabled(s, e)
    requires e.Step? && e.t == u ==> !Top(StackOf(s, u)).at.Want? && !Top(StackOf(s, u)).at.Leave?
    ensures OwnsWhatItEntered(Apply(s, e), u)
  {
    DepthKept(s, e, u);
    assert OwnsWhatItEntered(s, u);
    if e.Step? {
      assert GuardFits(s, e.t);
      assert Shape(StackOf(s, e.t));
    }
  }

  /** The step obtains or releases the lock. */
  predicate Touches(at: Point, l: LockId) { (at.Want? || at.Leave?) && at.ref == l }

  lemma TouchedOwner(s: State, t: Thread, cleaned: bool, l: LockId)
    requires Shapes(s) && Table(s) && Held(s) && Enabled(s, Step(t, cleaned)) && Touches(Top(StackOf(s, t)).at, l)
    ensures OwnerInside(Apply(s, Step(t, cleaned)), l)
  {
    var k := StackOf(s, t);
    assert OwnerInside(s, l) && Shape(k) && Refs(s.locks, k) && OwnsWhatItEntered(s, t);
    DepthOfNext(s, k, cleaned);
  }

  lemma UntouchedOwner(s: State, t: Thread, cleaned: bool, l: LockId)
    requires Shapes(s) && Table(s) && Guarded(s) && Held(s) && Enabled(s, Step(t, cleaned))
    requires !Touches(Top(StackOf(s, t)).at, l)
    ensures OwnerInside(Apply(s, Step(t, cleaned)), l)
  {
    var k := StackOf(s, t);
    assert OwnerInside(s, l) && Shape(k) && Refs(s.locks, k) && GuardFits(s, t);
    DepthOfNext(s, k, cleaned);
  }

  lemma OwnerKept(s: State, e: Event, l: LockId)
    requires Shapes(s) && Table(s) && Guarded(s) && Held(s) && Enabled(s, e)
    ensures OwnerInside(Apply(s, e), l)
  {
    if e.Step? {
      if Touches(Top(StackOf(s, e.t)).at, l) {
        TouchedOwner(s, e.t, e.cleaned, l);
      } else {
        UntouchedOwner(s, e.t, e.cleaned, l);
      }
    } else {
      assert OwnerInside(s, l);
      if HoldOf(s, l) != FREE {
        DepthKept(s, e, HoldOf(s, l).owner.value);
      }
    }
  }

  lemma HeldKept(s: State, e: Event)
    requires Shapes(s) && Table(s) && Guarded(s) && Held(s) && Enabled(s, e)
    ensures Held(Apply(s, e))
  {
    forall u ensures OwnsWhatItEntered(Apply(s, e), u) {
      if e.Step? && e.t == u && (Top(StackOf(s, u)).at.Want? || Top(StackOf(s, u)).at.Leave?) {
        StepOwns(s, u, e.cleaned);
      } else {
        OwnKept(s, e, u);
      }
    }
    forall l ensures OwnerInside(Apply(s, e), l) {
      OwnerKept(s, e, l);
    }
  }

  /** At most one thread is inside the section of a tenant. */
  lemma MutualExclusion(s: State, t: Thread, u: Thread)
    requires Held(s) && t != u && Depth(StackOf(s, t)) > 0 && Depth(StackOf(s, u)) > 0
    ensures StackOf(s, t)[0].call.tenant != StackOf(s, u)[0].call.tenant
  {
    assert OwnsWhatItEntered(s, t) && OwnsWhatItEntered(s, u);
  }

  lemma WriteKeepsUnique(rows: Rows, key: RowKey, hash: Option<string>)
    requires Unique(rows) && Sole(rows, key.tenant, key.doc, hash)
    ensures Unique(rows[key := hash])
  {
    var rows' := rows[key := hash];
    forall x | x in rows' ensures Sole(rows', x.tenant, x.doc, rows'[x]) {
      if x != key {
        assert Sole(rows, x.tenant, x.doc, rows[x]);
      }
    }
  }

  lemma RemovalKeepsUnique(rows: Rows, key: RowKey)
    requires Unique(rows)
    ensures Unique(rows - {key})
  {
    forall x | x in rows - {key} ensures Sole(rows - {key}, x.tenant, x.doc, rows[x]) {
      assert Sole(rows, x.tenant, x.doc, rows[x]);
    }
  }

  lemma UniqueKept(s: State, e: Event)
    requires Shapes(s) && Hashes(s) && Enabled(s, e)
    ensures Unique(Apply(s, e).rows)
  {
    match e {
      case ApiDelete(key) => RemovalKeepsUnique(s.rows, key);
      case Step(t, _) =>
        var k := StackOf(s, t);
        assert HashFits(s.rows, k);
        var call := Top(k).call;
        var key := RowKey(call.tenant, call.doc);
        match Top(k).at {
          case Save(_) => WriteKeepsUnique(s.rows, key, call.hash);
          case Clean(_) => RemovalKeepsUnique(s.rows, key);
          case Finish(_, final, _) => WriteKeepsUnique(s.rows, key, final);
          case _ =>
        }
      case _ =>
    }
  }

  lemma NextHashFits(rows: Rows, s: State, k: seq<Frame>, cleaned: bool)
    requires k != [] && Shape(k) && HashFits(rows, k) && Unique(rows) && rows == s.rows
    ensures HashFits(NextRows(rows, Top(k).call, Top(k).at, cleaned), NextStack(s, k, cleaned))
  {
  }

  lemma OwnHashFits(s: State, e: Event, t: Thread)
    requires Shapes(s) && Hashes(s) && Enabled(s, e) && Acts(e, t)
    ensures HashFits(Apply(s, e).rows, StackOf(Apply(s, e), t))
  {
    var k := StackOf(s, t);
    assert Shape(k) && HashFits(s.rows, k);
    if e.Step? {
      NextHashFits(s.rows, s, k, e.cleaned);
    }
  }

  lemma OtherHashFits(s: State, e: Event, u: Thread)
    requires Shapes(s) && Held(s) && Hashes(s) && Enabled(s, e) && !Acts(e, u)
    ensures HashFits(Apply(s, e).rows, StackOf(Apply(s, e), u))
  {
    var k := StackOf(s, u);
    OthersUntouched(s, e, u);
    assert Shape(k) && HashFits(s.rows, k);
    ShortDepth(k);
    if e.Step? && Depth(k) > 0 {
      var own := StackOf(s, e.t);
      assert Shape(own);
      ShortDepth(own);
      if Inside(Top(own).at) {
        MutualExclusion(s, e.t, u);
      }
    }
  }

  lemma HashesKept(s: State, e: Event)
    requires Shapes(s) && Held(s) && Hashes(s) && Enabled(s, e)
    ensures Hashes(Apply(s, e))
  {
    UniqueKept(s, e);
    forall u ensures HashFits(Apply(s, e).rows, StackOf(Apply(s, e), u)) {
      if Acts(e, u) {
        OwnHashFits(s, e, u);
      } else {
        OtherHashFits(s, e, u);
      }
    }
  }

  lemma InvariantKept(s: State, e: Event)
    requires Invariant(s) && Enabled(s, e)
    ensures Invariant(Apply(s, e))
  {
    ShapesKept(s, e);
    TableKept(s, e);
    GuardKept(s, e);
    HeldKept(s, e);
    HashesKept(s, e);
  }

  lemma {:induction false} RunsKeepInvariant(s: State, events: seq<Event>, u: State)
    requires Invariant(s) && Runs(s, events, u)
    ensures Invariant(u)
    decreases |events|
  {
    if events == [] {
    } else {
      InvariantKept(s, events[0]);
      RunsKeepInvariant(Apply(s, events[0]), events[1..], u);
    }
  }

  ghost predicate Reachable(s: State)
  {
    exists events :: Runs(INITIAL, events, s)
  }

  lemma ReachableInvariant(s: State)
    requires Reachable(s)
    ensures Invariant(s)
  {
    var events :| Runs(INITIAL, events, s);
    RunsKeepInvariant(INITIAL, events, s);
  }

  // ---------- the lock table ----------

  class RLock {
    var hold: Hold

    constructor ()
      ensures hold == FREE
    {
      hold := FREE;
    }
  }

  class DocumentIndexBuilder {
    var ingestLocks: map<string, RLock>

    constructor ()
      ensures ingestLocks == map[]
    {
      ingestLocks := map[];
    }

    /** The tenant's lock; made on the first request, the same object ever after. */
    method IngestLock(tenant: string) returns (lock: RLock)
      modifies this
      ensures ingestLocks == old(ingestLocks)[tenant := lock]
      ensures tenant in old(ingestLocks) ==> lock == old(ingestLocks)[tenant]
      ensures tenant !in old(ingestLocks) ==> fresh(lock) && lock.hold == FREE
    {
      if tenant in ingestLocks {
        lock := ingestLocks[tenant];
      } else {
        lock := new RLock();
        ingestLocks := ingestLocks[tenant := lock];
      }
    }
  }
}
