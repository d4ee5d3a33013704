/** Embedding and storing the chunks of a document, batch by batch, under any sequence of
    embedding and storage failures.

    A batch is embedded with up to three calls and stored in two transactions, one for each
    database; when either fails its rows are stored one by one. What befalls a batch is an
    arbitrary parameter, so the accounting holds for every sequence of failures. */
module EmbeddingStore {
  import opened Options
  import opened TenantStore
  import SectionChunks
  import Text

  type Size = SectionChunks.Size
  type Item = SectionChunks.Item

  datatype Kind = Rejected | Timeout | Other

  /** One embedding call: some number of vectors, or a classified failure. */
  datatype Attempt = Vectors(n: nat) | Failure(kind: Kind)

  /** What befalls one batch. `attempts(k)` is the k-th embedding call; `failAt` the row at
      which the metadata batch raises; `row*` the fates of the rows when stored one by one. */
  datatype Fate = Fate(attempts: nat -> Attempt, vectorsFail: bool, failAt: nat, indexed: nat -> bool,
                       rowVectorFails: nat -> bool, rowFails: nat -> bool)

  datatype Counts = Counts(rejected: nat, timeout: nat, other: nat, store: nat)

  const NO_FAILURE := Counts(0, 0, 0, 0)

  function Lost(c: Counts): nat { c.rejected + c.timeout + c.other + c.store }

  predicate Accounted(stored: nat, c: Counts, n: nat) { stored + Lost(c) == n }

  function Count(c: Counts, kind: Kind, n: nat): (r: Counts)
    ensures Lost(r) == Lost(c) + n
  {
    match kind
    case Rejected => c.(rejected := c.rejected + n)
    case Timeout => c.(timeout := c.timeout + n)
    case Other => c.(other := c.other + n)
  }

  /** The warning that makes a loss visible. */
  datatype Warning = Warning(lost: nat, total: nat, counts: Counts)

  const MAX_ATTEMPTS: nat := 3

  // ---------- retries ----------

  /** Result of the calls from the k-th on: the vectors, if any call gave some, and the kind
      of the last failure. A rejection is final. */
  function Embedded(attempts: nat -> Attempt, k: nat, kind: Kind): (Option<nat>, Kind)
    requires k <= MAX_ATTEMPTS
    decreases MAX_ATTEMPTS - k
  {
    if k == MAX_ATTEMPTS then (None, kind)
    else match attempts(k)
      case Vectors(n) => (Some(n), kind)
      case Failure(Rejected) => (None, Rejected)
      case Failure(next) => Embedded(attempts, k + 1, next)
  }

  method EmbedBatch(attempts: nat -> Attempt) returns (vectors: Option<nat>, kind: Kind, calls: nat)
    ensures (vectors, kind) == Embedded(attempts, 0, Other)
    ensures 1 <= calls <= MAX_ATTEMPTS && Retried(attempts, calls - 1)
  {
    vectors, kind, calls := None, Other, 0;
    while calls < MAX_ATTEMPTS
      invariant calls <= MAX_ATTEMPTS && vectors == None
      invariant Embedded(attempts, 0, Other) == Embedded(attempts, calls, kind)
      invariant Retried(attempts, calls)
    {
      var outcome := attempts(calls);
      calls := calls + 1;
      match outcome {
        case Vectors(n) => return Some(n), kind, calls;
        case Failure(next) =>
          kind := next;
          if next == Rejected {
            return None, kind, calls;
          }
      }
    }
  }

  /** The first `k` calls failed, none of them by a rejection. */
  predicate Retried(attempts: nat -> Attempt, k: nat)
  {
    forall j :: 0 <= j < k ==> attempts(j).Failure? && attempts(j).kind != Rejected
  }

  /** Call `k` is the last one and gave vectors. */
  predicate Answered(attempts: nat -> Attempt, k: nat)
  {
    k < MAX_ATTEMPTS && Retried(attempts, k) && attempts(k).Vectors?
  }

  /** Call `k` is the last one because it was rejected. */
  predicate Refused(attempts: nat -> Attempt, k: nat)
  {
    k < MAX_ATTEMPTS && Retried(attempts, k) && attempts(k) == Failure(Rejected)
  }

  predicate Exhausted(attempts: nat -> Attempt) { Retried(attempts, MAX_ATTEMPTS) }

  /** The kind of the failure just before call `k`. */
  function KindBefore(attempts: nat -> Attempt, k: nat): Kind
    requires Retried(attempts, k)
  {
    if k == 0 then Other else attempts(k - 1).kind
  }

  lemma {:induction false} EmbeddedFrom(attempts: nat -> Attempt, k: nat) returns (last: nat)
    requires k <= MAX_ATTEMPTS && Retried(attempts, k)
    ensures k <= last <= MAX_ATTEMPTS && Retried(attempts, last)
    ensures last < MAX_ATTEMPTS ==> Answered(attempts, last) || Refused(attempts, last)
    ensures Embedded(attempts, k, KindBefore(attempts, k)) ==
      if last == MAX_ATTEMPTS then (None, KindBefore(attempts, last))
      else if attempts(last).Vectors? then (Some(attempts(last).n), KindBefore(attempts, last))
      else (None, Rejected)
    decreases MAX_ATTEMPTS - k
  {
    if k == MAX_ATTEMPTS || attempts(k).Vectors? || attempts(k) == Failure(Rejected) {
      last := k;
    } else {
      last := EmbeddedFrom(attempts, k + 1);
    }
  }

  /** What up to three calls come to, told from the calls alone: vectors or a rejection after
      failures that were retried, or only failures. The kind that is kept is that of the last
      failure, also when vectors came after it. */
  lemma EmbeddingOutcome(attempts: nat -> Attempt) returns (last: nat)
    ensures last <= MAX_ATTEMPTS && Retried(attempts, last)
    ensures last < MAX_ATTEMPTS ==> Answered(attempts, last) || Refused(attempts, last)
    ensures Embedded(attempts, 0, Other) ==
      if last == MAX_ATTEMPTS then (None, attempts(MAX_ATTEMPTS - 1).kind)
      else if attempts(last).Vectors? then (Some(attempts(last).n), KindBefore(attempts, last))
      else (None, Rejected)
  {
    last := EmbeddedFrom(attempts, 0);
  }

  lemma LastCallUnique(attempts: nat -> Attempt, a: nat, b: nat)
    requires Answered(attempts, a) || Refused(attempts, a)
    requires Answered(attempts, b) || Refused(attempts, b) || (b == MAX_ATTEMPTS && Exhausted(attempts))
    ensures a == b
  {
  }

  // ---------- which bucket a chunk is lost to ----------

  /** Rows of `from..to` whose own store fails. */
  function RowFailures(rowFails: nat -> bool, from: nat, to: nat): (n: nat)
    requires from <= to
    ensures n <= to - from
  {
    if from == to then 0
    else RowFailures(rowFails, from, to - 1) + if rowFails(to - 1) then 1 else 0
  }

  predicate FallsBack(fate: Fate, size: nat)
  {
    fate.vectorsFail || fate.failAt < size
  }

  /** The buckets once the batch `from..to` has met its fate. */
  function BatchCounts(c: Counts, fate: Fate, from: nat, to: nat): Counts
    requires from < to
  {
    var (vectors, kind) := Embedded(fate.attempts, 0, Other);
    if vectors != Some(to - from) then Count(c, kind, to - from)
    else if FallsBack(fate, to - from) then c.(store := c.store + RowFailures(fate.rowFails, from, to))
    else c
  }

  function BatchEnd(from: nat, batchSize: Size, n: nat): (to: nat)
    requires from < n
    ensures from < to <= n && to - from <= batchSize
  {
    if from + batchSize < n then from + batchSize else n
  }

  /** The buckets after the batches from number `batchNo` on. */
  function CountsFrom(c: Counts, fates: nat -> Fate, batchNo: nat, from: nat, batchSize: Size, n: nat): Counts
    requires from <= n
    decreases n - from
  {
    if from == n then c
    else
      var to := BatchEnd(from, batchSize, n);
      CountsFrom(BatchCounts(c, fates(batchNo), from, to), fates, batchNo + 1, to, batchSize, n)
  }

  /** The batch of this size is counted in the bucket `kind`: a call was rejected; or all
      calls failed, the last one in this way; or a call gave a wrong number of vectors, and
      the call before it, if any, had failed in this way. */
  ghost predicate LostTo(attempts: nat -> Attempt, size: nat, kind: Kind)
  {
    || (kind == Rejected && exists k :: Refused(attempts, k))
    || (Exhausted(attempts) && attempts(MAX_ATTEMPTS - 1).kind == kind)
    || (exists k :: Answered(attempts, k) && attempts(k).n != size && KindBefore(attempts, k) == kind)
  }

  ghost predicate Usable(attempts: nat -> Attempt, size: nat)
  {
    exists k :: Answered(attempts, k) && attempts(k).n == size
  }

  lemma LostToIff(attempts: nat -> Attempt, size: nat, kind: Kind)
    ensures var (vectors, last) := Embedded(attempts, 0, Other);
      && (vectors == Some(size) <==> Usable(attempts, size))
      && (vectors != Some(size) && last == kind <==> LostTo(attempts, size, kind))
  {
    var last := EmbeddingOutcome(attempts);
    forall k | Answered(attempts, k) || Refused(attempts, k) ensures k == last {
      LastCallUnique(attempts, k, last);
    }
  }

  function FailedRows(rowFails: nat -> bool, from: nat, to: nat): set<nat>
  {
    set r: nat | from <= r < to && rowFails(r)
  }

  lemma {:induction false} RowFailuresCounted(rowFails: nat -> bool, from: nat, to: nat)
    requires from <= to
    ensures RowFailures(rowFails, from, to) == |FailedRows(rowFails, from, to)|
  {
    if from < to {
      RowFailuresCounted(rowFails, from, to - 1);
      var before := FailedRows(rowFails, from, to - 1);
      assert FailedRows(rowFails, from, to) == before + (if rowFails(to - 1) then {to - 1} else {});
    } else {
      assert FailedRows(rowFails, from, to) == {};
    }
  }

  /** Rows of the batches, from number `batchNo` on, whose calls lost them to this kind. */
  ghost function RowsLostTo(kind: Kind, fates: nat -> Fate, batchNo: nat, from: nat, batchSize: Size, n: nat): nat
    requires from <= n
    decreases n - from
  {
    if from == n then 0
    else
      var to := BatchEnd(from, batchSize, n);
      (if LostTo(fates(batchNo).attempts, to - from, kind) then to - from else 0)
        + RowsLostTo(kind, fates, batchNo + 1, to, batchSize, n)
  }

  /** Rows that were embedded, whose batch could not be stored as a whole, and whose own
      store failed. */
  ghost function RowsLostInStore(fates: nat -> Fate, batchNo: nat, from: nat, batchSize: Size, n: nat): nat
    requires from <= n
    decreases n - from
  {
    if from == n then 0
    else
      var to, fate := BatchEnd(from, batchSize, n), fates(batchNo);
      (if Usable(fate.attempts, to - from) && FallsBack(fate, to - from)
       then |FailedRows(fate.rowFails, from, to)| else 0)
        + RowsLostInStore(fates, batchNo + 1, to, batchSize, n)
  }

  lemma BatchBuckets(c: Counts, fate: Fate, from: nat, to: nat)
    requires from < to
    ensures var end, size := BatchCounts(c, fate, from, to), to - from;
      && end.rejected == c.rejected + (if LostTo(fate.attempts, size, Rejected) then size else 0)
      && end.timeout == c.timeout + (if LostTo(fate.attempts, size, Timeout) then size else 0)
      && end.other == c.other + (if LostTo(fate.attempts, size, Other) then size else 0)
      && end.store == c.store + (if Usable(fate.attempts, size) && FallsBack(fate, size)
                                 then |FailedRows(fate.rowFails, from, to)| else 0)
  {
    LostToIff(fate.attempts, to - from, Rejected);
    LostToIff(fate.attempts, to - from, Timeout);
    LostToIff(fate.attempts, to - from, Other);
    RowFailuresCounted(fate.rowFails, from, to);
  }

  /** Every bucket, told from what the calls and the stores did: no other row is counted in
      it. */
  lemma {:induction false} BucketsExact(c: Counts, fates: nat -> Fate, batchNo: nat, from: nat, batchSize: Size, n: nat)
    requires from <= n
    ensures var end := CountsFrom(c, fates, batchNo, from, batchSize, n);
      && end.rejected == c.rejected + RowsLostTo(Rejected, fates, batchNo, from, batchSize, n)
      && end.timeout == c.timeout + RowsLostTo(Timeout, fates, batchNo, from, batchSize, n)
      && end.other == c.other + RowsLostTo(Other, fates, batchNo, from, batchSize, n)
      && end.store == c.store + RowsLostInStore(fates, batchNo, from, batchSize, n)
    decreases n - from
  {
    if from == n {
    } else {
      var to := BatchEnd(from, batchSize, n);
      BatchBuckets(c, fates(batchNo), from, to);
      BucketsExact(BatchCounts(c, fates(batchNo), from, to), fates, batchNo + 1, to, batchSize, n);
    }
  }

  // ---------- when the bucket names the cause ----------

  /** Why a batch has no usable vectors: no call gave any, and the last one failed in this
      way; or a call gave so many. */
  datatype Cause = NoAnswer(kind: Kind) | WrongCount(n: nat)

  ghost predicate CausedBy(attempts: nat -> Attempt, size: nat, cause: Cause)
  {
    match cause
    case NoAnswer(kind) =>
      || (kind == Rejected && exists k :: Refused(attempts, k))
      || (Exhausted(attempts) && attempts(MAX_ATTEMPTS - 1).kind == kind)
    case WrongCount(n) => n != size && exists k :: Answered(attempts, k) && attempts(k).n == n
  }

  /** The bucket names the cause. A wrong number of vectors is none of the other kinds. */
  ghost predicate RightlyBlamed(attempts: nat -> Attempt, size: nat, kind: Kind)
  {
    CausedBy(attempts, size, NoAnswer(kind)) || (kind == Other && exists n :: CausedBy(attempts, size, WrongCount(n)))
  }

  /** A batch is counted in a bucket that names another cause exactly when a call gave a
      wrong number of vectors right after a call that had timed out. */
  lemma BlameIff(attempts: nat -> Attempt, size: nat, kind: Kind)
    requires LostTo(attempts, size, kind)
    ensures RightlyBlamed(attempts, size, kind) <==>
      !exists k :: 0 < k && Answered(attempts, k) && attempts(k).n != size && attempts(k - 1) == Failure(Timeout)
  {
    var last := EmbeddingOutcome(attempts);
    forall k | Answered(attempts, k) || Refused(attempts, k) ensures k == last {
      LastCallUnique(attempts, k, last);
    }
    if Answered(attempts, last) && attempts(last).n != size {
      assert CausedBy(attempts, size, WrongCount(attempts(last).n));
    }
  }

  /** Such a batch: the first call times out, the second gives no vector for the one row. */
  lemma TimeoutBlamedForWrongCount()
    ensures var attempts: nat -> Attempt := k => if k == 0 then Failure(Timeout) else Vectors(0);
      && LostTo(attempts, 1, Timeout) && CausedBy(attempts, 1, WrongCount(0))
      && !RightlyBlamed(attempts, 1, Timeout)
  {
    var attempts: nat -> Attempt := k => if k == 0 then Failure(Timeout) else Vectors(0);
    assert Answered(attempts, 1) && KindBefore(attempts, 1) == Timeout;
    BlameIff(attempts, 1, Timeout);
  }

  // ---------- rows ----------

  function RowOf(doc: string, it: Item): ChunkRow
  {
    ChunkRow(doc, it.id, it.num, it.idx, it.path, it.title, it.text)
  }

  function RowsOf(doc: string, items: seq<Item>): seq<ChunkRow>
  {
    seq(|items|, k requires 0 <= k < |items| => RowOf(doc, items[k]))
  }

  /** Rows at the given positions. */
  function Pick(rows: seq<ChunkRow>, at: seq<nat>): seq<ChunkRow>
    requires forall j :: 0 <= j < |at| ==> at[j] < |rows|
  {
    seq(|at|, j requires 0 <= j < |at| => rows[at[j]])
  }

  predicate Positions(at: seq<nat>, bound: nat)
  {
    forall j :: 0 <= j < |at| ==> at[j] < bound
  }

  predicate AscendingPositions(at: seq<nat>)
  {
    forall i, j :: 0 <= i < j < |at| ==> at[i] < at[j]
  }

  function Range(from: nat, to: nat): seq<nat>
    requires from <= to
  {
    seq(to - from, j requires 0 <= j < to - from => from + j)
  }

  // ---------- which rows are kept, and which vectors are sent ----------

  /** The rows of `from..to` that do not fail. */
  function Surviving(fails: nat -> bool, from: nat, to: nat): (r: seq<nat>)
    requires from <= to
    ensures forall j :: 0 <= j < |r| ==> r[j] < to
  {
    if from == to then []
    else Surviving(fails, from, to - 1) + if fails(to - 1) then [] else [to - 1]
  }

  function BatchKept(fate: Fate, from: nat, to: nat): seq<nat>
    requires from <= to
  {
    if FallsBack(fate, to - from) then Surviving(fate.rowFails, from, to) else Range(from, to)
  }

  /** The vectors of the batch, unless that fails, and again row by row after a failure. */
  function BatchSent(fate: Fate, from: nat, to: nat): seq<nat>
    requires from <= to
  {
    (if fate.vectorsFail then [] else Range(from, to)) +
    (if FallsBack(fate, to - from) then Surviving(fate.rowVectorFails, from, to) else [])
  }

  lemma SentAsKept(fate: Fate, from: nat, to: nat)
    requires from <= to
    ensures !FallsBack(fate, to - from) ==> BatchSent(fate, from, to) == BatchKept(fate, from, to)
  {
  }

  predicate EmbeddedAs(fate: Fate, size: nat) { Embedded(fate.attempts, 0, Other).0 == Some(size) }

  function KeptOf(fate: Fate, from: nat, to: nat): seq<nat>
    requires from <= to
  {
    if EmbeddedAs(fate, to - from) then BatchKept(fate, from, to) else []
  }

  function SentOf(fate: Fate, from: nat, to: nat): seq<nat>
    requires from <= to
  {
    if EmbeddedAs(fate, to - from) then BatchSent(fate, from, to) else []
  }

  function AllKept(fates: nat -> Fate, batchNo: nat, from: nat, batchSize: Size, n: nat): seq<nat>
    requires from <= n
    decreases n - from
  {
    if from == n then []
    else
      var to := BatchEnd(from, batchSize, n);
      KeptOf(fates(batchNo), from, to) + AllKept(fates, batchNo + 1, to, batchSize, n)
  }

  function AllSent(fates: nat -> Fate, batchNo: nat, from: nat, batchSize: Size, n: nat): seq<nat>
    requires from <= n
    decreases n - from
  {
    if from == n then []
    else
      var to := BatchEnd(from, batchSize, n);
      SentOf(fates(batchNo), from, to) + AllSent(fates, batchNo + 1, to, batchSize, n)
  }

  lemma NextKept(kept: seq<nat>, sent: seq<nat>, fates: nat -> Fate, batchNo: nat, from: nat, batchSize: Size, n: nat)
    requires from < n
    ensures var to := BatchEnd(from, batchSize, n);
      && kept + AllKept(fates, batchNo, from, batchSize, n)
         == (kept + KeptOf(fates(batchNo), from, to)) + AllKept(fates, batchNo + 1, to, batchSize, n)
      && sent + AllSent(fates, batchNo, from, batchSize, n)
         == (sent + SentOf(fates(batchNo), from, to)) + AllSent(fates, batchNo + 1, to, batchSize, n)
  {
    var to := BatchEnd(from, batchSize, n);
    Text.Assoc(kept, KeptOf(fates(batchNo), from, to), AllKept(fates, batchNo + 1, to, batchSize, n));
    Text.Assoc(sent, SentOf(fates(batchNo), from, to), AllSent(fates, batchNo + 1, to, batchSize, n));
  }

  // ---------- what has been written ----------

  /** The metadata database gained exactly the rows at `kept`, in order, each once. */
  ghost predicate MetaGained(m: Meta, m': Meta, rows: seq<ChunkRow>, kept: seq<nat>, flags: seq<bool>)
  {
    && Positions(kept, |rows|) && AscendingPositions(kept) && |flags| == |kept|
    && m' == SavedChunks(m, Pick(rows, kept), flags)
  }

  /** The vector database was sent exactly the rows at `sent`, in order. */
  ghost predicate VectorsSent(v: Vectors, v': Vectors, rows: seq<ChunkRow>, sent: seq<nat>)
  {
    Positions(sent, |rows|) && v' == StoredVectors(v, Pick(rows, sent))
  }

  /** Both, with only rows before `to` kept. */
  ghost predicate Written(m: Meta, m': Meta, v: Vectors, v': Vectors, rows: seq<ChunkRow>,
                          kept: seq<nat>, flags: seq<bool>, sent: seq<nat>, to: nat)
  {
    && MetaGained(m, m', rows, kept, flags) && VectorsSent(v, v', rows, sent)
    && forall j :: 0 <= j < |kept| ==> kept[j] < to
  }

  lemma SavedSnoc(m: Meta, m': Meta, rows: seq<ChunkRow>, kept: seq<nat>, flags: seq<bool>, k: nat, flag: bool)
    requires MetaGained(m, m', rows, kept, flags) && k < |rows|
    requires forall j :: 0 <= j < |kept| ==> kept[j] < k
    ensures MetaGained(m, SavedChunk(m', rows[k], flag), rows, kept + [k], flags + [flag])
  {
    assert Pick(rows, kept + [k]) == Pick(rows, kept) + [rows[k]];
    assert (Pick(rows, kept) + [rows[k]])[..|kept|] == Pick(rows, kept);
    assert (flags + [flag])[..|kept|] == flags;
  }

  lemma {:induction false} SavedAppend(m: Meta, a: seq<ChunkRow>, fa: seq<bool>, b: seq<ChunkRow>, fb: seq<bool>)
    requires |a| == |fa| && |b| == |fb|
    ensures SavedChunks(m, a + b, fa + fb) == SavedChunks(SavedChunks(m, a, fa), b, fb)
    decreases |b|
  {
    if b == [] {
      assert a + b == a && fa + fb == fa;
    } else {
      var k := |b| - 1;
      SavedAppend(m, a, fa, b[..k], fb[..k]);
      assert (a + b)[..|a| + k] == a + b[..k] && (fa + fb)[..|a| + k] == fa + fb[..k];
    }
  }

  lemma SavedBatch(m: Meta, m': Meta, rows: seq<ChunkRow>, kept: seq<nat>, flags: seq<bool>,
                   from: nat, to: nat, more: seq<bool>)
    requires MetaGained(m, m', rows, kept, flags) && from <= to <= |rows| && |more| == to - from
    requires forall j :: 0 <= j < |kept| ==> kept[j] < from
    ensures MetaGained(m, SavedChunks(m', rows[from..to], more), rows, kept + Range(from, to), flags + more)
  {
    SavedAppend(m, Pick(rows, kept), flags, rows[from..to], more);
    assert Pick(rows, kept + Range(from, to)) == Pick(rows, kept) + rows[from..to];
  }

  lemma StoredSnoc(v: Vectors, rows: seq<ChunkRow>, row: ChunkRow)
    ensures StoredVectors(v, rows + [row]) == StoredVectors(v, rows)[KeyOf(row) := VectorOf(row)]
  {
    var all := rows + [row];
    assert all[..|all| - 1] == rows && all[|all| - 1] == row;
  }

  lemma PickSnoc(rows: seq<ChunkRow>, at: seq<nat>, k: nat)
    requires Positions(at, |rows|) && k < |rows|
    ensures Positions(at + [k], |rows|) && Pick(rows, at + [k]) == Pick(rows, at) + [rows[k]]
  {
  }

  lemma SentSnoc(v: Vectors, v': Vectors, rows: seq<ChunkRow>, sent: seq<nat>, k: nat)
    requires VectorsSent(v, v', rows, sent) && k < |rows|
    ensures VectorsSent(v, v'[KeyOf(rows[k]) := VectorOf(rows[k])], rows, sent + [k])
  {
    PickSnoc(rows, sent, k);
    StoredSnoc(v, Pick(rows, sent), rows[k]);
  }

  lemma {:induction false} StoredAppend(v: Vectors, a: seq<ChunkRow>, b: seq<ChunkRow>)
    ensures StoredVectors(v, a + b) == StoredVectors(StoredVectors(v, a), b)
    decreases |b|
  {
    if b == [] {
      assert a + b == a;
    } else {
      var k := |b| - 1;
      StoredAppend(v, a, b[..k]);
      assert (a + b)[..|a| + k] == a + b[..k];
    }
  }

  lemma SentBatch(v: Vectors, v': Vectors, rows: seq<ChunkRow>, sent: seq<nat>, from: nat, to: nat)
    requires VectorsSent(v, v', rows, sent) && from <= to <= |rows|
    ensures VectorsSent(v, StoredVectors(v', rows[from..to]), rows, sent + Range(from, to))
  {
    StoredAppend(v, Pick(rows, sent), rows[from..to]);
    assert Pick(rows, sent + Range(from, to)) == Pick(rows, sent) + rows[from..to];
  }

  // ---------- the program ----------

  /** Stores the rows `from..to` one by one. Each either reaches the metadata database or is
      counted; its vector may be missing without notice. */
  method StoreOneByOne(db: TenantMetadataDB, vdb: TenantVectorDB, rows: seq<ChunkRow>, from: nat, to: nat, fate: Fate,
                       ghost m: Meta, ghost v: Vectors, ghost kept: seq<nat>, ghost flags: seq<bool>, ghost sent: seq<nat>)
    returns (stored: nat, failed: nat, ghost kept': seq<nat>, ghost flags': seq<bool>, ghost sent': seq<nat>)
    requires from <= to <= |rows|
    requires Written(m, db.State(), v, vdb.l2Chunks, rows, kept, flags, sent, from)
    modifies db, vdb
    ensures Written(m, db.State(), v, vdb.l2Chunks, rows, kept', flags', sent', to)
    ensures failed == RowFailures(fate.rowFails, from, to)
    ensures stored + failed == to - from && |kept'| == |kept| + stored
    ensures kept' == kept + Surviving(fate.rowFails, from, to)
    ensures sent' == sent + Surviving(fate.rowVectorFails, from, to)
  {
    stored, failed := 0, 0;
    kept', flags', sent' := kept, flags, sent;
    for k := from to to
      invariant Written(m, db.State(), v, vdb.l2Chunks, rows, kept', flags', sent', k)
      invariant failed == RowFailures(fate.rowFails, from, k)
      invariant stored + failed == k - from && |kept'| == |kept| + stored
      invariant kept' == kept + Surviving(fate.rowFails, from, k)
      invariant sent' == sent + Surviving(fate.rowVectorFails, from, k)
    {
      NextSurviving(kept, fate.rowFails, from, k);
      NextSurviving(sent, fate.rowVectorFails, from, k);
      var raised;
      raised, kept', flags', sent' := StoreRow(db, vdb, rows, k, fate, m, v, kept', flags', sent');
      if raised {
        failed := failed + 1;
      } else {
        stored := stored + 1;
      }
    }
  }

  lemma NextSurviving(s: seq<nat>, fails: nat -> bool, from: nat, k: nat)
    requires from <= k
    ensures s + Surviving(fails, from, k + 1) == s + Surviving(fails, from, k) + if fails(k) then [] else [k]
  {
    Text.Assoc(s, Surviving(fails, from, k), if fails(k) then [] else [k]);
  }

  /** One row: its vector, whose failure is swallowed, then the row itself. */
  method StoreRow(db: TenantMetadataDB, vdb: TenantVectorDB, rows: seq<ChunkRow>, k: nat, fate: Fate,
                  ghost m: Meta, ghost v: Vectors, ghost kept: seq<nat>, ghost flags: seq<bool>, ghost sent: seq<nat>)
    returns (raised: bool, ghost kept': seq<nat>, ghost flags': seq<bool>, ghost sent': seq<nat>)
    requires k < |rows|
    requires Written(m, db.State(), v, vdb.l2Chunks, rows, kept, flags, sent, k)
    modifies db, vdb
    ensures Written(m, db.State(), v, vdb.l2Chunks, rows, kept', flags', sent', k + 1)
    ensures raised == fate.rowFails(k)
    ensures kept' == kept + (if fate.rowFails(k) then [] else [k])
    ensures sent' == sent + (if fate.rowVectorFails(k) then [] else [k])
  {
    var row := rows[k];
    kept', flags', sent' := kept, flags, sent;
    SentSnoc(v, vdb.l2Chunks, rows, sent, k);
    vdb.StoreL2Chunk(row, fate.rowVectorFails(k));
    if !fate.rowVectorFails(k) {
      sent' := sent + [k];
    }
    SavedSnoc(m, db.State(), rows, kept, flags, k, fate.indexed(k));
    raised := db.SaveChunk(row, fate.indexed(k), fate.rowFails(k));
    if !raised {
      kept', flags' := kept + [k], flags + [fate.indexed(k)];
    }
  }

  /** Tries to store a batch in two transactions, one for each database. */
  method StoreTogether(db: TenantMetadataDB, vdb: TenantVectorDB, rows: seq<ChunkRow>, from: nat, to: nat, fate: Fate,
                       ghost m: Meta, ghost v: Vectors, ghost kept: seq<nat>, ghost flags: seq<bool>, ghost sent: seq<nat>)
    returns (raised: bool, ghost kept': seq<nat>, ghost flags': seq<bool>, ghost sent': seq<nat>)
    requires from < to <= |rows|
    requires Written(m, db.State(), v, vdb.l2Chunks, rows, kept, flags, sent, from)
    modifies db, vdb
    ensures Written(m, db.State(), v, vdb.l2Chunks, rows, kept', flags', sent', to)
    ensures raised == FallsBack(fate, to - from)
    ensures if raised then kept' == kept && flags' == flags else kept' == kept + Range(from, to)
    ensures sent' == sent + (if fate.vectorsFail then [] else Range(from, to))
  {
    var batch := rows[from..to];
    kept', flags', sent' := kept, flags, sent;
    SentBatch(v, vdb.l2Chunks, rows, sent, from, to);
    raised := vdb.StoreL2Chunks(batch, fate.vectorsFail);
    if !raised {
      sent' := sent + Range(from, to);
      var indexed := seq(|batch|, j requires 0 <= j < |batch| => fate.indexed(from + j));
      SavedBatch(m, db.State(), rows, kept, flags, from, to, indexed);
      var ids;
      raised, ids := db.SaveChunks(batch, indexed, fate.failAt);
      if !raised {
        kept', flags' := kept + Range(from, to), flags + indexed;
      }
    }
  }

  /** Stores one embedded batch: both transactions, or row by row when either of them fails. */
  method StoreBatch(db: TenantMetadataDB, vdb: TenantVectorDB, rows: seq<ChunkRow>, from: nat, to: nat, fate: Fate,
                    ghost m: Meta, ghost v: Vectors, ghost kept: seq<nat>, ghost flags: seq<bool>, ghost sent: seq<nat>)
    returns (stored: nat, failed: nat, fellBack: bool,
             ghost kept': seq<nat>, ghost flags': seq<bool>, ghost sent': seq<nat>)
    requires from < to <= |rows|
    requires Written(m, db.State(), v, vdb.l2Chunks, rows, kept, flags, sent, from)
    modifies db, vdb
    ensures Written(m, db.State(), v, vdb.l2Chunks, rows, kept', flags', sent', to)
    ensures stored + failed == to - from && |kept'| == |kept| + stored
    ensures fellBack == FallsBack(fate, to - from)
    ensures failed == if fellBack then RowFailures(fate.rowFails, from, to) else 0
    ensures kept' == kept + BatchKept(fate, from, to) && sent' == sent + BatchSent(fate, from, to)
  {
    fellBack, kept', flags', sent' := StoreTogether(db, vdb, rows, from, to, fate, m, v, kept, flags, sent);
    stored, failed := to - from, 0;
    if fellBack {
      stored, failed, kept', flags', sent' :=
        StoreOneByOne(db, vdb, rows, from, to, fate, m, v, kept', flags', sent');
      Text.Assoc(sent, if fate.vectorsFail then [] else Range(from, to), Surviving(fate.rowVectorFails, from, to));
    }
  }

  /** Embeds and stores one batch on top of what was stored and lost before it. */
  method EmbedAndStore(db: TenantMetadataDB, vdb: TenantVectorDB, rows: seq<ChunkRow>, from: nat, to: nat, fate: Fate,
                       stored: nat, counts: Counts, ghost m: Meta, ghost v: Vectors,
                       ghost kept: seq<nat>, ghost flags: seq<bool>, ghost sent: seq<nat>)
    returns (stored': nat, counts': Counts, fellBack: bool,
             ghost kept': seq<nat>, ghost flags': seq<bool>, ghost sent': seq<nat>)
    requires from < to <= |rows| && Accounted(stored, counts, from) && |kept| == stored
    requires Written(m, db.State(), v, vdb.l2Chunks, rows, kept, flags, sent, from)
    modifies db, vdb
    ensures Written(m, db.State(), v, vdb.l2Chunks, rows, kept', flags', sent', to)
    ensures counts' == BatchCounts(counts, fate, from, to)
    ensures Accounted(stored', counts', to) && |kept'| == stored'
    ensures !fellBack && kept == sent ==> kept' == sent'
    ensures kept' == kept + KeptOf(fate, from, to) && sent' == sent + SentOf(fate, from, to)
  {
    var vectors, kind, calls := EmbedBatch(fate.attempts);
    if vectors.None? || vectors.value != to - from {
      return stored, Count(counts, kind, to - from), false, kept, flags, sent;
    }
    var ok, failed;
    SentAsKept(fate, from, to);
    ok, failed, fellBack, kept', flags', sent' := StoreBatch(db, vdb, rows, from, to, fate, m, v, kept, flags, sent);
    stored', counts' := stored + ok, counts.(store := counts.store + failed);
  }

  method StoreRows(db: TenantMetadataDB, vdb: TenantVectorDB, rows: seq<ChunkRow>, batchSize: Size, fates: nat -> Fate)
    returns (stored: nat, counts: Counts, fellBack: bool,
             ghost kept: seq<nat>, ghost flags: seq<bool>, ghost sent: seq<nat>)
    modifies db, vdb
    ensures counts == CountsFrom(NO_FAILURE, fates, 0, 0, batchSize, |rows|)
    ensures Accounted(stored, counts, |rows|) && |kept| == stored
    ensures MetaGained(old(db.State()), db.State(), rows, kept, flags)
    ensures VectorsSent(old(vdb.l2Chunks), vdb.l2Chunks, rows, sent)
    ensures !fellBack ==> kept == sent
    ensures kept == AllKept(fates, 0, 0, batchSize, |rows|) && sent == AllSent(fates, 0, 0, batchSize, |rows|)
  {
    ghost var m, v := db.State(), vdb.l2Chunks;
    ghost var allKept := AllKept(fates, 0, 0, batchSize, |rows|);
    ghost var allSent := AllSent(fates, 0, 0, batchSize, |rows|);
    stored, counts, fellBack := 0, NO_FAILURE, false;
    kept, flags, sent := [], [], [];
    NothingWritten(m, v, rows);
    var from: nat, batchNo: nat := 0, 0;
    while from < |rows|
      invariant from <= |rows|
      invariant CountsFrom(NO_FAILURE, fates, 0, 0, batchSize, |rows|)
             == CountsFrom(counts, fates, batchNo, from, batchSize, |rows|)
      invariant Accounted(stored, counts, from)
      invariant |kept| == stored
      invariant Written(m, db.State(), v, vdb.l2Chunks, rows, kept, flags, sent, from)
      invariant !fellBack ==> kept == sent
      invariant allKept == kept + AllKept(fates, batchNo, from, batchSize, |rows|)
      invariant allSent == sent + AllSent(fates, batchNo, from, batchSize, |rows|)
      decreases |rows| - from
    {
      var to := BatchEnd(from, batchSize, |rows|);
      NextKept(kept, sent, fates, batchNo, from, batchSize, |rows|);
      var fell;
      stored, counts, fell, kept, flags, sent :=
        EmbedAndStore(db, vdb, rows, from, to, fates(batchNo), stored, counts, m, v, kept, flags, sent);
      fellBack := fellBack || fell;
      from, batchNo := to, batchNo + 1;
    }
  }

  lemma NothingWritten(m: Meta, v: Vectors, rows: seq<ChunkRow>)
    ensures MetaGained(m, m, rows, [], []) && VectorsSent(v, v, rows, [])
  {
    assert Pick(rows, []) == [];
  }

  /** Embeds and stores the kept chunks. Whatever fails, every chunk ends up either stored or
      in exactly one failure bucket, a warning is issued exactly when something was lost,
      and the metadata database gains each stored chunk exactly once, in order. */
  method StoreEmbeddings(db: TenantMetadataDB, vdb: TenantVectorDB, doc: string, items: seq<Item>,
                         batchSize: Size, fates: nat -> Fate)
    returns (warning: Option<Warning>, stored: nat, counts: Counts, fellBack: bool,
             ghost kept: seq<nat>, ghost flags: seq<bool>, ghost sent: seq<nat>)
    modifies db, vdb
    ensures stored + counts.rejected + counts.timeout + counts.other + counts.store == |items|
    ensures counts == CountsFrom(NO_FAILURE, fates, 0, 0, batchSize, |items|)
    ensures warning.Some? <==> stored < |items|
    ensures warning.Some? ==> warning.value == Warning(|items| - stored, |items|, counts)
    ensures |kept| == stored
    ensures MetaGained(old(db.State()), db.State(), RowsOf(doc, items), kept, flags)
    ensures VectorsSent(old(vdb.l2Chunks), vdb.l2Chunks, RowsOf(doc, items), sent)
    ensures !fellBack ==> kept == sent
    ensures kept == AllKept(fates, 0, 0, batchSize, |items|) && sent == AllSent(fates, 0, 0, batchSize, |items|)
  {
    stored, counts, fellBack, kept, flags, sent := StoreRows(db, vdb, RowsOf(doc, items), batchSize, fates);
    warning := if stored == |items| then None else Some(Warning(|items| - stored, |items|, counts));
  }

  // ---------- what the written rows are ----------

  /** Stored rows get consecutive new ids, and older rows are untouched. */
  lemma {:induction false} SavedChunksRows(m: Meta, rows: seq<ChunkRow>, flags: seq<bool>)
    requires |rows| == |flags| && forall k :: k in m.chunks ==> k < m.nextChunk
    ensures var s := SavedChunks(m, rows, flags);
      && s.nextChunk == m.nextChunk + |rows|
      && (forall k :: k in s.chunks <==> k in m.chunks || m.nextChunk <= k < m.nextChunk + |rows|)
      && (forall k :: k in m.chunks ==> s.chunks[k] == m.chunks[k])
      && (forall j :: 0 <= j < |rows| ==> s.chunks[m.nextChunk + j] == rows[j])
    decreases |rows|
  {
    if rows != [] {
      var k := |rows| - 1;
      SavedChunksRows(m, rows[..k], flags[..k]);
      assert forall j :: 0 <= j < k ==> rows[..k][j] == rows[j];
    }
  }

  /** The row has text and its index insert went through. */
  predicate IndexedRow(rows: seq<ChunkRow>, flags: seq<bool>, j: int)
    requires |rows| == |flags|
  {
    0 <= j < |rows| && rows[j].text != "" && flags[j]
  }

  /** A stored row is in the index under its id exactly when it has text and its index insert
      went through; older index rows are untouched. */
  lemma {:induction false} SavedChunksIndex(m: Meta, rows: seq<ChunkRow>, flags: seq<bool>)
    requires |rows| == |flags| && forall k :: k in m.chunksFts ==> k < m.nextChunk
    ensures var s := SavedChunks(m, rows, flags);
      && s.nextChunk == m.nextChunk + |rows|
      && (forall k :: k in s.chunksFts <==> k in m.chunksFts || IndexedRow(rows, flags, k - m.nextChunk))
      && (forall k :: k in m.chunksFts ==> s.chunksFts[k] == m.chunksFts[k])
      && (forall k :: k in s.chunksFts && k !in m.chunksFts ==> s.chunksFts[k] == rows[k - m.nextChunk].text)
    decreases |rows|
  {
    if rows != [] {
      var n := |rows| - 1;
      SavedChunksIndex(m, rows[..n], flags[..n]);
      forall k ensures IndexedRow(rows, flags, k) <==>
        IndexedRow(rows[..n], flags[..n], k) || (k == n && rows[n].text != "" && flags[n])
      {
      }
    }
  }

  /** Storing chunks touches no other table. */
  lemma {:induction false} SavedChunksOnly(m: Meta, rows: seq<ChunkRow>, flags: seq<bool>)
    requires |rows| == |flags|
    ensures var s := SavedChunks(m, rows, flags);
      s == m.(chunks := s.chunks, chunksFts := s.chunksFts, nextChunk := s.nextChunk)
    decreases |rows|
  {
    if rows != [] {
      SavedChunksOnly(m, rows[..|rows| - 1], flags[..|rows| - 1]);
    }
  }

  /** The j-th chunk row that is written carries its chunk's page, index, section and text. */
  lemma StoredChunkRow(m: Meta, m': Meta, doc: string, items: seq<Item>, kept: seq<nat>, flags: seq<bool>, j: nat)
    requires (forall k :: k in m.chunks ==> k < m.nextChunk) && MetaGained(m, m', RowsOf(doc, items), kept, flags)
    requires j < |kept|
    ensures kept[j] < |items| && m.nextChunk + j in m'.chunks
    ensures var it := items[kept[j]];
      m'.chunks[m.nextChunk + j] == ChunkRow(doc, it.id, it.num, it.idx, it.path, it.title, it.text)
  {
    var rows := Pick(RowsOf(doc, items), kept);
    SavedChunksRows(m, rows, flags);
    assert rows[j] == RowOf(doc, items[kept[j]]);
  }

  /** With distinct storage keys no chunk has two metadata rows. */
  lemma NoChunkStoredTwice(m: Meta, m': Meta, doc: string, items: seq<Item>, kept: seq<nat>, flags: seq<bool>, a: nat, b: nat)
    requires (forall k :: k in m.chunks ==> k < m.nextChunk) && SectionChunks.DistinctKeys(items)
    requires MetaGained(m, m', RowsOf(doc, items), kept, flags)
    requires m.nextChunk <= a < b && a in m'.chunks && b in m'.chunks
    ensures KeyOf(m'.chunks[a]) != KeyOf(m'.chunks[b])
  {
    var rows := Pick(RowsOf(doc, items), kept);
    SavedChunksRows(m, rows, flags);
    var i, j := a - m.nextChunk, b - m.nextChunk;
    assert m'.chunks[m.nextChunk + i] == rows[i] && m'.chunks[m.nextChunk + j] == rows[j];
    assert kept[i] < kept[j];
    assert items[kept[i]].id != items[kept[j]].id || items[kept[i]].idx != items[kept[j]].idx;
  }

  predicate KeysDistinct(rows: seq<ChunkRow>)
  {
    forall i, j :: 0 <= i < j < |rows| ==> KeyOf(rows[i]) != KeyOf(rows[j])
  }

  /** A vector that was sent is there with its own text: replacing on the same key only ever
      replaces a chunk by itself. */
  lemma {:induction false} SentVectorsIntact(v: Vectors, rows: seq<ChunkRow>, sent: seq<nat>, j: nat)
    requires KeysDistinct(rows) && Positions(sent, |rows|) && j < |sent|
    ensures var stored := StoredVectors(v, Pick(rows, sent));
      var key := VectorKey(rows[sent[j]].pageId, rows[sent[j]].idx);
      key in stored && stored[key] == VectorRow(rows[sent[j]].doc, rows[sent[j]].text)
    decreases |sent|
  {
    var n := |sent| - 1;
    var init := sent[..n];
    assert Pick(rows, sent)[..n] == Pick(rows, init);
    if j < n {
      SentVectorsIntact(v, rows, init, j);
      assert init[j] == sent[j];
      assert sent[j] != sent[n] ==> KeyOf(rows[sent[j]]) != KeyOf(rows[sent[n]]);
    }
  }

  lemma ItemKeysDistinct(doc: string, items: seq<Item>)
    requires SectionChunks.DistinctKeys(items)
    ensures KeysDistinct(RowsOf(doc, items))
  {
  }

  /** Chunk assembly and storage together: for the chunks of any document whose pages have
      distinct ids, no stored vector ever overwrites another chunk. */
  lemma DocumentVectorsIntact(cfg: SectionChunks.Config, pages: seq<SectionChunks.Page>, chunkSize: Size,
                              maxChunks: nat, doc: string, v: Vectors, sent: seq<nat>, j: nat)
    requires SectionChunks.DistinctIds(pages)
    requires var items := SectionChunks.DocumentItems(cfg, pages, chunkSize, maxChunks);
      Positions(sent, |items|) && j < |sent|
    ensures var items := SectionChunks.DocumentItems(cfg, pages, chunkSize, maxChunks);
      var stored, it := StoredVectors(v, Pick(RowsOf(doc, items), sent)), items[sent[j]];
      VectorKey(it.id, it.idx) in stored && stored[VectorKey(it.id, it.idx)] == VectorRow(doc, it.text)
  {
    SectionChunks.VectorKeysDistinct(cfg, pages, chunkSize, maxChunks);
    var items := SectionChunks.DocumentItems(cfg, pages, chunkSize, maxChunks);
    ItemKeysDistinct(doc, items);
    SentVectorsIntact(v, RowsOf(doc, items), sent, j);
  }

  // ---------- ownership ----------

  /** Assembly sends vectors only under page ids issued for the document: the transaction that
      stores them is one the consistency of the databases allows. */
  lemma AssembledVectorsAllowed(cfg: SectionChunks.Config, pages: seq<SectionChunks.Page>, chunkSize: Size,
                                maxChunks: nat, doc: string, s: System, sent: seq<nat>)
    requires SectionChunks.DistinctIds(pages)
    requires forall k :: 0 <= k < |pages| ==> pages[k].id in s.issued && s.issued[pages[k].id] == doc
    requires Positions(sent, |SectionChunks.DocumentItems(cfg, pages, chunkSize, maxChunks)|)
    ensures Allowed(s, StoreVectors(Pick(RowsOf(doc, SectionChunks.DocumentItems(cfg, pages, chunkSize, maxChunks)), sent)))
  {
    SectionChunks.VectorKeysDistinct(cfg, pages, chunkSize, maxChunks);
    var items := SectionChunks.DocumentItems(cfg, pages, chunkSize, maxChunks);
    forall j | 0 <= j < |sent| ensures items[sent[j]].id in s.issued && s.issued[items[sent[j]].id] == doc {
      assert SectionChunks.OwnPage(pages, items[sent[j]].id, items[sent[j]].num);
    }
  }

  // ---------- vectors without a row ----------

  /** The batch a row belongs to. */
  datatype Batch = Batch(no: nat, from: nat, to: nat)

  function BatchAt(batchNo: nat, from: nat, batchSize: Size, n: nat, k: nat): (b: Batch)
    requires from <= k < n
    ensures from <= b.from <= k < b.to <= n && batchNo <= b.no
    decreases n - from
  {
    var to := BatchEnd(from, batchSize, n);
    if k < to then Batch(batchNo, from, to) else BatchAt(batchNo + 1, to, batchSize, n, k)
  }

  lemma {:induction false} SurvivingIff(fails: nat -> bool, from: nat, to: nat, k: nat)
    requires from <= to
    ensures k in Surviving(fails, from, to) <==> from <= k < to && !fails(k)
  {
    if from < to {
      SurvivingIff(fails, from, to - 1, k);
    }
  }

  lemma RangeIff(from: nat, to: nat, k: nat)
    requires from <= to
    ensures k in Range(from, to) <==> from <= k < to
  {
    if from <= k < to {
      assert Range(from, to)[k - from] == k;
    }
  }

  lemma KeptOfIff(fate: Fate, from: nat, to: nat, k: nat)
    requires from <= to
    ensures k in KeptOf(fate, from, to) <==> from <= k < to && RowKept(fate, to - from, k)
    ensures k in SentOf(fate, from, to) <==> from <= k < to && VectorKept(fate, to - from, k)
  {
    SurvivingIff(fate.rowFails, from, to, k);
    SurvivingIff(fate.rowVectorFails, from, to, k);
    RangeIff(from, to, k);
  }

  predicate RowKept(fate: Fate, size: nat, k: nat)
  {
    EmbeddedAs(fate, size) && !(FallsBack(fate, size) && fate.rowFails(k))
  }

  predicate VectorKept(fate: Fate, size: nat, k: nat)
  {
    EmbeddedAs(fate, size) && !(fate.vectorsFail && fate.rowVectorFails(k))
  }

  predicate RowKeptAt(fates: nat -> Fate, b: Batch, k: nat)
    requires b.from <= b.to
  {
    RowKept(fates(b.no), b.to - b.from, k)
  }

  predicate VectorKeptAt(fates: nat -> Fate, b: Batch, k: nat)
    requires b.from <= b.to
  {
    VectorKept(fates(b.no), b.to - b.from, k)
  }

  lemma InAppend<T>(x: T, a: seq<T>, b: seq<T>)
    ensures x in a + b <==> x in a || x in b
  {
  }

  lemma {:induction false} KeptIff(fates: nat -> Fate, batchNo: nat, from: nat, batchSize: Size, n: nat, k: nat)
    requires from <= n
    ensures k < from ==> k !in AllKept(fates, batchNo, from, batchSize, n)
    ensures from <= k < n ==>
      (k in AllKept(fates, batchNo, from, batchSize, n) <==> RowKeptAt(fates, BatchAt(batchNo, from, batchSize, n, k), k))
    decreases n - from
  {
    if from < n {
      var to := BatchEnd(from, batchSize, n);
      KeptOfIff(fates(batchNo), from, to, k);
      KeptIff(fates, batchNo + 1, to, batchSize, n, k);
      InAppend(k, KeptOf(fates(batchNo), from, to), AllKept(fates, batchNo + 1, to, batchSize, n));
    }
  }

  lemma {:induction false} SentIff(fates: nat -> Fate, batchNo: nat, from: nat, batchSize: Size, n: nat, k: nat)
    requires from <= n
    ensures k < from ==> k !in AllSent(fates, batchNo, from, batchSize, n)
    ensures from <= k < n ==>
      (k in AllSent(fates, batchNo, from, batchSize, n) <==> VectorKeptAt(fates, BatchAt(batchNo, from, batchSize, n, k), k))
    decreases n - from
  {
    if from < n {
      var to := BatchEnd(from, batchSize, n);
      KeptOfIff(fates(batchNo), from, to, k);
      SentIff(fates, batchNo + 1, to, batchSize, n, k);
      InAppend(k, SentOf(fates(batchNo), from, to), AllSent(fates, batchNo + 1, to, batchSize, n));
    }
  }

  /** The chunk was embedded, its batch could not be stored as a whole, its own row failed,
      and one of the two stores of its vector went through. */
  ghost predicate Orphaned(fate: Fate, size: nat, k: nat)
  {
    && Usable(fate.attempts, size) && FallsBack(fate, size)
    && fate.rowFails(k) && !(fate.vectorsFail && fate.rowVectorFails(k))
  }

  lemma OrphanedIff(fate: Fate, size: nat, k: nat)
    ensures VectorKept(fate, size, k) && !RowKept(fate, size, k) <==> Orphaned(fate, size, k)
  {
    LostToIff(fate.attempts, size, Other);
  }

  /** A chunk's vector stays behind without a metadata row exactly when the chunk is orphaned
      by the fate of its batch. */
  lemma OrphanVectorIff(fates: nat -> Fate, batchSize: Size, n: nat, k: nat)
    requires k < n
    ensures var b := BatchAt(0, 0, batchSize, n, k);
      k in AllSent(fates, 0, 0, batchSize, n) && k !in AllKept(fates, 0, 0, batchSize, n)
      <==> Orphaned(fates(b.no), b.to - b.from, k)
  {
    var b := BatchAt(0, 0, batchSize, n, k);
    KeptIff(fates, 0, 0, batchSize, n, k);
    SentIff(fates, 0, 0, batchSize, n, k);
    OrphanedIff(fates(b.no), b.to - b.from, k);
  }
}
