/** The Redis delivery queue: each Lua script, pipeline and BRPOPLPUSH is one atomic step. */
module RedisQueue {
  import opened Domain

  /** The keys of one queue.  List heads are at index 0; `processing[w]` belongs to worker w. */
  datatype Redis = Redis(
    pending: seq<Envelope>,
    processing: seq<seq<Envelope>>,
    dedupe: set<RunId>,
    registered: set<WorkerId>,
    leases: set<WorkerId>)

  datatype Op =
    | Skip
    | Enqueue(request: Request)
    | Beat(worker: WorkerId)
    | Pop(worker: WorkerId)
    | Ack(worker: WorkerId, receipt: Envelope)
    | Retry(worker: WorkerId, receipt: Envelope)
    | Recover(worker: WorkerId)
    | Lapse(worker: WorkerId)

  const EMPTY := Redis([], [], {}, {}, {})

  /** LREM key 1 item: drop the first occurrence, counting from the head. */
  function LRem(list: seq<Envelope>, item: Envelope): seq<Envelope> {
    if list == [] then []
    else if list[0] == item then list[1..]
    else [list[0]] + LRem(list[1..], item)
  }

  /** The list of worker w; a key that was never written is an empty list. */
  function Held(q: Redis, w: WorkerId): seq<Envelope> {
    if w < |q.processing| then q.processing[w] else []
  }

  function Blank(n: nat): (lists: seq<seq<Envelope>>)
    ensures |lists| == n && forall i | 0 <= i < n :: lists[i] == []
  {
    if n == 0 then [] else [[]] + Blank(n - 1)
  }

  function SetHeld(q: Redis, w: WorkerId, list: seq<Envelope>): (q': Redis)
    ensures forall v: WorkerId :: Held(q', v) == if v == w then list else Held(q, v)
    ensures q' == q.(processing := q'.processing)
  {
    if w < |q.processing| then q.(processing := q.processing[w := list])
    else q.(processing := q.processing + Blank(w - |q.processing|) + [list])
  }

  function Bumped(e: Envelope): Envelope { e.(attempts := e.attempts + 1) }

  function Step(q: Redis, op: Op): Redis {
    match op
    case Skip => q
    case Enqueue(request) =>
      if request.runId in q.dedupe then q
      else q.(dedupe := q.dedupe + {request.runId}, pending := [Envelope(request, 0)] + q.pending)
    case Beat(w) =>
      q.(registered := q.registered + {w}, leases := q.leases + {w})
    case Pop(w) =>
      if q.pending == [] then q
      else
        var last := |q.pending| - 1;
        SetHeld(q, w, [q.pending[last]] + Held(q, w)).(pending := q.pending[..last])
    case Ack(w, receipt) =>
      if receipt in Held(q, w) then
        SetHeld(q, w, LRem(Held(q, w), receipt)).(dedupe := q.dedupe - {receipt.request.runId})
      else q
    case Retry(w, receipt) =>
      if receipt in Held(q, w) then
        SetHeld(q, w, LRem(Held(q, w), receipt)).(pending := [Bumped(receipt)] + q.pending)
      else q
    case Recover(w) =>
      if w in q.leases then q
      else SetHeld(q, w, []).(pending := Held(q, w) + q.pending, registered := q.registered - {w})
    case Lapse(w) =>
      q.(leases := q.leases - {w})
  }

  function Steps(q: Redis, ops: seq<Op>): Redis
    decreases |ops|
  {
    if ops == [] then q else Step(Steps(q, ops[..|ops| - 1]), ops[|ops| - 1])
  }

  // ---- accounting: weighted sums over every entry of the queue ----

  /** Two ways of weighing an entry: count a run's entries, or its attempts still allowed. */
  datatype Measure = Occurrences(run: RunId) | Budget(run: RunId, maxAttempts: int)

  function Weight(m: Measure, e: Envelope): int {
    match m
    case Occurrences(run) => if e.request.runId == run then 1 else 0
    case Budget(run, max) => if e.request.runId == run then max - e.attempts else 0
  }

  function Sum(m: Measure, list: seq<Envelope>): int {
    if list == [] then 0 else Weight(m, list[0]) + Sum(m, list[1..])
  }

  function SumAll(m: Measure, lists: seq<seq<Envelope>>): int {
    if lists == [] then 0 else Sum(m, lists[0]) + SumAll(m, lists[1..])
  }

  function Total(m: Measure, q: Redis): int {
    Sum(m, q.pending) + SumAll(m, q.processing)
  }

  /** The dedupe set names exactly the runs with an entry, and each has exactly one. */
  ghost predicate Conserved(q: Redis) {
    forall run :: Total(Occurrences(run), q) == (if run in q.dedupe then 1 else 0)
  }

  lemma {:induction false} SumAppend(m: Measure, a: seq<Envelope>, b: seq<Envelope>)
    ensures Sum(m, a + b) == Sum(m, a) + Sum(m, b)
  {
    if a == [] {
      assert a + b == b;
    } else {
      assert (a + b)[1..] == a[1..] + b;
      SumAppend(m, a[1..], b);
    }
  }

  lemma {:induction false} SumLRem(m: Measure, list: seq<Envelope>, item: Envelope)
    requires item in list
    ensures Sum(m, LRem(list, item)) == Sum(m, list) - Weight(m, item)
  {
    if list[0] != item {
      SumLRem(m, list[1..], item);
      assert ([list[0]] + LRem(list[1..], item))[1..] == LRem(list[1..], item);
    }
  }

  lemma {:induction false} SumAllAppend(m: Measure, a: seq<seq<Envelope>>, b: seq<seq<Envelope>>)
    ensures SumAll(m, a + b) == SumAll(m, a) + SumAll(m, b)
  {
    if a == [] {
      assert a + b == b;
    } else {
      assert (a + b)[1..] == a[1..] + b;
      SumAllAppend(m, a[1..], b);
    }
  }

  lemma {:induction false} SumAllBlank(m: Measure, n: nat)
    ensures SumAll(m, Blank(n)) == 0
  {
    if n > 0 { SumAllBlank(m, n - 1); }
  }

  lemma SumSetHeld(m: Measure, q: Redis, w: WorkerId, list: seq<Envelope>)
    ensures SumAll(m, SetHeld(q, w, list).processing)
         == SumAll(m, q.processing) - Sum(m, Held(q, w)) + Sum(m, list)
  {
    var lists := q.processing;
    if w < |lists| {
      assert lists == lists[..w] + ([lists[w]] + lists[w + 1..]);
      assert lists[w := list] == lists[..w] + ([list] + lists[w + 1..]);
      SumAllAppend(m, lists[..w], [lists[w]] + lists[w + 1..]);
      SumAllAppend(m, lists[..w], [list] + lists[w + 1..]);
    } else {
      var blank := Blank(w - |lists|);
      SumAllBlank(m, w - |lists|);
      SumAllAppend(m, lists, blank);
      SumAllAppend(m, lists + blank, [list]);
    }
  }

  /** What one step does to any weighted sum: the ledger behind every count below. */
  lemma Ledger(m: Measure, q: Redis, op: Op)
    ensures Total(m, Step(q, op)) == Total(m, q) + match op {
      case Enqueue(request) => if request.runId in q.dedupe then 0 else Weight(m, Envelope(request, 0))
      case Ack(w, e) => if e in Held(q, w) then -Weight(m, e) else 0
      case Retry(w, e) => if e in Held(q, w) then Weight(m, Bumped(e)) - Weight(m, e) else 0
      case _ => 0 }
  {
    match op
    case Pop(w) =>
      if q.pending != [] {
        var last := |q.pending| - 1;
        assert q.pending == q.pending[..last] + [q.pending[last]];
        SumAppend(m, q.pending[..last], [q.pending[last]]);
        SumSetHeld(m, q, w, [q.pending[last]] + Held(q, w));
      }
    case Ack(w, e) =>
      if e in Held(q, w) {
        SumLRem(m, Held(q, w), e);
        SumSetHeld(m, q, w, LRem(Held(q, w), e));
      }
    case Retry(w, e) =>
      if e in Held(q, w) {
        SumLRem(m, Held(q, w), e);
        SumSetHeld(m, q, w, LRem(Held(q, w), e));
      }
    case Recover(w) =>
      if w !in q.leases {
        SumAppend(m, Held(q, w), q.pending);
        SumSetHeld(m, q, w, []);
      }
    case _ =>
  }

  lemma {:induction false} SumBounds(run: RunId, list: seq<Envelope>)
    ensures 0 <= Sum(Occurrences(run), list)
    ensures Sum(Occurrences(run), list) == 0 <==> forall e <- list :: e.request.runId != run
  {
    if list != [] {
      SumBounds(run, list[1..]);
      assert list == [list[0]] + list[1..];
    }
  }

  lemma {:induction false} SumAllBounds(run: RunId, lists: seq<seq<Envelope>>)
    ensures 0 <= SumAll(Occurrences(run), lists)
    ensures forall w | 0 <= w < |lists| ::
      Sum(Occurrences(run), lists[w]) <= SumAll(Occurrences(run), lists)
    ensures forall v, w | 0 <= v < w < |lists| ::
      Sum(Occurrences(run), lists[v]) + Sum(Occurrences(run), lists[w]) <= SumAll(Occurrences(run), lists)
  {
    if lists != [] {
      SumBounds(run, lists[0]);
      SumAllBounds(run, lists[1..]);
      forall w | 0 <= w < |lists|
        ensures Sum(Occurrences(run), lists[w]) <= SumAll(Occurrences(run), lists)
      {
        if w > 0 { assert lists[w] == lists[1..][w - 1]; }
      }
      forall v, w | 0 <= v < w < |lists|
        ensures Sum(Occurrences(run), lists[v]) + Sum(Occurrences(run), lists[w])
             <= SumAll(Occurrences(run), lists)
      {
        assert lists[w] == lists[1..][w - 1];
        if v > 0 { assert lists[v] == lists[1..][v - 1]; }
      }
    }
  }

  /** An entry in a processing list keeps its run in the dedupe set and out of every other list. */
  lemma HeldOnce(q: Redis, w: WorkerId, e: Envelope)
    requires Conserved(q) && e in Held(q, w)
    ensures e.request.runId in q.dedupe
    ensures forall p <- q.pending :: p.request.runId != e.request.runId
    ensures forall v: WorkerId, d | v != w && d in Held(q, v) :: d.request.runId != e.request.runId
    ensures Sum(Occurrences(e.request.runId), Held(q, w)) == 1
  {
    var run := e.request.runId;
    SumBounds(run, q.pending);
    SumBounds(run, Held(q, w));
    SumAllBounds(run, q.processing);
    assert Total(Occurrences(run), q) == (if run in q.dedupe then 1 else 0);
    forall v: WorkerId, d | v != w && d in Held(q, v)
      ensures d.request.runId != run
    {
      SumBounds(run, Held(q, v));
      var low, high := Min(v, w), Max(v, w);
      assert Sum(Occurrences(run), q.processing[low]) + Sum(Occurrences(run), q.processing[high])
        <= SumAll(Occurrences(run), q.processing);
    }
  }

  /** One step of any worker, with any receipt however stale, keeps one entry per known run. */
  lemma StepConserves(q: Redis, op: Op)
    requires Conserved(q)
    ensures Conserved(Step(q, op))
  {
    var q' := Step(q, op);
    forall run
      ensures Total(Occurrences(run), q') == (if run in q'.dedupe then 1 else 0)
    {
      Ledger(Occurrences(run), q, op);
      assert Total(Occurrences(run), q) == (if run in q.dedupe then 1 else 0);
      if op.Ack? && op.receipt in Held(q, op.worker) {
        HeldOnce(q, op.worker, op.receipt);
      }
    }
  }

  /** After any sequence of queue operations each run of the dedupe set has exactly one entry. */
  lemma {:induction false} Conservation(ops: seq<Op>)
    ensures Conserved(Steps(EMPTY, ops))
    decreases |ops|
  {
    if ops != [] {
      Conservation(ops[..|ops| - 1]);
      StepConserves(Steps(EMPTY, ops[..|ops| - 1]), ops[|ops| - 1]);
    }
  }

  // ---- attempts ----

  /** Does this step settle a delivery of `run`, by removing it or by sending it round again? */
  predicate Settles(q: Redis, op: Op, run: RunId) {
    (op.Ack? || op.Retry?) && op.receipt in Held(q, op.worker) && op.receipt.request.runId == run
  }

  predicate Admits(q: Redis, op: Op, run: RunId) {
    op.Enqueue? && op.request.runId == run && run !in q.dedupe
  }

  function Outcomes(q: Redis, ops: seq<Op>, run: RunId): nat
    decreases |ops|
  {
    if ops == [] then 0
    else
      var before := ops[..|ops| - 1];
      Outcomes(q, before, run) + if Settles(Steps(q, before), ops[|ops| - 1], run) then 1 else 0
  }

  function Admissions(q: Redis, ops: seq<Op>, run: RunId): nat
    decreases |ops|
  {
    if ops == [] then 0
    else
      var before := ops[..|ops| - 1];
      Admissions(q, before, run) + if Admits(Steps(q, before), ops[|ops| - 1], run) then 1 else 0
  }

  /** Entries stay within the retry limit as long as only retries allowed by it are made. */
  predicate WithinLimit(list: seq<Envelope>, max: int) {
    forall e <- list :: e.attempts <= Domain.Max(0, max - 1)
  }

  ghost predicate AllWithinLimit(q: Redis, max: int) {
    WithinLimit(q.pending, max) && forall w: WorkerId :: WithinLimit(Held(q, w), max)
  }

  predicate AllowedRetry(op: Op, max: int) {
    op.Retry? ==> op.receipt.attempts + 1 < max
  }

  lemma {:induction false} LRemSubset(list: seq<Envelope>, item: Envelope)
    ensures forall e <- LRem(list, item) :: e in list
  {
    if list != [] && list[0] != item { LRemSubset(list[1..], item); }
  }

  lemma StepWithinLimit(q: Redis, op: Op, max: int)
    requires AllWithinLimit(q, max) && AllowedRetry(op, max)
    ensures AllWithinLimit(Step(q, op), max)
  {
    assert WithinLimit(q.pending, max);
    match op {
    case Ack(w, receipt) => LRemSubset(Held(q, w), receipt);
    case Retry(w, receipt) => LRemSubset(Held(q, w), receipt);
    case _ =>
    }
    forall v: WorkerId ensures WithinLimit(Held(Step(q, op), v), max) {
      assert WithinLimit(Held(q, v), max);
    }
  }

  lemma SettlingSpends(q: Redis, op: Op, run: RunId, max: int)
    requires max >= 1 && AllWithinLimit(q, max) && AllowedRetry(op, max)
    ensures Settles(q, op, run) ==> Total(Budget(run, max), Step(q, op)) < Total(Budget(run, max), q)
    ensures Admits(q, op, run) ==> Total(Budget(run, max), Step(q, op)) == Total(Budget(run, max), q) + max
    ensures !Settles(q, op, run) && !Admits(q, op, run)
        ==> Total(Budget(run, max), Step(q, op)) == Total(Budget(run, max), q)
  {
    Ledger(Budget(run, max), q, op);
    if Settles(q, op, run) {
      assert WithinLimit(Held(q, op.worker), max);
    }
  }

  lemma OneMore(max: int, n: nat)
    ensures max * (n + 1) == max * n + max
  {
  }

  /** Every outcome spends the run's budget, and only an admission refills it: a run that was
      admitted once settles at most `max` times, however its deliveries interleave. */
  lemma {:induction false} OutcomesBounded(ops: seq<Op>, run: RunId, max: int)
    requires max >= 1 && forall op <- ops :: AllowedRetry(op, max)
    ensures AllWithinLimit(Steps(EMPTY, ops), max)
    ensures Outcomes(EMPTY, ops, run) + Total(Budget(run, max), Steps(EMPTY, ops))
         <= max * Admissions(EMPTY, ops, run)
    decreases |ops|
  {
    if ops != [] {
      var before, op := ops[..|ops| - 1], ops[|ops| - 1];
      var q := Steps(EMPTY, before);
      OutcomesBounded(before, run, max);
      StepWithinLimit(q, op, max);
      SettlingSpends(q, op, run, max);
      OneMore(max, Admissions(EMPTY, before, run));
    }
  }

  lemma {:induction false} BudgetNonNegative(run: RunId, max: int, list: seq<Envelope>)
    requires max >= 1 && WithinLimit(list, max)
    ensures Sum(Budget(run, max), list) >= Sum(Occurrences(run), list)
  {
    if list != [] { BudgetNonNegative(run, max, list[1..]); }
  }

  lemma {:induction false} BudgetsNonNegative(run: RunId, max: int, lists: seq<seq<Envelope>>)
    requires max >= 1 && forall list <- lists :: WithinLimit(list, max)
    ensures SumAll(Budget(run, max), lists) >= SumAll(Occurrences(run), lists)
  {
    if lists != [] {
      BudgetNonNegative(run, max, lists[0]);
      BudgetsNonNegative(run, max, lists[1..]);
    }
  }

  /** A run settles at most `max` times per admission, and after the last it has left the queue. */
  lemma LeavesAfterMaxOutcomes(ops: seq<Op>, run: RunId, max: int)
    requires max >= 1 && forall op <- ops :: AllowedRetry(op, max)
    ensures Outcomes(EMPTY, ops, run) <= max * Admissions(EMPTY, ops, run)
    ensures Outcomes(EMPTY, ops, run) == max * Admissions(EMPTY, ops, run)
        ==> run !in Steps(EMPTY, ops).dedupe
  {
    var q := Steps(EMPTY, ops);
    OutcomesBounded(ops, run, max);
    Conservation(ops);
    BudgetNonNegative(run, max, q.pending);
    forall list <- q.processing ensures WithinLimit(list, max) {
      var w :| 0 <= w < |q.processing| && q.processing[w] == list;
      assert list == Held(q, w);
    }
    BudgetsNonNegative(run, max, q.processing);
    assert Total(Occurrences(run), q) == (if run in q.dedupe then 1 else 0);
  }
}
