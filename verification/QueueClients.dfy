/** The two queue backends as objects, and the proof that one sequential worker cannot tell them apart. */
module QueueClients {
  import opened Domain
  import R = RedisQueue

  /** The Redis keys of one queue name, shared by every client of that queue. */
  class RedisServer {
    var pending: seq<Envelope>
    var processing: seq<seq<Envelope>>
    var dedupe: set<RunId>
    var registered: set<WorkerId>
    var leases: set<WorkerId>

    constructor ()
      ensures View() == R.EMPTY
    {
      pending, processing, dedupe, registered, leases := [], [], {}, {}, {};
    }

    function View(): R.Redis
      reads this
    {
      R.Redis(pending, processing, dedupe, registered, leases)
    }

    method Assign(q: R.Redis)
      modifies this
      ensures View() == q
    {
      pending, processing, dedupe := q.pending, q.processing, q.dedupe;
      registered, leases := q.registered, q.leases;
    }

    /** The recovery script: move the list of an expired worker back, one RPOP/LPUSH at a time. */
    method EvalRecover(w: WorkerId) returns (recovered: nat)
      modifies this
      ensures View() == R.Step(old(View()), R.Recover(w))
      ensures recovered == if w in old(leases) then 0 else |R.Held(old(View()), w)|
      ensures |pending| == |old(pending)| + recovered
    {
      if w in leases {
        return 0;
      }
      recovered := 0;
      var list := R.Held(View(), w);
      while list != []
        invariant recovered + |list| == |R.Held(old(View()), w)|
        invariant list == R.Held(old(View()), w)[..|list|]
        invariant pending == R.Held(old(View()), w)[|list|..] + old(pending)
        invariant View() == old(View()).(pending := pending)
        decreases |list|
      {
        var last := |list| - 1;
        pending := [list[last]] + pending;
        list := list[..last];
        recovered := recovered + 1;
      }
      Assign(R.SetHeld(View(), w, []));
      registered := registered - {w};
    }
  }

  class RedisAnalysisQueue {
    const redis: RedisServer
    const workerId: WorkerId

    constructor (redis: RedisServer, workerId: WorkerId)
      ensures this.redis == redis && this.workerId == workerId
    {
      this.redis := redis;
      this.workerId := workerId;
    }

    method Enqueue(request: Request) returns (created: bool)
      modifies redis
      ensures redis.View() == R.Step(old(redis.View()), R.Enqueue(request))
      ensures created <==> request.runId !in old(redis.dedupe)
      ensures request.runId in redis.dedupe
    {
      created := request.runId !in redis.dedupe;
      if created {
        redis.dedupe := redis.dedupe + {request.runId};
        redis.pending := [Envelope(request, 0)] + redis.pending;
      }
    }

    method Heartbeat()
      modifies redis
      ensures redis.View() == R.Step(old(redis.View()), R.Beat(workerId))
    {
      redis.registered := redis.registered + {workerId};
      redis.leases := redis.leases + {workerId};
    }

    /** Without interference: the heartbeat and then BRPOPLPUSH. */
    method Dequeue() returns (job: Option<Envelope>)
      modifies redis
      ensures redis.View() == R.Step(R.Step(old(redis.View()), R.Beat(workerId)), R.Pop(workerId))
      ensures job == if old(redis.pending) == [] then None else Some(old(redis.pending)[|old(redis.pending)| - 1])
      ensures job.Some? ==> job.value in R.Held(redis.View(), workerId)
    {
      Heartbeat();
      if redis.pending == [] {
        return None;
      }
      var last := |redis.pending| - 1;
      job := Some(redis.pending[last]);
      redis.pending := redis.pending[..last];
      redis.Assign(R.SetHeld(redis.View(), workerId, [job.value] + R.Held(redis.View(), workerId)));
    }

    method Acknowledge(job: Envelope)
      modifies redis
      ensures redis.View() == R.Step(old(redis.View()), R.Ack(workerId, job))
      ensures job !in R.Held(old(redis.View()), workerId) ==> redis.View() == old(redis.View())
    {
      var list := R.Held(redis.View(), workerId);
      if job in list {
        redis.Assign(R.SetHeld(redis.View(), workerId, R.LRem(list, job)));
        redis.dedupe := redis.dedupe - {job.request.runId};
      }
    }

    method Retry(job: Envelope)
      modifies redis
      ensures redis.View() == R.Step(old(redis.View()), R.Retry(workerId, job))
      ensures job !in R.Held(old(redis.View()), workerId) ==> redis.View() == old(redis.View())
    {
      var list := R.Held(redis.View(), workerId);
      if job in list {
        redis.Assign(R.SetHeld(redis.View(), workerId, R.LRem(list, job)));
        redis.pending := [R.Bumped(job)] + redis.pending;
      }
    }

    /** Recover every other worker of the snapshot; `ops` are the script calls, in the order made. */
    method RecoverOrphaned() returns (recovered: nat, ghost ops: seq<R.Op>)
      modifies redis
      ensures forall op <- ops :: op.Recover? && op.worker != workerId && op.worker in old(redis.registered)
      ensures redis.View() == R.Steps(old(redis.View()), ops)
      ensures redis.leases == old(redis.leases) && redis.dedupe == old(redis.dedupe)
      ensures recovered == |redis.pending| - |old(redis.pending)|
      ensures forall w <- old(redis.registered) | w != workerId && w !in redis.leases ::
        R.Held(redis.View(), w) == [] && w !in redis.registered
      ensures forall w: WorkerId | w == workerId || w in redis.leases || w !in old(redis.registered) ::
        R.Held(redis.View(), w) == R.Held(old(redis.View()), w)
      ensures forall w | w == workerId || w in redis.leases :: w in redis.registered <==> w in old(redis.registered)
    {
      recovered, ops := 0, [];
      var left := redis.registered;
      while left != {}
        invariant left <= old(redis.registered)
        invariant forall op <- ops :: op.Recover? && op.worker != workerId && op.worker in old(redis.registered)
        invariant redis.View() == R.Steps(old(redis.View()), ops)
        invariant redis.leases == old(redis.leases) && redis.dedupe == old(redis.dedupe)
        invariant recovered == |redis.pending| - |old(redis.pending)|
        invariant forall w <- old(redis.registered) | w !in left && w != workerId && w !in redis.leases ::
          R.Held(redis.View(), w) == [] && w !in redis.registered
        invariant forall w: WorkerId | w == workerId || w in redis.leases || w !in old(redis.registered) ::
          R.Held(redis.View(), w) == R.Held(old(redis.View()), w)
        invariant forall w | w == workerId || w in redis.leases :: w in redis.registered <==> w in old(redis.registered)
        decreases left
      {
        var w :| w in left;
        left := left - {w};
        if w != workerId {
          var moved := redis.EvalRecover(w);
          recovered := recovered + moved;
          assert (ops + [R.Recover(w)])[..|ops|] == ops;
          ops := ops + [R.Recover(w)];
        }
      }
    }
  }

  // ---- the in-process backend ----

  /** asyncio.Queue plus its count of unfinished tasks; the oldest entry is first. */
  datatype Memory = Memory(queue: seq<Envelope>, runIds: set<RunId>, unfinished: nat)

  const FRESH := Memory([], {}, 0)

  datatype Call = EnqueueCall(request: Request) | DequeueCall | AckCall | RetryCall | SizeCall

  /** `TaskDoneError` is the ValueError of asyncio.Queue.task_done called too often. */
  datatype Reply = Created(flag: bool) | Job(job: Option<Envelope>) | Settled | Count(n: nat) | TaskDoneError

  function MemoryStep(m: Memory, call: Call, held: Option<Envelope>): (Memory, Reply)
    requires call.AckCall? || call.RetryCall? ==> held.Some?
  {
    match call
    case EnqueueCall(request) =>
      if request.runId in m.runIds then (m, Created(false))
      else (Memory(m.queue + [Envelope(request, 0)], m.runIds + {request.runId}, m.unfinished + 1), Created(true))
    case DequeueCall =>
      if m.queue == [] then (m, Job(None)) else (m.(queue := m.queue[1..]), Job(Some(m.queue[0])))
    case AckCall =>
      if m.unfinished == 0 then (m, TaskDoneError)
      else (m.(unfinished := m.unfinished - 1, runIds := m.runIds - {held.value.request.runId}), Settled)
    case RetryCall =>
      if m.unfinished == 0 then (m, TaskDoneError)
      else (m.(queue := m.queue + [R.Bumped(held.value)]), Settled)
    case SizeCall => (m, Count(|m.queue|))
  }

  function RedisStep(q: R.Redis, w: WorkerId, call: Call, held: Option<Envelope>): (R.Redis, Reply)
    requires call.AckCall? || call.RetryCall? ==> held.Some?
  {
    match call
    case EnqueueCall(request) =>
      (R.Step(q, R.Enqueue(request)), Created(request.runId !in q.dedupe))
    case DequeueCall =>
      (R.Step(R.Step(q, R.Beat(w)), R.Pop(w)), Job(if q.pending == [] then None else Some(q.pending[|q.pending| - 1])))
    case AckCall => (R.Step(q, R.Ack(w, held.value)), Settled)
    case RetryCall => (R.Step(q, R.Retry(w, held.value)), Settled)
    case SizeCall => (q, Count(|q.pending|))
  }

  class InMemoryAnalysisQueue {
    var queue: seq<Envelope>
    var runIds: set<RunId>
    var unfinished: nat

    constructor ()
      ensures View() == FRESH
    {
      queue, runIds, unfinished := [], {}, 0;
    }

    function View(): Memory
      reads this
    {
      Memory(queue, runIds, unfinished)
    }

    method Enqueue(request: Request) returns (created: bool)
      modifies this
      ensures (View(), Created(created)) == MemoryStep(old(View()), EnqueueCall(request), None)
    {
      if request.runId in runIds {
        return false;
      }
      runIds := runIds + {request.runId};
      queue := queue + [Envelope(request, 0)];
      unfinished := unfinished + 1;
      created := true;
    }

    method Dequeue() returns (job: Option<Envelope>)
      modifies this
      ensures (View(), Job(job)) == MemoryStep(old(View()), DequeueCall, None)
    {
      if queue == [] {
        return None;
      }
      job := Some(queue[0]);
      queue := queue[1..];
    }

    method TaskDone() returns (ok: bool)
      modifies this`unfinished
      ensures ok <==> old(unfinished) > 0
      ensures unfinished == if ok then old(unfinished) - 1 else old(unfinished)
    {
      ok := unfinished > 0;
      if ok {
        unfinished := unfinished - 1;
      }
    }

    method Acknowledge(job: Envelope) returns (ok: bool)
      modifies this
      ensures (View(), if ok then Settled else TaskDoneError) == MemoryStep(old(View()), AckCall, Some(job))
    {
      ok := TaskDone();
      if ok {
        runIds := runIds - {job.request.runId};
      }
    }

    method Retry(job: Envelope) returns (ok: bool)
      modifies this
      ensures (View(), if ok then Settled else TaskDoneError) == MemoryStep(old(View()), RetryCall, Some(job))
    {
      ok := TaskDone();
      if ok {
        queue := queue + [R.Bumped(job)];
        unfinished := unfinished + 1;
      }
    }
  }

  // ---- simulation ----

  /** What the worker holds after a reply: one job at a time, settled before the next dequeue. */
  function HeldAfter(call: Call, held: Option<Envelope>, reply: Reply): Option<Envelope> {
    if call.DequeueCall? && reply.Job? then reply.job
    else if call.AckCall? || call.RetryCall? then None
    else held
  }

  predicate InTurn(call: Call, held: Option<Envelope>) {
    match call
    case DequeueCall => held.None?
    case AckCall => held.Some?
    case RetryCall => held.Some?
    case _ => true
  }

  /** The replies of a session; it stops at the first call made out of turn. */
  function MemorySession(m: Memory, held: Option<Envelope>, calls: seq<Call>): seq<Reply>
    decreases |calls|
  {
    if calls == [] || !InTurn(calls[0], held) then []
    else
      var (m', reply) := MemoryStep(m, calls[0], held);
      [reply] + MemorySession(m', HeldAfter(calls[0], held, reply), calls[1..])
  }

  function RedisSession(q: R.Redis, w: WorkerId, held: Option<Envelope>, calls: seq<Call>): seq<Reply>
    decreases |calls|
  {
    if calls == [] || !InTurn(calls[0], held) then []
    else
      var (q', reply) := RedisStep(q, w, calls[0], held);
      [reply] + RedisSession(q', w, HeldAfter(calls[0], held, reply), calls[1..])
  }

  function Reversed(s: seq<Envelope>): (r: seq<Envelope>)
    ensures |r| == |s|
    ensures forall i | 0 <= i < |s| :: r[i] == s[|s| - 1 - i]
  {
    if s == [] then [] else Reversed(s[1..]) + [s[0]]
  }

  ghost predicate Similar(m: Memory, q: R.Redis, w: WorkerId, held: Option<Envelope>) {
    && m.queue == Reversed(q.pending)
    && m.runIds == q.dedupe
    && m.unfinished == |m.queue| + (if held.Some? then 1 else 0)
    && R.Held(q, w) == (if held.Some? then [held.value] else [])
  }

  lemma SimilarStep(m: Memory, q: R.Redis, w: WorkerId, held: Option<Envelope>, call: Call)
    requires Similar(m, q, w, held) && InTurn(call, held)
    ensures var (m', reply) := MemoryStep(m, call, held);
      var (q', reply') := RedisStep(q, w, call, held);
      reply == reply' && !reply.TaskDoneError? && Similar(m', q', w, HeldAfter(call, held, reply))
  {
    if call.DequeueCall? && q.pending != [] {
      var last := |q.pending| - 1;
      assert Reversed(q.pending)[1..] == Reversed(q.pending[..last]);
    }
  }

  /** A sequential worker gets the same answers from both backends, and never a task_done error. */
  lemma {:induction false} BackendsAgreeFrom(
    m: Memory, q: R.Redis, w: WorkerId, held: Option<Envelope>, calls: seq<Call>)
    requires Similar(m, q, w, held)
    ensures MemorySession(m, held, calls) == RedisSession(q, w, held, calls)
    ensures TaskDoneError !in MemorySession(m, held, calls)
    decreases |calls|
  {
    if calls != [] && InTurn(calls[0], held) {
      SimilarStep(m, q, w, held, calls[0]);
      var (m', reply) := MemoryStep(m, calls[0], held);
      var (q', _) := RedisStep(q, w, calls[0], held);
      BackendsAgreeFrom(m', q', w, HeldAfter(calls[0], held, reply), calls[1..]);
    }
  }

  lemma BackendsAgree(w: WorkerId, calls: seq<Call>)
    ensures MemorySession(FRESH, None, calls) == RedisSession(R.EMPTY, w, None, calls)
    ensures TaskDoneError !in MemorySession(FRESH, None, calls)
  {
    BackendsAgreeFrom(FRESH, R.EMPTY, w, None, calls);
  }
}
