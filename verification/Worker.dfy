/** The worker, its queue maintenance and the pipeline as the code runs them, refining the protocol.

    Each method also returns the protocol steps it took.  The opaque parts of the code are inputs:
    which stage body raises, the clock readings, the fresh token, and whether Redis fails. */
module Worker {
  import opened Domain
  import opened Rows
  import opened Protocol
  import opened Store
  import opened QueueClients
  import R = RedisQueue

  ghost predicate Follows(s: State, acts: seq<Action>, s': State) {
    Possible(s, acts) && Exec(s, acts) == s'
  }

  lemma {:induction false} FollowsTrans(s: State, a: seq<Action>, s1: State, b: seq<Action>, s2: State)
    requires Follows(s, a, s1) && Follows(s1, b, s2)
    ensures Follows(s, a + b, s2)
    decreases |b|
  {
    if b == [] {
      assert a + b == a;
    } else {
      var b' := b[..|b| - 1];
      FollowsTrans(s, a, s1, b', Exec(s1, b'));
      assert (a + b)[..|a + b| - 1] == a + b';
    }
  }

  lemma FollowsOne(s: State, a: Action)
    requires Enabled(s, a)
    ensures Follows(s, [a], Next(s, a))
  {
    assert [a][..0] == [];
  }

  lemma FollowsMore(s: State, acts: seq<Action>, s1: State, a: Action)
    requires Follows(s, acts, s1) && Enabled(s1, a)
    ensures Follows(s, acts + [a], Next(s1, a))
  {
    FollowsOne(s1, a);
    FollowsTrans(s, acts, s1, [a], Next(s1, a));
  }

  function Recoveries(agent: WorkerId, ops: seq<R.Op>): seq<Action>
    requires forall op <- ops :: op.Recover?
  {
    seq(|ops|, i requires 0 <= i < |ops| => assert ops[i] in ops; Action.Recover(agent, ops[i].worker))
  }

  /** A sequence of recovery scripts is a sequence of protocol steps. */
  lemma {:induction false} FollowsRecoveries(s: State, agent: WorkerId, ops: seq<R.Op>) returns (s': State)
    requires agent < |s.phases| && !s.phases[agent].Stopped?
    requires forall op <- ops :: op.Recover? && op.worker != agent
    ensures Follows(s, Recoveries(agent, ops), s') && s' == s.(queue := R.Steps(s.queue, ops))
    decreases |ops|
  {
    if ops == [] {
      s' := s;
    } else {
      var last := |ops| - 1;
      assert ops[last] in ops;
      var s1 := FollowsRecoveries(s, agent, ops[..last]);
      var a := Action.Recover(agent, ops[last].worker);
      s' := Next(s1, a);
      FollowsMore(s, Recoveries(agent, ops[..last]), s1, a);
      assert Recoveries(agent, ops) == Recoveries(agent, ops[..last]) + [a];
    }
  }

  /** Which stage body raises.  `early` matters to COLLECTING only: before its RUNNING update or after. */
  datatype Fault = Fault(stage: Stage, early: bool)

  predicate FailsIn(failAt: Option<Fault>, k: Stage) { failAt.Some? && failAt.value.stage == k }

  /** How a stretch of pipeline code ends: normally, superseded, or with an error of a stage body. */
  datatype Signal = Normal | Superseded | Error

  /** The store calls made before stage k starts. */
  function StagePc(k: Stage): nat
    requires k <= PUBLISHING
  {
    if k == 0 then 0 else if k < PUBLISHING then 2 * k + 1 else 12
  }

  function PcAfter(k: Stage): nat
    requires k <= PUBLISHING
  {
    if k < PUBLISHING then StagePc(k + 1) else |PROGRAM|
  }

  lemma AloneTrans(s: State, s1: State, s2: State, w: WorkerId)
    requires Alone(s, s1, w) && Alone(s1, s2, w)
    ensures Alone(s, s2, w)
  {
  }

  lemma StageShape(k: Stage)
    requires k <= PUBLISHING
    ensures StagePc(k) + 2 <= |PROGRAM| && PROGRAM[StagePc(k)] == Open(k)
    ensures k == 0 ==> PROGRAM[1] == Touch && PROGRAM[2] == Close(0)
    ensures k > 0 ==> PROGRAM[StagePc(k) + 1] == Close(k)
    ensures k == 4 ==> PROGRAM[StagePc(k) + 2] == Report
    ensures StageAt(StagePc(k) + 1) == Some(k)
    ensures k == 0 ==> StageAt(2) == Some(0)
  {
  }

  /** Only worker w moved, and only its phase, its run's row and the clock may differ. */
  ghost predicate Alone(s: State, s': State, w: WorkerId) {
    && |s'.phases| == |s.phases|
    && (forall v | 0 <= v < |s.phases| && v != w :: s'.phases[v] == s.phases[v])
    && s'.queue == s.queue && s'.now == s.now && s'.issued == s.issued
    && s'.offered == s.offered && s'.admitted == s.admitted && s'.maxAttempts == s.maxAttempts
  }

  ghost predicate AtPc(s: State, w: WorkerId, job: Job, token: Token, begun: Instant, pc: nat) {
    w < |s.phases| && s.phases[w] == Attempting(job, token, begun, pc)
  }

  class AnalysisPipeline {
    const store: AnalysisStore

    constructor (store: AnalysisStore)
      ensures this.store == store
    {
      this.store := store;
    }

    /** One fenced store call of the attempt: the next instruction of the program. */
    method Call(run: RunId, token: Token, instr: Instr, category: string, ghost s: State, ghost w: WorkerId)
      returns (current: bool, ghost s': State)
      requires w < |s.phases| && s.phases[w].Attempting? && s.phases[w].pc < |PROGRAM|
      requires s.phases[w].token == token && RunOf(s.phases[w]) == run
      requires PROGRAM[s.phases[w].pc] == instr && s.table == store.rows
      modifies store
      ensures Follows(s, [Act(w, Proceed(category))], s') && s'.table == store.rows && Alone(s, s', w)
      ensures current == IsCurrent(s.table, run, token)
      ensures current ==> IsCurrent(s'.table, run, token)
      ensures s'.phases[w] == if current then
          Attempting(s.phases[w].job, token, s.phases[w].begun, s.phases[w].pc + 1)
        else Acking(s.phases[w].job)
    {
      match instr {
        case Open(stage) => current := store.RecordStage(run, stage, Started, token);
        case Close(stage) => current := store.RecordStage(run, stage, Done, token);
        case Touch => current := store.Update(run, Running, Some(token), None);
        case Report => current := store.Update(run, Running, Some(token), Some(category));
      }
      s' := Next(s, Act(w, Proceed(category)));
      FollowsOne(s, Act(w, Proceed(category)));
    }

    /** The stage body raised: record the failure and raise again. */
    method FailStage(run: RunId, k: Domain.Stage, token: Token, ghost s: State, ghost w: WorkerId)
      returns (current: bool, ghost acts: seq<Action>, ghost s': State)
      requires w < |s.phases| && s.phases[w].Attempting? && InStage(s.phases[w].pc) && StageAt(s.phases[w].pc) == Some(k)
      requires s.phases[w].token == token && RunOf(s.phases[w]) == run && s.table == store.rows
      modifies store
      ensures Follows(s, acts, s') && s'.table == store.rows && Alone(s, s', w)
      ensures current == IsCurrent(s.table, run, token)
      ensures current ==> IsCurrent(s'.table, run, token)
      ensures var p := s.phases[w];
        s'.phases[w] == if current then Failing(p.job, token, p.begun, p.pc) else Acking(p.job)
    {
      ghost var s1 := Next(s, Act(w, Raise));
      FollowsOne(s, Act(w, Raise));
      current := store.RecordStage(run, k, Broken, token);
      FollowsMore(s, [Act(w, Raise)], s1, Act(w, RecordFailure));
      acts, s' := [Act(w, Raise)] + [Act(w, RecordFailure)], Next(s1, Act(w, RecordFailure));
    }

    /** `with self._stage(...)`: record the start, run the body, record how it ended. */
    method Stage(run: RunId, k: Domain.Stage, token: Token, bodyFails: bool, early: bool, ghost s: State, ghost w: WorkerId)
      returns (signal: Signal, ghost acts: seq<Action>, ghost s': State)
      requires k <= PUBLISHING
      requires w < |s.phases| && s.phases[w].Attempting? && s.phases[w].pc == StagePc(k)
      requires s.phases[w].token == token && RunOf(s.phases[w]) == run && s.table == store.rows
      modifies store
      ensures Follows(s, acts, s') && s'.table == store.rows && Alone(s, s', w)
      ensures IsCurrent(s.table, run, token) ==>
        && IsCurrent(s'.table, run, token)
        && signal == if bodyFails then Error else Normal
      ensures var job, begun := s.phases[w].job, s.phases[w].begun;
        match signal
        case Normal => AtPc(s', w, job, token, begun, StagePc(k) + if k == 0 then 3 else 2)
        case Superseded => s'.phases[w] == Acking(job)
        case Error => exists pc :: InStage(pc) && StageAt(pc) == Some(k) && s'.phases[w] == Failing(job, token, begun, pc)
    {
      StageShape(k);
      var current;
      current, s' := Call(run, token, Open(k), "", s, w);
      acts := [Act(w, Proceed(""))];
      if !current {
        return Superseded, acts, s';
      }
      ghost var s1 := s';
      if k == COLLECTING && !(bodyFails && early) {
        current, s' := Call(run, token, Touch, "", s1, w);
        FollowsTrans(s, acts, s1, [Act(w, Proceed(""))], s');
        acts := acts + [Act(w, Proceed(""))];
        if !current {
          return Superseded, acts, s';
        }
      }
      if bodyFails {
        ghost var s2, more := s', [];
        current, more, s' := FailStage(run, k, token, s2, w);
        FollowsTrans(s, acts, s2, more, s');
        return if current then Error else Superseded, acts + more, s';
      }
      ghost var s3 := s';
      current, s' := Call(run, token, Close(k), "", s3, w);
      FollowsTrans(s, acts, s3, [Act(w, Proceed(""))], s');
      acts := acts + [Act(w, Proceed(""))];
      signal := if current then Normal else Superseded;
    }

    /** Stage k and, before publishing, the fenced RUNNING update that stores the diagnosis. */
    method StageAndReport(run: RunId, k: Domain.Stage, token: Token, bodyFails: bool, early: bool, category: string, ghost s: State, ghost w: WorkerId)
      returns (signal: Signal, ghost acts: seq<Action>, ghost s': State)
      requires k <= PUBLISHING
      requires w < |s.phases| && s.phases[w].Attempting? && s.phases[w].pc == StagePc(k)
      requires s.phases[w].token == token && RunOf(s.phases[w]) == run && s.table == store.rows
      modifies store
      ensures Follows(s, acts, s') && s'.table == store.rows && Alone(s, s', w)
      ensures IsCurrent(s.table, run, token) ==>
        && IsCurrent(s'.table, run, token)
        && signal == if bodyFails then Error else Normal
      ensures var job, begun := s.phases[w].job, s.phases[w].begun;
        match signal
        case Normal => AtPc(s', w, job, token, begun, PcAfter(k))
        case Superseded => s'.phases[w] == Acking(job)
        case Error => exists pc :: InStage(pc) && s'.phases[w] == Failing(job, token, begun, pc)
    {
      StageShape(k);
      signal, acts, s' := Stage(run, k, token, bodyFails, early, s, w);
      if signal == Normal && k == 4 {
        ghost var s1 := s';
        var current;
        current, s' := Call(run, token, Report, category, s1, w);
        FollowsTrans(s, acts, s1, [Act(w, Proceed(category))], s');
        acts := acts + [Act(w, Proceed(category))];
        signal := if current then Normal else Superseded;
      }
    }

    /** `_analyze`: the six stages in order, with one fenced update before publishing. */
    method RunStages(run: RunId, token: Token, failAt: Option<Fault>, category: string, ghost s: State, ghost w: WorkerId)
      returns (signal: Signal, ghost acts: seq<Action>, ghost s': State)
      requires w < |s.phases| && s.phases[w].Attempting? && s.phases[w].pc == 0
      requires s.phases[w].token == token && RunOf(s.phases[w]) == run && s.table == store.rows
      requires failAt.Some? ==> failAt.value.stage <= PUBLISHING
      modifies store
      ensures Follows(s, acts, s') && s'.table == store.rows && Alone(s, s', w)
      ensures IsCurrent(s.table, run, token) ==>
        && IsCurrent(s'.table, run, token)
        && signal == if failAt.Some? then Error else Normal
      ensures var job, begun := s.phases[w].job, s.phases[w].begun;
        match signal
        case Normal => AtPc(s', w, job, token, begun, |PROGRAM|)
        case Superseded => s'.phases[w] == Acking(job)
        case Error => exists pc :: InStage(pc) && s'.phases[w] == Failing(job, token, begun, pc)
    {
      ghost var job, begun := s.phases[w].job, s.phases[w].begun;
      acts, s' := [], s;
      var k: Domain.Stage := COLLECTING;
      while k <= PUBLISHING
        invariant k <= PUBLISHING + 1
        invariant Follows(s, acts, s') && s'.table == store.rows && Alone(s, s', w)
        invariant AtPc(s', w, job, token, begun, if k == COLLECTING then 0 else PcAfter(k - 1))
        invariant IsCurrent(s.table, run, token) ==> IsCurrent(s'.table, run, token)
        invariant failAt.Some? ==> k <= failAt.value.stage || !IsCurrent(s.table, run, token)
      {
        ghost var s1, more := s', [];
        signal, more, s' := StageAndReport(run, k, token, FailsIn(failAt, k), failAt.Some? && failAt.value.early, category, s1, w);
        FollowsTrans(s, acts, s1, more, s');
        AloneTrans(s, s1, s', w);
        acts := acts + more;
        if signal != Normal {
          return;
        }
        k := k + 1;
      }
      signal := Normal;
    }

    /** `analyze`: begin, run the stages, and finish as COMPLETED or FAILED.  `raised` tells the
        worker that the attempt failed; a superseded attempt returns quietly. */
    method Analyze(run: RunId, token: Token, startAt: Instant, endAt: Instant, failAt: Option<Fault>, category: string,
                   ghost s: State, ghost w: WorkerId)
      returns (raised: bool, ghost acts: seq<Action>, ghost s': State)
      requires w < |s.phases| && s.phases[w].Holding? && RunOf(s.phases[w]) == run && s.table == store.rows
      requires token !in s.issued && s.phases[w].job.since <= s.now <= startAt <= endAt
      requires failAt.Some? ==> failAt.value.stage <= PUBLISHING
      modifies store
      ensures Follows(s, acts, s') && s'.table == store.rows && s'.queue == s.queue
      ensures |s'.phases| == |s.phases| && forall v | 0 <= v < |s.phases| && v != w :: s'.phases[v] == s.phases[v]
      ensures s'.maxAttempts == s.maxAttempts && s'.now >= s.now
      ensures s'.phases[w] == if raised then StatusDue(s.phases[w].job) else Acking(s.phases[w].job)
      ensures CanBegin(s.table, run) ==>
        && raised == failAt.Some? && run in store.rows
        && store.rows[run].status == if raised then Failed else Completed
      ensures !CanBegin(s.table, run) ==> !raised && store.rows == s.table
    {
      ghost var job := s.phases[w].job;
      ghost var s1 := Next(s, Tick(startAt));
      FollowsOne(s, Tick(startAt));
      ghost var begin := Act(w, Move.Begin(token, startAt));
      s' := Next(s1, begin);
      FollowsMore(s, [Tick(startAt)], s1, begin);
      acts := [Tick(startAt)] + [begin];
      var start := store.BeginAnalysis(run, Some(token), startAt);
      if start.None? {
        return false, acts, s';
      }
      ghost var s2, more := s', [];
      var signal;
      signal, more, s' := RunStages(run, token, failAt, category, s2, w);
      FollowsTrans(s, acts, s2, more, s');
      acts := acts + more;
      if signal == Superseded {
        return false, acts, s';
      }
      FollowsMore(s, acts, s', Tick(endAt));
      acts, s' := acts + [Tick(endAt)], Next(s', Tick(endAt));
      if signal == Error {
        ghost var finish := Act(w, FinishFailed(endAt));
        FollowsMore(s, acts, s', finish);
        acts, s' := acts + [finish], Next(s', finish);
        var failed := store.FinishAnalysis(run, start.value.attemptStartedAt, Failed, Some(token), endAt);
        raised := failed.Some?;
      } else {
        ghost var finish := Act(w, FinishCompleted(endAt));
        FollowsMore(s, acts, s', finish);
        acts, s' := acts + [finish], Next(s', finish);
        var _ := store.FinishAnalysis(run, start.value.attemptStartedAt, Completed, Some(token), endAt);
        raised := false;
      }
    }
  }

  class AnalysisWorker {
    const pipeline: AnalysisPipeline
    const queue: RedisAnalysisQueue
    const store: AnalysisStore
    const maxAttempts: int

    constructor (pipeline: AnalysisPipeline, queue: RedisAnalysisQueue, store: AnalysisStore, maxAttempts: int)
      ensures this.pipeline == pipeline && this.queue == queue && this.store == store
      ensures this.maxAttempts == maxAttempts
    {
      this.pipeline, this.queue, this.store, this.maxAttempts := pipeline, queue, store, maxAttempts;
    }

    /** The worker and the protocol state describe the same queue and table. */
    ghost predicate Mirrors(s: State)
      reads queue.redis, store
    {
      && pipeline.store == store && s.maxAttempts == maxAttempts
      && s.queue == queue.redis.View() && s.table == store.rows
      && queue.workerId < |s.phases|
    }

    /** The branches after `analyze`: the unfenced status write if it raised, then retry or ack. */
    method Conclude(job: Envelope, raised: bool, redisFails: bool, ghost s: State)
      returns (ghost acts: seq<Action>, ghost s': State)
      requires Mirrors(s) && Has(s.phases[queue.workerId]) && s.phases[queue.workerId].job.envelope == job
      requires if raised then s.phases[queue.workerId].StatusDue? else s.phases[queue.workerId].Acking?
      modifies queue.redis, store
      ensures Mirrors(s') && Follows(s, acts, s') && s'.phases == s.phases[queue.workerId := Idle]
      ensures var again := raised && job.attempts + 1 < maxAttempts;
        && s'.queue == (if redisFails then s.queue
                        else R.Step(s.queue, if again then R.Retry(queue.workerId, job) else R.Ack(queue.workerId, job)))
        && (!raised ==> s'.table == s.table)
        && (raised ==> UpdateStatus(s.table, job.request.runId, if again then Queued else Failed, None, None) == Some(s'.table))
    {
      ghost var w := queue.workerId;
      acts, s' := [], s;
      var retry := false;
      if raised {
        retry := job.attempts + 1 < maxAttempts;
        FollowsOne(s, Act(w, WriteStatus));
        acts, s' := [Act(w, WriteStatus)], Next(s, Act(w, WriteStatus));
        var _ := store.Update(job.request.runId, if retry then Queued else Failed, None, None);
      }
      FollowsMore(s, acts, s', Act(w, Settle(redisFails)));
      ghost var s1 := s';
      s' := SettleDelivery(job, retry, redisFails, s1);
      acts := acts + [Act(w, Settle(redisFails))];
    }

    /** The retry or the acknowledgement that ends a delivery. */
    method SettleDelivery(job: Envelope, again: bool, redisFails: bool, ghost s: State) returns (ghost s': State)
      requires Mirrors(s) && Has(s.phases[queue.workerId]) && s.phases[queue.workerId].job.envelope == job
      requires if again then s.phases[queue.workerId].Retrying? else s.phases[queue.workerId].Acking?
      modifies queue.redis
      ensures Mirrors(s') && s' == Next(s, Act(queue.workerId, Settle(redisFails)))
      ensures s'.phases == s.phases[queue.workerId := Idle] && s'.table == s.table
      ensures s'.queue == if redisFails then s.queue
                          else R.Step(s.queue, if again then R.Retry(queue.workerId, job) else R.Ack(queue.workerId, job))
    {
      s' := Next(s, Act(queue.workerId, Settle(redisFails)));
      if !redisFails {
        if again {
          queue.Retry(job);
        } else {
          queue.Acknowledge(job);
        }
      }
    }

    /** The heartbeat and BRPOPLPUSH of one turn. */
    method Take(ghost s: State) returns (job: Option<Envelope>, ghost acts: seq<Action>, ghost s': State)
      requires Mirrors(s) && s.phases[queue.workerId].Idle?
      modifies queue.redis
      ensures Mirrors(s') && Follows(s, acts, s') && s'.table == s.table
      ensures s'.now == s.now && s'.issued == s.issued && s'.queue.dedupe == s.queue.dedupe
      ensures job == if s.queue.pending == [] then None else Some(s.queue.pending[|s.queue.pending| - 1])
      ensures s'.phases == s.phases[queue.workerId :=
        if job.None? then Idle else Holding(Job.Job(job.value, s.now))]
      ensures job.Some? ==>
        && s'.queue.pending == s.queue.pending[..|s.queue.pending| - 1]
        && job.value in R.Held(s'.queue, queue.workerId)
    {
      ghost var w := queue.workerId;
      ghost var s1 := Next(s, Act(w, Poll));
      FollowsOne(s, Act(w, Poll));
      s' := Next(s1, Act(w, Pop));
      FollowsMore(s, [Act(w, Poll)], s1, Act(w, Pop));
      acts := [Act(w, Poll)] + [Act(w, Pop)];
      job := queue.Dequeue();
    }

    /** `_maintain_queue_once`: renew the lease, then recover every other worker of the snapshot. */
    method MaintainQueueOnce(ghost s: State) returns (recovered: nat, ghost acts: seq<Action>, ghost s': State)
      requires Mirrors(s) && !s.phases[queue.workerId].Stopped?
      modifies queue.redis
      ensures Mirrors(s') && Follows(s, acts, s')
      ensures s'.table == s.table && s'.phases == s.phases && s'.now == s.now
      ensures acts != [] && acts[0] == Action.Beat(queue.workerId)
      ensures forall a <- acts[1..] ::
        a.Recover? && a.agent == queue.workerId != a.worker && a.worker in s.queue.registered
      ensures queue.workerId in s'.queue.leases && queue.workerId in s'.queue.registered
      ensures forall w <- s.queue.registered | w != queue.workerId && w !in s.queue.leases ::
        R.Held(s'.queue, w) == [] && w !in s'.queue.registered
      ensures recovered == |s'.queue.pending| - |s.queue.pending|
    {
      ghost var w := queue.workerId;
      FollowsOne(s, Action.Beat(w));
      ghost var s1 := Next(s, Action.Beat(w));
      queue.Heartbeat();
      ghost var ops;
      recovered, ops := queue.RecoverOrphaned();
      s' := FollowsRecoveries(s1, w, ops);
      FollowsTrans(s, [Action.Beat(w)], s1, Recoveries(w, ops), s');
      acts := [Action.Beat(w)] + Recoveries(w, ops);
    }

    /** Analyse a delivery this worker has taken, and settle it as its outcome and its attempts say. */
    method Deliver(job: Envelope, token: Token, startAt: Instant, endAt: Instant, failAt: Option<Fault>, category: string,
                   redisFails: bool, ghost s: State)
      returns (ghost acts: seq<Action>, ghost s': State)
      requires Mirrors(s) && s.phases[queue.workerId] == Holding(Job.Job(job, s.now))
      requires job in R.Held(s.queue, queue.workerId)
      requires token !in s.issued && s.now <= startAt <= endAt
      requires failAt.Some? ==> failAt.value.stage <= PUBLISHING
      modifies queue.redis, store
      ensures Mirrors(s') && Follows(s, acts, s') && s'.phases == s.phases[queue.workerId := Idle]
      ensures Delivered(s, s', job, failAt.Some?, redisFails)
    {
      var raised;
      raised, acts, s' := pipeline.Analyze(job.request.runId, token, startAt, endAt, failAt, category, s, queue.workerId);
      ghost var s1, more := s', [];
      more, s' := Conclude(job, raised, redisFails, s1);
      FollowsTrans(s, acts, s1, more, s');
      acts := acts + more;
    }

    /** One turn of the worker loop, undisturbed: every effect is a sequence of protocol steps of
        this worker, and the delivery is settled as its outcome and its attempts say.  `sizeFails`:
        Redis fails when the worker asks for the queue's size before the attempt; None is the error. */
    method ProcessNext(token: Token, startAt: Instant, endAt: Instant, failAt: Option<Fault>, category: string,
                       sizeFails: bool, redisFails: bool, ghost s: State)
      returns (busy: Option<bool>, ghost acts: seq<Action>, ghost s': State)
      requires Mirrors(s) && s.phases[queue.workerId].Idle?
      requires token !in s.issued && s.now <= startAt <= endAt
      requires failAt.Some? ==> failAt.value.stage <= PUBLISHING
      modifies queue.redis, store
      ensures Mirrors(s') && Follows(s, acts, s') && s'.phases == s.phases
      ensures busy == if sizeFails then None else Some(s.queue.pending != [])
      ensures busy == Some(true) ==>
        var last := |s.queue.pending| - 1;
        Delivered(s.(queue := s.queue.(pending := s.queue.pending[..last])), s', s.queue.pending[last],
                  failAt.Some?, redisFails)
      ensures busy != Some(true) ==>
        && s'.table == s.table && s'.queue.dedupe == s.queue.dedupe
        && (s.queue.pending != [] ==> s.queue.pending[|s.queue.pending| - 1] in R.Held(s'.queue, queue.workerId))
    {
      var dequeued;
      dequeued, acts, s' := Take(s);
      if sizeFails {
        if dequeued.Some? {
          ghost var drop := Act(queue.workerId, Abandon);
          FollowsMore(s, acts, s', drop);
          acts, s' := acts + [drop], Next(s', drop);
        }
        return None, acts, s';
      }
      busy := Some(dequeued.Some?);
      if dequeued.Some? {
        ghost var s1, more := s', [];
        more, s' := Deliver(dequeued.value, token, startAt, endAt, failAt, category, redisFails, s1);
        FollowsTrans(s, acts, s1, more, s');
        acts := acts + more;
      }
    }
  }

  /** What an undisturbed turn does with the delivery it has taken out of the pending list. */
  predicate Delivered(s: State, s': State, job: Envelope, fails: bool, redisFails: bool) {
    var run := job.request.runId;
    var begins := CanBegin(s.table, run);
    var again := begins && fails && job.attempts + 1 < s.maxAttempts;
    var status := if !fails then Completed else if again then Queued else Failed;
    && (if begins then run in s'.table && s'.table[run].status == status else s'.table == s.table)
    && s'.queue.pending == (if again && !redisFails then [R.Bumped(job)] + s.queue.pending else s.queue.pending)
    && s'.queue.dedupe == (if again || redisFails then s.queue.dedupe else s.queue.dedupe - {run})
  }
}
