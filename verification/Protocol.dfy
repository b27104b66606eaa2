/** The delivery protocol: any number of workers, one queue, one table, one atomic step at a time.

    Every queue script and every store transaction is one step.  Crashes, lease expiry, clock ticks,
    webhooks and reconciliation are steps of the environment.  A clock reading taken by a worker may
    be older than the transaction that stores it. */
module Protocol {
  import opened Domain
  import opened Rows
  import R = RedisQueue
  import Resolutions

  // ---- the pipeline program ----

  /** The store calls of one attempt, in order; `Touch` and `Report` are the fenced RUNNING
      updates, of which the second stores the diagnosis. */
  datatype Instr = Open(stage: Stage) | Close(stage: Stage) | Touch | Report

  const PROGRAM: seq<Instr> := [
    Open(0), Touch, Close(0), Open(1), Close(1), Open(2), Close(2), Open(3), Close(3),
    Open(4), Close(4), Report, Open(5), Close(5)]

  function Emits(instr: Instr, token: Token): seq<Event> {
    match instr
    case Open(stage) => [Event(stage, Started, token)]
    case Close(stage) => [Event(stage, Done, token)]
    case _ => []
  }

  /** The stage events written by the first `pc` store calls of an attempt. */
  function Emitted(pc: nat, token: Token): seq<Event>
    requires pc <= |PROGRAM|
  {
    if pc == 0 then [] else Emitted(pc - 1, token) + Emits(PROGRAM[pc - 1], token)
  }

  /** The stage whose body runs after `pc` store calls; only there can an attempt fail. */
  function StageAt(pc: nat): Option<Stage>
    requires pc <= |PROGRAM|
  {
    if pc == 0 then None
    else
      match PROGRAM[pc - 1]
      case Open(stage) => Some(stage)
      case Close(_) => None
      case _ => StageAt(pc - 1)
  }

  predicate InStage(pc: nat) { pc <= |PROGRAM| && StageAt(pc).Some? }

  function FailedTail(pc: nat, token: Token): seq<Event>
    requires InStage(pc)
  {
    Emitted(pc, token) + [Event(StageAt(pc).value, Broken, token)]
  }

  function Execute(t: Table, run: RunId, token: Token, instr: Instr, category: string): Option<Table> {
    match instr
    case Open(stage) => RecordEvent(t, run, token, stage, Started)
    case Close(stage) => RecordEvent(t, run, token, stage, Done)
    case Touch => UpdateStatus(t, run, Running, Some(token), None)
    case Report => UpdateStatus(t, run, Running, Some(token), Some(category))
  }

  // ---- states and steps ----

  /** A dequeued delivery; `since` is the time of the dequeue. */
  datatype Job = Job(envelope: Envelope, since: Instant)

  datatype Phase =
    | Stopped
    | Idle
    | Polling                                              // lease renewed, BRPOPLPUSH pending
    | Holding(job: Job)                                    // dequeued, attempt not begun
    | Attempting(job: Job, token: Token, begun: Instant, pc: nat)
    | StageFailing(job: Job, token: Token, begun: Instant, pc: nat)  // the body raised
    | Failing(job: Job, token: Token, begun: Instant, pc: nat)       // FAILED event stored
    | StatusDue(job: Job)                                  // the unfenced status write is due
    | Retrying(job: Job)
    | Acking(job: Job)

  /** `offered`: runs some handler has read as runnable and may still enqueue.
      `admitted`: runs whose enqueue has succeeded at least once. */
  datatype State = State(
    queue: R.Redis,
    table: Table,
    phases: seq<Phase>,
    now: Instant,
    issued: set<Token>,
    offered: set<RunId>,
    admitted: set<RunId>,
    maxAttempts: int)

  datatype Move =
    | Launch | Crash | Poll | Pop
    | Abandon              // Redis failed before the attempt began: the delivery stays in the list
    | Begin(token: Token, at: Instant)
    | Proceed(category: string)   // the category is stored by `Report` only
    | Raise
    | RecordFailure
    | FinishFailed(at: Instant)
    | FinishCompleted(at: Instant)
    | WriteStatus
    | Settle(lost: bool)   // `lost`: Redis failed and the script did not run

  datatype Action =
    | Tick(to: Instant)
    | Create(record: Record)
    | FollowUp(delivery: Resolutions.Delivery, nullsFirst: bool)
    | Offer(run: RunId)
    | Enqueue(run: RunId)
    | Lapse(worker: WorkerId)
    | Recover(agent: WorkerId, worker: WorkerId)
    | Beat(worker: WorkerId)
    | Act(worker: WorkerId, move: Move)

  function Initial(workers: nat, maxAttempts: int, now: Instant): State {
    State(R.EMPTY, map[], seq(workers, _ => Stopped), now, {}, {}, {}, maxAttempts)
  }

  predicate Has(p: Phase) { !p.Stopped? && !p.Idle? && !p.Polling? }

  predicate MoveEnabled(s: State, p: Phase, move: Move) {
    match move
    case Launch => p.Stopped?
    case Crash => true
    case Poll => p.Idle?
    case Pop => p.Polling?
    case Abandon => p.Holding?
    case Begin(token, at) => p.Holding? && token !in s.issued && p.job.since <= at <= s.now
    case Proceed(_) => p.Attempting? && p.pc < |PROGRAM|
    case Raise => p.Attempting? && InStage(p.pc)
    case RecordFailure => p.StageFailing? && InStage(p.pc)
    case FinishFailed(at) => p.Failing? && p.begun <= at <= s.now
    case FinishCompleted(at) => p.Attempting? && p.pc == |PROGRAM| && p.begun <= at <= s.now
    case WriteStatus => p.StatusDue?
    case Settle(_) => p.Retrying? || p.Acking?
  }

  predicate Enabled(s: State, a: Action) {
    match a
    case Tick(to) => s.now <= to
    case Create(record) => record.createdAt <= s.now
    case FollowUp(_, _) => true
    case Offer(run) => run in s.table && Runnable(s.table[run])
    case Enqueue(run) => run in s.offered && run in s.table && s.table[run].record.installationId.Some?
    case Lapse(_) => true
    case Recover(agent, w) => agent != w && agent < |s.phases| && !s.phases[agent].Stopped?
    case Beat(w) => w < |s.phases| && !s.phases[w].Stopped?
    case Act(w, move) => w < |s.phases| && MoveEnabled(s, s.phases[w], move)
  }

  predicate Retryable(s: State, job: Job) { job.envelope.attempts + 1 < s.maxAttempts }

  function QueueOp(s: State, a: Action): R.Op
    requires Enabled(s, a)
  {
    match a
    case Enqueue(run) => R.Enqueue(RequestOf(s.table[run]))
    case Lapse(w) => R.Lapse(w)
    case Recover(_, w) => R.Recover(w)
    case Beat(w) => R.Beat(w)
    case Act(w, Poll) => R.Beat(w)
    case Act(w, Pop) => R.Pop(w)
    case Act(w, Settle(false)) =>
      if s.phases[w].Retrying? then R.Retry(w, s.phases[w].job.envelope)
      else R.Ack(w, s.phases[w].job.envelope)
    case _ => R.Skip
  }

  /** The table after a worker's move, and the worker's next phase. */
  function MoveEffect(s: State, p: Phase, move: Move): (Table, Phase)
    requires MoveEnabled(s, p, move)
  {
    var t := s.table;
    match move
    case Launch => (t, Idle)
    case Crash => (t, Stopped)
    case Poll => (t, Polling)
    case Pop =>
      (t, if s.queue.pending == [] then Idle else Holding(Job(s.queue.pending[|s.queue.pending| - 1], s.now)))
    case Abandon => (t, Idle)
    case Begin(token, at) =>
      Fenced(t, Rows.Begin(t, p.job.envelope.request.runId, token, at), Attempting(p.job, token, at, 0), p.job)
    case Proceed(category) =>
      Fenced(t, Execute(t, p.job.envelope.request.runId, p.token, PROGRAM[p.pc], category),
             Attempting(p.job, p.token, p.begun, p.pc + 1), p.job)
    case Raise => (t, StageFailing(p.job, p.token, p.begun, p.pc))
    case RecordFailure =>
      Fenced(t, RecordEvent(t, p.job.envelope.request.runId, p.token, StageAt(p.pc).value, Broken),
             Failing(p.job, p.token, p.begun, p.pc), p.job)
    case FinishFailed(at) =>
      Fenced(t, Finish(t, p.job.envelope.request.runId, p.token, p.begun, Failed, at), StatusDue(p.job), p.job)
    case FinishCompleted(at) =>
      Fenced(t, Finish(t, p.job.envelope.request.runId, p.token, p.begun, Completed, at), Acking(p.job), p.job)
    case WriteStatus =>
      var run := p.job.envelope.request.runId;
      if Retryable(s, p.job) then (UpdateStatus(t, run, Queued, None, None).value, Retrying(p.job))
      else (UpdateStatus(t, run, Failed, None, None).value, Acking(p.job))
    case Settle(_) => (t, Idle)
  }

  /** A superseded write changes nothing, and the worker goes on to acknowledge its delivery. */
  function Fenced(t: Table, result: Option<Table>, next: Phase, job: Job): (Table, Phase) {
    if result.Some? then (result.value, next) else (t, Acking(job))
  }

  ghost function Next(s: State, a: Action): State
    requires Enabled(s, a)
  {
    var queue := R.Step(s.queue, QueueOp(s, a));
    match a
    case Tick(to) => s.(now := to)
    case Create(record) => s.(table := Insert(s.table, record))
    case FollowUp(d, nullsFirst) => s.(table := Resolutions.FollowUp(s.table, d, nullsFirst))
    case Offer(run) => s.(offered := s.offered + {run})
    case Enqueue(run) =>
      s.(queue := queue, admitted := if run in s.queue.dedupe then s.admitted else s.admitted + {run})
    case Lapse(_) => s.(queue := queue)
    case Recover(_, _) => s.(queue := queue)
    case Beat(_) => s.(queue := queue)
    case Act(w, move) =>
      var (table, phase) := MoveEffect(s, s.phases[w], move);
      s.(queue := queue, table := table, phases := s.phases[w := phase],
         issued := if move.Begin? then s.issued + {move.token} else s.issued)
  }

  // ---- runs ----

  ghost predicate Possible(s: State, acts: seq<Action>)
    decreases |acts|, 0
  {
    acts == [] ||
    (Possible(s, acts[..|acts| - 1]) && Enabled(Exec(s, acts[..|acts| - 1]), acts[|acts| - 1]))
  }

  ghost function Exec(s: State, acts: seq<Action>): State
    requires Possible(s, acts)
    decreases |acts|, 1
  {
    if acts == [] then s
    else Next(Exec(s, acts[..|acts| - 1]), acts[|acts| - 1])
  }

  // ---- what every step keeps ----

  function TokenOf(p: Phase): Option<Token> {
    if p.Attempting? || p.StageFailing? || p.Failing? then Some(p.token) else None
  }

  function RunOf(p: Phase): RunId
    requires Has(p)
  {
    p.job.envelope.request.runId
  }

  /** The events written since the newest attempt began. */
  function Tail(row: Row): seq<Event>
    requires row.mark <= |row.history|
  {
    row.history[row.mark..]
  }

  ghost predicate HistoryOk(row: Row) {
    && row.mark <= |row.history|
    && (row.lastBegun.None? ==> row.history == [])
    && (forall i | 0 <= i < row.mark :: row.history[i].status != Started)
    && (row.lastBegun.Some? ==> forall e <- Tail(row) :: e.writer == row.lastBegun.value)
  }

  ghost predicate RowOk(run: RunId, row: Row, issued: set<Token>) {
    && row.record.runId == run
    && HistoryOk(row)
    && (row.lastBegun.Some? ==> row.lastBegun.value in issued)
    && (row.token.Some? ==> row.status == Running && row.lastBegun == row.token)
    && (row.status == Completed ==> row.lastBegun.Some? && Tail(row) == Emitted(|PROGRAM|, row.lastBegun.value))
    && (row.status == Failed ==>
          row.lastBegun.Some? && exists pc :: InStage(pc) && Tail(row) == FailedTail(pc, row.lastBegun.value))
  }

  /** If the attempt is still current, its run's history is exactly what it has written so far. */
  ghost predicate Wrote(t: Table, run: RunId, token: Token, events: seq<Event>) {
    IsCurrent(t, run, token) ==> t[run].mark <= |t[run].history| && Tail(t[run]) == events
  }

  ghost predicate WorkerOk(p: Phase, t: Table, issued: set<Token>) {
    match p
    case Attempting(job, token, _, pc) =>
      && token in issued && pc <= |PROGRAM|
      && Wrote(t, job.envelope.request.runId, token, Emitted(pc, token))
    case StageFailing(job, token, _, pc) =>
      && token in issued && InStage(pc)
      && Wrote(t, job.envelope.request.runId, token, Emitted(pc, token))
    case Failing(job, token, _, pc) =>
      && token in issued && InStage(pc)
      && Wrote(t, job.envelope.request.runId, token, FailedTail(pc, token))
    case StatusDue(job) =>
      var run := job.envelope.request.runId;
      run in t && t[run].status == Failed && t[run].token.None?
    case _ => true
  }

  /** Two workers never share a token, and never owe the unfenced write for the same run. */
  predicate Apart(p: Phase, q: Phase) {
    && (TokenOf(p).Some? ==> TokenOf(p) != TokenOf(q))
    && (p.StatusDue? && q.StatusDue? ==> RunOf(p) != RunOf(q))
  }

  ghost predicate Inv(s: State) {
    && (forall run | run in s.table :: RowOk(run, s.table[run], s.issued))
    && (forall w | 0 <= w < |s.phases| :: WorkerOk(s.phases[w], s.table, s.issued))
    && (forall v, w | 0 <= v < |s.phases| && 0 <= w < |s.phases| && v != w :: Apart(s.phases[v], s.phases[w]))
  }
}
