/** The `analyses` table and its stage events: what each store transaction does to one row. */
module Rows {
  import opened Domain

  /** The columns written once, when the row is inserted. */
  datatype Record = Record(
    runId: RunId,
    deliveryId: string,
    repository: string,
    workflowName: string,
    headSha: string,
    runAttempt: int,
    headBranch: Option<string>,
    pullRequest: Option<int>,
    runCompletedAt: Option<Instant>,
    installationId: Option<int>,
    createdAt: Instant)

  datatype Timing = Timing(
    startedAt: Option<Instant>,
    completedAt: Option<Instant>,
    duration: Option<int>,
    queueWait: Option<int>,
    totalLatency: Option<int>)

  datatype Outcome = Resolved | StillFailing

  datatype Resolution = Resolution(
    outcome: Outcome, runId: RunId, runAttempt: int, completedAt: Instant, recoverySeconds: int)

  /** `history` holds the run's stage events in id order.  `lastBegun` and `mark` are history
      variables: the newest attempt, and the length of `history` when it began. */
  datatype Row = Row(
    record: Record,
    status: Status,
    token: Option<Token>,
    timing: Timing,
    category: Option<string>,
    resolution: Option<Resolution>,
    history: seq<Event>,
    lastBegun: Option<Token>,
    mark: nat)

  type Table = map<RunId, Row>

  /** What `begin_analysis` reports to the pipeline. */
  datatype Start = Start(attemptStartedAt: Instant, queueWait: int, firstStart: bool)

  function NewRow(record: Record): Row {
    Row(record, Queued, None, Timing(None, None, None, None, None), None, None, [], None, 0)
  }

  function RequestOf(row: Row): Request
    requires row.record.installationId.Some?
  {
    Request(row.record.runId, row.record.repository, row.record.installationId.value, row.record.headSha)
  }

  predicate Active(row: Row) { row.status == Queued || row.status == Running }

  /** Insertion fails on either unique column. */
  predicate Insertable(t: Table, record: Record) {
    record.runId !in t && forall r | r in t :: t[r].record.deliveryId != record.deliveryId
  }

  function Insert(t: Table, record: Record): Table {
    if Insertable(t, record) then t[record.runId := NewRow(record)] else t
  }

  /** Every event still marked started becomes failed. */
  function Superseded(history: seq<Event>): seq<Event> {
    seq(|history|, i requires 0 <= i < |history| =>
      if history[i].status == Started then history[i].(status := Broken) else history[i])
  }

  function BegunTiming(row: Row, at: Instant): Timing {
    Timing(
      if row.timing.startedAt.Some? then row.timing.startedAt else Some(at),
      None,
      None,
      if row.timing.queueWait.Some? then row.timing.queueWait else Some(Max(0, at - row.record.createdAt)),
      None)
  }

  function BegunRow(row: Row, token: Token, at: Instant): Row {
    row.(status := Running, token := Some(token), timing := BegunTiming(row, at),
         history := Superseded(row.history), lastBegun := Some(token), mark := |row.history|)
  }

  predicate CanBegin(t: Table, run: RunId) { run in t && Active(t[run]) }

  /** The fence of every other write made on behalf of an attempt. */
  predicate IsCurrent(t: Table, run: RunId, token: Token) {
    run in t && t[run].token == Some(token)
  }

  function Begin(t: Table, run: RunId, token: Token, at: Instant): Option<Table> {
    if CanBegin(t, run) then Some(t[run := BegunRow(t[run], token, at)]) else None
  }

  /** `begin_analysis` without a token takes any row, ownerless, and leaves open events alone. */
  function BeginAs(t: Table, run: RunId, token: Option<Token>, at: Instant): Option<Table> {
    if token.Some? then Begin(t, run, token.value, at)
    else if run in t then
      Some(t[run := t[run].(status := Running, token := None, timing := BegunTiming(t[run], at))])
    else None
  }

  function FinishedRow(row: Row, attemptStartedAt: Instant, status: Status, at: Instant): Row {
    row.(status := status, token := None,
         timing := row.timing.(completedAt := Some(at), duration := Some(at - attemptStartedAt),
                               totalLatency := Some(Max(0, at - row.record.createdAt))))
  }

  function Finish(t: Table, run: RunId, token: Token, attemptStartedAt: Instant, status: Status, at: Instant)
    : Option<Table>
  {
    if IsCurrent(t, run, token) then Some(t[run := FinishedRow(t[run], attemptStartedAt, status, at)]) else None
  }

  function FinishAs(
    t: Table, run: RunId, token: Option<Token>, attemptStartedAt: Instant, status: Status, at: Instant): Option<Table>
  {
    if token.Some? then Finish(t, run, token.value, attemptStartedAt, status, at)
    else if run in t then Some(t[run := FinishedRow(t[run], attemptStartedAt, status, at)])
    else None
  }

  function RecordEvent(t: Table, run: RunId, token: Token, stage: Stage, status: StageStatus): Option<Table> {
    if IsCurrent(t, run, token) then
      Some(t[run := t[run].(history := t[run].history + [Event(stage, status, token)])])
    else None
  }

  function UpdatedRow(row: Row, status: Status, category: Option<string>): Row {
    row.(status := status, category := if category.Some? then category else row.category)
  }

  /** `update`: fenced when a token is given, and otherwise silent about a missing row.  Of the columns
      it may also write, only the category of the classification is kept. */
  function UpdateStatus(t: Table, run: RunId, status: Status, token: Option<Token>, category: Option<string>)
    : Option<Table>
  {
    if token.Some? then
      if IsCurrent(t, run, token.value) then Some(t[run := UpdatedRow(t[run], status, category)]) else None
    else if run in t then Some(t[run := UpdatedRow(t[run], status, category)])
    else Some(t)
  }

  predicate Runnable(row: Row) { row.status == Queued && row.record.installationId.Some? }
}
