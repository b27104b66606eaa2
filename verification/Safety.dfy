/** Safety of the delivery protocol in every interleaving, whatever leases do. */
module Safety {
  import opened Domain
  import opened Rows
  import opened Protocol
  import Resolutions

  // ---- one row changes at a time ----

  lemma BegunRowOk(run: RunId, row: Row, token: Token, at: Instant, issued: set<Token>)
    requires RowOk(run, row, issued)
    ensures RowOk(run, BegunRow(row, token, at), issued + {token})
    ensures Tail(BegunRow(row, token, at)) == []
  {
  }

  lemma EventRowOk(run: RunId, row: Row, event: Event, issued: set<Token>)
    requires RowOk(run, row, issued) && row.token == Some(event.writer)
    ensures RowOk(run, row.(history := row.history + [event]), issued)
    ensures Tail(row.(history := row.history + [event])) == Tail(row) + [event]
  {
  }

  lemma EmittedStep(pc: nat, token: Token)
    requires pc < |PROGRAM|
    ensures Emitted(pc + 1, token) == Emitted(pc, token) + Emits(PROGRAM[pc], token)
  {
  }

  lemma RowOkGrows(run: RunId, row: Row, issued: set<Token>, more: set<Token>)
    requires RowOk(run, row, issued) && issued <= more
    ensures RowOk(run, row, more)
  {
  }

  lemma FinishedRowOk(run: RunId, row: Row, begun: Instant, status: Status, at: Instant, issued: set<Token>)
    requires RowOk(run, row, issued) && row.token.Some?
    requires status == Completed ==> Tail(row) == Emitted(|PROGRAM|, row.token.value)
    requires status == Failed ==> exists pc :: InStage(pc) && Tail(row) == FailedTail(pc, row.token.value)
    ensures RowOk(run, FinishedRow(row, begun, status, at), issued)
  {
  }

  /** The row a worker's move writes, if its write takes effect. */
  ghost predicate OwnRowOk(s: State, w: WorkerId, move: Move)
    requires Enabled(s, Act(w, move)) && Has(s.phases[w])
  {
    var s', run := Next(s, Act(w, move)), RunOf(s.phases[w]);
    run in s'.table && RowOk(run, s'.table[run], s'.issued)
  }

  lemma OwnRowAtBegin(s: State, w: WorkerId, token: Token, at: Instant)
    requires Inv(s) && Enabled(s, Act(w, Move.Begin(token, at))) && RunOf(s.phases[w]) in s.table
    ensures OwnRowOk(s, w, Move.Begin(token, at))
  {
    var run := RunOf(s.phases[w]);
    RowOkGrows(run, s.table[run], s.issued, s.issued + {token});
    BegunRowOk(run, s.table[run], token, at, s.issued);
  }

  lemma OwnRowAtProceed(s: State, w: WorkerId, category: string)
    requires Inv(s) && Enabled(s, Act(w, Proceed(category))) && RunOf(s.phases[w]) in s.table
    ensures OwnRowOk(s, w, Proceed(category))
  {
    var p, run := s.phases[w], RunOf(s.phases[w]);
    assert RowOk(run, s.table[run], s.issued);
    if IsCurrent(s.table, run, p.token) {
      match PROGRAM[p.pc]
      case Open(stage) => EventRowOk(run, s.table[run], Event(stage, Started, p.token), s.issued);
      case Close(stage) => EventRowOk(run, s.table[run], Event(stage, Done, p.token), s.issued);
      case _ =>
    }
  }

  lemma OwnRowAtFailure(s: State, w: WorkerId)
    requires Inv(s) && Enabled(s, Act(w, RecordFailure)) && RunOf(s.phases[w]) in s.table
    ensures OwnRowOk(s, w, RecordFailure)
  {
    var p, run := s.phases[w], RunOf(s.phases[w]);
    assert RowOk(run, s.table[run], s.issued);
    if IsCurrent(s.table, run, p.token) {
      EventRowOk(run, s.table[run], Event(StageAt(p.pc).value, Broken, p.token), s.issued);
    }
  }

  lemma OwnRowAtFinish(s: State, w: WorkerId, move: Move)
    requires move.FinishFailed? || move.FinishCompleted?
    requires Inv(s) && Enabled(s, Act(w, move)) && RunOf(s.phases[w]) in s.table
    ensures OwnRowOk(s, w, move)
  {
    var p, run := s.phases[w], RunOf(s.phases[w]);
    assert WorkerOk(p, s.table, s.issued) && RowOk(run, s.table[run], s.issued);
    if IsCurrent(s.table, run, p.token) {
      FinishedRowOk(run, s.table[run], p.begun, if move.FinishFailed? then Failed else Completed, move.at, s.issued);
    }
  }

  lemma OwnRowOtherwise(s: State, w: WorkerId, move: Move)
    requires Inv(s) && Enabled(s, Act(w, move)) && Has(s.phases[w]) && RunOf(s.phases[w]) in s.table
    requires !move.Begin? && !move.Proceed? && !move.RecordFailure? && !move.FinishFailed? && !move.FinishCompleted?
    ensures OwnRowOk(s, w, move)
  {
    var p, run := s.phases[w], RunOf(s.phases[w]);
    assert WorkerOk(p, s.table, s.issued) && RowOk(run, s.table[run], s.issued);
  }

  lemma OwnRowKept(s: State, w: WorkerId, move: Move)
    requires Inv(s) && Enabled(s, Act(w, move)) && Has(s.phases[w]) && RunOf(s.phases[w]) in s.table
    ensures OwnRowOk(s, w, move)
  {
    if move.Begin? {
      OwnRowAtBegin(s, w, move.token, move.at);
    } else if move.Proceed? {
      OwnRowAtProceed(s, w, move.category);
    } else if move.RecordFailure? {
      OwnRowAtFailure(s, w);
    } else if move.FinishFailed? || move.FinishCompleted? {
      OwnRowAtFinish(s, w, move);
    } else {
      OwnRowOtherwise(s, w, move);
    }
  }

  lemma OnlyOwnRow(s: State, w: WorkerId, move: Move)
    requires Enabled(s, Act(w, move))
    ensures var s' := Next(s, Act(w, move));
      && s'.table.Keys == s.table.Keys
      && forall run | run in s.table && (Has(s.phases[w]) ==> run != RunOf(s.phases[w])) ::
          s'.table[run] == s.table[run]
  {
  }

  /** What a worker's move makes of the row of its run. */
  predicate Writes(s: State, p: Phase, move: Move, row: Row, after: Row)
    requires MoveEnabled(s, p, move)
  {
    match move
    case Begin(token, at) => after == if Active(row) then BegunRow(row, token, at) else row
    case Proceed(_) =>
      after == if row.token != Some(p.token) then row else
        row.(status := if PROGRAM[p.pc].Touch? || PROGRAM[p.pc].Report? then Running else row.status,
             category := after.category, history := row.history + Emits(PROGRAM[p.pc], p.token))
    case RecordFailure => after == row.(history := after.history)
    case FinishFailed(at) => after == if row.token == Some(p.token) then FinishedRow(row, p.begun, Failed, at) else row
    case FinishCompleted(at) =>
      after == if row.token == Some(p.token) then FinishedRow(row, p.begun, Completed, at) else row
    case WriteStatus => after == row.(status := if Retryable(s, p.job) then Queued else Failed)
    case _ => after == row
  }

  lemma ProceedWrites(s: State, w: WorkerId, category: string)
    requires Enabled(s, Act(w, Proceed(category))) && RunOf(s.phases[w]) in s.table
    ensures var p, t' := s.phases[w], Next(s, Act(w, Proceed(category))).table;
      RunOf(p) in t' && Writes(s, p, Proceed(category), s.table[RunOf(p)], t'[RunOf(p)])
  {
    match PROGRAM[s.phases[w].pc]
    case Open(_) =>
    case Close(_) =>
    case _ =>
  }

  lemma MoveWrites(s: State, w: WorkerId, move: Move)
    requires Enabled(s, Act(w, move)) && Has(s.phases[w]) && RunOf(s.phases[w]) in s.table
    ensures var p, t' := s.phases[w], Next(s, Act(w, move)).table;
      RunOf(p) in t' && Writes(s, p, move, s.table[RunOf(p)], t'[RunOf(p)])
  {
    if move.Proceed? { ProceedWrites(s, w, move.category); }
  }

  /** Only a dequeue gives a worker a delivery, and only `Begin` a token. */
  lemma MoverPhase(s: State, w: WorkerId, move: Move)
    requires Enabled(s, Act(w, move))
    ensures var p, p' := s.phases[w], Next(s, Act(w, move)).phases[w];
      && (Has(p') ==> move.Pop? || (Has(p) && p'.job == p.job))
      && (TokenOf(p').Some? ==>
            if move.Begin? then p'.token == move.token && p'.begun == move.at
            else TokenOf(p').value == TokenOf(p).value && p'.begun == p.begun)
  {
  }

  lemma RowsKept(s: State, w: WorkerId, move: Move)
    requires Inv(s) && Enabled(s, Act(w, move))
    ensures var s' := Next(s, Act(w, move));
      forall run | run in s'.table :: RowOk(run, s'.table[run], s'.issued)
  {
    var s' := Next(s, Act(w, move));
    OnlyOwnRow(s, w, move);
    forall run | run in s'.table
      ensures RowOk(run, s'.table[run], s'.issued)
    {
      if Has(s.phases[w]) && run == RunOf(s.phases[w]) {
        OwnRowKept(s, w, move);
      } else {
        RowOkGrows(run, s.table[run], s.issued, s'.issued);
      }
    }
  }

  lemma ProceedKept(s: State, w: WorkerId, category: string)
    requires Inv(s) && Enabled(s, Act(w, Proceed(category)))
    ensures var s' := Next(s, Act(w, Proceed(category))); WorkerOk(s'.phases[w], s'.table, s'.issued)
  {
    var p := s.phases[w];
    assert WorkerOk(p, s.table, s.issued);
    if IsCurrent(s.table, RunOf(p), p.token) {
      ProceedWrites(s, w, category);
      EmittedStep(p.pc, p.token);
      InstrKept(s.table[RunOf(p)], RunOf(p), p.token, p.pc, s.issued);
    }
  }

  /** One more store call of a current attempt writes the next events of the program. */
  lemma InstrKept(row: Row, run: RunId, token: Token, pc: nat, issued: set<Token>)
    requires pc < |PROGRAM| && RowOk(run, row, issued) && row.token == Some(token)
    requires Tail(row) == Emitted(pc, token)
    ensures var events := Emits(PROGRAM[pc], token);
      Tail(row.(history := row.history + events)) == Emitted(pc, token) + events
  {
    match PROGRAM[pc]
    case Open(stage) => EventRowOk(run, row, Event(stage, Started, token), issued);
    case Close(stage) => EventRowOk(run, row, Event(stage, Done, token), issued);
    case _ =>
  }

  lemma SelfKept(s: State, w: WorkerId, move: Move)
    requires Inv(s) && Enabled(s, Act(w, move))
    ensures var s' := Next(s, Act(w, move)); WorkerOk(s'.phases[w], s'.table, s'.issued)
  {
    var p := s.phases[w];
    match move
    case Proceed(category) => ProceedKept(s, w, category);
    case Begin(token, at) =>
      if CanBegin(s.table, RunOf(p)) {
        BegunRowOk(RunOf(p), s.table[RunOf(p)], token, at, s.issued);
      }
    case RecordFailure =>
      assert WorkerOk(p, s.table, s.issued);
      if IsCurrent(s.table, RunOf(p), p.token) {
        EventRowOk(RunOf(p), s.table[RunOf(p)], Event(StageAt(p.pc).value, Broken, p.token), s.issued);
      }
    case _ => assert WorkerOk(p, s.table, s.issued);
  }

  /** A token that is not the mover's stays current only if its row was not touched. */
  lemma ForeignToken(s: State, w: WorkerId, move: Move, run: RunId, token: Token)
    requires Inv(s) && Enabled(s, Act(w, move))
    requires token in s.issued && TokenOf(s.phases[w]) != Some(token)
    ensures var t' := Next(s, Act(w, move)).table;
      IsCurrent(t', run, token) ==> run in s.table && t'[run] == s.table[run]
  {
    OnlyOwnRow(s, w, move);
    assert WorkerOk(s.phases[w], s.table, s.issued);
    if Has(s.phases[w]) && RunOf(s.phases[w]) in s.table { MoveWrites(s, w, move); }
  }

  /** A run whose unfenced status write is due is out of every other worker's reach. */
  lemma ForeignDue(s: State, w: WorkerId, move: Move, run: RunId)
    requires Inv(s) && Enabled(s, Act(w, move))
    requires run in s.table && s.table[run].status == Failed && s.table[run].token.None?
    requires s.phases[w].StatusDue? ==> RunOf(s.phases[w]) != run
    ensures Next(s, Act(w, move)).table[run] == s.table[run]
  {
    OnlyOwnRow(s, w, move);
  }

  lemma ClaimsStand(q: Phase, t: Table, t': Table, issued: set<Token>, more: set<Token>)
    requires WorkerOk(q, t, issued) && issued <= more
    requires TokenOf(q).Some? && IsCurrent(t', RunOf(q), TokenOf(q).value) ==>
      RunOf(q) in t && t'[RunOf(q)] == t[RunOf(q)]
    requires q.StatusDue? && RunOf(q) in t ==> RunOf(q) in t' && t'[RunOf(q)] == t[RunOf(q)]
    ensures WorkerOk(q, t', more)
  {
  }

  /** A move of worker w leaves every other worker's claims standing. */
  lemma OtherKept(s: State, w: WorkerId, move: Move, v: WorkerId)
    requires Inv(s) && Enabled(s, Act(w, move)) && v < |s.phases| && v != w
    ensures var s' := Next(s, Act(w, move)); WorkerOk(s.phases[v], s'.table, s'.issued)
  {
    var q, s' := s.phases[v], Next(s, Act(w, move));
    assert WorkerOk(q, s.table, s.issued);
    assert Apart(s.phases[w], q) && Apart(q, s.phases[w]);
    if TokenOf(q).Some? {
      ForeignToken(s, w, move, RunOf(q), TokenOf(q).value);
    } else if q.StatusDue? {
      ForeignDue(s, w, move, RunOf(q));
    }
    ClaimsStand(q, s.table, s'.table, s.issued, s'.issued);
  }

  lemma StillApart(s: State, w: WorkerId, move: Move, v: WorkerId)
    requires Inv(s) && Enabled(s, Act(w, move)) && v < |s.phases| && v != w
    ensures var s' := Next(s, Act(w, move));
      Apart(s'.phases[w], s.phases[v]) && Apart(s.phases[v], s'.phases[w])
  {
    var p, q := s.phases[w], s.phases[v];
    assert WorkerOk(p, s.table, s.issued) && WorkerOk(q, s.table, s.issued);
    assert Apart(p, q) && Apart(q, p);
    if move.FinishFailed? && IsCurrent(s.table, RunOf(p), p.token) {
      assert RowOk(RunOf(p), s.table[RunOf(p)], s.issued);
    }
  }

  lemma MoveKeepsInv(s: State, w: WorkerId, move: Move)
    requires Inv(s) && Enabled(s, Act(w, move))
    ensures Inv(Next(s, Act(w, move)))
  {
    var s' := Next(s, Act(w, move));
    RowsKept(s, w, move);
    SelfKept(s, w, move);
    forall v | 0 <= v < |s.phases| && v != w
      ensures WorkerOk(s'.phases[v], s'.table, s'.issued)
      ensures Apart(s'.phases[w], s'.phases[v]) && Apart(s'.phases[v], s'.phases[w])
    {
      OtherKept(s, w, move, v);
      StillApart(s, w, move, v);
    }
    forall u, v | 0 <= u < |s.phases| && 0 <= v < |s.phases| && u != v
      ensures Apart(s'.phases[u], s'.phases[v])
    {
      assert Apart(s.phases[u], s.phases[v]);
    }
  }

  /** A follow-up run changes the resolution columns and no others. */
  lemma FollowUpFrame(t: Table, d: Resolutions.Delivery, nullsFirst: bool)
    ensures var t' := Resolutions.FollowUp(t, d, nullsFirst);
      && t'.Keys == t.Keys
      && forall run | run in t :: t'[run] == t[run].(resolution := t'[run].resolution)
  {
    var settled := Resolutions.Settled(t, d, nullsFirst);
    if settled.Some? {
      assert settled.value in Resolutions.Candidates(t, d);
    }
  }

  lemma EnvironmentKeepsRows(s: State, a: Action)
    requires Inv(s) && Enabled(s, a) && !a.Act?
    ensures forall run <- Next(s, a).table :: RowOk(run, Next(s, a).table[run], Next(s, a).issued)
  {
    var s' := Next(s, a);
    if a.FollowUp? {
      FollowUpFrame(s.table, a.delivery, a.nullsFirst);
    }
    forall run | run in s'.table
      ensures RowOk(run, s'.table[run], s'.issued)
    {
      assert run in s.table ==> RowOk(run, s.table[run], s.issued);
    }
  }

  lemma StepKeepsInv(s: State, a: Action)
    requires Inv(s) && Enabled(s, a)
    ensures Inv(Next(s, a))
  {
    var s' := Next(s, a);
    if a.Act? {
      MoveKeepsInv(s, a.worker, a.move);
    } else {
      EnvironmentKeepsRows(s, a);
      forall w | 0 <= w < |s.phases|
        ensures WorkerOk(s'.phases[w], s'.table, s'.issued)
      {
        assert WorkerOk(s.phases[w], s.table, s.issued);
      }
    }
  }

  lemma {:induction false} RunKeepsInv(s: State, acts: seq<Action>)
    requires Inv(s) && Possible(s, acts)
    ensures Inv(Exec(s, acts))
    decreases |acts|
  {
    if acts != [] {
      RunKeepsInv(s, acts[..|acts| - 1]);
      StepKeepsInv(Exec(s, acts[..|acts| - 1]), acts[|acts| - 1]);
    }
  }

  // ---- completion is final ----

  lemma CompletedStays(s: State, a: Action, run: RunId)
    requires Inv(s) && Enabled(s, a)
    requires run in s.table && s.table[run].status == Completed
    ensures run in Next(s, a).table
    ensures Next(s, a).table[run] == s.table[run].(resolution := Next(s, a).table[run].resolution)
  {
    assert RowOk(run, s.table[run], s.issued);
    match a
    case FollowUp(d, nullsFirst) => FollowUpFrame(s.table, d, nullsFirst);
    case Act(w, move) =>
      OnlyOwnRow(s, w, move);
      assert WorkerOk(s.phases[w], s.table, s.issued);
    case _ =>
  }

  ghost predicate IsCompleted(s: State, run: RunId) {
    run in s.table && s.table[run].status == Completed
  }

  /** How many steps of a run of the system take the row of `run` into COMPLETED. */
  ghost function Completions(s: State, acts: seq<Action>, run: RunId): nat
    requires Possible(s, acts)
    decreases |acts|
  {
    if acts == [] then 0
    else
      var before := acts[..|acts| - 1];
      Completions(s, before, run)
        + if !IsCompleted(Exec(s, before), run) && IsCompleted(Exec(s, acts), run) then 1 else 0
  }

  /** In every interleaving a run completes at most once, and once completed it stays so. */
  lemma {:induction false} CompletesAtMostOnce(
    workers: nat, maxAttempts: int, now: Instant, acts: seq<Action>, run: RunId)
    requires Possible(Initial(workers, maxAttempts, now), acts)
    ensures var s := Initial(workers, maxAttempts, now);
      Completions(s, acts, run) == if IsCompleted(Exec(s, acts), run) then 1 else 0
    decreases |acts|
  {
    var s := Initial(workers, maxAttempts, now);
    if acts != [] {
      var before := acts[..|acts| - 1];
      CompletesAtMostOnce(workers, maxAttempts, now, before, run);
      RunKeepsInv(s, before);
      if IsCompleted(Exec(s, before), run) {
        CompletedStays(Exec(s, before), acts[|acts| - 1], run);
      }
    }
  }

  /** The unfenced write is owed by at most one worker per run, on a FAILED row without a token. */
  lemma OneWriterDue(workers: nat, maxAttempts: int, now: Instant, acts: seq<Action>, v: WorkerId, w: WorkerId)
    requires Possible(Initial(workers, maxAttempts, now), acts)
    requires var s := Exec(Initial(workers, maxAttempts, now), acts);
      v < |s.phases| && w < |s.phases| && s.phases[v].StatusDue? && s.phases[w].StatusDue?
      && RunOf(s.phases[v]) == RunOf(s.phases[w])
    ensures v == w
    ensures var s := Exec(Initial(workers, maxAttempts, now), acts);
      var run := RunOf(s.phases[w]);
      run in s.table && s.table[run].status == Failed && s.table[run].token.None?
  {
    var s := Exec(Initial(workers, maxAttempts, now), acts);
    RunKeepsInv(Initial(workers, maxAttempts, now), acts);
    assert WorkerOk(s.phases[w], s.table, s.issued);
    assert v != w ==> Apart(s.phases[v], s.phases[w]);
  }

  // ---- stage history ----

  /** The six stages in pipeline order, each started and then completed. */
  function SixPairs(token: Token): seq<Event> {
    seq(12, i requires 0 <= i < 12 => Event(i / 2, if i % 2 == 0 then Started else Done, token))
  }

  /** How many stage events the first `pc` store calls have written. */
  const WRITTEN: seq<nat> := [0, 1, 1, 2, 3, 4, 5, 6, 7, 8, 9, 10, 10, 11, 12]

  predicate Silent(instr: Instr) { instr.Touch? || instr.Report? }

  lemma InstrMatches(pc: nat)
    requires pc < |PROGRAM|
    ensures match PROGRAM[pc]
      case Open(stage) => WRITTEN[pc] == 2 * stage && WRITTEN[pc + 1] == WRITTEN[pc] + 1 <= 12
      case Close(stage) => WRITTEN[pc] == 2 * stage + 1 && WRITTEN[pc + 1] == WRITTEN[pc] + 1 <= 12
      case _ => WRITTEN[pc + 1] == WRITTEN[pc]
  {
  }

  lemma {:induction false} EmittedIsPrefix(pc: nat, token: Token)
    requires pc <= |PROGRAM|
    ensures WRITTEN[pc] <= 12 && Emitted(pc, token) == SixPairs(token)[..WRITTEN[pc]]
  {
    if pc > 0 {
      EmittedIsPrefix(pc - 1, token);
      InstrMatches(pc - 1);
      Extend(PROGRAM[pc - 1], WRITTEN[pc - 1], token);
    }
  }

  lemma Extend(instr: Instr, n: nat, token: Token)
    requires !Silent(instr) ==> n < 12 && n == 2 * instr.stage + (if instr.Open? then 0 else 1)
    requires n <= 12
    ensures SixPairs(token)[..n] + Emits(instr, token) == SixPairs(token)[..if Silent(instr) then n else n + 1]
  {
  }

  lemma {:induction false} OpenStage(pc: nat)
    requires InStage(pc)
    ensures WRITTEN[pc] == 2 * StageAt(pc).value + 1
  {
    if Silent(PROGRAM[pc - 1]) { OpenStage(pc - 1); }
  }

  /** A failed attempt wrote the pairs of the stages it passed, a start and a failure. */
  function FailedAt(stage: Stage, token: Token): seq<Event>
    requires stage <= PUBLISHING
  {
    SixPairs(token)[..2 * stage + 1] + [Event(stage, Broken, token)]
  }

  /** In every reachable state: open events belong to the newest attempt, nothing written after its
      begin comes from another one, and a completed run ends in exactly the six stage pairs. */
  lemma StageHistoryIsFenced(workers: nat, maxAttempts: int, now: Instant, acts: seq<Action>, run: RunId)
    requires Possible(Initial(workers, maxAttempts, now), acts)
    requires run in Exec(Initial(workers, maxAttempts, now), acts).table
    ensures var row := Exec(Initial(workers, maxAttempts, now), acts).table[run];
      && row.mark <= |row.history|
      && (forall i | 0 <= i < |row.history| :: row.history[i].status == Started || i >= row.mark ==>
            i >= row.mark && row.lastBegun == Some(row.history[i].writer))
      && (row.status == Completed ==> row.lastBegun.Some? && Tail(row) == SixPairs(row.lastBegun.value))
      && (row.status == Failed ==>
            row.lastBegun.Some? && exists stage: Stage :: stage <= PUBLISHING && Tail(row) == FailedAt(stage, row.lastBegun.value))
  {
    var s := Exec(Initial(workers, maxAttempts, now), acts);
    RunKeepsInv(Initial(workers, maxAttempts, now), acts);
    var row := s.table[run];
    assert RowOk(run, row, s.issued);
    forall i | 0 <= i < |row.history| && (row.history[i].status == Started || i >= row.mark)
      ensures i >= row.mark && row.lastBegun == Some(row.history[i].writer)
    {
      assert i >= row.mark;
      assert row.history[i] == Tail(row)[i - row.mark];
    }
    AttemptTails(row);
  }

  lemma AttemptTails(row: Row)
    requires row.mark <= |row.history|
    ensures row.lastBegun.Some? && Tail(row) == Emitted(|PROGRAM|, row.lastBegun.value)
        ==> Tail(row) == SixPairs(row.lastBegun.value)
    ensures row.lastBegun.Some? && (exists pc :: InStage(pc) && Tail(row) == FailedTail(pc, row.lastBegun.value))
        ==> exists stage: Stage :: stage <= PUBLISHING && Tail(row) == FailedAt(stage, row.lastBegun.value)
  {
    if row.lastBegun.Some? {
      var token := row.lastBegun.value;
      EmittedIsPrefix(|PROGRAM|, token);
      if pc :| InStage(pc) && Tail(row) == FailedTail(pc, token) {
        EmittedIsPrefix(pc, token);
        OpenStage(pc);
        assert Tail(row) == FailedAt(StageAt(pc).value, token);
      }
    }
  }

  /** The history is left alone, closed at a begin, or extended by one event of the current attempt. */
  ghost predicate HistoryGoesOn(row: Row, row': Row) {
    || row'.history == row.history
    || (row'.history == Superseded(row.history) && row'.mark == |row.history| && row'.token != row.token)
    || (exists e :: row'.history == row.history + [e] && row.token == Some(e.writer) && row'.token == row.token)
  }

  lemma HistoryAtBegin(s: State, w: WorkerId, token: Token, at: Instant)
    requires Inv(s) && Enabled(s, Act(w, Move.Begin(token, at))) && RunOf(s.phases[w]) in s.table
    ensures var run := RunOf(s.phases[w]);
      HistoryGoesOn(s.table[run], Next(s, Act(w, Move.Begin(token, at))).table[run])
  {
    assert RowOk(RunOf(s.phases[w]), s.table[RunOf(s.phases[w])], s.issued);
  }

  lemma HistoryAtProceed(s: State, w: WorkerId, category: string)
    requires Enabled(s, Act(w, Proceed(category))) && RunOf(s.phases[w]) in s.table
    ensures var run := RunOf(s.phases[w]);
      HistoryGoesOn(s.table[run], Next(s, Act(w, Proceed(category))).table[run])
  {
    var p := s.phases[w];
    match PROGRAM[p.pc]
    case Open(stage) => Appended(s.table[RunOf(p)], Event(stage, Started, p.token));
    case Close(stage) => Appended(s.table[RunOf(p)], Event(stage, Done, p.token));
    case _ =>
  }

  lemma HistoryAtFailure(s: State, w: WorkerId)
    requires Enabled(s, Act(w, RecordFailure)) && RunOf(s.phases[w]) in s.table
    ensures var run := RunOf(s.phases[w]);
      HistoryGoesOn(s.table[run], Next(s, Act(w, RecordFailure)).table[run])
  {
    var p := s.phases[w];
    Appended(s.table[RunOf(p)], Event(StageAt(p.pc).value, Broken, p.token));
  }

  lemma Appended(row: Row, e: Event)
    ensures row.token == Some(e.writer) ==> HistoryGoesOn(row, row.(history := row.history + [e]))
  {
  }

  lemma HistoryOtherwise(s: State, w: WorkerId, move: Move)
    requires Enabled(s, Act(w, move)) && Has(s.phases[w]) && RunOf(s.phases[w]) in s.table
    requires !move.Begin? && !move.Proceed? && !move.RecordFailure?
    ensures var run := RunOf(s.phases[w]);
      HistoryGoesOn(s.table[run], Next(s, Act(w, move)).table[run])
  {
  }

  lemma HistoryOfMove(s: State, w: WorkerId, move: Move)
    requires Inv(s) && Enabled(s, Act(w, move)) && Has(s.phases[w]) && RunOf(s.phases[w]) in s.table
    ensures var run := RunOf(s.phases[w]);
      HistoryGoesOn(s.table[run], Next(s, Act(w, move)).table[run])
  {
    if move.Begin? {
      HistoryAtBegin(s, w, move.token, move.at);
    } else if move.Proceed? {
      HistoryAtProceed(s, w, move.category);
    } else if move.RecordFailure? {
      HistoryAtFailure(s, w);
    } else {
      HistoryOtherwise(s, w, move);
    }
  }

  /** Every step lets every history go on. */
  lemma HistoryStep(s: State, a: Action, run: RunId)
    requires Inv(s) && Enabled(s, a) && run in s.table
    ensures run in Next(s, a).table && HistoryGoesOn(s.table[run], Next(s, a).table[run])
  {
    match a
    case FollowUp(d, nullsFirst) => FollowUpFrame(s.table, d, nullsFirst);
    case Act(w, move) =>
      OnlyOwnRow(s, w, move);
      if Has(s.phases[w]) && run == RunOf(s.phases[w]) { HistoryOfMove(s, w, move); }
    case _ =>
  }
}
