/** What the queue guarantees when leases lapse only for workers that have stopped. */
module Delivery {
  import opened Domain
  import opened Rows
  import opened Protocol
  import opened Safety
  import opened Timing
  import R = RedisQueue

  /** A lease only expires once its worker has stopped renewing it. */
  predicate LeaseAccurate(s: State, a: Action) {
    a.Lapse? && a.worker < |s.phases| ==> s.phases[a.worker].Stopped?
  }

  ghost predicate Accurate(s: State, acts: seq<Action>)
    requires Possible(s, acts)
    decreases |acts|
  {
    acts == [] ||
    (Accurate(s, acts[..|acts| - 1]) && LeaseAccurate(Exec(s, acts[..|acts| - 1]), acts[|acts| - 1]))
  }

  predicate Alive(p: Phase) { !p.Stopped? && !p.Idle? }

  /** A live worker is registered, leased, and still owns the delivery it works on. */
  ghost predicate WorkerOwns(w: WorkerId, p: Phase, q: R.Redis) {
    && (Alive(p) ==> w in q.leases && w in q.registered)
    && (Has(p) ==> p.job.envelope in R.Held(q, w))
  }

  /** What the owner of a delivery knows about the row of its run. */
  ghost predicate OwnerSees(p: Phase, t: Table) {
    Has(p) ==>
      && RunOf(p) in t
      && (p.Holding? && t[RunOf(p)].timing.startedAt.Some? ==> t[RunOf(p)].timing.startedAt.value <= p.job.since)
      && (TokenOf(p).Some? ==>
          && t[RunOf(p)].token == TokenOf(p)
          && t[RunOf(p)].timing.startedAt.Some? && t[RunOf(p)].timing.startedAt.value <= p.begun)
      && (p.StatusDue? || p.Acking? ==> !Active(t[RunOf(p)]))
      && (p.Retrying? ==> t[RunOf(p)].status == Queued)
  }

  /** Queue wait plus duration fit in the latency of every finished attempt. */
  ghost predicate LatencyOk(row: Row) {
    row.timing.duration.Some? ==>
      && row.timing.queueWait.Some? && row.timing.totalLatency.Some?
      && row.timing.queueWait.value + row.timing.duration.value <= row.timing.totalLatency.value
  }

  ghost predicate Owned(s: State) {
    && Inv(s) && TimeInv(s)
    && (forall w | 0 <= w < |s.phases| :: WorkerOwns(w, s.phases[w], s.queue))
    && (forall w | 0 <= w < |s.phases| :: OwnerSees(s.phases[w], s.table))
    && (forall w: WorkerId :: R.Held(s.queue, w) != [] ==> w in s.queue.registered && w < |s.phases|)
    && s.queue.dedupe <= s.admitted <= s.table.Keys
    && (forall run | run in s.admitted :: Active(s.table[run]) ==> run in s.queue.dedupe)
    && (forall run | run in s.table :: LatencyOk(s.table[run]))
  }

  lemma OneOwner(s: State, v: WorkerId, w: WorkerId)
    requires Owned(s) && v < |s.phases| && w < |s.phases| && v != w
    requires Has(s.phases[v]) && Has(s.phases[w])
    ensures RunOf(s.phases[v]) != RunOf(s.phases[w])
  {
    assert WorkerOwns(v, s.phases[v], s.queue) && WorkerOwns(w, s.phases[w], s.queue);
    R.HeldOnce(s.queue, v, s.phases[v].job.envelope);
  }

  /** An operation on another worker's keys leaves this worker's keys alone. */
  lemma OtherKeys(q: R.Redis, op: R.Op, w: WorkerId)
    requires op.Pop? || op.Ack? || op.Retry? || op.Recover? || op.Lapse? || op.Beat? ==> op.worker != w
    ensures R.Held(R.Step(q, op), w) == R.Held(q, w)
    ensures w in R.Step(q, op).leases <==> w in q.leases
    ensures w in R.Step(q, op).registered <==> w in q.registered
  {
  }

  lemma MoverOwns(s: State, w: WorkerId, move: Move)
    requires Owned(s) && Enabled(s, Act(w, move))
    ensures var s' := Next(s, Act(w, move)); WorkerOwns(w, s'.phases[w], s'.queue)
  {
    assert WorkerOwns(w, s.phases[w], s.queue);
    if move.Pop? && s.queue.pending != [] {
      assert s.queue.pending[|s.queue.pending| - 1] in R.Held(Next(s, Act(w, move)).queue, w);
    }
  }

  /** The queue side: live workers keep their leases and their deliveries. */
  lemma OwnershipStep(s: State, a: Action, w: WorkerId)
    requires Owned(s) && Enabled(s, a) && LeaseAccurate(s, a) && w < |s.phases|
    ensures var s' := Next(s, a); WorkerOwns(w, s'.phases[w], s'.queue)
  {
    assert WorkerOwns(w, s.phases[w], s.queue);
    if a.Act? && a.worker == w {
      MoverOwns(s, w, a.move);
    } else if !((a.Lapse? || a.Recover? || a.Beat?) && a.worker == w) {
      OtherKeys(s.queue, QueueOp(s, a), w);
    }
  }

  lemma RegistrationStep(s: State, a: Action)
    requires Owned(s) && Enabled(s, a) && LeaseAccurate(s, a)
    ensures var s' := Next(s, a);
      forall w: WorkerId :: R.Held(s'.queue, w) != [] ==> w in s'.queue.registered && w < |s'.phases|
  {
    var s' := Next(s, a);
    forall w: WorkerId | R.Held(s'.queue, w) != []
      ensures w in s'.queue.registered && w < |s'.phases|
    {
      if a.Act? { assert WorkerOwns(a.worker, s.phases[a.worker], s.queue); }
    }
  }

  lemma PopSees(s: State, w: WorkerId)
    requires Owned(s) && Enabled(s, Act(w, Pop))
    ensures var s' := Next(s, Act(w, Pop)); OwnerSees(s'.phases[w], s'.table)
  {
    if s.queue.pending != [] {
      var e := s.queue.pending[|s.queue.pending| - 1];
      PendingIsKnown(s.queue, e);
      assert RowTimes(s.table[e.request.runId], s.now);
    }
  }

  lemma MoverSees(s: State, w: WorkerId, move: Move)
    requires Owned(s) && Enabled(s, Act(w, move))
    ensures var s' := Next(s, Act(w, move)); OwnerSees(s'.phases[w], s'.table)
  {
    if move.Pop? {
      PopSees(s, w);
    } else if move.Proceed? {
      ProceedSees(s, w, move.category);
    } else if move.Begin? {
      BeginSees(s, w, move);
    } else {
      OtherwiseSees(s, w, move);
    }
  }

  lemma OtherwiseSees(s: State, w: WorkerId, move: Move)
    requires Owned(s) && Enabled(s, Act(w, move)) && !move.Pop? && !move.Proceed? && !move.Begin?
    ensures var s' := Next(s, Act(w, move)); OwnerSees(s'.phases[w], s'.table)
  {
    var p := s.phases[w];
    if move.FinishFailed? || move.FinishCompleted? || move.WriteStatus? {
      FinishSees(s, w, move);
    } else if Has(p) {
      assert OwnerSees(p, s.table);
    }
  }

  lemma FinishSees(s: State, w: WorkerId, move: Move)
    requires Owned(s) && Enabled(s, Act(w, move))
    requires move.FinishFailed? || move.FinishCompleted? || move.WriteStatus?
    ensures var s' := Next(s, Act(w, move)); OwnerSees(s'.phases[w], s'.table)
  {
    assert OwnerSees(s.phases[w], s.table) && WorkerOk(s.phases[w], s.table, s.issued);
  }

  lemma BeginSees(s: State, w: WorkerId, move: Move)
    requires Owned(s) && Enabled(s, Act(w, move)) && move.Begin?
    ensures var s' := Next(s, Act(w, move)); OwnerSees(s'.phases[w], s'.table)
  {
    var p := s.phases[w];
    assert OwnerSees(p, s.table) && WorkerOk(p, s.table, s.issued);
    assert RowOk(RunOf(p), s.table[RunOf(p)], s.issued);
  }

  lemma ProceedSees(s: State, w: WorkerId, category: string)
    requires Owned(s) && Enabled(s, Act(w, Proceed(category)))
    ensures var s' := Next(s, Act(w, Proceed(category))); OwnerSees(s'.phases[w], s'.table)
  {
    var p := s.phases[w];
    assert OwnerSees(p, s.table);
    match PROGRAM[p.pc]
    case Open(_) =>
    case Close(_) =>
    case _ =>
  }

  lemma SightStep(s: State, a: Action, v: WorkerId)
    requires Owned(s) && Enabled(s, a) && v < |s.phases|
    ensures OwnerSees(Next(s, a).phases[v], Next(s, a).table)
  {
    var p := s.phases[v];
    assert OwnerSees(p, s.table);
    KeysGrow(s, a);
    match a
    case FollowUp(d, nullsFirst) => FollowUpFrame(s.table, d, nullsFirst);
    case Act(w, move) =>
      if w == v {
        MoverSees(s, w, move);
      } else {
        OnlyOwnRow(s, w, move);
        if Has(s.phases[w]) && Has(p) { OneOwner(s, v, w); }
      }
    case _ =>
  }

  /** Only an acknowledgement that finds its delivery takes a run out of the deduplication set. */
  lemma DedupeAtMove(s: State, w: WorkerId, move: Move)
    requires Enabled(s, Act(w, move))
    ensures var p := s.phases[w];
      Next(s, Act(w, move)).queue.dedupe ==
        if move == Settle(false) && p.Acking? && p.job.envelope in R.Held(s.queue, w)
        then s.queue.dedupe - {RunOf(p)} else s.queue.dedupe
  {
  }

  lemma AdmittedAtMove(s: State, w: WorkerId, move: Move, run: RunId)
    requires Owned(s) && Enabled(s, Act(w, move)) && run in s.admitted
    ensures var s' := Next(s, Act(w, move)); run in s'.table && (Active(s'.table[run]) ==> run in s'.queue.dedupe)
  {
    var p := s.phases[w];
    DedupeAtMove(s, w, move);
    if Has(p) && run == RunOf(p) {
      assert OwnerSees(p, s.table) && WorkerOwns(w, p, s.queue) && RowOk(run, s.table[run], s.issued);
      MoveWrites(s, w, move);
      R.HeldOnce(s.queue, w, p.job.envelope);
    } else {
      OnlyOwnRow(s, w, move);
    }
  }

  lemma AdmittedStep(s: State, a: Action, run: RunId)
    requires Owned(s) && Enabled(s, a) && run in Next(s, a).admitted
    ensures run in Next(s, a).table
    ensures Active(Next(s, a).table[run]) ==> run in Next(s, a).queue.dedupe
  {
    if a.Act? {
      AdmittedAtMove(s, a.worker, a.move, run);
    } else {
      KeysGrow(s, a);
      if a.Enqueue? { assert RowOk(a.run, s.table[a.run], s.issued); }
      if a.FollowUp? { FollowUpFrame(s.table, a.delivery, a.nullsFirst); }
    }
  }

  lemma LatencyAtMove(s: State, w: WorkerId, move: Move, run: RunId)
    requires Owned(s) && Enabled(s, Act(w, move)) && run in s.table
    ensures run in Next(s, Act(w, move)).table && LatencyOk(Next(s, Act(w, move)).table[run])
  {
    var p := s.phases[w];
    assert LatencyOk(s.table[run]) && RowTimes(s.table[run], s.now);
    if Has(p) && run == RunOf(p) {
      assert OwnerSees(p, s.table) && HolderTimes(p, s.table, s.now);
      MoveWrites(s, w, move);
    } else {
      OnlyOwnRow(s, w, move);
    }
  }

  lemma LatencyStep(s: State, a: Action, run: RunId)
    requires Owned(s) && Enabled(s, a) && run in Next(s, a).table
    ensures LatencyOk(Next(s, a).table[run])
  {
    KeysGrow(s, a);
    if run in s.table {
      assert LatencyOk(s.table[run]);
      if a.FollowUp? { FollowUpFrame(s.table, a.delivery, a.nullsFirst); }
      if a.Act? { LatencyAtMove(s, a.worker, a.move, run); }
    }
  }

  lemma DedupeAdmitted(s: State, a: Action)
    requires Owned(s) && Enabled(s, a)
    ensures Next(s, a).queue.dedupe <= Next(s, a).admitted
  {
    match a
    case Enqueue(run) => assert RowOk(run, s.table[run], s.issued);
    case _ =>
  }

  lemma OwnedStep(s: State, a: Action)
    requires Owned(s) && Enabled(s, a) && LeaseAccurate(s, a)
    ensures Owned(Next(s, a))
  {
    var s' := Next(s, a);
    StepKeepsInv(s, a);
    TimeStep(s, a);
    RegistrationStep(s, a);
    DedupeAdmitted(s, a);
    forall w | 0 <= w < |s'.phases|
      ensures WorkerOwns(w, s'.phases[w], s'.queue) && OwnerSees(s'.phases[w], s'.table)
    {
      OwnershipStep(s, a, w);
      SightStep(s, a, w);
    }
    forall run | run in s'.admitted
      ensures run in s'.table && (Active(s'.table[run]) ==> run in s'.queue.dedupe)
    {
      AdmittedStep(s, a, run);
    }
    forall run | run in s'.table
      ensures LatencyOk(s'.table[run])
    {
      LatencyStep(s, a, run);
    }
  }

  lemma {:induction false} RunKeepsOwned(workers: nat, maxAttempts: int, now: Instant, acts: seq<Action>)
    requires Possible(Initial(workers, maxAttempts, now), acts)
    requires Accurate(Initial(workers, maxAttempts, now), acts)
    ensures Owned(Exec(Initial(workers, maxAttempts, now), acts))
    decreases |acts|
  {
    var s := Initial(workers, maxAttempts, now);
    if acts == [] {
      RunKeepsTime(workers, maxAttempts, now, []);
    } else {
      RunKeepsOwned(workers, maxAttempts, now, acts[..|acts| - 1]);
      OwnedStep(Exec(s, acts[..|acts| - 1]), acts[|acts| - 1]);
    }
  }

  /** With accurate leases no admitted run is lost while it still has to be analysed: it has exactly
      one queue entry.  Every non-empty processing list belongs to a registered worker. */
  lemma NoRunIsLost(workers: nat, maxAttempts: int, now: Instant, acts: seq<Action>)
    requires Possible(Initial(workers, maxAttempts, now), acts)
    requires Accurate(Initial(workers, maxAttempts, now), acts)
    ensures var s := Exec(Initial(workers, maxAttempts, now), acts);
      && (forall run | run in s.admitted :: run in s.table
            && (Active(s.table[run]) ==> R.Total(R.Occurrences(run), s.queue) == 1))
      && (forall w: WorkerId :: R.Held(s.queue, w) != [] ==> w in s.queue.registered)
  {
    RunKeepsOwned(workers, maxAttempts, now, acts);
  }

  /** With accurate leases a run is never worked on twice at once. */
  lemma NoConcurrentAttempts(
    workers: nat, maxAttempts: int, now: Instant, acts: seq<Action>, v: WorkerId, w: WorkerId)
    requires Possible(Initial(workers, maxAttempts, now), acts)
    requires Accurate(Initial(workers, maxAttempts, now), acts)
    requires var s := Exec(Initial(workers, maxAttempts, now), acts);
      v < |s.phases| && w < |s.phases| && v != w && Has(s.phases[v]) && Has(s.phases[w])
    ensures var s := Exec(Initial(workers, maxAttempts, now), acts); RunOf(s.phases[v]) != RunOf(s.phases[w])
  {
    RunKeepsOwned(workers, maxAttempts, now, acts);
    OneOwner(Exec(Initial(workers, maxAttempts, now), acts), v, w);
  }

  /** With accurate leases no attempt is superseded: its token stays current until it finishes. */
  lemma NoAttemptIsSuperseded(workers: nat, maxAttempts: int, now: Instant, acts: seq<Action>, w: WorkerId)
    requires Possible(Initial(workers, maxAttempts, now), acts)
    requires Accurate(Initial(workers, maxAttempts, now), acts)
    requires var s := Exec(Initial(workers, maxAttempts, now), acts);
      w < |s.phases| && TokenOf(s.phases[w]).Some?
    ensures var s := Exec(Initial(workers, maxAttempts, now), acts);
      IsCurrent(s.table, RunOf(s.phases[w]), TokenOf(s.phases[w]).value)
  {
    var s := Exec(Initial(workers, maxAttempts, now), acts);
    RunKeepsOwned(workers, maxAttempts, now, acts);
    assert OwnerSees(s.phases[w], s.table);
  }

  /** With accurate leases the recorded wait and duration always fit in the recorded latency. */
  lemma LatencyCoversWait(workers: nat, maxAttempts: int, now: Instant, acts: seq<Action>, run: RunId)
    requires Possible(Initial(workers, maxAttempts, now), acts)
    requires Accurate(Initial(workers, maxAttempts, now), acts)
    requires run in Exec(Initial(workers, maxAttempts, now), acts).table
    ensures LatencyOk(Exec(Initial(workers, maxAttempts, now), acts).table[run])
  {
    RunKeepsOwned(workers, maxAttempts, now, acts);
  }

  // ---- exactly which steps lose a run, leases accurate or not ----

  /** An admitted run that still has to be analysed is in the queue. */
  predicate Kept(s: State, run: RunId) {
    run in s.admitted ==> run in s.table && (Active(s.table[run]) ==> run in s.queue.dedupe)
  }

  /** A worker drops the entry of a run that another attempt has made active again, or sets a run
      back to QUEUED after its entry has gone. */
  predicate Loses(s: State, a: Action, run: RunId) {
    && run in s.admitted && run in s.table
    && a.Act? && a.worker < |s.phases| && Has(s.phases[a.worker]) && RunOf(s.phases[a.worker]) == run
    && var p := s.phases[a.worker];
      || (&& a.move == Settle(false) && p.Acking?
          && p.job.envelope in R.Held(s.queue, a.worker) && Active(s.table[run]))
      || (a.move.WriteStatus? && Retryable(s, p.job) && run !in s.queue.dedupe)
  }

  lemma MoveKeepsExactlyWhen(s: State, w: WorkerId, move: Move, run: RunId)
    requires Inv(s) && TimeInv(s) && Enabled(s, Act(w, move)) && Kept(s, run)
    ensures Kept(Next(s, Act(w, move)), run) <==> !Loses(s, Act(w, move), run)
  {
    var p := s.phases[w];
    DedupeAtMove(s, w, move);
    OnlyOwnRow(s, w, move);
    if Has(p) && run == RunOf(p) && run in s.table {
      assert WorkerOk(p, s.table, s.issued) && RowOk(run, s.table[run], s.issued);
      MoveWrites(s, w, move);
    }
  }

  lemma StepKeepsExactlyWhen(s: State, a: Action, run: RunId)
    requires Inv(s) && TimeInv(s) && Enabled(s, a) && Kept(s, run)
    ensures Kept(Next(s, a), run) <==> !Loses(s, a, run)
  {
    if a.Act? {
      MoveKeepsExactlyWhen(s, a.worker, a.move, run);
    } else {
      KeysGrow(s, a);
      if a.Enqueue? { assert run in s.table ==> RowOk(run, s.table[run], s.issued); }
      if a.FollowUp? { FollowUpFrame(s.table, a.delivery, a.nullsFirst); }
    }
  }

  ghost predicate AlwaysKept(s: State, acts: seq<Action>, run: RunId)
    requires Possible(s, acts)
    decreases |acts|
  {
    Kept(Exec(s, acts), run) && (acts != [] ==> AlwaysKept(s, acts[..|acts| - 1], run))
  }

  ghost predicate NeverLoses(s: State, acts: seq<Action>, run: RunId)
    requires Possible(s, acts)
    decreases |acts|
  {
    acts == [] ||
    (NeverLoses(s, acts[..|acts| - 1], run) && !Loses(Exec(s, acts[..|acts| - 1]), acts[|acts| - 1], run))
  }

  /** Over every run of the system, with any leases: an admitted run that still has to be analysed is
      in the queue at every moment if and only if no step of the run loses it. */
  lemma {:induction false} KeptExactlyWhenNoStepLoses(
    workers: nat, maxAttempts: int, now: Instant, acts: seq<Action>, run: RunId)
    requires Possible(Initial(workers, maxAttempts, now), acts)
    ensures var s := Initial(workers, maxAttempts, now); AlwaysKept(s, acts, run) <==> NeverLoses(s, acts, run)
    decreases |acts|
  {
    var s := Initial(workers, maxAttempts, now);
    if acts != [] {
      var before := acts[..|acts| - 1];
      KeptExactlyWhenNoStepLoses(workers, maxAttempts, now, before, run);
      RunKeepsTime(workers, maxAttempts, now, before);
      if Kept(Exec(s, before), run) {
        StepKeepsExactlyWhen(Exec(s, before), acts[|acts| - 1], run);
      } else {
        assert !AlwaysKept(s, before, run);
      }
    }
  }

  // ---- attempts over whole runs, leases accurate or not ----

  ghost function QueueOps(s: State, acts: seq<Action>): seq<R.Op>
    requires Possible(s, acts)
    decreases |acts|
  {
    if acts == [] then []
    else QueueOps(s, acts[..|acts| - 1]) + [QueueOp(Exec(s, acts[..|acts| - 1]), acts[|acts| - 1])]
  }

  ghost predicate RetriesAllowed(s: State) {
    && R.AllWithinLimit(s.queue, s.maxAttempts)
    && (forall w | 0 <= w < |s.phases| && Has(s.phases[w]) ::
          && s.phases[w].job.envelope.attempts <= Max(0, s.maxAttempts - 1)
          && (s.phases[w].Retrying? ==> Retryable(s, s.phases[w].job)))
  }

  lemma RetriesStep(s: State, a: Action)
    requires RetriesAllowed(s) && Enabled(s, a)
    ensures RetriesAllowed(Next(s, a))
    ensures R.AllowedRetry(QueueOp(s, a), s.maxAttempts)
  {
    var s' := Next(s, a);
    R.StepWithinLimit(s.queue, QueueOp(s, a), s.maxAttempts);
    forall w | 0 <= w < |s'.phases| && Has(s'.phases[w])
      ensures s'.phases[w].job.envelope.attempts <= Max(0, s.maxAttempts - 1)
      ensures s'.phases[w].Retrying? ==> Retryable(s', s'.phases[w].job)
    {
      if a.Act? && a.move.Pop? && a.worker == w {
        assert R.WithinLimit(s.queue.pending, s.maxAttempts);
      }
    }
  }

  lemma {:induction false} QueueRun(workers: nat, maxAttempts: int, now: Instant, acts: seq<Action>)
    requires Possible(Initial(workers, maxAttempts, now), acts)
    ensures var s := Initial(workers, maxAttempts, now);
      && Exec(s, acts).queue == R.Steps(R.EMPTY, QueueOps(s, acts))
      && RetriesAllowed(Exec(s, acts)) && Exec(s, acts).maxAttempts == maxAttempts
      && forall op <- QueueOps(s, acts) :: R.AllowedRetry(op, maxAttempts)
    decreases |acts|
  {
    var s := Initial(workers, maxAttempts, now);
    if acts != [] {
      var before := acts[..|acts| - 1];
      QueueRun(workers, maxAttempts, now, before);
      RetriesStep(Exec(s, before), acts[|acts| - 1]);
      var op := QueueOp(Exec(s, before), acts[|acts| - 1]);
      assert (QueueOps(s, before) + [op])[..|QueueOps(s, before)|] == QueueOps(s, before);
    }
  }

  /** Whatever leases do, a run settles at most `maxAttempts` deliveries per admission and is out of
      the queue after the last; no delivery ever exceeds the retry limit. */
  lemma AttemptsAreBounded(workers: nat, maxAttempts: int, now: Instant, acts: seq<Action>, run: RunId)
    requires Possible(Initial(workers, maxAttempts, now), acts)
    ensures var s := Exec(Initial(workers, maxAttempts, now), acts);
      && R.Conserved(s.queue)
      && R.AllWithinLimit(s.queue, maxAttempts)
      && (forall w | 0 <= w < |s.phases| && Has(s.phases[w]) ::
            s.phases[w].job.envelope.attempts <= Max(0, maxAttempts - 1))
    ensures maxAttempts >= 1 ==>
      var ops := QueueOps(Initial(workers, maxAttempts, now), acts);
      && R.Outcomes(R.EMPTY, ops, run) <= maxAttempts * R.Admissions(R.EMPTY, ops, run)
      && (R.Outcomes(R.EMPTY, ops, run) == maxAttempts * R.Admissions(R.EMPTY, ops, run) ==>
            run !in Exec(Initial(workers, maxAttempts, now), acts).queue.dedupe)
  {
    var s := Initial(workers, maxAttempts, now);
    QueueRun(workers, maxAttempts, now, acts);
    R.Conservation(QueueOps(s, acts));
    if maxAttempts >= 1 {
      R.LeavesAfterMaxOutcomes(QueueOps(s, acts), run, maxAttempts);
    }
  }
}
