/** The timing columns over all attempts of a run, in every interleaving. */
module Timing {
  import opened Domain
  import opened Rows
  import opened Protocol
  import opened Safety
  import R = RedisQueue

  ghost predicate RowTimes(row: Row, now: Instant) {
    && row.record.createdAt <= now
    && (row.timing.startedAt.Some? ==>
        && row.record.createdAt <= row.timing.startedAt.value <= now
        && row.timing.queueWait == Some(row.timing.startedAt.value - row.record.createdAt))
    && (row.timing.startedAt.None? ==> row.timing.queueWait.None? && row.token.None?)
  }

  ghost predicate HolderTimes(p: Phase, t: Table, now: Instant) {
    Has(p) ==>
      && RunOf(p) in t
      && t[RunOf(p)].record.createdAt <= p.job.since <= now
      && (TokenOf(p).Some? ==> p.job.since <= p.begun <= now)
  }

  /** Every entry belongs to a stored run, and no clock reading lies in the future. */
  ghost predicate TimeInv(s: State) {
    && R.Conserved(s.queue)
    && s.queue.dedupe <= s.table.Keys
    && (forall run | run in s.table :: RowTimes(s.table[run], s.now))
    && (forall w | 0 <= w < |s.phases| :: HolderTimes(s.phases[w], s.table, s.now))
  }

  lemma PendingIsKnown(q: R.Redis, e: Envelope)
    requires R.Conserved(q) && e in q.pending
    ensures e.request.runId in q.dedupe
  {
    R.SumBounds(e.request.runId, q.pending);
    R.SumAllBounds(e.request.runId, q.processing);
    assert R.Total(R.Occurrences(e.request.runId), q) == (if e.request.runId in q.dedupe then 1 else 0);
  }

  lemma WrittenTimes(s: State, p: Phase, move: Move, row: Row, after: Row)
    requires MoveEnabled(s, p, move) && Has(p) && Writes(s, p, move, row, after)
    requires RowTimes(row, s.now) && row.record.createdAt <= p.job.since
    ensures RowTimes(after, s.now) && after.record == row.record
  {
  }

  lemma RowTimesAtMove(s: State, w: WorkerId, move: Move, run: RunId)
    requires TimeInv(s) && Enabled(s, Act(w, move)) && run in s.table
    ensures var t' := Next(s, Act(w, move)).table;
      run in t' && RowTimes(t'[run], s.now) && t'[run].record == s.table[run].record
  {
    var p := s.phases[w];
    assert RowTimes(s.table[run], s.now);
    if Has(p) && run == RunOf(p) {
      assert HolderTimes(p, s.table, s.now);
      MoveWrites(s, w, move);
      WrittenTimes(s, p, move, s.table[run], Next(s, Act(w, move)).table[run]);
    } else {
      OnlyOwnRow(s, w, move);
    }
  }

  lemma RowTimesKept(s: State, a: Action, run: RunId)
    requires TimeInv(s) && Enabled(s, a) && run in s.table
    ensures run in Next(s, a).table && RowTimes(Next(s, a).table[run], Next(s, a).now)
    ensures Next(s, a).table[run].record == s.table[run].record
  {
    assert RowTimes(s.table[run], s.now);
    if a.FollowUp? {
      FollowUpFrame(s.table, a.delivery, a.nullsFirst);
    } else if a.Act? {
      RowTimesAtMove(s, a.worker, a.move, run);
    }
  }

  lemma KeysGrow(s: State, a: Action)
    requires Enabled(s, a)
    ensures s.table.Keys <= Next(s, a).table.Keys
    ensures forall run | run in Next(s, a).table && run !in s.table ::
      a.Create? && Next(s, a).table[run] == NewRow(a.record) && run == a.record.runId
  {
    if a.FollowUp? { FollowUpFrame(s.table, a.delivery, a.nullsFirst); }
    if a.Act? { OnlyOwnRow(s, a.worker, a.move); }
  }

  lemma PopTimes(s: State, w: WorkerId)
    requires TimeInv(s) && Enabled(s, Act(w, Pop))
    ensures var s' := Next(s, Act(w, Pop)); HolderTimes(s'.phases[w], s'.table, s'.now)
  {
    if s.queue.pending != [] {
      var e := s.queue.pending[|s.queue.pending| - 1];
      PendingIsKnown(s.queue, e);
      assert RowTimes(s.table[e.request.runId], s.now);
    }
  }

  lemma MoverTimesKept(s: State, w: WorkerId, move: Move)
    requires TimeInv(s) && Enabled(s, Act(w, move))
    ensures var s' := Next(s, Act(w, move)); HolderTimes(s'.phases[w], s'.table, s'.now)
  {
    if move.Pop? {
      PopTimes(s, w);
    } else {
      var p := s.phases[w];
      assert HolderTimes(p, s.table, s.now);
      MoverPhase(s, w, move);
      if Has(p) { RowTimesAtMove(s, w, move, RunOf(p)); }
    }
  }

  lemma TimeStep(s: State, a: Action)
    requires Inv(s) && TimeInv(s) && Enabled(s, a)
    ensures TimeInv(Next(s, a))
  {
    var s' := Next(s, a);
    R.StepConserves(s.queue, QueueOp(s, a));
    KeysGrow(s, a);
    forall run | run in s'.table
      ensures RowTimes(s'.table[run], s'.now)
    {
      if run in s.table { RowTimesKept(s, a, run); }
    }
    forall v | 0 <= v < |s'.phases|
      ensures HolderTimes(s'.phases[v], s'.table, s'.now)
    {
      assert HolderTimes(s.phases[v], s.table, s.now);
      if a.Act? && a.worker == v {
        MoverTimesKept(s, v, a.move);
      } else if Has(s.phases[v]) {
        RowTimesKept(s, a, RunOf(s.phases[v]));
      }
    }
  }

  lemma {:induction false} RunKeepsTime(workers: nat, maxAttempts: int, now: Instant, acts: seq<Action>)
    requires Possible(Initial(workers, maxAttempts, now), acts)
    ensures var s := Exec(Initial(workers, maxAttempts, now), acts); Inv(s) && TimeInv(s)
    decreases |acts|
  {
    var s := Initial(workers, maxAttempts, now);
    RunKeepsInv(s, acts);
    if acts == [] {
      R.Conservation([]);
    } else {
      RunKeepsTime(workers, maxAttempts, now, acts[..|acts| - 1]);
      TimeStep(Exec(s, acts[..|acts| - 1]), acts[|acts| - 1]);
    }
  }

  // ---- written once ----

  lemma FirstStartIsKept(s: State, a: Action, run: RunId)
    requires Enabled(s, a) && run in s.table
    ensures run in Next(s, a).table
    ensures var before, after := s.table[run].timing, Next(s, a).table[run].timing;
      && (before.startedAt.Some? ==> after.startedAt == before.startedAt)
      && (before.queueWait.Some? ==> after.queueWait == before.queueWait)
  {
    KeysGrow(s, a);
    if a.FollowUp? { FollowUpFrame(s.table, a.delivery, a.nullsFirst); }
    if a.Act? { OnlyOwnRow(s, a.worker, a.move); }
  }

  /** Does this step's `begin_analysis` succeed and report `first_start`? */
  predicate ReportsFirstStart(s: State, a: Action, run: RunId)
    requires Enabled(s, a)
  {
    && a.Act? && a.move.Begin? && RunOf(s.phases[a.worker]) == run
    && CanBegin(s.table, run) && s.table[run].timing.startedAt.None?
  }

  ghost function FirstStarts(s: State, acts: seq<Action>, run: RunId): nat
    requires Possible(s, acts)
    decreases |acts|
  {
    if acts == [] then 0
    else
      var before := acts[..|acts| - 1];
      FirstStarts(s, before, run) + if ReportsFirstStart(Exec(s, before), acts[|acts| - 1], run) then 1 else 0
  }

  ghost predicate HasStarted(s: State, run: RunId) {
    run in s.table && s.table[run].timing.startedAt.Some?
  }

  lemma StartsOnlyAtBegin(s: State, a: Action, run: RunId)
    requires Enabled(s, a)
    ensures HasStarted(Next(s, a), run) <==> HasStarted(s, run) || ReportsFirstStart(s, a, run)
  {
    KeysGrow(s, a);
    if run in s.table { FirstStartIsKept(s, a, run); }
    if a.FollowUp? { FollowUpFrame(s.table, a.delivery, a.nullsFirst); }
    if a.Act? { OnlyOwnRow(s, a.worker, a.move); }
  }

  /** At most one `begin_analysis` of a run reports `first_start`, whatever happens in between. */
  lemma {:induction false} FirstStartReportedOnce(
    workers: nat, maxAttempts: int, now: Instant, acts: seq<Action>, run: RunId)
    requires Possible(Initial(workers, maxAttempts, now), acts)
    ensures var s := Initial(workers, maxAttempts, now);
      FirstStarts(s, acts, run) == if HasStarted(Exec(s, acts), run) then 1 else 0
    decreases |acts|
  {
    if acts != [] {
      var before := acts[..|acts| - 1];
      FirstStartReportedOnce(workers, maxAttempts, now, before, run);
      StartsOnlyAtBegin(Exec(Initial(workers, maxAttempts, now), before), acts[|acts| - 1], run);
    }
  }

  // ---- latency ----

  /** The completion time of a step that finishes an attempt of worker w. */
  predicate FinishesAt(s: State, w: WorkerId, move: Move, at: Instant) {
    && w < |s.phases| && MoveEnabled(s, s.phases[w], move)
    && (move == FinishFailed(at) || move == FinishCompleted(at))
    && IsCurrent(s.table, RunOf(s.phases[w]), s.phases[w].token)
  }

  /** Queue wait and duration fit in the total latency exactly when this attempt did not take its
      start time before the one recorded as the first start. */
  lemma LatencyCoversWaitExactly(
    workers: nat, maxAttempts: int, now: Instant, acts: seq<Action>, w: WorkerId, move: Move, at: Instant)
    requires Possible(Initial(workers, maxAttempts, now), acts)
    requires FinishesAt(Exec(Initial(workers, maxAttempts, now), acts), w, move, at)
    ensures var s := Exec(Initial(workers, maxAttempts, now), acts);
      var run := RunOf(s.phases[w]);
      var timing := Next(s, Act(w, move)).table[run].timing;
      && timing.queueWait.Some? && timing.duration.Some? && timing.totalLatency.Some? && timing.startedAt.Some?
      && timing.duration.value >= 0 && timing.queueWait.value >= 0
      && (timing.queueWait.value + timing.duration.value <= timing.totalLatency.value
          <==> timing.startedAt.value <= s.phases[w].begun)
  {
    var s := Exec(Initial(workers, maxAttempts, now), acts);
    RunKeepsTime(workers, maxAttempts, now, acts);
    assert HolderTimes(s.phases[w], s.table, s.now);
    assert RowTimes(s.table[RunOf(s.phases[w])], s.now);
  }
}
