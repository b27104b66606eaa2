/** Schedules that show why the delivery guarantees need accurate leases. */
module Scenarios {
  import opened Domain
  import opened Rows
  import opened Protocol
  import R = RedisQueue
  import opened Delivery

  const RECORD := Record(7, "d", "acme/widgets", "CI", "abc", 1, None, None, Some(0), Some(5), 0)
  const ENTRY := Envelope(Request(7, "acme/widgets", 5, "abc"), 0)
  const START := Initial(2, 3, 0)

  ghost predicate Reached(acts: seq<Action>, s: State) {
    Possible(START, acts) && Exec(START, acts) == s
  }

  lemma Do(acts: seq<Action>, s: State, a: Action) returns (acts': seq<Action>, s': State)
    requires Reached(acts, s) && Enabled(s, a)
    ensures Reached(acts', s') && s' == Next(s, a)
  {
    acts', s' := acts + [a], Next(s, a);
    assert acts'[..|acts|] == acts;
  }

  function Both(queue: R.Redis, row: Row, p: Phase, q: Phase, now: Instant, issued: set<Token>): State {
    State(queue, map[7 := row], [p, q], now, issued, {7}, {7}, 3)
  }

  const JOB := Job(ENTRY, 0)
  const FRESH := NewRow(RECORD)
  const TAKEN := R.Redis([], [[], [ENTRY]], {7}, {1}, {1})

  lemma PopAppends(q: R.Redis, w: WorkerId)
    requires q.pending != [] && w == |q.processing|
    ensures R.Step(q, R.Pop(w)).processing == q.processing + [[q.pending[|q.pending| - 1]]]
  {
    var e := q.pending[|q.pending| - 1];
    assert [e] + R.Held(q, w) == [e];
    assert q.processing + R.Blank(0) == q.processing;
  }

  lemma Admitted() returns (acts: seq<Action>, s: State)
    ensures Reached(acts, s)
    ensures s == Both(R.Redis([ENTRY], [], {7}, {}, {}), FRESH, Stopped, Stopped, 0, {})
  {
    acts, s := [], START;
    acts, s := Do(acts, s, Create(RECORD));
    acts, s := Do(acts, s, Offer(7));
    acts, s := Do(acts, s, Enqueue(7));
    assert s.queue.pending == [ENTRY];
  }

  lemma FirstTakes() returns (acts: seq<Action>, s: State)
    ensures Reached(acts, s)
    ensures s == Both(R.Redis([], [[ENTRY]], {7}, {0}, {0}), FRESH, Holding(JOB), Stopped, 0, {})
  {
    acts, s := Admitted();
    acts, s := Do(acts, s, Act(0, Launch));
    acts, s := Do(acts, s, Act(0, Poll));
    PopAppends(s.queue, 0);
    acts, s := Do(acts, s, Act(0, Pop));
    assert s.queue.processing == [[ENTRY]];
  }

  lemma LeaseLapses() returns (acts: seq<Action>, s: State)
    ensures Reached(acts, s)
    ensures s == Both(R.Redis([ENTRY], [[]], {7}, {}, {}), FRESH, Holding(JOB), Idle, 0, {})
  {
    acts, s := FirstTakes();
    acts, s := Do(acts, s, Act(1, Launch));
    acts, s := Do(acts, s, Lapse(0));
    acts, s := Do(acts, s, Recover(1, 0));
    assert s.queue.processing == [[]] && s.queue.pending == [ENTRY];
  }

  /** Both workers hold the delivery of run 7: the lease of worker 0 lapsed while it was alive. */
  lemma HeldTwice() returns (acts: seq<Action>, s: State)
    ensures Reached(acts, s)
    ensures s == Both(TAKEN, FRESH, Holding(JOB), Holding(JOB), 0, {})
  {
    acts, s := LeaseLapses();
    acts, s := Do(acts, s, Act(1, Poll));
    PopAppends(s.queue, 1);
    acts, s := Do(acts, s, Act(1, Pop));
    assert s.queue.processing == [[], [ENTRY]];
  }

  lemma FirstStageBreaks(acts: seq<Action>, s: State, row: Row, q: Phase, token: Token, begun: Instant)
    returns (acts': seq<Action>, s': State)
    requires row.token == Some(token)
    requires Reached(acts, s) && s == Both(s.queue, row, Attempting(JOB, token, begun, 0), q, s.now, s.issued)
    ensures Reached(acts', s') && 7 in s'.table
    ensures s' == Both(s.queue, s'.table[7], StageFailing(JOB, token, begun, 1), q, s.now, s.issued)
    ensures s'.table[7] == row.(history := s'.table[7].history)
  {
    assert StageAt(1) == Some(0);
    acts', s' := Do(acts, s, Act(0, Proceed("")));
    acts', s' := Do(acts', s', Act(0, Raise));
  }

  /** A begun attempt of worker 0 fails in its first stage. */
  lemma FailsAtOnce(acts: seq<Action>, s: State, row: Row, q: Phase, token: Token, begun: Instant, at: Instant)
    returns (acts': seq<Action>, s': State)
    requires row.token == Some(token) && begun <= at <= s.now
    requires Reached(acts, s) && s == Both(s.queue, row, Attempting(JOB, token, begun, 0), q, s.now, s.issued)
    ensures Reached(acts', s') && 7 in s'.table
    ensures s' == Both(s.queue, s'.table[7], StatusDue(JOB), q, s.now, s.issued)
    ensures s'.table[7] == FinishedRow(row.(history := s'.table[7].history), begun, Failed, at)
  {
    acts', s' := FirstStageBreaks(acts, s, row, q, token, begun);
    assert StageAt(1) == Some(0);
    acts', s' := Do(acts', s', Act(0, RecordFailure));
    acts', s' := Do(acts', s', Act(0, FinishFailed(at)));
  }

  lemma OtherAcknowledges() returns (acts: seq<Action>, s: State)
    ensures Reached(acts, s) && 7 in s.table && s.table[7].status == Failed && s.table[7].token.None?
    ensures s == Both(R.Redis([], [[], []], {}, {1}, {1}), s.table[7], StatusDue(JOB), Idle, 0, {1, 2})
  {
    acts, s := HeldTwice();
    acts, s := Do(acts, s, Act(0, Move.Begin(1, 0)));
    acts, s := FailsAtOnce(acts, s, s.table[7], Holding(JOB), 1, 0, 0);
    acts, s := Do(acts, s, Act(1, Move.Begin(2, 0)));
    assert s.phases == [StatusDue(JOB), Acking(JOB)];
    acts, s := Do(acts, s, Act(1, Settle(false)));
    assert s.queue.processing == [[], []];
  }

  /** If the lease of a live worker lapses, an admitted run can end up QUEUED with no queue entry:
      worker 1 acknowledges the delivery while worker 0 still owes the status write. */
  lemma RunCanBeLost()
    ensures exists acts, s ::
      Reached(acts, s) && 7 in s.admitted && 7 in s.table && s.table[7].status == Queued
      && 7 !in s.queue.dedupe && R.Total(R.Occurrences(7), s.queue) == 0
  {
    var acts, s := OtherAcknowledges();
    acts, s := Do(acts, s, Act(0, WriteStatus));
    acts, s := Do(acts, s, Act(0, Settle(false)));
    assert s.queue == R.Redis([], [[], []], {}, {1}, {1});
    R.SumSetHeld(R.Occurrences(7), R.EMPTY, 1, []);
    assert R.SetHeld(R.EMPTY, 1, []).processing == [[], []];
  }

  /** Two overlapping attempts: the one that began last read its clock first, and its recorded wait
      and duration add up to more than the recorded latency. */
  lemma LatencyCanBeExceeded()
    ensures exists acts, s :: Reached(acts, s) && 7 in s.table && !LatencyOk(s.table[7])
  {
    var acts, s := HeldTwice();
    acts, s := Do(acts, s, Tick(5));
    acts, s := Do(acts, s, Act(1, Move.Begin(1, 5)));
    acts, s := Do(acts, s, Act(0, Move.Begin(2, 3)));
    acts, s := FailsAtOnce(acts, s, s.table[7], s.phases[1], 2, 3, 5);
    assert s.table[7].timing == Timing(Some(5), Some(5), Some(2), Some(5), Some(5));
  }
}
