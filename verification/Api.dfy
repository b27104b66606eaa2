/** The API side of delivery: the webhook handler and the start-up reconciliation. */
module Api {
  import opened Domain
  import opened Rows
  import opened Resolutions
  import opened Protocol
  import opened Store
  import opened QueueClients
  import opened Worker
  import R = RedisQueue

  function RunnableRuns(t: Table): set<RunId> {
    set run | run in t && Runnable(t[run])
  }

  function EnqueueAll(q: R.Redis, requests: seq<Request>): R.Redis
    decreases |requests|
  {
    if requests == [] then q
    else R.Step(EnqueueAll(q, requests[..|requests| - 1]), R.Enqueue(requests[|requests| - 1]))
  }

  predicate Distinct(requests: seq<Request>) {
    forall i, j | 0 <= i < j < |requests| :: requests[i].runId != requests[j].runId
  }

  lemma {:induction false} EnqueueAllConserves(q: R.Redis, requests: seq<Request>)
    requires R.Conserved(q)
    ensures R.Conserved(EnqueueAll(q, requests))
    decreases |requests|
  {
    if requests != [] {
      EnqueueAllConserves(q, requests[..|requests| - 1]);
      R.StepConserves(EnqueueAll(q, requests[..|requests| - 1]), R.Enqueue(requests[|requests| - 1]));
    }
  }

  /** `q'` is `q` with fresh entries for `runs` pushed onto its pending list. */
  ghost predicate Pushed(q: R.Redis, q': R.Redis, runs: set<RunId>, requests: seq<Request>) {
    && q' == q.(pending := q'.pending, dedupe := q.dedupe + runs)
    && |q'.pending| == |q.pending| + |runs - q.dedupe|
    && q'.pending[|q'.pending| - |q.pending|..] == q.pending
    && forall e <- q'.pending[..|q'.pending| - |q.pending|] :: e.attempts == 0 && e.request in requests
  }

  lemma PushOne(q: R.Redis, q1: R.Redis, runs: set<RunId>, requests: seq<Request>, last: Request)
    requires Pushed(q, q1, runs, requests) && last.runId !in runs
    ensures Pushed(q, R.Step(q1, R.Enqueue(last)), runs + {last.runId}, requests + [last])
  {
    if last.runId in q.dedupe {
      assert runs + {last.runId} - q.dedupe == runs - q.dedupe;
    } else {
      var n := |q1.pending| - |q.pending|;
      assert runs + {last.runId} - q.dedupe == runs - q.dedupe + {last.runId};
      assert ([Envelope(last, 0)] + q1.pending)[..n + 1] == [Envelope(last, 0)] + q1.pending[..n];
      assert ([Envelope(last, 0)] + q1.pending)[n + 1..] == q1.pending[n..];
    }
  }

  lemma LastIsNew(requests: seq<Request>)
    requires Distinct(requests) && requests != []
    ensures var before, last := requests[..|requests| - 1], requests[|requests| - 1];
      && Distinct(before) && requests == before + [last]
      && last.runId !in RunIds(before) && RunIds(requests) == RunIds(before) + {last.runId}
  {
    var before, last := requests[..|requests| - 1], requests[|requests| - 1];
    assert requests == before + [last];
    RunIdsAppend(before, last);
  }

  /** Enqueueing distinct runs adds one fresh entry for each run the queue did not know. */
  lemma {:induction false} EnqueueAllAddsUnknown(q: R.Redis, requests: seq<Request>)
    requires Distinct(requests)
    ensures Pushed(q, EnqueueAll(q, requests), RunIds(requests), requests)
    decreases |requests|
  {
    if requests != [] {
      var before, last := requests[..|requests| - 1], requests[|requests| - 1];
      LastIsNew(requests);
      EnqueueAllAddsUnknown(q, before);
      PushOne(q, EnqueueAll(q, before), RunIds(before), before, last);
    }
  }

  /** Enqueueing runs the queue already knows adds nothing: reconciling twice in a row returns 0. */
  lemma {:induction false} EnqueueingAgainAddsNothing(q: R.Redis, requests: seq<Request>)
    requires RunIds(requests) <= q.dedupe
    ensures EnqueueAll(q, requests) == q
    decreases |requests|
  {
    if requests != [] {
      var before, last := requests[..|requests| - 1], requests[|requests| - 1];
      assert requests == before + [last];
      RunIdsAppend(before, last);
      EnqueueingAgainAddsNothing(q, before);
    }
  }

  /** One enqueue call for a row read as runnable: the protocol's Offer and Enqueue. */
  method EnqueueStored(queue: RedisAnalysisQueue, request: Request, ghost s: State)
    returns (created: bool, ghost acts: seq<Action>, ghost s': State)
    requires s.queue == queue.redis.View() && request.runId in s.table
    requires Runnable(s.table[request.runId]) && request == RequestOf(s.table[request.runId])
    modifies queue.redis
    ensures Follows(s, acts, s') && s'.queue == queue.redis.View()
    ensures s'.table == s.table && s'.phases == s.phases && s'.now == s.now
    ensures s'.queue == R.Step(s.queue, R.Enqueue(request))
    ensures created <==> request.runId !in s.queue.dedupe
  {
    var run := request.runId;
    FollowsOne(s, Offer(run));
    s' := Next(s, Offer(run));
    FollowsMore(s, [Offer(run)], s', Action.Enqueue(run));
    acts, s' := [Offer(run)] + [Action.Enqueue(run)], Next(s', Action.Enqueue(run));
    created := queue.Enqueue(request);
  }

  /** Put every runnable QUEUED row that the queue does not know back into it. */
  method ReconcileQueuedAnalyses(store: AnalysisStore, queue: RedisAnalysisQueue, ghost s: State)
    returns (reconciled: nat, ghost acts: seq<Action>, ghost s': State)
    requires s.table == store.rows && s.queue == queue.redis.View() && R.Conserved(s.queue)
    requires forall run | run in store.rows :: store.rows[run].record.runId == run
    modifies queue.redis
    ensures Follows(s, acts, s') && s'.queue == queue.redis.View()
    ensures s'.table == s.table == store.rows && s'.phases == s.phases && s'.now == s.now
    ensures R.Conserved(queue.redis.View())
    ensures queue.redis.dedupe == old(queue.redis.dedupe) + RunnableRuns(store.rows)
    ensures forall run <- RunnableRuns(store.rows) :: R.Total(R.Occurrences(run), queue.redis.View()) == 1
    ensures reconciled == |RunnableRuns(store.rows) - old(queue.redis.dedupe)|
    ensures |queue.redis.pending| == reconciled + |old(queue.redis.pending)|
    ensures queue.redis.pending[reconciled..] == old(queue.redis.pending)
    ensures forall e <- queue.redis.pending[..reconciled] ::
      e.attempts == 0 && e.request.runId in store.rows && Reads(e.request, store.rows[e.request.runId])
    ensures queue.redis.processing == old(queue.redis.processing)
  {
    reconciled, acts, s' := 0, [], s;
    var requests := store.QueuedRequests();
    for i := 0 to |requests|
      invariant store.rows == old(store.rows)
      invariant Follows(s, acts, s') && s'.queue == queue.redis.View()
      invariant s'.table == s.table && s'.phases == s.phases && s'.now == s.now
      invariant s'.queue == EnqueueAll(s.queue, requests[..i])
      invariant |s'.queue.pending| == reconciled + |s.queue.pending|
    {
      EnqueueAllStep(s.queue, requests, i);
      ghost var s1, more := s', [];
      var created;
      created, more, s' := EnqueueStored(queue, requests[i], s1);
      FollowsTrans(s, acts, s1, more, s');
      acts := acts + more;
      if created {
        reconciled := reconciled + 1;
      }
    }
    assert requests[..|requests|] == requests;
    AllReconciled(s.queue, requests, store.rows);
  }

  lemma EnqueueAllStep(q: R.Redis, requests: seq<Request>, i: nat)
    requires i < |requests|
    ensures EnqueueAll(q, requests[..i + 1]) == R.Step(EnqueueAll(q, requests[..i]), R.Enqueue(requests[i]))
  {
    assert requests[..i + 1][..i] == requests[..i];
  }

  /** Enqueueing one request per runnable row leaves each of those rows with exactly one entry. */
  lemma AllReconciled(q: R.Redis, requests: seq<Request>, t: Table)
    requires R.Conserved(q) && Distinct(requests) && RunIds(requests) == RunnableRuns(t)
    ensures var q' := EnqueueAll(q, requests);
      && R.Conserved(q') && Pushed(q, q', RunnableRuns(t), requests)
      && forall run <- RunnableRuns(t) :: R.Total(R.Occurrences(run), q') == 1
  {
    var q' := EnqueueAll(q, requests);
    EnqueueAllConserves(q, requests);
    EnqueueAllAddsUnknown(q, requests);
    forall run <- RunnableRuns(t)
      ensures R.Total(R.Occurrences(run), q') == 1
    {
      assert run in q'.dedupe;
    }
  }

  datatype Reply =
    | Ignored                       // 204: a success, or nothing to do
    | MissingInstallation           // 400
    | QueueUnavailable              // 503
    | ServerError                   // 500: Redis failed after the enqueue
    | Accepted(accepted: bool)      // 202

  /** The insertion of a failed run: the protocol's Create. */
  method StoreFailure(store: AnalysisStore, d: Delivery, ghost s: State)
    returns (created: bool, ghost acts: seq<Action>, ghost s': State)
    requires d.receivedAt <= s.now && s.table == store.rows
    modifies store
    ensures Follows(s, acts, s') && s' == s.(table := store.rows) && store.rows == Insert(s.table, RecordOf(d))
    ensures created <==> Insertable(s.table, RecordOf(d))
  {
    var record := RecordOf(d);
    FollowsOne(s, Create(record));
    acts, s' := [Create(record)], Next(s, Create(record));
    created := store.CreateIfAbsent(record);
  }

  /** The handler after the payload has been parsed, undisturbed; `d` is a success or a failure. */
  method GithubWebhook(store: AnalysisStore, queue: RedisAnalysisQueue, d: Delivery, nullsFirst: bool,
                       redisFails: bool, sizeFails: bool, ghost s: State)
    returns (reply: Reply, ghost acts: seq<Action>, ghost s': State)
    requires d.conclusion != Other && d.receivedAt <= s.now
    requires s.table == store.rows && s.queue == queue.redis.View()
    requires forall run | run in store.rows :: store.rows[run].record.runId == run
    modifies store, queue.redis
    ensures Follows(s, acts, s') && s'.table == store.rows && s'.queue == queue.redis.View()
    ensures s'.phases == s.phases && s'.now == s.now
    ensures store.rows == Webhook(s.table, d, nullsFirst)
    ensures reply.Accepted? && reply.accepted <==>
      && d.conclusion == Failure && d.installationId.Some? && d.runId in store.rows
      && (Runnable(store.rows[d.runId]) ==> !redisFails && !sizeFails)
      && (d.runId !in s.table || (Runnable(s.table[d.runId]) && d.runId !in s.queue.dedupe))
    ensures reply.QueueUnavailable? || reply.ServerError? <==>
      && d.conclusion == Failure && d.installationId.Some? && d.runId in store.rows
      && Runnable(store.rows[d.runId]) && (redisFails || sizeFails)
    ensures (reply.Accepted? || reply.ServerError?) && d.runId in store.rows && Runnable(store.rows[d.runId]) ==>
      d.runId in queue.redis.dedupe
  {
    var _ := store.RecordFollowupRun(d, nullsFirst);
    ghost var settle := Action.FollowUp(d, nullsFirst);
    FollowsOne(s, settle);
    acts, s' := [settle], Next(s, settle);
    if d.conclusion == Success {
      return Ignored, acts, s';
    }
    if d.installationId.None? {
      return MissingInstallation, acts, s';
    }
    var created;
    ghost var s0, first := s', [];
    created, first, s' := StoreFailure(store, d, s0);
    FollowsTrans(s, acts, s0, first, s');
    acts := acts + first;
    var enqueued := false;
    if d.runId in store.rows && Runnable(store.rows[d.runId]) {
      if redisFails {
        return QueueUnavailable, acts, s';
      }
      ghost var s1, more := s', [];
      enqueued, more, s' := EnqueueStored(queue, RequestOf(store.rows[d.runId]), s1);
      FollowsTrans(s, acts, s1, more, s');
      acts := acts + more;
      if sizeFails {
        return ServerError, acts, s';
      }
    }
    reply := Accepted(created || enqueued);
  }
}
