/** The analysis store as an object: one method per transaction. */
module Store {
  import opened Domain
  import opened Rows
  import opened Resolutions
  import opened Paging

  class AnalysisStore {
    var rows: Table

    constructor ()
      ensures rows == map[]
    {
      rows := map[];
    }

    method CreateIfAbsent(record: Record) returns (created: bool)
      modifies this
      ensures rows == Insert(old(rows), record)
      ensures created <==> Insertable(old(rows), record)
    {
      created := Insertable(rows, record);
      if created {
        rows := rows[record.runId := NewRow(record)];
      }
    }

    /** Returns None where the source raises AnalysisAttemptSuperseded. */
    method BeginAnalysis(run: RunId, token: Option<Token>, at: Instant) returns (start: Option<Start>)
      modifies this
      ensures BeginAs(old(rows), run, token, at) == if start.Some? then Some(rows) else None
      ensures start.None? ==> rows == old(rows)
      ensures start.Some? ==>
        && run in rows
        && start.value == Start(at, rows[run].timing.queueWait.value, old(rows)[run].timing.startedAt.None?)
    {
      if run !in rows {
        return None;
      }
      var row := rows[run];
      var firstStart := row.timing.startedAt.None?;
      var queueWait := row.timing.queueWait;
      if queueWait.None? {
        queueWait := Some(Max(0, at - row.record.createdAt));
      }
      if token.Some? && !(row.status == Queued || row.status == Running) {
        return None;
      }
      var startedAt := if firstStart then Some(at) else row.timing.startedAt;
      row := row.(
        status := Running, token := token, timing := Timing(startedAt, None, None, queueWait, None));
      if token.Some? {
        row := row.(history := Superseded(row.history), lastBegun := token, mark := |row.history|);
      }
      rows := rows[run := row];
      start := Some(Start(at, queueWait.value, firstStart));
    }

    method FinishAnalysis(run: RunId, attemptStartedAt: Instant, status: Status, token: Option<Token>, at: Instant)
      returns (latency: Option<int>)
      modifies this
      ensures FinishAs(old(rows), run, token, attemptStartedAt, status, at)
        == if latency.Some? then Some(rows) else None
      ensures latency.None? ==> rows == old(rows)
      ensures latency.Some? ==> run in rows && rows[run].timing.totalLatency == latency
    {
      if run !in rows {
        return None;
      }
      var total := Max(0, at - rows[run].record.createdAt);
      if token.Some? && rows[run].token != token {
        return None;
      }
      var timing := rows[run].timing.(
        completedAt := Some(at), duration := Some(at - attemptStartedAt), totalLatency := Some(total));
      rows := rows[run := rows[run].(status := status, token := None, timing := timing)];
      latency := Some(total);
    }

    method RecordStage(run: RunId, stage: Stage, status: StageStatus, token: Token) returns (current: bool)
      modifies this
      ensures RecordEvent(old(rows), run, token, stage, status) == if current then Some(rows) else None
      ensures !current ==> rows == old(rows)
    {
      current := run in rows && rows[run].token == Some(token);
      if current {
        rows := rows[run := rows[run].(history := rows[run].history + [Event(stage, status, token)])];
      }
    }

    method Update(run: RunId, status: Status, token: Option<Token>, category: Option<string>) returns (current: bool)
      modifies this
      ensures UpdateStatus(old(rows), run, status, token, category) == if current then Some(rows) else None
      ensures token.None? ==> current
      ensures !current ==> rows == old(rows)
    {
      var matched := run in rows && (token.None? || rows[run].token == token);
      if matched {
        var row := rows[run].(status := status);
        if category.Some? {
          row := row.(category := category);
        }
        rows := rows[run := row];
      }
      current := matched || token.None?;
    }

    /** The runnable queued rows, oldest first. */
    method QueuedRequests() returns (requests: seq<Request>)
      ensures RunIds(requests) == set run | run in rows && Runnable(rows[run])
      ensures forall r <- requests :: r.runId in rows && Reads(r, rows[r.runId])
      ensures forall i, j | 0 <= i < j < |requests| ::
        requests[i].runId != requests[j].runId && OldestFirst(requests[i], requests[j])
    {
      requests := [];
      var left := set run | run in rows && Runnable(rows[run]);
      ghost var runnable := left;
      while left != {}
        invariant left <= runnable <= rows.Keys && RunIds(requests) == runnable - left
        invariant forall r <- requests :: r.runId in rows && Reads(r, rows[r.runId])
        invariant forall i, j | 0 <= i < j < |requests| ::
          requests[i].runId != requests[j].runId && OldestFirst(requests[i], requests[j])
        invariant forall r <- requests, run <- left :: rows[r.runId].record.createdAt <= rows[run].record.createdAt
        decreases left
      {
        var run := Oldest(left);
        left := left - {run};
        var request := RequestOf(rows[run]).(runId := run);
        RunIdsAppend(requests, request);
        requests := requests + [request];
      }
    }

    predicate OldestFirst(a: Request, b: Request)
      reads this
    {
      a.runId in rows && b.runId in rows && rows[a.runId].record.createdAt <= rows[b.runId].record.createdAt
    }

    method Oldest(runs: set<RunId>) returns (run: RunId)
      requires runs != {} && runs <= rows.Keys
      ensures run in runs
      ensures forall other <- runs :: rows[run].record.createdAt <= rows[other].record.createdAt
    {
      var left := runs;
      run := Pick(left);
      while left != {}
        invariant left <= runs && run in runs
        invariant forall other <- runs - left :: rows[run].record.createdAt <= rows[other].record.createdAt
        decreases left
      {
        var next := Pick(left);
        if rows[next].record.createdAt < rows[run].record.createdAt {
          run := next;
        }
        left := left - {next};
      }
    }

    /** One page of the filtered list, newest first, and the cursor of the next page. */
    method ListPage(limit: nat, filter: Filter, cursor: Option<Key>) returns (page: seq<Row>, next: Option<Key>)
      ensures var keys := Page(KeysOf(rows, filter), limit, cursor);
        && |page| == |keys|
        && forall i | 0 <= i < |page| :: keys[i].runId in rows && page[i] == rows[keys[i].runId]
      ensures next == NextCursor(KeysOf(rows, filter), limit, cursor)
    {
      if filter.installations == Some({}) {
        assert KeysOf(rows, filter) == {} && Beyond(KeysOf(rows, filter), cursor) == {};
        return [], None;
      }
      var found := FirstListed(Beyond(KeysOf(rows, filter), cursor), limit + 1);
      var keys := found[..Min(limit, |found|)];
      assert keys == Page(KeysOf(rows, filter), limit, cursor);
      KeysAreStored(rows, filter, limit, cursor);
      page := RowsAt(keys);
      next := if |found| > limit && keys != [] then Some(keys[|keys| - 1]) else None;
    }

    method RowsAt(keys: seq<Key>) returns (page: seq<Row>)
      requires forall i | 0 <= i < |keys| :: keys[i].runId in rows
      ensures |page| == |keys| && forall i | 0 <= i < |keys| :: page[i] == rows[keys[i].runId]
    {
      page := [];
      for i := 0 to |keys|
        invariant |page| == i && forall k | 0 <= k < i :: page[k] == rows[keys[k].runId]
      {
        page := page + [rows[keys[i].runId]];
      }
    }

    /** ORDER BY … LIMIT count */
    method FirstListed(keys: set<Key>, count: nat) returns (found: seq<Key>)
      ensures found == Sorted(keys)[..Min(count, |keys|)]
    {
      var left := keys;
      found := [];
      while left != {} && |found| < count
        invariant left <= keys && |found| <= count
        invariant Sorted(keys) == found + Sorted(left)
        decreases left
      {
        var key := NewestOf(left);
        assert Sorted(left) == [key] + Sorted(left - {key});
        found := found + [key];
        left := left - {key};
      }
      if left == {} {
        assert found == Sorted(keys);
      }
      assert |found| == Min(count, |keys|);
    }

    method NewestOf(keys: set<Key>) returns (key: Key)
      requires keys != {}
      ensures key == Newest(keys)
    {
      var left := keys;
      key := Pick(left);
      while left != {}
        invariant left <= keys && key in keys
        invariant forall other <- keys - left :: other == key || ListedBefore(key, other)
        decreases left
      {
        var next := Pick(left);
        ghost var before := key;
        if ListedBefore(next, key) {
          key := next;
        }
        forall other | other in keys - (left - {next})
          ensures other == key || ListedBefore(key, other)
        {
          assert other == next || other in keys - left;
          assert other == next || other == before || ListedBefore(before, other);
        }
        left := left - {next};
      }
      assert IsNewest(keys, key);
    }

    /** Settle the most recently completed candidate, if there is one. */
    method RecordFollowupRun(d: Delivery, nullsFirst: bool) returns (settled: Option<RunId>)
      modifies this
      ensures settled == Settled(old(rows), d, nullsFirst)
      ensures rows == FollowUp(old(rows), d, nullsFirst)
    {
      if d.conclusion == Other || (d.headBranch.None? && d.pullRequest.None?) {
        return None;
      }
      var left := Candidates(rows, d);
      var best: Option<RunId> := None;
      while left != {}
        invariant rows == old(rows) && left <= Candidates(rows, d)
        invariant best.None? ==> left == Candidates(rows, d)
        invariant best.Some? ==> IsFirst(rows, Candidates(rows, d) - left, best.value, nullsFirst)
        decreases left
      {
        var next := Pick(left);
        if best.None? || Ahead(rows, next, best.value, nullsFirst) {
          best := Some(next);
        }
        assert Candidates(rows, d) - (left - {next}) == Candidates(rows, d) - left + {next};
        left := left - {next};
      }
      if best.None? {
        return None;
      }
      assert Candidates(rows, d) - left == Candidates(rows, d);
      FirstIsUnique(rows, Candidates(rows, d), best.value, nullsFirst);
      rows := rows[best.value := rows[best.value].(resolution := Some(ResolutionBy(rows[best.value], d)))];
      settled := best;
    }
  }

  lemma KeysAreStored(t: Table, filter: Filter, limit: nat, cursor: Option<Key>)
    ensures var keys := Page(KeysOf(t, filter), limit, cursor);
      forall i | 0 <= i < |keys| :: keys[i].runId in t
  {
    var keys := Page(KeysOf(t, filter), limit, cursor);
    SortedLists(Beyond(KeysOf(t, filter), cursor));
    forall i | 0 <= i < |keys|
      ensures keys[i].runId in t
    {
      assert keys[i] in Sorted(Beyond(KeysOf(t, filter), cursor));
    }
  }

  /** A request built from the columns of a runnable row. */
  predicate Reads(request: Request, row: Row) {
    Runnable(row) && request == RequestOf(row).(runId := request.runId)
  }

  function RunIds(requests: seq<Request>): set<RunId> {
    set r | r in requests :: r.runId
  }

  lemma RunIdsAppend(requests: seq<Request>, request: Request)
    ensures RunIds(requests + [request]) == RunIds(requests) + {request.runId}
  {
    forall run | run in RunIds(requests) + {request.runId}
      ensures run in RunIds(requests + [request])
    {
      if run == request.runId {
        assert request in requests + [request];
      } else {
        var r :| r in requests && r.runId == run;
        assert r in requests + [request];
      }
    }
  }

  lemma FirstIsUnique(t: Table, runs: set<RunId>, run: RunId, nullsFirst: bool)
    requires runs != {} && runs <= t.Keys && IsFirst(t, runs, run, nullsFirst)
    ensures FirstOf(t, runs, nullsFirst) == run
  {
  }
}
