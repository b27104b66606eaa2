/** Resolution tracking: how later workflow runs settle the failures stored before them. */
module Resolutions {
  import opened Domain
  import opened Rows

  datatype Conclusion = Success | Failure | Other

  /** A completed `workflow_run` webhook, as far as the store sees it. */
  datatype Delivery = Delivery(
    deliveryId: string,
    repository: string,
    workflowName: string,
    headBranch: Option<string>,
    pullRequest: Option<int>,
    runId: RunId,
    runAttempt: int,
    conclusion: Conclusion,
    completedAt: Instant,
    installationId: Option<int>,
    headSha: string,
    receivedAt: Instant)

  function RecordOf(d: Delivery): Record {
    Record(d.runId, d.deliveryId, d.repository, d.workflowName, d.headSha, d.runAttempt, d.headBranch,
           d.pullRequest, Some(d.completedAt), d.installationId, d.receivedAt)
  }

  /** Lexicographic order on (run id, run attempt). */
  predicate Before(run: RunId, attempt: int, run': RunId, attempt': int) {
    run < run' || (run == run' && attempt < attempt')
  }

  predicate Matches(row: Row, d: Delivery) {
    if d.pullRequest.Some? then
      || row.record.pullRequest == d.pullRequest
      || (d.headBranch.Some? && row.record.pullRequest.None? && row.record.headBranch == d.headBranch)
    else row.record.headBranch == d.headBranch
  }

  /** Unresolved, or still failing because of an earlier attempt of this very run. */
  predicate Open(row: Row, d: Delivery) {
    || row.resolution.None?
    || (&& row.record.runId == d.runId
        && row.resolution.value.outcome == StillFailing
        && row.resolution.value.runId == d.runId
        && row.resolution.value.runAttempt < d.runAttempt)
  }

  predicate Candidate(row: Row, d: Delivery) {
    && row.record.repository == d.repository
    && row.record.workflowName == d.workflowName
    && Open(row, d)
    && Matches(row, d)
    && Before(row.record.runId, row.record.runAttempt, d.runId, d.runAttempt)
  }

  /** ORDER BY run_completed_at DESC, run_id DESC.  Databases differ on where NULL sorts. */
  predicate Ahead(t: Table, a: RunId, b: RunId, nullsFirst: bool)
    requires a in t && b in t
  {
    match (t[a].record.runCompletedAt, t[b].record.runCompletedAt)
    case (Some(x), Some(y)) => x > y || (x == y && a > b)
    case (None, None) => a > b
    case (None, Some(_)) => nullsFirst
    case (Some(_), None) => !nullsFirst
  }

  ghost predicate IsFirst(t: Table, runs: set<RunId>, run: RunId, nullsFirst: bool)
    requires runs <= t.Keys
  {
    run in runs && forall other <- runs :: other == run || Ahead(t, run, other, nullsFirst)
  }

  lemma {:induction false} FirstExists(t: Table, runs: set<RunId>, nullsFirst: bool)
    requires runs != {} && runs <= t.Keys
    ensures exists run :: IsFirst(t, runs, run, nullsFirst)
    decreases |runs|
  {
    var some := AnyOf(runs);
    var rest := runs - {some};
    if rest == {} {
      assert runs == {some};
      assert IsFirst(t, runs, some, nullsFirst);
    } else {
      FirstExists(t, rest, nullsFirst);
      var run :| IsFirst(t, rest, run, nullsFirst);
      assert forall other <- runs :: other == some || other in rest;
      assert IsFirst(t, runs, run, nullsFirst) || IsFirst(t, runs, some, nullsFirst);
    }
  }

  function Candidates(t: Table, d: Delivery): set<RunId> {
    set run | run in t && Candidate(t[run], d)
  }

  ghost function FirstOf(t: Table, runs: set<RunId>, nullsFirst: bool): (run: RunId)
    requires runs != {} && runs <= t.Keys
    ensures IsFirst(t, runs, run, nullsFirst)
  {
    FirstExists(t, runs, nullsFirst);
    var run :| IsFirst(t, runs, run, nullsFirst);
    run
  }

  function ResolutionBy(row: Row, d: Delivery): Resolution {
    var failedAt := if row.record.runCompletedAt.Some? then row.record.runCompletedAt.value else row.record.createdAt;
    Resolution(if d.conclusion == Success then Resolved else StillFailing,
               d.runId, d.runAttempt, d.completedAt, Max(0, d.completedAt - failedAt))
  }

  /** The row a follow-up settles, if any. */
  ghost function Settled(t: Table, d: Delivery, nullsFirst: bool): Option<RunId> {
    if d.conclusion == Other || (d.headBranch.None? && d.pullRequest.None?) || Candidates(t, d) == {} then None
    else Some(FirstOf(t, Candidates(t, d), nullsFirst))
  }

  ghost function FollowUp(t: Table, d: Delivery, nullsFirst: bool): Table {
    var settled := Settled(t, d, nullsFirst);
    if settled.None? then t
    else t[settled.value := t[settled.value].(resolution := Some(ResolutionBy(t[settled.value], d)))]
  }

  /** The store writes of one webhook: settle an earlier failure, then store this one. */
  ghost function Webhook(t: Table, d: Delivery, nullsFirst: bool): Table {
    var t' := FollowUp(t, d, nullsFirst);
    if d.conclusion == Failure && d.installationId.Some? then Insert(t', RecordOf(d)) else t'
  }

  ghost function Webhooks(t: Table, stream: seq<Delivery>, nullsFirst: bool): Table
    decreases |stream|
  {
    if stream == [] then t
    else Webhook(Webhooks(t, stream[..|stream| - 1], nullsFirst), stream[|stream| - 1], nullsFirst)
  }

  // ---- any order of deliveries ----

  /** Every recorded resolution lies after the row's own attempt and has a non-negative duration. */
  ghost predicate Sound(t: Table) {
    forall run | run in t ::
      && t[run].record.runId == run
      && (t[run].resolution.Some? ==>
          && Before(run, t[run].record.runAttempt, t[run].resolution.value.runId, t[run].resolution.value.runAttempt)
          && t[run].resolution.value.recoverySeconds >= 0)
  }

  /** How one row may change: not at all, or settled for the first time, or by a later attempt
      of the same run while it is still failing. */
  ghost predicate AllowedChange(before: Row, after: Row, d: Delivery) {
    && after == before.(resolution := after.resolution)
    && after.resolution == Some(ResolutionBy(before, d))
    && (before.resolution.Some? ==>
        && before.resolution.value.outcome == StillFailing
        && before.resolution.value.runId == before.record.runId == d.runId
        && before.resolution.value.runAttempt < d.runAttempt)
  }

  lemma OneFollowUp(t: Table, d: Delivery, nullsFirst: bool)
    requires Sound(t)
    ensures var t' := FollowUp(t, d, nullsFirst);
      && Sound(t')
      && t'.Keys == t.Keys
      && (forall run | run in t && t'[run] != t[run] ::
          AllowedChange(t[run], t'[run], d) && Settled(t, d, nullsFirst) == Some(run))
  {
    var settled := Settled(t, d, nullsFirst);
    if settled.Some? {
      assert settled.value in Candidates(t, d);
      assert Candidate(t[settled.value], d);
    }
  }

  lemma OneDelivery(t: Table, d: Delivery, nullsFirst: bool)
    requires Sound(t)
    ensures var t' := Webhook(t, d, nullsFirst);
      && Sound(t')
      && t.Keys <= t'.Keys <= t.Keys + {d.runId}
      && (d.runId in t' && d.runId !in t ==> t'[d.runId] == NewRow(RecordOf(d)))
      && (forall run | run in t && t'[run] != t[run] ::
          AllowedChange(t[run], t'[run], d) && Settled(t, d, nullsFirst) == Some(run))
  {
    OneFollowUp(t, d, nullsFirst);
  }

  /** Over a whole run of deliveries: RESOLVED is final, and a resolution only moves forward. */
  lemma {:induction false} ResolutionsOnlyAdvance(t: Table, stream: seq<Delivery>, nullsFirst: bool)
    requires Sound(t)
    ensures var t' := Webhooks(t, stream, nullsFirst);
      && Sound(t')
      && t.Keys <= t'.Keys
      && forall run | run in t && t[run].resolution.Some? ::
          && t'[run].resolution.Some?
          && (t[run].resolution.value.outcome == Resolved ==> t'[run].resolution == t[run].resolution)
          && (t'[run].resolution != t[run].resolution ==>
              && t'[run].resolution.value.runId == t[run].resolution.value.runId == run
              && t[run].resolution.value.runAttempt < t'[run].resolution.value.runAttempt)
    decreases |stream|
  {
    if stream != [] {
      var before := stream[..|stream| - 1];
      ResolutionsOnlyAdvance(t, before, nullsFirst);
      OneDelivery(Webhooks(t, before, nullsFirst), stream[|stream| - 1], nullsFirst);
    }
  }

  // ---- deliveries in order, for one branch ----

  datatype Target = Target(repository: string, workflowName: string, branch: string)

  predicate Related(d: Delivery, g: Target) {
    d.repository == g.repository && d.workflowName == g.workflowName && d.headBranch == Some(g.branch)
  }

  predicate OnTarget(row: Row, g: Target) {
    && row.record.repository == g.repository && row.record.workflowName == g.workflowName
    && row.record.headBranch == Some(g.branch) && row.record.pullRequest.None?
  }

  /** The same webhook sent again; only its delivery id and time of receipt may differ. */
  predicate Repeats(d: Delivery, earlier: Delivery) {
    d == earlier.(deliveryId := d.deliveryId, receivedAt := d.receivedAt)
  }

  predicate Newer(d: Delivery, earlier: Delivery) {
    Before(earlier.runId, earlier.runAttempt, d.runId, d.runAttempt)
  }

  /** What the next delivery may be: one of another target, a repeat, or a newer run. */
  ghost predicate NextInOrder(seen: seq<Delivery>, d: Delivery, g: Target) {
    && (forall e <- seen :: Related(e, g) != Related(d, g) ==> e.runId != d.runId)
    && (Related(d, g) ==>
        && d.pullRequest.None?
        && d.conclusion != Other
        && (|| (exists e <- seen :: Related(e, g) && Repeats(d, e))
            || (&& (forall e <- seen :: e.deliveryId != d.deliveryId)
                && (forall e <- seen :: Related(e, g) ==> Newer(d, e)))))
  }

  ghost predicate InOrder(stream: seq<Delivery>, g: Target)
    decreases |stream|
  {
    stream == [] ||
    (InOrder(stream[..|stream| - 1], g) && NextInOrder(stream[..|stream| - 1], stream[|stream| - 1], g))
  }

  predicate Unresolved(t: Table, run: RunId, g: Target) {
    run in t && OnTarget(t[run], g) && t[run].resolution.None?
  }

  ghost predicate PlainTarget(seen: seq<Delivery>, g: Target) {
    forall e <- seen :: Related(e, g) ==> e.pullRequest.None? && e.conclusion != Other
  }

  ghost predicate FromSeen(row: Row, seen: seq<Delivery>) {
    exists e <- seen :: row.record == RecordOf(e)
  }

  ghost predicate SettledBySeen(row: Row, seen: seq<Delivery>, g: Target) {
    row.resolution.Some? ==>
      exists e <- seen :: Related(e, g)
        && e.runId == row.resolution.value.runId && e.runAttempt == row.resolution.value.runAttempt
  }

  /** No delivery of the target is newer than a row still unresolved, and a row still failing by its
      own run records that run's newest attempt. */
  ghost predicate UpToDate(row: Row, e: Delivery) {
    && (row.resolution.None? ==> !Before(row.record.runId, row.record.runAttempt, e.runId, e.runAttempt))
    && (row.resolution.Some? && row.resolution.value.outcome == StillFailing
        && row.resolution.value.runId == row.record.runId == e.runId ==>
          e.runAttempt <= row.resolution.value.runAttempt)
  }

  ghost predicate RowTracks(row: Row, seen: seq<Delivery>, g: Target) {
    && FromSeen(row, seen)
    && (OnTarget(row, g) ==>
        SettledBySeen(row, seen, g) && forall e <- seen :: Related(e, g) ==> UpToDate(row, e))
  }

  predicate Stores(d: Delivery, g: Target) {
    Related(d, g) && d.conclusion == Failure && d.installationId.Some?
  }

  ghost predicate Tracks(t: Table, seen: seq<Delivery>, g: Target) {
    && Sound(t)
    && PlainTarget(seen, g)
    && (forall run | run in t :: RowTracks(t[run], seen, g))
    && (forall e <- seen :: Stores(e, g) ==> e.runId in t && OnTarget(t[e.runId], g))
  }

  /** A repeat finds no candidate and no new row: the table stays exactly as it was. */
  lemma RepeatChangesNothing(t: Table, seen: seq<Delivery>, d: Delivery, g: Target, nullsFirst: bool)
    requires Tracks(t, seen, g) && Related(d, g) && d.pullRequest.None?
    requires exists e <- seen :: Related(e, g) && Repeats(d, e)
    ensures Webhook(t, d, nullsFirst) == t
  {
    var e :| e in seen && Related(e, g) && Repeats(d, e);
    forall run | run in t
      ensures !Candidate(t[run], d)
    {
      assert RowTracks(t[run], seen, g);
      var stored :| stored in seen && t[run].record == RecordOf(stored);
      assert OnTarget(t[run], g) ==> UpToDate(t[run], e);
      assert Candidate(t[run], d) ==> Related(stored, g);
    }
    assert Candidates(t, d) == {};
    if Stores(d, g) { assert Stores(e, g); }
  }

  lemma UntouchedRow(row: Row, seen: seq<Delivery>, d: Delivery, g: Target)
    requires RowTracks(row, seen, g)
    requires OnTarget(row, g) && Related(d, g) ==> UpToDate(row, d)
    ensures RowTracks(row, seen + [d], g)
  {
    var e :| e in seen && row.record == RecordOf(e);
    assert e in seen + [d];
    if OnTarget(row, g) && row.resolution.Some? {
      var e' :| e' in seen && Related(e', g)
        && e'.runId == row.resolution.value.runId && e'.runAttempt == row.resolution.value.runAttempt;
      assert e' in seen + [d];
    }
  }

  lemma UnrelatedDelivery(t: Table, seen: seq<Delivery>, d: Delivery, g: Target, nullsFirst: bool)
    requires Tracks(t, seen, g) && !Related(d, g) && NextInOrder(seen, d, g)
    ensures Tracks(Webhook(t, d, nullsFirst), seen + [d], g)
    ensures forall run | run in t && OnTarget(t[run], g) :: Webhook(t, d, nullsFirst)[run] == t[run]
  {
    OneDelivery(t, d, nullsFirst);
    var t' := Webhook(t, d, nullsFirst);
    forall run | run in t
      ensures OnTarget(t[run], g) ==> t'[run] == t[run]
      ensures RowTracks(t'[run], seen + [d], g)
    {
      if OnTarget(t[run], g) { assert !Candidate(t[run], d); }
      assert RowTracks(t[run], seen, g);
      UntouchedRow(t[run], seen, d, g);
    }
    forall run | run in t' && run !in t
      ensures RowTracks(t'[run], seen + [d], g)
    {
      assert d in seen + [d];
    }
  }

  /** After a newer run of the target nothing stored before it is unresolved, and a row of the
      same run that was still failing now records this attempt. */
  lemma SettlesTheOpenRow(t: Table, seen: seq<Delivery>, d: Delivery, g: Target, nullsFirst: bool, run: RunId)
    requires Tracks(t, seen, g) && NextInOrder(seen, d, g) && Related(d, g)
    requires forall e <- seen :: Related(e, g) ==> Newer(d, e)
    requires run in t && OnTarget(t[run], g) && Open(t[run], d)
    ensures Settled(t, d, nullsFirst) == Some(run)
  {
    assert RowTracks(t[run], seen, g);
    var mine :| mine in seen && t[run].record == RecordOf(mine);
    assert Related(mine, g) && Newer(d, mine);
    assert Candidate(t[run], d);
    forall other | other in t && Candidate(t[other], d)
      ensures other == run
    {
      assert RowTracks(t[other], seen, g);
      var its :| its in seen && t[other].record == RecordOf(its);
      assert Related(its, g) && Newer(d, its);
      assert OnTarget(t[other], g);
      assert UpToDate(t[run], its) && UpToDate(t[other], mine);
    }
    assert Candidates(t, d) == {run};
  }

  lemma NewerRow(t: Table, seen: seq<Delivery>, d: Delivery, g: Target, nullsFirst: bool, run: RunId)
    requires Tracks(t, seen, g) && NextInOrder(seen, d, g) && Related(d, g)
    requires forall e <- seen :: Related(e, g) ==> Newer(d, e)
    requires run in t
    ensures RowTracks(FollowUp(t, d, nullsFirst)[run], seen + [d], g)
  {
    var row, row' := t[run], FollowUp(t, d, nullsFirst)[run];
    OneFollowUp(t, d, nullsFirst);
    assert RowTracks(row, seen, g);
    if OnTarget(row, g) && Open(row, d) {
      SettlesTheOpenRow(t, seen, d, g, nullsFirst, run);
      var e :| e in seen && row.record == RecordOf(e);
      assert e in seen + [d] && d in seen + [d];
      assert RowTracks(row', seen + [d], g);
    } else {
      if OnTarget(row, g) && row.resolution.Some? && row.resolution.value.runId == d.runId {
        var e :| e in seen && Related(e, g)
          && e.runId == row.resolution.value.runId && e.runAttempt == row.resolution.value.runAttempt;
        assert Newer(d, e);
      }
      UntouchedRow(row, seen, d, g);
    }
  }

  /** A newer run settles the one row that was still unresolved. */
  lemma OlderRow(t: Table, seen: seq<Delivery>, d: Delivery, g: Target, nullsFirst: bool, run: RunId)
    requires Tracks(t, seen, g) && NextInOrder(seen, d, g) && Related(d, g) && run in t
    requires forall e <- seen :: e.deliveryId != d.deliveryId
    ensures FollowUp(t, d, nullsFirst)[run].record.deliveryId != d.deliveryId
    ensures run == d.runId ==> OnTarget(t[run], g)
  {
    OneFollowUp(t, d, nullsFirst);
    assert RowTracks(t[run], seen, g);
    var e :| e in seen && t[run].record == RecordOf(e);
    assert Related(e, g) == Related(d, g) || e.runId != d.runId;
  }

  lemma NewerRows(t: Table, seen: seq<Delivery>, d: Delivery, g: Target, nullsFirst: bool)
    requires Tracks(t, seen, g) && NextInOrder(seen, d, g) && Related(d, g)
    requires forall e <- seen :: Related(e, g) ==> Newer(d, e)
    requires forall e <- seen :: e.deliveryId != d.deliveryId
    ensures forall run <- Webhook(t, d, nullsFirst) :: RowTracks(Webhook(t, d, nullsFirst)[run], seen + [d], g)
  {
    OneFollowUp(t, d, nullsFirst);
    forall run | run in t
      ensures RowTracks(FollowUp(t, d, nullsFirst)[run], seen + [d], g)
    {
      NewerRow(t, seen, d, g, nullsFirst, run);
    }
    assert d in seen + [d];
  }

  /** A newer failing run of the target has its row afterwards, and no row leaves the target. */
  lemma NewerIsStored(t: Table, seen: seq<Delivery>, d: Delivery, g: Target, nullsFirst: bool)
    requires Tracks(t, seen, g) && NextInOrder(seen, d, g) && Related(d, g)
    requires forall e <- seen :: Related(e, g) ==> Newer(d, e)
    requires forall e <- seen :: e.deliveryId != d.deliveryId
    ensures var t' := Webhook(t, d, nullsFirst);
      forall e <- seen + [d] :: Stores(e, g) ==> e.runId in t' && OnTarget(t'[e.runId], g)
  {
    OneDelivery(t, d, nullsFirst);
    OneFollowUp(t, d, nullsFirst);
    forall run | run in t
      ensures FollowUp(t, d, nullsFirst)[run].record.deliveryId != d.deliveryId
      ensures run == d.runId ==> OnTarget(t[run], g)
    {
      OlderRow(t, seen, d, g, nullsFirst, run);
    }
  }

  lemma NewerDelivery(t: Table, seen: seq<Delivery>, d: Delivery, g: Target, nullsFirst: bool)
    requires Tracks(t, seen, g) && NextInOrder(seen, d, g) && Related(d, g)
    requires forall e <- seen :: Related(e, g) ==> Newer(d, e)
    requires forall e <- seen :: e.deliveryId != d.deliveryId
    ensures Tracks(Webhook(t, d, nullsFirst), seen + [d], g)
  {
    OneDelivery(t, d, nullsFirst);
    NewerRows(t, seen, d, g, nullsFirst);
    NewerIsStored(t, seen, d, g, nullsFirst);
  }

  /** The rows of one target under in-order deliveries: repeats change nothing, at most one row is
      unresolved, and it is the newest one stored. */
  lemma {:induction false} InOrderTracks(stream: seq<Delivery>, g: Target, nullsFirst: bool)
    requires InOrder(stream, g)
    ensures Tracks(Webhooks(map[], stream, nullsFirst), stream, g)
    decreases |stream|
  {
    if stream != [] {
      var seen, d := stream[..|stream| - 1], stream[|stream| - 1];
      var t := Webhooks(map[], seen, nullsFirst);
      InOrderTracks(seen, g, nullsFirst);
      assert stream == seen + [d];
      if !Related(d, g) {
        UnrelatedDelivery(t, seen, d, g, nullsFirst);
      } else if exists e <- seen :: Related(e, g) && Repeats(d, e) {
        RepeatedDelivery(t, seen, d, g, nullsFirst);
      } else {
        NewerDelivery(t, seen, d, g, nullsFirst);
      }
    }
  }

  lemma RepeatedDelivery(t: Table, seen: seq<Delivery>, d: Delivery, g: Target, nullsFirst: bool)
    requires Tracks(t, seen, g) && Related(d, g) && d.pullRequest.None? && d.conclusion != Other
    requires exists e <- seen :: Related(e, g) && Repeats(d, e)
    ensures Tracks(Webhook(t, d, nullsFirst), seen + [d], g)
  {
    RepeatChangesNothing(t, seen, d, g, nullsFirst);
    var e :| e in seen && Related(e, g) && Repeats(d, e);
    forall run | run in t
      ensures RowTracks(t[run], seen + [d], g)
    {
      assert RowTracks(t[run], seen, g);
      if OnTarget(t[run], g) { assert UpToDate(t[run], e); }
      UntouchedRow(t[run], seen, d, g);
    }
    if Stores(d, g) { assert Stores(e, g); }
  }

  lemma AtMostOneUnresolved(stream: seq<Delivery>, g: Target, nullsFirst: bool, run: RunId)
    requires InOrder(stream, g) && Unresolved(Webhooks(map[], stream, nullsFirst), run, g)
    ensures var t := Webhooks(map[], stream, nullsFirst);
      forall other | other in t && OnTarget(t[other], g) && other != run ::
        other < run && t[other].resolution.Some?
  {
    InOrderTracks(stream, g, nullsFirst);
    var t := Webhooks(map[], stream, nullsFirst);
    assert RowTracks(t[run], stream, g);
    var mine :| mine in stream && t[run].record == RecordOf(mine);
    forall other | other in t && OnTarget(t[other], g) && other != run
      ensures other < run && t[other].resolution.Some?
    {
      assert RowTracks(t[other], stream, g);
      var its :| its in stream && t[other].record == RecordOf(its);
      assert UpToDate(t[run], its);
      assert UpToDate(t[other], mine);
    }
  }

  /** Sending any earlier delivery of the target again leaves every row as it is. */
  lemma RedeliveryIsHarmless(stream: seq<Delivery>, g: Target, nullsFirst: bool, earlier: Delivery, d: Delivery)
    requires InOrder(stream, g) && earlier in stream && Related(earlier, g) && Repeats(d, earlier)
    ensures var t := Webhooks(map[], stream, nullsFirst); Webhook(t, d, nullsFirst) == t
  {
    InOrderTracks(stream, g, nullsFirst);
    RepeatChangesNothing(Webhooks(map[], stream, nullsFirst), stream, d, g, nullsFirst);
  }
}
