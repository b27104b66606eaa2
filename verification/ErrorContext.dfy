/** `extract_error_context`: the windows of a log around its error lines, merged. */
module ErrorContext {
  import opened Domain
  import opened Lines
  import opened Patching

  datatype Range = Range(start: nat, end: nat)

  /** Line i lies within `context` lines of an error line.  `hot` is the error-signal test. */
  ghost predicate Near(hot: seq<bool>, context: nat, i: int) {
    0 <= i < |hot| && exists k :: 0 <= k < |hot| && hot[k] && k - context <= i <= k + context
  }

  /** A longest stretch of consecutive near lines. */
  ghost predicate IsRun(hot: seq<bool>, context: nat, r: Range) {
    && r.start < r.end <= |hot|
    && !Near(hot, context, r.start - 1)
    && !Near(hot, context, r.end)
    && forall i | r.start <= i < r.end :: Near(hot, context, i)
  }

  /** Line i is in one of the ranges. */
  ghost predicate Shown(ranges: seq<Range>, i: int) {
    exists k :: 0 <= k < |ranges| && ranges[k].start <= i < ranges[k].end
  }

  /** Sorted, with at least one dropped line between neighbours. */
  ghost predicate Apart(ranges: seq<Range>) {
    forall i, j | 0 <= i < j < |ranges| :: ranges[i].end < ranges[j].start
  }

  /** The first `count` runs, in order: all of them when there are fewer. */
  ghost predicate FirstRuns(hot: seq<bool>, context: nat, count: nat, ranges: seq<Range>) {
    && |ranges| <= count
    && Apart(ranges)
    && (forall r <- ranges :: IsRun(hot, context, r))
    && (forall i | Near(hot, context, i) ::
          Shown(ranges, i) || (|ranges| == count && forall r <- ranges :: r.end < i))
  }

  /** Line i lies in the window of one of the first n error lines. */
  ghost predicate Covers(indexes: seq<nat>, n: nat, context: nat, i: int)
    requires n <= |indexes|
  {
    exists k :: 0 <= k < n && indexes[k] - context <= i <= indexes[k] + context
  }

  /** The positions of the error lines, in order. */
  ghost predicate Signals(hot: seq<bool>, indexes: seq<nat>) {
    && (forall i, j | 0 <= i < j < |indexes| :: indexes[i] < indexes[j])
    && (forall k :: k in indexes <==> 0 <= k < |hot| && hot[k])
  }

  /** What the windows of the first n error lines have been merged into. */
  ghost predicate Merged(length: nat, indexes: seq<nat>, n: nat, context: nat, ranges: seq<Range>)
    requires n <= |indexes|
  {
    && Apart(ranges)
    && (forall r <- ranges :: r.start < r.end <= length)
    && (forall i | 0 <= i < length :: Covers(indexes, n, context, i) <==> Shown(ranges, i))
    && (ranges == [] <==> n == 0)
    && (ranges != [] ==>
          && ranges[|ranges| - 1].start <= Max(0, indexes[n - 1] - context)
          && ranges[|ranges| - 1].end == Min(length, indexes[n - 1] + context + 1))
  }

  function Window(length: nat, index: nat, context: nat): (r: Range)
    requires index < length
    ensures r.start <= index < r.end <= length
  {
    Range(Max(0, index - context), Min(length, index + context + 1))
  }

  lemma CoversOneMore(indexes: seq<nat>, n: nat, context: nat, i: int)
    requires n < |indexes|
    ensures Covers(indexes, n + 1, context, i) <==>
      Covers(indexes, n, context, i) || indexes[n] - context <= i <= indexes[n] + context
  {
  }

  lemma Widened(ranges: seq<Range>, end: nat, i: int)
    requires ranges != [] && ranges[|ranges| - 1].end <= end
    ensures var last := |ranges| - 1;
      Shown(ranges[last := ranges[last].(end := end)], i) <==>
        Shown(ranges, i) || ranges[last].start <= i < end
  {
    var last := |ranges| - 1;
    var wider := ranges[last := ranges[last].(end := end)];
    assert wider[last].start == ranges[last].start && wider[last].end == end;
    if Shown(wider, i) {
      var k :| 0 <= k < |wider| && wider[k].start <= i < wider[k].end;
      assert k != last ==> ranges[k] == wider[k];
    }
    if Shown(ranges, i) {
      var k :| 0 <= k < |ranges| && ranges[k].start <= i < ranges[k].end;
      assert wider[k].start <= i < wider[k].end;
    }
  }

  lemma OneMoreShown(ranges: seq<Range>, window: Range, i: int)
    ensures Shown(ranges + [window], i) <==> Shown(ranges, i) || window.start <= i < window.end
  {
    var more := ranges + [window];
    assert more[|ranges|] == window;
    if Shown(ranges, i) {
      var k :| 0 <= k < |ranges| && ranges[k].start <= i < ranges[k].end;
      assert more[k] == ranges[k];
    }
  }

  /** A window that reaches the last range widens it. */
  lemma Extend(length: nat, indexes: seq<nat>, n: nat, context: nat, ranges: seq<Range>)
    requires n < |indexes| && indexes[n] < length && (n > 0 ==> indexes[n - 1] < indexes[n])
    requires Merged(length, indexes, n, context, ranges) && ranges != []
    requires Window(length, indexes[n], context).start <= ranges[|ranges| - 1].end
    ensures var last, end := |ranges| - 1, Window(length, indexes[n], context).end;
      && ranges[last].end <= end
      && Merged(length, indexes, n + 1, context, ranges[last := ranges[last].(end := end)])
  {
    var last := |ranges| - 1;
    var end := Window(length, indexes[n], context).end;
    var wider := ranges[last := ranges[last].(end := end)];
    forall i | 0 <= i < length
      ensures Covers(indexes, n + 1, context, i) <==> Shown(wider, i)
    {
      CoversOneMore(indexes, n, context, i);
      Widened(ranges, end, i);
      assert ranges[last].start <= i < ranges[last].end ==> Shown(ranges, i);
    }
  }

  /** A window beyond the last range starts a new one. */
  lemma Start(length: nat, indexes: seq<nat>, n: nat, context: nat, ranges: seq<Range>)
    requires n < |indexes| && indexes[n] < length
    requires Merged(length, indexes, n, context, ranges)
    requires ranges != [] ==> ranges[|ranges| - 1].end < Window(length, indexes[n], context).start
    ensures Merged(length, indexes, n + 1, context, ranges + [Window(length, indexes[n], context)])
  {
    var window := Window(length, indexes[n], context);
    forall i | 0 <= i < length
      ensures Covers(indexes, n + 1, context, i) <==> Shown(ranges + [window], i)
    {
      CoversOneMore(indexes, n, context, i);
      OneMoreShown(ranges, window, i);
    }
    assert ranges != [] ==> forall r <- ranges :: r.end <= ranges[|ranges| - 1].end;
  }

  /** Error lines from n on are too far away to touch what has been merged. */
  ghost predicate Beyond(indexes: seq<nat>, n: nat, context: nat, count: nat, ranges: seq<Range>) {
    n < |indexes| ==>
      && |ranges| == count
      && forall r <- ranges :: r.end < indexes[n] - context
  }

  lemma ShownIsNear(hot: seq<bool>, indexes: seq<nat>, n: nat, context: nat, ranges: seq<Range>, i: int)
    requires Signals(hot, indexes) && n <= |indexes| && 0 <= i < |hot|
    requires Merged(|hot|, indexes, n, context, ranges) && Shown(ranges, i)
    ensures Near(hot, context, i)
  {
    var k :| 0 <= k < n && indexes[k] - context <= i <= indexes[k] + context;
    assert indexes[k] in indexes;
  }

  lemma NearIsShown(hot: seq<bool>, indexes: seq<nat>, n: nat, context: nat, count: nat, ranges: seq<Range>, i: int)
    requires Signals(hot, indexes) && n <= |indexes|
    requires Merged(|hot|, indexes, n, context, ranges) && Beyond(indexes, n, context, count, ranges)
    requires Near(hot, context, i) && !Shown(ranges, i)
    ensures n < |indexes| && |ranges| == count && forall r <- ranges :: r.end < i
  {
    var k :| 0 <= k < |hot| && hot[k] && k - context <= i <= k + context;
    var at :| 0 <= at < |indexes| && indexes[at] == k;
    assert !Covers(indexes, n, context, i);
    assert at >= n && indexes[n] <= k;
  }

  lemma RangeIsRun(hot: seq<bool>, indexes: seq<nat>, n: nat, context: nat, count: nat, ranges: seq<Range>, k: nat)
    requires Signals(hot, indexes) && n <= |indexes| && k < |ranges|
    requires Merged(|hot|, indexes, n, context, ranges) && Beyond(indexes, n, context, count, ranges)
    ensures IsRun(hot, context, ranges[k])
  {
    var r := ranges[k];
    assert r in ranges;
    forall i | r.start <= i < r.end
      ensures Near(hot, context, i)
    {
      assert Shown(ranges, i);
      ShownIsNear(hot, indexes, n, context, ranges, i);
    }
    assert !Shown(ranges, r.start - 1) && !Shown(ranges, r.end);
    if Near(hot, context, r.start - 1) {
      NearIsShown(hot, indexes, n, context, count, ranges, r.start - 1);
    }
    if Near(hot, context, r.end) {
      NearIsShown(hot, indexes, n, context, count, ranges, r.end);
    }
  }

  lemma Kept(hot: seq<bool>, indexes: seq<nat>, n: nat, context: nat, count: nat, ranges: seq<Range>)
    requires Signals(hot, indexes) && n <= |indexes| && |ranges| <= count
    requires Merged(|hot|, indexes, n, context, ranges) && Beyond(indexes, n, context, count, ranges)
    ensures FirstRuns(hot, context, count, ranges)
  {
    forall r | r in ranges
      ensures IsRun(hot, context, r)
    {
      var k :| 0 <= k < |ranges| && ranges[k] == r;
      RangeIsRun(hot, indexes, n, context, count, ranges, k);
    }
    forall i | Near(hot, context, i)
      ensures Shown(ranges, i) || (|ranges| == count && forall r <- ranges :: r.end < i)
    {
      if !Shown(ranges, i) {
        NearIsShown(hot, indexes, n, context, count, ranges, i);
      }
    }
  }

  lemma TooFar(hot: seq<bool>, indexes: seq<nat>, n: nat, context: nat, ranges: seq<Range>)
    requires Signals(hot, indexes) && n < |indexes| && indexes[n] < |hot|
    requires Merged(|hot|, indexes, n, context, ranges)
    requires ranges != [] ==> ranges[|ranges| - 1].end < Window(|hot|, indexes[n], context).start
    ensures FirstRuns(hot, context, |ranges|, ranges)
  {
    assert ranges != [] ==> forall r <- ranges :: r.end <= ranges[|ranges| - 1].end;
    Kept(hot, indexes, n, context, |ranges|, ranges);
  }

  method MergeWindows(hot: seq<bool>, indexes: seq<nat>, context: nat, maxSections: nat)
    returns (ranges: seq<Range>)
    requires Signals(hot, indexes)
    ensures FirstRuns(hot, context, maxSections, ranges)
  {
    ranges := [];
    var n := 0;
    while n < |indexes|
      invariant n <= |indexes| && |ranges| <= maxSections
      invariant Merged(|hot|, indexes, n, context, ranges)
    {
      assert indexes[n] in indexes;
      var window := Window(|hot|, indexes[n], context);
      var last := |ranges| - 1;
      if ranges != [] && window.start <= ranges[last].end {
        Extend(|hot|, indexes, n, context, ranges);
        ranges := ranges[last := ranges[last].(end := Max(ranges[last].end, window.end))];
      } else if |ranges| < maxSections {
        Start(|hot|, indexes, n, context, ranges);
        ranges := ranges + [window];
      } else {
        TooFar(hot, indexes, n, context, ranges);
        return;
      }
      n := n + 1;
    }
    Kept(hot, indexes, n, context, maxSections, ranges);
  }

  /** The sections are determined by what they must show. */
  lemma FirstRunsAreUnique(hot: seq<bool>, context: nat, count: nat, a: seq<Range>, b: seq<Range>)
    requires FirstRuns(hot, context, count, a) && FirstRuns(hot, context, count, b)
    ensures a == b
  {
    SamePrefix(hot, context, count, a, b, Min(|a|, |b|));
    if |a| < |b| {
      NoneMissing(hot, context, count, a, b);
    } else if |b| < |a| {
      NoneMissing(hot, context, count, b, a);
    }
  }

  lemma NoneMissing(hot: seq<bool>, context: nat, count: nat, a: seq<Range>, b: seq<Range>)
    requires FirstRuns(hot, context, count, a) && FirstRuns(hot, context, count, b)
    requires a <= b
    ensures a == b
  {
    if |a| < |b| {
      RunIsShown(hot, context, count, a, b[|a|]);
    }
  }

  /** While there is room, every run is among the ranges. */
  lemma RunIsShown(hot: seq<bool>, context: nat, count: nat, ranges: seq<Range>, r: Range)
    requires FirstRuns(hot, context, count, ranges) && |ranges| < count && IsRun(hot, context, r)
    ensures exists k :: 0 <= k < |ranges| && ranges[k].start <= r.start < ranges[k].end
  {
    assert Near(hot, context, r.start);
    assert Shown(ranges, r.start);
  }

  lemma {:induction false} SamePrefix(hot: seq<bool>, context: nat, count: nat, a: seq<Range>, b: seq<Range>, n: nat)
    requires FirstRuns(hot, context, count, a) && FirstRuns(hot, context, count, b)
    requires n <= |a| && n <= |b|
    ensures a[..n] == b[..n]
  {
    if n > 0 {
      SamePrefix(hot, context, count, a, b, n - 1);
      NoLaterStart(hot, context, count, a, b, n - 1);
      NoLaterStart(hot, context, count, b, a, n - 1);
      SameRun(hot, context, a[n - 1], b[n - 1]);
    }
  }

  /** The n-th run of b cannot start before the n-th run of a does. */
  lemma NoLaterStart(hot: seq<bool>, context: nat, count: nat, a: seq<Range>, b: seq<Range>, n: nat)
    requires FirstRuns(hot, context, count, a) && FirstRuns(hot, context, count, b)
    requires n < |a| && n < |b| && a[..n] == b[..n]
    ensures a[n].start <= b[n].start
  {
    var i := b[n].start;
    assert a[n] in a && b[n] in b && Near(hot, context, i);
    forall k | 0 <= k < n
      ensures a[k].end < i
    {
      assert a[..n][k] == b[..n][k];
    }
  }

  lemma SameRun(hot: seq<bool>, context: nat, a: Range, b: Range)
    requires IsRun(hot, context, a) && IsRun(hot, context, b) && a.start == b.start
    ensures a == b
  {
    assert a.end < b.end ==> Near(hot, context, a.end);
    assert b.end < a.end ==> Near(hot, context, b.end);
  }

  // ---- the text ----

  function JoinBy(separator: string, parts: seq<string>): string {
    if parts == [] then ""
    else if |parts| == 1 then parts[0]
    else parts[0] + separator + JoinBy(separator, parts[1..])
  }

  /** Python's lines[-count:], where -0 is the start of the list. */
  function Tail(lines: seq<string>, count: nat): seq<string>
    requires count <= |lines|
  {
    if count == 0 then lines else lines[|lines| - count..]
  }

  function Section(lines: seq<string>, r: Range): string {
    JoinBy("\n", Slice(lines, r.start, r.end))
  }

  function Sections(lines: seq<string>, ranges: seq<Range>): string {
    JoinBy("\n...\n", Map(r => Section(lines, r), ranges))
  }

  method SignalIndexes(hot: seq<bool>) returns (indexes: seq<nat>)
    ensures Signals(hot, indexes)
  {
    indexes := [];
    var i := 0;
    while i < |hot|
      invariant i <= |hot|
      invariant forall a, b | 0 <= a < b < |indexes| :: indexes[a] < indexes[b]
      invariant forall k :: k in indexes <==> 0 <= k < i && hot[k]
    {
      if hot[i] {
        assert forall a | 0 <= a < |indexes| :: indexes[a] in indexes;
        indexes := indexes + [i];
      }
      i := i + 1;
    }
  }

  method ExtractErrorContext(log: string, hasErrorSignal: string -> bool, contextLines: nat, maxSections: nat)
    returns (text: string)
    ensures var lines := SplitPlain(log);
      var hot := Map(hasErrorSignal, lines);
      if true in hot then
        exists ranges :: FirstRuns(hot, contextLines, maxSections, ranges) && text == Sections(lines, ranges)
      else
        text == QuietText(log, contextLines)
  {
    var lines := SplitPlain(log);
    var hot := Map(hasErrorSignal, lines);
    var indexes := SignalIndexes(hot);
    assert indexes != [] ==> indexes[0] in indexes;
    if indexes == [] {
      return QuietText(log, contextLines);
    }
    var ranges := MergeWindows(hot, indexes, contextLines, maxSections);
    text := Sections(lines, ranges);
  }

  /** What is returned for a log without an error line. */
  function QuietText(log: string, contextLines: nat): string {
    JoinBy("\n", Tail(SplitPlain(log), Min(|SplitPlain(log)|, contextLines * 2)))
  }

  lemma {:induction false} JoinedBreaks(parts: seq<string>)
    requires forall part <- parts :: NoBreaks(part)
    ensures Count(JoinBy("\n", parts), '\n') == Max(0, |parts| - 1)
  {
    if parts != [] {
      assert NoBreaks(parts[0]);
      NoneCounted(parts[0]);
      if |parts| > 1 {
        JoinedBreaks(parts[1..]);
        CountAppend(parts[0] + "\n", JoinBy("\n", parts[1..]), '\n');
        CountAppend(parts[0], "\n", '\n');
      }
    }
  }

  lemma {:induction false} NoneCounted(part: string)
    requires NoBreaks(part)
    ensures Count(part, '\n') == 0
  {
    if part != "" {
      assert part[0] in part;
      NoneCounted(part[1..]);
    }
  }

  /** The last `count` lines, or all of them. */
  function LastLines(lines: seq<string>, count: nat): seq<string> { lines[|lines| - Min(|lines|, count)..] }

  lemma {:induction false} JoinedEmpty(parts: seq<string>)
    requires forall part <- parts :: NoBreaks(part)
    ensures JoinBy("\n", parts) == "" <==> parts == [] || parts == [""]
  {
    if |parts| > 1 {
      assert JoinBy("\n", parts)[|parts[0]|] == '\n';
    }
  }

  /** Without an error line the text is meant to be the last 2 * context lines of the log.  It is, unless
      the context is zero and the log shows anything at all: then it is the whole log. */
  lemma QuietTextIsRightExactlyWhen(log: string, contextLines: nat)
    ensures var lines := SplitPlain(log);
      && (QuietText(log, contextLines) == JoinBy("\n", LastLines(lines, contextLines * 2)) <==>
            contextLines > 0 || lines == [] || lines == [""])
      && (contextLines == 0 ==> QuietText(log, contextLines) == JoinBy("\n", lines))
      && (contextLines > 0 ==> Count(QuietText(log, contextLines), '\n') < contextLines * 2)
  {
    var lines := SplitPlain(log);
    PlainLinesUnbroken(log);
    JoinedBreaks(Tail(lines, Min(|lines|, contextLines * 2)));
    JoinedEmpty(lines);
    if contextLines == 0 {
      assert LastLines(lines, 0) == [];
    } else {
      assert |lines| > 0 ==> Tail(lines, Min(|lines|, contextLines * 2)) == LastLines(lines, contextLines * 2);
    }
  }
}
