/** Hunks without an old side: what the applier makes of any script, and exactly when that is right. */
module PatchInsertions {
  import opened Domain
  import opened Lines
  import opened Patching
  import opened PatchRoundTrip

  function After(emitted: seq<string>, rest: Option<seq<string>>): Option<seq<string>> {
    if rest.None? then None else Some(emitted + rest.value)
  }

  /** Where the next hunk goes: where it belongs, nowhere in particular, or, for an insertion below an
      unconsumed line, in front of that line. */
  datatype Turn = InPlace | Ambiguously | InFrontOf(last: string)

  /** `front` are the unconsumed lines before the hunk, and `at` counts all lines before it. */
  function TurnOf(edits: seq<Edit>, front: seq<string>, at: nat, rest: seq<string>): Turn {
    if OldOf(edits) != [] || at == 0 then InPlace
    else if front != [] then InFrontOf(front[|front| - 1])
    else if rest == [] then InPlace
    else Ambiguously
  }

  function Emitted(turn: Turn, front: seq<string>, added: seq<string>): seq<string> {
    if turn.InFrontOf? && front != [] then front[..|front| - 1] + added else front + added
  }

  function Unconsumed(turn: Turn): seq<string> { if turn.InFrontOf? then [turn.last] else [] }

  /** One hunk's turn, written out. */
  datatype Step = Step(front: seq<string>, edits: seq<Edit>, rest: seq<string>, turn: Turn)

  /** The turn of the first group's hunk. */
  function FirstStep(groups: seq<Group>, tail: seq<string>, at: nat, pending: seq<string>): Step
    requires groups != []
  {
    var front, edits, rest := pending + groups[0].gap, groups[0].edits, Original(groups[1..], tail);
    Step(front, edits, rest, TurnOf(edits, front, at + |groups[0].gap|, rest))
  }

  /** The turns of a script's hunks when `at` lines of the original come before its groups and `pending`,
      the last of them, are not consumed yet. */
  function Steps(groups: seq<Group>, tail: seq<string>, at: nat, pending: seq<string>): seq<Step>
    decreases |groups|
  {
    if groups == [] then []
    else
      var step := FirstStep(groups, tail, at, pending);
      [step] + Steps(groups[1..], tail, at + |groups[0].gap| + |OldOf(groups[0].edits)|, Unconsumed(step.turn))
  }

  /** What the applier emits in these turns; None when a hunk has no definite place. */
  function Output(steps: seq<Step>, pending: seq<string>, tail: seq<string>): Option<seq<string>>
    decreases |steps|
  {
    if steps == [] then Some(pending + tail)
    else if steps[0].turn.Ambiguously? then None
    else
      After(Emitted(steps[0].turn, steps[0].front, NewOf(steps[0].edits)),
            Output(steps[1..], Unconsumed(steps[0].turn), tail))
  }

  /** The hunk has a definite place, and if it is put in front of a line, adds only copies of that line. */
  predicate Fits(step: Step) {
    !step.turn.Ambiguously? && (step.turn.InFrontOf? ==> forall l <- NewOf(step.edits) :: l == step.turn.last)
  }

  predicate AllFit(steps: seq<Step>) { forall step <- steps :: Fits(step) }

  // ---- when the output is the update ----

  lemma Shared(front: seq<string>, a: seq<string>, b: seq<string>)
    ensures front + a == front + b <==> a == b
  {
    assert (front + a)[|front|..] == a && (front + b)[|front|..] == b;
  }

  lemma Unshift(x: string, y: string, a: seq<string>, b: seq<string>)
    ensures [y] + a == [x] + b <==> y == x && a == b
  {
    assert ([y] + a)[0] == y && ([x] + b)[0] == x;
    assert ([y] + a)[1..] == a && ([x] + b)[1..] == b;
  }

  lemma AllSame(x: string, y: string, more: seq<string>)
    ensures (forall l <- [y] + more :: l == x) <==> y == x && forall l <- more :: l == x
  {
    assert y in [y] + more && forall l <- more :: l in [y] + more;
  }

  lemma {:induction false} RotatesThrough(x: string, added: seq<string>, a: seq<string>, b: seq<string>)
    ensures added + a == [x] + added + b <==> (forall l <- added :: l == x) && a == [x] + b
    decreases |added|
  {
    if added == [] {
      assert added + a == a && [x] + added + b == [x] + b;
    } else {
      var y, more := added[0], added[1..];
      assert added == [y] + more;
      AllSame(x, y, more);
      assert added + a == [y] + (more + a);
      assert [x] + added + b == [x] + ([y] + more + b);
      RotatesThrough(y, more, a, b);
      Unshift(x, y, more + a, [y] + more + b);
    }
  }

  /** One hunk: the output goes on rightly exactly when what is emitted is right. */
  lemma StepRight(turn: Turn, front: seq<string>, added: seq<string>, rest: Option<seq<string>>, later: seq<string>)
    requires turn.InFrontOf? ==> front != [] && turn.last == front[|front| - 1]
    ensures After(Emitted(turn, front, added), rest) == Some(front + added + later) <==>
      (turn.InFrontOf? ==> forall l <- added :: l == turn.last) && rest == Some(Unconsumed(turn) + later)
  {
    if rest.Some? {
      if turn.InFrontOf? {
        var kept := front[..|front| - 1];
        assert front + added + later == kept + ([turn.last] + added + later);
        assert kept + added + rest.value == kept + (added + rest.value);
        Shared(kept, added + rest.value, [turn.last] + added + later);
        RotatesThrough(turn.last, added, rest.value, later);
      } else {
        assert [] + later == later;
        Shared(front + added, rest.value, later);
      }
    }
  }

  lemma UpdatedStep(pending: seq<string>, groups: seq<Group>, tail: seq<string>)
    requires groups != []
    ensures pending + Updated(groups, tail)
      == pending + groups[0].gap + NewOf(groups[0].edits) + Updated(groups[1..], tail)
  {
  }

  /** The same for the first step of several, all given by name. */
  lemma FirstRight(step: Step, steps: seq<Step>, all: seq<Step>, pending: seq<string>, tail: seq<string>,
                   later: seq<string>, expected: seq<string>)
    requires all == [step] + steps && expected == step.front + NewOf(step.edits) + later
    requires step.turn.InFrontOf? ==> step.front != [] && step.turn.last == step.front[|step.front| - 1]
    requires Output(steps, Unconsumed(step.turn), tail) == Some(Unconsumed(step.turn) + later) <==> AllFit(steps)
    ensures Output(all, pending, tail) == Some(expected) <==> AllFit(all)
  {
    assert all[0] == step && all[1..] == steps;
    ConsFit(step, steps);
    StepRight(step.turn, step.front, NewOf(step.edits), Output(steps, Unconsumed(step.turn), tail), later);
  }

  lemma HunksStep(groups: seq<Group>, at: nat, place: nat, next: nat)
    requires groups != [] && place == at + |groups[0].gap| && next == place + |OldOf(groups[0].edits)|
    ensures Hunks(groups, at) == [HunkOf(groups[0].edits, place)] + Hunks(groups[1..], next)
  {
  }

  lemma StepsStep(groups: seq<Group>, tail: seq<string>, at: nat, pending: seq<string>) returns (step: Step, next: nat)
    requires groups != []
    ensures step == FirstStep(groups, tail, at, pending)
    ensures step.front == pending + groups[0].gap && step.edits == groups[0].edits
    ensures step.rest == Original(groups[1..], tail)
    ensures step.turn == TurnOf(step.edits, step.front, at + |groups[0].gap|, step.rest)
    ensures next == at + |groups[0].gap| + |OldOf(step.edits)|
    ensures Steps(groups, tail, at, pending) == [step] + Steps(groups[1..], tail, next, Unconsumed(step.turn))
  {
    step, next := FirstStep(groups, tail, at, pending), at + |groups[0].gap| + |OldOf(groups[0].edits)|;
  }

  lemma {:induction false} OutputIsRightExactlyWhen(groups: seq<Group>, tail: seq<string>, at: nat, pending: seq<string>)
    ensures Output(Steps(groups, tail, at, pending), pending, tail) == Some(pending + Updated(groups, tail))
      <==> AllFit(Steps(groups, tail, at, pending))
    decreases |groups|
  {
    if groups != [] {
      var step, next := StepsStep(groups, tail, at, pending);
      OutputIsRightExactlyWhen(groups[1..], tail, next, Unconsumed(step.turn));
      UpdatedStep(pending, groups, tail);
      FirstRight(step, Steps(groups[1..], tail, next, Unconsumed(step.turn)), Steps(groups, tail, at, pending),
                 pending, tail, Updated(groups[1..], tail), pending + Updated(groups, tail));
    }
  }

  // ---- the output is what the applier emits ----

  /** From line c on, the file consists of the unconsumed lines, the old side and the rest. */
  predicate Stands(lines: seq<string>, c: nat, front: seq<string>, side: seq<string>, rest: seq<string>) {
    c <= |lines| && lines[c..] == front + side + rest
  }

  /** The hunk goes where the rule puts it; None when it has no definite place. */
  function PlaceOf(turn: Turn, c: nat, front: seq<string>): Option<nat> {
    match turn
    case InPlace => Some(c + |front|)
    case Ambiguously => None
    case InFrontOf(_) => if front == [] then None else Some(c + |front| - 1)
  }

  lemma SliceWithin(lines: seq<string>, c: nat, front: seq<string>, side: seq<string>, rest: seq<string>)
    requires Stands(lines, c, front, side, rest)
    ensures Slice(lines, c, c + |front|) == front
    ensures Slice(lines, c + |front|, c + |front| + |side|) == side
    ensures |lines| == c + |front| + |side| + |rest|
  {
    assert lines[c..][..|front|] == front;
    assert lines[c..][|front|..|front| + |side|] == side;
  }

  lemma LocatedAsStated(lines: seq<string>, c: nat, front: seq<string>, edits: seq<Edit>, rest: seq<string>)
    requires Stands(lines, c, front, OldOf(edits), rest)
    requires OldOf(edits) != [] || c + |front| == 0 || front != []
    ensures Locate(lines, HunkOf(edits, c + |front|), c) ==
      Ok(if OldOf(edits) != [] || c + |front| == 0 then c + |front| else c + |front| - 1)
  {
    SliceWithin(lines, c, front, OldOf(edits), rest);
    assert StatedFits(lines, HunkOf(edits, c + |front|), c);
  }

  lemma LocatedAtEnd(lines: seq<string>, c: nat, edits: seq<Edit>)
    requires 0 < c <= |lines| && OldOf(edits) == []
    ensures Locate(lines, HunkOf(edits, c), c) == if c == |lines| then Ok(c) else Err(Ambiguous)
  {
    var hunk := HunkOf(edits, c);
    assert IsMatch(lines, hunk, c, c) && IsMatch(lines, hunk, c, |lines|);
    assert c == |lines| ==> OnlyMatch(lines, hunk, c, c);
  }

  /** The locator, by the hunk's turn. */
  lemma LocatedByTurn(lines: seq<string>, c: nat, front: seq<string>, edits: seq<Edit>, rest: seq<string>)
    requires Stands(lines, c, front, OldOf(edits), rest)
    ensures var place := PlaceOf(TurnOf(edits, front, c + |front|, rest), c, front);
      Locate(lines, HunkOf(edits, c + |front|), c) == if place.None? then Err(Ambiguous) else Ok(place.value)
  {
    if OldOf(edits) != [] || c + |front| == 0 || front != [] {
      LocatedAsStated(lines, c, front, edits, rest);
    } else {
      SliceWithin(lines, c, front, OldOf(edits), rest);
      LocatedAtEnd(lines, c, edits);
    }
  }

  function AsResult(output: Option<seq<string>>): Result<seq<string>> {
    if output.None? then Err(Ambiguous) else Ok(output.value)
  }

  /** A hunk located at a definite place, with what it emits and what is left given by name. */
  lemma DefiniteTurn(lines: seq<string>, hunks: seq<Hunk>, c: nat, place: nat, emitted: seq<string>, next: nat,
                     left: Option<seq<string>>)
    requires hunks != [] && Locate(lines, hunks[0], c) == Ok(place)
    requires Slice(lines, c, place) + hunks[0].newLines == emitted && place + |hunks[0].oldLines| == next
    requires ApplyFrom(lines, hunks[1..], next) == AsResult(left)
    ensures ApplyFrom(lines, hunks, c) == AsResult(After(emitted, left))
  {
  }

  /** Where a turn leaves the cursor. */
  lemma Advance(lines: seq<string>, c: nat, front: seq<string>, edits: seq<Edit>, rest: seq<string>, turn: Turn)
    returns (next: nat)
    requires Stands(lines, c, front, OldOf(edits), rest) && turn == TurnOf(edits, front, c + |front|, rest)
    ensures next + |Unconsumed(turn)| == c + |front| + |OldOf(edits)| && next <= |lines|
    ensures lines[next..] == Unconsumed(turn) + rest
  {
    if turn.InFrontOf? {
      var kept := front[..|front| - 1];
      next := c + |kept|;
      assert front + [] + rest == kept + ([turn.last] + rest);
      SuffixOf(lines, c, kept, [turn.last] + rest);
    } else {
      next := c + |front| + |OldOf(edits)|;
      SuffixOf(lines, c, front + OldOf(edits), rest);
      assert [] + rest == rest;
    }
  }

  /** What a turn emits. */
  lemma TurnEmits(lines: seq<string>, c: nat, front: seq<string>, edits: seq<Edit>, rest: seq<string>, turn: Turn)
    requires Stands(lines, c, front, OldOf(edits), rest) && turn == TurnOf(edits, front, c + |front|, rest)
    requires !turn.Ambiguously?
    ensures PlaceOf(turn, c, front).Some?
    ensures Slice(lines, c, PlaceOf(turn, c, front).value) + NewOf(edits) == Emitted(turn, front, NewOf(edits))
  {
    if turn.InFrontOf? {
      var kept := front[..|front| - 1];
      assert front + [] + rest == kept + [turn.last] + rest;
      SliceWithin(lines, c, kept, [turn.last], rest);
    } else {
      SliceWithin(lines, c, front, OldOf(edits), rest);
    }
  }

  lemma SuffixOf(lines: seq<string>, c: nat, a: seq<string>, b: seq<string>)
    requires c <= |lines| && lines[c..] == a + b
    ensures c + |a| <= |lines| && lines[c + |a|..] == b
  {
    assert lines[c + |a|..] == lines[c..][|a|..];
  }

  /** One turn of the applier, with what is left given by name. */
  lemma TurnApplies(lines: seq<string>, c: nat, front: seq<string>, edits: seq<Edit>, rest: seq<string>,
                    hunks: seq<Hunk>, turn: Turn, next: nat, left: Option<seq<string>>)
    requires Stands(lines, c, front, OldOf(edits), rest) && turn == TurnOf(edits, front, c + |front|, rest)
    requires hunks != [] && hunks[0] == HunkOf(edits, c + |front|)
    requires next + |Unconsumed(turn)| == c + |front| + |OldOf(edits)|
    requires ApplyFrom(lines, hunks[1..], next) == AsResult(left)
    ensures ApplyFrom(lines, hunks, c) ==
      AsResult(if turn.Ambiguously? then None else After(Emitted(turn, front, NewOf(edits)), left))
  {
    LocatedByTurn(lines, c, front, edits, rest);
    if !turn.Ambiguously? {
      TurnEmits(lines, c, front, edits, rest, turn);
      DefiniteTurn(lines, hunks, c, PlaceOf(turn, c, front).value, Emitted(turn, front, NewOf(edits)), next, left);
    }
  }

  lemma GroupStands(lines: seq<string>, c: nat, pending: seq<string>, groups: seq<Group>, tail: seq<string>)
    requires groups != [] && c <= |lines| && lines[c..] == pending + Original(groups, tail)
    ensures Stands(lines, c, pending + groups[0].gap, OldOf(groups[0].edits), Original(groups[1..], tail))
  {
  }

  /** The step is the turn of this hunk, with the cursor at line c. */
  predicate IsTurn(lines: seq<string>, c: nat, step: Step, hunk: Hunk) {
    && hunk == HunkOf(step.edits, c + |step.front|)
    && Stands(lines, c, step.front, OldOf(step.edits), step.rest)
    && step.turn == TurnOf(step.edits, step.front, c + |step.front|, step.rest)
  }

  /** With the cursor at line c and `pending` not consumed yet, the steps are the turns of these hunks. */
  predicate Ahead(lines: seq<string>, c: nat, steps: seq<Step>, pending: seq<string>, tail: seq<string>, hunks: seq<Hunk>)
    decreases |steps|
  {
    if steps == [] then hunks == [] && c <= |lines| && lines[c..] == pending + tail
    else
      && hunks != [] && IsTurn(lines, c, steps[0], hunks[0])
      && c + |steps[0].front| + |OldOf(steps[0].edits)| >= |Unconsumed(steps[0].turn)|
      && Ahead(lines, c + |steps[0].front| + |OldOf(steps[0].edits)| - |Unconsumed(steps[0].turn)|,
               steps[1..], Unconsumed(steps[0].turn), tail, hunks[1..])
  }

  /** What the applier makes of the hunks ahead, whether they have old sides or not. */
  lemma {:induction false} AheadApplies(
    lines: seq<string>, c: nat, steps: seq<Step>, pending: seq<string>, tail: seq<string>, hunks: seq<Hunk>)
    requires Ahead(lines, c, steps, pending, tail, hunks)
    ensures ApplyFrom(lines, hunks, c) == AsResult(Output(steps, pending, tail))
    decreases |steps|
  {
    if steps == [] {
      assert Slice(lines, c, |lines|) == pending + tail;
    } else {
      var step := steps[0];
      var next := c + |step.front| + |OldOf(step.edits)| - |Unconsumed(step.turn)|;
      AheadApplies(lines, next, steps[1..], Unconsumed(step.turn), tail, hunks[1..]);
      TurnApplies(lines, c, step.front, step.edits, step.rest, hunks, step.turn, next,
                  Output(steps[1..], Unconsumed(step.turn), tail));
    }
  }

  lemma OneAhead(lines: seq<string>, c: nat, step: Step, steps: seq<Step>, pending: seq<string>, tail: seq<string>,
                 hunk: Hunk, hunks: seq<Hunk>, next: nat, allSteps: seq<Step>, allHunks: seq<Hunk>)
    requires IsTurn(lines, c, step, hunk) && next + |Unconsumed(step.turn)| == c + |step.front| + |OldOf(step.edits)|
    requires Ahead(lines, next, steps, Unconsumed(step.turn), tail, hunks)
    requires allSteps == [step] + steps && allHunks == [hunk] + hunks
    ensures Ahead(lines, c, allSteps, pending, tail, allHunks)
  {
  }

  lemma {:induction false} ScriptIsAhead(
    lines: seq<string>, c: nat, at: nat, pending: seq<string>, groups: seq<Group>, tail: seq<string>)
    requires c <= |lines| && lines[c..] == pending + Original(groups, tail) && at == c + |pending|
    ensures Ahead(lines, c, Steps(groups, tail, at, pending), pending, tail, Hunks(groups, at))
    decreases |groups|
  {
    if groups != [] {
      var step, after := StepsStep(groups, tail, at, pending);
      FirstIsTurn(lines, c, pending, groups, tail, step);
      var next := Advance(lines, c, step.front, step.edits, step.rest, step.turn);
      ScriptIsAhead(lines, next, after, Unconsumed(step.turn), groups[1..], tail);
      GroupAhead(lines, c, at, pending, groups, tail, step, after, next);
    }
  }

  lemma GroupAhead(lines: seq<string>, c: nat, at: nat, pending: seq<string>, groups: seq<Group>, tail: seq<string>,
                   step: Step, after: nat, next: nat)
    requires groups != [] && step.edits == groups[0].edits && c + |step.front| == at + |groups[0].gap|
    requires after == at + |groups[0].gap| + |OldOf(step.edits)| == next + |Unconsumed(step.turn)|
    requires IsTurn(lines, c, step, HunkOf(step.edits, c + |step.front|))
    requires Steps(groups, tail, at, pending) == [step] + Steps(groups[1..], tail, after, Unconsumed(step.turn))
    requires Ahead(lines, next, Steps(groups[1..], tail, after, Unconsumed(step.turn)), Unconsumed(step.turn), tail,
                   Hunks(groups[1..], after))
    ensures Ahead(lines, c, Steps(groups, tail, at, pending), pending, tail, Hunks(groups, at))
  {
    HunksStep(groups, at, c + |step.front|, after);
    OneAhead(lines, c, step, Steps(groups[1..], tail, after, Unconsumed(step.turn)), pending, tail,
             HunkOf(step.edits, c + |step.front|), Hunks(groups[1..], after), next,
             Steps(groups, tail, at, pending), Hunks(groups, at));
  }

  lemma FirstIsTurn(
    lines: seq<string>, c: nat, pending: seq<string>, groups: seq<Group>, tail: seq<string>, step: Step)
    requires groups != [] && c <= |lines| && lines[c..] == pending + Original(groups, tail)
    requires step == FirstStep(groups, tail, c + |pending|, pending)
    ensures IsTurn(lines, c, step, HunkOf(step.edits, c + |step.front|))
  {
    GroupStands(lines, c, pending, groups, tail);
  }

  /** Each hunk of the script has a definite place, and one put in front of a line, because it has no old
      side, adds only copies of that line. */
  predicate Placeable(groups: seq<Group>, tail: seq<string>) { AllFit(Steps(groups, tail, 0, [])) }

  /** For every script, with or without old sides: its hunks turn the original into the update if and
      only if they are placeable. */
  lemma HunksApplyExactlyWhen(groups: seq<Group>, tail: seq<string>)
    ensures ApplyFrom(Original(groups, tail), Hunks(groups, 0), 0) == Ok(Updated(groups, tail))
      <==> Placeable(groups, tail)
  {
    ScriptIsAhead(Original(groups, tail), 0, 0, [], groups, tail);
    AheadApplies(Original(groups, tail), 0, Steps(groups, tail, 0, []), [], tail, Hunks(groups, 0));
    OutputIsRightExactlyWhen(groups, tail, 0, []);
    EmptyFront(Updated(groups, tail));
  }

  lemma EmptyFront(a: seq<string>)
    ensures [] + a == a
  {
  }

  /** A rendering whose lines stay apart gives the updated text for every placeable script. */
  lemma PlaceableRenderingApplies(original: string, updated: string, path: string, groups: seq<Group>, tail: seq<string>)
    requires SplitLines(original) == Original(groups, tail) && SplitLines(updated) == Updated(groups, tail)
    requires NoBreaks(path) && groups != []
    requires Separate(RenderLines(path, groups)) && Placeable(groups, tail)
    ensures Applied(original, RenderUnifiedDiff(path, groups)) == Ok(updated)
  {
    SplitGivesLines(original);
    SplitGivesLines(updated);
    EditsOfTexts(groups, tail, false);
    RenderingParsesBack(path, groups);
    HunksApplyExactlyWhen(groups, tail);
    JoinSplit(updated);
  }

  // ---- scripts whose hunks are kept apart by unchanged lines ----

  /** Each hunk has an old side, stands at the very start, or adds only copies of the line above it. */
  predicate Repeats(groups: seq<Group>, at: nat)
    decreases |groups|
  {
    groups == [] ||
    (RepeatsAbove(groups[0], at) && Repeats(groups[1..], at + |groups[0].gap| + |OldOf(groups[0].edits)|))
  }

  predicate RepeatsAbove(group: Group, at: nat) {
    || OldOf(group.edits) != []
    || at + |group.gap| == 0
    || (group.gap != [] && forall l <- NewOf(group.edits) :: l == group.gap[|group.gap| - 1])
  }

  /** As difflib groups them: only the first hunk may follow nothing, and then at the very start. */
  predicate Spaced(groups: seq<Group>, at: nat) {
    forall i | 0 <= i < |groups| :: groups[i].gap != [] || (i == 0 && at == 0)
  }

  lemma FirstFits(step: Step, group: Group, pending: seq<string>, at: nat)
    requires step.front == pending + group.gap && step.edits == group.edits
    requires step.turn == TurnOf(step.edits, step.front, at + |group.gap|, step.rest)
    requires |pending| <= at && (group.gap != [] || at == 0)
    ensures Fits(step) <==> RepeatsAbove(group, at)
  {
  }

  lemma SpacedTail(groups: seq<Group>, at: nat, next: nat)
    requires groups != [] && Spaced(groups, at)
    ensures Spaced(groups[1..], next) && (groups[0].gap != [] || at == 0)
  {
    forall i | 0 <= i < |groups| - 1
      ensures groups[1..][i].gap != []
    {
      var j := i + 1;
      assert groups[1..][i] == groups[j] && groups[j].gap != [];
    }
  }

  /** The first step of several, given by name. */
  lemma FirstFit(step: Step, steps: seq<Step>, all: seq<Step>, group: Group, pending: seq<string>, at: nat, rest: bool)
    requires all == [step] + steps && (AllFit(steps) <==> rest)
    requires step.front == pending + group.gap && step.edits == group.edits
    requires step.turn == TurnOf(step.edits, step.front, at + |group.gap|, step.rest)
    requires |pending| <= at && (group.gap != [] || at == 0)
    ensures AllFit(all) <==> RepeatsAbove(group, at) && rest
  {
    FirstFits(step, group, pending, at);
    ConsFit(step, steps);
  }

  lemma RepeatsStep(groups: seq<Group>, at: nat, next: nat)
    requires groups != [] && next == at + |groups[0].gap| + |OldOf(groups[0].edits)|
    ensures Repeats(groups, at) <==> RepeatsAbove(groups[0], at) && Repeats(groups[1..], next)
  {
  }

  lemma LittleUnconsumed(edits: seq<Edit>, front: seq<string>, at: nat, rest: seq<string>, next: nat)
    requires at <= next
    ensures |Unconsumed(TurnOf(edits, front, at, rest))| <= next
  {
  }

  /** The same of all steps: whether they fit, given whether the groups after the first repeat. */
  lemma StepsFit(groups: seq<Group>, tail: seq<string>, at: nat, pending: seq<string>, step: Step, next: nat)
    requires groups != [] && Spaced(groups, at) && |pending| <= at
    requires step == FirstStep(groups, tail, at, pending)
    requires next == at + |groups[0].gap| + |OldOf(groups[0].edits)|
    requires Steps(groups, tail, at, pending) == [step] + Steps(groups[1..], tail, next, Unconsumed(step.turn))
    requires AllFit(Steps(groups[1..], tail, next, Unconsumed(step.turn))) <==> Repeats(groups[1..], next)
    ensures AllFit(Steps(groups, tail, at, pending)) <==> Repeats(groups, at)
  {
    SpacedTail(groups, at, next);
    RepeatsStep(groups, at, next);
    FirstFit(step, Steps(groups[1..], tail, next, Unconsumed(step.turn)), Steps(groups, tail, at, pending),
             groups[0], pending, at, Repeats(groups[1..], next));
  }

  lemma {:induction false} SpacedFit(groups: seq<Group>, tail: seq<string>, at: nat, pending: seq<string>)
    requires Spaced(groups, at) && |pending| <= at
    ensures AllFit(Steps(groups, tail, at, pending)) <==> Repeats(groups, at)
    decreases |groups|
  {
    if groups != [] {
      var step, next := StepsStep(groups, tail, at, pending);
      SpacedTail(groups, at, next);
      LittleUnconsumed(step.edits, step.front, at + |groups[0].gap|, step.rest, next);
      SpacedFit(groups[1..], tail, next, Unconsumed(step.turn));
      StepsFit(groups, tail, at, pending, step, next);
    }
  }

  lemma ConsFit(step: Step, steps: seq<Step>)
    ensures AllFit([step] + steps) <==> Fits(step) && AllFit(steps)
  {
    assert step in [step] + steps && forall other <- steps :: other in [step] + steps;
  }

  /** For scripts whose hunks are kept apart by unchanged lines, the hunks turn the original into the
      update if and only if every hunk without an old side, except at the very start, adds only copies
      of the line above it. */
  lemma SpacedHunksApplyExactlyWhen(groups: seq<Group>, tail: seq<string>)
    requires Spaced(groups, 0)
    ensures ApplyFrom(Original(groups, tail), Hunks(groups, 0), 0) == Ok(Updated(groups, tail)) <==> Repeats(groups, 0)
  {
    HunksApplyExactlyWhen(groups, tail);
    SpacedFit(groups, tail, 0, []);
    assert Placeable(groups, tail) <==> Repeats(groups, 0);
  }

  /** An insertion rendered without context into the middle of a file is placed one line too early.
      The result is right exactly when every inserted line equals the line it should follow. */
  lemma InsertionWithoutContext(gap: seq<string>, added: seq<string>, tail: seq<string>)
    requires gap != []
    ensures var groups := [Group(gap, [Change([], added)])];
      ApplyFrom(Original(groups, tail), Hunks(groups, 0), 0) == Ok(Updated(groups, tail))
      <==> forall l <- added :: l == gap[|gap| - 1]
  {
    InsertionRepeats(gap, added);
    SpacedHunksApplyExactlyWhen([Group(gap, [Change([], added)])], tail);
  }

  lemma InsertionRepeats(gap: seq<string>, added: seq<string>)
    requires gap != []
    ensures var groups := [Group(gap, [Change([], added)])];
      Spaced(groups, 0) && (Repeats(groups, 0) <==> forall l <- added :: l == gap[|gap| - 1])
  {
    OneInsertion(added);
    OneGroup(Group(gap, [Change([], added)]));
  }

  lemma OneInsertion(added: seq<string>)
    ensures OldOf([Change([], added)]) == [] && NewOf([Change([], added)]) == added
  {
    assert [Change([], added)][1..] == [];
  }

  lemma OneGroup(group: Group)
    ensures Repeats([group], 0) <==> RepeatsAbove(group, 0)
  {
    assert [group][1..] == [];
  }
}
