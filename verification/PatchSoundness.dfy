/** What it means that a diff applied: where each hunk went, and what happened to every other line. */
module PatchSoundness {
  import opened Domain
  import opened Lines
  import opened Patching

  function Sizes(parts: seq<seq<string>>): nat {
    if parts == [] then 0 else |parts[0]| + Sizes(parts[1..])
  }

  /** gaps[0] + parts[0] + gaps[1] + parts[1] + ... + gaps[n] */
  function Weave(gaps: seq<seq<string>>, parts: seq<seq<string>>): seq<string>
    requires |gaps| == |parts| + 1
    decreases |parts|
  {
    if parts == [] then gaps[0] else gaps[0] + parts[0] + Weave(gaps[1..], parts[1..])
  }

  function OldSides(hunks: seq<Hunk>): seq<seq<string>> {
    seq(|hunks|, i requires 0 <= i < |hunks| => hunks[i].oldLines)
  }

  function NewSides(hunks: seq<Hunk>): seq<seq<string>> {
    seq(|hunks|, i requires 0 <= i < |hunks| => hunks[i].newLines)
  }

  /** Where the search for hunk i starts: just after the previous hunk's old lines. */
  function CursorAt(hunks: seq<Hunk>, places: seq<nat>, i: nat): nat
    requires i <= |hunks| == |places|
  {
    if i == 0 then 0 else places[i - 1] + |hunks[i - 1].oldLines|
  }

  /** The rule for one hunk: not before the cursor, equal to its old side up to trailing CR/LF, and so in
      bounds when there is an old side, at the stated position or else at the only match. */
  ghost predicate PlacedRight(lines: seq<string>, hunk: Hunk, cursor: nat, place: nat) {
    && cursor <= place
    && (hunk.oldLines != [] ==> place + |hunk.oldLines| <= |lines|)
    && SameLines(Slice(lines, place, place + |hunk.oldLines|), hunk.oldLines)
    && if StatedFits(lines, hunk, cursor) then place == Stated(hunk) else OnlyMatch(lines, hunk, cursor, place)
  }

  ghost predicate AllPlacedRight(lines: seq<string>, hunks: seq<Hunk>, places: seq<nat>) {
    |places| == |hunks| && forall i | 0 <= i < |hunks| ::
      PlacedRight(lines, hunks[i], CursorAt(hunks, places, i), places[i])
  }

  lemma LocateIsRight(lines: seq<string>, hunk: Hunk, cursor: nat, place: nat)
    ensures Locate(lines, hunk, cursor) == Ok(place) <==> PlacedRight(lines, hunk, cursor, place)
  {
  }

  // ---- the same facts from an arbitrary cursor on ----

  ghost predicate PlacedFrom(lines: seq<string>, hunks: seq<Hunk>, cursor: nat, places: seq<nat>)
    decreases |hunks|
  {
    if hunks == [] then places == []
    else
      && places != []
      && PlacedRight(lines, hunks[0], cursor, places[0])
      && PlacedFrom(lines, hunks[1..], places[0] + |hunks[0].oldLines|, places[1..])
  }

  function Gaps(lines: seq<string>, hunks: seq<Hunk>, cursor: nat, places: seq<nat>): (gaps: seq<seq<string>>)
    ensures |gaps| == Min(|hunks|, |places|) + 1
    decreases |hunks|
  {
    if hunks == [] || places == [] then [Slice(lines, cursor, |lines|)]
    else [Slice(lines, cursor, places[0])] + Gaps(lines, hunks[1..], places[0] + |hunks[0].oldLines|, places[1..])
  }

  function Cuts(lines: seq<string>, hunks: seq<Hunk>, places: seq<nat>): (cuts: seq<seq<string>>)
    ensures |cuts| == Min(|hunks|, |places|)
    decreases |hunks|
  {
    if hunks == [] || places == [] then []
    else [Slice(lines, places[0], places[0] + |hunks[0].oldLines|)] + Cuts(lines, hunks[1..], places[1..])
  }

  lemma FirstGap(lines: seq<string>, hunks: seq<Hunk>, cursor: nat, places: seq<nat>)
    requires hunks != [] && places != []
    ensures var gaps := Gaps(lines, hunks, cursor, places);
      && gaps[0] == Slice(lines, cursor, places[0])
      && gaps[1..] == Gaps(lines, hunks[1..], places[0] + |hunks[0].oldLines|, places[1..])
  {
  }

  lemma OneApplied(lines: seq<string>, hunks: seq<Hunk>, cursor: nat, place: nat, rest: seq<string>)
    requires hunks != [] && Locate(lines, hunks[0], cursor) == Ok(place)
    requires ApplyFrom(lines, hunks[1..], place + |hunks[0].oldLines|) == Ok(rest)
    ensures ApplyFrom(lines, hunks, cursor) == Ok(Slice(lines, cursor, place) + hunks[0].newLines + rest)
  {
  }

  lemma {:induction false} ResultFrom(lines: seq<string>, hunks: seq<Hunk>, cursor: nat, places: seq<nat>)
    requires PlacedFrom(lines, hunks, cursor, places)
    ensures |places| == |hunks|
    ensures ApplyFrom(lines, hunks, cursor) == Ok(Weave(Gaps(lines, hunks, cursor, places), NewSides(hunks)))
    decreases |hunks|
  {
    if hunks != [] {
      var next := places[0] + |hunks[0].oldLines|;
      LocateIsRight(lines, hunks[0], cursor, places[0]);
      ResultFrom(lines, hunks[1..], next, places[1..]);
      assert NewSides(hunks)[1..] == NewSides(hunks[1..]);
      FirstGap(lines, hunks, cursor, places);
      OneApplied(lines, hunks, cursor, places[0],
                 Weave(Gaps(lines, hunks[1..], next, places[1..]), NewSides(hunks[1..])));
    }
  }

  lemma CutTwice(lines: seq<string>, cursor: nat, place: nat, next: nat)
    requires cursor <= place <= next
    ensures Slice(lines, cursor, |lines|) ==
      Slice(lines, cursor, place) + Slice(lines, place, next) + Slice(lines, next, |lines|)
  {
  }

  lemma {:induction false} LinesFrom(lines: seq<string>, hunks: seq<Hunk>, cursor: nat, places: seq<nat>)
    requires PlacedFrom(lines, hunks, cursor, places)
    ensures |places| == |hunks|
    ensures Slice(lines, cursor, |lines|) == Weave(Gaps(lines, hunks, cursor, places), Cuts(lines, hunks, places))
    decreases |hunks|
  {
    if hunks != [] {
      var place, next := places[0], places[0] + |hunks[0].oldLines|;
      LinesFrom(lines, hunks[1..], next, places[1..]);
      assert Gaps(lines, hunks, cursor, places)[1..] == Gaps(lines, hunks[1..], next, places[1..]);
      assert Cuts(lines, hunks, places)[1..] == Cuts(lines, hunks[1..], places[1..]);
      CutTwice(lines, cursor, place, next);
    }
  }

  lemma {:induction false} CutsFrom(lines: seq<string>, hunks: seq<Hunk>, cursor: nat, places: seq<nat>)
    requires PlacedFrom(lines, hunks, cursor, places)
    ensures |places| == |hunks|
    ensures Sizes(Cuts(lines, hunks, places)) == Sizes(OldSides(hunks))
    ensures forall i | 0 <= i < |hunks| :: SameLines(Cuts(lines, hunks, places)[i], hunks[i].oldLines)
    decreases |hunks|
  {
    if hunks != [] {
      CutsFrom(lines, hunks[1..], places[0] + |hunks[0].oldLines|, places[1..]);
      assert OldSides(hunks)[1..] == OldSides(hunks[1..]);
      assert Cuts(lines, hunks, places)[1..] == Cuts(lines, hunks[1..], places[1..]);
      forall i | 0 <= i < |hunks|
        ensures SameLines(Cuts(lines, hunks, places)[i], hunks[i].oldLines)
      {
        if i > 0 {
          assert SameLines(Cuts(lines, hunks[1..], places[1..])[i - 1], hunks[1..][i - 1].oldLines);
        }
      }
    }
  }

  lemma OnePlaced(lines: seq<string>, hunks: seq<Hunk>, cursor: nat, place: nat, rest: seq<nat>)
    requires hunks != [] && PlacedRight(lines, hunks[0], cursor, place)
    requires PlacedFrom(lines, hunks[1..], place + |hunks[0].oldLines|, rest)
    ensures PlacedFrom(lines, hunks, cursor, [place] + rest)
  {
    assert ([place] + rest)[1..] == rest;
  }

  lemma {:induction false} PlacesExist(lines: seq<string>, hunks: seq<Hunk>, cursor: nat) returns (places: seq<nat>)
    requires ApplyFrom(lines, hunks, cursor).Ok?
    ensures PlacedFrom(lines, hunks, cursor, places)
    decreases |hunks|
  {
    if hunks == [] {
      places := [];
    } else {
      var place := Locate(lines, hunks[0], cursor).value;
      LocateIsRight(lines, hunks[0], cursor, place);
      var rest := PlacesExist(lines, hunks[1..], place + |hunks[0].oldLines|);
      places := [place] + rest;
      OnePlaced(lines, hunks, cursor, place, rest);
    }
  }

  function CursorFrom(hunks: seq<Hunk>, cursor: nat, places: seq<nat>, i: nat): nat
    requires i <= |hunks| == |places|
  {
    if i == 0 then cursor else CursorAt(hunks, places, i)
  }

  ghost predicate RightAt(lines: seq<string>, hunks: seq<Hunk>, cursor: nat, places: seq<nat>, i: nat)
    requires i < |hunks| == |places|
  {
    PlacedRight(lines, hunks[i], CursorFrom(hunks, cursor, places, i), places[i])
  }

  ghost predicate Pointwise(lines: seq<string>, hunks: seq<Hunk>, cursor: nat, places: seq<nat>)
    requires |places| == |hunks|
  {
    forall i | 0 <= i < |hunks| :: RightAt(lines, hunks, cursor, places, i)
  }

  lemma RightInTail(lines: seq<string>, hunks: seq<Hunk>, cursor: nat, places: seq<nat>, i: nat)
    requires |places| == |hunks| && 0 < i < |hunks|
    ensures RightAt(lines, hunks, cursor, places, i) <==>
      RightAt(lines, hunks[1..], places[0] + |hunks[0].oldLines|, places[1..], i - 1)
  {
  }

  lemma {:induction false} PlacedFromIsPointwise(
    lines: seq<string>, hunks: seq<Hunk>, cursor: nat, places: seq<nat>)
    requires |places| == |hunks|
    ensures PlacedFrom(lines, hunks, cursor, places) <==> Pointwise(lines, hunks, cursor, places)
    decreases |hunks|
  {
    if hunks != [] {
      var next := places[0] + |hunks[0].oldLines|;
      PlacedFromIsPointwise(lines, hunks[1..], next, places[1..]);
      PointwiseUnfolds(lines, hunks, cursor, places);
    }
  }

  lemma PointwiseUnfolds(lines: seq<string>, hunks: seq<Hunk>, cursor: nat, places: seq<nat>)
    requires |places| == |hunks| && hunks != []
    ensures Pointwise(lines, hunks, cursor, places) <==>
      && PlacedRight(lines, hunks[0], cursor, places[0])
      && Pointwise(lines, hunks[1..], places[0] + |hunks[0].oldLines|, places[1..])
  {
    var next := places[0] + |hunks[0].oldLines|;
    assert RightAt(lines, hunks, cursor, places, 0) <==> PlacedRight(lines, hunks[0], cursor, places[0]);
    forall i | 0 < i < |hunks|
      ensures RightAt(lines, hunks, cursor, places, i) <==> RightAt(lines, hunks[1..], next, places[1..], i - 1)
    {
      RightInTail(lines, hunks, cursor, places, i);
    }
    forall i | 0 <= i < |hunks| - 1
      ensures RightAt(lines, hunks, cursor, places, i + 1) <==> RightAt(lines, hunks[1..], next, places[1..], i)
    {
      RightInTail(lines, hunks, cursor, places, i + 1);
    }
  }

  lemma PlacedFromMeans(lines: seq<string>, hunks: seq<Hunk>, places: seq<nat>)
    requires |places| == |hunks|
    ensures PlacedFrom(lines, hunks, 0, places) <==> AllPlacedRight(lines, hunks, places)
  {
    PlacedFromIsPointwise(lines, hunks, 0, places);
    assert forall i | 0 <= i < |hunks| :: RightAt(lines, hunks, 0, places, i) <==>
      PlacedRight(lines, hunks[i], CursorAt(hunks, places, i), places[i]);
  }

  lemma {:induction false} WeaveSizes(gaps: seq<seq<string>>, parts: seq<seq<string>>)
    requires |gaps| == |parts| + 1
    ensures |Weave(gaps, parts)| == Sizes(gaps) + Sizes(parts)
    decreases |parts|
  {
    if parts != [] {
      WeaveSizes(gaps[1..], parts[1..]);
    } else {
      assert gaps[1..] == [];
    }
  }

  /** Hunks apply, with or without an old side, exactly when they can be placed in order by the rule. */
  lemma AppliesExactlyWhenPlaced(lines: seq<string>, hunks: seq<Hunk>)
    ensures ApplyFrom(lines, hunks, 0).Ok? <==> exists places :: AllPlacedRight(lines, hunks, places)
  {
    if ApplyFrom(lines, hunks, 0).Ok? {
      var places := PlacesExist(lines, hunks, 0);
      ResultFrom(lines, hunks, 0, places);
      PlacedFromMeans(lines, hunks, places);
      assert AllPlacedRight(lines, hunks, places);
    }
    if places :| AllPlacedRight(lines, hunks, places) {
      PlacedFromMeans(lines, hunks, places);
      ResultFrom(lines, hunks, 0, places);
    }
  }

  /** The lines between the places: before the first, between neighbours, and after the last. */
  function Untouched(lines: seq<string>, hunks: seq<Hunk>, places: seq<nat>): (gaps: seq<seq<string>>)
    requires |places| == |hunks|
    ensures |gaps| == |hunks| + 1
  {
    seq(|hunks| + 1, i requires 0 <= i <= |hunks| =>
      Slice(lines, CursorAt(hunks, places, i), if i < |hunks| then places[i] else |lines|))
  }

  /** The lines at the places. */
  function Replaced(lines: seq<string>, hunks: seq<Hunk>, places: seq<nat>): (cuts: seq<seq<string>>)
    requires |places| == |hunks|
    ensures |cuts| == |hunks|
  {
    seq(|hunks|, i requires 0 <= i < |hunks| => Slice(lines, places[i], places[i] + |hunks[i].oldLines|))
  }

  lemma {:induction false} GapAt(lines: seq<string>, hunks: seq<Hunk>, cursor: nat, places: seq<nat>, i: nat)
    requires i <= |hunks| == |places|
    ensures Gaps(lines, hunks, cursor, places)[i] ==
      Slice(lines, CursorFrom(hunks, cursor, places, i), if i < |hunks| then places[i] else |lines|)
    decreases |hunks|
  {
    if hunks != [] {
      FirstGap(lines, hunks, cursor, places);
      if i > 0 { GapAt(lines, hunks[1..], places[0] + |hunks[0].oldLines|, places[1..], i - 1); }
    }
  }

  lemma {:induction false} CutAt(lines: seq<string>, hunks: seq<Hunk>, places: seq<nat>, i: nat)
    requires i < |hunks| == |places|
    ensures Cuts(lines, hunks, places)[i] == Slice(lines, places[i], places[i] + |hunks[i].oldLines|)
    decreases |hunks|
  {
    if i > 0 {
      CutAt(lines, hunks[1..], places[1..], i - 1);
      assert Cuts(lines, hunks, places)[i] == Cuts(lines, hunks[1..], places[1..])[i - 1];
    }
  }

  lemma PiecesAtPlaces(lines: seq<string>, hunks: seq<Hunk>, places: seq<nat>)
    requires |places| == |hunks|
    ensures Gaps(lines, hunks, 0, places) == Untouched(lines, hunks, places)
    ensures Cuts(lines, hunks, places) == Replaced(lines, hunks, places)
  {
    forall i | 0 <= i <= |hunks|
      ensures Gaps(lines, hunks, 0, places)[i] == Untouched(lines, hunks, places)[i]
    {
      GapAt(lines, hunks, 0, places, i);
    }
    forall i | 0 <= i < |hunks|
      ensures Cuts(lines, hunks, places)[i] == Replaced(lines, hunks, places)[i]
    {
      CutAt(lines, hunks, places, i);
    }
  }

  /** At rule-abiding places the result is the file with the lines at those places, which equal the old
      sides up to trailing CR/LF, replaced by the new sides, and every other line kept in order. */
  lemma OnlyPlacedRangesChange(lines: seq<string>, hunks: seq<Hunk>, places: seq<nat>)
    requires AllPlacedRight(lines, hunks, places)
    ensures lines == Weave(Untouched(lines, hunks, places), Replaced(lines, hunks, places))
    ensures forall i | 0 <= i < |hunks| :: SameLines(Replaced(lines, hunks, places)[i], hunks[i].oldLines)
    ensures ApplyFrom(lines, hunks, 0) == Ok(Weave(Untouched(lines, hunks, places), NewSides(hunks)))
    ensures |ApplyFrom(lines, hunks, 0).value| == |lines| - Sizes(OldSides(hunks)) + Sizes(NewSides(hunks))
  {
    PlacedFromMeans(lines, hunks, places);
    ResultFrom(lines, hunks, 0, places);
    LinesFrom(lines, hunks, 0, places);
    CutsFrom(lines, hunks, 0, places);
    PiecesAtPlaces(lines, hunks, places);
    assert Slice(lines, 0, |lines|) == lines;
    WeaveSizes(Untouched(lines, hunks, places), Replaced(lines, hunks, places));
    WeaveSizes(Untouched(lines, hunks, places), NewSides(hunks));
  }

  /** `updated` is the original with the hunks' new sides at these rule-abiding places. */
  ghost predicate IsPatchedAt(original: string, hunks: seq<Hunk>, places: seq<nat>, updated: string) {
    var lines := SplitLines(original);
    AllPlacedRight(lines, hunks, places) && updated == Join(Weave(Untouched(lines, hunks, places), NewSides(hunks)))
  }

  /** A patch that applies does so at rule-abiding places. */
  lemma AppliedMeans(original: string, patch: string)
    requires Applied(original, patch).Ok?
    ensures HunksOf(patch).Ok?
    ensures exists places :: IsPatchedAt(original, HunksOf(patch).value, places, Applied(original, patch).value)
  {
    var lines, hunks := SplitLines(original), HunksOf(patch).value;
    AppliesExactlyWhenPlaced(lines, hunks);
    var places :| AllPlacedRight(lines, hunks, places);
    OnlyPlacedRangesChange(lines, hunks, places);
    assert IsPatchedAt(original, hunks, places, Applied(original, patch).value);
  }
}
