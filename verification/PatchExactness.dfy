/** Exactly when a rendered edit script applies: weighing what a patch adds and removes. */
module PatchExactness {
  import opened Lines
  import opened Patching
  import opened PatchRoundTrip

  // ---- weights: characters other than CR and LF ----

  function Weight(s: string): nat {
    if s == "" then 0 else (if s[0] in {'\r', '\n'} then 0 else 1) + Weight(s[1..])
  }

  function Weigh(lines: seq<string>): nat { if lines == [] then 0 else Weight(lines[0]) + Weigh(lines[1..]) }

  lemma {:induction false} WeightAppend(a: string, b: string)
    ensures Weight(a + b) == Weight(a) + Weight(b)
  {
    if a == "" {
      assert a + b == b;
    } else {
      assert (a + b)[1..] == a[1..] + b;
      WeightAppend(a[1..], b);
    }
  }

  lemma {:induction false} WeighAppend(a: seq<string>, b: seq<string>)
    ensures Weigh(a + b) == Weigh(a) + Weigh(b)
  {
    if a == [] {
      assert a + b == b;
    } else {
      assert (a + b)[1..] == a[1..] + b;
      WeighAppend(a[1..], b);
    }
  }

  lemma {:induction false} WeighJoin(lines: seq<string>)
    ensures Weight(Join(lines)) == Weigh(lines)
  {
    if lines != [] {
      WeighJoin(lines[1..]);
      WeightAppend(lines[0], Join(lines[1..]));
    }
  }

  lemma {:induction false} StripKeepsWeight(s: string)
    ensures Weight(StripNewline(s)) == Weight(s)
    decreases |s|
  {
    if s != "" && s[|s| - 1] in {'\r', '\n'} {
      var last := |s| - 1;
      StripKeepsWeight(s[..last]);
      assert s == s[..last] + [s[last]];
      WeightAppend(s[..last], [s[last]]);
    }
  }

  lemma {:induction false} SameLinesWeighSame(a: seq<string>, b: seq<string>)
    requires SameLines(a, b)
    ensures Weigh(a) == Weigh(b)
  {
    if a != [] {
      StripKeepsWeight(a[0]);
      StripKeepsWeight(b[0]);
      SameLinesWeighSame(a[1..], b[1..]);
    }
  }

  // ---- what applying hunks adds ----

  function NetOf(hunks: seq<Hunk>): int {
    if hunks == [] then 0 else Weigh(hunks[0].newLines) - Weigh(hunks[0].oldLines) + NetOf(hunks[1..])
  }

  lemma {:induction false} NetAppend(a: seq<Hunk>, b: seq<Hunk>)
    ensures NetOf(a + b) == NetOf(a) + NetOf(b)
  {
    if a == [] {
      assert a + b == b;
    } else {
      assert (a + b)[1..] == a[1..] + b;
      NetAppend(a[1..], b);
    }
  }

  lemma SliceWeights(lines: seq<string>, from: nat, middle: nat, to: nat)
    requires from <= middle <= to
    ensures Weigh(Slice(lines, from, to)) == Weigh(Slice(lines, from, middle)) + Weigh(Slice(lines, middle, to))
  {
    assert Slice(lines, from, to) == Slice(lines, from, middle) + Slice(lines, middle, to);
    WeighAppend(Slice(lines, from, middle), Slice(lines, middle, to));
  }

  lemma SliceToEnd(lines: seq<string>, from: nat, to: nat)
    requires |lines| <= to
    ensures Slice(lines, from, to) == Slice(lines, from, |lines|)
  {
  }

  lemma LocatedMatches(lines: seq<string>, hunk: Hunk, cursor: nat)
    requires Locate(lines, hunk, cursor).Ok?
    ensures var place := Locate(lines, hunk, cursor).value;
      cursor <= place && MatchesAt(lines, hunk, place)
  {
  }

  /** Wherever its hunks land, a patch that applies adds the weight of its new sides and takes away
      the weight of its old sides. */
  lemma {:induction false} ApplyNet(lines: seq<string>, hunks: seq<Hunk>, cursor: nat)
    requires ApplyFrom(lines, hunks, cursor).Ok?
    ensures Weigh(ApplyFrom(lines, hunks, cursor).value) == Weigh(Slice(lines, cursor, |lines|)) + NetOf(hunks)
    decreases |hunks|
  {
    if hunks != [] {
      var place := Locate(lines, hunks[0], cursor).value;
      var next := place + |hunks[0].oldLines|;
      var rest := ApplyFrom(lines, hunks[1..], next).value;
      ApplyNet(lines, hunks[1..], next);
      LocatedMatches(lines, hunks[0], cursor);
      SameLinesWeighSame(Slice(lines, place, next), hunks[0].oldLines);
      HunkWeights(lines, cursor, place, next);
      WeighAppend(Slice(lines, cursor, place), hunks[0].newLines);
      WeighAppend(Slice(lines, cursor, place) + hunks[0].newLines, rest);
    }
  }

  lemma HunkWeights(lines: seq<string>, cursor: nat, place: nat, next: nat)
    requires cursor <= place <= next
    ensures Weigh(Slice(lines, cursor, |lines|)) ==
      Weigh(Slice(lines, cursor, place)) + Weigh(Slice(lines, place, next)) + Weigh(Slice(lines, next, |lines|))
  {
    var end := next + |lines|;
    SliceToEnd(lines, cursor, end);
    SliceToEnd(lines, next, end);
    SliceWeights(lines, cursor, place, end);
    SliceWeights(lines, place, next, end);
  }

  // ---- what parsing a line adds ----

  function NetToken(token: PatchLine): int {
    if token.Header? || token.comment then 0
    else if token.marker == '+' then Weight(token.body)
    else if token.marker == '-' then 0 - Weight(token.body)
    else 0
  }

  function NetTokens(tokens: seq<PatchLine>): int {
    if tokens == [] then 0 else NetToken(tokens[0]) + NetTokens(tokens[1..])
  }

  lemma AddLineNet(hunks: seq<Hunk>, marker: char, body: string)
    requires hunks != [] && AddLine(hunks, marker, body).Ok?
    ensures NetOf(AddLine(hunks, marker, body).value) == NetOf(hunks) + NetToken(Plain(false, false, marker, body))
  {
    var done, current := hunks[..|hunks| - 1], hunks[|hunks| - 1];
    var hunks' := AddLine(hunks, marker, body).value;
    var current' := hunks'[|hunks'| - 1];
    assert hunks == done + [current] && hunks' == done + [current'];
    NetAppend(done, [current]);
    NetAppend(done, [current']);
    WeighAppend(current.oldLines, [body]);
    WeighAppend(current.newLines, [body]);
    assert Weigh([body]) == Weight(body);
  }

  lemma {:induction false} ParseNet(hunks: seq<Hunk>, tokens: seq<PatchLine>)
    requires hunks != [] && ParseTokens(hunks, tokens).Ok?
    ensures NetOf(ParseTokens(hunks, tokens).value) == NetOf(hunks) + NetTokens(tokens)
    decreases |tokens|
  {
    if tokens != [] {
      var next := ParseToken(hunks, tokens[0]).value;
      OneTokenNet(hunks, tokens[0]);
      ParseNet(next, tokens[1..]);
    }
  }

  lemma OneTokenNet(hunks: seq<Hunk>, token: PatchLine)
    requires hunks != [] && ParseToken(hunks, token).Ok?
    ensures var next := ParseToken(hunks, token).value;
      next != [] && NetOf(next) == NetOf(hunks) + NetToken(token)
  {
    match token
    case Header(oldStart) =>
      var empty := Hunk(oldStart, [], []);
      NetAppend(hunks, [empty]);
      assert [empty][1..] == [];
    case Plain(_, comment, marker, body) =>
      if !comment { AddLineNet(hunks, marker, body); }
  }

  // ---- the lines of a rendering ----

  predicate IsOld(raw: string) { raw != "" && raw[0] in {' ', '-'} }

  predicate IsNew(raw: string) { raw != "" && raw[0] in {' ', '+'} }

  function OldSide(raws: seq<string>): seq<string> {
    if raws == [] then [] else (if IsOld(raws[0]) then [raws[0][1..]] else []) + OldSide(raws[1..])
  }

  function NewSide(raws: seq<string>): seq<string> {
    if raws == [] then [] else (if IsNew(raws[0]) then [raws[0][1..]] else []) + NewSide(raws[1..])
  }

  function NetLines(raws: seq<string>): int { Weigh(NewSide(raws)) - Weigh(OldSide(raws)) }

  lemma SidesAppend(a: seq<string>, b: seq<string>)
    ensures OldSide(a + b) == OldSide(a) + OldSide(b) && NewSide(a + b) == NewSide(a) + NewSide(b)
  {
    OldSideAppend(a, b);
    NewSideAppend(a, b);
  }

  lemma {:induction false} OldSideAppend(a: seq<string>, b: seq<string>)
    ensures OldSide(a + b) == OldSide(a) + OldSide(b)
  {
    if a == [] {
      assert a + b == b;
    } else {
      assert (a + b)[1..] == a[1..] + b;
      OldSideAppend(a[1..], b);
      Assoc(if IsOld(a[0]) then [a[0][1..]] else [], OldSide(a[1..]), OldSide(b));
    }
  }

  lemma {:induction false} NewSideAppend(a: seq<string>, b: seq<string>)
    ensures NewSide(a + b) == NewSide(a) + NewSide(b)
  {
    if a == [] {
      assert a + b == b;
    } else {
      assert (a + b)[1..] == a[1..] + b;
      NewSideAppend(a[1..], b);
      Assoc(if IsNew(a[0]) then [a[0][1..]] else [], NewSide(a[1..]), NewSide(b));
    }
  }

  lemma OneSides(raw: string)
    ensures OldSide([raw]) == if IsOld(raw) then [raw[1..]] else []
    ensures NewSide([raw]) == if IsNew(raw) then [raw[1..]] else []
  {
    assert [raw][1..] == [];
  }

  lemma NetAppends(a: seq<string>, b: seq<string>)
    ensures NetLines(a + b) == NetLines(a) + NetLines(b)
  {
    SidesAppend(a, b);
    WeighAppend(NewSide(a), NewSide(b));
    WeighAppend(OldSide(a), OldSide(b));
  }

  /** A hunk header or a marked line, as the renderer writes them. */
  predicate IsHeaderLine(raw: string) { raw != "" && raw[0] == '@' && Terminated(raw) && Classify(raw).Header? }

  predicate IsMarked(raw: string) { raw != "" && raw[0] in {' ', '-', '+'} && IsLine(raw) && IsLine(raw[1..]) }

  predicate Rendered(raws: seq<string>) { forall raw <- raws :: IsHeaderLine(raw) || IsMarked(raw) }

  /** A header, or a line with a marker, merged with others or not. */
  predicate Readable(raw: string) { IsHeaderLine(raw) || (raw != "" && raw[0] in {' ', '-', '+'}) }

  /** A marked line, merged with others or not, weighs what its marker says. */
  lemma MarkedNet(raw: string)
    requires raw != "" && raw[0] in {' ', '-', '+'}
    ensures NetToken(Classify(raw)) == NetLines([raw])
  {
    MarkedTokenNet(raw[0], raw[1..]);
    assert [raw[0]] + raw[1..] == raw;
    LineBalance(raw);
  }

  lemma MarkedTokenNet(marker: char, body: string)
    requires marker in {' ', '-', '+'}
    ensures NetToken(Classify([marker] + body)) ==
      if marker == '+' then Weight(body) else if marker == '-' then 0 - Weight(body) else 0
  {
    MarkedLineReadsBack(marker, body);
    CarriedNet(Classify([marker] + body), marker, body);
  }

  lemma CarriedNet(token: PatchLine, marker: char, body: string)
    requires Carries([token], marker, [body])
    ensures NetToken(token) ==
      if marker == '+' then Weight(body) else if marker == '-' then 0 - Weight(body) else 0
  {
    assert [token][0] == token && [body][0] == body;
  }

  lemma WeighOne(l: string)
    ensures Weigh([l]) == Weight(l)
  {
    assert [l][1..] == [];
  }

  lemma LineBalance(raw: string)
    requires raw != ""
    ensures NetLines([raw]) ==
      if raw[0] == '+' then Weight(raw[1..]) else if raw[0] == '-' then 0 - Weight(raw[1..]) else 0
  {
    OneSides(raw);
    WeighOne(raw[1..]);
  }

  lemma HeaderNet(raw: string)
    requires IsHeaderLine(raw)
    ensures NetToken(Classify(raw)) == 0 == NetLines([raw])
  {
    LineBalance(raw);
  }

  lemma LineNet(raw: string)
    requires Readable(raw)
    ensures NetToken(Classify(raw)) == NetLines([raw])
  {
    if raw[0] != '@' { MarkedNet(raw); } else { HeaderNet(raw); }
  }

  lemma {:induction false} TokensNet(raws: seq<string>)
    requires forall raw <- raws :: Readable(raw)
    ensures NetTokens(Tokens(raws)) == NetLines(raws)
  {
    if raws != [] {
      TokensNet(raws[1..]);
      LineNet(raws[0]);
      assert raws == [raws[0]] + raws[1..];
      NetAppends([raws[0]], raws[1..]);
    }
  }

  // ---- the sides of a rendered script ----

  function OldAll(groups: seq<Group>): seq<string> {
    if groups == [] then [] else OldOf(groups[0].edits) + OldAll(groups[1..])
  }

  function NewAll(groups: seq<Group>): seq<string> {
    if groups == [] then [] else NewOf(groups[0].edits) + NewAll(groups[1..])
  }

  lemma {:induction false} MarkedSides(marker: char, lines: seq<string>)
    requires marker in {' ', '-', '+'}
    ensures OldSide(Marked(marker, lines)) == if marker == '+' then [] else lines
    ensures NewSide(Marked(marker, lines)) == if marker == '-' then [] else lines
  {
    if lines != [] {
      MarkedSides(marker, lines[1..]);
      assert ([marker] + lines[0])[1..] == lines[0];
    }
  }

  lemma EditSidesMarked(edit: Edit)
    ensures OldSide(EditLines(edit)) == Removed(edit) && NewSide(EditLines(edit)) == Added(edit)
  {
    match edit
    case Equal(lines) => MarkedSides(' ', lines);
    case Change(removed, added) =>
      MarkedSides('-', removed);
      MarkedSides('+', added);
      SidesAppend(Marked('-', removed), Marked('+', added));
  }

  lemma {:induction false} BodySides(edits: seq<Edit>)
    ensures OldSide(Body(edits)) == OldOf(edits) && NewSide(Body(edits)) == NewOf(edits)
  {
    if edits != [] {
      BodySides(edits[1..]);
      EditSidesMarked(edits[0]);
      SidesAppend(EditLines(edits[0]), Body(edits[1..]));
    }
  }

  function Rest(groups: seq<Group>, oldAt: nat, newAt: nat): seq<string> { Concat(Renderings(groups, oldAt, newAt)) }

  lemma ConcatStep(part: seq<string>, parts: seq<seq<string>>)
    ensures Concat([part] + parts) == part + Concat(parts)
  {
    assert ([part] + parts)[1..] == parts;
  }

  lemma GroupStarts(edits: seq<Edit>, oldStart: nat, newStart: nat) returns (header: string)
    ensures header != "" && header[0] == '@'
    ensures RenderGroup(edits, oldStart, newStart) == [header] + Body(edits)
  {
    header := HeaderText(oldStart, |OldOf(edits)|, newStart, |NewOf(edits)|) + "\n";
  }

  lemma RestStep(groups: seq<Group>, oldAt: nat, newAt: nat) returns (header: string, oldNext: nat, newNext: nat)
    requires groups != []
    ensures header != "" && header[0] == '@'
    ensures oldNext == oldAt + |groups[0].gap| + |OldOf(groups[0].edits)|
    ensures Rest(groups, oldAt, newAt) == [header] + Body(groups[0].edits) + Rest(groups[1..], oldNext, newNext)
  {
    var edits := groups[0].edits;
    var oldStart, newStart := oldAt + |groups[0].gap|, newAt + |groups[0].gap|;
    oldNext, newNext := oldStart + |OldOf(edits)|, newStart + |NewOf(edits)|;
    header := GroupStarts(edits, oldStart, newStart);
    RestUnfolds(groups, oldAt, newAt);
  }

  lemma RestUnfolds(groups: seq<Group>, oldAt: nat, newAt: nat)
    requires groups != []
    ensures var edits, oldStart, newStart := groups[0].edits, oldAt + |groups[0].gap|, newAt + |groups[0].gap|;
      Rest(groups, oldAt, newAt) ==
        RenderGroup(edits, oldStart, newStart)
          + Rest(groups[1..], oldStart + |OldOf(edits)|, newStart + |NewOf(edits)|)
  {
    var edits, oldStart, newStart := groups[0].edits, oldAt + |groups[0].gap|, newAt + |groups[0].gap|;
    ConcatStep(RenderGroup(edits, oldStart, newStart),
               Renderings(groups[1..], oldStart + |OldOf(edits)|, newStart + |NewOf(edits)|));
  }

  lemma {:induction false} RenderedSides(groups: seq<Group>, oldAt: nat, newAt: nat)
    ensures OldSide(Rest(groups, oldAt, newAt)) == OldAll(groups)
    ensures NewSide(Rest(groups, oldAt, newAt)) == NewAll(groups)
    decreases |groups|
  {
    if groups != [] {
      var header, oldNext, newNext := RestStep(groups, oldAt, newAt);
      var later := Rest(groups[1..], oldNext, newNext);
      RenderedSides(groups[1..], oldNext, newNext);
      BodySides(groups[0].edits);
      HunkSides(header, Body(groups[0].edits), later);
    }
  }

  lemma HunkSides(header: string, body: seq<string>, later: seq<string>)
    requires header != "" && header[0] == '@'
    ensures OldSide([header] + body + later) == OldSide(body) + OldSide(later)
    ensures NewSide([header] + body + later) == NewSide(body) + NewSide(later)
  {
    OneSides(header);
    SidesOfThree([header], body, later);
    EmptyFront(OldSide(body), OldSide(later));
    EmptyFront(NewSide(body), NewSide(later));
  }

  lemma SidesOfThree(a: seq<string>, b: seq<string>, c: seq<string>)
    ensures OldSide(a + b + c) == OldSide(a) + OldSide(b) + OldSide(c)
    ensures NewSide(a + b + c) == NewSide(a) + NewSide(b) + NewSide(c)
  {
    SidesAppend(a, b);
    SidesAppend(a + b, c);
  }

  lemma EmptyFront(a: seq<string>, b: seq<string>)
    ensures [] + a + b == a + b
  {
  }

  /** The script's own balance: the update weighs as much more as its new sides do. */
  lemma {:induction false} TextsNet(groups: seq<Group>, tail: seq<string>)
    ensures Weigh(Updated(groups, tail)) - Weigh(Original(groups, tail)) == Weigh(NewAll(groups)) - Weigh(OldAll(groups))
  {
    if groups != [] {
      var gap, edits := groups[0].gap, groups[0].edits;
      TextsNet(groups[1..], tail);
      WeighAppend(gap + OldOf(edits), Original(groups[1..], tail));
      WeighAppend(gap, OldOf(edits));
      WeighAppend(gap + NewOf(edits), Updated(groups[1..], tail));
      WeighAppend(gap, NewOf(edits));
      WeighAppend(OldOf(edits), OldAll(groups[1..]));
      WeighAppend(NewOf(edits), NewAll(groups[1..]));
    }
  }

  lemma SeparateAppend(a: seq<string>, b: seq<string>)
    requires Separate(a + b)
    ensures Separate(a) && Separate(b) && (b != [] ==> forall l <- a :: Terminated(l))
  {
    assert forall i | 0 <= i < |a| - 1 :: (a + b)[i] == a[i];
    forall i | 0 <= i < |b| - 1
      ensures Terminated(b[i])
    {
      assert (a + b)[|a| + i] == b[i];
    }
    if b != [] {
      forall l | l in a
        ensures Terminated(l)
      {
        var i :| 0 <= i < |a| && a[i] == l;
        assert (a + b)[i] == l;
      }
    }
  }

  lemma AppendSeparate(a: seq<string>, b: seq<string>)
    requires (b != [] ==> forall l <- a :: Terminated(l)) && Separate(a) && Separate(b)
    ensures Separate(a + b)
  {
    forall i | 0 <= i < |a + b| - 1
      ensures Terminated((a + b)[i])
    {
      if i < |a| { assert a[i] in a; }
    }
  }

  /** Leaving lines out of a text keeps every line but the last terminated. */
  lemma {:induction false} OldSidesSeparate(groups: seq<Group>, tail: seq<string>)
    requires Separate(Original(groups, tail))
    ensures Separate(OldAll(groups))
    ensures OldAll(groups) != [] ==> Original(groups, tail) != []
  {
    if groups != [] {
      var gap, edits := groups[0].gap, groups[0].edits;
      SeparateAppend(gap + OldOf(edits), Original(groups[1..], tail));
      SeparateAppend(gap, OldOf(edits));
      OldSidesSeparate(groups[1..], tail);
      assert forall l <- OldOf(edits) :: l in gap + OldOf(edits);
      AppendSeparate(OldOf(edits), OldAll(groups[1..]));
    }
  }

  lemma {:induction false} NewSidesSeparate(groups: seq<Group>, tail: seq<string>)
    requires Separate(Updated(groups, tail))
    ensures Separate(NewAll(groups))
    ensures NewAll(groups) != [] ==> Updated(groups, tail) != []
  {
    if groups != [] {
      var gap, edits := groups[0].gap, groups[0].edits;
      SeparateAppend(gap + NewOf(edits), Updated(groups[1..], tail));
      SeparateAppend(gap, NewOf(edits));
      NewSidesSeparate(groups[1..], tail);
      assert forall l <- NewOf(edits) :: l in gap + NewOf(edits);
      AppendSeparate(NewOf(edits), NewAll(groups[1..]));
    }
  }

  // ---- headers and the lines before them ----

  /** Once an old line has passed, every header is followed by another one. */
  predicate HeadersLead(raws: seq<string>, passed: bool) {
    raws == [] ||
    (if raws[0] != "" && raws[0][0] == '@' then
       (passed ==> OldSide(raws) != []) && HeadersLead(raws[1..], passed)
     else HeadersLead(raws[1..], passed || IsOld(raws[0])))
  }

  lemma {:induction false} MarkedLead(lines: seq<string>, rest: seq<string>, passed: bool)
    requires forall l <- lines :: l != "" && l[0] in {' ', '-', '+'}
    requires HeadersLead(rest, passed || OldSide(lines) != [])
    ensures HeadersLead(lines + rest, passed)
    decreases |lines|
  {
    if lines == [] {
      assert lines + rest == rest;
    } else {
      assert lines[0] in lines;
      assert (lines + rest)[1..] == lines[1..] + rest;
      assert forall l <- lines[1..] :: l in lines;
      MarkedLead(lines[1..], rest, passed || IsOld(lines[0]));
    }
  }

  lemma {:induction false} LeadSuffix(raws: seq<string>, rest: seq<string>, passed: bool)
    requires HeadersLead(raws + rest, passed)
    ensures HeadersLead(rest, passed || OldSide(raws) != [])
    decreases |raws|
  {
    if raws == [] {
      assert raws + rest == rest;
    } else {
      assert (raws + rest)[1..] == raws[1..] + rest;
      LeadSuffix(raws[1..], rest, if raws[0] != "" && raws[0][0] == '@' then passed else passed || IsOld(raws[0]));
    }
  }

  lemma {:induction false} NoHeaders(raws: seq<string>)
    requires HeadersLead(raws, true) && OldSide(raws) == [] && Rendered(raws)
    ensures forall raw <- raws :: raw[0] == '+'
    ensures |NewSide(raws)| == |raws|
  {
    if raws != [] {
      assert raws[0] in raws;
      NoHeaders(raws[1..]);
    }
  }

  lemma {:induction false} BodyMarked(edits: seq<Edit>)
    requires forall edit <- edits :: EditFine(edit, false)
    ensures forall raw <- Body(edits) :: IsMarked(raw)
  {
    if edits != [] {
      assert EditFine(edits[0], false);
      BodyMarked(edits[1..]);
      match edits[0]
      case Equal(lines) => LinesMarked(' ', lines);
      case Change(removed, added) =>
        LinesMarked('-', removed);
        LinesMarked('+', added);
    }
  }

  lemma LinesMarked(marker: char, lines: seq<string>)
    requires marker in {' ', '-', '+'} && AllFine(lines, false)
    ensures forall raw <- Marked(marker, lines) :: IsMarked(raw)
  {
    MarkedAt(marker, lines);
    forall raw | raw in Marked(marker, lines)
      ensures IsMarked(raw)
    {
      var i :| 0 <= i < |lines| && Marked(marker, lines)[i] == raw;
      assert lines[i] in lines;
      MarkedLine(marker, lines[i], false);
      assert raw[1..] == lines[i];
    }
  }

  lemma HeaderRendered(oldStart: nat, oldSize: nat, newStart: nat, newSize: nat)
    ensures IsHeaderLine(HeaderText(oldStart, oldSize, newStart, newSize) + "\n")
  {
    HeaderFine(oldStart, oldSize, newStart, newSize);
    HeaderLineReadsBack(oldStart, oldSize, newStart, newSize);
  }

  lemma GroupRendered(edits: seq<Edit>, oldStart: nat, newStart: nat)
    requires forall edit <- edits :: EditFine(edit, false)
    ensures Rendered(RenderGroup(edits, oldStart, newStart))
    ensures IsHeaderLine(RenderGroup(edits, oldStart, newStart)[0])
  {
    HeaderRendered(oldStart, |OldOf(edits)|, newStart, |NewOf(edits)|);
    BodyMarked(edits);
  }

  lemma {:induction false} ConcatRendered(parts: seq<seq<string>>)
    requires forall part <- parts :: Rendered(part)
    ensures Rendered(Concat(parts))
  {
    if parts != [] {
      assert Rendered(parts[0]);
      ConcatRendered(parts[1..]);
    }
  }

  lemma RestIsRendered(groups: seq<Group>)
    requires groups != [] && GroupsFine(groups, false)
    ensures Rendered(Rest(groups, 0, 0)) && Rest(groups, 0, 0) != [] && IsHeaderLine(Rest(groups, 0, 0)[0])
  {
    var parts := Renderings(groups, 0, 0);
    var oldFirst, newFirst := GroupAt(groups, 0, 0, 0);
    forall part <- parts
      ensures Rendered(part)
    {
      var i :| 0 <= i < |parts| && parts[i] == part;
      var oldStart, newStart := GroupAt(groups, 0, 0, i);
      assert groups[i] in groups;
      GroupRendered(groups[i].edits, oldStart, newStart);
    }
    ConcatRendered(parts);
    assert groups[0] in groups;
    GroupRendered(groups[0].edits, oldFirst, newFirst);
    assert parts == [parts[0]] + parts[1..];
    ConcatStep(parts[0], parts[1..]);
  }

  lemma {:induction false} RestLeads(groups: seq<Group>, oldAt: nat, newAt: nat, passed: bool)
    requires GroupsFine(groups, false) && Anchored(groups, oldAt) && (passed ==> oldAt > 0)
    ensures HeadersLead(Rest(groups, oldAt, newAt), passed)
    decreases |groups|
  {
    if groups != [] {
      var edits := groups[0].edits;
      var header, oldNext, newNext := RestStep(groups, oldAt, newAt);
      var later := Rest(groups[1..], oldNext, newNext);
      FineTail(groups, oldAt);
      BodyMarked(edits);
      BodySides(edits);
      RestLeads(groups[1..], oldNext, newNext, passed || OldOf(edits) != []);
      HunkLeads(header, Body(edits), later, passed);
    }
  }

  lemma FineTail(groups: seq<Group>, oldAt: nat)
    requires groups != [] && GroupsFine(groups, false) && Anchored(groups, oldAt)
    ensures GroupsFine(groups[1..], false) && forall edit <- groups[0].edits :: EditFine(edit, false)
    ensures Anchored(groups[1..], oldAt + |groups[0].gap| + |OldOf(groups[0].edits)|)
    ensures OldOf(groups[0].edits) != [] || oldAt == 0
  {
    assert groups[0] in groups;
  }

  lemma HunkLeads(header: string, body: seq<string>, later: seq<string>, passed: bool)
    requires header != "" && header[0] == '@' && forall raw <- body :: raw != "" && raw[0] in {' ', '-', '+'}
    requires HeadersLead(later, passed || OldSide(body) != []) && (passed ==> OldSide(body) != [])
    ensures HeadersLead([header] + body + later, passed)
  {
    var raws := [header] + body + later;
    assert raws[1..] == body + later;
    MarkedLead(body, later, passed);
    HunkSides(header, body, later);
  }

  // ---- where two rendered lines run together ----

  lemma MarkedTerminated(raw: string)
    requires IsMarked(raw)
    ensures Terminated(raw) <==> Terminated(raw[1..])
  {
  }

  lemma {:induction false} FirstOpen(raws: seq<string>) returns (i: nat)
    requires !Separate(raws)
    ensures i + 1 < |raws| && !Terminated(raws[i]) && forall l <- raws[..i] :: Terminated(l)
  {
    if !Terminated(raws[0]) {
      i := 0;
    } else {
      SeparateStep(raws);
      i := FirstOpen(raws[1..]);
      i := i + 1;
      assert raws[..i] == [raws[0]] + raws[1..][..i - 1];
    }
  }

  /** After the unterminated last line of one side, that side has no more lines. */
  lemma LastOfItsSide(before: seq<string>, last: string, after: seq<string>)
    requires Separate(before + [last] + after) && !Terminated(last)
    ensures after == []
  {
    SeparateAppend(before + [last], after);
    assert last in before + [last];
  }

  lemma {:induction false} AddedLinesSeparate(raws: seq<string>)
    requires Rendered(raws) && (forall raw <- raws :: raw[0] == '+') && Separate(NewSide(raws))
    ensures Separate(raws) && |NewSide(raws)| == |raws|
  {
    if raws != [] {
      assert IsMarked(raws[0]);
      MarkedTerminated(raws[0]);
      assert NewSide(raws)[1..] == NewSide(raws[1..]);
      SeparateStep(NewSide(raws));
      AddedLinesSeparate(raws[1..]);
      SeparateStep(raws);
    }
  }

  lemma {:induction false} RemovedLinesSeparate(raws: seq<string>, passed: bool)
    requires Rendered(raws) && NewSide(raws) == [] && Separate(OldSide(raws)) && HeadersLead(raws, passed)
    ensures Separate(raws) && forall raw <- raws :: raw[0] in {'-', '@'}
  {
    if raws != [] {
      var raw, rest := raws[0], raws[1..];
      assert IsHeaderLine(raw) || IsMarked(raw);
      if IsOld(raw) {
        MarkedTerminated(raw);
        assert OldSide(raws) == [] + [raw[1..]] + OldSide(rest);
        if !Terminated(raw) {
          LastOfItsSide([], raw[1..], OldSide(rest));
          NoHeaders(rest);
        }
        SeparateStep(OldSide(raws));
        assert OldSide(raws)[1..] == OldSide(rest);
      } else {
        assert OldSide(raws) == OldSide(rest);
      }
      RemovedLinesSeparate(rest, passed || IsOld(raw));
      SeparateStep(raws);
    }
  }

  predicate Script(raws: seq<string>) {
    Rendered(raws) && HeadersLead(raws, false) && Separate(OldSide(raws)) && Separate(NewSide(raws))
  }

  lemma ThreeSides(before: seq<string>, x: string, after: seq<string>)
    ensures OldSide(before + [x] + after) == OldSide(before) + (if IsOld(x) then [x[1..]] else []) + OldSide(after)
    ensures NewSide(before + [x] + after) == NewSide(before) + (if IsNew(x) then [x[1..]] else []) + NewSide(after)
  {
    OneSides(x);
    SidesOfThree(before, [x], after);
  }

  lemma AfterOld(olds: seq<string>, news: seq<string>, x: string, after: seq<string>)
    requires IsMarked(x) && IsOld(x) && !Terminated(x) && after != []
    requires Rendered(after) && HeadersLead(after, true)
    requires Separate(olds + [x[1..]] + OldSide(after))
    requires Separate(news + (if IsNew(x) then [x[1..]] else []) + NewSide(after))
    ensures x[0] == '-' && Separate(after) && forall raw <- after :: raw != "" && raw[0] == '+'
  {
    MarkedTerminated(x);
    LastOfItsSide(olds, x[1..], OldSide(after));
    NoHeaders(after);
    SeparateAppend(news + (if IsNew(x) then [x[1..]] else []), NewSide(after));
    AddedLinesSeparate(after);
    if IsNew(x) { LastOfItsSide(news, x[1..], NewSide(after)); }
  }

  lemma AfterNew(olds: seq<string>, news: seq<string>, x: string, after: seq<string>, passed: bool)
    requires IsMarked(x) && !IsOld(x) && !Terminated(x) && after != []
    requires Rendered(after) && HeadersLead(after, passed)
    requires Separate(olds + OldSide(after))
    requires Separate(news + [x[1..]] + NewSide(after))
    ensures x[0] == '+' && Separate(after) && forall raw <- after :: raw != "" && raw[0] in {'-', '@'}
  {
    MarkedTerminated(x);
    LastOfItsSide(news, x[1..], NewSide(after));
    SeparateAppend(olds, OldSide(after));
    RemovedLinesSeparate(after, passed);
  }

  /** An unterminated line that others follow was removed or added: only lines of the other side and
      headers follow it, and they stay apart. */
  lemma AfterOpen(before: seq<string>, x: string, after: seq<string>)
    requires Script(before + [x] + after) && !Terminated(x) && after != []
    ensures IsMarked(x) && Separate(after)
    ensures x[0] == '-' || x[0] == '+'
    ensures forall raw <- after :: raw != "" && if x[0] == '-' then raw[0] == '+' else raw[0] in {'-', '@'}
  {
    RenderedParts(before, x, after);
    ThreeSides(before, x, after);
    LeadSuffix(before + [x], after, false);
    if IsOld(x) {
      SidesAppend(before, [x]);
      OneSides(x);
      AfterOld(OldSide(before), NewSide(before), x, after);
    } else {
      assert OldSide(before) + [] == OldSide(before);
      AfterNew(OldSide(before), NewSide(before), x, after, OldSide(before + [x]) != []);
    }
  }

  lemma RenderedParts(before: seq<string>, x: string, after: seq<string>)
    requires Rendered(before + [x] + after) && !Terminated(x)
    ensures IsMarked(x) && Rendered(after)
  {
    assert x in before + [x] + after && forall raw <- after :: raw in before + [x] + after;
  }

  lemma {:induction false} RunTogether(x: string, y: string)
    requires IsLine(x) && !IsBoundary(x[|x| - 1]) && IsLine(y)
    ensures IsLine(x + y)
    decreases |x|
  {
    assert (x + y)[1..] == x[1..] + y;
    if |x| > 1 { RunTogether(x[1..], y); }
  }

  lemma MergedSeparate(before: seq<string>, x: string, y: string, after: seq<string>)
    requires IsLine(x) && !Terminated(x) && Separate([y] + after) && IsLine(y)
    requires forall l <- before :: Terminated(l)
    ensures Separate(before + [x + y] + after) && IsLine(x + y)
  {
    RunTogether(x, y);
    assert Terminated(y) <==> Terminated(x + y);
    SeparateAppend([y], after);
    assert y in [y];
    AppendSeparate([x + y], after);
    AppendSeparate(before, [x + y] + after);
    assert before + ([x + y] + after) == before + [x + y] + after;
  }

  /** Running two lines together changes the balance of the patch. */
  lemma MergedNet(x: string, y: string)
    requires x != "" && y != ""
    requires if x[0] == '-' then y[0] == '+' else x[0] == '+' && y[0] in {'-', '@'}
    ensures NetLines([x + y]) != NetLines([x]) + NetLines([y])
  {
    LineBalance(x);
    LineBalance(y);
    LineBalance(x + y);
    assert (x + y)[1..] == x[1..] + y;
    WeightAppend(x[1..], y);
  }

  // ---- the round trip, exactly ----

  /** Every line of the rendering after the first header, once two lines have run together. */
  lemma MergedParses(header: string, lines: seq<string>, hunks: seq<Hunk>)
    requires IsHeaderLine(header)
    requires forall raw <- lines :: Readable(raw)
    requires ParseTokens([], Tokens([header] + lines)) == Ok(hunks)
    ensures NetOf(hunks) == NetLines(lines)
  {
    var start := Classify(header).oldStart;
    HeaderParses([], header, start);
    TokensAppend([header], lines);
    ParseTokensAppend([], Tokens([header]), Tokens(lines));
    assert [] + [Hunk(start, [], [])] == [Hunk(start, [], [])];
    ParseNet([Hunk(start, [], [])], Tokens(lines));
    assert [Hunk(start, [], [])][1..] == [];
    TokensNet(lines);
  }

  lemma FineScript(original: string, updated: string, groups: seq<Group>, tail: seq<string>)
    requires SplitLines(original) == Original(groups, tail) && SplitLines(updated) == Updated(groups, tail)
    requires groups != [] && Anchored(groups, 0)
    ensures GroupsFine(groups, false) && Script(Rest(groups, 0, 0))
  {
    SplitGivesLines(original);
    SplitGivesLines(updated);
    EditsOfTexts(groups, tail, false);
    RestIsRendered(groups);
    RestLeads(groups, 0, 0, false);
    RenderedSides(groups, 0, 0);
    OldSidesSeparate(groups, tail);
    NewSidesSeparate(groups, tail);
  }

  lemma BalanceKept(original: string, patch: string, updated: string, hunks: seq<Hunk>)
    requires HunksOf(patch) == Ok(hunks) && Applied(original, patch) == Ok(updated)
    ensures Weigh(SplitLines(updated)) == Weigh(SplitLines(original)) + NetOf(hunks)
  {
    var lines := SplitLines(original);
    var result := ApplyFrom(lines, hunks, 0).value;
    ApplyNet(lines, hunks, 0);
    assert Slice(lines, 0, |lines|) == lines;
    WeighJoin(result);
    WeighJoin(SplitLines(updated));
    JoinSplit(updated);
  }

  /** A line of the preamble, as the renderer writes it. */
  ghost predicate IsPreamble(line: string) {
    Terminated(line) && line[0] != '\n' && ParseTokens([], Tokens([line])) == Ok([])
  }

  /** The last line of a rendering that runs into its successor. */
  lemma OpenLine(raws: seq<string>) returns (before: seq<string>, x: string, y: string, after: seq<string>)
    requires Script(raws) && !Separate(raws)
    ensures raws == before + [x] + ([y] + after)
    ensures !Terminated(x) && IsMarked(x) && (IsHeaderLine(y) || IsMarked(y))
    ensures if x[0] == '-' then y[0] == '+' else x[0] == '+' && y[0] in {'-', '@'}
    ensures (forall l <- before :: Terminated(l)) && Separate([y] + after)
  {
    var i := FirstOpen(raws);
    before, x, y, after := raws[..i], raws[i], raws[i + 1], raws[i + 2..];
    assert raws == before + [x] + ([y] + after);
    assert y in raws;
    AfterOpen(before, x, [y] + after);
    assert y in [y] + after;
  }

  lemma MergedText(
    from: string, to: string, raws: seq<string>, before: seq<string>, x: string, y: string, after: seq<string>)
    requires IsPreamble(from) && IsPreamble(to)
    requires Plainly(raws) && raws == before + [x] + ([y] + after)
    requires !Terminated(x) && (forall l <- before :: Terminated(l)) && Separate([y] + after)
    ensures SplitLines(Join([from, to] + raws)) == [from, to] + (before + [x + y] + after)
  {
    MergedLine(before, x, y, after);
    MergedSplits(from, to, before + [x + y] + after);
    JoinPair(before, x, y, after);
    JoinSame([from, to], raws, before + [x + y] + after);
  }

  /** A rendering whose lines run together somewhere, and what it splits into. */
  lemma Merged(from: string, to: string, raws: seq<string>)
    returns (before: seq<string>, x: string, y: string, after: seq<string>)
    requires IsPreamble(from) && IsPreamble(to)
    requires Script(raws) && raws != [] && IsHeaderLine(raws[0]) && !Separate(raws)
    ensures raws == before + [x] + ([y] + after) && before != [] && before[0] == raws[0]
    ensures SplitLines(Join([from, to] + raws)) == [from, to] + (before + [x + y] + after)
    ensures IsMarked(x) && (IsHeaderLine(y) || IsMarked(y))
    ensures if x[0] == '-' then y[0] == '+' else x[0] == '+' && y[0] in {'-', '@'}
  {
    before, x, y, after := OpenLine(raws);
    assert (before + [x])[0] == raws[0];
    RenderedPlainly(raws);
    MergedText(from, to, raws, before, x, y, after);
  }

  lemma JoinSame(front: seq<string>, a: seq<string>, b: seq<string>)
    requires Join(a) == Join(b)
    ensures Join(front + a) == Join(front + b)
  {
    JoinAppend(front, a);
    JoinAppend(front, b);
  }

  predicate Plainly(raws: seq<string>) { forall l <- raws :: IsLine(l) && l[0] != '\n' }

  lemma RenderedPlainly(raws: seq<string>)
    requires Rendered(raws)
    ensures Plainly(raws)
  {
  }

  lemma MergedLine(before: seq<string>, x: string, y: string, after: seq<string>)
    requires Plainly(before + [x] + ([y] + after)) && (forall l <- before :: Terminated(l))
    requires !Terminated(x) && Separate([y] + after)
    ensures Separate(before + [x + y] + after) && Plainly(before + [x + y] + after)
  {
    var raws := before + [x] + ([y] + after);
    assert x in raws && y in raws && (forall l <- before :: l in raws) && forall l <- after :: l in raws;
    MergedSeparate(before, x, y, after);
  }

  lemma MergedSplits(from: string, to: string, lines: seq<string>)
    requires IsPreamble(from) && IsPreamble(to) && Separate(lines) && Plainly(lines)
    ensures SplitLines(Join([from, to] + lines)) == [from, to] + lines
  {
    assert forall l <- [from, to] :: Terminated(l);
    AppendSeparate([from, to], lines);
    AllUnmixed([from, to] + lines);
    SplitJoin([from, to] + lines);
  }

  lemma AllUnmixed(lines: seq<string>)
    requires forall l <- lines :: l != "" && l[0] != '\n'
    ensures Unmixed(lines)
  {
    forall i | 0 <= i < |lines| - 1
      ensures !Meets(lines[i], lines[i + 1])
    {
      assert lines[i + 1] in lines;
    }
  }

  lemma JoinPair(before: seq<string>, x: string, y: string, after: seq<string>)
    ensures Join(before + [x] + ([y] + after)) == Join(before + [x + y] + after)
  {
    JoinAppend(before + [x], [y] + after);
    JoinAppend(before, [x]);
    JoinAppend([y], after);
    JoinAppend(before + [x + y], after);
    JoinAppend(before, [x + y]);
    JoinOne(x);
    JoinOne(y);
    JoinOne(x + y);
  }

  lemma JoinOne(l: string)
    ensures Join([l]) == l
  {
    assert [l][1..] == [];
  }

  /** If two rendered lines run together, the patch does not give the updated text. */
  lemma RunTogetherDoesNotApply(original: string, updated: string, from: string, to: string, raws: seq<string>)
    requires IsPreamble(from) && IsPreamble(to)
    requires Script(raws) && raws != [] && IsHeaderLine(raws[0]) && !Separate(raws)
    requires Weigh(SplitLines(updated)) == Weigh(SplitLines(original)) + NetLines(raws)
    ensures Applied(original, Join([from, to] + raws)) != Ok(updated)
  {
    var patch := Join([from, to] + raws);
    var before, x, y, after := Merged(from, to, raws);
    if Applied(original, patch) == Ok(updated) {
      var hunks := HunksOf(patch).value;
      BalanceKept(original, patch, updated, hunks);
      SkipPreamble(from, to, before + [x + y] + after);
      assert (forall l <- before[1..] :: l in raws) && forall l <- after :: l in raws;
      Beheaded(before, [x] + ([y] + after));
      Beheaded(before, [x + y] + after);
      Assoc(before, [x], [y] + after);
      Assoc(before, [x + y], after);
      Assoc(before[1..], [x], [y] + after);
      Assoc(before[1..], [x + y], after);
      MergedBalance(before[0], before[1..], x, y, after, hunks);
    }
  }

  lemma Beheaded(before: seq<string>, rest: seq<string>)
    requires before != []
    ensures before + rest == [before[0]] + (before[1..] + rest)
  {
  }

  lemma MergedBalance(
    header: string, body: seq<string>, x: string, y: string, after: seq<string>, hunks: seq<Hunk>)
    requires IsHeaderLine(header) && Rendered(body) && Rendered(after)
    requires IsMarked(x) && (IsHeaderLine(y) || IsMarked(y))
    requires if x[0] == '-' then y[0] == '+' else x[0] == '+' && y[0] in {'-', '@'}
    requires ParseTokens([], Tokens([header] + (body + [x + y] + after))) == Ok(hunks)
    ensures NetOf(hunks) != NetLines([header] + (body + [x] + ([y] + after)))
  {
    MergedLines(body, x, y, after);
    MergedParses(header, body + [x + y] + after, hunks);
    HeaderNet(header);
    BalanceParts(header, body, x, y, after);
    MergedNet(x, y);
  }

  lemma MergedLines(body: seq<string>, x: string, y: string, after: seq<string>)
    requires Rendered(body) && Rendered(after) && IsMarked(x)
    ensures forall raw <- body + [x + y] + after :: Readable(raw)
  {
  }

  lemma SkipPreamble(from: string, to: string, rest: seq<string>)
    requires ParseTokens([], Tokens([from])) == Ok([]) && ParseTokens([], Tokens([to])) == Ok([])
    ensures ParseTokens([], Tokens([from, to] + rest)) == ParseTokens([], Tokens(rest))
  {
    ParsesInTurn([], [from], [], [to], []);
    assert [from] + [to] == [from, to];
    TokensAppend([from, to], rest);
    ParseTokensAppend([], Tokens([from, to]), Tokens(rest));
  }

  lemma BalanceParts(header: string, before: seq<string>, x: string, y: string, after: seq<string>)
    ensures NetLines([header] + (before + [x] + ([y] + after))) ==
      NetLines([header]) + NetLines(before) + NetLines([x]) + NetLines([y]) + NetLines(after)
    ensures NetLines(before + [x + y] + after) == NetLines(before) + NetLines([x + y]) + NetLines(after)
  {
    NetAppends([header], before + [x] + ([y] + after));
    NetAppends(before + [x], [y] + after);
    NetAppends(before, [x]);
    NetAppends([y], after);
    NetAppends(before + [x + y], after);
    NetAppends(before, [x + y]);
  }

  lemma PreambleLine(marks: string, rest: string, prefix: string, path: string)
    requires marks in {"---", "+++"} && prefix == marks + rest && NoBreaks(prefix) && NoBreaks(path)
    ensures IsPreamble(prefix + path + "\n")
  {
    PreambleParses(marks, rest + path + "\n");
    TextLine(prefix + path);
    assert marks + (rest + path + "\n") == prefix + path + "\n";
  }

  lemma PreambleParts()
    ensures "--- a/" == "---" + " a/" && NoBreaks("--- a/")
    ensures "+++ b/" == "+++" + " b/" && NoBreaks("+++ b/")
  {
  }

  lemma PreambleFine(path: string)
    requires NoBreaks(path)
    ensures IsPreamble("--- a/" + path + "\n") && IsPreamble("+++ b/" + path + "\n")
  {
    PreambleParts();
    PreambleLine("---", " a/", "--- a/", path);
    PreambleLine("+++", " b/", "+++ b/", path);
  }

  lemma ScriptBalance(original: string, updated: string, groups: seq<Group>, tail: seq<string>)
    requires SplitLines(original) == Original(groups, tail) && SplitLines(updated) == Updated(groups, tail)
    ensures Weigh(SplitLines(updated)) == Weigh(SplitLines(original)) + NetLines(Rest(groups, 0, 0))
  {
    TextsNet(groups, tail);
    RenderedSides(groups, 0, 0);
  }

  /** The round trip, exactly: for all texts, terminated or not, and every anchored script between
      them, the rendered diff gives the update if and only if every rendered line but the last ends
      in a line break. */
  lemma DiffRoundTripsExactlyWhen(
    original: string, updated: string, path: string, groups: seq<Group>, tail: seq<string>)
    requires SplitLines(original) == Original(groups, tail) && SplitLines(updated) == Updated(groups, tail)
    requires NoBreaks(path) && groups != [] && Anchored(groups, 0)
    ensures Applied(original, RenderUnifiedDiff(path, groups)) == Ok(updated) <==> Separate(RenderLines(path, groups))
  {
    FineScript(original, updated, groups, tail);
    if Separate(RenderLines(path, groups)) {
      RenderingApplies(original, updated, path, groups, tail);
    } else {
      var from, to, raws := "--- a/" + path + "\n", "+++ b/" + path + "\n", Rest(groups, 0, 0);
      PreambleFine(path);
      ScriptBalance(original, updated, groups, tail);
      RestIsRendered(groups);
      PreambleApart(from, to, raws);
      RunTogetherDoesNotApply(original, updated, from, to, raws);
    }
  }

  lemma PreambleApart(from: string, to: string, raws: seq<string>)
    requires Terminated(from) && Terminated(to)
    ensures Separate(raws) ==> Separate([from, to] + raws)
  {
    if Separate(raws) {
      assert forall l <- [from, to] :: Terminated(l);
      AppendSeparate([from, to], raws);
    }
  }
}
