/** Rendering an edit script as a unified diff, and reading it back. */
module PatchRoundTrip {
  import opened Domain
  import opened Lines
  import opened Patching

  /** difflib opcodes: an equal stretch, or lines removed and then lines added. */
  datatype Edit = Equal(lines: seq<string>) | Change(removed: seq<string>, added: seq<string>)

  /** One hunk of an edit script, after the unchanged lines that separate it from the previous one. */
  datatype Group = Group(gap: seq<string>, edits: seq<Edit>)

  function Removed(edit: Edit): seq<string> { if edit.Equal? then edit.lines else edit.removed }

  function Added(edit: Edit): seq<string> { if edit.Equal? then edit.lines else edit.added }

  function OldOf(edits: seq<Edit>): seq<string> {
    if edits == [] then [] else Removed(edits[0]) + OldOf(edits[1..])
  }

  function NewOf(edits: seq<Edit>): seq<string> {
    if edits == [] then [] else Added(edits[0]) + NewOf(edits[1..])
  }

  function Original(groups: seq<Group>, tail: seq<string>): seq<string> {
    if groups == [] then tail else groups[0].gap + OldOf(groups[0].edits) + Original(groups[1..], tail)
  }

  function Updated(groups: seq<Group>, tail: seq<string>): seq<string> {
    if groups == [] then tail else groups[0].gap + NewOf(groups[0].edits) + Updated(groups[1..], tail)
  }

  // ---- rendering ----

  function Marked(marker: char, lines: seq<string>): seq<string> {
    if lines == [] then [] else [[marker] + lines[0]] + Marked(marker, lines[1..])
  }

  function EditLines(edit: Edit): seq<string> {
    match edit
    case Equal(lines) => Marked(' ', lines)
    case Change(removed, added) => Marked('-', removed) + Marked('+', added)
  }

  function Body(edits: seq<Edit>): seq<string> {
    if edits == [] then [] else EditLines(edits[0]) + Body(edits[1..])
  }

  /** The first number of a range: one-based, except that an empty range names the line before it. */
  function RangeStart(start: nat, length: nat): nat { if length == 0 then start else start + 1 }

  function RangeText(start: nat, length: nat): string {
    Decimal(RangeStart(start, length)) + if length == 1 then "" else "," + Decimal(length)
  }

  function HeaderText(oldStart: nat, oldSize: nat, newStart: nat, newSize: nat): string {
    "@@ -" + (RangeText(oldStart, oldSize) + (" +" + (RangeText(newStart, newSize) + " @@")))
  }

  function RenderGroup(edits: seq<Edit>, oldStart: nat, newStart: nat): seq<string> {
    [HeaderText(oldStart, |OldOf(edits)|, newStart, |NewOf(edits)|) + "\n"] + Body(edits)
  }

  function Renderings(groups: seq<Group>, oldAt: nat, newAt: nat): seq<seq<string>> {
    if groups == [] then []
    else
      var edits := groups[0].edits;
      var oldStart, newStart := oldAt + |groups[0].gap|, newAt + |groups[0].gap|;
      [RenderGroup(edits, oldStart, newStart)]
        + Renderings(groups[1..], oldStart + |OldOf(edits)|, newStart + |NewOf(edits)|)
  }

  function Concat(parts: seq<seq<string>>): seq<string> {
    if parts == [] then [] else parts[0] + Concat(parts[1..])
  }

  function RenderLines(path: string, groups: seq<Group>): seq<string> {
    if groups == [] then []
    else ["--- a/" + path + "\n", "+++ b/" + path + "\n"] + Concat(Renderings(groups, 0, 0))
  }

  function RenderUnifiedDiff(path: string, groups: seq<Group>): string { Join(RenderLines(path, groups)) }

  function HunkOf(edits: seq<Edit>, oldStart: nat): Hunk {
    Hunk(RangeStart(oldStart, |OldOf(edits)|), OldOf(edits), NewOf(edits))
  }

  function Hunks(groups: seq<Group>, oldAt: nat): seq<Hunk> {
    if groups == [] then []
    else
      var oldStart := oldAt + |groups[0].gap|;
      [HunkOf(groups[0].edits, oldStart)] + Hunks(groups[1..], oldStart + |OldOf(groups[0].edits)|)
  }

  // ---- headers read back ----

  lemma {:induction false} DecimalIsNumber(n: nat)
    ensures Decimal(n) != "" && forall c <- Decimal(n) :: IsDigit(c)
    ensures Number(Decimal(n)) == n
  {
    if n >= 10 {
      DecimalIsNumber(n / 10);
      var last := ('0' as int + n % 10) as char;
      assert Decimal(n)[..|Decimal(n)| - 1] == Decimal(n / 10);
    } else {
      assert Decimal(n)[..0] == "";
    }
  }

  lemma {:induction false} DigitsStop(digits: string, rest: string)
    requires forall c <- digits :: IsDigit(c)
    requires rest == "" || !IsDigit(rest[0])
    ensures DigitCount(digits + rest) == |digits|
  {
    if digits == "" {
      assert digits + rest == rest;
    } else {
      assert (digits + rest)[1..] == digits[1..] + rest;
      DigitsStop(digits[1..], rest);
    }
  }

  lemma RangeReadsBack(start: nat, size: nat, rest: string)
    requires rest != "" && rest[0] == ' '
    ensures var text := RangeText(start, size) + rest;
      && AfterRange(text) == Some(rest)
      && Number(text[..DigitCount(text)]) == RangeStart(start, size)
  {
    var digits := Decimal(RangeStart(start, size));
    DecimalIsNumber(RangeStart(start, size));
    DecimalIsNumber(size);
    var text := RangeText(start, size) + rest;
    if size == 1 {
      assert text == digits + rest;
      DigitsStop(digits, rest);
    } else {
      assert text == digits + ("," + Decimal(size) + rest);
      DigitsStop(digits, "," + Decimal(size) + rest);
      assert text[|digits| + 1..] == Decimal(size) + rest;
      DigitsStop(Decimal(size), rest);
    }
    assert text[..|digits|] == digits;
  }

  lemma HeaderReadsBack(oldStart: nat, oldSize: nat, newStart: nat, newSize: nat)
    ensures MatchHeader(HeaderText(oldStart, oldSize, newStart, newSize)) == Some(RangeStart(oldStart, oldSize))
  {
    var line := HeaderText(oldStart, oldSize, newStart, newSize);
    var after := " +" + (RangeText(newStart, newSize) + " @@");
    RangeReadsBack(oldStart, oldSize, after);
    RangeReadsBack(newStart, newSize, " @@");
    assert line[4..] == RangeText(oldStart, oldSize) + after;
    assert after[2..] == RangeText(newStart, newSize) + " @@";
  }

  lemma {:induction false} StripKeepsPrefix(prefix: string, rest: string)
    requires prefix != "" && prefix[|prefix| - 1] !in {'\r', '\n'}
    ensures prefix <= StripNewline(prefix + rest)
    decreases |rest|
  {
    var s := prefix + rest;
    if rest == "" {
      assert s == prefix;
    } else if s[|s| - 1] in {'\r', '\n'} {
      assert s[..|s| - 1] == prefix + rest[..|rest| - 1];
      StripKeepsPrefix(prefix, rest[..|rest| - 1]);
    }
  }

  lemma HeaderLineReadsBack(oldStart: nat, oldSize: nat, newStart: nat, newSize: nat)
    ensures Classify(HeaderText(oldStart, oldSize, newStart, newSize) + "\n")
         == Header(RangeStart(oldStart, oldSize))
  {
    var text := HeaderText(oldStart, oldSize, newStart, newSize);
    HeaderReadsBack(oldStart, oldSize, newStart, newSize);
    LastOfHeader(oldStart, oldSize, newStart, newSize);
    assert (text + "\n")[..|text|] == text;
    assert StripNewline(text + "\n") == StripNewline(text);
  }

  lemma LastOfHeader(oldStart: nat, oldSize: nat, newStart: nat, newSize: nat)
    ensures var text := HeaderText(oldStart, oldSize, newStart, newSize);
      StripNewline(text) == text
  {
    var text := HeaderText(oldStart, oldSize, newStart, newSize);
    assert text[|text| - 1] == " @@"[2];
  }

  // ---- bodies read back ----

  function Extended(hunk: Hunk, marker: char, lines: seq<string>): Hunk {
    match marker
    case ' ' => hunk.(oldLines := hunk.oldLines + lines, newLines := hunk.newLines + lines)
    case '-' => hunk.(oldLines := hunk.oldLines + lines)
    case _ => hunk.(newLines := hunk.newLines + lines)
  }

  /** Every line of `tokens` carries this marker and the body given by `lines`. */
  predicate Carries(tokens: seq<PatchLine>, marker: char, lines: seq<string>) {
    |tokens| == |lines| && forall i | 0 <= i < |lines| ::
      tokens[i].Plain? && !tokens[i].comment && tokens[i].marker == marker && tokens[i].body == lines[i]
  }

  lemma MarkedLineReadsBack(marker: char, l: string)
    requires marker in {' ', '-', '+'}
    ensures Carries([Classify([marker] + l)], marker, [l])
  {
    StripKeepsPrefix([marker], l);
    var line := StripNewline([marker] + l);
    assert [marker] <= line && line[0] == marker;
    assert !StartsWith(line, "@@ -") && !StartsWith(line, "\\");
    assert ([marker] + l)[1..] == l;
  }

  lemma {:induction false} MarkedAt(marker: char, lines: seq<string>)
    ensures |Marked(marker, lines)| == |lines|
    ensures forall i | 0 <= i < |lines| :: Marked(marker, lines)[i] == [marker] + lines[i]
  {
    if lines != [] { MarkedAt(marker, lines[1..]); }
  }

  lemma MarkedReadsBack(marker: char, lines: seq<string>)
    requires marker in {' ', '-', '+'}
    ensures Carries(Tokens(Marked(marker, lines)), marker, lines)
  {
    MarkedAt(marker, lines);
    forall i | 0 <= i < |lines|
      ensures Carries([Tokens(Marked(marker, lines))[i]], marker, [lines[i]])
    {
      MarkedLineReadsBack(marker, lines[i]);
    }
    forall i | 0 <= i < |lines|
      ensures var token := Tokens(Marked(marker, lines))[i];
        token.Plain? && !token.comment && token.marker == marker && token.body == lines[i]
    {
      var token := [Tokens(Marked(marker, lines))[i]];
      assert Carries(token, marker, [lines[i]]);
      assert token[0].body == [lines[i]][0];
    }
  }

  lemma {:induction false} CarriedParses(
    hunks: seq<Hunk>, hunk: Hunk, marker: char, tokens: seq<PatchLine>, lines: seq<string>)
    requires marker in {' ', '-', '+'} && Carries(tokens, marker, lines)
    ensures ParseTokens(hunks + [hunk], tokens) == Ok(hunks + [Extended(hunk, marker, lines)])
    decreases |tokens|
  {
    if lines == [] {
      assert Extended(hunk, marker, lines) == hunk;
    } else {
      var next := Extended(hunk, marker, [lines[0]]);
      assert (hunks + [hunk])[..|hunks|] == hunks;
      assert ParseToken(hunks + [hunk], tokens[0]) == Ok(hunks + [next]);
      CarriedParses(hunks, next, marker, tokens[1..], lines[1..]);
      assert [lines[0]] + lines[1..] == lines;
      assert Extended(next, marker, lines[1..]) == Extended(hunk, marker, lines);
    }
  }

  lemma MarkedParses(hunks: seq<Hunk>, hunk: Hunk, marker: char, lines: seq<string>)
    requires marker in {' ', '-', '+'}
    ensures ParseTokens(hunks + [hunk], Tokens(Marked(marker, lines))) == Ok(hunks + [Extended(hunk, marker, lines)])
  {
    MarkedReadsBack(marker, lines);
    CarriedParses(hunks, hunk, marker, Tokens(Marked(marker, lines)), lines);
  }

  lemma TokensAppend(a: seq<string>, b: seq<string>)
    ensures Tokens(a + b) == Tokens(a) + Tokens(b)
  {
    MapAppend(Classify, a, b);
  }

  lemma TokensInTurn(hunks: seq<Hunk>, a: seq<PatchLine>, middle: seq<Hunk>, b: seq<PatchLine>, result: seq<Hunk>)
    requires ParseTokens(hunks, a) == Ok(middle) && ParseTokens(middle, b) == Ok(result)
    ensures ParseTokens(hunks, a + b) == Ok(result)
  {
    ParseTokensAppend(hunks, a, b);
  }

  lemma ParsesInTurn(hunks: seq<Hunk>, a: seq<string>, middle: seq<Hunk>, b: seq<string>, result: seq<Hunk>)
    requires ParseTokens(hunks, Tokens(a)) == Ok(middle) && ParseTokens(middle, Tokens(b)) == Ok(result)
    ensures ParseTokens(hunks, Tokens(a + b)) == Ok(result)
  {
    TokensAppend(a, b);
    TokensInTurn(hunks, Tokens(a), middle, Tokens(b), result);
  }

  function Grown(hunk: Hunk, oldLines: seq<string>, newLines: seq<string>): Hunk {
    hunk.(oldLines := hunk.oldLines + oldLines, newLines := hunk.newLines + newLines)
  }

  lemma EditParses(hunks: seq<Hunk>, hunk: Hunk, edit: Edit)
    ensures ParseTokens(hunks + [hunk], Tokens(EditLines(edit)))
         == Ok(hunks + [Grown(hunk, Removed(edit), Added(edit))])
  {
    match edit
    case Equal(lines) => MarkedParses(hunks, hunk, ' ', lines);
    case Change(removed, added) =>
      var middle := Extended(hunk, '-', removed);
      MarkedParses(hunks, hunk, '-', removed);
      MarkedParses(hunks, middle, '+', added);
      ParsesInTurn(hunks + [hunk], Marked('-', removed), hunks + [middle],
                   Marked('+', added), hunks + [Extended(middle, '+', added)]);
  }

  lemma GrowsTwice(hunk: Hunk, a: seq<string>, b: seq<string>, c: seq<string>, d: seq<string>)
    ensures Grown(Grown(hunk, a, b), c, d) == Grown(hunk, a + c, b + d)
  {
    assert hunk.oldLines + a + c == hunk.oldLines + (a + c);
    assert hunk.newLines + b + d == hunk.newLines + (b + d);
  }

  lemma {:induction false} BodyParses(hunks: seq<Hunk>, hunk: Hunk, edits: seq<Edit>)
    ensures ParseTokens(hunks + [hunk], Tokens(Body(edits))) == Ok(hunks + [Grown(hunk, OldOf(edits), NewOf(edits))])
    decreases |edits|
  {
    if edits == [] {
      assert Grown(hunk, [], []) == hunk;
    } else {
      var next := Grown(hunk, Removed(edits[0]), Added(edits[0]));
      EditParses(hunks, hunk, edits[0]);
      BodyParses(hunks, next, edits[1..]);
      GrowsTwice(hunk, Removed(edits[0]), Added(edits[0]), OldOf(edits[1..]), NewOf(edits[1..]));
      ParsesInTurn(hunks + [hunk], EditLines(edits[0]), hunks + [next], Body(edits[1..]),
                   hunks + [Grown(hunk, OldOf(edits), NewOf(edits))]);
    }
  }

  lemma GroupParses(hunks: seq<Hunk>, edits: seq<Edit>, oldStart: nat, newStart: nat)
    ensures ParseTokens(hunks, Tokens(RenderGroup(edits, oldStart, newStart))) == Ok(hunks + [HunkOf(edits, oldStart)])
  {
    var header := HeaderText(oldStart, |OldOf(edits)|, newStart, |NewOf(edits)|) + "\n";
    var empty := Hunk(RangeStart(oldStart, |OldOf(edits)|), [], []);
    HeaderLineReadsBack(oldStart, |OldOf(edits)|, newStart, |NewOf(edits)|);
    HeaderParses(hunks, header, empty.oldStart);
    BodyParses(hunks, empty, edits);
    assert Grown(empty, OldOf(edits), NewOf(edits)) == HunkOf(edits, oldStart);
    ParsesInTurn(hunks, [header], hunks + [empty], Body(edits), hunks + [HunkOf(edits, oldStart)]);
  }

  lemma HeaderParses(hunks: seq<Hunk>, line: string, oldStart: nat)
    requires Classify(line) == Header(oldStart)
    ensures ParseTokens(hunks, Tokens([line])) == Ok(hunks + [Hunk(oldStart, [], [])])
  {
    assert Tokens([line]) == [Header(oldStart)];
    assert Tokens([line])[1..] == [];
  }

  lemma Assoc<T>(a: seq<T>, b: seq<T>, c: seq<T>)
    ensures a + b + c == a + (b + c)
  {
  }

  /** These lines read as one hunk, whatever was read before. */
  ghost predicate Yields(tokens: seq<PatchLine>, hunk: Hunk) {
    forall hunks: seq<Hunk> :: ParseTokens(hunks, tokens) == Ok(hunks + [hunk])
  }

  function Flatten(pieces: seq<seq<PatchLine>>): seq<PatchLine> {
    if pieces == [] then [] else pieces[0] + Flatten(pieces[1..])
  }

  lemma {:induction false} PiecesParse(hunks: seq<Hunk>, pieces: seq<seq<PatchLine>>, read: seq<Hunk>)
    requires |pieces| == |read| && forall i | 0 <= i < |read| :: Yields(pieces[i], read[i])
    ensures ParseTokens(hunks, Flatten(pieces)) == Ok(hunks + read)
    decreases |pieces|
  {
    if pieces == [] {
      assert hunks + [] == hunks;
    } else {
      assert Yields(pieces[0], read[0]);
      PiecesParse(hunks + [read[0]], pieces[1..], read[1..]);
      Assoc(hunks, [read[0]], read[1..]);
      assert read == [read[0]] + read[1..];
      TokensInTurn(hunks, pieces[0], hunks + [read[0]], Flatten(pieces[1..]), hunks + read);
    }
  }

  lemma {:induction false} FlattenMap(read: string -> PatchLine, parts: seq<seq<string>>)
    ensures Map(read, Concat(parts)) == Flatten(Map(part => Map(read, part), parts))
  {
    if parts != [] {
      MapAppend(read, parts[0], Concat(parts[1..]));
      FlattenMap(read, parts[1..]);
      assert Map(part => Map(read, part), parts)[1..] == Map(part => Map(read, part), parts[1..]);
    }
  }

  lemma {:induction false} AsManyHunks(groups: seq<Group>, oldAt: nat, newAt: nat)
    ensures |Renderings(groups, oldAt, newAt)| == |Hunks(groups, oldAt)| == |groups|
    decreases |groups|
  {
    if groups != [] {
      var oldStart, newStart := oldAt + |groups[0].gap|, newAt + |groups[0].gap|;
      AsManyHunks(groups[1..], oldStart + |OldOf(groups[0].edits)|, newStart + |NewOf(groups[0].edits)|);
    }
  }

  lemma FirstRendering(groups: seq<Group>, oldAt: nat, newAt: nat) returns (oldNext: nat, newNext: nat)
    requires groups != []
    ensures var edits, oldStart, newStart := groups[0].edits, oldAt + |groups[0].gap|, newAt + |groups[0].gap|;
      && Renderings(groups, oldAt, newAt)
           == [RenderGroup(edits, oldStart, newStart)] + Renderings(groups[1..], oldNext, newNext)
      && Hunks(groups, oldAt) == [HunkOf(edits, oldStart)] + Hunks(groups[1..], oldNext)
  {
    oldNext := oldAt + |groups[0].gap| + |OldOf(groups[0].edits)|;
    newNext := newAt + |groups[0].gap| + |NewOf(groups[0].edits)|;
  }

  /** Hunk i is rendered with the start positions its header states. */
  lemma {:induction false} GroupAt(groups: seq<Group>, oldAt: nat, newAt: nat, i: nat)
    returns (oldStart: nat, newStart: nat)
    requires i < |groups|
    ensures |Renderings(groups, oldAt, newAt)| == |Hunks(groups, oldAt)| == |groups|
    ensures Renderings(groups, oldAt, newAt)[i] == RenderGroup(groups[i].edits, oldStart, newStart)
    ensures Hunks(groups, oldAt)[i] == HunkOf(groups[i].edits, oldStart)
    decreases |groups|
  {
    AsManyHunks(groups, oldAt, newAt);
    oldStart, newStart := oldAt + |groups[0].gap|, newAt + |groups[0].gap|;
    var oldNext, newNext := FirstRendering(groups, oldAt, newAt);
    if i > 0 {
      oldStart, newStart := GroupAt(groups[1..], oldNext, newNext, i - 1);
    }
  }

  lemma GroupYields(edits: seq<Edit>, oldStart: nat, newStart: nat)
    ensures Yields(Tokens(RenderGroup(edits, oldStart, newStart)), HunkOf(edits, oldStart))
  {
    forall hunks: seq<Hunk>
      ensures ParseTokens(hunks, Tokens(RenderGroup(edits, oldStart, newStart))) == Ok(hunks + [HunkOf(edits, oldStart)])
    {
      GroupParses(hunks, edits, oldStart, newStart);
    }
  }

  lemma GroupsParse(groups: seq<Group>)
    requires groups != []
    ensures ParseTokens([], Tokens(Concat(Renderings(groups, 0, 0)))) == Ok(Hunks(groups, 0))
  {
    var parts, hunks := Renderings(groups, 0, 0), Hunks(groups, 0);
    var pieces := Map(part => Map(Classify, part), parts);
    var _, _ := GroupAt(groups, 0, 0, 0);
    forall i | 0 <= i < |hunks|
      ensures Yields(pieces[i], hunks[i])
    {
      var oldStart, newStart := GroupAt(groups, 0, 0, i);
      GroupYields(groups[i].edits, oldStart, newStart);
    }
    FlattenMap(Classify, parts);
    PiecesParse([], pieces, hunks);
    assert [] + hunks == hunks;
  }

  lemma PreambleParses(marks: string, rest: string)
    requires marks in {"---", "+++"}
    ensures ParseTokens([], Tokens([marks + rest])) == Ok([])
  {
    var line := marks + rest;
    StripKeepsPrefix(marks, rest);
    assert marks <= StripNewline(line);
    assert !StartsWith(StripNewline(line), "@@ -");
    assert Classify(line).Plain? && Classify(line).ignorable;
    assert Tokens([line]) == [Classify(line)];
    assert Tokens([line])[1..] == [];
  }

  // ---- the rendered text splits into the rendered lines ----

  /** A line; when `strict`, one that ends in a line break. */
  predicate Fine(l: string, strict: bool) { IsLine(l) && (strict ==> Terminated(l)) }

  predicate AllFine(lines: seq<string>, strict: bool) { forall l <- lines :: Fine(l, strict) }

  predicate Starts(lines: seq<string>) { forall l <- lines :: l != "" && l[0] != '\n' }

  lemma MarkedLine(marker: char, l: string, strict: bool)
    requires !IsBoundary(marker) && Fine(l, strict)
    ensures Fine([marker] + l, strict)
  {
    assert ([marker] + l)[1..] == l;
  }

  lemma MarkedFine(marker: char, lines: seq<string>, strict: bool)
    requires !IsBoundary(marker) && AllFine(lines, strict)
    ensures AllFine(Marked(marker, lines), strict) && Starts(Marked(marker, lines))
  {
    MarkedAt(marker, lines);
    forall l <- Marked(marker, lines)
      ensures Fine(l, strict) && l != "" && l[0] != '\n'
    {
      var i :| 0 <= i < |lines| && Marked(marker, lines)[i] == l;
      assert lines[i] in lines;
      MarkedLine(marker, lines[i], strict);
    }
  }

  predicate EditFine(edit: Edit, strict: bool) { AllFine(Removed(edit), strict) && AllFine(Added(edit), strict) }

  lemma {:induction false} BodyFine(edits: seq<Edit>, strict: bool)
    requires forall edit <- edits :: EditFine(edit, strict)
    ensures AllFine(Body(edits), strict) && Starts(Body(edits))
  {
    if edits != [] {
      assert EditFine(edits[0], strict);
      match edits[0] {
        case Equal(lines) => MarkedFine(' ', lines, strict);
        case Change(removed, added) =>
          MarkedFine('-', removed, strict);
          MarkedFine('+', added, strict);
      }
      BodyFine(edits[1..], strict);
    }
  }

  lemma RangeNoBreaks(start: nat, size: nat)
    ensures NoBreaks(RangeText(start, size))
  {
    DecimalIsNumber(RangeStart(start, size));
    DecimalIsNumber(size);
    assert forall c <- Decimal(RangeStart(start, size)) :: IsDigit(c);
    assert forall c <- Decimal(size) :: IsDigit(c);
  }

  lemma HeaderFine(oldStart: nat, oldSize: nat, newStart: nat, newSize: nat)
    ensures Terminated(HeaderText(oldStart, oldSize, newStart, newSize) + "\n")
    ensures HeaderText(oldStart, oldSize, newStart, newSize)[0] == '@'
  {
    RangeNoBreaks(oldStart, oldSize);
    RangeNoBreaks(newStart, newSize);
    TextLine(HeaderText(oldStart, oldSize, newStart, newSize));
  }

  lemma GroupFine(edits: seq<Edit>, oldStart: nat, newStart: nat, strict: bool)
    requires forall edit <- edits :: EditFine(edit, strict)
    ensures AllFine(RenderGroup(edits, oldStart, newStart), strict) && Starts(RenderGroup(edits, oldStart, newStart))
  {
    HeaderFine(oldStart, |OldOf(edits)|, newStart, |NewOf(edits)|);
    BodyFine(edits, strict);
  }

  predicate GroupsFine(groups: seq<Group>, strict: bool) {
    forall group <- groups :: forall edit <- group.edits :: EditFine(edit, strict)
  }

  lemma {:induction false} ConcatFine(parts: seq<seq<string>>, strict: bool)
    requires forall part <- parts :: AllFine(part, strict) && Starts(part)
    ensures AllFine(Concat(parts), strict) && Starts(Concat(parts))
  {
    if parts != [] {
      assert AllFine(parts[0], strict) && Starts(parts[0]);
      ConcatFine(parts[1..], strict);
    }
  }

  lemma RenderingsFine(groups: seq<Group>, strict: bool)
    requires groups != [] && GroupsFine(groups, strict)
    ensures forall part <- Renderings(groups, 0, 0) :: AllFine(part, strict) && Starts(part)
  {
    var parts := Renderings(groups, 0, 0);
    var _, _ := GroupAt(groups, 0, 0, 0);
    forall part <- parts
      ensures AllFine(part, strict) && Starts(part)
    {
      var i :| 0 <= i < |parts| && parts[i] == part;
      var oldStart, newStart := GroupAt(groups, 0, 0, i);
      assert groups[i] in groups;
      GroupFine(groups[i].edits, oldStart, newStart, strict);
    }
  }

  lemma RenderLinesFine(path: string, groups: seq<Group>, strict: bool)
    requires NoBreaks(path) && GroupsFine(groups, strict)
    ensures AllFine(RenderLines(path, groups), strict) && Starts(RenderLines(path, groups))
  {
    if groups != [] {
      RenderingsFine(groups, strict);
      ConcatFine(Renderings(groups, 0, 0), strict);
      TextLine("--- a/" + path);
      TextLine("+++ b/" + path);
    }
  }

  lemma AfterPreamble(from: string, to: string, rest: seq<string>, hunks: seq<Hunk>)
    requires ParseTokens([], Tokens([from])) == Ok([]) && ParseTokens([], Tokens([to])) == Ok([])
    requires ParseTokens([], Tokens(rest)) == Ok(hunks)
    ensures ParseTokens([], Tokens([from, to] + rest)) == Ok(hunks)
  {
    ParsesInTurn([], [from], [], [to], []);
    ParsesInTurn([], [from] + [to], [], rest, hunks);
    assert [from, to] == [from] + [to];
  }

  lemma RenderLinesParse(path: string, groups: seq<Group>)
    requires groups != []
    ensures ParseTokens([], Tokens(RenderLines(path, groups))) == Ok(Hunks(groups, 0))
  {
    var from, to := "--- a/" + path + "\n", "+++ b/" + path + "\n";
    PreambleParses("---", " a/" + path + "\n");
    PreambleParses("+++", " b/" + path + "\n");
    assert from == "---" + (" a/" + path + "\n");
    assert to == "+++" + (" b/" + path + "\n");
    GroupsParse(groups);
    AfterPreamble(from, to, Concat(Renderings(groups, 0, 0)), Hunks(groups, 0));
  }

  lemma SplitParses(text: string, lines: seq<string>, hunks: seq<Hunk>)
    requires SplitLines(text) == lines && ParseTokens([], Tokens(lines)) == Ok(hunks) && hunks != []
    ensures HunksOf(text) == Ok(hunks)
  {
  }

  /** Parsing a rendering returns the hunks that were rendered, whatever the lines look like, as long
      as every rendered line but the last ends in a line break. */
  lemma RenderingParsesBack(path: string, groups: seq<Group>)
    requires NoBreaks(path) && groups != [] && GroupsFine(groups, false)
    requires Separate(RenderLines(path, groups))
    ensures HunksOf(RenderUnifiedDiff(path, groups)) == Ok(Hunks(groups, 0))
  {
    var _, _ := GroupAt(groups, 0, 0, 0);
    RenderLinesFine(path, groups, false);
    SplitJoin(RenderLines(path, groups));
    RenderLinesParse(path, groups);
    SplitParses(RenderUnifiedDiff(path, groups), RenderLines(path, groups), Hunks(groups, 0));
  }

  // ---- applying the rendering ----

  /** Every hunk has an old side, or stands at the very start of the file. */
  predicate Anchored(groups: seq<Group>, oldAt: nat) {
    groups == [] ||
    (&& (OldOf(groups[0].edits) != [] || oldAt + |groups[0].gap| == 0)
     && Anchored(groups[1..], oldAt + |groups[0].gap| + |OldOf(groups[0].edits)|))
  }

  lemma SliceOf(before: seq<string>, part: seq<string>, after: seq<string>)
    ensures Slice(before + part + after, |before|, |before| + |part|) == part
  {
  }

  lemma AnchoredPlace(before: seq<string>, group: Group, after: seq<string>)
    requires OldOf(group.edits) != [] || |before| + |group.gap| == 0
    ensures Locate(before + group.gap + OldOf(group.edits) + after, HunkOf(group.edits, |before| + |group.gap|), |before|)
         == Ok(|before| + |group.gap|)
  {
    var oldSide := OldOf(group.edits);
    SliceOf(before + group.gap, oldSide, after);
    assert StatedFits(before + group.gap + oldSide + after, HunkOf(group.edits, |before| + |group.gap|), |before|);
  }

  lemma ApplyFirst(lines: seq<string>, hunk: Hunk, more: seq<Hunk>, at: nat, place: nat, next: nat, rest: seq<string>)
    requires Locate(lines, hunk, at) == Ok(place) && next == place + |hunk.oldLines|
    requires ApplyFrom(lines, more, next) == Ok(rest)
    ensures ApplyFrom(lines, [hunk] + more, at) == Ok(Slice(lines, at, place) + hunk.newLines + rest)
  {
    assert ([hunk] + more)[1..] == more;
  }

  lemma GroupParts(before: seq<string>, gap: seq<string>, oldSide: seq<string>, rest: seq<string>)
    ensures before + (gap + oldSide + rest) == before + gap + oldSide + rest
    ensures Slice(before + gap + oldSide + rest, |before|, |before| + |gap|) == gap
  {
    assert before + gap + oldSide + rest == before + gap + (oldSide + rest);
    SliceOf(before, gap, oldSide + rest);
  }

  lemma GroupRebuilds(before: seq<string>, group: Group, rest: seq<string>, more: seq<Hunk>, result: seq<string>)
    requires OldOf(group.edits) != [] || |before| + |group.gap| == 0
    requires var next := before + group.gap + OldOf(group.edits); ApplyFrom(next + rest, more, |next|) == Ok(result)
    ensures ApplyFrom(before + (group.gap + OldOf(group.edits) + rest),
                      [HunkOf(group.edits, |before| + |group.gap|)] + more, |before|)
         == Ok(group.gap + NewOf(group.edits) + result)
  {
    var place := |before| + |group.gap|;
    var next := before + group.gap + OldOf(group.edits);
    GroupParts(before, group.gap, OldOf(group.edits), rest);
    AnchoredPlace(before, group, rest);
    ApplyFirst(next + rest, HunkOf(group.edits, place), more, |before|, place, |next|, result);
  }

  lemma FirstGroup(groups: seq<Group>, tail: seq<string>, at: nat)
    requires groups != []
    ensures var place, edits := at + |groups[0].gap|, groups[0].edits;
      && Original(groups, tail) == groups[0].gap + OldOf(edits) + Original(groups[1..], tail)
      && Updated(groups, tail) == groups[0].gap + NewOf(edits) + Updated(groups[1..], tail)
      && Hunks(groups, at) == [HunkOf(edits, place)] + Hunks(groups[1..], place + |OldOf(edits)|)
  {
  }

  lemma TailRebuilds(before: seq<string>, tail: seq<string>)
    ensures ApplyFrom(before + tail, [], |before|) == Ok(tail)
  {
    SliceOf(before, tail, []);
    assert before + tail + [] == before + tail;
  }

  lemma {:induction false} HunksRebuild(before: seq<string>, groups: seq<Group>, tail: seq<string>)
    requires Anchored(groups, |before|)
    ensures ApplyFrom(before + Original(groups, tail), Hunks(groups, |before|), |before|) == Ok(Updated(groups, tail))
    decreases |groups|
  {
    if groups == [] {
      TailRebuilds(before, tail);
    } else {
      HunksRebuild(before + groups[0].gap + OldOf(groups[0].edits), groups[1..], tail);
      FirstRebuilds(before, groups, tail);
    }
  }

  lemma FirstRebuilds(before: seq<string>, groups: seq<Group>, tail: seq<string>)
    requires groups != [] && (OldOf(groups[0].edits) != [] || |before| + |groups[0].gap| == 0)
    requires var next := before + groups[0].gap + OldOf(groups[0].edits);
      ApplyFrom(next + Original(groups[1..], tail), Hunks(groups[1..], |next|), |next|) == Ok(Updated(groups[1..], tail))
    ensures ApplyFrom(before + Original(groups, tail), Hunks(groups, |before|), |before|) == Ok(Updated(groups, tail))
  {
    var next := before + groups[0].gap + OldOf(groups[0].edits);
    assert |next| == |before| + |groups[0].gap| + |OldOf(groups[0].edits)|;
    FirstGroup(groups, tail, |before|);
    RebuildsAs(before, groups[0], Original(groups[1..], tail), Hunks(groups[1..], |next|), Updated(groups[1..], tail),
               Original(groups, tail), Hunks(groups, |before|), Updated(groups, tail));
  }

  lemma RebuildsAs(before: seq<string>, group: Group, rest: seq<string>, more: seq<Hunk>, later: seq<string>,
                   whole: seq<string>, hunks: seq<Hunk>, result: seq<string>)
    requires OldOf(group.edits) != [] || |before| + |group.gap| == 0
    requires var next := before + group.gap + OldOf(group.edits); ApplyFrom(next + rest, more, |next|) == Ok(later)
    requires whole == group.gap + OldOf(group.edits) + rest
    requires hunks == [HunkOf(group.edits, |before| + |group.gap|)] + more
    requires result == group.gap + NewOf(group.edits) + later
    ensures ApplyFrom(before + whole, hunks, |before|) == Ok(result)
  {
    GroupRebuilds(before, group, rest, more, later);
  }

  /** A rendered edit script applies to the original and gives the updated text. */
  lemma RenderingApplies(original: string, updated: string, path: string, groups: seq<Group>, tail: seq<string>)
    requires SplitLines(original) == Original(groups, tail) && SplitLines(updated) == Updated(groups, tail)
    requires NoBreaks(path) && groups != [] && GroupsFine(groups, false) && Anchored(groups, 0)
    requires Separate(RenderLines(path, groups))
    ensures Applied(original, RenderUnifiedDiff(path, groups)) == Ok(updated)
  {
    RenderingParsesBack(path, groups);
    HunksRebuild([], groups, tail);
    assert [] + Original(groups, tail) == Original(groups, tail);
    JoinSplit(updated);
  }

  lemma {:induction false} EditSides(edits: seq<Edit>, edit: Edit)
    requires edit in edits
    ensures forall l <- Removed(edit) :: l in OldOf(edits)
    ensures forall l <- Added(edit) :: l in NewOf(edits)
  {
    if edit != edits[0] { EditSides(edits[1..], edit); }
  }

  lemma {:induction false} EditsOfTexts(groups: seq<Group>, tail: seq<string>, strict: bool)
    requires AllFine(Original(groups, tail), strict) && AllFine(Updated(groups, tail), strict)
    ensures GroupsFine(groups, strict)
  {
    if groups != [] {
      forall edit <- groups[0].edits
        ensures EditFine(edit, strict)
      {
        EditSides(groups[0].edits, edit);
        forall l <- Removed(edit) ensures Fine(l, strict) { assert l in Original(groups, tail); }
        forall l <- Added(edit) ensures Fine(l, strict) { assert l in Updated(groups, tail); }
      }
      assert forall l <- Original(groups[1..], tail) :: l in Original(groups, tail);
      assert forall l <- Updated(groups[1..], tail) :: l in Updated(groups, tail);
      EditsOfTexts(groups[1..], tail, strict);
    }
  }

  predicate EndsInBreak(text: string) { text == "" || IsBoundary(text[|text| - 1]) }

  /** The round trip: for texts that end in a line break, the diff rendered from any edit script
      between them parses into the script's hunks and turns the original into the update. */
  lemma DiffRoundTrip(original: string, updated: string, path: string, groups: seq<Group>, tail: seq<string>)
    requires SplitLines(original) == Original(groups, tail) && SplitLines(updated) == Updated(groups, tail)
    requires EndsInBreak(original) && EndsInBreak(updated) && NoBreaks(path)
    requires groups != [] && Anchored(groups, 0)
    ensures HunksOf(RenderUnifiedDiff(path, groups)) == Ok(Hunks(groups, 0))
    ensures Applied(original, RenderUnifiedDiff(path, groups)) == Ok(updated)
  {
    TerminatedText(original);
    TerminatedText(updated);
    EditsOfTexts(groups, tail, true);
    RenderLinesFine(path, groups, true);
    assert GroupsFine(groups, false) by {
      forall group <- groups, edit <- group.edits ensures EditFine(edit, false) { assert EditFine(edit, true); }
    }
    var lines := RenderLines(path, groups);
    assert forall i | 0 <= i < |lines| :: lines[i] in lines;
    assert forall i | 0 <= i < |lines| - 1 :: Fine(lines[i], true);
    RenderingParsesBack(path, groups);
    RenderingApplies(original, updated, path, groups, tail);
  }

  // ---- where the round trip fails ----

  function MergedLines(u: string, v: string, path: string): seq<string> {
    ["--- a/" + path + "\n", "+++ b/" + path + "\n", HeaderText(0, 1, 0, 1) + "\n"] + [['-'] + (u + "+" + v)]
  }

  /** A removed last line without a line break runs into the added line. */
  lemma MergedText(u: string, v: string, path: string)
    requires NoBreaks(u) && NoBreaks(v) && NoBreaks(path)
    ensures SplitLines(RenderUnifiedDiff(path, [Group([], [Change([u], [v])])])) == MergedLines(u, v, path)
  {
    MergedJoin(u, v, path);
    MergedFine(u, v, path);
    SplitJoin(MergedLines(u, v, path));
  }

  lemma MergedJoin(u: string, v: string, path: string)
    ensures RenderUnifiedDiff(path, [Group([], [Change([u], [v])])]) == Join(MergedLines(u, v, path))
  {
    var pre := ["--- a/" + path + "\n", "+++ b/" + path + "\n", HeaderText(0, 1, 0, 1) + "\n"];
    var merged := ['-'] + (u + "+" + v);
    SingleChange(u, v, path);
    JoinAppend(pre, [['-'] + u, ['+'] + v]);
    JoinAppend(pre, [merged]);
    PairJoins(['-'] + u, ['+'] + v, merged);
  }

  lemma MergedFine(u: string, v: string, path: string)
    requires NoBreaks(u) && NoBreaks(v) && NoBreaks(path)
    ensures forall l <- MergedLines(u, v, path) :: IsLine(l) && l[0] != '\n'
    ensures Separate(MergedLines(u, v, path))
  {
    TextLine("--- a/" + path);
    TextLine("+++ b/" + path);
    HeaderFine(0, 1, 0, 1);
    BreaklessLine(u + "+" + v);
    MarkedLine('-', u + "+" + v, false);
  }

  lemma MergedParse(l: string, path: string)
    ensures ParseTokens([], Tokens(["--- a/" + path + "\n", "+++ b/" + path + "\n"]
                                   + [HeaderText(0, 1, 0, 1) + "\n", ['-'] + l])) == Ok([Hunk(1, [l], [])])
  {
    var from, to, header := "--- a/" + path + "\n", "+++ b/" + path + "\n", HeaderText(0, 1, 0, 1) + "\n";
    PreambleParses("---", " a/" + path + "\n");
    PreambleParses("+++", " b/" + path + "\n");
    assert from == "---" + (" a/" + path + "\n");
    assert to == "+++" + (" b/" + path + "\n");
    HeaderLineReadsBack(0, 1, 0, 1);
    HeaderParses([], header, 1);
    MarkedParses([], Hunk(1, [], []), '-', [l]);
    MergedTail(header, l);
    AfterPreamble(from, to, [header, ['-'] + l], [Hunk(1, [l], [])]);
  }

  lemma MarkedOne(marker: char, l: string)
    ensures Marked(marker, [l]) == [[marker] + l]
  {
    assert [l][1..] == [];
  }

  lemma MergedTail(header: string, l: string)
    requires ParseTokens([], Tokens([header])) == Ok([] + [Hunk(1, [], [])])
    requires ParseTokens([] + [Hunk(1, [], [])], Tokens(Marked('-', [l]))) == Ok([] + [Extended(Hunk(1, [], []), '-', [l])])
    ensures ParseTokens([], Tokens([header, ['-'] + l])) == Ok([Hunk(1, [l], [])])
  {
    MarkedOne('-', l);
    assert [] + [l] == [l];
    assert [] + [Extended(Hunk(1, [], []), '-', [l])] == [Hunk(1, [l], [])];
    ParsesInTurn([], [header], [] + [Hunk(1, [], [])], Marked('-', [l]), [Hunk(1, [l], [])]);
    assert [header] + Marked('-', [l]) == [header, ['-'] + l];
  }

  lemma PairJoins(a: string, b: string, merged: string)
    requires a + b == merged
    ensures Join([a, b]) == Join([merged])
  {
    assert [a, b][1..] == [b];
    assert [b][1..] == [];
    assert [merged][1..] == [];
  }

  lemma SingleSides(u: string, v: string)
    ensures var edits := [Change([u], [v])]; OldOf(edits) == [u] && NewOf(edits) == [v]
  {
    assert [Change([u], [v])][1..] == [];
  }

  lemma SingleChange(u: string, v: string, path: string)
    ensures RenderLines(path, [Group([], [Change([u], [v])])]) ==
      ["--- a/" + path + "\n", "+++ b/" + path + "\n", HeaderText(0, 1, 0, 1) + "\n"] + [['-'] + u, ['+'] + v]
  {
    var edits := [Change([u], [v])];
    SingleSides(u, v);
    assert edits[1..] == [];
    MarkedOne('-', u);
    MarkedOne('+', v);
    assert Body(edits) == [['-'] + u, ['+'] + v];
    var groups := [Group([], edits)];
    assert groups[1..] == [];
    assert Renderings(groups, 0, 0) == [RenderGroup(edits, 0, 0)];
    assert Concat(Renderings(groups, 0, 0)) == RenderGroup(edits, 0, 0);
  }

  lemma DifferentLine(u: string, l: string)
    requires StripNewline(u) != StripNewline(l)
    ensures !MatchesAt([u], Hunk(1, [l], []), 0)
  {
    assert Slice([u], 0, 1) == [u];
    assert [u][0] == u && [l][0] == l;
  }

  lemma NowhereToApply(lines: seq<string>, hunk: Hunk)
    requires |lines| == |hunk.oldLines| && hunk.oldStart == 1 && !MatchesAt(lines, hunk, 0)
    ensures ApplyFrom(lines, [hunk], 0) == Err(NoMatch)
  {
    assert forall start: nat :: !IsMatch(lines, hunk, 0, start);
    assert Locate(lines, hunk, 0) == Err(NoMatch);
  }

  lemma StripsNothing(s: string)
    requires NoBreaks(s)
    ensures StripNewline(s) == s
  {
    assert s != "" ==> s[|s| - 1] in s;
  }

  lemma LongerLineIsNowhere(u: string, l: string)
    requires NoBreaks(u) && NoBreaks(l) && u != "" && |l| > |u|
    ensures SplitLines(u) == [u] && ApplyFrom([u], [Hunk(1, [l], [])], 0) == Err(NoMatch)
  {
    SplitOne(u);
    StripsNothing(u);
    StripsNothing(l);
    DifferentLine(u, l);
    NowhereToApply([u], Hunk(1, [l], []));
  }

  /** A last line without a line break does not round-trip: the rendered diff of two such one-line
      texts never applies to the first. */
  lemma UnterminatedTextsDoNotRoundTrip(u: string, v: string, path: string)
    requires NoBreaks(u) && NoBreaks(v) && NoBreaks(path) && u != "" && v != ""
    ensures var groups := [Group([], [Change([u], [v])])];
      && Anchored(groups, 0)
      && SplitLines(u) == Original(groups, []) && SplitLines(v) == Updated(groups, [])
      && Applied(u, RenderUnifiedDiff(path, groups)) == Err(NoMatch)
  {
    var l := u + "+" + v;
    var text := RenderUnifiedDiff(path, [Group([], [Change([u], [v])])]);
    OneLineTexts(u, v);
    MergedText(u, v, path);
    MergedParse(l, path);
    assert MergedLines(u, v, path) == ["--- a/" + path + "\n", "+++ b/" + path + "\n"]
                                      + [HeaderText(0, 1, 0, 1) + "\n", ['-'] + l];
    SplitParses(text, MergedLines(u, v, path), [Hunk(1, [l], [])]);
    LongerLineIsNowhere(u, l);
  }

  lemma OneLineTexts(u: string, v: string)
    requires NoBreaks(u) && NoBreaks(v) && u != "" && v != ""
    ensures var groups := [Group([], [Change([u], [v])])];
      Anchored(groups, 0) && SplitLines(u) == Original(groups, []) && SplitLines(v) == Updated(groups, [])
  {
    SplitOne(u);
    SplitOne(v);
    SingleSides(u, v);
    assert [Group([], [Change([u], [v])])][1..] == [];
  }
}
