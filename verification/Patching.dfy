/** The unified-diff engine: parse hunks, place them, apply them, and render an edit script. */
module Patching {
  import opened Domain
  import opened Lines

  datatype PatchError = NoHunkHeader | UnreadableLine | NoHunk | NoMatch | Ambiguous

  datatype Result<+T> = Ok(value: T) | Err(error: PatchError)

  datatype Hunk = Hunk(oldStart: nat, oldLines: seq<string>, newLines: seq<string>)

  // ---- text helpers ----

  /** `rstrip("\r\n")` */
  function StripNewline(s: string): string {
    if s != "" && s[|s| - 1] in {'\r', '\n'} then StripNewline(s[..|s| - 1]) else s
  }

  predicate IsBlank(s: string) { forall c <- s :: IsSpace(c) }

  predicate StartsWith(s: string, prefix: string) { prefix <= s }

  predicate IsDigit(c: char) { '0' <= c <= '9' }

  function DigitCount(s: string): (n: nat)
    ensures n <= |s| && forall i | 0 <= i < n :: IsDigit(s[i])
    ensures n < |s| ==> !IsDigit(s[n])
  {
    if s == "" || !IsDigit(s[0]) then 0 else 1 + DigitCount(s[1..])
  }

  function DigitValue(c: char): nat
    requires IsDigit(c)
  {
    c as int - '0' as int
  }

  function Number(digits: string): nat
    requires forall c <- digits :: IsDigit(c)
  {
    if digits == "" then 0
    else Number(digits[..|digits| - 1]) * 10 + DigitValue(digits[|digits| - 1])
  }

  function Decimal(n: nat): string {
    if n < 10 then [('0' as int + n) as char] else Decimal(n / 10) + [('0' as int + n % 10) as char]
  }

  // ---- hunk headers: ^@@ -(\d+)(?:,(\d+))? \+(\d+)(?:,(\d+))? @@ ----

  /** What follows one line range, if the text starts with one. */
  function AfterRange(s: string): Option<string> {
    var n := DigitCount(s);
    if n == 0 then None
    else if n < |s| && s[n] == ',' then
      var m := DigitCount(s[n + 1..]);
      if m == 0 then None else Some(s[n + 1 + m..])
    else Some(s[n..])
  }

  function MatchHeader(line: string): Option<nat> {
    if !StartsWith(line, "@@ -") then None
    else
      var text := line[4..];
      var rest := AfterRange(text);
      if rest.None? || !StartsWith(rest.value, " +") then None
      else
        var tail := AfterRange(rest.value[2..]);
        if tail.None? || !StartsWith(tail.value, " @@") then None
        else Some(Number(text[..DigitCount(text)]))
  }

  // ---- parsing ----

  function AddLine(hunks: seq<Hunk>, marker: char, body: string): Result<seq<Hunk>>
    requires hunks != []
  {
    var current := hunks[|hunks| - 1];
    var done := hunks[..|hunks| - 1];
    match marker
    case ' ' => Ok(done + [current.(oldLines := current.oldLines + [body], newLines := current.newLines + [body])])
    case '-' => Ok(done + [current.(oldLines := current.oldLines + [body])])
    case '+' => Ok(done + [current.(newLines := current.newLines + [body])])
    case _ => Err(UnreadableLine)
  }

  /** A patch line as the parser sees it: a hunk header, or a line with a marker and a body.
      `ignorable` lines are skipped before the first hunk, `comment` lines inside a hunk. */
  datatype PatchLine = Header(oldStart: nat) | Plain(ignorable: bool, comment: bool, marker: char, body: string)

  predicate Ignorable(line: string) {
    StartsWith(line, "---") || StartsWith(line, "+++") || StartsWith(line, "diff ")
    || StartsWith(line, "index ") || IsBlank(line)
  }

  function Classify(raw: string): PatchLine {
    var line := StripNewline(raw);
    var header := MatchHeader(line);
    if header.Some? then Header(header.value)
    else if line == "" then Plain(true, false, ' ', "\n")
    else Plain(Ignorable(line), StartsWith(line, "\\"), line[0], raw[1..])
  }

  function Tokens(lines: seq<string>): seq<PatchLine> { Map(Classify, lines) }

  function ParseToken(hunks: seq<Hunk>, token: PatchLine): Result<seq<Hunk>> {
    match token
    case Header(oldStart) => Ok(hunks + [Hunk(oldStart, [], [])])
    case Plain(ignorable, comment, marker, body) =>
      if hunks == [] then (if ignorable then Ok(hunks) else Err(NoHunkHeader))
      else if comment then Ok(hunks)
      else AddLine(hunks, marker, body)
  }

  function ParseTokens(hunks: seq<Hunk>, tokens: seq<PatchLine>): Result<seq<Hunk>>
    decreases |tokens|
  {
    if tokens == [] then Ok(hunks)
    else
      var next := ParseToken(hunks, tokens[0]);
      if next.Err? then next else ParseTokens(next.value, tokens[1..])
  }

  function HunksOf(patch: string): Result<seq<Hunk>> {
    var parsed := ParseTokens([], Tokens(SplitLines(patch)));
    if parsed.Ok? && parsed.value == [] then Err(NoHunk) else parsed
  }

  lemma {:induction false} ParseTokensAppend(hunks: seq<Hunk>, a: seq<PatchLine>, b: seq<PatchLine>)
    ensures ParseTokens(hunks, a + b) ==
      var first := ParseTokens(hunks, a); if first.Err? then first else ParseTokens(first.value, b)
    decreases |a|
  {
    if a == [] {
      assert a + b == b;
    } else {
      assert (a + b)[1..] == a[1..] + b;
      var next := ParseToken(hunks, a[0]);
      if next.Ok? { ParseTokensAppend(next.value, a[1..], b); }
    }
  }

  method ParseHunks(patch: string) returns (result: Result<seq<Hunk>>)
    ensures result == HunksOf(patch)
  {
    var hunks: seq<Hunk> := [];
    var lines := SplitLines(patch);
    for i := 0 to |lines|
      invariant ParseTokens([], Tokens(lines)) == ParseTokens(hunks, Tokens(lines)[i..])
    {
      assert Tokens(lines)[i..][1..] == Tokens(lines)[i + 1..];
      var raw := lines[i];
      var line := StripNewline(raw);
      var header := MatchHeader(line);
      if header.Some? {
        hunks := hunks + [Hunk(header.value, [], [])];
        continue;
      }
      if hunks == [] {
        if !Ignorable(line) {
          return Err(NoHunkHeader);
        }
        continue;
      }
      if StartsWith(line, "\\") {
        continue;
      }
      var marker, body := ' ', "\n";
      if line != "" {
        marker, body := line[0], raw[1..];
      }
      var current := hunks[|hunks| - 1];
      if marker == ' ' {
        current := Hunk(current.oldStart, current.oldLines + [body], current.newLines + [body]);
      } else if marker == '-' {
        current := Hunk(current.oldStart, current.oldLines + [body], current.newLines);
      } else if marker == '+' {
        current := Hunk(current.oldStart, current.oldLines, current.newLines + [body]);
      } else {
        return Err(UnreadableLine);
      }
      hunks := hunks[..|hunks| - 1] + [current];
    }
    result := if hunks == [] then Err(NoHunk) else Ok(hunks);
  }

  // ---- placing and applying ----

  /** `lines[start:end]`, with Python's clamping of both ends. */
  function Slice(lines: seq<string>, start: nat, end: nat): seq<string> {
    var e := Min(end, |lines|);
    lines[Min(start, e)..e]
  }

  predicate SameLines(a: seq<string>, b: seq<string>) {
    |a| == |b| && forall i | 0 <= i < |a| :: StripNewline(a[i]) == StripNewline(b[i])
  }

  predicate MatchesAt(lines: seq<string>, hunk: Hunk, start: nat) {
    SameLines(Slice(lines, start, start + |hunk.oldLines|), hunk.oldLines)
  }

  function Stated(hunk: Hunk): nat { if hunk.oldStart > 0 then hunk.oldStart - 1 else 0 }

  /** `start` is in `range(cursor, len(lines) - size + 1)` and the hunk matches there. */
  predicate IsMatch(lines: seq<string>, hunk: Hunk, cursor: nat, start: nat) {
    cursor <= start && start + |hunk.oldLines| <= |lines| && MatchesAt(lines, hunk, start)
  }

  ghost predicate OnlyMatch(lines: seq<string>, hunk: Hunk, cursor: nat, start: nat) {
    IsMatch(lines, hunk, cursor, start) && forall other: nat | IsMatch(lines, hunk, cursor, other) :: other == start
  }

  predicate StatedFits(lines: seq<string>, hunk: Hunk, cursor: nat) {
    Stated(hunk) >= cursor && MatchesAt(lines, hunk, Stated(hunk))
  }

  /** The stated position if it matches, else the only match at or after the cursor. */
  ghost function Locate(lines: seq<string>, hunk: Hunk, cursor: nat): Result<nat> {
    if StatedFits(lines, hunk, cursor) then Ok(Stated(hunk))
    else if exists start: nat :: OnlyMatch(lines, hunk, cursor, start) then
      var start: nat :| OnlyMatch(lines, hunk, cursor, start);
      Ok(start)
    else if exists start: nat :: IsMatch(lines, hunk, cursor, start) then Err(Ambiguous)
    else Err(NoMatch)
  }

  method MatchingStarts(lines: seq<string>, hunk: Hunk, cursor: nat) returns (candidates: seq<nat>)
    ensures forall c: nat :: c in candidates <==> IsMatch(lines, hunk, cursor, c)
    ensures forall i, j | 0 <= i < j < |candidates| :: candidates[i] < candidates[j]
  {
    candidates := [];
    var start := cursor;
    while start + |hunk.oldLines| <= |lines|
      invariant cursor <= start
      invariant forall c: nat :: c in candidates <==> IsMatch(lines, hunk, cursor, c) && c < start
      invariant forall i | 0 <= i < |candidates| :: candidates[i] < start
      invariant forall i, j | 0 <= i < j < |candidates| :: candidates[i] < candidates[j]
    {
      var fits := MatchesAt(lines, hunk, start);
      assert fits <==> IsMatch(lines, hunk, cursor, start);
      if fits {
        candidates := candidates + [start];
      }
      start := start + 1;
    }
  }

  method LocateHunk(lines: seq<string>, hunk: Hunk, cursor: nat) returns (result: Result<nat>)
    ensures result == Locate(lines, hunk, cursor)
  {
    var stated := if hunk.oldStart > 0 then hunk.oldStart - 1 else 0;
    if stated >= cursor && MatchesAt(lines, hunk, stated) {
      return Ok(stated);
    }
    var candidates := MatchingStarts(lines, hunk, cursor);
    if |candidates| == 1 {
      assert candidates[0] in candidates;
      assert OnlyMatch(lines, hunk, cursor, candidates[0]);
      result := Ok(candidates[0]);
    } else if candidates == [] {
      result := Err(NoMatch);
    } else {
      assert candidates[0] in candidates && candidates[1] in candidates;
      result := Err(Ambiguous);
    }
  }

  function Prefixed(done: seq<string>, rest: Result<seq<string>>): Result<seq<string>> {
    if rest.Err? then rest else Ok(done + rest.value)
  }

  ghost function ApplyFrom(lines: seq<string>, hunks: seq<Hunk>, cursor: nat): Result<seq<string>>
    decreases |hunks|
  {
    if hunks == [] then Ok(Slice(lines, cursor, |lines|))
    else
      var place := Locate(lines, hunks[0], cursor);
      if place.Err? then Err(place.error)
      else
        Prefixed(Slice(lines, cursor, place.value) + hunks[0].newLines,
                 ApplyFrom(lines, hunks[1..], place.value + |hunks[0].oldLines|))
  }

  lemma PrefixedTwice(done: seq<string>, kept: seq<string>, added: seq<string>, rest: Result<seq<string>>)
    ensures Prefixed(done + kept + added, rest) == Prefixed(done, Prefixed(kept + added, rest))
  {
    if rest.Ok? {
      assert done + kept + added + rest.value == done + (kept + added + rest.value);
    }
  }

  lemma ApplyOne(lines: seq<string>, hunks: seq<Hunk>, i: nat, done: seq<string>, cursor: nat)
    requires i < |hunks|
    ensures Prefixed(done, ApplyFrom(lines, hunks[i..], cursor)) ==
      var place := Locate(lines, hunks[i], cursor);
      if place.Err? then Err(place.error)
      else Prefixed(done + Slice(lines, cursor, place.value) + hunks[i].newLines,
                    ApplyFrom(lines, hunks[i + 1..], place.value + |hunks[i].oldLines|))
  {
    assert hunks[i..][1..] == hunks[i + 1..];
    var place := Locate(lines, hunks[i], cursor);
    if place.Ok? {
      var kept := Slice(lines, cursor, place.value);
      var rest := ApplyFrom(lines, hunks[i + 1..], place.value + |hunks[i].oldLines|);
      PrefixedTwice(done, kept, hunks[i].newLines, rest);
    }
  }

  method ApplyHunks(lines: seq<string>, hunks: seq<Hunk>) returns (result: Result<seq<string>>)
    ensures result == ApplyFrom(lines, hunks, 0)
  {
    var done: seq<string> := [];
    var cursor: nat := 0;
    assert hunks[0..] == hunks;
    assert forall rest: seq<string> :: done + rest == rest;
    for i := 0 to |hunks|
      invariant ApplyFrom(lines, hunks, 0) == Prefixed(done, ApplyFrom(lines, hunks[i..], cursor))
    {
      ApplyOne(lines, hunks, i, done, cursor);
      var start := LocateHunk(lines, hunks[i], cursor);
      if start.Err? {
        return Err(start.error);
      }
      done := done + Slice(lines, cursor, start.value);
      done := done + hunks[i].newLines;
      cursor := start.value + |hunks[i].oldLines|;
    }
    result := Ok(done + Slice(lines, cursor, |lines|));
  }

  method ApplyUnifiedDiff(original: string, patch: string) returns (result: Result<string>)
    ensures result == Applied(original, patch)
  {
    var hunks := ParseHunks(patch);
    if hunks.Err? {
      return Err(hunks.error);
    }
    var lines := ApplyHunks(SplitLines(original), hunks.value);
    result := if lines.Err? then Err(lines.error) else Ok(Join(lines.value));
  }

  ghost function Applied(original: string, patch: string): Result<string> {
    var hunks := HunksOf(patch);
    if hunks.Err? then Err(hunks.error)
    else
      var result := ApplyFrom(SplitLines(original), hunks.value, 0);
      if result.Err? then Err(result.error) else Ok(Join(result.value))
  }
}
