/** Python's `splitlines(keepends=True)` and `"".join`, on code points. */
module Lines {
  import opened Domain

  predicate IsBoundary(c: char) {
    c in {'\n', '\r', '\U{0B}', '\U{0C}', '\U{1C}', '\U{1D}', '\U{1E}', '\U{85}', '\U{2028}', '\U{2029}'}
  }

  /** Length of the first line, its line break included; "\r\n" is one break. */
  function FirstLine(s: string): (n: nat)
    ensures n <= |s| && (s != "" ==> n > 0)
  {
    if s == "" then 0
    else if s[0] == '\r' && |s| > 1 && s[1] == '\n' then 2
    else if IsBoundary(s[0]) then 1
    else 1 + FirstLine(s[1..])
  }

  function SplitLines(s: string): seq<string> {
    if s == "" then [] else [s[..FirstLine(s)]] + SplitLines(s[FirstLine(s)..])
  }

  function Join(lines: seq<string>): string {
    if lines == [] then "" else lines[0] + Join(lines[1..])
  }

  /** A piece of text that `splitlines` does not divide. */
  predicate IsLine(l: string) { l != "" && FirstLine(l) == |l| }

  predicate Terminated(l: string) { IsLine(l) && IsBoundary(l[|l| - 1]) }

  /** Lines that stay apart when joined: every line but the last ends in a line break. */
  predicate Separate(lines: seq<string>) {
    forall i | 0 <= i < |lines| - 1 :: Terminated(lines[i])
  }

  lemma {:induction false} JoinSplit(s: string)
    ensures Join(SplitLines(s)) == s
    decreases |s|
  {
    if s != "" { JoinSplit(s[FirstLine(s)..]); }
  }

  lemma {:induction false} JoinAppend(a: seq<string>, b: seq<string>)
    ensures Join(a + b) == Join(a) + Join(b)
  {
    if a == [] {
      assert a + b == b;
    } else {
      JoinAppend(a[1..], b);
      assert (a + b)[1..] == a[1..] + b;
    }
  }

  /** "\r" before "\n" is half of a line break. */
  predicate Meets(l: string, rest: string) {
    l != "" && rest != "" && l[|l| - 1] == '\r' && rest[0] == '\n'
  }

  lemma {:induction false} FirstLineStops(l: string, rest: string)
    requires Terminated(l) && !Meets(l, rest)
    ensures FirstLine(l + rest) == |l|
    decreases |l|
  {
    if |l| == 1 {
    } else if l[0] == '\r' && l[1] == '\n' {
    } else {
      assert (l + rest)[1..] == l[1..] + rest;
      FirstLineStops(l[1..], rest);
    }
  }

  lemma {:induction false} FirstLineRunsOn(l: string, rest: string)
    requires IsLine(l) && !IsBoundary(l[|l| - 1]) && rest != ""
    ensures FirstLine(l + rest) > |l|
    decreases |l|
  {
    assert (l + rest)[1..] == l[1..] + rest;
    if |l| > 1 { FirstLineRunsOn(l[1..], rest); }
  }

  lemma {:induction false} FirstLineIsLine(s: string)
    requires s != ""
    ensures IsLine(s[..FirstLine(s)])
    ensures FirstLine(s) < |s| ==> Terminated(s[..FirstLine(s)])
    decreases |s|
  {
    var n := FirstLine(s);
    if !(s[0] == '\r' && |s| > 1 && s[1] == '\n') && !IsBoundary(s[0]) && |s| > 1 {
      FirstLineIsLine(s[1..]);
      assert s[..n][1..] == s[1..][..n - 1];
    }
  }

  lemma {:induction false} SplitGivesLines(s: string)
    ensures forall l <- SplitLines(s) :: IsLine(l)
    ensures Separate(SplitLines(s))
    decreases |s|
  {
    if s != "" {
      FirstLineIsLine(s);
      SplitGivesLines(s[FirstLine(s)..]);
    }
  }

  /** No line begins with the second half of a "\r\n" that the line before it began. */
  predicate Unmixed(lines: seq<string>) {
    forall i | 0 <= i < |lines| - 1 :: !Meets(lines[i], lines[i + 1])
  }

  /** How the first line of a text comes off again. */
  lemma SplitFirst(first: string, rest: string)
    requires IsLine(first) && !Meets(first, rest)
    ensures rest == "" || Terminated(first) ==> SplitLines(first + rest) == [first] + SplitLines(rest)
    ensures rest != "" && !Terminated(first) ==> SplitLines(first + rest)[0] != first
  {
    if rest == "" {
      assert first + rest == first;
    } else if Terminated(first) {
      FirstLineStops(first, rest);
      assert (first + rest)[|first|..] == rest;
    } else {
      FirstLineRunsOn(first, rest);
    }
  }

  /** Joined lines split back into themselves exactly when they are separate. */
  lemma {:induction false} SplitJoin(lines: seq<string>)
    requires (forall l <- lines :: IsLine(l)) && Unmixed(lines)
    ensures SplitLines(Join(lines)) == lines <==> Separate(lines)
    decreases |lines|
  {
    if lines != [] {
      var first, rest := lines[0], lines[1..];
      UnmixedTail(lines);
      SplitJoin(rest);
      if rest != [] {
        assert IsLine(rest[0]) && !Meets(first, rest[0]);
        assert Join(rest)[0] == rest[0][0];
      }
      SplitFirst(first, Join(rest));
      SeparateStep(lines);
      assert lines == [first] + rest;
    }
  }

  lemma SeparateStep(lines: seq<string>)
    requires lines != []
    ensures Separate(lines) <==> (|lines| > 1 ==> Terminated(lines[0])) && Separate(lines[1..])
  {
    forall i | 1 <= i < |lines| - 1
      ensures lines[i] == lines[1..][i - 1]
    {
    }
  }

  lemma UnmixedTail(lines: seq<string>)
    requires lines != [] && Unmixed(lines)
    ensures Unmixed(lines[1..])
  {
    forall i | 0 <= i < |lines[1..]| - 1
      ensures !Meets(lines[1..][i], lines[1..][i + 1])
    {
      var j := i + 1;
      assert !Meets(lines[j], lines[j + 1]);
    }
  }

  /** A text that is empty or ends in a line break consists of terminated lines. */
  lemma {:induction false} TerminatedText(s: string)
    requires s == "" || IsBoundary(s[|s| - 1])
    ensures forall l <- SplitLines(s) :: Terminated(l)
    decreases |s|
  {
    if s != "" {
      FirstLineIsLine(s);
      TerminatedText(s[FirstLine(s)..]);
    }
  }

  predicate NoBreaks(s: string) { forall c <- s :: !IsBoundary(c) }

  lemma {:induction false} BreaklessLine(s: string)
    requires NoBreaks(s) && s != ""
    ensures IsLine(s)
  {
    assert s[|s| - 1] in s;
    if |s| > 1 { BreaklessLine(s[1..]); }
  }

  lemma SplitOne(u: string)
    requires NoBreaks(u) && u != ""
    ensures SplitLines(u) == [u]
  {
    BreaklessLine(u);
    assert u[..|u|] == u && u[|u|..] == "";
  }

  lemma {:induction false} TextLine(text: string)
    requires NoBreaks(text)
    ensures Terminated(text + "\n")
  {
    if text != "" {
      TextLine(text[1..]);
      assert (text + "\n")[1..] == text[1..] + "\n";
    }
  }

  // ---- plain lines and whitespace ----

  /** A line without its break. */
  function Bare(line: string): string {
    var n := |line|;
    if n > 1 && line[n - 2..] == "\r\n" then line[..n - 2]
    else if n > 0 && IsBoundary(line[n - 1]) then line[..n - 1]
    else line
  }

  /** `splitlines()` */
  function SplitPlain(log: string): seq<string> { Map(Bare, SplitLines(log)) }

  predicate IsSpace(c: char) {
    || '\t' <= c <= '\r' || '\U{1C}' <= c <= ' '
    || c in {'\U{85}', '\U{A0}', '\U{1680}', '\U{2028}', '\U{2029}', '\U{202F}', '\U{205F}', '\U{3000}'}
    || '\U{2000}' <= c <= '\U{200A}'
  }

  /** `strip()` with a set of characters */
  function Trim(s: string, drop: char -> bool): string
    decreases |s|
  {
    if s == "" then ""
    else if drop(s[0]) then Trim(s[1..], drop)
    else if drop(s[|s| - 1]) then Trim(s[..|s| - 1], drop)
    else s
  }

  function Strip(s: string): string { Trim(s, IsSpace) }

  lemma BareBreakless(a: string)
    requires NoBreaks(a)
    ensures Bare(a + "\n") == a && Bare(a) == a
  {
    var line, n := a + "\n", |a|;
    if a != "" {
      assert a[n - 1] in a;
      assert line[|line| - 2..][0] == a[n - 1] && (n > 1 ==> a[n - 2..][1] == a[n - 1]);
    }
  }

  /** Two lines of text, without their break. */
  lemma SplitTwo(a: string, b: string)
    requires NoBreaks(a) && NoBreaks(b)
    ensures SplitPlain(a + "\n" + b) == if b == "" then [a] else [a, b]
  {
    var first := a + "\n";
    TextLine(a);
    FirstLineStops(first, b);
    assert (first + b)[..|first|] == first && (first + b)[|first|..] == b;
    assert SplitLines(first + b) == [first] + SplitLines(b);
    BareBreakless(a);
    if b != "" {
      SplitOne(b);
      BareBreakless(b);
    }
  }

  function Count(s: string, c: char): nat {
    if s == "" then 0 else (if s[0] == c then 1 else 0) + Count(s[1..], c)
  }

  lemma {:induction false} CountAppend(a: string, b: string, c: char)
    ensures Count(a + b, c) == Count(a, c) + Count(b, c)
  {
    if a == "" {
      assert a + b == b;
    } else {
      assert (a + b)[1..] == a[1..] + b;
      CountAppend(a[1..], b, c);
    }
  }

  /** Only the end of a line can be a break. */
  lemma {:induction false} OnlyTheEndBreaks(l: string)
    requires IsLine(l)
    ensures forall i | 0 <= i < |l| - 1 :: IsBoundary(l[i]) ==> i == |l| - 2 && l[i] == '\r' && l[i + 1] == '\n'
    decreases |l|
  {
    if !(l[0] == '\r' && |l| > 1 && l[1] == '\n') && !IsBoundary(l[0]) && |l| > 1 {
      OnlyTheEndBreaks(l[1..]);
      forall i | 1 <= i < |l| - 1
        ensures IsBoundary(l[i]) ==> i == |l| - 2 && l[i] == '\r' && l[i + 1] == '\n'
      {
        assert l[1..][i - 1] == l[i];
      }
    }
  }

  lemma BareLineUnbroken(l: string)
    requires IsLine(l)
    ensures NoBreaks(Bare(l))
  {
    OnlyTheEndBreaks(l);
  }

  lemma PlainLinesUnbroken(text: string)
    ensures forall l <- SplitPlain(text) :: NoBreaks(l)
  {
    SplitGivesLines(text);
    forall i | 0 <= i < |SplitPlain(text)|
      ensures NoBreaks(SplitPlain(text)[i])
    {
      assert SplitLines(text)[i] in SplitLines(text);
      BareLineUnbroken(SplitLines(text)[i]);
    }
  }
}
