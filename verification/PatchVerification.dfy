/** Which suggested patches are kept: `verify_patch_suggestions` and `_patch_rejection`. */
module PatchVerification {
  import opened Domain
  import opened Lines
  import opened Patching
  import opened PatchSoundness

  const MAX_PATCH_CHARS := 20000
  const MAX_CHANGED_LINES := 200

  datatype Source = Rule | Llm

  datatype Suggestion = Suggestion(
    description: string, file: Option<string>, patch: Option<string>, source: Option<Source>, verified: bool)

  /** The secret scanner, the policy patterns and the document parsers are parameters. */
  datatype Checks = Checks(
    redacts: string -> bool,
    violates: (Option<Source>, string, string) -> Option<string>,
    syntaxError: (string, string) -> Option<string>)

  datatype Reason =
    | UnknownFile | TooLong | WrongSize | OtherFile | Redacted
    | Violation(rule: string) | Unplaced(error: PatchError) | Malformed(message: string)

  predicate HasPatch(s: Suggestion) { s.patch.Some? && s.patch.value != "" }

  predicate IsFileHeader(line: string) { StartsWith(line, "+++") || StartsWith(line, "---") }

  predicate IsChange(line: string) { line != "" && line[0] in {'+', '-'} && !IsFileHeader(line) }

  function CountWhere(lines: seq<string>, keep: string -> bool): nat {
    if lines == [] then 0 else (if keep(lines[0]) then 1 else 0) + CountWhere(lines[1..], keep)
  }

  function HeaderPath(line: string): string { if |line| < 4 then "" else Strip(line[4..]) }

  predicate NamesFile(path: string, file: string) { path in {"a/" + file, "b/" + file, file} }

  predicate ChangesFewLines(patch: string) { 0 < CountWhere(SplitPlain(patch), IsChange) <= MAX_CHANGED_LINES }

  predicate NamesOtherFile(patch: string, file: string) {
    exists line <- SplitPlain(patch) :: IsFileHeader(line) && !NamesFile(HeaderPath(line), file)
  }

  function Text(patch: Option<string>): string { if patch.Some? then patch.value else "" }

  predicate InFiles(file: Option<string>, files: map<string, string>) {
    file.Some? && file.value != "" && file.value in files
  }

  /** The checks before the patch is applied, in the order they are made. */
  function EarlyRejection(
    file: Option<string>, patch: string, source: Option<Source>, files: map<string, string>, c: Checks)
    : Option<Reason>
  {
    if !InFiles(file, files) then Some(UnknownFile)
    else if |patch| > MAX_PATCH_CHARS then Some(TooLong)
    else if !ChangesFewLines(patch) then Some(WrongSize)
    else if NamesOtherFile(patch, file.value) then Some(OtherFile)
    else if c.redacts(patch) then Some(Redacted)
    else
      var violation := c.violates(source, file.value, patch);
      if violation.Some? then Some(Violation(violation.value)) else None
  }

  /** The check of what the patch makes of its file. */
  function LateRejection(updated: Result<string>, file: string, c: Checks): Option<Reason> {
    if updated.Err? then Some(Unplaced(updated.error))
    else
      var error := c.syntaxError(file, updated.value);
      if error.Some? then Some(Malformed(error.value)) else None
  }

  ghost function RejectionOf(
    file: Option<string>, patch: string, source: Option<Source>, files: map<string, string>, c: Checks)
    : Option<Reason>
  {
    var early := EarlyRejection(file, patch, source, files, c);
    if early.Some? || !InFiles(file, files) then early
    else LateRejection(Applied(files[file.value], patch), file.value, c)
  }

  ghost function Rejection(s: Suggestion, files: map<string, string>, c: Checks): Option<Reason> {
    RejectionOf(s.file, Text(s.patch), s.source, files, c)
  }

  method PatchRejection(s: Suggestion, files: map<string, string>, c: Checks) returns (reason: Option<Reason>)
    ensures reason == Rejection(s, files, c)
  {
    reason := EarlyRejection(s.file, Text(s.patch), s.source, files, c);
    if reason.None? {
      var updated := ApplyUnifiedDiff(files[s.file.value], Text(s.patch));
      reason := LateRejection(updated, s.file.value, c);
    }
  }

  // ---- the loop ----

  /** One suggestion is left alone, because it has no patch, or judged. */
  datatype Verdict = Unpatched | Verified | Rejected(reason: Reason)

  ghost function Judge(s: Suggestion, files: map<string, string>, c: Checks): Verdict {
    if !HasPatch(s) then Unpatched
    else
      var reason := Rejection(s, files, c);
      if reason.None? then Verified else Rejected(reason.value)
  }

  ghost function Verdicts(suggestions: seq<Suggestion>, files: map<string, string>, c: Checks): seq<Verdict> {
    seq(|suggestions|, i requires 0 <= i < |suggestions| => Judge(suggestions[i], files, c))
  }

  function Outcome(s: Suggestion, verdict: Verdict): Suggestion {
    match verdict
    case Unpatched => s
    case Verified => s.(verified := true)
    case Rejected(_) => s.(patch := None, verified := false)
  }

  /** The reasons of the first n verdicts that have one. */
  function Reasons(verdicts: seq<Verdict>, n: nat): seq<Reason>
    requires n <= |verdicts|
  {
    if n == 0 then []
    else Reasons(verdicts, n - 1) + if verdicts[n - 1].Rejected? then [verdicts[n - 1].reason] else []
  }

  /** The counters returned beside the diagnosis: one per source and result. */
  datatype Tally = Tally(source: Source, verified: bool)

  function SourceOf(s: Suggestion): Source { if s.source.Some? then s.source.value else Llm }

  predicate CountsFor(s: Suggestion, verdict: Verdict, key: Tally) {
    verdict != Unpatched && key == Tally(SourceOf(s), verdict.Verified?)
  }

  /** How many of the first n suggestions a counter stands for. */
  function Tallied(suggestions: seq<Suggestion>, verdicts: seq<Verdict>, n: nat, key: Tally): nat
    requires n <= |suggestions| == |verdicts|
  {
    if n == 0 then 0
    else Tallied(suggestions, verdicts, n - 1, key) + if CountsFor(suggestions[n - 1], verdicts[n - 1], key) then 1 else 0
  }

  function Get(outcomes: map<Tally, nat>, key: Tally): nat { if key in outcomes then outcomes[key] else 0 }

  function Bumped(outcomes: map<Tally, nat>, key: Tally): (r: map<Tally, nat>)
    ensures forall k :: Get(r, k) == Get(outcomes, k) + if k == key then 1 else 0
    ensures (forall k <- outcomes :: outcomes[k] > 0) ==> forall k <- r :: r[k] > 0
  {
    outcomes[key := Get(outcomes, key) + 1]
  }

  method JudgeOne(s: Suggestion, files: map<string, string>, c: Checks) returns (verdict: Verdict)
    ensures verdict == Judge(s, files, c)
  {
    verdict := Unpatched;
    if HasPatch(s) {
      var rejection := PatchRejection(s, files, c);
      verdict := if rejection.None? then Verified else Rejected(rejection.value);
    }
  }

  method VerifyPatchSuggestions(suggestions: seq<Suggestion>, files: map<string, string>, c: Checks)
    returns (result: seq<Suggestion>, notes: seq<Reason>, outcomes: map<Tally, nat>)
    ensures var verdicts := Verdicts(suggestions, files, c);
      && |result| == |suggestions|
      && (forall i | 0 <= i < |result| :: result[i] == Outcome(suggestions[i], verdicts[i]))
      && notes == Reasons(verdicts, |verdicts|)
      && (forall key :: Get(outcomes, key) == Tallied(suggestions, verdicts, |suggestions|, key))
    ensures forall key <- outcomes :: outcomes[key] > 0
  {
    result, notes, outcomes := VerifyAll(suggestions, files, c, Verdicts(suggestions, files, c));
  }

  method VerifyAll(suggestions: seq<Suggestion>, files: map<string, string>, c: Checks, ghost verdicts: seq<Verdict>)
    returns (result: seq<Suggestion>, notes: seq<Reason>, outcomes: map<Tally, nat>)
    requires |verdicts| == |suggestions|
    requires forall s, i | 0 <= i < |suggestions| && s == suggestions[i] :: Judge(s, files, c) == verdicts[i]
    ensures |result| == |suggestions|
    ensures forall i | 0 <= i < |result| :: result[i] == Outcome(suggestions[i], verdicts[i])
    ensures notes == Reasons(verdicts, |verdicts|)
    ensures forall key :: Get(outcomes, key) == Tallied(suggestions, verdicts, |suggestions|, key)
    ensures forall key <- outcomes :: outcomes[key] > 0
  {
    result, notes, outcomes := [], [], map[];
    for i := 0 to |suggestions|
      invariant |result| == i
      invariant forall k | 0 <= k < i :: result[k] == Outcome(suggestions[k], verdicts[k])
      invariant notes == Reasons(verdicts, i)
      invariant forall key :: Get(outcomes, key) == Tallied(suggestions, verdicts, i, key)
      invariant forall key <- outcomes :: outcomes[key] > 0
    {
      var s := suggestions[i];
      var verdict := JudgeOne(s, files, c);
      match verdict {
        case Unpatched =>
          result := result + [s];
        case Verified =>
          result := result + [s.(verified := true)];
          outcomes := Bumped(outcomes, Tally(SourceOf(s), true));
        case Rejected(reason) =>
          result := result + [s.(patch := None, verified := false)];
          notes := notes + [reason];
          outcomes := Bumped(outcomes, Tally(SourceOf(s), false));
      }
    }
  }

  // ---- what a kept patch means ----

  predicate StillParses(updated: Result<string>, file: string, c: Checks) {
    updated.Ok? && c.syntaxError(file, updated.value).None?
  }

  /** What a patch must be to be published: for a fetched file, within the size limits, naming no other
      file, without secrets or policy violations, and applying to a document that still parses. */
  ghost predicate Publishable(file: string, patch: string, source: Option<Source>, files: map<string, string>, c: Checks) {
    && file != "" && file in files
    && patch != "" && |patch| <= MAX_PATCH_CHARS
    && ChangesFewLines(patch)
    && !NamesOtherFile(patch, file)
    && !c.redacts(patch)
    && c.violates(source, file, patch).None?
    && StillParses(Applied(files[file], patch), file, c)
  }

  /** A suggestion leaves with a patch if and only if the patch is publishable, and it leaves marked as
      verified and otherwise unchanged. */
  lemma VerifiedExactlyWhen(s: Suggestion, files: map<string, string>, c: Checks)
    ensures var after := Outcome(s, Judge(s, files, c));
      && (HasPatch(after) <==>
            s.file.Some? && s.patch.Some? && Publishable(s.file.value, s.patch.value, s.source, files, c))
      && (HasPatch(after) ==> after == s.(verified := true))
  {
    if HasPatch(s) && s.file.Some? { AcceptedExactlyWhen(s.file.value, s.patch.value, s.source, files, c); }
  }

  lemma AcceptedExactlyWhen(
    file: string, patch: string, source: Option<Source>, files: map<string, string>, c: Checks)
    requires patch != ""
    ensures RejectionOf(Some(file), patch, source, files, c).None? <==> Publishable(file, patch, source, files, c)
  {
    EarlyExactlyWhen(file, patch, source, files, c);
    if file in files { LateExactlyWhen(Applied(files[file], patch), file, c); }
  }

  lemma EarlyExactlyWhen(
    file: string, patch: string, source: Option<Source>, files: map<string, string>, c: Checks)
    ensures EarlyRejection(Some(file), patch, source, files, c).None? <==>
      && file != "" && file in files
      && |patch| <= MAX_PATCH_CHARS
      && ChangesFewLines(patch)
      && !NamesOtherFile(patch, file)
      && !c.redacts(patch)
      && c.violates(source, file, patch).None?
  {
  }

  lemma LateExactlyWhen(updated: Result<string>, file: string, c: Checks)
    ensures LateRejection(updated, file, c).None? <==> StillParses(updated, file, c)
  {
  }

  /** Each hunk of a published patch lands at a place the locator's rule allows, and nothing else of the
      file changes. */
  lemma KeptPatchesApply(s: Suggestion, files: map<string, string>, c: Checks)
    requires HasPatch(Outcome(s, Judge(s, files, c)))
    ensures s.file.Some? && s.file.value in files && HasPatch(s)
    ensures var original, patch := files[s.file.value], s.patch.value;
      && Applied(original, patch).Ok? && HunksOf(patch).Ok?
      && exists places :: IsPatchedAt(original, HunksOf(patch).value, places, Applied(original, patch).value)
  {
    AppliedMeans(files[s.file.value], s.patch.value);
  }

  function Patched(suggestions: seq<Suggestion>, n: nat): nat
    requires n <= |suggestions|
  {
    if n == 0 then 0 else Patched(suggestions, n - 1) + if HasPatch(suggestions[n - 1]) then 1 else 0
  }

  /** Every suggested patch is counted once, and every rejected one leaves one note. */
  lemma EveryPatchIsCounted(suggestions: seq<Suggestion>, files: map<string, string>, c: Checks)
    ensures var verdicts, n := Verdicts(suggestions, files, c), |suggestions|;
      && Tallied(suggestions, verdicts, n, Tally(Rule, true)) + Tallied(suggestions, verdicts, n, Tally(Rule, false))
         + Tallied(suggestions, verdicts, n, Tally(Llm, true)) + Tallied(suggestions, verdicts, n, Tally(Llm, false))
         == Patched(suggestions, n)
      && |Reasons(verdicts, n)|
         == Tallied(suggestions, verdicts, n, Tally(Rule, false)) + Tallied(suggestions, verdicts, n, Tally(Llm, false))
  {
    CountsAddUp(suggestions, Verdicts(suggestions, files, c), |suggestions|);
  }

  lemma {:induction false} CountsAddUp(suggestions: seq<Suggestion>, verdicts: seq<Verdict>, n: nat)
    requires n <= |suggestions| == |verdicts|
    requires forall i | 0 <= i < |suggestions| :: HasPatch(suggestions[i]) <==> verdicts[i] != Unpatched
    ensures Tallied(suggestions, verdicts, n, Tally(Rule, true)) + Tallied(suggestions, verdicts, n, Tally(Rule, false))
          + Tallied(suggestions, verdicts, n, Tally(Llm, true)) + Tallied(suggestions, verdicts, n, Tally(Llm, false))
         == Patched(suggestions, n)
    ensures |Reasons(verdicts, n)|
         == Tallied(suggestions, verdicts, n, Tally(Rule, false)) + Tallied(suggestions, verdicts, n, Tally(Llm, false))
  {
    if n > 0 {
      CountsAddUp(suggestions, verdicts, n - 1);
      var source := SourceOf(suggestions[n - 1]);
      assert source.Rule? || source.Llm?;
    }
  }

  /** Verifying a whole result again changes no suggestion and adds no note. */
  lemma VerifyingIsFinal(suggestions: seq<Suggestion>, result: seq<Suggestion>, files: map<string, string>, c: Checks)
    requires |result| == |suggestions|
    requires forall i | 0 <= i < |result| :: result[i] == Outcome(suggestions[i], Verdicts(suggestions, files, c)[i])
    ensures var again := Verdicts(result, files, c);
      && (forall i | 0 <= i < |result| :: Outcome(result[i], again[i]) == result[i])
      && Reasons(again, |again|) == []
      && Tallied(result, again, |result|, Tally(Rule, false)) == Tallied(result, again, |result|, Tally(Llm, false)) == 0
  {
    var again := Verdicts(result, files, c);
    forall i | 0 <= i < |result|
      ensures Outcome(result[i], again[i]) == result[i] && !again[i].Rejected?
    {
      OutcomeIsFinal(suggestions[i], files, c);
    }
    NoneRejected(result, again, |result|);
  }

  lemma {:induction false} NoneRejected(suggestions: seq<Suggestion>, verdicts: seq<Verdict>, n: nat)
    requires n <= |suggestions| == |verdicts| && forall i | 0 <= i < |verdicts| :: !verdicts[i].Rejected?
    ensures Reasons(verdicts, n) == []
    ensures Tallied(suggestions, verdicts, n, Tally(Rule, false)) == Tallied(suggestions, verdicts, n, Tally(Llm, false)) == 0
  {
    if n > 0 { NoneRejected(suggestions, verdicts, n - 1); }
  }

  lemma OutcomeIsFinal(s: Suggestion, files: map<string, string>, c: Checks)
    ensures var once := Outcome(s, Judge(s, files, c));
      Outcome(once, Judge(once, files, c)) == once && !Judge(once, files, c).Rejected?
  {
    FlagIsIgnored(s, files, c);
  }

  lemma FlagIsIgnored(s: Suggestion, files: map<string, string>, c: Checks)
    ensures Rejection(s.(verified := true), files, c) == Rejection(s, files, c)
  {
  }
}
