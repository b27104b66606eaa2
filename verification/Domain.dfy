/** The vocabulary shared by the queue, the store and the workers. */
module Domain {
  datatype Option<+T> = None | Some(value: T)

  type RunId = int      // GitHub workflow run id, the primary key of `analyses`
  type Token = nat      // an attempt token; the source draws a random UUID per attempt
  type WorkerId = nat   // workers are numbered; any number of them may exist
  type Instant = int    // a UTC clock reading

  datatype Status = Queued | Running | Completed | Failed

  datatype StageStatus = Started | Done | Broken

  /** The six pipeline stages, numbered in execution order. */
  type Stage = nat

  const COLLECTING: Stage := 0
  const PUBLISHING: Stage := 5

  datatype Request = Request(runId: RunId, repository: string, installationId: int, headSha: string)

  /** A queue entry.  Its JSON text is the receipt, so equal envelopes are equal receipts. */
  datatype Envelope = Envelope(request: Request, attempts: nat)

  /** `writer` is a history variable: the attempt that inserted the event row. */
  datatype Event = Event(stage: Stage, status: StageStatus, writer: Token)

  function Max(a: int, b: int): int { if a < b then b else a }

  function Min(a: int, b: int): int { if a < b then a else b }

  ghost function AnyOf<T>(s: set<T>): (x: T)
    requires s != {}
    ensures x in s
  {
    var y :| y in s;
    y
  }

  method Pick<T>(s: set<T>) returns (x: T)
    requires s != {}
    ensures x in s
  {
    x :| x in s;
  }

  function Map<T, U>(f: T -> U, s: seq<T>): (r: seq<U>)
    ensures |r| == |s| && forall i | 0 <= i < |s| :: r[i] == f(s[i])
  {
    if s == [] then [] else [f(s[0])] + Map(f, s[1..])
  }

  lemma MapAppend<T, U>(f: T -> U, a: seq<T>, b: seq<T>)
    ensures Map(f, a + b) == Map(f, a) + Map(f, b)
  {
  }
}
