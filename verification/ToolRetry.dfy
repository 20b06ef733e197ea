/** The backend and retry loops of a tool run (`run_with_evidence` in app/engine/tool_wrapper.py).

    `world` gives what attempt a on the b-th available backend would do. */
module ToolRetry {
  import opened Wrappers

  type Backend = string

  datatype Output = Output(findings: string, backend: Backend)

  /** How one attempt ends: a result, a retryable failure (with the captured output when the tool ran), or a
      cancellation or unexpected exception, which leaves both loops at once. */
  datatype Outcome = Done(output: string) | Retryable(error: string, captured: Option<string>) | Fatal(error: string)

  datatype Attempted = Attempted(backend: Backend, error: string)

  datatype Report = Report(output: string, backend: Backend, attempted: seq<Attempted>)

  datatype Error =
    | Unavailable
    | Propagated(error: string)
    | Exhausted(lastError: Option<string>, captured: Option<string>, attempted: seq<Attempted>)

  type World = (nat, nat) -> Outcome

  /** One call of a backend. */
  datatype Call = Call(backend: nat, attempt: nat)

  /** Attempts per backend: `range(retries + 1)`. */
  function Tries(retries: int): nat { if retries < 0 then 0 else retries + 1 }

  function CallsOn(b: nat, n: nat): seq<Call> {
    if n == 0 then [] else CallsOn(b, n - 1) + [Call(b, n - 1)]
  }

  /** Every attempt on the first m backends, in order. */
  function AllCalls(m: nat, tries: nat): seq<Call> {
    if m == 0 then [] else AllCalls(m - 1, tries) + CallsOn(m - 1, tries)
  }

  /** Every attempt before attempt a on backend b, the earlier backends' included, failed retryably. */
  ghost predicate AllRetryable(world: World, b: nat, a: nat, tries: nat) {
    && (forall c: nat, d: nat | c < b && d < tries :: world(c, d).Retryable?)
    && (forall d: nat | d < a :: world(b, d).Retryable?)
  }

  /** The newest output captured by the first n attempts on a backend. */
  function CapturedOn(world: World, b: nat, n: nat): Option<string> {
    if n == 0 then None
    else
      var o := world(b, n - 1);
      if o.Retryable? && o.captured.Some? then o.captured else CapturedOn(world, b, n - 1)
  }

  /** The newest output captured on the first m backends. */
  function Captured(world: World, m: nat, tries: nat): Option<string> {
    if m == 0 then None
    else
      var newest := CapturedOn(world, m - 1, tries);
      if newest.Some? then newest else Captured(world, m - 1, tries)
  }

  function ErrorOf(o: Outcome): string {
    if o.Retryable? || o.Fatal? then o.error else ""
  }

  /** The attempted list after the first m backends were given up, each with the failure of its last try. */
  function GivenUp(world: World, backends: seq<Backend>, m: nat, tries: nat): seq<Attempted>
    requires m <= |backends|
  {
    if m == 0 || tries == 0 then []
    else GivenUp(world, backends, m - 1, tries) + [Attempted(backends[m - 1], ErrorOf(world(m - 1, tries - 1)))]
  }

  /** Attempt a on backend b is the first that does not fail retryably. */
  ghost predicate FirstDecisive(world: World, b: nat, a: nat, tries: nat) {
    a < tries && AllRetryable(world, b, a, tries) && !world(b, a).Retryable?
  }

  /** The retry loop on one backend: it stops at the first attempt that does not fail retryably, if there is one. */
  method TryBackend(b: nat, retries: int, world: World)
    returns (stoppedAt: Option<nat>, calls: seq<Call>, captured: Option<string>, lastError: Option<string>)
    ensures stoppedAt.Some? ==>
              && stoppedAt.value < Tries(retries) && !world(b, stoppedAt.value).Retryable?
              && (forall d: nat | d < stoppedAt.value :: world(b, d).Retryable?)
              && calls == CallsOn(b, stoppedAt.value + 1)
    ensures stoppedAt.None? ==>
              && (forall d: nat | d < Tries(retries) :: world(b, d).Retryable?)
              && calls == CallsOn(b, Tries(retries))
              && captured == CapturedOn(world, b, Tries(retries))
              && lastError == if Tries(retries) == 0 then None else Some(ErrorOf(world(b, Tries(retries) - 1)))
  {
    calls, captured, lastError := [], None, None;
    for a := 0 to Tries(retries)
      invariant forall d: nat | d < a :: world(b, d).Retryable?
      invariant calls == CallsOn(b, a)
      invariant captured == CapturedOn(world, b, a)
      invariant lastError == if a == 0 then None else Some(ErrorOf(world(b, a - 1)))
    {
      var outcome := world(b, a);
      calls := calls + [Call(b, a)];
      if !outcome.Retryable? { return Some(a), calls, captured, lastError; }
      lastError := Some(outcome.error);
      if outcome.captured.Some? { captured := outcome.captured; }
    }
    stoppedAt := None;
  }

  // ----- What the loops did, without the functions they are specified by -----

  /** The calls as they follow each other: attempts on one backend up to the last, then the next backend. */
  ghost predicate InOrder(calls: seq<Call>, retries: int) {
    && (calls != [] ==> calls[0] == Call(0, 0))
    && forall k | 0 <= k < |calls| - 1 ::
         calls[k + 1] == if calls[k].attempt < retries then Call(calls[k].backend, calls[k].attempt + 1)
                         else Call(calls[k].backend + 1, 0)
  }

  lemma OneMoreCall(calls: seq<Call>, retries: int, next: Call)
    requires InOrder(calls, retries)
    requires if calls == [] then next == Call(0, 0)
             else var last := calls[|calls| - 1];
                  next == if last.attempt < retries then Call(last.backend, last.attempt + 1) else Call(last.backend + 1, 0)
    ensures InOrder(calls + [next], retries)
  {
  }

  /** The calls up to the first n attempts on the m-th backend are in order, and end so. */
  ghost predicate Follows(calls: seq<Call>, m: nat, n: nat, retries: nat) {
    && InOrder(calls, retries)
    && (calls == [] <==> m == 0 && n == 0)
    && (n > 0 ==> calls != [] && calls[|calls| - 1] == Call(m, n - 1))
    && (n == 0 && m > 0 ==> calls != [] && calls[|calls| - 1] == Call(m - 1, retries))
  }

  lemma {:induction false} CallsFollow(m: nat, n: nat, retries: nat)
    requires n <= retries + 1
    ensures Follows(AllCalls(m, retries + 1) + CallsOn(m, n), m, n, retries)
    decreases m, n
  {
    var calls := AllCalls(m, retries + 1) + CallsOn(m, n);
    if n > 0 {
      var front := AllCalls(m, retries + 1) + CallsOn(m, n - 1);
      CallsFollow(m, n - 1, retries);
      assert calls == front + [Call(m, n - 1)];
      OneMoreCall(front, retries, Call(m, n - 1));
    } else if m > 0 {
      CallsFollow(m - 1, retries + 1, retries);
      assert calls == AllCalls(m - 1, retries + 1) + CallsOn(m - 1, retries + 1);
    }
  }

  lemma {:induction false} NoCalls(m: nat)
    ensures AllCalls(m, 0) == []
  {
    if m > 0 { NoCalls(m - 1); }
  }

  /** The first m backends are reported in order, each with the error of its last attempt. */
  ghost predicate Reported(world: World, backends: seq<Backend>, m: nat, retries: int, attempted: seq<Attempted>) {
    if retries < 0 then attempted == []
    else |attempted| == m <= |backends| && forall i | 0 <= i < m ::
           world(i, retries).Retryable? && attempted[i] == Attempted(backends[i], world(i, retries).error)
  }

  lemma {:induction false} GivenUpReported(world: World, backends: seq<Backend>, m: nat, retries: int)
    requires m <= |backends| && AllRetryable(world, m, 0, Tries(retries))
    ensures Reported(world, backends, m, retries, GivenUp(world, backends, m, Tries(retries)))
  {
    if m > 0 { GivenUpReported(world, backends, m - 1, retries); }
  }

  ghost predicate Captures(world: World, b: nat, a: nat) {
    world(b, a).Retryable? && world(b, a).captured.Some?
  }

  /** The attempt is the newest on the first m backends that captured an output. */
  ghost predicate NewestCapture(world: World, m: nat, retries: int, b: nat, a: nat) {
    && b < m && a <= retries && Captures(world, b, a)
    && forall c: nat, d: nat | c < m && d <= retries && Captures(world, c, d) :: c < b || (c == b && d <= a)
  }

  /** Among the first n attempts on a backend. */
  ghost predicate NewestOn(world: World, b: nat, n: nat, a: nat) {
    a < n && Captures(world, b, a) && forall d: nat | a < d < n :: !Captures(world, b, d)
  }

  lemma {:induction false} CapturedOnIs(world: World, b: nat, n: nat)
    ensures CapturedOn(world, b, n).None? ==> forall d: nat | d < n :: !Captures(world, b, d)
    ensures CapturedOn(world, b, n).Some? ==>
              exists a: nat :: NewestOn(world, b, n, a) && world(b, a).captured == CapturedOn(world, b, n)
  {
    if n > 0 {
      CapturedOnIs(world, b, n - 1);
      if Captures(world, b, n - 1) {
        assert NewestOn(world, b, n, n - 1);
      } else if CapturedOn(world, b, n).Some? {
        var a: nat :| NewestOn(world, b, n - 1, a) && world(b, a).captured == CapturedOn(world, b, n - 1);
        assert NewestOn(world, b, n, a);
      }
    }
  }

  /** What is reported as captured was captured by the newest attempt that captured anything. */
  ghost predicate CapturedLast(world: World, m: nat, retries: int, captured: Option<string>) {
    && (captured.None? ==> forall b: nat, a: nat | b < m && a <= retries :: !Captures(world, b, a))
    && (captured.Some? ==> exists b: nat, a: nat :: NewestCapture(world, m, retries, b, a) && world(b, a).captured == captured)
  }

  lemma {:induction false} CapturedIs(world: World, m: nat, retries: int)
    ensures CapturedLast(world, m, retries, Captured(world, m, Tries(retries)))
  {
    if m > 0 {
      CapturedIs(world, m - 1, retries);
      CapturedOnIs(world, m - 1, Tries(retries));
      var newest := CapturedOn(world, m - 1, Tries(retries));
      if newest.Some? {
        var a: nat :| NewestOn(world, m - 1, Tries(retries), a) && world(m - 1, a).captured == newest;
        assert NewestCapture(world, m, retries, m - 1, a);
      } else if Captured(world, m, Tries(retries)).Some? {
        var b: nat, a: nat :| NewestCapture(world, m - 1, retries, b, a)
          && world(b, a).captured == Captured(world, m - 1, Tries(retries));
        assert NewestCapture(world, m, retries, b, a);
      }
    }
  }

  /** The loops stop at the first attempt that does not fail retryably, having tried every backend in order, each as
      often as the retries allow; with no such attempt they report the newest captured output and every backend. */
  method RunWithEvidence(backends: seq<Backend>, retries: int, world: World)
    returns (r: Result<Report, Error>, decided: Option<Call>, calls: seq<Call>)
    ensures backends == [] ==> r == Failure(Unavailable) && calls == [] && decided.None?
    ensures InOrder(calls, retries)
    ensures decided.Some? ==>
              var Call(b, a) := decided.value;
              && b < |backends| && a <= retries && FirstDecisive(world, b, a, Tries(retries))
              && calls != [] && calls[|calls| - 1] == decided.value
              && (world(b, a).Done? ==> r.Success? && r.value.output == world(b, a).output && r.value.backend == backends[b]
                                        && Reported(world, backends, b, retries, r.value.attempted))
              && (world(b, a).Fatal? ==> r == Failure(Propagated(world(b, a).error)))
    ensures backends != [] && decided.None? ==>
              && (forall b: nat, a: nat | b < |backends| && a <= retries :: world(b, a).Retryable?)
              && (if retries < 0 then calls == [] else calls != [] && calls[|calls| - 1] == Call(|backends| - 1, retries))
              && r.Failure? && r.error.Exhausted?
              && CapturedLast(world, |backends|, retries, r.error.captured)
              && Reported(world, backends, |backends|, retries, r.error.attempted)
              && r.error.lastError == if retries < 0 then None else Some(world(|backends| - 1, retries).error)
  {
    calls, decided := [], None;
    if backends == [] { return Failure(Unavailable), decided, calls; }
    var attempted: seq<Attempted>, lastError: Option<string>, captured: Option<string> := [], None, None;
    for b := 0 to |backends|
      invariant AllRetryable(world, b, 0, Tries(retries))
      invariant calls == AllCalls(b, Tries(retries))
      invariant captured == Captured(world, b, Tries(retries))
      invariant attempted == GivenUp(world, backends, b, Tries(retries))
      invariant lastError == if b == 0 || Tries(retries) == 0 then None else Some(ErrorOf(world(b - 1, Tries(retries) - 1)))
    {
      var stoppedAt, more, output, error := TryBackend(b, retries, world);
      calls := calls + more;
      if stoppedAt.Some? {
        var a := stoppedAt.value;
        var outcome := world(b, a);
        CallsFollow(b, a + 1, retries);
        GivenUpReported(world, backends, b, retries);
        r := if outcome.Done? then Success(Report(outcome.output, backends[b], attempted)) else Failure(Propagated(outcome.error));
        return r, Some(Call(b, a)), calls;
      }
      if output.Some? { captured := output; }
      if error.Some? {
        lastError := error;
        attempted := attempted + [Attempted(backends[b], error.value)];
      }
    }
    if retries < 0 { NoCalls(|backends|); } else { CallsFollow(|backends|, 0, retries); }
    assert calls + CallsOn(|backends|, 0) == calls;
    CapturedIs(world, |backends|, retries);
    GivenUpReported(world, backends, |backends|, retries);
    r := Failure(Exhausted(lastError, captured, attempted));
  }

  /** Only one attempt can be the first decisive one, so the outcome above is the only one. */
  lemma DecisiveIsUnique(world: World, b: nat, a: nat, c: nat, d: nat, tries: nat)
    requires FirstDecisive(world, b, a, tries) && FirstDecisive(world, c, d, tries)
    ensures b == c && a == d
  {
    assert b < c ==> world(b, a).Retryable?;
    assert c < b ==> world(c, d).Retryable?;
  }
}
