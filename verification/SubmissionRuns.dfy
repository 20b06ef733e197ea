/** One bug-bounty submission under any interleaving of calls: `transition` (app/submissions.py) reads the row in one
    transaction and writes its update in another, so two calls can overlap. */
module SubmissionRuns {
  import opened Wrappers
  import opened SubmissionWorkflow

  /** An update, and how many updates had been written when its call read the row. */
  datatype Pending = Pending(update: Update, since: nat)

  /** `pending` are the updates whose read is done, `writes` those written so far; `visited` is the set of statuses
      the row has ever had. */
  datatype State = State(row: Submission, pending: seq<Pending>, writes: seq<Pending>, visited: set<Status>)

  datatype Step =
    | Read(request: Request, now: Time)
    | Store(index: nat)

  const START := State(NEW, [], [], {Draft})

  predicate Enabled(s: State, normalize: string -> string, step: Step) {
    match step
    case Read(request, now) => Prepare(s.row, request, normalize, now).Success?
    case Store(index) => index < |s.pending|
  }

  function Next(s: State, normalize: string -> string, step: Step): State
    requires Enabled(s, normalize, step)
  {
    match step
    case Read(request, now) =>
      s.(pending := s.pending + [Pending(Prepare(s.row, request, normalize, now).value, |s.writes|)])
    case Store(index) =>
      var p := s.pending[index];
      State(Write(s.row, p.update), s.pending[..index] + s.pending[index + 1..], s.writes + [p],
            s.visited + {p.update.status})
  }

  ghost predicate ValidRun(steps: seq<Step>, normalize: string -> string)
    decreases |steps|, 0
  {
    steps == [] || (ValidRun(steps[..|steps| - 1], normalize)
                    && Enabled(After(steps[..|steps| - 1], normalize), normalize, steps[|steps| - 1]))
  }

  ghost function After(steps: seq<Step>, normalize: string -> string): State
    requires ValidRun(steps, normalize)
    decreases |steps|, 1
  {
    if steps == [] then START else Next(After(steps[..|steps| - 1], normalize), normalize, steps[|steps| - 1])
  }

  /** Enabled exactly when it is answered, a call that nothing overlaps leaves what the tracker's own call leaves. */
  lemma WholeCall(s: State, normalize: string -> string, request: Request, now: Time)
    requires s.pending == [] && request.status.Some?
    ensures var read := Read(request, now);
            if Enabled(s, normalize, read)
            then Enabled(Next(s, normalize, read), normalize, Store(0))
                 && var t := Next(Next(s, normalize, read), normalize, Store(0));
                    t.pending == [] && Answers(s.row, request, normalize, now, Success(t.row))
            else exists e :: Answers(s.row, request, normalize, now, Failure(e))
  {
    HalvesAnswer(s.row, request, normalize, now);
  }

  // ----- Bookkeeping -----

  /** Every status past draft was reached from a status the workflow allows it from. */
  ghost predicate Earned(next: Status, visited: set<Status>) {
    || next == Draft
    || next in visited
    || ((exists from | from in visited :: next in AllowedFrom(from)) && (next == Submitted || Submitted in visited))
  }

  ghost predicate PathClosed(visited: set<Status>) {
    && Draft in visited
    && (forall s | s in visited && s != Draft :: Submitted in visited && exists from | from in visited :: s in AllowedFrom(from))
  }

  /** The bookkeeping that a status implies. */
  ghost predicate RowInv(row: Submission) {
    && (row.status != Draft ==> row.submittedAt.Some?)
    && (row.status in {Resolved, Paid} ==> row.resolvedAt.Some?)
    && (row.bounty.Some? ==> row.bounty.value >= 0.0 && row.currency.Some?)
  }

  ghost predicate UpdateInv(u: Update, row: Submission, visited: set<Status>) {
    && RowInv(Write(row, u))
    && Earned(u.status, visited)
  }

  ghost predicate Inv(s: State) {
    && RowInv(s.row) && s.row.status in s.visited && PathClosed(s.visited)
    && forall k | 0 <= k < |s.pending| :: UpdateInv(s.pending[k].update, s.row, s.visited)
  }

  /** Columns are only ever filled, so what an update needed stays true while other updates are written. */
  lemma UpdateStaysGood(u: Update, other: Update, row: Submission, visited: set<Status>)
    requires UpdateInv(u, row, visited) && UpdateInv(other, row, visited)
    ensures UpdateInv(u, Write(row, other), visited + {other.status})
  {
    if u.status != Draft && u.status !in visited {
      var from :| from in visited && u.status in AllowedFrom(from);
      assert from in visited + {other.status};
    }
  }

  lemma PathGrows(visited: set<Status>, next: Status)
    requires PathClosed(visited) && Earned(next, visited)
    ensures PathClosed(visited + {next})
  {
    forall s | s in visited + {next} && s != Draft
      ensures exists from | from in visited + {next} :: s in AllowedFrom(from)
    {
      var from :| from in visited && s in AllowedFrom(from);
      assert from in visited + {next};
    }
  }

  lemma StepInv(s: State, normalize: string -> string, step: Step)
    requires Inv(s) && Enabled(s, normalize, step)
    ensures Inv(Next(s, normalize, step))
  {
    match step
    case Read(request, now) =>
      var u := Prepare(s.row, request, normalize, now).value;
      assert Earned(u.status, s.visited);
      assert UpdateInv(u, s.row, s.visited);
    case Store(index) =>
      var u, t := s.pending[index].update, Next(s, normalize, step);
      PathGrows(s.visited, u.status);
      forall k | 0 <= k < |t.pending| ensures UpdateInv(t.pending[k].update, t.row, t.visited) {
        UpdateStaysGood(s.pending[if k < index then k else k + 1].update, u, s.row, s.visited);
      }
  }

  /** However calls overlap: a submission past draft has its submission time, a resolved or paid one its resolution time,
      a bounty is never negative and its currency column is set, and every status it ever had was allowed from another
      it had. */
  lemma {:induction false} BookkeepingHolds(steps: seq<Step>, normalize: string -> string)
    requires ValidRun(steps, normalize)
    ensures Inv(After(steps, normalize))
  {
    if steps == [] {
      assert START.visited == {Draft};
    } else {
      BookkeepingHolds(steps[..|steps| - 1], normalize);
      StepInv(After(steps[..|steps| - 1], normalize), normalize, steps[|steps| - 1]);
    }
  }

  lemma PaidNeedsPath(visited: set<Status>)
    requires PathClosed(visited) && Paid in visited
    ensures {Submitted, Accepted, Resolved} <= visited
  {
    var beforePaid :| beforePaid in visited && Paid in AllowedFrom(beforePaid);
    var beforeResolved :| beforeResolved in visited && Resolved in AllowedFrom(beforeResolved);
  }

  /** So however calls overlap, only a submission that was submitted, accepted and resolved is ever paid. */
  lemma PaidWasAccepted(steps: seq<Step>, normalize: string -> string)
    requires ValidRun(steps, normalize) && After(steps, normalize).row.status == Paid
    ensures {Submitted, Accepted, Resolved} <= After(steps, normalize).visited
  {
    BookkeepingHolds(steps, normalize);
    PaidNeedsPath(After(steps, normalize).visited);
  }

  // ----- The row as the sum of its writes -----

  function RowAfter(writes: seq<Pending>, n: nat): Submission
    requires n <= |writes|
  {
    if n == 0 then NEW else Write(RowAfter(writes, n - 1), writes[n - 1].update)
  }

  lemma {:induction false} RowAfterPrefix(writes: seq<Pending>, more: seq<Pending>, n: nat)
    requires writes <= more && n <= |writes|
    ensures RowAfter(writes, n) == RowAfter(more, n)
  {
    if n > 0 { RowAfterPrefix(writes, more, n - 1); }
  }

  /** What the checks of `transition` leave of the row they saw: a time is set only where there was none, and the status
      stays or is one allowed next. */
  ghost predicate Fits(u: Update, row: Submission) {
    && (u.submittedAt.Some? ==> row.submittedAt.None?)
    && (u.resolvedAt.Some? ==> row.resolvedAt.None?)
    && (u.status == row.status || u.status in AllowedFrom(row.status))
  }

  /** The update was prepared for the row as it stood after its `since` writes, of which there are at most `n`. */
  ghost predicate Prepared(writes: seq<Pending>, p: Pending, n: nat) {
    p.since <= n <= |writes| && Fits(p.update, RowAfter(writes, p.since))
  }

  lemma PreparedStays(writes: seq<Pending>, more: Pending, p: Pending, n: nat)
    requires Prepared(writes, p, n)
    ensures Prepared(writes + [more], p, n) && Prepared(writes + [more], p, |writes| + 1)
  {
    RowAfterPrefix(writes, writes + [more], p.since);
  }

  ghost predicate AllPrepared(writes: seq<Pending>, ps: seq<Pending>) {
    forall k {:trigger Prepared(writes, ps[k], |writes|)} | 0 <= k < |ps| :: Prepared(writes, ps[k], |writes|)
  }

  ghost predicate WritesPrepared(writes: seq<Pending>) {
    forall k {:trigger Prepared(writes, writes[k], k)} | 0 <= k < |writes| :: Prepared(writes, writes[k], k)
  }

  ghost predicate Written(s: State) {
    s.row == RowAfter(s.writes, |s.writes|) && WritesPrepared(s.writes) && AllPrepared(s.writes, s.pending)
  }

  lemma WritesStayPrepared(writes: seq<Pending>, p: Pending)
    requires WritesPrepared(writes) && Prepared(writes, p, |writes|)
    ensures WritesPrepared(writes + [p])
  {
    var more := writes + [p];
    forall k | 0 <= k < |more| ensures Prepared(more, more[k], k) {
      PreparedStays(writes, p, more[k], k);
    }
  }

  lemma AllStayPrepared(writes: seq<Pending>, p: Pending, ps: seq<Pending>)
    requires AllPrepared(writes, ps)
    ensures AllPrepared(writes + [p], ps)
  {
    forall k | 0 <= k < |ps| ensures Prepared(writes + [p], ps[k], |writes| + 1) {
      PreparedStays(writes, p, ps[k], |writes|);
    }
  }

  lemma StepWritten(s: State, normalize: string -> string, step: Step)
    requires Written(s) && Enabled(s, normalize, step)
    ensures Written(Next(s, normalize, step))
  {
    match step
    case Read(request, now) =>
      assert Prepared(s.writes, Pending(Prepare(s.row, request, normalize, now).value, |s.writes|), |s.writes|);
    case Store(index) =>
      var p := s.pending[index];
      RowAfterPrefix(s.writes, s.writes + [p], |s.writes|);
      WritesStayPrepared(s.writes, p);
      AllStayPrepared(s.writes, p, s.pending[..index] + s.pending[index + 1..]);
  }

  lemma {:induction false} RunWritten(steps: seq<Step>, normalize: string -> string)
    requires ValidRun(steps, normalize)
    ensures Written(After(steps, normalize))
  {
    if steps != [] {
      RunWritten(steps[..|steps| - 1], normalize);
      StepWritten(After(steps[..|steps| - 1], normalize), normalize, steps[|steps| - 1]);
    }
  }

  // ----- Moments of a run -----

  /** The state after the first `m` steps. */
  ghost function At(steps: seq<Step>, normalize: string -> string, m: nat): State
    requires m <= |steps| && ValidRun(steps[..m], normalize)
  {
    After(steps[..m], normalize)
  }

  lemma {:induction false} Earlier(steps: seq<Step>, normalize: string -> string, m: nat)
    requires m <= |steps| && ValidRun(steps, normalize)
    ensures ValidRun(steps[..m], normalize)
    ensures At(steps, normalize, m).writes <= After(steps, normalize).writes
    decreases |steps|
  {
    if m == |steps| {
      assert steps[..m] == steps;
    } else {
      var before := steps[..|steps| - 1];
      Earlier(before, normalize, m);
      assert before[..m] == steps[..m];
    }
  }

  /** The row at a moment is what its writes made of it. */
  lemma RowAt(steps: seq<Step>, normalize: string -> string, m: nat)
    requires m <= |steps| && ValidRun(steps, normalize)
    ensures ValidRun(steps[..m], normalize) && At(steps, normalize, m).writes <= After(steps, normalize).writes
    ensures At(steps, normalize, m).row == RowAfter(After(steps, normalize).writes, |At(steps, normalize, m).writes|)
  {
    Earlier(steps, normalize, m);
    RunWritten(steps[..m], normalize);
    var s := At(steps, normalize, m);
    RowAfterPrefix(s.writes, After(steps, normalize).writes, |s.writes|);
  }

  /** Every number of writes up to the last was reached at some moment. */
  lemma {:induction false} MomentOf(steps: seq<Step>, normalize: string -> string, n: nat) returns (m: nat)
    requires ValidRun(steps, normalize) && n <= |After(steps, normalize).writes|
    ensures m <= |steps| && ValidRun(steps[..m], normalize) && |At(steps, normalize, m).writes| == n
    decreases |steps|
  {
    if n == |After(steps, normalize).writes| {
      m := |steps|;
      assert steps[..m] == steps;
    } else {
      var before := steps[..|steps| - 1];
      m := MomentOf(before, normalize, n);
      assert before[..m] == steps[..m];
    }
  }

  lemma WritesGrow(steps: seq<Step>, normalize: string -> string, j: nat, m: nat)
    requires j <= m <= |steps| && ValidRun(steps, normalize)
    ensures ValidRun(steps[..j], normalize) && ValidRun(steps[..m], normalize)
    ensures At(steps, normalize, j).writes <= At(steps, normalize, m).writes
  {
    Earlier(steps, normalize, m);
    Earlier(steps[..m], normalize, j);
    assert steps[..m][..j] == steps[..j];
  }

  // ----- When a timestamp and a terminal status survive -----

  datatype Column = SubmittedAt | ResolvedAt

  function TimeIn(row: Submission, column: Column): Option<Time> {
    if column.SubmittedAt? then row.submittedAt else row.resolvedAt
  }

  function TimeSet(u: Update, column: Column): Option<Time> {
    if column.SubmittedAt? then u.submittedAt else u.resolvedAt
  }

  /** Write `k` was read before the first `a` writes were done, and sets another time than `v`. */
  ghost predicate MovesTime(writes: seq<Pending>, a: nat, k: nat, column: Column, v: Time) {
    a <= k < |writes| && writes[k].since < a && TimeSet(writes[k].update, column).Some?
    && TimeSet(writes[k].update, column) != Some(v)
  }

  ghost predicate TimeMoved(writes: seq<Pending>, a: nat, column: Column, v: Time) {
    exists k :: MovesTime(writes, a, k, column, v)
  }

  lemma TimeKept(row: Submission, u: Update, column: Column, v: Time)
    requires TimeIn(row, column) == Some(v) && (TimeSet(u, column).Some? ==> TimeSet(u, column) == Some(v))
    ensures TimeIn(Write(row, u), column) == Some(v)
  {}

  lemma SeenTimeNotSet(u: Update, seen: Submission, column: Column)
    requires Fits(u, seen) && TimeIn(seen, column).Some?
    ensures TimeSet(u, column).None?
  {}

  /** Without such a write the time stands; a write read later than it finds it and leaves it alone. */
  lemma {:induction false} TimeStands(writes: seq<Pending>, a: nat, n: nat, column: Column, v: Time)
    requires WritesPrepared(writes) && a <= n <= |writes| && TimeIn(RowAfter(writes, a), column) == Some(v)
    requires !TimeMoved(writes, a, column, v)
    ensures TimeIn(RowAfter(writes, n), column) == Some(v)
    decreases n
  {
    if n > a {
      TimeStands(writes, a, n - 1, column, v);
      var p := writes[n - 1];
      assert Prepared(writes, p, n - 1);
      if p.since >= a {
        TimeStands(writes, a, p.since, column, v);
        SeenTimeNotSet(p.update, RowAfter(writes, p.since), column);
      } else {
        assert !MovesTime(writes, a, n - 1, column, v);
      }
      TimeKept(RowAfter(writes, n - 1), p.update, column, v);
    }
  }

  ghost predicate TimeAt(steps: seq<Step>, normalize: string -> string, m: nat, column: Column, v: Time) {
    m <= |steps| && ValidRun(steps[..m], normalize) && TimeIn(At(steps, normalize, m).row, column) == Some(v)
  }

  lemma TimeStaysAt(steps: seq<Step>, normalize: string -> string, j: nat, m: nat, column: Column, v: Time)
    requires ValidRun(steps, normalize) && TimeAt(steps, normalize, j, column, v) && j <= m <= |steps|
    requires !TimeMoved(After(steps, normalize).writes, |At(steps, normalize, j).writes|, column, v)
    ensures TimeAt(steps, normalize, m, column, v)
  {
    RunWritten(steps, normalize);
    RowAt(steps, normalize, j);
    RowAt(steps, normalize, m);
    WritesGrow(steps, normalize, j, m);
    TimeStands(After(steps, normalize).writes, |At(steps, normalize, j).writes|, |At(steps, normalize, m).writes|, column, v);
  }

  lemma TimeMovesAt(steps: seq<Step>, normalize: string -> string, j: nat, k: nat, column: Column, v: Time) returns (m: nat)
    requires ValidRun(steps, normalize) && j <= |steps| && ValidRun(steps[..j], normalize)
    requires MovesTime(After(steps, normalize).writes, |At(steps, normalize, j).writes|, k, column, v)
    ensures j <= m <= |steps| && !TimeAt(steps, normalize, m, column, v)
  {
    m := MomentOf(steps, normalize, k + 1);
    RowAt(steps, normalize, m);
    if m < j { WritesGrow(steps, normalize, m, j); }
  }

  /** The time stands from this moment to the end of the run. */
  ghost predicate TimeStays(steps: seq<Step>, normalize: string -> string, j: nat, column: Column, v: Time) {
    forall m: nat | j <= m <= |steps| :: TimeAt(steps, normalize, m, column, v)
  }

  /** In every interleaving: a submission or resolution time that is set at one moment of a run stays to its end
      exactly when no update written later was read before that moment's last write and carries another time. */
  lemma TimestampSurvives(steps: seq<Step>, normalize: string -> string, j: nat, column: Column, v: Time)
    requires ValidRun(steps, normalize) && TimeAt(steps, normalize, j, column, v)
    ensures TimeStays(steps, normalize, j, column, v)
            <==> !TimeMoved(After(steps, normalize).writes, |At(steps, normalize, j).writes|, column, v)
  {
    if !TimeMoved(After(steps, normalize).writes, |At(steps, normalize, j).writes|, column, v) {
      forall m | j <= m <= |steps| ensures TimeAt(steps, normalize, m, column, v) {
        TimeStaysAt(steps, normalize, j, m, column, v);
      }
    } else {
      var k :| MovesTime(After(steps, normalize).writes, |At(steps, normalize, j).writes|, k, column, v);
      var m := TimeMovesAt(steps, normalize, j, k, column, v);
      assert !TimeAt(steps, normalize, m, column, v);
    }
  }

  /** Write `k` was read before the first `a` writes were done, and carries another status than `t`. */
  ghost predicate LeavesStatus(writes: seq<Pending>, a: nat, k: nat, t: Status) {
    a <= k < |writes| && writes[k].since < a && writes[k].update.status != t
  }

  ghost predicate StatusLeft(writes: seq<Pending>, a: nat, t: Status) {
    exists k :: LeavesStatus(writes, a, k, t)
  }

  lemma {:induction false} StatusStands(writes: seq<Pending>, a: nat, n: nat, t: Status)
    requires WritesPrepared(writes) && a <= n <= |writes| && RowAfter(writes, a).status == t && Terminal(t)
    requires !StatusLeft(writes, a, t)
    ensures RowAfter(writes, n).status == t
    decreases n
  {
    if n > a {
      var p := writes[n - 1];
      assert Prepared(writes, p, n - 1);
      if p.since >= a { StatusStands(writes, a, p.since, t); } else { assert !LeavesStatus(writes, a, n - 1, t); }
    }
  }

  ghost predicate StatusAt(steps: seq<Step>, normalize: string -> string, m: nat, t: Status) {
    m <= |steps| && ValidRun(steps[..m], normalize) && At(steps, normalize, m).row.status == t
  }

  lemma StatusStaysAt(steps: seq<Step>, normalize: string -> string, j: nat, m: nat, t: Status)
    requires ValidRun(steps, normalize) && StatusAt(steps, normalize, j, t) && j <= m <= |steps| && Terminal(t)
    requires !StatusLeft(After(steps, normalize).writes, |At(steps, normalize, j).writes|, t)
    ensures StatusAt(steps, normalize, m, t)
  {
    RunWritten(steps, normalize);
    RowAt(steps, normalize, j);
    RowAt(steps, normalize, m);
    WritesGrow(steps, normalize, j, m);
    StatusStands(After(steps, normalize).writes, |At(steps, normalize, j).writes|, |At(steps, normalize, m).writes|, t);
  }

  lemma StatusMovesAt(steps: seq<Step>, normalize: string -> string, j: nat, k: nat, t: Status) returns (m: nat)
    requires ValidRun(steps, normalize) && j <= |steps| && ValidRun(steps[..j], normalize)
    requires LeavesStatus(After(steps, normalize).writes, |At(steps, normalize, j).writes|, k, t)
    ensures j <= m <= |steps| && !StatusAt(steps, normalize, m, t)
  {
    m := MomentOf(steps, normalize, k + 1);
    RowAt(steps, normalize, m);
    if m < j { WritesGrow(steps, normalize, m, j); }
  }

  /** The status stands from this moment to the end of the run. */
  ghost predicate StatusStays(steps: seq<Step>, normalize: string -> string, j: nat, t: Status) {
    forall m: nat | j <= m <= |steps| :: StatusAt(steps, normalize, m, t)
  }

  /** In every interleaving: a terminal status reached at one moment of a run stays to its end exactly when no update
      written later was read before that moment's last write and carries another status. */
  lemma TerminalSurvives(steps: seq<Step>, normalize: string -> string, j: nat, t: Status)
    requires ValidRun(steps, normalize) && StatusAt(steps, normalize, j, t) && Terminal(t)
    ensures StatusStays(steps, normalize, j, t)
            <==> !StatusLeft(After(steps, normalize).writes, |At(steps, normalize, j).writes|, t)
  {
    if !StatusLeft(After(steps, normalize).writes, |At(steps, normalize, j).writes|, t) {
      forall m | j <= m <= |steps| ensures StatusAt(steps, normalize, m, t) {
        StatusStaysAt(steps, normalize, j, m, t);
      }
    } else {
      var k :| LeavesStatus(After(steps, normalize).writes, |At(steps, normalize, j).writes|, k, t);
      var m := StatusMovesAt(steps, normalize, j, k, t);
      assert !StatusAt(steps, normalize, m, t);
    }
  }

  // ----- Calls that do not overlap -----

  /** A call reads the row only when no other is between its read and its write. */
  ghost predicate OneAtATime(steps: seq<Step>, normalize: string -> string)
    requires ValidRun(steps, normalize)
  {
    steps == []
    || (OneAtATime(steps[..|steps| - 1], normalize)
        && (steps[|steps| - 1].Read? ==> After(steps[..|steps| - 1], normalize).pending == []))
  }

  /** Every write was read right after the one before it, and so will be the pending one. */
  ghost predicate Fresh(s: State) {
    && (forall k | 0 <= k < |s.writes| :: s.writes[k].since == k)
    && (s.pending == [] || (|s.pending| == 1 && s.pending[0].since == |s.writes|))
  }

  lemma StepFresh(s: State, normalize: string -> string, step: Step)
    requires Fresh(s) && Enabled(s, normalize, step) && (step.Read? ==> s.pending == [])
    ensures Fresh(Next(s, normalize, step))
  {
    if step.Store? { assert s.pending[..0] + s.pending[1..] == []; }
  }

  lemma {:induction false} RunFresh(steps: seq<Step>, normalize: string -> string)
    requires ValidRun(steps, normalize) && OneAtATime(steps, normalize)
    ensures Fresh(After(steps, normalize))
  {
    if steps != [] {
      RunFresh(steps[..|steps| - 1], normalize);
      StepFresh(After(steps[..|steps| - 1], normalize), normalize, steps[|steps| - 1]);
    }
  }

  /** One after another, calls write each timestamp once and never leave a terminal status. */
  lemma TimestampsWrittenOnce(steps: seq<Step>, normalize: string -> string, j: nat, m: nat)
    requires ValidRun(steps, normalize) && OneAtATime(steps, normalize) && j <= m <= |steps|
    ensures ValidRun(steps[..j], normalize) && ValidRun(steps[..m], normalize)
    ensures var then_, later := At(steps, normalize, j).row, At(steps, normalize, m).row;
            && (then_.submittedAt.Some? ==> later.submittedAt == then_.submittedAt)
            && (then_.resolvedAt.Some? ==> later.resolvedAt == then_.resolvedAt)
            && (Terminal(then_.status) ==> later.status == then_.status)
  {
    RunFresh(steps, normalize);
    WritesGrow(steps, normalize, j, m);
    var row := At(steps, normalize, j).row;
    if row.submittedAt.Some? {
      TimestampSurvives(steps, normalize, j, SubmittedAt, row.submittedAt.value);
      assert TimeAt(steps, normalize, m, SubmittedAt, row.submittedAt.value);
    }
    if row.resolvedAt.Some? {
      TimestampSurvives(steps, normalize, j, ResolvedAt, row.resolvedAt.value);
      assert TimeAt(steps, normalize, m, ResolvedAt, row.resolvedAt.value);
    }
    if Terminal(row.status) {
      TerminalSurvives(steps, normalize, j, row.status);
      assert StatusAt(steps, normalize, m, row.status);
    }
  }

  // ----- What overlapping calls do -----

  lemma Extend(steps: seq<Step>, normalize: string -> string, step: Step)
    requires ValidRun(steps, normalize) && Enabled(After(steps, normalize), normalize, step)
    ensures ValidRun(steps + [step], normalize)
    ensures After(steps + [step], normalize) == Next(After(steps, normalize), normalize, step)
  {
    assert (steps + [step])[..|steps|] == steps;
  }

  /** Two overlapping submissions of a draft overwrite the time of the first. */
  lemma OverlapMovesTimestamp(normalize: string -> string, early: Time, late: Time)
    returns (before: seq<Step>, after: seq<Step>)
    requires early != late
    ensures ValidRun(before, normalize) && ValidRun(after, normalize) && before <= after
    ensures After(before, normalize).row.submittedAt == Some(early)
    ensures After(after, normalize).row.submittedAt == Some(late)
  {
    var submit := Request(Some(Submitted), None, None);
    var a, b := Update(Submitted, Some(early), None, None, None), Update(Submitted, Some(late), None, None, None);
    var one := [] + [Read(submit, early)];
    Extend([], normalize, Read(submit, early));
    assert After(one, normalize) == State(NEW, [Pending(a, 0)], [], {Draft});
    var two := one + [Read(submit, late)];
    Extend(one, normalize, Read(submit, late));
    assert After(two, normalize) == State(NEW, [Pending(a, 0), Pending(b, 0)], [], {Draft});
    before := two + [Store(0)];
    Extend(two, normalize, Store(0));
    assert After(before, normalize) == State(Write(NEW, a), [Pending(b, 0)], [Pending(a, 0)], {Draft, Submitted});
    after := before + [Store(0)];
    Extend(before, normalize, Store(0));
    assert before <= after;
  }

  /** Two overlapping transitions can take a submission out of a terminal status. */
  lemma OverlapLeavesTerminal(s: State, normalize: string -> string, now: Time)
    requires s.row.status == Submitted && s.pending == []
    ensures var duplicate, triage := Request(Some(Duplicate), None, None), Request(Some(Triaged), None, None);
            && Enabled(s, normalize, Read(duplicate, now))
            && (var first := Next(s, normalize, Read(duplicate, now));
                && Enabled(first, normalize, Read(triage, now))
                && (var second := Next(first, normalize, Read(triage, now));
                    && Enabled(second, normalize, Store(0))
                    && (var third := Next(second, normalize, Store(0));
                        && Terminal(third.row.status)
                        && Enabled(third, normalize, Store(0))
                        && Next(third, normalize, Store(0)).row.status == Triaged)))
  {
    var duplicate, triage := Request(Some(Duplicate), None, None), Request(Some(Triaged), None, None);
    var first := Next(s, normalize, Read(duplicate, now));
    var second := Next(first, normalize, Read(triage, now));
    var third := Next(second, normalize, Store(0));
    assert second.pending[0].update.status == Duplicate && second.pending[1].update.status == Triaged;
    assert third.pending[0] == second.pending[1];
    assert Enabled(s, normalize, Read(duplicate, now)) && Enabled(first, normalize, Read(triage, now));
  }

  lemma SubmittedReached(normalize: string -> string, now: Time) returns (steps: seq<Step>)
    ensures ValidRun(steps, normalize)
    ensures After(steps, normalize).row.status == Submitted && After(steps, normalize).pending == []
  {
    var submit := Request(Some(Submitted), None, None);
    var u := Update(Submitted, Some(now), None, None, None);
    var one := [] + [Read(submit, now)];
    Extend([], normalize, Read(submit, now));
    assert After(one, normalize) == State(NEW, [Pending(u, 0)], [], {Draft});
    steps := one + [Store(0)];
    Extend(one, normalize, Store(0));
    assert After(steps, normalize) == State(Write(NEW, u), [], [Pending(u, 0)], {Draft, Submitted});
  }

  /** That happens from the start of a submission. */
  lemma TerminalLeft(normalize: string -> string, now: Time) returns (before: seq<Step>, after: seq<Step>)
    ensures ValidRun(before, normalize) && ValidRun(after, normalize) && before <= after
    ensures Terminal(After(before, normalize).row.status) && After(after, normalize).row.status == Triaged
  {
    var duplicate, triage := Request(Some(Duplicate), None, None), Request(Some(Triaged), None, None);
    var steps := SubmittedReached(normalize, now);
    OverlapLeavesTerminal(After(steps, normalize), normalize, now);
    Extend(steps, normalize, Read(duplicate, now));
    var two := steps + [Read(duplicate, now)];
    Extend(two, normalize, Read(triage, now));
    var three := two + [Read(triage, now)];
    Extend(three, normalize, Store(0));
    before := three + [Store(0)];
    Extend(before, normalize, Store(0));
    after := before + [Store(0)];
  }
}
