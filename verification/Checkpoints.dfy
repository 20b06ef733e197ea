/** Crash-resumable scan stages (`ScanResumeCoordinator` in app/ops/runtime.py).

    A stage is its position in the fixed order; any position past the end stands for a name outside it. */
module Checkpoints {
  import opened Wrappers

  type ScanId = nat

  /** capture, dedup, chain, rank, hypothesis, bundle, report, complete */
  const STAGE_COUNT: nat := 8

  /** What a callback returns: a mapping is stored as it is, anything else under the key "result". */
  datatype Value = Mapping(text: string) | Other(text: string) | Wrapped(inner: Value)

  datatype Row = Row(scan: ScanId, stage: nat, payload: Value)

  datatype Error = UnknownStage | Regression

  function AsPayload(v: Value): Value {
    if v.Mapping? then v else Wrapped(v)
  }

  /** The row of a stage, if it is committed. */
  function Find(rows: seq<Row>, scan: ScanId, stage: nat): (r: Option<Row>)
    ensures r.Some? ==> r.value in rows && r.value.scan == scan && r.value.stage == stage
  {
    if rows == [] then None
    else if rows[|rows| - 1].scan == scan && rows[|rows| - 1].stage == stage then Some(rows[|rows| - 1])
    else Find(rows[..|rows| - 1], scan, stage)
  }

  /** `state`: the stage of the scan's newest row. */
  function LastStage(rows: seq<Row>, scan: ScanId): Option<nat> {
    if rows == [] then None
    else if rows[|rows| - 1].scan == scan then Some(rows[|rows| - 1].stage)
    else LastStage(rows[..|rows| - 1], scan)
  }

  /** The reading half of `commit`: whether it goes on to insert. */
  function Decide(rows: seq<Row>, scan: ScanId, stage: nat): Result<bool, Error> {
    if stage >= STAGE_COUNT then Failure(UnknownStage)
    else
      var last := LastStage(rows, scan);
      if last.None? || stage > last.value then Success(true)
      else if stage == last.value || Find(rows, scan, stage).Some? then Success(false)
      else Failure(Regression)
  }

  /** `INSERT OR IGNORE` under the unique key (scan, stage). */
  function InsertIgnore(rows: seq<Row>, row: Row): seq<Row> {
    if Find(rows, row.scan, row.stage).Some? then rows else rows + [row]
  }

  /** `commit` with nothing else running between its read and its insert. */
  function CommitRows(rows: seq<Row>, scan: ScanId, stage: nat, payload: Value): Result<seq<Row>, Error> {
    match Decide(rows, scan, stage)
    case Failure(e) => Failure(e)
    case Success(goOn) => Success(if goOn then InsertIgnore(rows, Row(scan, stage, payload)) else rows)
  }

  class ScanResumeCoordinator {
    var rows: seq<Row>

    constructor ()
      ensures rows == []
    {
      rows := [];
    }

    method Commit(scan: ScanId, stage: nat, payload: Value) returns (error: Option<Error>)
      modifies this
      ensures var after := CommitRows(old(rows), scan, stage, payload);
              if after.Success? then error.None? && rows == after.value
              else error == Some(after.error) && rows == old(rows)
    {
      if stage >= STAGE_COUNT { return Some(UnknownStage); }
      var last := LastStage(rows, scan);
      if last.Some? {
        if stage < last.value {
          if Find(rows, scan, stage).Some? { return None; }
          return Some(Regression);
        }
        if stage == last.value { return None; }
      }
      rows := InsertIgnore(rows, Row(scan, stage, payload));
      error := None;
    }

    /** `run_stage` with the value its callback would return; `called` tells whether the callback was called. */
    method RunStage(scan: ScanId, stage: nat, result: Value) returns (r: Result<Value, Error>, called: bool)
      modifies this
      ensures called <==> stage < STAGE_COUNT && Find(old(rows), scan, stage).None?
      ensures stage >= STAGE_COUNT ==> r == Failure(UnknownStage) && rows == old(rows)
      ensures stage < STAGE_COUNT && !called ==>
                rows == old(rows) && r == Success(Find(rows, scan, stage).value.payload)
      ensures stage < STAGE_COUNT ==> rows == StageRows(old(rows), scan, stage, result)
      ensures called ==>
                var after := CommitRows(old(rows), scan, stage, AsPayload(result));
                r == if after.Success? then Success(result) else Failure(after.error)
    {
      called := false;
      if stage >= STAGE_COUNT { return Failure(UnknownStage), false; }
      var row := Find(rows, scan, stage);
      if row.Some? { return Success(row.value.payload), false; }
      called := true;
      var error := Commit(scan, stage, AsPayload(result));
      r := if error.Some? then Failure(error.value) else Success(result);
    }

    /** A process that runs the stages in order, and dies in stage `crashAt` before its checkpoint is written (or not at
        all when `crashAt` is past the end). `calls` counts the callbacks of the stages it completed: none that was
        held. */
    method Attempt(ghost held: nat, scan: ScanId, results: nat -> Value, crashAt: nat) returns (calls: nat)
      requires held <= STAGE_COUNT && IsPrefix(rows, scan, held)
      modifies this
      ensures rows == AfterAttempt(old(rows), scan, results, crashAt)
      ensures calls == Max(Reach(crashAt), held) - held
    {
      ghost var start := rows;
      calls := 0;
      for k := 0 to Reach(crashAt)
        invariant rows == RunUpTo(start, scan, results, k)
        invariant calls == Max(k, held) - held
      {
        HeldStages(start, scan, results, k, held);
        var r, called := RunStage(scan, k, results(k));
        if called { calls := calls + 1; }
      }
    }
  }

  function Min(a: nat, b: nat): nat { if a < b then a else b }

  /** How many stages a process that dies in stage `crashAt` gets through. */
  function Reach(crashAt: nat): nat { Min(crashAt, STAGE_COUNT) }

  // ----- A driver that crashes and starts over -----

  /** The stages of a scan's rows, in the order they were written. */
  function StagesOf(rows: seq<Row>, scan: ScanId): seq<nat> {
    if rows == [] then []
    else
      var earlier := StagesOf(rows[..|rows| - 1], scan);
      if rows[|rows| - 1].scan == scan then earlier + [rows[|rows| - 1].stage] else earlier
  }

  function FirstStages(m: nat): seq<nat> {
    if m == 0 then [] else FirstStages(m - 1) + [m - 1]
  }

  /** The rows of a scan are exactly the first m stages, in order. */
  predicate IsPrefix(rows: seq<Row>, scan: ScanId, m: nat) {
    StagesOf(rows, scan) == FirstStages(m)
  }

  lemma {:induction false} FindStage(rows: seq<Row>, scan: ScanId, stage: nat)
    ensures Find(rows, scan, stage).Some? <==> stage in StagesOf(rows, scan)
  {
    if rows != [] { FindStage(rows[..|rows| - 1], scan, stage); }
  }

  lemma {:induction false} NewestStage(rows: seq<Row>, scan: ScanId)
    ensures var stages := StagesOf(rows, scan);
            LastStage(rows, scan) == if stages == [] then None else Some(stages[|stages| - 1])
  {
    if rows != [] { NewestStage(rows[..|rows| - 1], scan); }
  }

  lemma {:induction false} FirstStagesHold(m: nat, stage: nat)
    ensures stage in FirstStages(m) <==> stage < m
  {
    if m > 0 { FirstStagesHold(m - 1, stage); }
  }

  /** A scan that holds the first m stages has stage n exactly when n < m. */
  lemma PrefixFind(rows: seq<Row>, scan: ScanId, m: nat, stage: nat)
    requires IsPrefix(rows, scan, m)
    ensures Find(rows, scan, stage).Some? <==> stage < m
  {
    FindStage(rows, scan, stage);
    FirstStagesHold(m, stage);
  }

  /** `run_stage` for the driver, where the stage is known. */
  function StageRows(rows: seq<Row>, scan: ScanId, stage: nat, result: Value): seq<Row> {
    if Find(rows, scan, stage).Some? then rows
    else
      var after := CommitRows(rows, scan, stage, AsPayload(result));
      if after.Success? then after.value else rows
  }

  function RunUpTo(rows: seq<Row>, scan: ScanId, results: nat -> Value, n: nat): seq<Row> {
    if n == 0 then rows else StageRows(RunUpTo(rows, scan, results, n - 1), scan, n - 1, results(n - 1))
  }

  function AfterAttempt(rows: seq<Row>, scan: ScanId, results: nat -> Value, crashAt: nat): seq<Row> {
    RunUpTo(rows, scan, results, Reach(crashAt))
  }

  function Max(a: nat, b: nat): nat { if a > b then a else b }

  /** Running stage n of a scan that holds its first m stages, where all before n are held. */
  lemma StageKeepsPrefix(rows: seq<Row>, scan: ScanId, n: nat, m: nat, result: Value)
    requires IsPrefix(rows, scan, m) && n <= m && n < STAGE_COUNT
    ensures IsPrefix(StageRows(rows, scan, n, result), scan, Max(n + 1, m))
  {
    PrefixFind(rows, scan, m, n);
    if n == m { StageAppends(rows, scan, n, result); }
  }

  lemma {:induction false} RunUpToPrefix(rows: seq<Row>, scan: ScanId, results: nat -> Value, n: nat, m: nat)
    requires IsPrefix(rows, scan, m) && m <= STAGE_COUNT && n <= STAGE_COUNT
    ensures IsPrefix(RunUpTo(rows, scan, results, n), scan, Max(n, m))
  {
    if n > 0 {
      RunUpToPrefix(rows, scan, results, n - 1, m);
      StageKeepsPrefix(RunUpTo(rows, scan, results, n - 1), scan, n - 1, Max(n - 1, m), results(n - 1));
    }
  }

  /** What the driver finds at stage n, and what the table is after it. */
  lemma HeldStages(rows: seq<Row>, scan: ScanId, results: nat -> Value, n: nat, m: nat)
    requires IsPrefix(rows, scan, m) && m <= STAGE_COUNT && n < STAGE_COUNT
    ensures Find(RunUpTo(rows, scan, results, n), scan, n).None? <==> n >= m
    ensures RunUpTo(rows, scan, results, n + 1) == StageRows(RunUpTo(rows, scan, results, n), scan, n, results(n))
  {
    RunUpToPrefix(rows, scan, results, n, m);
    PrefixFind(RunUpTo(rows, scan, results, n), scan, Max(n, m), n);
  }

  lemma {:induction false} RunUpToExtends(rows: seq<Row>, scan: ScanId, results: nat -> Value, n: nat)
    ensures rows <= RunUpTo(rows, scan, results, n)
  {
    if n > 0 { RunUpToExtends(rows, scan, results, n - 1); }
  }

  lemma StageAppends(rows: seq<Row>, scan: ScanId, stage: nat, result: Value)
    requires IsPrefix(rows, scan, stage) && stage < STAGE_COUNT
    ensures StageRows(rows, scan, stage, result) == rows + [Row(scan, stage, AsPayload(result))]
    ensures IsPrefix(StageRows(rows, scan, stage, result), scan, stage + 1)
  {
    PrefixFind(rows, scan, stage, stage);
    NewestStage(rows, scan);
    var longer := rows + [Row(scan, stage, AsPayload(result))];
    assert longer[..|rows|] == rows;
  }

  /** One life of the process: what its callbacks return and the stage it dies in. */
  datatype Life = Life(results: nat -> Value, crashAt: nat)

  function AfterLives(rows: seq<Row>, scan: ScanId, lives: seq<Life>): seq<Row> {
    if lives == [] then rows
    else
      var last := lives[|lives| - 1];
      AfterAttempt(AfterLives(rows, scan, lives[..|lives| - 1]), scan, last.results, last.crashAt)
  }

  /** How far the furthest life got, from a scan that held its first `held` stages. */
  function Furthest(lives: seq<Life>, held: nat): nat {
    if lives == [] then held
    else
      var earlier, now := Furthest(lives[..|lives| - 1], held), Reach(lives[|lives| - 1].crashAt);
      if now > earlier then now else earlier
  }

  /** However often the driver dies between a callback and its checkpoint, its scan always holds exactly the stages up
      to the furthest point reached, in order, and nothing already written changes. */
  lemma {:induction false} LivesKeepPrefix(rows: seq<Row>, scan: ScanId, lives: seq<Life>, held: nat)
    requires held <= STAGE_COUNT && IsPrefix(rows, scan, held)
    ensures Furthest(lives, held) <= STAGE_COUNT && IsPrefix(AfterLives(rows, scan, lives), scan, Furthest(lives, held))
    ensures rows <= AfterLives(rows, scan, lives)
  {
    if lives != [] {
      var last, before := lives[|lives| - 1], AfterLives(rows, scan, lives[..|lives| - 1]);
      LivesKeepPrefix(rows, scan, lives[..|lives| - 1], held);
      RunUpToPrefix(before, scan, last.results, Reach(last.crashAt), Furthest(lives[..|lives| - 1], held));
      RunUpToExtends(before, scan, last.results, Reach(last.crashAt));
    }
  }

  /** How far the lives got, without the measure: a stage is held afterwards exactly when it was held at the start or some
      life died in a later one. */
  lemma {:induction false} StagesReached(rows: seq<Row>, scan: ScanId, lives: seq<Life>, held: nat, stage: nat)
    requires held <= STAGE_COUNT && IsPrefix(rows, scan, held)
    ensures Held(AfterLives(rows, scan, lives), scan, stage)
            <==> stage < held || (stage < 8 && exists i | 0 <= i < |lives| :: lives[i].crashAt > stage)
  {
    LivesKeepPrefix(rows, scan, lives, held);
    PrefixFind(AfterLives(rows, scan, lives), scan, Furthest(lives, held), stage);
    FindHeld(AfterLives(rows, scan, lives), scan, stage);
    FurthestReaches(lives, held, stage);
  }

  lemma {:induction false} FurthestReaches(lives: seq<Life>, held: nat, stage: nat)
    ensures stage < Furthest(lives, held)
            <==> stage < held || (stage < 8 && exists i | 0 <= i < |lives| :: lives[i].crashAt > stage)
  {
    if lives != [] {
      var n := |lives| - 1;
      FurthestReaches(lives[..n], held, stage);
      assert forall i | 0 <= i < n :: lives[..n][i] == lives[i];
    }
  }

  /** One life that does not crash is enough: all eight stages are written, in order. */
  lemma DriverCommitsAll(rows: seq<Row>, scan: ScanId, lives: seq<Life>, results: nat -> Value, held: nat)
    requires held <= STAGE_COUNT && IsPrefix(rows, scan, held)
    ensures StagesOf(AfterLives(rows, scan, lives + [Life(results, 8)]), scan) == [0, 1, 2, 3, 4, 5, 6, 7]
  {
    var all := lives + [Life(results, 8)];
    assert all[..|all| - 1] == lives;
    LivesKeepPrefix(rows, scan, all, held);
    LivesKeepPrefix(rows, scan, lives, held);
    assert FirstStages(4) == [0, 1, 2, 3];
    assert FirstStages(8) == [0, 1, 2, 3, 4, 5, 6, 7];
  }

  // ----- What one commit decides -----

  ghost predicate HeldAt(rows: seq<Row>, scan: ScanId, stage: nat, i: nat) {
    i < |rows| && rows[i].scan == scan && rows[i].stage == stage
  }

  /** The scan has a row of the stage. */
  ghost predicate Held(rows: seq<Row>, scan: ScanId, stage: nat) {
    exists i: nat :: HeldAt(rows, scan, stage, i)
  }

  /** Row i is the scan's newest. */
  ghost predicate NewestAt(rows: seq<Row>, scan: ScanId, i: nat) {
    i < |rows| && rows[i].scan == scan && forall j | i < j < |rows| :: rows[j].scan != scan
  }

  /** The scan's newest row is of a later stage. */
  ghost predicate Overtaken(rows: seq<Row>, scan: ScanId, stage: nat) {
    exists i: nat :: NewestAt(rows, scan, i) && rows[i].stage > stage
  }

  lemma {:induction false} FindHeld(rows: seq<Row>, scan: ScanId, stage: nat)
    ensures Find(rows, scan, stage).Some? <==> Held(rows, scan, stage)
  {
    if rows != [] {
      var n := |rows| - 1;
      FindHeld(rows[..n], scan, stage);
      assert HeldAt(rows, scan, stage, n) <==> rows[n].scan == scan && rows[n].stage == stage;
      assert forall i: nat | i < n :: HeldAt(rows[..n], scan, stage, i) == HeldAt(rows, scan, stage, i);
    }
  }

  lemma {:induction false} LastIsNewest(rows: seq<Row>, scan: ScanId, stage: nat)
    ensures LastStage(rows, scan).Some? && LastStage(rows, scan).value > stage <==> Overtaken(rows, scan, stage)
  {
    if rows != [] {
      var n := |rows| - 1;
      LastIsNewest(rows[..n], scan, stage);
      if rows[n].scan == scan {
        assert NewestAt(rows, scan, n);
      } else {
        assert forall i: nat | i < n :: NewestAt(rows[..n], scan, i) == NewestAt(rows, scan, i);
      }
    }
  }

  /** `commit` refuses exactly a name that is not one of the eight stages and a stage that is missing and behind the
      scan's newest row; otherwise it adds the row exactly when the stage is missing. */
  lemma CommitDecides(rows: seq<Row>, scan: ScanId, stage: nat, payload: Value)
    ensures CommitRows(rows, scan, stage, payload)
            == if stage >= 8 then Failure(UnknownStage)
               else if Held(rows, scan, stage) then Success(rows)
               else if Overtaken(rows, scan, stage) then Failure(Regression)
               else Success(rows + [Row(scan, stage, payload)])
  {
    FindHeld(rows, scan, stage);
    LastIsNewest(rows, scan, stage);
    LastIsHeld(rows, scan);
  }

  lemma {:induction false} LastIsHeld(rows: seq<Row>, scan: ScanId)
    ensures LastStage(rows, scan).Some? ==> Find(rows, scan, LastStage(rows, scan).value).Some?
  {
    if rows != [] && rows[|rows| - 1].scan != scan { LastIsHeld(rows[..|rows| - 1], scan); }
  }

  /** A stage whose callback was called is held afterwards exactly when it was ahead of its scan's newest one, and run
      again it gives back what the callback returned exactly when that was a mapping. */
  lemma ReplayReturnsPayload(rows: seq<Row>, scan: ScanId, stage: nat, result: Value)
    requires stage < STAGE_COUNT && Find(rows, scan, stage).None?
    ensures var found := Find(StageRows(rows, scan, stage, result), scan, stage);
            && (found.Some? <==> LastStage(rows, scan).None? || LastStage(rows, scan).value < stage)
            && (found.Some? ==> (found.value.payload == result <==> result.Mapping?))
  {
    LastIsHeld(rows, scan);
    NotWrapped(result);
    var row := Row(scan, stage, AsPayload(result));
    assert (rows + [row])[|rows|] == row;
  }

  lemma NotWrapped(v: Value)
    ensures v != Wrapped(v)
  {
    if v.Wrapped? { NotWrapped(v.inner); }
  }
}
