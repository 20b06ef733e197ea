/** Stage checkpoints under any interleaving of callers and restarts (`ScanResumeCoordinator` in app/ops/runtime.py).

    A call is cut where the source leaves a transaction or runs the callback: `run_stage` looks its stage up, calls
    back, and commits; a commit reads the scan's state and then inserts. */
module CheckpointRuns {
  import opened Wrappers
  import opened Checkpoints

  type Caller = nat

  /** Where a caller is inside its call. `since` is the length of the log when it looked up or read. */
  datatype Act =
    | LookedUp(scan: ScanId, stage: nat, since: nat)     // run_stage found no checkpoint
    | CalledBack(scan: ScanId, stage: nat)               // its callback was called
    | Inserting(scan: ScanId, row: Row, since: nat)      // a commit has decided to insert

  datatype Entry =
    | Called(scan: ScanId, stage: nat, since: nat)
    | Written(scan: ScanId, stage: nat, since: nat)

  /** `log` records, in order, which callbacks were called and which checkpoints were written. */
  datatype State = State(rows: seq<Row>, acts: map<Caller, Act>, log: seq<Entry>)

  datatype Step =
    | Lookup(t: Caller, scan: ScanId, stage: nat)
    | Call(t: Caller)
    | Raise(t: Caller)                                             // the callback raised
    | ReadStage(t: Caller, result: Value)                          // the callback returned; its commit reads
    | ReadCommit(t: Caller, scan: ScanId, stage: nat, payload: Value)
    | Insert(t: Caller)
    | Restart                                                      // the process dies with all its calls

  const START := State([], map[], [])

  predicate Enabled(s: State, step: Step) {
    match step
    case Lookup(t, _, _) => t !in s.acts
    case ReadCommit(t, _, _, _) => t !in s.acts
    case Call(t) => t in s.acts && s.acts[t].LookedUp?
    case Raise(t) => t in s.acts && s.acts[t].CalledBack?
    case ReadStage(t, _) => t in s.acts && s.acts[t].CalledBack?
    case Insert(t) => t in s.acts && s.acts[t].Inserting?
    case Restart => true
  }

  /** The read of a commit: the caller goes on to insert, or its call ends (nothing to do, or refused). */
  function Reading(s: State, t: Caller, scan: ScanId, stage: nat, payload: Value): State {
    if Decide(s.rows, scan, stage) == Success(true)
    then s.(acts := s.acts[t := Inserting(scan, Row(scan, stage, payload), |s.log|)])
    else s.(acts := s.acts - {t})
  }

  function Next(s: State, step: Step): State
    requires Enabled(s, step)
  {
    match step
    case Lookup(t, scan, stage) =>
      if stage < STAGE_COUNT && Find(s.rows, scan, stage).None?
      then s.(acts := s.acts[t := LookedUp(scan, stage, |s.log|)]) else s
    case Call(t) =>
      var a := s.acts[t];
      State(s.rows, s.acts[t := CalledBack(a.scan, a.stage)], s.log + [Called(a.scan, a.stage, a.since)])
    case Raise(t) => s.(acts := s.acts - {t})
    case ReadStage(t, result) => Reading(s, t, s.acts[t].scan, s.acts[t].stage, AsPayload(result))
    case ReadCommit(t, scan, stage, payload) => Reading(s, t, scan, stage, payload)
    case Insert(t) =>
      var a := s.acts[t];
      if Find(s.rows, a.row.scan, a.row.stage).Some? then s.(acts := s.acts - {t})
      else State(s.rows + [a.row], s.acts - {t}, s.log + [Written(a.row.scan, a.row.stage, a.since)])
    case Restart => s.(acts := map[])
  }

  ghost predicate ValidRun(steps: seq<Step>)
    decreases |steps|, 0
  {
    steps == [] || (ValidRun(steps[..|steps| - 1]) && Enabled(After(steps[..|steps| - 1]), steps[|steps| - 1]))
  }

  ghost function After(steps: seq<Step>): State
    requires ValidRun(steps)
    decreases |steps|, 1
  {
    if steps == [] then START else Next(After(steps[..|steps| - 1]), steps[|steps| - 1])
  }

  lemma Extend(steps: seq<Step>, step: Step)
    requires ValidRun(steps) && Enabled(After(steps), step)
    ensures ValidRun(steps + [step]) && After(steps + [step]) == Next(After(steps), step)
  {
    assert (steps + [step])[..|steps|] == steps;
  }

  /** A caller that nothing overlaps goes through `run_stage` as one call does, and leaves no trace but its row. */
  lemma WholeStage(s: State, t: Caller, scan: ScanId, stage: nat, result: Value)
    requires t !in s.acts && stage < STAGE_COUNT && Find(s.rows, scan, stage).None?
    ensures Enabled(s, Lookup(t, scan, stage)) && Enabled(Next(s, Lookup(t, scan, stage)), Call(t))
    ensures var called := Next(Next(s, Lookup(t, scan, stage)), Call(t));
            && Enabled(called, Raise(t)) && Next(called, Raise(t)).rows == s.rows
            && Next(called, Raise(t)).acts == s.acts
            && Enabled(called, ReadStage(t, result))
            && (var read := Next(called, ReadStage(t, result));
                && (if Enabled(read, Insert(t)) then
                      Next(read, Insert(t)).rows == StageRows(s.rows, scan, stage, result)
                         && Next(read, Insert(t)).acts == s.acts
                    else read.rows == StageRows(s.rows, scan, stage, result) && read.acts == s.acts))
  {
    var called := Next(Next(s, Lookup(t, scan, stage)), Call(t));
    assert called.acts - {t} == s.acts;
  }

  /** So does a caller of `commit`; a held or unknown stage is not run, and a restart ends every call. */
  lemma WholeCommit(s: State, t: Caller, scan: ScanId, stage: nat, payload: Value)
    requires t !in s.acts
    ensures Enabled(s, ReadCommit(t, scan, stage, payload))
    ensures var read, after := Next(s, ReadCommit(t, scan, stage, payload)), CommitRows(s.rows, scan, stage, payload);
            && (if Enabled(read, Insert(t)) then
                  after.Success? && Next(read, Insert(t)).rows == after.value && Next(read, Insert(t)).acts == s.acts
                else read == s && (after.Success? ==> after.value == s.rows))
    ensures stage >= STAGE_COUNT || Find(s.rows, scan, stage).Some? ==> Next(s, Lookup(t, scan, stage)) == s
    ensures Next(s, Restart) == s.(acts := map[])
  {
    assert s.acts - {t} == s.acts;
  }

  // ----- The log and the table -----

  /** The stages of a scan that were written by the first n entries, in order. */
  function WrittenBy(log: seq<Entry>, n: nat, scan: ScanId): seq<nat>
    requires n <= |log|
  {
    if n == 0 then []
    else
      var earlier := WrittenBy(log, n - 1, scan);
      if log[n - 1].Written? && log[n - 1].scan == scan then earlier + [log[n - 1].stage] else earlier
  }

  predicate WrittenAt(log: seq<Entry>, i: nat, scan: ScanId, stage: nat) {
    i < |log| && log[i].Written? && log[i].scan == scan && log[i].stage == stage
  }

  lemma {:induction false} WrittenMembers(log: seq<Entry>, n: nat, scan: ScanId, stage: nat)
    requires n <= |log|
    ensures stage in WrittenBy(log, n, scan) <==> exists i | 0 <= i < n :: WrittenAt(log, i, scan, stage)
  {
    if n > 0 {
      WrittenMembers(log, n - 1, scan, stage);
      if WrittenAt(log, n - 1, scan, stage) { assert stage in WrittenBy(log, n, scan); }
    }
  }

  lemma {:induction false} WrittenPrefix(log: seq<Entry>, m: nat, n: nat, scan: ScanId)
    requires m <= n <= |log|
    ensures WrittenBy(log, m, scan) <= WrittenBy(log, n, scan)
  {
    if m < n { WrittenPrefix(log, m, n - 1, scan); }
  }

  lemma {:induction false} WrittenExtended(log: seq<Entry>, more: seq<Entry>, n: nat, scan: ScanId)
    requires n <= |log|
    ensures WrittenBy(log + more, n, scan) == WrittenBy(log, n, scan)
  {
    if n > 0 { WrittenExtended(log, more, n - 1, scan); }
  }

  /** Nothing of this stage was written before entry `since`: what a lookup found. */
  predicate AbsentAt(log: seq<Entry>, since: nat, scan: ScanId, stage: nat) {
    since <= |log| && stage !in WrittenBy(log, since, scan)
  }

  /** The newest stage written before entry `since` is below this one: what the read of a commit found. */
  predicate AheadAt(log: seq<Entry>, since: nat, scan: ScanId, stage: nat) {
    since <= |log| &&
    var written := WrittenBy(log, since, scan);
    written == [] || written[|written| - 1] < stage
  }

  ghost predicate EntryGood(log: seq<Entry>, i: nat)
    requires i < |log|
  {
    var e := log[i];
    e.since <= i &&
    match e
    case Called(scan, stage, since) => AbsentAt(log, since, scan, stage)
    case Written(scan, stage, since) => AheadAt(log, since, scan, stage) && stage !in WrittenBy(log, i, scan)
  }

  ghost predicate ActGood(log: seq<Entry>, a: Act) {
    match a
    case LookedUp(scan, stage, since) => AbsentAt(log, since, scan, stage)
    case CalledBack(_, _) => true
    case Inserting(scan, row, since) => row.scan == scan && AheadAt(log, since, scan, row.stage)
  }

  ghost predicate Inv(s: State) {
    && (forall scan :: StagesOf(s.rows, scan) == WrittenBy(s.log, |s.log|, scan))
    && (forall i | 0 <= i < |s.log| :: EntryGood(s.log, i))
    && (forall t | t in s.acts :: ActGood(s.log, s.acts[t]))
  }

  lemma EntryStaysGood(log: seq<Entry>, e: Entry, i: nat)
    requires i < |log| && EntryGood(log, i)
    ensures EntryGood(log + [e], i)
  {
    var old_ := log[i];
    assert (log + [e])[i] == old_;
    WrittenExtended(log, [e], old_.since, old_.scan);
    WrittenExtended(log, [e], i, old_.scan);
  }

  lemma ActStaysGood(log: seq<Entry>, e: Entry, a: Act)
    requires ActGood(log, a)
    ensures ActGood(log + [e], a)
  {
    if !a.CalledBack? { WrittenExtended(log, [e], a.since, a.scan); }
  }

  lemma LogGrows(s: State, e: Entry)
    requires Inv(s)
    ensures forall i | 0 <= i < |s.log| :: EntryGood(s.log + [e], i)
    ensures forall t | t in s.acts :: ActGood(s.log + [e], s.acts[t])
    ensures forall scan :: WrittenBy(s.log + [e], |s.log|, scan) == WrittenBy(s.log, |s.log|, scan)
  {
    forall i | 0 <= i < |s.log| ensures EntryGood(s.log + [e], i) { EntryStaysGood(s.log, e, i); }
    forall t | t in s.acts ensures ActGood(s.log + [e], s.acts[t]) { ActStaysGood(s.log, e, s.acts[t]); }
    forall scan ensures WrittenBy(s.log + [e], |s.log|, scan) == WrittenBy(s.log, |s.log|, scan) {
      WrittenExtended(s.log, [e], |s.log|, scan);
    }
  }

  lemma CallKeeps(s: State, t: Caller)
    requires Inv(s) && Enabled(s, Call(t))
    ensures Inv(Next(s, Call(t)))
  {
    var a := s.acts[t];
    var e := Called(a.scan, a.stage, a.since);
    assert ActGood(s.log, a);
    LogGrows(s, e);
    assert ActGood(s.log + [e], a);
    assert EntryGood(s.log + [e], |s.log|);
  }

  lemma InsertKeeps(s: State, t: Caller)
    requires Inv(s) && Enabled(s, Insert(t))
    ensures Inv(Next(s, Insert(t)))
  {
    var a := s.acts[t];
    assert ActGood(s.log, a);
    FindStage(s.rows, a.row.scan, a.row.stage);
    if Find(s.rows, a.row.scan, a.row.stage).None? {
      var e := Written(a.row.scan, a.row.stage, a.since);
      LogGrows(s, e);
      assert ActGood(s.log + [e], a);
      assert EntryGood(s.log + [e], |s.log|);
      forall scan ensures StagesOf(s.rows + [a.row], scan) == WrittenBy(s.log + [e], |s.log| + 1, scan) {
        assert (s.rows + [a.row])[..|s.rows|] == s.rows;
        assert StagesOf(s.rows, scan) == WrittenBy(s.log, |s.log|, scan);
      }
    }
  }

  lemma ReadingKeeps(s: State, t: Caller, scan: ScanId, stage: nat, payload: Value)
    requires Inv(s)
    ensures Inv(Reading(s, t, scan, stage, payload))
  {
    NewestStage(s.rows, scan);
  }

  lemma LookupKeeps(s: State, t: Caller, scan: ScanId, stage: nat)
    requires Inv(s) && Enabled(s, Lookup(t, scan, stage))
    ensures Inv(Next(s, Lookup(t, scan, stage)))
  {
    FindStage(s.rows, scan, stage);
  }

  lemma StepKeeps(s: State, step: Step)
    requires Inv(s) && Enabled(s, step)
    ensures Inv(Next(s, step))
  {
    match step
    case Lookup(t, scan, stage) => LookupKeeps(s, t, scan, stage);
    case Call(t) => CallKeeps(s, t);
    case Raise(t) =>
    case ReadStage(t, result) => ReadingKeeps(s, t, s.acts[t].scan, s.acts[t].stage, AsPayload(result));
    case ReadCommit(t, scan, stage, payload) => ReadingKeeps(s, t, scan, stage, payload);
    case Insert(t) => InsertKeeps(s, t);
    case Restart =>
  }

  lemma {:induction false} RunKeeps(steps: seq<Step>)
    requires ValidRun(steps)
    ensures Inv(After(steps))
  {
    if steps != [] {
      RunKeeps(steps[..|steps| - 1]);
      StepKeeps(After(steps[..|steps| - 1]), steps[|steps| - 1]);
    }
  }

  ghost predicate NoRepeats(stages: seq<nat>) {
    forall i, j | 0 <= i < j < |stages| :: stages[i] != stages[j]
  }

  /** In every interleaving no stage of a scan is written twice. */
  lemma StagesWrittenOnce(steps: seq<Step>, scan: ScanId)
    requires ValidRun(steps)
    ensures NoRepeats(StagesOf(After(steps).rows, scan))
  {
    RunKeeps(steps);
    WrittenNoRepeats(After(steps).log, |After(steps).log|, scan);
  }

  lemma {:induction false} WrittenNoRepeats(log: seq<Entry>, n: nat, scan: ScanId)
    requires n <= |log| && forall i | 0 <= i < |log| :: EntryGood(log, i)
    ensures NoRepeats(WrittenBy(log, n, scan))
  {
    if n > 0 {
      WrittenNoRepeats(log, n - 1, scan);
      assert EntryGood(log, n - 1);
    }
  }

  // ----- Calls after the write -----

  /** Call `j` of a stage's callback comes after the write `i` of its checkpoint. */
  ghost predicate LateCall(log: seq<Entry>, i: nat, j: nat) {
    i < j < |log| && log[j].Called? && WrittenAt(log, i, log[j].scan, log[j].stage)
  }

  /** Write `i` of the stage falls between the lookup of call `j` and the call. */
  ghost predicate WrittenMeanwhile(log: seq<Entry>, i: nat, j: nat) {
    j < |log| && log[j].Called? && log[j].since <= i < j && WrittenAt(log, i, log[j].scan, log[j].stage)
  }

  /** In every interleaving, restarts included: a callback is called after its checkpoint was written exactly when
      its lookup came before that write. A lookup never comes after it. */
  lemma LateExactlyWhenOverlapped(steps: seq<Step>, i: nat, j: nat)
    requires ValidRun(steps)
    ensures LateCall(After(steps).log, i, j) <==> WrittenMeanwhile(After(steps).log, i, j)
    ensures var log := After(steps).log;
            j < |log| && log[j].Called? && WrittenAt(log, i, log[j].scan, log[j].stage) ==> log[j].since <= i
  {
    RunKeeps(steps);
    var log := After(steps).log;
    if j < |log| && log[j].Called? && WrittenAt(log, i, log[j].scan, log[j].stage) {
      assert EntryGood(log, j);
      WrittenMembers(log, log[j].since, log[j].scan, log[j].stage);
    }
  }

  /** Some call on the scan has begun and not ended. */
  ghost predicate Busy(s: State, scan: ScanId) {
    exists t | t in s.acts :: s.acts[t].scan == scan
  }

  predicate Begins(step: Step, scan: ScanId) {
    (step.Lookup? || step.ReadCommit?) && step.scan == scan
  }

  /** No call on the scan begins while another one on it is under way. */
  ghost predicate OneAtATime(steps: seq<Step>, scan: ScanId)
    requires ValidRun(steps)
    decreases |steps|
  {
    steps == [] ||
    (var before, last := steps[..|steps| - 1], steps[|steps| - 1];
     OneAtATime(before, scan) && (Begins(last, scan) ==> !Busy(After(before), scan)))
  }

  /** None of the entries from `since` up to `n` is a write of the scan. */
  ghost predicate Quiet(log: seq<Entry>, since: nat, n: nat, scan: ScanId) {
    forall i | since <= i < n && i < |log| :: !(log[i].Written? && log[i].scan == scan)
  }

  /** What holds of a scan whose calls do not overlap: at most one is under way, nothing was written since it looked,
      and no entry overlapped with a write. */
  ghost predicate Alone(s: State, scan: ScanId) {
    && (forall t, u | t in s.acts && u in s.acts && s.acts[t].scan == scan && s.acts[u].scan == scan :: t == u)
    && (forall t | t in s.acts && s.acts[t].scan == scan && !s.acts[t].CalledBack? :: Quiet(s.log, s.acts[t].since, |s.log|, scan))
    && (forall i | 0 <= i < |s.log| && s.log[i].scan == scan :: Quiet(s.log, s.log[i].since, i, scan))
  }

  lemma AloneAppended(s: State, scan: ScanId, e: Entry)
    requires Alone(s, scan) && Quiet(s.log, e.since, |s.log|, scan)
    ensures forall i | 0 <= i < |s.log + [e]| && (s.log + [e])[i].scan == scan ::
              Quiet(s.log + [e], (s.log + [e])[i].since, i, scan)
  {
    var longer := s.log + [e];
    forall i | 0 <= i < |longer| && longer[i].scan == scan ensures Quiet(longer, longer[i].since, i, scan) {
      assert i < |s.log| ==> Quiet(s.log, s.log[i].since, i, scan);
    }
  }

  lemma StepAlone(s: State, step: Step, scan: ScanId)
    requires Inv(s) && Alone(s, scan) && Enabled(s, step) && (Begins(step, scan) ==> !Busy(s, scan))
    ensures Alone(Next(s, step), scan)
  {
    match step
    case Call(t) =>
      var a := s.acts[t];
      if a.scan == scan { AloneAppended(s, scan, Called(a.scan, a.stage, a.since)); }
    case Insert(t) =>
      var a := s.acts[t];
      assert ActGood(s.log, a);
      if a.scan == scan { AloneAppended(s, scan, Written(a.row.scan, a.row.stage, a.since)); }
    case _ =>
  }

  lemma {:induction false} RunAlone(steps: seq<Step>, scan: ScanId)
    requires ValidRun(steps) && OneAtATime(steps, scan)
    ensures Alone(After(steps), scan)
  {
    if steps != [] {
      RunAlone(steps[..|steps| - 1], scan);
      RunKeeps(steps[..|steps| - 1]);
      StepAlone(After(steps[..|steps| - 1]), steps[|steps| - 1], scan);
    }
  }

  /** When the calls on a scan do not overlap, restarts included, none of its callbacks is called after that stage's
      checkpoint is written. */
  lemma StagesRunOnce(steps: seq<Step>, scan: ScanId, i: nat, j: nat)
    requires ValidRun(steps) && OneAtATime(steps, scan)
    ensures !(LateCall(After(steps).log, i, j) && After(steps).log[j].scan == scan)
  {
    RunAlone(steps, scan);
    LateExactlyWhenOverlapped(steps, i, j);
    var log := After(steps).log;
    assert j < |log| && log[j].scan == scan ==> Quiet(log, log[j].since, j, scan);
  }

  /** Two overlapping calls of one stage: the second is called back after the first wrote the checkpoint. */
  lemma OverlapCallsAgain(result: Value) returns (steps: seq<Step>)
    ensures ValidRun(steps) && !OneAtATime(steps, 1) && LateCall(After(steps).log, 1, 2)
            && After(steps).log[2].scan == 1
  {
    var row := Row(1, 0, AsPayload(result));
    Extend([], Lookup(1, 1, 0));
    steps := [] + [Lookup(1, 1, 0)];
    assert After(steps) == State([], map[1 := LookedUp(1, 0, 0)], []);
    Extend(steps, Lookup(2, 1, 0));
    steps := steps + [Lookup(2, 1, 0)];
    assert After(steps) == State([], map[1 := LookedUp(1, 0, 0), 2 := LookedUp(1, 0, 0)], []);
    Extend(steps, Call(1));
    steps := steps + [Call(1)];
    assert After(steps) == State([], map[1 := CalledBack(1, 0), 2 := LookedUp(1, 0, 0)], [Called(1, 0, 0)]);
    Extend(steps, ReadStage(1, result));
    steps := steps + [ReadStage(1, result)];
    assert After(steps) == State([], map[1 := Inserting(1, row, 1), 2 := LookedUp(1, 0, 0)], [Called(1, 0, 0)]);
    Extend(steps, Insert(1));
    steps := steps + [Insert(1)];
    assert After(steps) == State([row], map[2 := LookedUp(1, 0, 0)], [Called(1, 0, 0), Written(1, 0, 1)]);
    Extend(steps, Call(2));
    steps := steps + [Call(2)];
    assert After(steps).log == [Called(1, 0, 0), Written(1, 0, 1), Called(1, 0, 0)];
    if OneAtATime(steps, 1) { StagesRunOnce(steps, 1, 1, 2); }
  }

  // ----- The order of the checkpoints -----

  /** Strictly increasing. */
  ghost predicate Climbs(stages: seq<nat>) {
    forall i, j | 0 <= i < j < |stages| :: stages[i] < stages[j]
  }

  /** The rows of every scan climb the stage order. */
  ghost predicate Increasing(rows: seq<Row>) {
    forall scan :: Climbs(StagesOf(rows, scan))
  }

  /** A later stage of the scan was written between the read and the insert of write `i`. */
  ghost predicate Overtaken(log: seq<Entry>, i: nat) {
    i < |log| && log[i].Written? &&
    exists k | log[i].since <= k < i :: log[k].Written? && log[k].scan == log[i].scan && log[k].stage > log[i].stage
  }

  lemma ClimbsOneMore(stages: seq<nat>, stage: nat)
    ensures Climbs(stages + [stage]) <==> Climbs(stages) && forall x | x in stages :: x < stage
  {
    var longer := stages + [stage];
    assert forall i | 0 <= i < |stages| :: longer[i] == stages[i] && stages[i] in stages;
    if Climbs(longer) {
      forall i, j | 0 <= i < j < |stages| ensures stages[i] < stages[j] { assert longer[i] < longer[j]; }
      forall x | x in stages ensures x < stage {
        var i :| 0 <= i < |stages| && stages[i] == x;
        assert longer[i] < longer[|stages|];
      }
    }
  }

  /** Whatever climbs and ends below a stage lies below it. */
  lemma ClimbsBelow(stages: seq<nat>, stage: nat, x: nat)
    requires Climbs(stages) && x in stages && stages[|stages| - 1] < stage
    ensures x < stage
  {
    var i :| 0 <= i < |stages| && stages[i] == x;
    assert i < |stages| - 1 ==> stages[i] < stages[|stages| - 1];
  }

  /** A write keeps its scan climbing exactly when it was not overtaken. */
  lemma WriteClimbs(log: seq<Entry>, n: nat)
    requires n < |log| && log[n].Written? && EntryGood(log, n) && Climbs(WrittenBy(log, n, log[n].scan))
    ensures (forall x | x in WrittenBy(log, n, log[n].scan) :: x < log[n].stage) <==> !Overtaken(log, n)
  {
    var e, all := log[n], WrittenBy(log, n, log[n].scan);
    var read := WrittenBy(log, e.since, e.scan);
    WrittenPrefix(log, e.since, n, e.scan);
    if Overtaken(log, n) {
      var k :| e.since <= k < n && log[k].Written? && log[k].scan == e.scan && log[k].stage > e.stage;
      assert WrittenAt(log, k, e.scan, log[k].stage);
      WrittenMembers(log, n, e.scan, log[k].stage);
    } else {
      forall x | x in all ensures x < e.stage {
        WrittenMembers(log, n, e.scan, x);
        var k :| 0 <= k < n && WrittenAt(log, k, e.scan, x);
        if k < e.since {
          WrittenMembers(log, e.since, e.scan, x);
          ClimbsBelow(read, e.stage, x);
        }
      }
    }
  }

  lemma {:induction false} ClimbsExactly(log: seq<Entry>, n: nat, scan: ScanId)
    requires n <= |log| && forall i | 0 <= i < |log| :: EntryGood(log, i)
    ensures Climbs(WrittenBy(log, n, scan)) <==> forall i | 0 <= i < n && log[i].scan == scan :: !Overtaken(log, i)
  {
    if n > 0 {
      ClimbsExactly(log, n - 1, scan);
      var e, earlier := log[n - 1], WrittenBy(log, n - 1, scan);
      if e.Written? && e.scan == scan {
        ClimbsOneMore(earlier, e.stage);
        assert EntryGood(log, n - 1);
        if Climbs(earlier) { WriteClimbs(log, n - 1); }
      }
    }
  }

  /** In every interleaving the checkpoints of a scan climb the stage order exactly when none of its commits was
      overtaken: no later stage was written between its read and its insert. */
  lemma ScanClimbs(steps: seq<Step>, scan: ScanId)
    requires ValidRun(steps)
    ensures var log := After(steps).log;
            Climbs(StagesOf(After(steps).rows, scan)) <==> forall i | 0 <= i < |log| && log[i].scan == scan :: !Overtaken(log, i)
  {
    RunKeeps(steps);
    ClimbsExactly(After(steps).log, |After(steps).log|, scan);
  }

  lemma CheckpointsIncrease(steps: seq<Step>)
    requires ValidRun(steps)
    ensures Increasing(After(steps).rows) <==> forall i: nat :: !Overtaken(After(steps).log, i)
  {
    forall scan { ScanClimbs(steps, scan); }
    var log := After(steps).log;
    if Increasing(After(steps).rows) {
      forall i: nat ensures !Overtaken(log, i) {
        if Overtaken(log, i) { ScanClimbs(steps, log[i].scan); }
      }
    }
  }

  /** So commits that do not overlap keep the order. */
  lemma OneAtATimeClimbs(steps: seq<Step>, scan: ScanId)
    requires ValidRun(steps) && OneAtATime(steps, scan)
    ensures Climbs(StagesOf(After(steps).rows, scan))
  {
    RunKeeps(steps);
    RunAlone(steps, scan);
    var log := After(steps).log;
    forall i | 0 <= i < |log| && log[i].scan == scan ensures !Overtaken(log, i) {
      assert Quiet(log, log[i].since, i, scan);
    }
    ScanClimbs(steps, scan);
  }

  /** Two overlapping commits of one scan can write their stages out of order. */
  lemma OverlapBreaksOrder(payload: Value) returns (steps: seq<Step>)
    ensures ValidRun(steps) && !OneAtATime(steps, 1) && !Increasing(After(steps).rows)
  {
    var one, two := Row(1, 1, payload), Row(1, 2, payload);
    Extend([], ReadCommit(1, 1, 1, payload));
    steps := [] + [ReadCommit(1, 1, 1, payload)];
    assert After(steps) == State([], map[1 := Inserting(1, one, 0)], []);
    Extend(steps, ReadCommit(2, 1, 2, payload));
    steps := steps + [ReadCommit(2, 1, 2, payload)];
    assert After(steps) == State([], map[1 := Inserting(1, one, 0), 2 := Inserting(1, two, 0)], []);
    Extend(steps, Insert(2));
    steps := steps + [Insert(2)];
    assert After(steps) == State([two], map[1 := Inserting(1, one, 0)], [Written(1, 2, 0)]);
    Extend(steps, Insert(1));
    steps := steps + [Insert(1)];
    assert After(steps).log == [Written(1, 2, 0), Written(1, 1, 0)];
    assert Overtaken(After(steps).log, 1) by { assert After(steps).log[0].stage > After(steps).log[1].stage; }
    CheckpointsIncrease(steps);
    if OneAtATime(steps, 1) { ScanClimbs(steps, 1); OneAtATimeClimbs(steps, 1); }
  }
}
