/** The budget of a scan under overlapping callers (`BudgetLedger` in app/ops/runtime.py).

    `consume_artifact` and `consume_llm` read the usage and write the new one in two transactions, and `mark_complete`
    reads the status in one and writes it in another. The machine follows one of the two meters; whatever else exceeds a
    budget of the scan only marks it incomplete. */
module BudgetRuns {
  import opened Budget

  /** A charge: what it writes to the usage column, and how many charges were written when it read it. */
  datatype Charged = Charged(size: nat, requested: nat, since: nat)

  /** A write to the status column, and how many were done when its call read it. */
  datatype Marked = Marked(to: Status, since: nat)

  /** Where a call is between its read and its write. */
  datatype Act = Charging(charge: Charged) | Over | Completing(since: nat)

  /** `charges` and `marks` are the writes so far, in order. */
  datatype State = State(used: nat, status: Status, acts: seq<Act>, charges: seq<Charged>, marks: seq<Marked>)

  datatype Step =
    | Read(size: nat)       // of the usage: the charge fits or does not
    | Write(index: nat)
    | Exceed(index: nat)
    | Elsewhere             // another budget of the scan is exceeded
    | Snapshot              // by `mark_complete`, of an active budget
    | Finish(index: nat)

  const START := State(0, Active, [], [], [])

  predicate Enabled(s: State, step: Step) {
    match step
    case Read(_) => true
    case Write(index) => index < |s.acts| && s.acts[index].Charging?
    case Exceed(index) => index < |s.acts| && s.acts[index].Over?
    case Elsewhere => true
    case Snapshot => s.status == Active
    case Finish(index) => index < |s.acts| && s.acts[index].Completing?
  }

  function Without(acts: seq<Act>, index: nat): seq<Act>
    requires index < |acts|
  {
    acts[..index] + acts[index + 1..]
  }

  function Next(limit: nat, s: State, step: Step): State
    requires Enabled(s, step)
  {
    match step
    case Read(size) =>
      s.(acts := s.acts + [if Charge(Meter(s.used, limit), size).Success?
                           then Charging(Charged(size, s.used + size, |s.charges|)) else Over])
    case Write(index) =>
      var c := s.acts[index].charge;
      s.(used := c.requested, acts := Without(s.acts, index), charges := s.charges + [c])
    case Exceed(index) =>
      s.(status := Incomplete, acts := Without(s.acts, index), marks := s.marks + [Marked(Incomplete, |s.marks|)])
    case Elsewhere => s.(status := Incomplete, marks := s.marks + [Marked(Incomplete, |s.marks|)])
    case Snapshot => s.(acts := s.acts + [Completing(|s.marks|)])
    case Finish(index) =>
      s.(status := Complete, acts := Without(s.acts, index), marks := s.marks + [Marked(Complete, s.acts[index].since)])
  }

  ghost predicate ValidRun(limit: nat, steps: seq<Step>)
    decreases |steps|, 0
  {
    steps == [] || (ValidRun(limit, steps[..|steps| - 1]) && Enabled(After(limit, steps[..|steps| - 1]), steps[|steps| - 1]))
  }

  ghost function After(limit: nat, steps: seq<Step>): State
    requires ValidRun(limit, steps)
    decreases |steps|, 1
  {
    if steps == [] then START else Next(limit, After(limit, steps[..|steps| - 1]), steps[|steps| - 1])
  }

  lemma Extend(limit: nat, steps: seq<Step>, step: Step)
    requires ValidRun(limit, steps) && Enabled(After(limit, steps), step)
    ensures ValidRun(limit, steps + [step]) && After(limit, steps + [step]) == Next(limit, After(limit, steps), step)
  {
    assert (steps + [step])[..|steps|] == steps;
  }

  // ----- The columns as their writes left them -----

  /** The usage column after the first n charges. */
  function UsedAfter(charges: seq<Charged>, n: nat): nat
    requires n <= |charges|
  {
    if n == 0 then 0 else charges[n - 1].requested
  }

  /** What the first n charges were for. */
  function Total(charges: seq<Charged>, n: nat): nat
    requires n <= |charges|
  {
    if n == 0 then 0 else Total(charges, n - 1) + charges[n - 1].size
  }

  /** The status column after the first n writes to it. */
  function StatusAfter(marks: seq<Marked>, n: nat): Status
    requires n <= |marks|
  {
    if n == 0 then Active else marks[n - 1].to
  }

  ghost predicate ChargeGood(limit: nat, charges: seq<Charged>, c: Charged, n: nat) {
    c.since <= n <= |charges| && c.requested == UsedAfter(charges, c.since) + c.size <= limit
  }

  ghost predicate MarkGood(marks: seq<Marked>, m: Marked, n: nat) {
    m.since <= n <= |marks| && m.to != Active && (m.to == Complete ==> StatusAfter(marks, m.since) == Active)
  }

  ghost predicate ActGood(limit: nat, s: State, a: Act) {
    match a
    case Charging(c) => ChargeGood(limit, s.charges, c, |s.charges|)
    case Over => true
    case Completing(since) => since <= |s.marks| && StatusAfter(s.marks, since) == Active
  }

  ghost predicate ChargesGood(limit: nat, charges: seq<Charged>) {
    forall k {:trigger ChargeGood(limit, charges, charges[k], k)} | 0 <= k < |charges| :: ChargeGood(limit, charges, charges[k], k)
  }

  ghost predicate MarksGood(marks: seq<Marked>) {
    forall k {:trigger MarkGood(marks, marks[k], k)} | 0 <= k < |marks| :: MarkGood(marks, marks[k], k)
  }

  ghost predicate ActsGood(limit: nat, s: State) {
    forall k {:trigger ActGood(limit, s, s.acts[k])} | 0 <= k < |s.acts| :: ActGood(limit, s, s.acts[k])
  }

  ghost predicate Inv(limit: nat, s: State) {
    && s.used == UsedAfter(s.charges, |s.charges|) && s.status == StatusAfter(s.marks, |s.marks|)
    && ChargesGood(limit, s.charges) && MarksGood(s.marks) && ActsGood(limit, s)
  }

  lemma ActStays(limit: nat, s: State, t: State, a: Act)
    requires ActGood(limit, s, a) && s.charges <= t.charges && s.marks <= t.marks
    ensures ActGood(limit, t, a)
  {}

  lemma ChargeWritten(limit: nat, charges: seq<Charged>, c: Charged)
    requires ChargesGood(limit, charges) && ChargeGood(limit, charges, c, |charges|)
    ensures ChargesGood(limit, charges + [c])
  {
    var more := charges + [c];
    forall k | 0 <= k < |more| ensures ChargeGood(limit, more, more[k], k) {
      assert k < |charges| ==> ChargeGood(limit, charges, charges[k], k);
    }
  }

  lemma MarkWritten(marks: seq<Marked>, m: Marked)
    requires MarksGood(marks) && MarkGood(marks, m, |marks|)
    ensures MarksGood(marks + [m])
  {
    var more := marks + [m];
    forall k | 0 <= k < |more| ensures MarkGood(more, more[k], k) {
      assert k < |marks| ==> MarkGood(marks, marks[k], k);
    }
  }

  lemma ActsStay(limit: nat, s: State, step: Step)
    requires Inv(limit, s) && Enabled(s, step)
    ensures ActsGood(limit, Next(limit, s, step))
  {
    var t := Next(limit, s, step);
    forall k | 0 <= k < |t.acts| ensures ActGood(limit, t, t.acts[k]) {
      if step.Write? || step.Exceed? || step.Finish? {
        ActStays(limit, s, t, s.acts[if k < step.index then k else k + 1]);
      } else if k < |s.acts| {
        ActStays(limit, s, t, s.acts[k]);
      }
    }
  }

  lemma StepInv(limit: nat, s: State, step: Step)
    requires Inv(limit, s) && Enabled(s, step)
    ensures Inv(limit, Next(limit, s, step))
  {
    ActsStay(limit, s, step);
    match step
    case Write(index) =>
      assert ActGood(limit, s, s.acts[index]);
      ChargeWritten(limit, s.charges, s.acts[index].charge);
    case Exceed(index) => MarkWritten(s.marks, Marked(Incomplete, |s.marks|));
    case Elsewhere => MarkWritten(s.marks, Marked(Incomplete, |s.marks|));
    case Finish(index) =>
      assert ActGood(limit, s, s.acts[index]);
      MarkWritten(s.marks, Marked(Complete, s.acts[index].since));
    case _ =>
  }

  lemma {:induction false} RunInv(limit: nat, steps: seq<Step>)
    requires ValidRun(limit, steps)
    ensures Inv(limit, After(limit, steps))
  {
    if steps != [] {
      RunInv(limit, steps[..|steps| - 1]);
      StepInv(limit, After(limit, steps[..|steps| - 1]), steps[|steps| - 1]);
    }
  }

  // ----- Lost charges -----

  /** Charge k read the usage before charge i was written, and i was for something: k writes i away. */
  ghost predicate WritesAway(charges: seq<Charged>, i: nat, k: nat) {
    i < k < |charges| && charges[k].since <= i && charges[i].size > 0
  }

  ghost predicate NoneLost(charges: seq<Charged>) {
    forall i, k :: !WritesAway(charges, i, k)
  }

  /** After every charge the usage column holds the sum of all charges so far. */
  ghost predicate ExactAlways(charges: seq<Charged>) {
    forall m | 0 <= m <= |charges| :: UsedAfter(charges, m) == Total(charges, m)
  }

  lemma {:induction false} TotalGrows(charges: seq<Charged>, i: nat, k: nat)
    requires i <= k <= |charges|
    ensures Total(charges, i) <= Total(charges, k)
  {
    if i < k { TotalGrows(charges, i, k - 1); }
  }

  lemma {:induction false} TotalStays(charges: seq<Charged>, i: nat, k: nat)
    requires i <= k <= |charges| && forall j | i <= j < k :: charges[j].size == 0
    ensures Total(charges, i) == Total(charges, k)
  {
    if i < k { TotalStays(charges, i, k - 1); }
  }

  lemma {:induction false} UsedBelow(limit: nat, charges: seq<Charged>, n: nat)
    requires ChargesGood(limit, charges) && n <= |charges|
    ensures UsedAfter(charges, n) <= Total(charges, n) && UsedAfter(charges, n) <= limit
    decreases n
  {
    if n > 0 {
      assert ChargeGood(limit, charges, charges[n - 1], n - 1);
      UsedBelow(limit, charges, charges[n - 1].since);
      TotalGrows(charges, charges[n - 1].since, n - 1);
    }
  }

  lemma {:induction false} ExactWithoutLoss(limit: nat, charges: seq<Charged>, n: nat)
    requires ChargesGood(limit, charges) && NoneLost(charges) && n <= |charges|
    ensures UsedAfter(charges, n) == Total(charges, n)
    decreases n
  {
    if n > 0 {
      var c := charges[n - 1];
      assert ChargeGood(limit, charges, c, n - 1);
      ExactWithoutLoss(limit, charges, c.since);
      forall j | c.since <= j < n - 1 ensures charges[j].size == 0 { assert !WritesAway(charges, j, n - 1); }
      TotalStays(charges, c.since, n - 1);
    }
  }

  lemma LossShows(limit: nat, charges: seq<Charged>, i: nat, k: nat)
    requires ChargesGood(limit, charges) && WritesAway(charges, i, k)
    ensures UsedAfter(charges, k + 1) < Total(charges, k + 1)
  {
    var c := charges[k];
    assert ChargeGood(limit, charges, c, k);
    UsedBelow(limit, charges, c.since);
    TotalGrows(charges, c.since, i);
    assert Total(charges, i + 1) == Total(charges, i) + charges[i].size;
    TotalGrows(charges, i + 1, k);
  }

  /** In every interleaving the recorded usage stays within the limit and never exceeds what was charged; it is what was
      charged, after every charge, exactly when no charge was written between the read and the write of another. */
  lemma UsageExact(limit: nat, steps: seq<Step>)
    requires ValidRun(limit, steps)
    ensures var s := After(limit, steps);
            && s.used <= limit && s.used <= Total(s.charges, |s.charges|)
            && (ExactAlways(s.charges) <==> NoneLost(s.charges))
  {
    RunInv(limit, steps);
    var charges := After(limit, steps).charges;
    UsedBelow(limit, charges, |charges|);
    if NoneLost(charges) {
      forall m | 0 <= m <= |charges|
        ensures UsedAfter(charges, m) == Total(charges, m)
      {
        ExactWithoutLoss(limit, charges, m);
      }
    } else {
      var i, k :| WritesAway(charges, i, k);
      LossShows(limit, charges, i, k);
    }
  }

  // ----- Calls that do not overlap -----

  /** A call reads only when no other is between its read and its write. */
  ghost predicate OneAtATime(limit: nat, steps: seq<Step>)
    requires ValidRun(limit, steps)
  {
    steps == []
    || (OneAtATime(limit, steps[..|steps| - 1])
        && (!steps[|steps| - 1].Write? && !steps[|steps| - 1].Exceed? && !steps[|steps| - 1].Finish?
            ==> After(limit, steps[..|steps| - 1]).acts == []))
  }

  /** Every write was read right before it. */
  ghost predicate Fresh(s: State) {
    && (forall k | 0 <= k < |s.charges| :: s.charges[k].since == k)
    && (forall k | 0 <= k < |s.marks| :: s.marks[k].since == k)
    && |s.acts| <= 1 && forall a | a in s.acts :: (a.Charging? ==> a.charge.since == |s.charges|) && (a.Completing? ==> a.since == |s.marks|)
  }

  lemma StepFresh(limit: nat, s: State, step: Step)
    requires Fresh(s) && Enabled(s, step)
    requires !step.Write? && !step.Exceed? && !step.Finish? ==> s.acts == []
    ensures Fresh(Next(limit, s, step))
  {
    if step.Write? || step.Exceed? || step.Finish? {
      assert step.index == 0 && s.acts[0] in s.acts && Without(s.acts, 0) == [];
    }
  }

  lemma {:induction false} RunFresh(limit: nat, steps: seq<Step>)
    requires ValidRun(limit, steps) && OneAtATime(limit, steps)
    ensures Fresh(After(limit, steps))
  {
    if steps != [] {
      RunFresh(limit, steps[..|steps| - 1]);
      StepFresh(limit, After(limit, steps[..|steps| - 1]), steps[|steps| - 1]);
    }
  }

  /** A charge that nothing overlaps is what the ledger's own call does: it is added when it fits, and otherwise it leaves
      the usage and marks the scan. */
  lemma WholeCharge(limit: nat, s: State, size: nat)
    requires s.acts == []
    ensures var read := Next(limit, s, Read(size));
            var charged := Charge(Meter(s.used, limit), size);
            if charged.Success?
            then Enabled(read, Write(0)) && !Enabled(read, Exceed(0))
                 && Next(limit, read, Write(0)).used == charged.value.used == s.used + size
                 && Next(limit, read, Write(0)).status == s.status && Next(limit, read, Write(0)).acts == []
            else Enabled(read, Exceed(0)) && !Enabled(read, Write(0))
                 && Next(limit, read, Exceed(0)).used == s.used
                 && Next(limit, read, Exceed(0)).status == Incomplete && Next(limit, read, Exceed(0)).acts == []
  {
    assert Without(Next(limit, s, Read(size)).acts, 0) == [];
  }

  // ----- No mark without an excess -----

  /** What all charges of a run asked for. */
  function Asked(steps: seq<Step>): nat {
    if steps == [] then 0
    else Asked(steps[..|steps| - 1]) + if steps[|steps| - 1].Read? then steps[|steps| - 1].size else 0
  }

  /** Nothing was refused, and nothing is more than what was asked for. */
  ghost predicate Modest(s: State, asked: nat) {
    && s.used <= asked && s.status != Incomplete
    && (forall m | m in s.marks :: m.to == Complete)
    && forall a | a in s.acts :: a.Completing? || (a.Charging? && a.charge.requested <= asked)
  }

  /** However calls overlap: when all charges together stay within the limit and no other budget is exceeded, every one of
      them fits and the scan is never marked incomplete. */
  lemma {:induction false} NoMarkWithoutExcess(limit: nat, steps: seq<Step>)
    requires ValidRun(limit, steps) && Elsewhere !in steps && Asked(steps) <= limit
    ensures Modest(After(limit, steps), Asked(steps))
  {
    if steps != [] {
      var front, step := steps[..|steps| - 1], steps[|steps| - 1];
      NoMarkWithoutExcess(limit, front);
      var s := After(limit, front);
      assert s.acts != [] && (step.Write? || step.Exceed? || step.Finish?) ==> s.acts[step.index] in s.acts;
    }
  }

  /** So when calls do not overlap, what was charged stays within the limit. */
  lemma LimitHolds(limit: nat, steps: seq<Step>)
    requires ValidRun(limit, steps) && OneAtATime(limit, steps)
    ensures var s := After(limit, steps); s.used == Total(s.charges, |s.charges|) <= limit
  {
    RunInv(limit, steps);
    RunFresh(limit, steps);
    UsageExact(limit, steps);
    var charges := After(limit, steps).charges;
    assert NoneLost(charges);
    ExactWithoutLoss(limit, charges, |charges|);
  }

  /** Two overlapping charges, each of the whole limit, are both accepted. */
  lemma OverlapOverspends(limit: nat) returns (steps: seq<Step>)
    requires limit > 0
    ensures ValidRun(limit, steps)
    ensures var s := After(limit, steps); s.used == limit && Total(s.charges, |s.charges|) == 2 * limit && s.status == Active
  {
    var c := Charged(limit, limit, 0);
    var one := [] + [Read(limit)];
    Extend(limit, [], Read(limit));
    assert After(limit, one) == State(0, Active, [Charging(c)], [], []);
    var two := one + [Read(limit)];
    Extend(limit, one, Read(limit));
    assert After(limit, two) == State(0, Active, [Charging(c), Charging(c)], [], []);
    var three := two + [Write(0)];
    Extend(limit, two, Write(0));
    assert After(limit, three) == State(limit, Active, [Charging(c)], [c], []);
    steps := three + [Write(0)];
    Extend(limit, three, Write(0));
    assert After(limit, steps) == State(limit, Active, [], [c, c], []);
    assert Total([c, c], 1) == limit;
  }

  // ----- A scan marked complete -----

  lemma ActiveOnlyAtFirst(marks: seq<Marked>, n: nat)
    requires MarksGood(marks) && n <= |marks|
    ensures StatusAfter(marks, n) == Active <==> n == 0
  {
    if n > 0 { assert MarkGood(marks, marks[n - 1], n - 1); }
  }

  /** The status after every write from the i-th on is Incomplete. */
  ghost predicate StaysIncomplete(marks: seq<Marked>, i: nat) {
    forall m | i < m <= |marks| :: StatusAfter(marks, m) == Incomplete
  }

  /** `mark_complete` finished as write k, after its scan's budget was exceeded as write i. */
  ghost predicate CompletedLater(marks: seq<Marked>, i: nat, k: nat) {
    i < k < |marks| && marks[k].to == Complete
  }

  /** In every interleaving: once a budget was exceeded its scan stays incomplete exactly when no `mark_complete` finishes
      later, and one that does had looked before anything was exceeded. */
  lemma IncompleteStays(limit: nat, steps: seq<Step>, i: nat)
    requires ValidRun(limit, steps) && i < |After(limit, steps).marks| && After(limit, steps).marks[i].to == Incomplete
    ensures var marks := After(limit, steps).marks;
            && (StaysIncomplete(marks, i) <==> forall k :: !CompletedLater(marks, i, k))
            && (forall k | 0 <= k < |marks| && marks[k].to == Complete :: marks[k].since == 0)
  {
    RunInv(limit, steps);
    var marks := After(limit, steps).marks;
    forall k | 0 <= k < |marks| ensures marks[k].to == Complete ==> marks[k].since == 0 {
      assert MarkGood(marks, marks[k], k);
      ActiveOnlyAtFirst(marks, marks[k].since);
    }
    MarksDecide(marks, i);
  }

  lemma MarksDecide(marks: seq<Marked>, i: nat)
    requires MarksGood(marks) && i < |marks| && marks[i].to == Incomplete
    ensures StaysIncomplete(marks, i) <==> forall k :: !CompletedLater(marks, i, k)
  {
    if forall k :: !CompletedLater(marks, i, k) {
      forall m | i < m <= |marks| ensures StatusAfter(marks, m) == Incomplete {
        assert MarkGood(marks, marks[m - 1], m - 1) && !CompletedLater(marks, i, m - 1);
      }
    }
    if StaysIncomplete(marks, i) {
      forall k: nat | i < k < |marks| ensures !CompletedLater(marks, i, k) {
        assert StatusAfter(marks, k + 1) == Incomplete;
      }
    }
  }

  /** So when calls do not overlap, a scan whose budget was exceeded is never marked complete. */
  lemma ExceededNeverComplete(limit: nat, steps: seq<Step>, i: nat)
    requires ValidRun(limit, steps) && OneAtATime(limit, steps)
    requires i < |After(limit, steps).marks| && After(limit, steps).marks[i].to == Incomplete
    ensures After(limit, steps).status == Incomplete
  {
    RunInv(limit, steps);
    RunFresh(limit, steps);
    IncompleteStays(limit, steps, i);
    var marks := After(limit, steps).marks;
    assert forall k :: !CompletedLater(marks, i, k);
    assert StatusAfter(marks, |marks|) == Incomplete;
  }

  /** With overlap it can be: the budget is exceeded between the two halves of `mark_complete`. */
  lemma OverlapHidesExcess(limit: nat) returns (steps: seq<Step>)
    ensures ValidRun(limit, steps)
    ensures var s := After(limit, steps); s.status == Complete && s.marks == [Marked(Incomplete, 0), Marked(Complete, 0)]
  {
    var one := [] + [Snapshot];
    Extend(limit, [], Snapshot);
    assert After(limit, one) == State(0, Active, [Completing(0)], [], []);
    var two := one + [Elsewhere];
    Extend(limit, one, Elsewhere);
    assert After(limit, two) == State(0, Incomplete, [Completing(0)], [], [Marked(Incomplete, 0)]);
    steps := two + [Finish(0)];
    Extend(limit, two, Finish(0));
  }
}
