/** The rate governor under any interleaving of callers (`RateGovernor.acquire` in app/security/rate_governor.py).

    A bucket is an object: a caller resolves its key's bucket once and keeps it, also when `set_policy` takes that
    bucket off the map while the caller sleeps. */
module RateGovernorRuns {
  import opened RateGovernor

  type Caller = nat

  /** A bucket object, as it was made and as it is. The object at position SHARED is the shared one. */
  datatype Object = Object(key: string, initial: Bucket, bucket: Bucket)

  const SHARED: nat := 0

  /** Where a caller is inside `acquire`. */
  datatype Act =
    | OnShared(key: string, cost: real)            // takes turns on the shared bucket
    | WantsKey(key: string, cost: real)            // has been granted there
    | Holding(key: string, cost: real, id: nat)    // takes turns on the bucket it resolved

  /** One turn of a caller for `key` on a bucket. */
  datatype Turn = Turn(key: string, id: nat, try: Try, granted: bool)

  /** `current` is the dict of buckets, `objects` all buckets ever made, `traffic` every turn so far. */
  datatype State = State(
    defaultPolicy: Policy,
    policies: map<string, Policy>,
    objects: seq<Object>,
    current: map<string, nat>,
    acts: map<Caller, Act>,
    clock: real,
    traffic: seq<Turn>)

  datatype Step =
    | Begin(t: Caller, key: string, cost: real)    // up to the cost check of the shared bucket
    | TakeTurn(t: Caller, now: real)
    | Resolve(t: Caller, now: real)                // `_bucket`, and the cost check of that bucket
    | Cancel(t: Caller)
    | SetPolicy(key: string, policy: Policy)

  function Init(globalPolicy: Policy, defaultPolicy: Policy, now: real): State {
    State(defaultPolicy, map[], [Object("", Full(globalPolicy, now), Full(globalPolicy, now))], map[], map[], now, [])
  }

  /** The bucket a caller takes its turns on. */
  function Target(a: Act): nat {
    if a.Holding? then a.id else SHARED
  }

  predicate Enabled(s: State, step: Step) {
    match step
    case Begin(t, _, _) => t !in s.acts
    case TakeTurn(t, now) => t in s.acts && !s.acts[t].WantsKey? && now >= s.clock
    case Resolve(t, now) => t in s.acts && s.acts[t].WantsKey? && now >= s.clock
    case Cancel(t) => t in s.acts
    case SetPolicy(key, policy) => ValidPolicy(policy)
  }

  function PolicyFor(s: State, key: string): Policy {
    if key in s.policies then s.policies[key] else s.defaultPolicy
  }

  /** The object `_bucket` answers with: the one on the map, or a new one. */
  function Resolved(s: State, key: string, now: real): (State, nat) {
    if key in s.current then (s, s.current[key])
    else
      var made := Full(PolicyFor(s, key), now);
      (s.(objects := s.objects + [Object(key, made, made)], current := s.current[key := |s.objects|]), |s.objects|)
  }

  ghost predicate AllValid(s: State) {
    && |s.objects| > SHARED
    && ValidPolicy(s.defaultPolicy)
    && (forall k | k in s.policies :: ValidPolicy(s.policies[k]))
    && (forall i | 0 <= i < |s.objects| ::
          ValidBucket(s.objects[i].initial) && ValidBucket(s.objects[i].bucket)
          && s.objects[i].bucket.policy == s.objects[i].initial.policy)
    && (forall k | k in s.current :: SHARED < s.current[k] < |s.objects|)
    && (forall t | t in s.acts :: Target(s.acts[t]) < |s.objects|)
  }

  function AfterTurn(s: State, t: Caller, now: real): State
    requires AllValid(s) && Enabled(s, TakeTurn(t, now))
  {
    var a, id := s.acts[t], Target(s.acts[t]);
    var (next, verdict) := Attempt(s.objects[id].bucket, a.cost, now);
    s.(objects := s.objects[id := s.objects[id].(bucket := next)], clock := now,
       traffic := s.traffic + [Turn(a.key, id, Try(a.cost, now), verdict.Granted?)],
       acts := if !verdict.Granted? then s.acts
               else if a.OnShared? then s.acts[t := WantsKey(a.key, a.cost)] else s.acts - {t})
  }

  function AfterResolve(s: State, t: Caller, now: real): State
    requires AllValid(s) && Enabled(s, Resolve(t, now))
  {
    var a := s.acts[t];
    var (r, id) := Resolved(s, a.key, now);
    r.(clock := now,
       acts := if CheckCost(r.objects[id].bucket.policy, a.cost).Some? then s.acts - {t} else s.acts[t := Holding(a.key, a.cost, id)])
  }

  ghost function Next(s: State, step: Step): State
    requires AllValid(s) && Enabled(s, step)
  {
    match step
    case Begin(t, key, cost) =>
      if CheckCost(s.objects[SHARED].bucket.policy, cost).Some? then s else s.(acts := s.acts[t := OnShared(key, cost)])
    case TakeTurn(t, now) => AfterTurn(s, t, now)
    case Resolve(t, now) => AfterResolve(s, t, now)
    case Cancel(t) => s.(acts := s.acts - {t})
    case SetPolicy(key, policy) => s.(policies := s.policies[key := policy], current := s.current - {key})
  }

  // ----- What each bucket sees -----

  /** The attempts among the first n turns that were made on object `id`. */
  function TriesOn(traffic: seq<Turn>, n: nat, id: nat): seq<Try>
    requires n <= |traffic|
  {
    if n == 0 then []
    else
      var earlier, turn := TriesOn(traffic, n - 1, id), traffic[n - 1];
      if turn.id == id then earlier + [turn.try] else earlier
  }

  function GrantIf(taken: bool, turn: Turn): real {
    if taken && turn.granted then turn.try.cost else 0.0
  }

  /** The cost granted among the first n turns on object `id`. */
  function GrantedOn(traffic: seq<Turn>, n: nat, id: nat): real
    requires n <= |traffic|
  {
    if n == 0 then 0.0 else GrantedOn(traffic, n - 1, id) + GrantIf(traffic[n - 1].id == id, traffic[n - 1])
  }

  /** A turn on one of the buckets of a key. */
  predicate ForKey(turn: Turn, key: string) {
    turn.key == key && turn.id != SHARED
  }

  /** The cost granted among the first n turns by the buckets of a key. */
  function GrantedFor(traffic: seq<Turn>, n: nat, key: string): real
    requires n <= |traffic|
  {
    if n == 0 then 0.0 else GrantedFor(traffic, n - 1, key) + GrantIf(ForKey(traffic[n - 1], key), traffic[n - 1])
  }

  /** A bucket has seen exactly these attempts, one after the other. */
  ghost predicate Saw(initial: Bucket, now: Bucket, tries: seq<Try>, clock: real) {
    && ValidBucket(initial) && now == After(initial, tries) && InTime(initial.updatedAt, tries)
    && EndTime(initial.updatedAt, tries) <= clock
  }

  ghost predicate ObjectGood(s: State, id: nat)
    requires id < |s.objects|
  {
    Saw(s.objects[id].initial, s.objects[id].bucket, TriesOn(s.traffic, |s.traffic|, id), s.clock)
  }

  ghost predicate TurnGood(s: State, i: nat)
    requires i < |s.traffic|
  {
    var turn := s.traffic[i];
    && turn.id < |s.objects| && (turn.id != SHARED ==> s.objects[turn.id].key == turn.key)
    && ValidPolicy(s.objects[turn.id].initial.policy)
    && turn.granted == Attempt(After(s.objects[turn.id].initial, TriesOn(s.traffic, i, turn.id)), turn.try.cost, turn.try.now).1.Granted?
  }

  ghost predicate ActGood(s: State, a: Act)
    requires Target(a) < |s.objects|
  {
    && CheckCost(s.objects[Target(a)].bucket.policy, a.cost).None?
    && (a.Holding? ==> a.id != SHARED && s.objects[a.id].key == a.key)
  }

  ghost predicate CurrentGood(s: State, key: string)
    requires key in s.current
  {
    s.current[key] < |s.objects| && s.objects[s.current[key]].key == key
    && s.objects[s.current[key]].bucket.policy == PolicyFor(s, key)
  }

  ghost predicate Inv(s: State) {
    && AllValid(s)
    && (forall i | 0 <= i < |s.objects| :: ObjectGood(s, i))
    && (forall k | k in s.current :: CurrentGood(s, k))
    && (forall i | 0 <= i < |s.traffic| :: TurnGood(s, i))
    && (forall t | t in s.acts :: ActGood(s, s.acts[t]))
  }

  lemma {:induction false} TriesExtended(traffic: seq<Turn>, more: seq<Turn>, n: nat, id: nat)
    requires n <= |traffic|
    ensures TriesOn(traffic + more, n, id) == TriesOn(traffic, n, id)
  {
    if n > 0 { TriesExtended(traffic, more, n - 1, id); }
  }

  lemma TriesAppended(traffic: seq<Turn>, turn: Turn, id: nat)
    ensures TriesOn(traffic + [turn], |traffic|, id) == TriesOn(traffic, |traffic|, id)
    ensures TriesOn(traffic + [turn], |traffic| + 1, id)
         == if turn.id == id then TriesOn(traffic, |traffic|, id) + [turn.try] else TriesOn(traffic, |traffic|, id)
  {
    TriesExtended(traffic, [turn], |traffic|, id);
  }

  /** No turn was made on an object that did not exist yet. */
  lemma {:induction false} NoTriesYet(traffic: seq<Turn>, n: nat, id: nat)
    requires n <= |traffic| && forall i | 0 <= i < |traffic| :: traffic[i].id < id
    ensures TriesOn(traffic, n, id) == []
  {
    if n > 0 { NoTriesYet(traffic, n - 1, id); }
  }

  /** One more attempt, not before the clock. */
  lemma SawOneMore(initial: Bucket, b: Bucket, tries: seq<Try>, clock: real, cost: real, now: real)
    requires Saw(initial, b, tries, clock) && cost > 0.0 && now >= clock
    ensures ValidBucket(b) && ValidBucket(Attempt(b, cost, now).0)
    ensures Saw(initial, Attempt(b, cost, now).0, tries + [Try(cost, now)], now)
  {
    TokensAccounted(initial, tries);
    AttemptAccounts(b, Try(cost, now));
    var more := tries + [Try(cost, now)];
    assert more[..|tries|] == tries;
    forall i | 0 <= i < |more| ensures InTimeAt(initial.updatedAt, more, i) {
      if i < |tries| { assert InTimeAt(initial.updatedAt, tries, i); }
    }
  }

  /** The turns already made stay right when the buckets move on and more turns are logged. */
  lemma TurnsStayGood(s: State, t: State)
    requires (forall i | 0 <= i < |s.traffic| :: TurnGood(s, i)) && s.traffic <= t.traffic && |s.objects| <= |t.objects|
    requires forall i | 0 <= i < |s.objects| :: t.objects[i].initial == s.objects[i].initial && t.objects[i].key == s.objects[i].key
    ensures forall i | 0 <= i < |s.traffic| :: TurnGood(t, i)
  {
    forall i | 0 <= i < |s.traffic| ensures TurnGood(t, i) {
      assert TurnGood(s, i);
      var more := t.traffic[|s.traffic|..];
      assert t.traffic == s.traffic + more;
      TriesExtended(s.traffic, more, i, s.traffic[i].id);
    }
  }

  lemma TurnObjects(s: State, t: Caller, now: real)
    requires Inv(s) && Enabled(s, TakeTurn(t, now))
    ensures var u := AfterTurn(s, t, now); AllValid(u) && forall i | 0 <= i < |u.objects| :: ObjectGood(u, i)
  {
    var a, u := s.acts[t], AfterTurn(s, t, now);
    var id := Target(a);
    assert ActGood(s, a) && ObjectGood(s, id);
    SawOneMore(s.objects[id].initial, s.objects[id].bucket, TriesOn(s.traffic, |s.traffic|, id), s.clock, a.cost, now);
    forall i | 0 <= i < |u.objects| ensures ObjectGood(u, i) {
      assert ObjectGood(s, i);
      TriesAppended(s.traffic, u.traffic[|s.traffic|], i);
    }
  }

  lemma TurnTurns(s: State, t: Caller, now: real)
    requires Inv(s) && Enabled(s, TakeTurn(t, now))
    ensures var u := AfterTurn(s, t, now); forall i | 0 <= i < |u.traffic| :: TurnGood(u, i)
  {
    var a, u := s.acts[t], AfterTurn(s, t, now);
    assert ActGood(s, a) && ObjectGood(s, Target(a));
    TurnsStayGood(s, u);
    TriesAppended(s.traffic, u.traffic[|s.traffic|], Target(a));
    assert TurnGood(u, |s.traffic|);
  }

  lemma TurnKeeps(s: State, t: Caller, now: real)
    requires Inv(s) && Enabled(s, TakeTurn(t, now))
    ensures Inv(AfterTurn(s, t, now))
  {
    var u := AfterTurn(s, t, now);
    TurnObjects(s, t, now);
    TurnTurns(s, t, now);
    forall k | k in u.current ensures CurrentGood(u, k) { assert CurrentGood(s, k); }
    forall x | x in u.acts ensures ActGood(u, u.acts[x]) { assert ActGood(s, s.acts[x]); }
  }

  lemma ResolveObjects(s: State, t: Caller, now: real)
    requires Inv(s) && Enabled(s, Resolve(t, now))
    ensures var u := AfterResolve(s, t, now); AllValid(u) && forall i | 0 <= i < |u.objects| :: ObjectGood(u, i)
  {
    var u := AfterResolve(s, t, now);
    forall i | 0 <= i < |s.traffic| ensures s.traffic[i].id < |s.objects| { assert TurnGood(s, i); }
    NoTriesYet(s.traffic, |s.traffic|, |s.objects|);
    forall i | 0 <= i < |u.objects| ensures ObjectGood(u, i) { assert i < |s.objects| ==> ObjectGood(s, i); }
  }

  lemma ResolveCurrent(s: State, t: Caller, now: real)
    requires Inv(s) && Enabled(s, Resolve(t, now))
    ensures var u := AfterResolve(s, t, now); forall k | k in u.current :: CurrentGood(u, k)
  {
    var u := AfterResolve(s, t, now);
    forall k | k in u.current ensures CurrentGood(u, k) { assert k in s.current ==> CurrentGood(s, k); }
  }

  lemma ResolveKeeps(s: State, t: Caller, now: real)
    requires Inv(s) && Enabled(s, Resolve(t, now))
    ensures Inv(AfterResolve(s, t, now))
  {
    var u := AfterResolve(s, t, now);
    ResolveObjects(s, t, now);
    ResolveCurrent(s, t, now);
    TurnsStayGood(s, u);
    forall x | x in u.acts ensures ActGood(u, u.acts[x]) { assert ActGood(s, s.acts[x]); }
  }

  lemma PolicyKeeps(s: State, key: string, policy: Policy)
    requires Inv(s) && ValidPolicy(policy)
    ensures Inv(Next(s, SetPolicy(key, policy)))
  {
    var u := Next(s, SetPolicy(key, policy));
    TurnsStayGood(s, u);
    forall i | 0 <= i < |u.objects| ensures ObjectGood(u, i) { assert ObjectGood(s, i); }
    forall k | k in u.current ensures CurrentGood(u, k) { assert CurrentGood(s, k); }
    forall x | x in u.acts ensures ActGood(u, u.acts[x]) { assert ActGood(s, s.acts[x]); }
  }

  /** Only the callers change. */
  lemma ActsKeep(s: State, acts: map<Caller, Act>)
    requires Inv(s) && forall t | t in acts :: Target(acts[t]) < |s.objects| && ActGood(s, acts[t])
    ensures Inv(s.(acts := acts))
  {
    var u := s.(acts := acts);
    TurnsStayGood(s, u);
    forall i | 0 <= i < |u.objects| ensures ObjectGood(u, i) { assert ObjectGood(s, i); }
    forall k | k in u.current ensures CurrentGood(u, k) { assert CurrentGood(s, k); }
    forall x | x in u.acts ensures ActGood(u, u.acts[x]) { assert ActGood(s, acts[x]); }
  }

  lemma StepKeeps(s: State, step: Step)
    requires Inv(s) && Enabled(s, step)
    ensures Inv(Next(s, step))
  {
    match step
    case TakeTurn(t, now) => TurnKeeps(s, t, now);
    case Resolve(t, now) => ResolveKeeps(s, t, now);
    case SetPolicy(key, policy) => PolicyKeeps(s, key, policy);
    case Begin(t, key, cost) => ActsKeep(s, Next(s, step).acts);
    case Cancel(t) => ActsKeep(s, Next(s, step).acts);
  }

  /** The step is a turn of caller t on this bucket, answered so. */
  ghost predicate TookTurn(s: State, u: State, step: Step, t: Caller, id: nat, granted: bool) {
    && t in s.acts && step == TakeTurn(t, u.clock)
    && u.traffic == s.traffic + [Turn(s.acts[t].key, id, Try(s.acts[t].cost, u.clock), granted)]
  }

  /** What a caller that is inside `acquire` after one step was before it. */
  ghost predicate CameFrom(s: State, u: State, step: Step, t: Caller)
    requires t in u.acts
  {
    var a := u.acts[t];
    || (t in s.acts && s.acts[t] == a && (!step.SetPolicy? && step.t == t ==> TookTurn(s, u, step, t, Target(a), false)))
    || (t !in s.acts && step == Begin(t, a.key, a.cost) && a.OnShared?)
    || (t in s.acts && s.acts[t] == OnShared(a.key, a.cost) && a.WantsKey? && TookTurn(s, u, step, t, SHARED, true))
    || (t in s.acts && s.acts[t] == WantsKey(a.key, a.cost) && a.Holding? && step == Resolve(t, u.clock))
  }

  /** How a caller that was inside `acquire` comes to be out of it: cancelled, granted by the bucket it held, or refused by
      that bucket's cost check. */
  ghost predicate Left(s: State, u: State, step: Step, t: Caller)
    requires t in s.acts
  {
    || step == Cancel(t)
    || (s.acts[t].Holding? && TookTurn(s, u, step, t, s.acts[t].id, true))
    || (s.acts[t].WantsKey? && step == Resolve(t, u.clock) && s.acts[t].cost > PolicyFor(s, s.acts[t].key).burst)
  }

  /** The order of `acquire`, for every caller in every interleaving: the shared bucket first, until it grants; then the
      key's bucket is resolved; then that bucket, until it grants. */
  lemma CallerProtocol(s: State, step: Step, t: Caller)
    requires Inv(s) && Enabled(s, step)
    ensures var u := Next(s, step);
            && (t in u.acts ==> CameFrom(s, u, step, t))
            && (t in s.acts && t !in u.acts ==> Left(s, u, step, t))
            && (step == Cancel(t) ==> t !in u.acts)
            && (!step.TakeTurn? ==> u.traffic == s.traffic)
            && s.clock <= u.clock
  {
    if step.Resolve? { CurrentPolicy(s, s.acts[step.t].key, step.now); }
    if step.Resolve? { assert ActGood(s, s.acts[step.t]); }
  }

  lemma InitInv(globalPolicy: Policy, defaultPolicy: Policy, now: real)
    requires ValidPolicy(globalPolicy) && ValidPolicy(defaultPolicy)
    ensures Inv(Init(globalPolicy, defaultPolicy, now))
  {
  }

  ghost predicate ValidFrom(s: State, steps: seq<Step>)
    requires Inv(s)
    decreases |steps|, 0
  {
    steps == [] || (ValidFrom(s, steps[..|steps| - 1]) && Enabled(AfterAll(s, steps[..|steps| - 1]), steps[|steps| - 1]))
  }

  ghost function AfterAll(s: State, steps: seq<Step>): (t: State)
    requires Inv(s) && ValidFrom(s, steps)
    ensures Inv(t)
    decreases |steps|, 1
  {
    if steps == [] then s
    else
      var before := AfterAll(s, steps[..|steps| - 1]);
      StepKeeps(before, steps[|steps| - 1]);
      Next(before, steps[|steps| - 1])
  }

  lemma Extend(s: State, steps: seq<Step>, step: Step)
    requires Inv(s) && ValidFrom(s, steps) && Enabled(AfterAll(s, steps), step)
    ensures ValidFrom(s, steps + [step]) && AfterAll(s, steps + [step]) == Next(AfterAll(s, steps), step)
  {
    assert (steps + [step])[..|steps|] == steps;
  }

  /** After every run each bucket has seen exactly the attempts of the callers that took turns on it: on the shared one
      those of all callers, on any other one those of callers of its key. */
  lemma BucketsSeeTheirHolders(s: State, steps: seq<Step>, id: nat)
    requires Inv(s) && ValidFrom(s, steps) && id < |AfterAll(s, steps).objects|
    ensures var u := AfterAll(s, steps);
            && u.objects[id].bucket == After(u.objects[id].initial, TriesOn(u.traffic, |u.traffic|, id))
            && (forall i | 0 <= i < |u.traffic| && u.traffic[i].id == id && id != SHARED :: u.traffic[i].key == u.objects[id].key)
  {
    var u := AfterAll(s, steps);
    assert ObjectGood(u, id);
    forall i | 0 <= i < |u.traffic| && u.traffic[i].id == id && id != SHARED
      ensures u.traffic[i].key == u.objects[id].key
    {
      assert TurnGood(u, i);
    }
  }

  // ----- Bounds -----

  /** The turns of the window on this object lie between the two times. */
  ghost predicate Between(traffic: seq<Turn>, from: nat, to: nat, id: nat, start: real, end: real) {
    forall i | from <= i < to && i < |traffic| && traffic[i].id == id :: start <= traffic[i].try.now <= end
  }

  lemma {:induction false} GrantedMatches(s: State, n: nat, id: nat)
    requires Inv(s) && n <= |s.traffic| && id < |s.objects|
    ensures GrantedCost(s.objects[id].initial, TriesOn(s.traffic, n, id)) == GrantedOn(s.traffic, n, id)
  {
    if n > 0 {
      GrantedMatches(s, n - 1, id);
      assert TurnGood(s, n - 1);
      var earlier, turn := TriesOn(s.traffic, n - 1, id), s.traffic[n - 1];
      if turn.id == id { assert (earlier + [turn.try])[..|earlier|] == earlier; }
    }
  }

  lemma {:induction false} TriesPrefix(traffic: seq<Turn>, m: nat, n: nat, id: nat)
    requires m <= n <= |traffic|
    ensures TriesOn(traffic, m, id) <= TriesOn(traffic, n, id)
  {
    if m < n { TriesPrefix(traffic, m, n - 1, id); }
  }

  lemma {:induction false} TriesBetween(traffic: seq<Turn>, m: nat, n: nat, id: nat, start: real, end: real)
    requires m <= n <= |traffic| && Between(traffic, m, n, id, start, end)
    ensures forall k | |TriesOn(traffic, m, id)| <= k < |TriesOn(traffic, n, id)| ::
              start <= TriesOn(traffic, n, id)[k].now <= end
  {
    if m < n {
      TriesPrefix(traffic, m, n - 1, id);
      TriesBetween(traffic, m, n - 1, id, start, end);
    }
  }

  lemma EarnedMonotone(a: real, b: real, start: real, end: real, rate: real)
    requires start <= a <= b <= end && rate > 0.0
    ensures Earned(a, b, rate) <= Earned(start, end, rate)
  {
    GrowthNonNegative(end - start - (b - a), rate);
  }

  lemma {:induction false} InTimeOrdered(from: real, tries: seq<Try>, i: nat, j: nat)
    requires InTime(from, tries) && i <= j < |tries|
    ensures tries[i].now <= tries[j].now
  {
    if i < j {
      InTimeOrdered(from, tries, i, j - 1);
      assert InTimeAt(from, tries, j);
    }
  }

  lemma WholeInTime(s: State, n: nat, id: nat)
    requires Inv(s) && n <= |s.traffic| && id < |s.objects|
    ensures InTime(s.objects[id].initial.updatedAt, TriesOn(s.traffic, n, id))
  {
    var all := TriesOn(s.traffic, |s.traffic|, id);
    assert ObjectGood(s, id);
    TriesPrefix(s.traffic, n, |s.traffic|, id);
    InTimeSlice(s.objects[id].initial.updatedAt, all, 0, |TriesOn(s.traffic, n, id)|);
    assert all[..|TriesOn(s.traffic, n, id)|] == TriesOn(s.traffic, n, id);
  }

  /** In any window of any run, what one bucket grants is at most its burst plus its rate times the window's length. On
      the shared bucket that bounds all keys together. */
  lemma ObjectWindowBound(s: State, id: nat, from: nat, to: nat, start: real, end: real)
    requires Inv(s) && id < |s.objects| && from <= to <= |s.traffic| && start <= end
    requires Between(s.traffic, from, to, id, start, end)
    ensures GrantedOn(s.traffic, to, id) - GrantedOn(s.traffic, from, id)
         <= s.objects[id].initial.policy.burst + Earned(start, end, s.objects[id].initial.policy.rate)
  {
    var o, all := s.objects[id], TriesOn(s.traffic, to, id);
    var i := |TriesOn(s.traffic, from, id)|;
    TriesPrefix(s.traffic, from, to, id);
    TriesBetween(s.traffic, from, to, id, start, end);
    GrantedMatches(s, from, id);
    GrantedMatches(s, to, id);
    WholeInTime(s, to, id);
    assert all[..|all|] == all && all[..i] == TriesOn(s.traffic, from, id);
    TriesWindowBound(o.initial, all, i, start, end);
  }

  /** WindowBound with any two times around the window. */
  lemma TriesWindowBound(b: Bucket, tries: seq<Try>, i: nat, start: real, end: real)
    requires ValidBucket(b) && InTime(b.updatedAt, tries) && i <= |tries| && start <= end
    requires forall k | i <= k < |tries| :: start <= tries[k].now <= end
    ensures GrantedCost(b, tries) - GrantedCost(b, tries[..i]) <= b.policy.burst + Earned(start, end, b.policy.rate)
  {
    assert tries[..|tries|] == tries;
    if i < |tries| {
      WindowBound(b, tries, i, |tries|);
      InTimeOrdered(b.updatedAt, tries, i, |tries| - 1);
      EarnedMonotone(tries[i].now, tries[|tries| - 1].now, start, end, b.policy.rate);
    } else {
      EarnedNonNegative(start, end, b.policy.rate);
    }
  }

  lemma EarnedNonNegative(start: real, end: real, rate: real)
    requires start <= end && rate > 0.0
    ensures Earned(start, end, rate) >= 0.0
  {
    GrowthNonNegative(end - start, rate);
  }

  // ----- When a key's traffic goes through one bucket -----

  /** No caller holds a bucket of the key other than the one on the map. */
  ghost predicate OneBucket(s: State, key: string) {
    forall t | t in s.acts && s.acts[t].Holding? && s.acts[t].key == key :: key in s.current && s.acts[t].id == s.current[key]
  }

  ghost predicate KeepsPolicy(steps: seq<Step>, key: string) {
    forall i | 0 <= i < |steps| :: !(steps[i].SetPolicy? && steps[i].key == key)
  }

  /** All turns for the key from position `from` on are on one bucket. */
  ghost predicate SameObject(traffic: seq<Turn>, from: nat, key: string) {
    forall i, j | from <= i < |traffic| && from <= j < |traffic| && ForKey(traffic[i], key) && ForKey(traffic[j], key) ::
      traffic[i].id == traffic[j].id
  }

  /** The turns for the key from `from` on are on the bucket that is on the map. */
  ghost predicate OnCurrent(s: State, from: nat, key: string) {
    forall i | from <= i < |s.traffic| && ForKey(s.traffic[i], key) :: key in s.current && s.traffic[i].id == s.current[key]
  }

  lemma StepOnCurrent(s: State, step: Step, from: nat, key: string)
    requires Inv(s) && Enabled(s, step) && !(step.SetPolicy? && step.key == key)
    requires OneBucket(s, key) && OnCurrent(s, from, key)
    ensures OnCurrent(Next(s, step), from, key)
  {
  }

  lemma StepOneBucket(s: State, step: Step, key: string)
    requires Inv(s) && Enabled(s, step) && !(step.SetPolicy? && step.key == key) && OneBucket(s, key)
    ensures OneBucket(Next(s, step), key)
  {
  }

  lemma StepKeepsPolicy(s: State, step: Step, key: string)
    requires Inv(s) && Enabled(s, step) && !(step.SetPolicy? && step.key == key)
    ensures |Next(s, step).traffic| >= |s.traffic| && PolicyFor(Next(s, step), key) == PolicyFor(s, key)
  {
  }

  lemma {:induction false} RunOneBucket(s: State, steps: seq<Step>, key: string)
    requires Inv(s) && ValidFrom(s, steps) && KeepsPolicy(steps, key) && OneBucket(s, key)
    ensures var u := AfterAll(s, steps);
            OneBucket(u, key) && OnCurrent(u, |s.traffic|, key) && |u.traffic| >= |s.traffic|
               && PolicyFor(u, key) == PolicyFor(s, key)
  {
    if steps != [] {
      var front := steps[..|steps| - 1];
      RunOneBucket(s, front, key);
      StepOneBucket(AfterAll(s, front), steps[|steps| - 1], key);
      StepKeepsPolicy(AfterAll(s, front), steps[|steps| - 1], key);
      StepOnCurrent(AfterAll(s, front), steps[|steps| - 1], |s.traffic|, key);
    }
  }

  lemma {:induction false} SameGrants(traffic: seq<Turn>, from: nat, to: nat, key: string, id: nat)
    requires from <= to <= |traffic|
    requires forall i | from <= i < to :: ForKey(traffic[i], key) <==> traffic[i].id == id
    ensures GrantedFor(traffic, to, key) - GrantedFor(traffic, from, key) == GrantedOn(traffic, to, id) - GrantedOn(traffic, from, id)
  {
    if from < to { SameGrants(traffic, from, to - 1, key, id); }
  }

  lemma {:induction false} NoGrants(traffic: seq<Turn>, from: nat, to: nat, key: string)
    requires from <= to <= |traffic| && forall i | from <= i < to :: !ForKey(traffic[i], key)
    ensures GrantedFor(traffic, to, key) == GrantedFor(traffic, from, key)
  {
    if from < to { NoGrants(traffic, from, to - 1, key); }
  }

  ghost predicate BetweenFor(traffic: seq<Turn>, from: nat, to: nat, key: string, start: real, end: real) {
    forall i | from <= i < to && i < |traffic| && ForKey(traffic[i], key) :: start <= traffic[i].try.now <= end
  }

  /** From a state in which no caller holds an older bucket of the key, and until its policy is set again, everything
      granted to the key in a window is at most its burst plus its rate times the window's length. */
  lemma KeyWindowBound(s: State, steps: seq<Step>, key: string, from: nat, to: nat, start: real, end: real)
    requires Inv(s) && ValidFrom(s, steps) && KeepsPolicy(steps, key) && OneBucket(s, key) && start <= end
    requires |s.traffic| <= from <= to <= |AfterAll(s, steps).traffic|
    requires BetweenFor(AfterAll(s, steps).traffic, from, to, key, start, end)
    ensures var u := AfterAll(s, steps);
            GrantedFor(u.traffic, to, key) - GrantedFor(u.traffic, from, key)
            <= PolicyFor(s, key).burst + Earned(start, end, PolicyFor(s, key).rate)
  {
    RunOneBucket(s, steps, key);
    CurrentWindowBound(AfterAll(s, steps), key, |s.traffic|, from, to, start, end);
  }

  lemma CurrentWindowBound(u: State, key: string, since: nat, from: nat, to: nat, start: real, end: real)
    requires Inv(u) && OnCurrent(u, since, key) && since <= from <= to <= |u.traffic| && start <= end
    requires BetweenFor(u.traffic, from, to, key, start, end)
    ensures GrantedFor(u.traffic, to, key) - GrantedFor(u.traffic, from, key)
         <= PolicyFor(u, key).burst + Earned(start, end, PolicyFor(u, key).rate)
  {
    if key in u.current {
      var id := u.current[key];
      assert CurrentGood(u, key);
      forall i | from <= i < to ensures ForKey(u.traffic[i], key) <==> u.traffic[i].id == id { assert TurnGood(u, i); }
      SameGrants(u.traffic, from, to, key, id);
      ObjectWindowBound(u, id, from, to, start, end);
    } else {
      NoGrants(u.traffic, from, to, key);
      KeyPolicyValid(u, key);
      EarnedNonNegative(start, end, PolicyFor(u, key).rate);
    }
  }

  lemma KeyPolicyValid(s: State, key: string)
    requires AllValid(s)
    ensures ValidPolicy(PolicyFor(s, key))
  {
  }

  /** A caller outside any call. */
  lemma {:induction false} SomeoneElse(callers: set<Caller>) returns (u: Caller)
    ensures forall t | t in callers :: t < u
  {
    if callers == {} {
      u := 0;
    } else {
      var t :| t in callers;
      var v := SomeoneElse(callers - {t});
      u := if v > t then v else t + 1;
      assert forall x | x in callers :: x == t || x in callers - {t};
    }
  }

  /** The policy of the bucket that the next caller of a key is given. */
  lemma CurrentPolicy(s: State, key: string, now: real)
    requires Inv(s)
    ensures var (r, id) := Resolved(s, key, now);
            id < |r.objects| && r.objects[id].bucket.policy == PolicyFor(s, key)
  {
    if key in s.current { assert CurrentGood(s, key); }
  }

  /** A time by which every bucket is full again. */
  lemma {:induction false} AllFull(objects: seq<Object>, clock: real) returns (now: real)
    requires forall i | 0 <= i < |objects| :: ValidBucket(objects[i].bucket)
    ensures now >= clock && forall i | 0 <= i < |objects| :: FullBy(objects[i].bucket, now)
  {
    if objects == [] {
      now := clock;
    } else {
      var last := objects[|objects| - 1].bucket;
      var earlier := AllFull(objects[..|objects| - 1], clock);
      var due := last.updatedAt + last.policy.burst / last.policy.rate;
      now := if earlier > due then earlier else due;
      forall i | 0 <= i < |objects| ensures FullBy(objects[i].bucket, now) {
        if i < |objects| - 1 { assert FullBy(objects[..|objects| - 1][i].bucket, earlier); }
      }
    }
  }

  /** A turn that is granted. */
  lemma GrantedTurn(s: State, t: Caller, now: real)
    requires AllValid(s) && Enabled(s, TakeTurn(t, now))
    requires Attempt(s.objects[Target(s.acts[t])].bucket, s.acts[t].cost, now).1.Granted?
    ensures var a, u := s.acts[t], Next(s, TakeTurn(t, now));
            && u.traffic == s.traffic + [Turn(a.key, Target(a), Try(a.cost, now), true)]
            && u.acts == (if a.OnShared? then s.acts[t := WantsKey(a.key, a.cost)] else s.acts - {t})
            && u.current == s.current && u.policies == s.policies && u.defaultPolicy == s.defaultPolicy
            && u.clock == now
            && |u.objects| == |s.objects|
            && forall i | 0 <= i < |s.objects| && i != Target(a) :: u.objects[i] == s.objects[i]
  {
  }

  /** A new caller of a key, with full buckets: it is granted on the shared one and on the one now on the map. */
  lemma NewCallerServed(s: State, u: Caller, key: string, cost: real, now: real) returns (steps: seq<Step>, id: nat)
    requires Inv(s) && u !in s.acts && now >= s.clock && FullBy(s.objects[SHARED].bucket, now)
    requires CheckCost(s.objects[SHARED].bucket.policy, cost).None? && CheckCost(PolicyFor(s, key), cost).None?
    requires key in s.current ==> FullBy(s.objects[s.current[key]].bucket, now)
    ensures ValidFrom(s, steps) && KeepsPolicy(steps, key)
    ensures id == if key in s.current then s.current[key] else |s.objects|
    ensures AfterAll(s, steps).traffic
         == s.traffic + [Turn(key, SHARED, Try(cost, now), true)] + [Turn(key, id, Try(cost, now), true)]
  {
    var first := SharedServed(s, u, key, cost, now);
    var rest;
    rest, id := ResolveAndTake(AfterAll(s, first), u, now);
    steps := Join(s, first, rest, key);
  }

  /** Its part up to the grant on the shared bucket. */
  lemma SharedServed(s: State, u: Caller, key: string, cost: real, now: real) returns (steps: seq<Step>)
    requires Inv(s) && u !in s.acts && now >= s.clock && FullBy(s.objects[SHARED].bucket, now)
    requires CheckCost(s.objects[SHARED].bucket.policy, cost).None?
    ensures ValidFrom(s, steps) && KeepsPolicy(steps, key)
    ensures var v := AfterAll(s, steps);
            && v.traffic == s.traffic + [Turn(key, SHARED, Try(cost, now), true)] && v.clock == now
            && u in v.acts && v.acts[u] == WantsKey(key, cost)
            && v.current == s.current && v.policies == s.policies && v.defaultPolicy == s.defaultPolicy
            && |v.objects| == |s.objects| && forall i | SHARED < i < |s.objects| :: v.objects[i] == s.objects[i]
  {
    Extend(s, [], Begin(u, key, cost));
    var s1 := Next(s, Begin(u, key, cost));
    steps := [] + [Begin(u, key, cost)];
    assert s1 == s.(acts := s.acts[u := OnShared(key, cost)]) && AfterAll(s, steps) == s1;
    FullGrants(s.objects[SHARED].bucket, cost, now);
    GrantedTurn(s1, u, now);
    Extend(s, steps, TakeTurn(u, now));
    steps := steps + [TakeTurn(u, now)];
  }

  /** Its part from the grant on the shared bucket on. */
  lemma ResolveAndTake(s: State, u: Caller, now: real) returns (steps: seq<Step>, id: nat)
    requires Inv(s) && u in s.acts && s.acts[u].WantsKey? && now >= s.clock
    requires CheckCost(PolicyFor(s, s.acts[u].key), s.acts[u].cost).None?
    requires s.acts[u].key in s.current ==> FullBy(s.objects[s.current[s.acts[u].key]].bucket, now)
    ensures ValidFrom(s, steps) && KeepsPolicy(steps, s.acts[u].key)
    ensures id == if s.acts[u].key in s.current then s.current[s.acts[u].key] else |s.objects|
    ensures AfterAll(s, steps).traffic == s.traffic + [Turn(s.acts[u].key, id, Try(s.acts[u].cost, now), true)]
  {
    CurrentPolicy(s, s.acts[u].key, now);
    Extend(s, [], Resolve(u, now));
    StepKeeps(s, Resolve(u, now));
    var s1 := Next(s, Resolve(u, now));
    steps := [] + [Resolve(u, now)];
    assert s1.acts[u].Holding? && s1.acts[u].key == s.acts[u].key && s1.acts[u].cost == s.acts[u].cost;
    id := s1.acts[u].id;
    FreshOrFull(s, s.acts[u].key, now);
    assert AfterAll(s, steps) == s1;
    GrantedTurn(s1, u, now);
    Extend(s, steps, TakeTurn(u, now));
    steps := steps + [TakeTurn(u, now)];
  }

  /** The bucket a new caller resolves grants at once, when the one on the map is full. */
  lemma FreshOrFull(s: State, key: string, now: real)
    requires Inv(s) && (key in s.current ==> FullBy(s.objects[s.current[key]].bucket, now))
    ensures var (r, id) := Resolved(s, key, now);
            id < |r.objects| && forall cost | CheckCost(PolicyFor(s, key), cost).None? :: Attempt(r.objects[id].bucket, cost, now).1.Granted?
  {
    CurrentPolicy(s, key, now);
    KeyPolicyValid(s, key);
    var (r, id) := Resolved(s, key, now);
    if key in s.current {
      forall cost | CheckCost(PolicyFor(s, key), cost).None?
        ensures Attempt(r.objects[id].bucket, cost, now).1.Granted?
      {
        FullGrants(r.objects[id].bucket, cost, now);
      }
    }
  }

  /** One run after another. */
  lemma {:induction false} Join(s: State, a: seq<Step>, b: seq<Step>, key: string) returns (steps: seq<Step>)
    requires Inv(s) && ValidFrom(s, a) && ValidFrom(AfterAll(s, a), b) && KeepsPolicy(a, key) && KeepsPolicy(b, key)
    ensures ValidFrom(s, steps) && AfterAll(s, steps) == AfterAll(AfterAll(s, a), b) && KeepsPolicy(steps, key)
    decreases |b|
  {
    if b == [] {
      steps := a;
    } else {
      var front, last := b[..|b| - 1], b[|b| - 1];
      steps := Join(s, a, front, key);
      Extend(s, steps, last);
      steps := steps + [last];
    }
  }

  /** A caller that still holds an older bucket, and a new caller of the same key: at one and the same instant both are
      granted, each by another bucket, although no policy is set any more. */
  lemma TwoBuckets(s: State, key: string, t: Caller, cost: real) returns (steps: seq<Step>, now: real, id: nat)
    requires Inv(s) && t in s.acts && s.acts[t].Holding? && s.acts[t].key == key
    requires key !in s.current || s.acts[t].id != s.current[key]
    requires CheckCost(s.objects[SHARED].bucket.policy, cost).None? && CheckCost(PolicyFor(s, key), cost).None?
    ensures ValidFrom(s, steps) && KeepsPolicy(steps, key)
    ensures id !in {SHARED, s.acts[t].id}
    ensures AfterAll(s, steps).traffic
         == s.traffic + [Turn(key, s.acts[t].id, Try(s.acts[t].cost, now), true)]
            + [Turn(key, SHARED, Try(cost, now), true)] + [Turn(key, id, Try(cost, now), true)]
  {
    now := AllFull(s.objects, s.clock);
    var u := SomeoneElse(s.acts.Keys);
    assert ActGood(s, s.acts[t]);
    FullGrants(s.objects[s.acts[t].id].bucket, s.acts[t].cost, now);
    GrantedTurn(s, t, now);
    Extend(s, [], TakeTurn(t, now));
    StepKeeps(s, TakeTurn(t, now));
    var s1 := Next(s, TakeTurn(t, now));
    var rest;
    rest, id := NewCallerServed(s1, u, key, cost, now);
    steps := Join(s, [] + [TakeTurn(t, now)], rest, key);
  }

  /** From the start such a caller comes about: it begins, is granted on the shared bucket and resolves the key's bucket,
      and then the key's policy is set. */
  lemma OlderHolderReached(globalPolicy: Policy, defaultPolicy: Policy, now: real, t: Caller, key: string, policy: Policy)
    returns (steps: seq<Step>)
    requires ValidPolicy(globalPolicy) && ValidPolicy(defaultPolicy) && ValidPolicy(policy)
    ensures Inv(Init(globalPolicy, defaultPolicy, now)) && ValidFrom(Init(globalPolicy, defaultPolicy, now), steps)
    ensures var s := AfterAll(Init(globalPolicy, defaultPolicy, now), steps);
            && t in s.acts && s.acts[t].Holding? && s.acts[t].key == key && key !in s.current && !OneBucket(s, key)
  {
    var start := Init(globalPolicy, defaultPolicy, now);
    InitInv(globalPolicy, defaultPolicy, now);
    var later := AllFull(start.objects, now);
    steps := SharedServed(start, t, key, 1.0, later);
    var s1 := AfterAll(start, steps);
    Extend(start, steps, Resolve(t, later));
    steps := steps + [Resolve(t, later)];
    var s2 := AfterAll(start, steps);
    assert s2 == AfterResolve(s1, t, later) && s2.acts[t] == Holding(key, 1.0, |s1.objects|);
    Extend(start, steps, SetPolicy(key, policy));
    steps := steps + [SetPolicy(key, policy)];
    assert AfterAll(start, steps).acts == s2.acts && AfterAll(start, steps).current == s2.current - {key};
  }

  /** Exactly when all of a key's traffic goes through one bucket: in every continuation in which the key's policy is not
      set, all its turns are on the same bucket, if and only if no caller still holds an older one. */
  lemma OneBucketExactly(s: State, key: string)
    requires Inv(s)
    ensures OneBucket(s, key) <==>
              forall steps | ValidFrom(s, steps) && KeepsPolicy(steps, key) :: SameObject(AfterAll(s, steps).traffic, |s.traffic|, key)
  {
    if OneBucket(s, key) {
      forall steps | ValidFrom(s, steps) && KeepsPolicy(steps, key)
        ensures SameObject(AfterAll(s, steps).traffic, |s.traffic|, key)
      {
        RunOneBucket(s, steps, key);
      }
    } else {
      var t :| t in s.acts && s.acts[t].Holding? && s.acts[t].key == key
         && !(key in s.current && s.acts[t].id == s.current[key]);
      KeyPolicyValid(s, key);
      assert ActGood(s, s.acts[t]);
      var steps, now, id := TwoBuckets(s, key, t, 1.0);
      var traffic := AfterAll(s, steps).traffic;
      assert ForKey(traffic[|s.traffic|], key) && ForKey(traffic[|s.traffic| + 2], key);
      assert !SameObject(traffic, |s.traffic|, key);
    }
  }

  /** Then the bound fails: with room on the shared bucket, such a caller and a new one are granted more than the key's
      burst within a window of no length. */
  lemma TwoBucketsExceed(s: State, key: string, t: Caller) returns (steps: seq<Step>, now: real)
    requires Inv(s) && t in s.acts && s.acts[t].Holding? && s.acts[t].key == key
    requires key !in s.current || s.acts[t].id != s.current[key]
    requires PolicyFor(s, key).burst <= s.objects[SHARED].bucket.policy.burst
    ensures ValidFrom(s, steps) && KeepsPolicy(steps, key)
    ensures var traffic := AfterAll(s, steps).traffic;
            && |traffic| > |s.traffic| && BetweenFor(traffic, |s.traffic|, |traffic|, key, now, now)
            && GrantedFor(traffic, |traffic|, key) - GrantedFor(traffic, |s.traffic|, key) > PolicyFor(s, key).burst
  {
    KeyPolicyValid(s, key);
    assert ActGood(s, s.acts[t]);
    var id;
    steps, now, id := TwoBuckets(s, key, t, PolicyFor(s, key).burst);
    ThreeTurns(s.traffic, key, s.acts[t].id, s.acts[t].cost, id, PolicyFor(s, key).burst, now);
  }

  lemma ThreeTurns(traffic: seq<Turn>, key: string, older: nat, c: real, id: nat, cost: real, now: real)
    requires older != SHARED && id != SHARED
    ensures var longer := traffic + [Turn(key, older, Try(c, now), true)] + [Turn(key, SHARED, Try(cost, now), true)]
                          + [Turn(key, id, Try(cost, now), true)];
            && BetweenFor(longer, |traffic|, |longer|, key, now, now)
            && GrantedFor(longer, |longer|, key) - GrantedFor(longer, |traffic|, key) == c + cost
  {
    var longer := traffic + [Turn(key, older, Try(c, now), true)] + [Turn(key, SHARED, Try(cost, now), true)]
                  + [Turn(key, id, Try(cost, now), true)];
    var n := |traffic|;
    assert GrantedFor(longer, n + 1, key) == GrantedFor(longer, n, key) + c;
    assert GrantedFor(longer, n + 2, key) == GrantedFor(longer, n + 1, key);
    assert GrantedFor(longer, n + 3, key) == GrantedFor(longer, n + 2, key) + cost;
  }

  /** Setting a policy while a caller holds the key's bucket leads there, and to nothing else: it makes the next caller's
      bucket a new, full one. */
  lemma SetPolicyRefills(s: State, key: string, policy: Policy, now: real)
    requires Inv(s) && ValidPolicy(policy)
    ensures var u := Next(s, SetPolicy(key, policy));
            && (OneBucket(u, key) <==> !exists t | t in s.acts :: s.acts[t].Holding? && s.acts[t].key == key)
            && var (r, id) := Resolved(u, key, now); id == |s.objects| && r.objects[id].bucket == Full(policy, now)
  {
    var u := Next(s, SetPolicy(key, policy));
    if t :| t in s.acts && s.acts[t].Holding? && s.acts[t].key == key {
      assert t in u.acts && u.acts[t] == s.acts[t];
    }
  }

  /** `acquire` checks the key's burst only after the shared bucket has been charged: of the callers granted there, exactly
      those whose cost is above the key's burst are then refused. */
  lemma ChargedThenRefused(s: State, t: Caller, now: real)
    requires Inv(s) && Enabled(s, Resolve(t, now))
    ensures t !in Next(s, Resolve(t, now)).acts <==> s.acts[t].cost > PolicyFor(s, s.acts[t].key).burst
  {
    assert ActGood(s, s.acts[t]);
    CurrentPolicy(s, s.acts[t].key, now);
  }
}
