/** Token buckets and the two-level rate governor (app/security/rate_governor.py), over exact reals
    and a clock that does not run backwards. */
module RateGovernor {
  import opened Wrappers

  datatype Policy = Policy(rate: real, burst: real)

  predicate ValidPolicy(p: Policy) {
    p.rate > 0.0 && p.burst >= 1.0
  }

  datatype Bucket = Bucket(policy: Policy, tokens: real, updatedAt: real)

  predicate ValidBucket(b: Bucket) {
    ValidPolicy(b.policy) && 0.0 <= b.tokens <= b.policy.burst
  }

  function Full(policy: Policy, now: real): Bucket {
    Bucket(policy, policy.burst, now)
  }

  function Min(a: real, b: real): real { if a <= b then a else b }

  /** `_refill` */
  function Refilled(b: Bucket, now: real): Bucket {
    var elapsed := if now - b.updatedAt > 0.0 then now - b.updatedAt else 0.0;
    b.(tokens := Min(b.policy.burst, b.tokens + elapsed * b.policy.rate), updatedAt := now)
  }

  datatype Verdict = Granted | Wait(delay: real)

  /** One turn of the loop in `acquire`. */
  function Attempt(b: Bucket, cost: real, now: real): (Bucket, Verdict)
    requires ValidPolicy(b.policy)
  {
    var r := Refilled(b, now);
    if r.tokens >= cost then (r.(tokens := r.tokens - cost), Granted)
    else (r, Wait((cost - r.tokens) / r.policy.rate))
  }

  datatype CostError = NotPositive | AboveBurst

  function CheckCost(policy: Policy, cost: real): Option<CostError> {
    if cost <= 0.0 then Some(NotPositive) else if cost > policy.burst then Some(AboveBurst) else None
  }

  class TokenBucket {
    const policy: Policy
    var tokens: real
    var updatedAt: real

    function State(): Bucket
      reads this
    {
      Bucket(policy, tokens, updatedAt)
    }

    constructor (policy: Policy, now: real)
      ensures this.policy == policy && State() == Full(policy, now)
    {
      this.policy, tokens, updatedAt := policy, policy.burst, now;
    }

    method Refill(now: real)
      requires ValidBucket(State())
      modifies this`tokens, this`updatedAt
      ensures State() == Refilled(old(State()), now)
      ensures ValidBucket(State())
    {
      var elapsed := if now - updatedAt > 0.0 then now - updatedAt else 0.0;
      RefillKeepsBounds(State(), now);
      tokens := Min(policy.burst, tokens + elapsed * policy.rate);
      updatedAt := now;
    }

    /** One turn of `acquire` under the lock; the cost has passed the checks that raise before the loop. */
    method TryAcquire(cost: real, now: real) returns (r: Result<Verdict, CostError>)
      requires ValidBucket(State())
      modifies this`tokens, this`updatedAt
      ensures CheckCost(policy, cost).Some? ==> r == Failure(CheckCost(policy, cost).value) && State() == old(State())
      ensures CheckCost(policy, cost).None? ==>
                State() == Attempt(old(State()), cost, now).0 && r == Success(Attempt(old(State()), cost, now).1)
      ensures ValidBucket(State())
    {
      if cost <= 0.0 { return Failure(NotPositive); }
      if cost > policy.burst { return Failure(AboveBurst); }
      Refill(now);
      if tokens >= cost {
        tokens := tokens - cost;
        return Success(Granted);
      }
      var missing := cost - tokens;
      return Success(Wait(missing / policy.rate));
    }
  }

  lemma GrowthNonNegative(elapsed: real, rate: real)
    requires elapsed >= 0.0 && rate > 0.0
    ensures elapsed * rate >= 0.0
  {
  }

  lemma RefillKeepsBounds(b: Bucket, now: real)
    requires ValidBucket(b)
    ensures ValidBucket(Refilled(b, now)) && Refilled(b, now).tokens >= b.tokens
    ensures now >= b.updatedAt ==> Refilled(b, now).tokens <= b.tokens + (now - b.updatedAt) * b.policy.rate
  {
    GrowthNonNegative(if now - b.updatedAt > 0.0 then now - b.updatedAt else 0.0, b.policy.rate);
  }

  // ----- Bounds over any series of attempts -----

  /** Anyone's attempt on the bucket, granted or not. */
  datatype Try = Try(cost: real, now: real)

  predicate InTimeAt(from: real, tries: seq<Try>, i: nat)
    requires i < |tries|
  {
    tries[i].cost > 0.0 && tries[i].now >= if i == 0 then from else tries[i - 1].now
  }

  predicate InTime(from: real, tries: seq<Try>) {
    forall i | 0 <= i < |tries| :: InTimeAt(from, tries, i)
  }

  lemma InTimeSlice(from: real, tries: seq<Try>, i: nat, j: nat)
    requires InTime(from, tries) && i <= j <= |tries|
    ensures InTime(EndTime(from, tries[..i]), tries[i..j])
    ensures InTime(from, tries[..j])
    ensures i < j ==> InTime(tries[i].now, tries[i..j])
  {
    forall k | 0 <= k < j ensures InTimeAt(from, tries[..j], k) { assert InTimeAt(from, tries, k); }
    forall k | 0 <= k < j - i ensures InTimeAt(EndTime(from, tries[..i]), tries[i..j], k) {
      assert InTimeAt(from, tries, i + k);
    }
    if i < j {
      forall k | 0 <= k < j - i ensures InTimeAt(tries[i].now, tries[i..j], k) { assert InTimeAt(from, tries, i + k); }
    }
  }

  function After(b: Bucket, tries: seq<Try>): Bucket
    requires ValidPolicy(b.policy)
    ensures After(b, tries).policy == b.policy
  {
    if tries == [] then b
    else
      var last := tries[|tries| - 1];
      Attempt(After(b, tries[..|tries| - 1]), last.cost, last.now).0
  }

  /** What one attempt takes. */
  function Spent(b: Bucket, t: Try): real
    requires ValidPolicy(b.policy)
  {
    if Attempt(b, t.cost, t.now).1.Granted? then t.cost else 0.0
  }

  /** The total cost granted. */
  function GrantedCost(b: Bucket, tries: seq<Try>): real
    requires ValidPolicy(b.policy)
  {
    if tries == [] then 0.0
    else
      var last := tries[|tries| - 1];
      var before := After(b, tries[..|tries| - 1]);
      GrantedCost(b, tries[..|tries| - 1]) + Spent(before, last)
  }

  function EndTime(from: real, tries: seq<Try>): real {
    if tries == [] then from else tries[|tries| - 1].now
  }

  /** What the passage of time brings. */
  function Earned(from: real, to: real, rate: real): real {
    (to - from) * rate
  }

  lemma EarnedAdds(a: real, b: real, c: real, rate: real)
    ensures Earned(a, b, rate) + Earned(b, c, rate) == Earned(a, c, rate)
  {
  }

  lemma AttemptAccounts(b: Bucket, t: Try)
    requires ValidBucket(b) && t.cost > 0.0 && t.now >= b.updatedAt
    ensures ValidBucket(Attempt(b, t.cost, t.now).0) && Attempt(b, t.cost, t.now).0.updatedAt == t.now
    ensures Attempt(b, t.cost, t.now).0.tokens + Spent(b, t) <= b.tokens + Earned(b.updatedAt, t.now, b.policy.rate)
  {
    RefillKeepsBounds(b, t.now);
  }

  lemma Total(tokens: real, spent: real, before: real, granted: real, start: real, e1: real, e2: real, e: real)
    requires tokens + spent <= before + e2 && before + granted <= start + e1 && e1 + e2 == e
    ensures tokens + (granted + spent) <= start + e
  {
  }

  /** Tokens left plus tokens granted never exceed what was there plus what time has brought, and tokens stay
      between zero and the burst. */
  lemma {:induction false} TokensAccounted(b: Bucket, tries: seq<Try>)
    requires ValidBucket(b) && InTime(b.updatedAt, tries)
    ensures ValidBucket(After(b, tries)) && After(b, tries).updatedAt == EndTime(b.updatedAt, tries) >= b.updatedAt
    ensures After(b, tries).tokens + GrantedCost(b, tries)
         <= b.tokens + Earned(b.updatedAt, EndTime(b.updatedAt, tries), b.policy.rate)
  {
    if tries != [] {
      var front, last := tries[..|tries| - 1], tries[|tries| - 1];
      InTimeSlice(b.updatedAt, tries, 0, |tries| - 1);
      TokensAccounted(b, front);
      assert InTimeAt(b.updatedAt, tries, |tries| - 1);
      var before := After(b, front);
      AttemptAccounts(before, last);
      EarnedAdds(b.updatedAt, before.updatedAt, last.now, b.policy.rate);
      Total(After(b, tries).tokens, Spent(before, last), before.tokens, GrantedCost(b, front), b.tokens,
            Earned(b.updatedAt, before.updatedAt, b.policy.rate), Earned(before.updatedAt, last.now, b.policy.rate),
            Earned(b.updatedAt, last.now, b.policy.rate));
    }
  }

  lemma {:induction false} AfterSplit(b: Bucket, tries: seq<Try>, i: nat)
    requires ValidPolicy(b.policy) && i <= |tries|
    ensures After(b, tries) == After(After(b, tries[..i]), tries[i..])
    ensures GrantedCost(b, tries) == GrantedCost(b, tries[..i]) + GrantedCost(After(b, tries[..i]), tries[i..])
    decreases |tries|
  {
    if i == |tries| {
      assert tries[..i] == tries && tries[i..] == [];
    } else {
      var front := tries[..|tries| - 1];
      AfterSplit(b, front, i);
      assert front[..i] == tries[..i] && front[i..] == tries[i..][..|tries| - i - 1];
    }
  }

  /** In any window of a series of attempts by any number of callers, the cost granted is at most the burst plus
      the rate times the time from the window's first to its last attempt. */
  lemma WindowBound(b: Bucket, tries: seq<Try>, i: nat, j: nat)
    requires ValidBucket(b) && InTime(b.updatedAt, tries) && i < j <= |tries|
    ensures GrantedCost(b, tries[..j]) - GrantedCost(b, tries[..i])
         <= b.policy.burst + Earned(tries[i].now, tries[j - 1].now, b.policy.rate)
  {
    var upto, front, window := tries[..j], tries[..i], tries[i..j];
    assert upto[..i] == front && upto[i..] == window;
    AfterSplit(b, upto, i);
    InTimeSlice(b.updatedAt, tries, 0, i);
    InTimeSlice(b.updatedAt, tries, i, j);
    TokensAccounted(b, front);
    var start := After(b, front);
    SameFromRefill(start, window);
    RefillKeepsBounds(start, tries[i].now);
    TokensAccounted(Refilled(start, tries[i].now), window);
  }

  /** Refilling at the time of the first attempt beforehand changes nothing that follows. */
  lemma {:induction false} SameFromRefill(b: Bucket, tries: seq<Try>)
    requires ValidBucket(b) && tries != []
    ensures ValidPolicy(Refilled(b, tries[0].now).policy)
    ensures After(b, tries) == After(Refilled(b, tries[0].now), tries)
    ensures GrantedCost(b, tries) == GrantedCost(Refilled(b, tries[0].now), tries)
    decreases |tries|
  {
    RefillKeepsBounds(b, tries[0].now);
    var r := Refilled(b, tries[0].now);
    if |tries| == 1 {
      assert Refilled(r, tries[0].now) == r;
      assert tries[..0] == [];
    } else {
      SameFromRefill(b, tries[..|tries| - 1]);
    }
  }

  /** A lone waiter that comes back finds enough tokens exactly when it has slept the delay it was told. */
  lemma LoneWaiterSucceeds(b: Bucket, cost: real, now: real, later: real)
    requires ValidBucket(b) && now >= b.updatedAt && CheckCost(b.policy, cost).None?
    requires Attempt(b, cost, now).1.Wait? && later >= now
    ensures Attempt(b, cost, now).1.delay > 0.0
    ensures Attempt(Attempt(b, cost, now).0, cost, later).1.Granted? <==> later >= now + Attempt(b, cost, now).1.delay
  {
    var r := Refilled(b, now);
    DelayIsExact(cost - r.tokens, r.policy.rate, later - now);
  }

  lemma DelayIsExact(missing: real, rate: real, slept: real)
    requires missing > 0.0 && rate > 0.0
    ensures missing / rate > 0.0
    ensures slept * rate >= missing <==> slept >= missing / rate
  {
    var delay := missing / rate;
    assert delay * rate == missing;
    if slept >= delay {
      assert (slept - delay) * rate >= 0.0;
    } else {
      assert (delay - slept) * rate > 0.0;
    }
  }

  /** By this time the bucket, if left alone, is full again. */
  predicate FullBy(b: Bucket, now: real) {
    ValidPolicy(b.policy) && now >= b.updatedAt + b.policy.burst / b.policy.rate
  }

  /** A full bucket grants whatever its cost check lets through. */
  lemma FullGrants(b: Bucket, cost: real, now: real)
    requires ValidBucket(b) && CheckCost(b.policy, cost).None? && FullBy(b, now)
    ensures Attempt(b, cost, now).1.Granted?
  {
    DelayIsExact(b.policy.burst, b.policy.rate, now - b.updatedAt);
  }

  // ----- The governor: one shared bucket and one per key -----

  class RateGovernor {
    const normalize: string -> string   // strip and casefold
    const defaultPolicy: Policy
    const global: TokenBucket
    var policies: map<string, Policy>
    var buckets: map<string, TokenBucket>

    ghost predicate Valid()
      reads this, global, buckets.Values
    {
      && ValidPolicy(defaultPolicy) && ValidBucket(global.State())
      && (forall k | k in policies :: ValidPolicy(policies[k]))
      && (forall k | k in buckets ::
            buckets[k] != global && ValidBucket(buckets[k].State()) && buckets[k].policy == PolicyFor(k))
      && (forall k, m | k in buckets && m in buckets && k != m :: buckets[k] != buckets[m])
    }

    function PolicyFor(key: string): Policy
      reads this
    {
      if key in policies then policies[key] else defaultPolicy
    }

    constructor (normalize: string -> string, globalPolicy: Policy, defaultPolicy: Policy, now: real)
      requires ValidPolicy(globalPolicy) && ValidPolicy(defaultPolicy)
      ensures this.normalize == normalize && this.defaultPolicy == defaultPolicy
      ensures fresh(global) && global.State() == Full(globalPolicy, now) && policies == map[] && buckets == map[]
      ensures Valid()
    {
      this.normalize, this.defaultPolicy := normalize, defaultPolicy;
      global := new TokenBucket(globalPolicy, now);
      policies, buckets := map[], map[];
    }

    /** `set_policy`: refused for an empty key, else the key's bucket is taken off the map. The bucket itself stays as
        it is: callers that hold it go on with it. */
    method SetPolicy(key: string, policy: Policy) returns (ok: bool)
      requires Valid() && ValidPolicy(policy)
      modifies this`policies, this`buckets
      ensures ok <==> normalize(key) != ""
      ensures ok ==> policies == old(policies)[normalize(key) := policy] && buckets == old(buckets) - {normalize(key)}
      ensures !ok ==> policies == old(policies) && buckets == old(buckets)
      ensures Valid()
    {
      var normalized := normalize(key);
      if normalized == "" { return false; }
      policies := policies[normalized := policy];
      buckets := buckets - {normalized};
      return true;
    }

    /** One turn on the shared bucket; every key's bucket stays as it is. */
    method TryGlobal(cost: real, now: real) returns (r: Result<Verdict, CostError>)
      requires Valid()
      modifies global`tokens, global`updatedAt
      ensures r == if CheckCost(global.policy, cost).Some? then Failure(CheckCost(global.policy, cost).value)
                   else Success(Attempt(old(global.State()), cost, now).1)
      ensures global.State() == if r.Failure? then old(global.State()) else Attempt(old(global.State()), cost, now).0
      ensures Valid()
    {
      r := global.TryAcquire(cost, now);
    }

    /** `_bucket`: the key's bucket on the map, made full with the key's policy on first use. The caller keeps it for
        the rest of its `acquire`. */
    method Bucket(key: string, now: real) returns (b: TokenBucket)
      requires Valid()
      modifies this`buckets
      ensures key in old(buckets) ==> b == old(buckets)[key] && buckets == old(buckets)
      ensures key !in old(buckets) ==> fresh(b) && b.State() == Full(PolicyFor(key), now) && buckets == old(buckets)[key := b]
      ensures Valid()
    {
      if key in buckets { return buckets[key]; }
      b := new TokenBucket(PolicyFor(key), now);
      buckets := buckets[key := b];
    }
  }
}
