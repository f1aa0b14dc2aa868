/**
 The local token bucket of src/integrations/outbound-rate-limiter.ts, with time in milliseconds as a real.
 One caller at a time; the time at which a wait really ends is an input, no earlier than asked for.
 */
module OutboundRateLimiter {

  datatype Bucket = Bucket(tokens: real, lastRefill: real)
  datatype Config = Config(maxTokens: real, refillRatePerSecond: real) {
    ghost predicate Valid() {
      refillRatePerSecond > 0.0
    }
  }

  function Min(a: real, b: real): real { if a <= b then a else b }
  function Max(a: real, b: real): real { if a >= b then a else b }

  function Ceil(x: real): int {
    -((-x).Floor)
  }

  /** Tokens gained over a span of milliseconds. */
  function Earned(c: Config, ms: real): real {
    (ms / 1000.0) * c.refillRatePerSecond
  }

  function Refilled(c: Config, b: Bucket, now: real): Bucket {
    Bucket(Min(c.maxTokens, b.tokens + Earned(c, now - b.lastRefill)), now)
  }

  function WaitMs(c: Config): real
    requires c.Valid()
  {
    Ceil((1.0 / c.refillRatePerSecond) * 1000.0) as real
  }

  /** A call: when it arrives, and when its wait would be over. */
  datatype Call = Call(arrives: real, woken: real)

  predicate Waits(c: Config, b: Bucket, call: Call) {
    Refilled(c, b, call.arrives).tokens < 1.0
  }

  function GrantedAt(c: Config, b: Bucket, call: Call): real {
    if Waits(c, b, call) then call.woken else call.arrives
  }

  function Acquired(c: Config, b: Bucket, call: Call): Bucket {
    var first := Refilled(c, b, call.arrives);
    if first.tokens >= 1.0 then first.(tokens := first.tokens - 1.0)
    else
      var second := Refilled(c, first, call.woken);
      second.(tokens := Max(0.0, second.tokens - 1.0))
  }

  /** The tokens after a span of milliseconds: what was there and what the span earns, up to the capacity. */
  ghost function Filled(c: Config, tokens: real, ms: real): (r: real)
    ensures r <= c.maxTokens
    ensures tokens + ms * c.refillRatePerSecond / 1000.0 <= c.maxTokens ==> r == tokens + ms * c.refillRatePerSecond / 1000.0
    ensures tokens + ms * c.refillRatePerSecond / 1000.0 > c.maxTokens ==> r == c.maxTokens
  {
    var sum := tokens + ms * c.refillRatePerSecond / 1000.0;
    if sum <= c.maxTokens then sum else c.maxTokens
  }

  lemma EarnedIsProportional(c: Config, ms: real)
    ensures Earned(c, ms) == ms * c.refillRatePerSecond / 1000.0
  {
  }

  lemma FilledIsRefilled(c: Config, b: Bucket, now: real)
    ensures Refilled(c, b, now).tokens == Filled(c, b.tokens, now - b.lastRefill) && Refilled(c, b, now).lastRefill == now
  {
    hide Earned;
    EarnedIsProportional(c, now - b.lastRefill);
  }

  /** The wait is the shortest whole number of milliseconds that earns a token. */
  lemma WaitIsShortest(c: Config, ms: int)
    requires c.Valid()
    ensures ms as real >= WaitMs(c) <==> Earned(c, ms as real) >= 1.0
  {
    var w := (1.0 / c.refillRatePerSecond) * 1000.0;
    EarnsAToken(c, ms as real, w);
    assert ms as real >= w <==> ms >= Ceil(w);
  }

  lemma EarnsAToken(c: Config, ms: real, w: real)
    requires c.Valid() && w == (1.0 / c.refillRatePerSecond) * 1000.0
    ensures ms >= w <==> Earned(c, ms) >= 1.0
  {
    assert w / 1000.0 * c.refillRatePerSecond == 1.0;
  }

  class Limiter {
    const config: Config
    var tokens: real
    var lastRefill: real

    constructor (config: Config, now: real)
      ensures this.config == config && tokens == config.maxTokens && lastRefill == now
    {
      this.config := config;
      tokens, lastRefill := config.maxTokens, now;
    }

    function View(): Bucket
      reads this
    {
      Bucket(tokens, lastRefill)
    }

    method Refill(now: real)
      modifies this
      ensures View() == Refilled(config, old(View()), now)
    {
      var elapsed := (now - lastRefill) / 1000.0;
      tokens := Min(config.maxTokens, tokens + elapsed * config.refillRatePerSecond);
      lastRefill := now;
    }

    method AcquireLocal(call: Call) returns (grantedAt: real)
      requires config.Valid() && call.arrives + WaitMs(config) <= call.woken
      modifies this
      ensures View() == Acquired(config, old(View()), call) && grantedAt == GrantedAt(config, old(View()), call)
      ensures lastRefill == grantedAt && (grantedAt == call.arrives || grantedAt == call.woken)
      ensures var have := Filled(config, old(tokens), call.arrives - old(lastRefill));
              && (have >= 1.0 ==> grantedAt == call.arrives && tokens == have - 1.0)
              && (have < 1.0 ==>
                    && grantedAt == call.woken
                    && var later := Filled(config, have, call.woken - call.arrives);
                       tokens == if later >= 1.0 then later - 1.0 else 0.0)
    {
      FilledIsRefilled(config, View(), call.arrives);
      FilledIsRefilled(config, Refilled(config, View(), call.arrives), call.woken);
      hide Earned, Filled;
      Refill(call.arrives);
      if tokens >= 1.0 {
        tokens := tokens - 1.0;
        return call.arrives;
      }
      Refill(call.woken);
      tokens := Max(0.0, tokens - 1.0);
      grantedAt := call.woken;
    }
  }

  // ----- no call waits without need -----

  /** From a bucket with n tokens, the first n calls of every orderly trace are granted as they arrive. */
  lemma {:induction false} TokensGrantAtOnce(c: Config, start: Bucket, calls: seq<Call>, k: nat)
    requires c.Valid() && Fresh(c, start) && Orderly(c, start, calls) && k <= |calls| && k as real <= start.tokens
    ensures BucketAt(c, start, calls, k).tokens >= start.tokens - k as real && BucketAt(c, start, calls, k).tokens <= c.maxTokens
    ensures forall i: nat :: i < k ==> Grant(c, start, calls, i) == calls[i].arrives
  {
    hide Earned, Acquired, GrantedAt, Waits;
    if k > 0 {
      TokensGrantAtOnce(c, start, calls, k - 1);
      TokenIsTaken(c, BucketAt(c, start, calls, k - 1), calls[k - 1]);
    }
  }

  lemma TokenIsTaken(c: Config, b: Bucket, call: Call)
    requires c.Valid() && 1.0 <= b.tokens <= c.maxTokens && b.lastRefill <= call.arrives
    ensures GrantedAt(c, b, call) == call.arrives
    ensures b.tokens - 1.0 <= Acquired(c, b, call).tokens <= c.maxTokens
  {
    hide Earned;
    EarnedAdds(c, 0.0, 0.0);
    EarnedIsMonotone(c, 0.0, call.arrives - b.lastRefill);
  }

  // ----- traces -----

  /** The bucket before call k. */
  ghost function BucketAt(c: Config, start: Bucket, calls: seq<Call>, k: nat): Bucket
    requires k <= |calls|
  {
    if k == 0 then start else Acquired(c, BucketAt(c, start, calls, k - 1), calls[k - 1])
  }

  ghost function Grant(c: Config, start: Bucket, calls: seq<Call>, k: nat): real
    requires k < |calls|
  {
    GrantedAt(c, BucketAt(c, start, calls, k), calls[k])
  }

  /** Calls come one after another, the clock never goes back, and no wait is cut short. */
  ghost predicate Orderly(c: Config, start: Bucket, calls: seq<Call>)
    requires c.Valid()
  {
    && (forall k :: 0 <= k < |calls| ==> calls[k].arrives + WaitMs(c) <= calls[k].woken)
    && (forall k :: 0 <= k < |calls| ==> BucketAt(c, start, calls, k).lastRefill <= calls[k].arrives)
  }

  ghost predicate Fresh(c: Config, b: Bucket) {
    0.0 <= b.tokens <= c.maxTokens
  }

  lemma EarnedAdds(c: Config, a: real, b: real)
    ensures Earned(c, a + b) == Earned(c, a) + Earned(c, b)
    ensures Earned(c, 0.0) == 0.0
  {
  }

  lemma EarnedIsMonotone(c: Config, a: real, b: real)
    requires c.Valid() && a <= b
    ensures Earned(c, a) <= Earned(c, b)
  {
  }

  /** A full wait earns at least one token. */
  lemma WaitEarnsAToken(c: Config, waited: real)
    requires c.Valid() && waited >= WaitMs(c)
    ensures Earned(c, waited) >= 1.0
  {
  }

  /** One call: the bucket stays in bounds, the floor at zero never applies, and one token is paid for. */
  lemma AcquirePays(c: Config, b: Bucket, call: Call)
    requires c.Valid() && c.maxTokens >= 1.0 && Fresh(c, b)
    requires b.lastRefill <= call.arrives && call.arrives + WaitMs(c) <= call.woken
    ensures var after := Acquired(c, b, call);
            && 0.0 <= after.tokens <= c.maxTokens - 1.0
            && after.lastRefill == GrantedAt(c, b, call) >= b.lastRefill
            && after.tokens <= b.tokens + Earned(c, after.lastRefill - b.lastRefill) - 1.0
    ensures Waits(c, b, call) ==> Refilled(c, Refilled(c, b, call.arrives), call.woken).tokens >= 1.0
  {
    hide Earned;
    var first := Refilled(c, b, call.arrives);
    EarnedAdds(c, 0.0, 0.0);
    EarnedIsMonotone(c, 0.0, call.arrives - b.lastRefill);
    if Waits(c, b, call) {
      WaitIsPositive(c);
      WaitEarnsAToken(c, call.woken - call.arrives);
      EarnedAdds(c, call.arrives - b.lastRefill, call.woken - call.arrives);
      assert call.arrives - b.lastRefill + (call.woken - call.arrives) == call.woken - b.lastRefill;
    }
  }

  lemma WaitIsPositive(c: Config)
    requires c.Valid()
    ensures WaitMs(c) >= 0.0
  {
  }

  lemma {:induction false} BucketStaysFresh(c: Config, start: Bucket, calls: seq<Call>, k: nat)
    requires c.Valid() && c.maxTokens >= 1.0 && Fresh(c, start) && Orderly(c, start, calls) && k <= |calls|
    ensures Fresh(c, BucketAt(c, start, calls, k))
  {
  }

  /** What is left after grant j bounds the number of grants since grant i. */
  lemma {:induction false} TokensAreSpent(c: Config, start: Bucket, calls: seq<Call>, i: nat, j: nat)
    requires c.Valid() && c.maxTokens >= 1.0 && Fresh(c, start) && Orderly(c, start, calls) && i <= j < |calls|
    ensures BucketAt(c, start, calls, j + 1).tokens
            <= c.maxTokens - (j - i + 1) as real + Earned(c, Grant(c, start, calls, j) - Grant(c, start, calls, i))
    ensures BucketAt(c, start, calls, j + 1).lastRefill == Grant(c, start, calls, j)
    decreases j
  {
    hide Earned, Acquired, Refilled, Waits, GrantedAt;
    BucketStaysFresh(c, start, calls, j);
    AcquirePays(c, BucketAt(c, start, calls, j), calls[j]);
    EarnedAdds(c, 0.0, 0.0);
    if i < j {
      TokensAreSpent(c, start, calls, i, j - 1);
      var gi, gp, gj := Grant(c, start, calls, i), Grant(c, start, calls, j - 1), Grant(c, start, calls, j);
      EarnedAdds(c, gp - gi, gj - gp);
      assert gp - gi + (gj - gp) == gj - gi;
    }
  }

  /** The most grants the design allows in so many seconds. */
  ghost function Allowance(c: Config, seconds: real): real {
    c.maxTokens + c.refillRatePerSecond * seconds
  }

  /** If grants i to j fall within so many seconds, they number at most what those allow. */
  ghost predicate IntervalHolds(c: Config, start: Bucket, calls: seq<Call>, i: nat, j: nat, seconds: real)
    requires i <= j < |calls|
  {
    Grant(c, start, calls, j) - Grant(c, start, calls, i) <= seconds * 1000.0 ==> (j - i + 1) as real <= Allowance(c, seconds)
  }

  /** In every interval the grants number at most the capacity plus what the interval earns. */
  ghost predicate GrantsWithinAllowance(c: Config, start: Bucket, calls: seq<Call>) {
    forall i: nat, j: nat, seconds: real :: i <= j < |calls| ==> IntervalHolds(c, start, calls, i, j, seconds)
  }

  lemma GrantsAreBounded(c: Config, start: Bucket, calls: seq<Call>, i: nat, j: nat, seconds: real)
    requires c.Valid() && c.maxTokens >= 1.0 && Fresh(c, start) && Orderly(c, start, calls) && i <= j < |calls|
    requires Grant(c, start, calls, j) - Grant(c, start, calls, i) <= seconds * 1000.0
    ensures (j - i + 1) as real <= Allowance(c, seconds)
  {
    hide Acquired, Refilled, Waits, GrantedAt;
    TokensAreSpent(c, start, calls, i, j);
    BucketStaysFresh(c, start, calls, j + 1);
    EarnedIsMonotone(c, Grant(c, start, calls, j) - Grant(c, start, calls, i), seconds * 1000.0);
    hide Earned, Grant;
    EarnedInSeconds(c, seconds);
  }

  /** Below one token of capacity every call waits, and the floor at zero gives away what the bucket lacks. */
  lemma SmallCapacityGivesTokensAway(c: Config, b: Bucket, call: Call)
    requires c.Valid() && c.maxTokens < 1.0
    ensures Waits(c, b, call) && Acquired(c, b, call).tokens == 0.0
    ensures Acquired(c, b, call).tokens > Refilled(c, Refilled(c, b, call.arrives), call.woken).tokens - 1.0
  {
  }

  /**
   For every orderly trace with a call, from a full bucket or any level in between, the bound holds exactly when
   the capacity is at least one token; otherwise a single grant is already over the allowance of no time at all.
   */
  lemma BoundNeedsAWholeToken(c: Config, start: Bucket, calls: seq<Call>)
    requires c.Valid() && Orderly(c, start, calls) && calls != []
    requires Fresh(c, start) || start.tokens == c.maxTokens
    ensures GrantsWithinAllowance(c, start, calls) <==> c.maxTokens >= 1.0
  {
    hide Grant, Orderly, Allowance;
    if c.maxTokens >= 1.0 {
      forall i: nat, j: nat, seconds: real | i <= j < |calls| ensures IntervalHolds(c, start, calls, i, j, seconds) {
        if Grant(c, start, calls, j) - Grant(c, start, calls, i) <= seconds * 1000.0 {
          GrantsAreBounded(c, start, calls, i, j, seconds);
        }
      }
    } else {
      NoTimeEarnsNothing(c);
      assert !IntervalHolds(c, start, calls, 0, 0, 0.0);
    }
  }

  /** Below one token of capacity every call waits, so the next grant comes a full wait later. */
  lemma NextGrantWaits(c: Config, b: Bucket, call: Call, next: Call)
    requires c.Valid() && c.maxTokens < 1.0
    requires var after := Acquired(c, b, call); after.lastRefill <= next.arrives && next.arrives + WaitMs(c) <= next.woken
    ensures GrantedAt(c, Acquired(c, b, call), next) - GrantedAt(c, b, call) >= WaitMs(c)
  {
    hide WaitMs, Earned;
    SmallCapacityGivesTokensAway(c, b, call);
    SmallCapacityGivesTokensAway(c, Acquired(c, b, call), next);
  }

  lemma {:induction false} GrantsLieApart(c: Config, start: Bucket, calls: seq<Call>, i: nat, j: nat)
    requires c.Valid() && c.maxTokens < 1.0 && Orderly(c, start, calls) && i <= j < |calls|
    ensures (j - i) as real <= Earned(c, Grant(c, start, calls, j) - Grant(c, start, calls, i))
    decreases j
  {
    hide Earned, WaitMs, Acquired, GrantedAt, Waits;
    EarnedAdds(c, 0.0, 0.0);
    if i < j {
      GrantsLieApart(c, start, calls, i, j - 1);
      NextGrantWaits(c, BucketAt(c, start, calls, j - 1), calls[j - 1], calls[j]);
      var gi, gp, gj := Grant(c, start, calls, i), Grant(c, start, calls, j - 1), Grant(c, start, calls, j);
      WaitEarnsAToken(c, gj - gp);
      EarnedAdds(c, gp - gi, gj - gp);
      assert gp - gi + (gj - gp) == gj - gi;
    }
  }

  /** Whatever the capacity, in any interval the grants number at most the capacity, or one if that is more, plus what it earns. */
  lemma GrantsAreAlwaysBounded(c: Config, start: Bucket, calls: seq<Call>, i: nat, j: nat, seconds: real)
    requires c.Valid() && Orderly(c, start, calls) && i <= j < |calls|
    requires Fresh(c, start) || start.tokens == c.maxTokens
    requires Grant(c, start, calls, j) - Grant(c, start, calls, i) <= seconds * 1000.0
    ensures (j - i + 1) as real <= Max(1.0, c.maxTokens) + c.refillRatePerSecond * seconds
  {
    hide Grant, Orderly, Earned;
    if c.maxTokens >= 1.0 {
      GrantsAreBounded(c, start, calls, i, j, seconds);
    } else {
      GrantsLieApart(c, start, calls, i, j);
      EarnedIsMonotone(c, Grant(c, start, calls, j) - Grant(c, start, calls, i), seconds * 1000.0);
      EarnedInSeconds(c, seconds);
    }
  }

  lemma EarnedInSeconds(c: Config, seconds: real)
    ensures Earned(c, seconds * 1000.0) == c.refillRatePerSecond * seconds
  {
    assert seconds * 1000.0 / 1000.0 == seconds;
  }

  lemma NoTimeEarnsNothing(c: Config)
    ensures Allowance(c, 0.0) == c.maxTokens
  {
  }
}
