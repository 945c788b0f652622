/** The token bucket. Acquisitions are serialised by a lock that is held while sleeping; the clock is read
    once per acquisition, before the sleep. */
module RateLimiter {
  import opened Rounding
  import opened Products

  datatype Bucket = Bucket(rate: real, burst: real, tokens: real, lastRefill: real)

  function Refilled(b: Bucket, now: real): real {
    Min(b.burst, b.tokens + Mul(now - b.lastRefill, b.rate))
  }

  /** How long an acquisition at `now` has to sleep. */
  function Wait(b: Bucket, now: real): real
    requires b.rate != 0.0
  {
    if Refilled(b, now) < 1.0 then (1.0 - Refilled(b, now)) / b.rate else 0.0
  }

  function Acquire(b: Bucket, now: real): Bucket {
    b.(tokens := if Refilled(b, now) < 1.0 then 0.0 else Refilled(b, now) - 1.0, lastRefill := now)
  }

  class TokenBucketRateLimiter {
    const rate: real
    const burst: real
    var tokens: real
    var lastRefill: real

    ghost function View(): Bucket
      reads this
    {
      Bucket(rate, burst, tokens, lastRefill)
    }

    /** Starts full; the burst defaults to the requests of a minute. */
    constructor (requestsPerMinute: real, burst: real, now: real)
      ensures View() == Bucket(requestsPerMinute / 60.0, burst, burst, now)
    {
      rate, this.burst := requestsPerMinute / 60.0, burst;
      tokens, lastRefill := burst, now;
    }

    /** `acquire`, entered at `now`; `slept` is how long it sleeps before returning. */
    method AcquireToken(now: real) returns (slept: real)
      requires rate > 0.0
      modifies this
      ensures View() == Acquire(old(View()), now) && slept == Wait(old(View()), now)
    {
      var elapsed := now - lastRefill;
      tokens := Min(burst, tokens + Mul(elapsed, rate));
      lastRefill := now;
      if tokens < 1.0 {
        slept := (1.0 - tokens) / rate;
        tokens := 0.0;
      } else {
        slept := 0.0;
        tokens := tokens - 1.0;
      }
    }
  }

  // ----- runs -----------------------------------------------------------------------------------

  /** One grant: when its acquisition entered, and how long it slept. */
  datatype Grant = Grant(entered: real, slept: real)

  function After(b: Bucket, gs: seq<Grant>): Bucket {
    if gs == [] then b else Acquire(After(b, gs[..|gs| - 1]), gs[|gs| - 1].entered)
  }

  function Slept(gs: seq<Grant>): real {
    if gs == [] then 0.0 else Slept(gs[..|gs| - 1]) + gs[|gs| - 1].slept
  }

  /** The time the last grant of the run was given. */
  function End(b: Bucket, gs: seq<Grant>): real {
    if gs == [] then b.lastRefill else gs[|gs| - 1].entered + gs[|gs| - 1].slept
  }

  /** A serialised run: each acquisition enters after the one before has returned, and sleeps at least as
      long as it asked for. */
  ghost predicate Serialised(b: Bucket, gs: seq<Grant>)
    requires b.rate > 0.0
  {
    gs == [] ||
    (&& Serialised(b, gs[..|gs| - 1])
     && gs[|gs| - 1].entered >= End(b, gs[..|gs| - 1])
     && After(b, gs[..|gs| - 1]).rate == b.rate
     && gs[|gs| - 1].slept >= Wait(After(b, gs[..|gs| - 1]), gs[|gs| - 1].entered))
  }

  ghost predicate Sound(b: Bucket) {
    b.rate > 0.0 && 0.0 <= b.tokens <= b.burst
  }

  /** One acquisition spends one token out of the refill and the sleep. */
  lemma AcquireSpends(b: Bucket, now: real, slept: real)
    requires Sound(b) && now >= b.lastRefill && slept >= Wait(b, now)
    ensures Sound(Acquire(b, now)) && Wait(b, now) >= 0.0
    ensures Acquire(b, now).tokens <= b.tokens + Mul(now - b.lastRefill, b.rate) + Mul(slept, b.rate) - 1.0
  {
    var full := Refilled(b, now);
    MulSigns(now - b.lastRefill, b.rate);
    if full < 1.0 {
      DivCancel(1.0 - full, b.rate);
      MulMonotone(Wait(b, now), slept, b.rate);
      MulStrict(0.0, Wait(b, now), b.rate);
    } else {
      MulSigns(slept, b.rate);
    }
    hide Mul;
  }

  /** Along any serialised run the tokens stay within the burst, and the grants are paid for by the initial
      tokens, the time that passed and the time slept. The sleep counts twice because the clock is
      stamped before it. */
  lemma {:induction false} GrantsArePaidFor(b: Bucket, gs: seq<Grant>)
    requires Sound(b) && Serialised(b, gs)
    ensures var a := After(b, gs);
            && Sound(a) && a.rate == b.rate && a.burst == b.burst && b.lastRefill <= a.lastRefill <= End(b, gs)
            && Slept(gs) <= End(b, gs) - b.lastRefill
            && |gs| as real + a.tokens <= b.tokens + Mul(a.lastRefill - b.lastRefill, b.rate) + Mul(Slept(gs), b.rate)
  {
    hide Mul, Wait, Acquire;
    if gs == [] {
      MulUnits(b.rate);
    } else {
      var init, g := gs[..|gs| - 1], gs[|gs| - 1];
      GrantsArePaidFor(b, init);
      var a := After(b, init);
      AcquireSpends(a, g.entered, g.slept);
      AcquireFields(a, g.entered);
      Distribute(b.rate, a.lastRefill - b.lastRefill, g.entered - a.lastRefill);
      Distribute(b.rate, Slept(init), g.slept);
    }
  }

  lemma AcquireFields(b: Bucket, now: real)
    ensures var a := Acquire(b, now); a.rate == b.rate && a.burst == b.burst && a.lastRefill == now
  {}

  /** Never more than a burst plus twice the rate in any stretch of a run. */
  lemma RateIsBounded(b: Bucket, gs: seq<Grant>)
    requires Sound(b) && Serialised(b, gs)
    ensures |gs| as real <= b.burst + Mul(End(b, gs) - b.lastRefill, b.rate) + Mul(Slept(gs), b.rate)
    ensures |gs| as real <= b.burst + 2.0 * Mul(End(b, gs) - b.lastRefill, b.rate)
  {
    hide Mul, After;
    GrantsArePaidFor(b, gs);
    MulMonotone(After(b, gs).lastRefill - b.lastRefill, End(b, gs) - b.lastRefill, b.rate);
    MulMonotone(Slept(gs), End(b, gs) - b.lastRefill, b.rate);
  }

  // ----- nothing is wasted ----------------------------------------------------------------------

  /** `k` acquisitions at one instant. */
  function Burst(b: Bucket, now: real, k: nat): Bucket {
    if k == 0 then b else Acquire(Burst(b, now, k - 1), now)
  }

  /** As many acquisitions at once as there are whole tokens go through without a sleep and leave the rest; the next one
      sleeps exactly until a whole token has come in. */
  lemma {:induction false} BurstIsFree(b: Bucket, now: real, k: nat)
    requires Sound(b) && b.lastRefill <= now && k as real <= Refilled(b, now)
    ensures Burst(b, now, k).rate == b.rate && Burst(b, now, k).burst == b.burst
    ensures k > 0 ==> Burst(b, now, k).tokens == Refilled(b, now) - k as real && Burst(b, now, k).lastRefill == now
    ensures k as real + 1.0 <= Refilled(b, now) ==> Wait(Burst(b, now, k), now) == 0.0
    ensures k as real + 1.0 > Refilled(b, now) ==>
              Refilled(b, now) + Mul(Wait(Burst(b, now, k), now), b.rate) == k as real + 1.0
  {
    hide Mul;
    MulUnits(b.rate);
    DivCancel(k as real + 1.0 - Refilled(b, now), b.rate);
    if k > 0 {
      BurstIsFree(b, now, k - 1);
    }
  }

  // ----- the factor two is attained -------------------------------------------------------------

  /** A client that always asks again at once, on a bucket of one that refills every `period`: alternately
      a grant after a sleep, and one out of the refill that accrued during that sleep. */
  ghost function Saw(period: real, k: nat): seq<Grant> {
    if k == 0 then [Grant(0.0, 0.0)]
    else Saw(period, k - 1) + [Grant(Ticks(period, k - 1), period)] + [Grant(Ticks(period, k), 0.0)]
  }

  ghost function Ticks(period: real, k: nat): real {
    if k == 0 then 0.0 else Ticks(period, k - 1) + period
  }

  lemma {:induction false} TicksTimesRate(period: real, rate: real, k: nat)
    requires Mul(period, rate) == 1.0
    ensures Mul(Ticks(period, k), rate) == k as real
  {
    hide Mul;
    if k == 0 {
      MulUnits(rate);
    } else {
      TicksTimesRate(period, rate, k - 1);
      Distribute(rate, Ticks(period, k - 1), period);
    }
  }

  /** An empty bucket of one, asked again at once: a sleep of one period. */
  lemma EmptySleeps(b: Bucket, period: real)
    requires b.rate > 0.0 && b.burst == 1.0 && b.tokens == 0.0 && Mul(period, b.rate) == 1.0
    ensures Wait(b, b.lastRefill) == period && Acquire(b, b.lastRefill) == b
    ensures Wait(b, b.lastRefill + period) == 0.0
            && Acquire(b, b.lastRefill + period) == b.(lastRefill := b.lastRefill + period)
  {
    MulUnits(b.rate);
    assert b.lastRefill + period - b.lastRefill == period;
    DivCancel(1.0, b.rate);
    MulStrict(1.0 / b.rate, period, b.rate);
    MulStrict(period, 1.0 / b.rate, b.rate);
    hide Mul;
  }

  lemma Appended(b: Bucket, gs: seq<Grant>, g: Grant)
    requires b.rate > 0.0 && Serialised(b, gs) && After(b, gs).rate == b.rate
    requires g.entered >= End(b, gs) && g.slept >= Wait(After(b, gs), g.entered)
    ensures Serialised(b, gs + [g]) && After(b, gs + [g]) == Acquire(After(b, gs), g.entered)
    ensures End(b, gs + [g]) == g.entered + g.slept && Slept(gs + [g]) == Slept(gs) + g.slept
  {
    hide Wait, Acquire;
    assert (gs + [g])[..|gs|] == gs;
  }

  lemma SawStart(b: Bucket)
    requires b.rate > 0.0 && b.burst == 1.0 && b.tokens == 1.0 && b.lastRefill == 0.0
    ensures var gs := [Grant(0.0, 0.0)];
            && Serialised(b, gs) && End(b, gs) == 0.0 && Slept(gs) == 0.0 && After(b, gs) == b.(tokens := 0.0)
  {
    MulUnits(b.rate);
    assert [Grant(0.0, 0.0)][..0] == [];
    hide Mul;
  }

  lemma {:induction false} SawRuns(rate: real, period: real, k: nat)
    requires rate > 0.0 && Mul(period, rate) == 1.0
    ensures var b := Bucket(rate, 1.0, 1.0, 0.0);
            && Serialised(b, Saw(period, k)) && |Saw(period, k)| == 2 * k + 1
            && End(b, Saw(period, k)) == Ticks(period, k) && Slept(Saw(period, k)) == Ticks(period, k)
            && After(b, Saw(period, k)) == b.(tokens := 0.0, lastRefill := Ticks(period, k))
  {
    hide Mul, Serialised, After, End, Slept, Wait, Acquire;
    var b := Bucket(rate, 1.0, 1.0, 0.0);
    if k == 0 {
      SawStart(b);
    } else {
      SawRuns(rate, period, k - 1);
      var init := Saw(period, k - 1);
      var g1, g2 := Grant(Ticks(period, k - 1), period), Grant(Ticks(period, k), 0.0);
      var a := After(b, init);
      EmptySleeps(a, period);
      Appended(b, init, g1);
      Appended(b, init + [g1], g2);
    }
  }

  /** No smaller bound holds: at every rate there are runs of any length that reach it exactly, so a bound
      without the sleep term is false. */
  lemma BoundIsAttained(rate: real, k: nat)
    requires rate > 0.0
    ensures var b := Bucket(rate, 1.0, 1.0, 0.0);
            exists gs ::
              && Serialised(b, gs)
              && |gs| as real == b.burst + 2.0 * Mul(End(b, gs), rate)
              && |gs| as real == b.burst + Mul(End(b, gs), rate) + k as real
  {
    var period := 1.0 / rate;
    DivCancel(1.0, rate);
    SawRuns(rate, period, k);
    TicksTimesRate(period, rate, k);
    assert Serialised(Bucket(rate, 1.0, 1.0, 0.0), Saw(period, k));
    hide Mul, Serialised;
  }
}
