/** How fast a paper entry completes: the exact fill after any number of acceptable reconcile passes, for every
    size and ratio, rounding included. */
module Schedules {
  import opened Rounding
  import opened Products
  import opened Orders
  import opened OrderInvariants
  import opened FillLedger

  // ----- what rounding does to repeated steps ---------------------------------------------------

  ghost predicate Tie(x: real) {
    x - x.Floor as real == 0.5
  }

  /** Adding a whole number commutes with rounding, unless a tie meets an odd one. */
  lemma RoundShift(n: int, x: real)
    requires Tie(x) ==> n % 2 == 0
    ensures RoundHalfEven(n as real + x) == n + RoundHalfEven(x)
  {
    assert (n as real + x).Floor == n + x.Floor;
  }

  lemma TiesGoEven(x: real)
    ensures Tie(x) ==> RoundHalfEven(x) % 2 == 0
  {}

  ghost function Multiple(k: nat, step: real): real {
    Mul(k as real, step)
  }

  lemma MultipleStep(k: nat, step: real)
    ensures Multiple(0, step) == 0.0 && Multiple(k + 1, step) == Multiple(k, step) + step
    ensures step >= 0.0 ==> Multiple(k, step) >= 0.0
  {
    Distribute(step, k as real, 1.0);
    MulSigns(k as real, step);
  }

  lemma MultipleUnits(k: nat, n: int)
    ensures Multiple(k, n as real / 100000000.0) * 100000000.0 == (k * n) as real
  {
    var g := n as real / 100000000.0;
    assert g * 100000000.0 == n as real;
    calc {
      Multiple(k, g) * 100000000.0;
      k as real * g * 100000000.0;
      k as real * (g * 100000000.0);
      k as real * n as real;
      (k * n) as real;
    }
  }

  /** Multiples of a rounded step lie on the grid, and one more step rounds to the next of them: half units do
      not drift, because a tie rounds to an even number of units and then stays even. */
  lemma StepRounds(k: nat, step: real)
    ensures OnGrid(Multiple(k, Round8(step)))
    ensures Round8(Multiple(k, Round8(step)) + step) == Multiple(k + 1, Round8(step))
  {
    var x := step * 100000000.0;
    var n := RoundHalfEven(x);
    MultipleUnits(k, n);
    MultipleUnits(k + 1, n);
    TiesGoEven(x);
    EvenTimes(k, n);
    hide RoundHalfEven, Multiple;
    RoundShift(k * n, x);
    assert (Multiple(k, Round8(step)) + step) * 100000000.0 == (k * n) as real + x;
    assert (k + 1) * n == k * n + n;
  }

  lemma EvenTimes(k: int, n: int)
    ensures n % 2 == 0 ==> k * n % 2 == 0
  {
    if n % 2 == 0 {
      var h := n / 2;
      assert k * n == 2 * (k * h);
    }
  }

  // ----- the schedule -----------------------------------------------------------------------------

  /** What one pass tries to fill of an entry of `size`: its part, or all of it when partial fills are off. */
  function StepOf(cfg: Config, size: real): real {
    if cfg.allowPartial then size * cfg.partialRatio else size
  }

  /** What remains of `size` after `k` steps of `gain`, as the ledger rounds it. */
  ghost function Left(size: real, gain: real, k: nat): real {
    Round8(Max(size - Multiple(k, gain), 0.0))
  }

  /** `k` passes complete the entry. */
  ghost predicate CompletesBy(size: real, step: real, k: nat) {
    k >= 1 && Left(size, Round8(step), k) <= UNIT
  }

  /** The fill of an entry that completes with pass `k`: a last whole step, or what remained. */
  ghost function Landing(size: real, gain: real, k: nat): real
    requires k >= 1
  {
    Min(Multiple(k, gain), Multiple(k - 1, gain) + Left(size, gain, k - 1))
  }

  /** The entry after `k` passes that did not complete it. */
  ghost predicate Underway(o: Row, size: real, step: real, k: nat) {
    && o.size == size && o.filled == Multiple(k, Round8(step)) && o.status != Filled
    && o.remaining == (if k == 0 then size else Left(size, Round8(step), k)) && (k > 0 ==> o.remaining > UNIT)
  }

  /** The entry once pass `j` has completed it. */
  ghost predicate CompletedAt(o: Row, size: real, step: real, j: nat) {
    && CompletesBy(size, step, j) && !CompletesBy(size, step, j - 1)
    && o.size == size && o.filled == Landing(size, Round8(step), j) && o.status == Filled && o.remaining == 0.0
  }

  /** After k acceptable passes, for every size and ratio: until the entry completes it has filled exactly k times
      the rounded step; it is complete if and only if what k rounded steps leave of the size is at most a unit,
      and then it has filled what the first pass with that property filled. */
  lemma {:induction false} PassesFill(cfg: Config, r: Row, prices: seq<real>)
    requires Fresh(r) && StepOf(cfg, r.size) > 0.0
    ensures var o, step, k := AfterPasses(cfg, r, prices), StepOf(cfg, r.size), |prices|;
            && (o.status == Filled <==> CompletesBy(r.size, step, k))
            && (!CompletesBy(r.size, step, k) ==> Underway(o, r.size, step, k))
            && (CompletesBy(r.size, step, k) ==> exists j: nat :: 1 <= j <= k && CompletedAt(o, r.size, step, j))
  {
    var step := StepOf(cfg, r.size);
    hide Multiple, Fill, StepOf, Landing, Left;
    if prices == [] {
      MultipleStep(0, Round8(step));
    } else {
      var init, price := prices[..|prices| - 1], prices[|prices| - 1];
      var o, k := AfterPasses(cfg, r, init), |init|;
      PassesFill(cfg, r, init);
      hide AfterPasses;
      StaysComplete(r.size, step, k);
      if CompletesBy(r.size, step, k) {
        var j: nat :| 1 <= j <= k && CompletedAt(o, r.size, step, j);
        CompleteStays(cfg, o, price);
      } else {
        PassExact(cfg, o, price, r.size, step, k);
        hide CompletesBy;
        var o' := Fill(o, PaperFillSize(cfg, o), price, 0.0);
        assert CompletesBy(r.size, step, k + 1) ==> CompletedAt(o', r.size, step, k + 1);
      }
    }
  }

  lemma CompleteStays(cfg: Config, o: Row, price: real)
    requires o.remaining <= 0.0
    ensures Fill(o, PaperFillSize(cfg, o), price, 0.0) == o
  {
    hide Round8;
  }

  /** Once complete, complete for good. */
  lemma StaysComplete(size: real, step: real, k: nat)
    requires step > 0.0
    ensures CompletesBy(size, step, k) ==> CompletesBy(size, step, k + 1)
  {
    var g := Round8(step);
    Round8Facts(step);
    MultipleStep(k, g);
    Round8Monotone(Max(size - Multiple(k + 1, g), 0.0), Max(size - Multiple(k, g), 0.0));
    hide Multiple, Round8;
  }

  /** One pass over an entry that is not complete yet. */
  lemma PassExact(cfg: Config, o: Row, price: real, size: real, step: real, k: nat)
    requires size > 0.0 && step == StepOf(cfg, size) > 0.0
    requires Underway(o, size, step, k) && !CompletesBy(size, step, k)
    ensures var o' := Fill(o, PaperFillSize(cfg, o), price, 0.0);
            if CompletesBy(size, step, k + 1) then CompletedAt(o', size, step, k + 1)
            else Underway(o', size, step, k + 1)
  {
    hide Multiple, Round8, OnGrid;
    var request := PaperFillSize(cfg, o);
    FirstPassCompletes(cfg, size, k);
    assert TakenSize(o, request) == Min(o.remaining, step);
    hide StepOf, PaperFillSize, TakenSize, Left;
    FillEnds(o, request, price);
    StepRounds(k, step);
    if step <= o.remaining {
      WholeStep(o.remaining, size, step, k);
    } else {
      LastPart(o.remaining, size, step, k);
    }
    hide Fill, Landing;
  }

  /** With partial fills off the first pass completes the entry. */
  lemma FirstPassCompletes(cfg: Config, size: real, k: nat)
    requires size > 0.0
    ensures !cfg.allowPartial && k >= 1 ==> CompletesBy(size, StepOf(cfg, size), k)
  {
    if !cfg.allowPartial && k >= 1 {
      var g := Round8(size);
      Round8Facts(size);
      MulMonotone(1.0, k as real, g);
      MulUnits(g);
      hide Mul, OnGrid;
      SmallLeft(size - Multiple(k, g));
      hide Round8;
    }
  }

  lemma SmallLeft(x: real)
    requires x <= UNIT
    ensures Round8(Max(x, 0.0)) <= UNIT
  {
    OneUnit();
    Round8KeepsGridBound(Max(x, 0.0), UNIT);
  }

  lemma OneUnit()
    ensures OnGrid(UNIT)
  {
    assert UNIT * 100000000.0 == 1.0;
  }

  /** Where a fill that takes something leaves the ledger. */
  lemma FillEnds(o: Row, request: real, price: real)
    requires TakenSize(o, request) > 0.0
    ensures var o' := Fill(o, request, price, 0.0);
            var left := Round8(Max(o.size - o'.filled, 0.0));
            && o'.size == o.size && o'.filled == Round8(o.filled + TakenSize(o, request))
            && o'.remaining == (if left <= UNIT then 0.0 else left) && (o'.status == Filled <==> left <= UNIT)
  {
    hide Round8;
  }

  /** What is left of an entry that is not complete, and what the pass sees of it. */
  ghost predicate Remains(remaining: real, size: real, gain: real, k: nat) {
    remaining == (if k == 0 then size else Left(size, gain, k)) && (k > 0 ==> remaining > UNIT)
  }

  lemma RemainsFacts(remaining: real, size: real, gain: real, k: nat)
    requires size > 0.0 && Remains(remaining, size, gain, k)
    ensures k == 0 ==> Multiple(k, gain) == 0.0 && Left(size, gain, k) == Round8(size)
    ensures k > 0 ==> OnGrid(remaining) && Left(size, gain, k) == remaining
    ensures size > Multiple(k, gain) && remaining - UNIT / 2.0 <= size - Multiple(k, gain) <= remaining + UNIT / 2.0
  {
    MultipleStep(k, gain);
    Round8Facts(Max(size - Multiple(k, gain), 0.0));
    hide Multiple, Round8, OnGrid;
  }

  lemma WholeStep(remaining: real, size: real, step: real, k: nat)
    requires size > 0.0 && Remains(remaining, size, Round8(step), k) && step <= remaining
    ensures Landing(size, Round8(step), k + 1) == Multiple(k + 1, Round8(step))
  {
    var g := Round8(step);
    RemainsFacts(remaining, size, g, k);
    MultipleStep(k, g);
    Round8Monotone(step, remaining);
    Round8Facts(remaining);
    hide Multiple, Round8, OnGrid, Left;
  }

  lemma LastPart(remaining: real, size: real, step: real, k: nat)
    requires size > 0.0 && Remains(remaining, size, Round8(step), k) && remaining < step
    requires OnGrid(Multiple(k, Round8(step)))
    ensures Round8(Multiple(k, Round8(step)) + remaining) == Landing(size, Round8(step), k + 1)
    ensures Round8(Max(size - Landing(size, Round8(step), k + 1), 0.0)) <= UNIT && CompletesBy(size, step, k + 1)
  {
    hide Multiple, Round8, OnGrid, Left;
    var g := Round8(step);
    var f := Multiple(k, g);
    RemainsFacts(remaining, size, g, k);
    MultipleStep(k, g);
    Round8Facts(step);
    Round8Monotone(remaining, step);
    Round8Facts(remaining);
    Round8Facts(f + remaining);
    if k > 0 {
      GridSum(f, remaining);
    }
    assert f + Left(size, g, k) == Landing(size, g, k + 1);
    SmallLeft(size - Landing(size, g, k + 1));
    SmallLeft(size - Multiple(k + 1, g));
    LeftIs(size, g, k + 1);
  }

  lemma LeftIs(size: real, gain: real, k: nat)
    ensures Left(size, gain, k) == Round8(Max(size - Multiple(k, gain), 0.0))
  {
    hide Round8, Multiple;
  }

  // ----- how many passes ------------------------------------------------------------------------

  /** With a ratio q and k >= 1/q passes: complete exactly when k rounded steps leave at most a unit, and always
      when the step is not rounded down. */
  lemma EnoughPassesComplete(cfg: Config, r: Row, prices: seq<real>)
    requires Fresh(r) && cfg.allowPartial && cfg.partialRatio > 0.0 && |prices| as real >= 1.0 / cfg.partialRatio
    ensures var step := r.size * cfg.partialRatio;
            && (AfterPasses(cfg, r, prices).status == Filled
                <==> Round8(Max(r.size - Multiple(|prices|, Round8(step)), 0.0)) <= UNIT)
            && (Round8(step) >= step ==> AfterPasses(cfg, r, prices).status == Filled)
  {
    hide AfterPasses, Round8, Multiple, Underway, CompletedAt;
    var k := |prices|;
    var step := StepOf(cfg, r.size);
    PositiveStep(cfg, r.size, k);
    hide StepOf;
    PassesFill(cfg, r, prices);
    if Round8(step) >= step {
      LargerMultiple(k, step, Round8(step));
      SmallLeft(r.size - Multiple(k, Round8(step)));
    }
  }

  lemma PositiveStep(cfg: Config, size: real, k: nat)
    requires size > 0.0 && cfg.allowPartial && cfg.partialRatio > 0.0 && k as real >= 1.0 / cfg.partialRatio
    ensures k >= 1 && StepOf(cfg, size) == size * cfg.partialRatio > 0.0 && Multiple(k, StepOf(cfg, size)) >= size
  {
    MulSigns(size, cfg.partialRatio);
    WholeSize(k, cfg.partialRatio, size, size * cfg.partialRatio);
    MulUnits(StepOf(cfg, size));
  }

  lemma LargerMultiple(k: nat, x: real, y: real)
    requires x <= y
    ensures Multiple(k, x) <= Multiple(k, y)
  {
    MulMonotone(x, y, k as real);
    MulSymmetric(x, k as real);
    MulSymmetric(y, k as real);
  }

  /** k steps of a k-th or more of the size cover the size. */
  lemma WholeSize(k: nat, q: real, size: real, step: real)
    requires q > 0.0 && size > 0.0 && k as real >= 1.0 / q && step == size * q
    ensures Multiple(k, step) >= size
  {
    var n := k as real;
    DivCancel(1.0, q);
    MulMonotone(1.0 / q, n, q);
    MulMonotone(1.0, n * q, size);
    assert n * (size * q) == n * q * size;
  }

  /** Seven passes are not enough for sevenths: an entry of size 1 is two units short. */
  lemma SevenSeventhsFallShort(cfg: Config, r: Row, prices: seq<real>)
    requires Fresh(r) && r.size == 1.0 && cfg.allowPartial && cfg.partialRatio == 1.0 / 7.0 && |prices| == 7
    ensures var o := AfterPasses(cfg, r, prices);
            o.filled == 0.99999998 && o.remaining == 0.00000002 && o.status != Filled
  {
    var step := 1.0 / 7.0;
    assert RoundHalfEven(step * 100000000.0) == 14285714;
    assert Round8(step) == 0.14285714;
    PassesFill(cfg, r, prices);
    hide AfterPasses;
    assert Multiple(7, 0.14285714) == 0.99999998;
    RoundOfInt(2);
    assert Left(1.0, 0.14285714, 7) == 0.00000002;
  }

  /** A paper entry is completed by some number of acceptable passes exactly when its step exceeds half
      a unit; the caller can check that on the size and the ratio before placing it. */
  lemma CompletesExactly(cfg: Config, r: Row)
    requires Fresh(r) && r.size >= 0.5 && StepOf(cfg, r.size) > 0.0
    ensures (exists prices :: Acceptables(cfg, r, prices) && AfterPasses(cfg, r, prices).status == Filled)
            <==> StepOf(cfg, r.size) > UNIT / 2.0
  {
    var step := StepOf(cfg, r.size);
    hide StepOf, AfterPasses, Left;
    if step > UNIT / 2.0 {
      var n := (r.size / UNIT).Floor + 1;
      var prices := seq(n, i => r.price + cfg.tolerance);
      PassesFill(cfg, r, prices);
      UnitSteps(r.size, step, n);
      assert Acceptables(cfg, r, prices) && AfterPasses(cfg, r, prices).status == Filled;
    } else {
      forall prices ensures AfterPasses(cfg, r, prices).status != Filled {
        PassesFill(cfg, r, prices);
        NoSteps(r.size, step, |prices|);
      }
    }
  }

  lemma UnitSteps(size: real, step: real, n: nat)
    requires size > 0.0 && step > UNIT / 2.0 && n == (size / UNIT).Floor + 1
    ensures CompletesBy(size, step, n)
  {
    Round8Shift(0.0, step);
    var g := Round8(step);
    MulMonotone(UNIT, g, n as real);
    MulSymmetric(UNIT, n as real);
    MulSymmetric(g, n as real);
    assert Mul(n as real, UNIT) > size;
    hide Mul, Round8;
    SmallLeft(size - Multiple(n, g));
    LeftIs(size, g, n);
  }

  /** From a grid point, more than half a unit rounds to at least the next grid point. */
  lemma Round8Shift(x: real, taken: real)
    requires OnGrid(x) && taken > UNIT / 2.0
    ensures Round8(x + taken) >= x + UNIT
  {
    var n := (x * 100000000.0).Floor;
    assert (x + taken) * 100000000.0 == n as real + taken * 100000000.0 && taken * 100000000.0 > 0.5;
    RoundNear((x + taken) * 100000000.0);
    assert RoundHalfEven((x + taken) * 100000000.0) >= n + 1;
  }

  lemma NoSteps(size: real, step: real, k: nat)
    requires size >= 0.5 && 0.0 < step <= UNIT / 2.0
    ensures !CompletesBy(size, step, k) && Multiple(k, Round8(step)) == 0.0
  {
    DustRoundsAway(step);
    MulUnits(k as real);
    Round8Facts(size);
    hide Mul, Round8;
    LeftIs(size, 0.0, k);
  }

  lemma DustRoundsAway(x: real)
    requires 0.0 <= x <= UNIT / 2.0
    ensures Round8(x) == 0.0
  {
    assert RoundHalfEven(x * 100000000.0) == 0;
  }

  /** A step of at most half a unit is rounded away every time: the entry never fills at all. */
  lemma DustNeverFills(cfg: Config, r: Row, prices: seq<real>)
    requires Fresh(r) && r.size >= 0.5 && 0.0 < StepOf(cfg, r.size) <= UNIT / 2.0
    ensures var o := AfterPasses(cfg, r, prices);
            && o.filled == 0.0 && o.size == r.size && o.status != Filled
            && (o.remaining == r.size || o.remaining == Round8(r.size))
  {
    hide StepOf, AfterPasses, CompletesBy, Multiple, Round8;
    PassesFill(cfg, r, prices);
    NoSteps(r.size, StepOf(cfg, r.size), |prices|);
  }

  // ----- against the nominal schedule -----------------------------------------------------------

  /** For any size and any ratio, after k acceptable passes the fill is within k + 3 half units of
      min(size, k*q*size): every pass may round by half a unit, and the end by one and a half. */
  lemma {:induction false} PassesTrack(cfg: Config, r: Row, prices: seq<real>)
    requires Fresh(r) && r.size > 0.0 && cfg.allowPartial && cfg.partialRatio > 0.0
    ensures var o, k := AfterPasses(cfg, r, prices), |prices|;
            Near(o.filled, Min(r.size, Multiple(k, r.size * cfg.partialRatio)), Multiple(k + 3, UNIT / 2.0))
  {
    hide Multiple, LedgerOk, Fill, Near;
    var step := r.size * cfg.partialRatio;
    MulSigns(r.size, cfg.partialRatio);
    if prices == [] {
      MultipleStep(0, step);
      HalfUnits(0);
      NearZero(r.size, Multiple(3, UNIT / 2.0));
    } else {
      var init := prices[..|prices| - 1];
      PassesTrack(cfg, r, init);
      UntouchedLedger(r);
      PassesKeepLedger(cfg, r, init);
      MultipleStep(|init|, step);
      HalfUnits(|init|);
      var o, price := AfterPasses(cfg, r, init), prices[|prices| - 1];
      assert AfterPasses(cfg, r, prices) == Fill(o, PaperFillSize(cfg, o), price, 0.0);
      hide AfterPasses, PaperFillSize;
      PassTracks(cfg, o, price, Multiple(|init|, step), Multiple(|init| + 3, UNIT / 2.0));
      assert Multiple(|prices|, step) == Multiple(|init|, step) + o.size * cfg.partialRatio;
      assert Multiple(|prices| + 3, UNIT / 2.0) == Multiple(|init| + 3, UNIT / 2.0) + UNIT / 2.0;
    }
  }

  lemma NearZero(size: real, slack: real)
    requires size > 0.0 && slack >= 0.0
    ensures Near(0.0, Min(size, 0.0), slack)
  {
  }

  ghost predicate Near(x: real, y: real, slack: real) {
    y - slack <= x <= y + slack
  }

  lemma HalfUnits(k: nat)
    ensures Multiple(k + 3, UNIT / 2.0) >= 1.5 * UNIT
    ensures Multiple(k + 4, UNIT / 2.0) == Multiple(k + 3, UNIT / 2.0) + UNIT / 2.0
  {
    MultipleStep(k + 3, UNIT / 2.0);
    MulMonotone(3.0, (k + 3) as real, UNIT / 2.0);
  }

  lemma PassTracks(cfg: Config, o: Row, price: real, here: real, slack: real)
    requires LedgerOk(o) && cfg.allowPartial && o.size * cfg.partialRatio > 0.0 && here >= 0.0 && slack >= 1.5 * UNIT
    requires Near(o.filled, Min(o.size, here), slack)
    ensures Near(Fill(o, PaperFillSize(cfg, o), price, 0.0).filled,
                 Min(o.size, here + o.size * cfg.partialRatio), slack + UNIT / 2.0)
  {
    hide LedgerOk, Fill, PaperFillSize, Near;
    var step := o.size * cfg.partialRatio;
    var o' := Fill(o, PaperFillSize(cfg, o), price, 0.0);
    LedgerEnds(o);
    FillKeepsLedger(o, PaperFillSize(cfg, o), price, 0.0);
    LedgerEnds(o');
    PassRounds(cfg, o, price);
    StepNear(o.filled, o'.filled, o.remaining, o.size, step, here, slack);
  }

  lemma LedgerEnds(o: Row)
    requires LedgerOk(o)
    ensures o.filled <= o.size + UNIT / 2.0 && o.remaining >= 0.0 && o.filled + o.remaining >= o.size - 1.5 * UNIT
    ensures o.remaining > 0.0 ==> o.filled + o.remaining >= o.size - UNIT / 2.0
  {
    Round8Facts(Max(o.size - o.filled, 0.0));
    hide Round8, OnGrid;
  }

  lemma PassRounds(cfg: Config, o: Row, price: real)
    requires cfg.allowPartial && o.size * cfg.partialRatio > 0.0 && o.remaining >= 0.0
    ensures var o' := Fill(o, PaperFillSize(cfg, o), price, 0.0);
            if o.remaining == 0.0 then o'.filled == o.filled
            else Near(o'.filled, o.filled + Min(o.remaining, o.size * cfg.partialRatio), UNIT / 2.0)
  {
    var taken := TakenSize(o, PaperFillSize(cfg, o));
    assert taken == Min(o.remaining, o.size * cfg.partialRatio);
    if taken > 0.0 {
      FillOutcome(o, PaperFillSize(cfg, o), price);
      Round8Facts(o.filled + taken);
    }
    hide Round8, OnGrid;
  }

  lemma StepNear(filled: real, filled': real, remaining: real, size: real, step: real, here: real, slack: real)
    requires remaining >= 0.0 && step > 0.0 && slack >= 1.5 * UNIT && Near(filled, Min(size, here), slack)
    requires filled' <= size + UNIT / 2.0 && filled + remaining >= size - 1.5 * UNIT
    requires remaining > 0.0 ==> filled + remaining >= size - UNIT / 2.0
    requires if remaining == 0.0 then filled' == filled else Near(filled', filled + Min(remaining, step), UNIT / 2.0)
    ensures Near(filled', Min(size, here + step), slack + UNIT / 2.0)
  {}

  lemma FillOutcome(o: Row, size: real, price: real)
    requires TakenSize(o, size) > 0.0
    ensures var o' := Fill(o, size, price, 0.0);
            && o'.filled == Round8(o.filled + TakenSize(o, size))
            && (o'.status == Filled || (o'.status == PartiallyFilled && o'.remaining > UNIT))
            && (o'.status == Filled ==> o'.remaining == 0.0)
  {
    hide Round8;
  }
}
