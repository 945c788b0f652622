/** Slippage protection: the greedy walk of one side of the order book, and the gate built on it. */
module Slippage {
  import opened Rounding
  import opened Products
  import opened Sums
  import opened StableSort

  datatype Level = Level(price: real, size: real)

  datatype Bps = Infinite | Finite(value: real)

  datatype Estimate = Estimate(vwap: real, midpoint: real, slippage: Bps, totalDepth: real, levelsConsumed: nat,
                               sufficient: bool)

  /** What the walk sorts by and pays: the price for a BUY, the negated price for a SELL. */
  function Key(buy: bool): Level -> real {
    (l: Level) => if buy then l.price else -l.price
  }

  /** The side that is consumed, best level first. */
  function Levels(buy: bool, bids: seq<Level>, asks: seq<Level>): seq<Level> {
    Sort(if buy then asks else bids, Key(buy))
  }

  ghost predicate Sizes(ls: seq<Level>) {
    forall l :: l in ls ==> l.size >= 0.0
  }

  // ----- sums over levels -----------------------------------------------------------------------

  function Total(ls: seq<Level>, f: Level -> real): real {
    if ls == [] then 0.0 else f(ls[0]) + Total(ls[1..], f)
  }

  function Depth(ls: seq<Level>): real {
    Total(ls, (l: Level) => l.size)
  }

  lemma {:induction false} InsertTotal(x: Level, ls: seq<Level>, key: Level -> real, f: Level -> real)
    ensures Total(Insert(x, ls, key), f) == f(x) + Total(ls, f)
  {
    if ls == [] || key(x) <= key(ls[0]) {
      assert ([x] + ls)[1..] == ls;
    } else {
      InsertTotal(x, ls[1..], key, f);
      var rest := Insert(x, ls[1..], key);
      assert ([ls[0]] + rest)[1..] == rest;
    }
  }

  lemma {:induction false} SortTotal(ls: seq<Level>, key: Level -> real, f: Level -> real)
    ensures Total(Sort(ls, key), f) == Total(ls, f)
  {
    if ls == [] {
    } else {
      SortTotal(ls[1..], key, f);
      InsertTotal(ls[0], Sort(ls[1..], key), key, f);
    }
  }

  // ----- the walk -------------------------------------------------------------------------------

  /** Money spent, size filled and levels touched by walking `ls` for `order`. */
  datatype Walked = Walked(cost: real, filled: real, used: nat)

  function Walk(ls: seq<Level>, order: real): Walked {
    if ls == [] || order <= 0.0 then Walked(0.0, 0.0, 0)
    else
      var take := Min(order, ls[0].size);
      var rest := Walk(ls[1..], order - take);
      Walked(take * ls[0].price + rest.cost, take + rest.filled, 1 + rest.used)
  }

  /** The walk fills exactly the order or the whole side, whichever is smaller. */
  lemma {:induction false} WalkFills(ls: seq<Level>, order: real)
    requires Sizes(ls)
    ensures Walk(ls, order).filled == Min(Max(order, 0.0), Depth(ls)) && Depth(ls) >= 0.0
  {
    if ls == [] {
    } else {
      assert ls[0] in ls;
      assert forall l :: l in ls[1..] ==> l in ls;
      WalkFills(ls[1..], order - Min(order, ls[0].size));
    }
  }

  lemma FillsTheSmaller(buy: bool, bids: seq<Level>, asks: seq<Level>, order: real)
    requires Sizes(bids) && Sizes(asks)
    ensures Walk(Levels(buy, bids, asks), order).filled
            == Min(Max(order, 0.0), Depth(if buy then asks else bids))
  {
    var side := if buy then asks else bids;
    SortMembers(side, Key(buy));
    WalkFills(Levels(buy, bids, asks), order);
    SortTotal(side, Key(buy), (l: Level) => l.size);
  }

  // ----- optimality by duality ------------------------------------------------------------------

  /** An allocation fills each level of the book with part of its size. */
  ghost predicate Allocation(ls: seq<Level>, xs: seq<real>) {
    |xs| == |ls| && forall i :: 0 <= i < |xs| ==> 0.0 <= xs[i] <= ls[i].size
  }

  /** What an allocation pays. */
  function Cost(ls: seq<Level>, xs: seq<real>): real
    requires |xs| == |ls|
  {
    if xs == [] then 0.0 else Mul(xs[0], ls[0].price) + Cost(ls[1..], xs[1..])
  }

  ghost function Signed(buy: bool, x: real): real {
    if buy then x else -x
  }

  /** What a level with key `k` saves, filled whole, against paying `lambda` per unit. */
  ghost function Saving(buy: bool, lambda: real): Level -> real {
    (l: Level) => Mul(l.size, Min(0.0, Key(buy)(l) - lambda))
  }

  lemma PartSaves(x: real, size: real, gain: real)
    requires 0.0 <= x <= size
    ensures Mul(x, gain) >= Mul(size, Min(0.0, gain))
  {
    if gain <= 0.0 {
      MulMonotone(x, size, -gain);
      MulNegative(x, gain);
      MulNegative(size, gain);
    } else {
      MulSigns(x, gain);
    }
  }

  /** No allocation beats any price bound: it pays at least `lambda` a unit, less all savings below `lambda`. */
  lemma {:induction false} WeakDuality(buy: bool, ls: seq<Level>, xs: seq<real>, lambda: real)
    requires Allocation(ls, xs)
    ensures Signed(buy, Cost(ls, xs)) >= Mul(Sum(xs), lambda) + Total(ls, Saving(buy, lambda))
  {
    hide Mul;
    if xs == [] {
      MulUnits(lambda);
    } else {
      WeakDuality(buy, ls[1..], xs[1..], lambda);
      SumCons(xs[0], xs[1..]);
      assert xs == [xs[0]] + xs[1..];
      hide Sum;
      var k := Key(buy)(ls[0]);
      PartSaves(xs[0], ls[0].size, k - lambda);
      Distribute(xs[0], lambda, k - lambda);
      Distribute(lambda, xs[0], Sum(xs[1..]));
      MulNegative(xs[0], ls[0].price);
    }
  }

  /** The parts the walk takes, as an allocation. */
  ghost function Parts(ls: seq<Level>, order: real): seq<real> {
    if ls == [] then []
    else
      var take := if order <= 0.0 then 0.0 else Min(order, ls[0].size);
      [take] + Parts(ls[1..], order - take)
  }

  /** `xs` is an allocation of `ls` that fills and pays what the walk `w` did. */
  ghost predicate Matches(ls: seq<Level>, xs: seq<real>, w: Walked) {
    Allocation(ls, xs) && Sum(xs) == w.filled && Cost(ls, xs) == w.cost
  }

  lemma MatchesCons(ls: seq<Level>, xs: seq<real>, rest: Walked, w: Walked)
    requires ls != [] && xs != [] && Matches(ls[1..], xs[1..], rest) && 0.0 <= xs[0] <= ls[0].size
    requires w.filled == xs[0] + rest.filled && w.cost == Mul(xs[0], ls[0].price) + rest.cost
    ensures Matches(ls, xs, w)
  {
    hide Mul, Sum;
    SumCons(xs[0], xs[1..]);
    assert xs == [xs[0]] + xs[1..];
  }

  lemma MatchesNone(order: real)
    ensures Matches([], Parts([], order), Walk([], order))
  {}

  /** What the walk takes from the first level of a side. */
  function FirstTake(ls: seq<Level>, order: real): real
    requires ls != []
  {
    if order <= 0.0 then 0.0 else Min(order, ls[0].size)
  }

  lemma WalkNext(ls: seq<Level>, order: real)
    requires ls != [] && Sizes(ls)
    ensures var take := FirstTake(ls, order);
            var rest := Walk(ls[1..], order - take);
            && 0.0 <= take <= ls[0].size && Sizes(ls[1..])
            && Walk(ls, order).cost == Mul(take, ls[0].price) + rest.cost
            && Walk(ls, order).filled == take + rest.filled
  {
    SizesRest(ls);
    hide Sizes, Walk;
    if order <= 0.0 {
      NoWalk(ls, order);
      NoWalk(ls[1..], order - 0.0);
      MulUnits(ls[0].price);
    } else {
      WalkFirst(ls, order);
    }
  }

  lemma SizesRest(ls: seq<Level>)
    requires ls != [] && Sizes(ls)
    ensures Sizes(ls[1..]) && ls[0].size >= 0.0
  {
    assert ls[0] in ls;
    assert forall l :: l in ls[1..] ==> l in ls;
  }

  lemma NoWalk(ls: seq<Level>, order: real)
    requires order <= 0.0
    ensures Walk(ls, order) == Walked(0.0, 0.0, 0)
  {}

  lemma PartsNext(ls: seq<Level>, order: real)
    requires ls != []
    ensures var xs := Parts(ls, order);
            xs != [] && xs[0] == FirstTake(ls, order) && xs[1..] == Parts(ls[1..], order - FirstTake(ls, order))
  {}

  lemma {:induction false} WalkMatches(ls: seq<Level>, order: real)
    requires Sizes(ls)
    ensures Matches(ls, Parts(ls, order), Walk(ls, order))
  {
    hide Walk, Mul, Parts, Sizes, FirstTake, Matches;
    if ls == [] {
      MatchesNone(order);
    } else {
      var rest := order - FirstTake(ls, order);
      WalkNext(ls, order);
      PartsNext(ls, order);
      WalkMatches(ls[1..], rest);
      MatchesCons(ls, Parts(ls, order), Walk(ls[1..], rest), Walk(ls, order));
    }
  }

  lemma WalkIsAllocation(ls: seq<Level>, order: real)
    requires Sizes(ls)
    ensures var xs := Parts(ls, order);
            && Allocation(ls, xs) && Sum(xs) == Walk(ls, order).filled && Cost(ls, xs) == Walk(ls, order).cost
  {
    hide Walk, Mul, Parts, Sizes, Allocation, Sum, Cost;
    WalkMatches(ls, order);
  }

  lemma {:induction false} NoSavings(buy: bool, ls: seq<Level>, lambda: real)
    requires forall l :: l in ls ==> Key(buy)(l) >= lambda
    ensures Total(ls, Saving(buy, lambda)) == 0.0
  {
    if ls == [] {
    } else {
      assert ls[0] in ls;
      assert forall l :: l in ls[1..] ==> l in ls;
      NoSavings(buy, ls[1..], lambda);
      MulUnits(ls[0].size);
    }
  }

  /** On a sorted side the walk attains the bound at its marginal key. */
  lemma {:induction false} StrongDuality(buy: bool, ls: seq<Level>, order: real) returns (lambda: real)
    requires SortedBy(ls, Key(buy)) && Sizes(ls) && ls != []
    ensures Signed(buy, Walk(ls, order).cost) == Mul(Walk(ls, order).filled, lambda) + Total(ls, Saving(buy, lambda))
    ensures Key(buy)(ls[0]) <= lambda
  {
    var k, s := Key(buy)(ls[0]), ls[0].size;
    assert ls[0] in ls;
    if order <= s || |ls| == 1 {
      lambda := k;
      NoSavings(buy, ls, k);
      MarginalCost(buy, ls, order);
    } else {
      assert forall l :: l in ls[1..] ==> l in ls;
      assert SortedBy(ls[1..], Key(buy));
      lambda := StrongDuality(buy, ls[1..], order - s);
      assert k <= Key(buy)(ls[1]);
      WalkWhole(ls, order);
      WholeLevel(buy, ls, order, lambda);
    }
  }

  /** Taking the first level whole adds its saving against `lambda`. */
  lemma WholeLevel(buy: bool, ls: seq<Level>, order: real, lambda: real)
    requires ls != [] && Key(buy)(ls[0]) <= lambda
    requires var rest := Walk(ls[1..], order - ls[0].size);
             && Signed(buy, rest.cost) == Mul(rest.filled, lambda) + Total(ls[1..], Saving(buy, lambda))
             && Walk(ls, order).cost == Mul(ls[0].size, ls[0].price) + rest.cost
             && Walk(ls, order).filled == ls[0].size + rest.filled
    ensures Signed(buy, Walk(ls, order).cost) == Mul(Walk(ls, order).filled, lambda) + Total(ls, Saving(buy, lambda))
  {
    hide Walk, Mul;
    var k, s, rest := Key(buy)(ls[0]), ls[0].size, Walk(ls[1..], order - ls[0].size);
    Distribute(s, lambda, k - lambda);
    Distribute(lambda, s, rest.filled);
    MulNegative(s, ls[0].price);
  }

  /** A walk that ends on its first level. */
  lemma MarginalCost(buy: bool, ls: seq<Level>, order: real)
    requires ls != [] && ls[0].size >= 0.0 && (order <= ls[0].size || |ls| == 1)
    ensures Signed(buy, Walk(ls, order).cost) == Mul(Walk(ls, order).filled, Key(buy)(ls[0]))
  {
    if order > 0.0 {
      var take := Min(order, ls[0].size);
      assert Walk(ls[1..], order - take) == Walked(0.0, 0.0, 0);
    }
  }

  lemma WalkWhole(ls: seq<Level>, order: real)
    requires ls != [] && 0.0 <= ls[0].size < order
    ensures var rest := Walk(ls[1..], order - ls[0].size);
            && Walk(ls, order).cost == Mul(ls[0].size, ls[0].price) + rest.cost
            && Walk(ls, order).filled == ls[0].size + rest.filled
  {}

  /** The walk is optimal: no other way to fill the same size from the same levels, in whatever order the
      book lists them, costs less (BUY) or brings more (SELL). */
  lemma WalkIsOptimal(buy: bool, bids: seq<Level>, asks: seq<Level>, order: real, xs: seq<real>)
    requires Sizes(bids) && Sizes(asks)
    requires var side := if buy then asks else bids;
             Allocation(side, xs) && Sum(xs) == Walk(Levels(buy, bids, asks), order).filled
    ensures var side := if buy then asks else bids;
            var walked := Walk(Levels(buy, bids, asks), order).cost;
            if buy then walked <= Cost(side, xs) else walked >= Cost(side, xs)
  {
    var side := if buy then asks else bids;
    if side != [] {
      SortSorted(side, Key(buy));
      SortMembers(side, Key(buy));
      var lambda := StrongDuality(buy, Levels(buy, bids, asks), order);
      SortTotal(side, Key(buy), Saving(buy, lambda));
      WeakDuality(buy, side, xs, lambda);
    }
  }

  // ----- average price --------------------------------------------------------------------------

  ghost function Vwap(ls: seq<Level>, order: real): real
    requires Walk(ls, order).filled > 0.0
  {
    Walk(ls, order).cost / Walk(ls, order).filled
  }

  lemma {:induction false} SavingsNegative(buy: bool, ls: seq<Level>, lambda: real)
    requires Sizes(ls)
    ensures Total(ls, Saving(buy, lambda)) <= 0.0
  {
    if ls == [] {
    } else {
      assert ls[0] in ls;
      assert forall l :: l in ls[1..] ==> l in ls;
      MulSigns(ls[0].size, -Min(0.0, Key(buy)(ls[0]) - lambda));
      MulNegative(ls[0].size, Min(0.0, Key(buy)(ls[0]) - lambda));
      SavingsNegative(buy, ls[1..], lambda);
    }
  }

  /** c1/f1 <= c2/f2 from a common lower bound that is tight for the first. */
  lemma RatioOrder(c1: real, f1: real, c2: real, f2: real, lambda: real, d: real)
    requires 0.0 < f1 <= f2 && d <= 0.0
    requires c1 == Mul(f1, lambda) + d && c2 >= Mul(f2, lambda) + d
    ensures c1 / f1 <= c2 / f2
  {
    DivCancel(d, f1);
    DivCancel(d, f2);
    DivCancel(c1, f1);
    DivCancel(c2, f2);
    var r1, r2 := d / f1, d / f2;
    assert r1 <= r2 by {
      MulStrict(r1, 0.0, f1);
      MulMonotone(f1, f2, -r1);
      MulNegative(f1, r1);
      MulNegative(f2, r1);
      MulSymmetric(f1, r1);
      MulSymmetric(f2, r1);
      MulStrict(r2, r1, f2);
      MulUnits(f1);
      if r1 > 0.0 {
        MulSigns(r1, f1);
      }
      hide Mul;
    }
    assert c1 / f1 == lambda + r1 by {
      MulSymmetric(f1, lambda);
      Distribute(f1, lambda, r1);
      MulStrict(c1 / f1, lambda + r1, f1);
      MulStrict(lambda + r1, c1 / f1, f1);
      hide Mul;
    }
    assert c2 / f2 >= lambda + r2 by {
      MulSymmetric(f2, lambda);
      Distribute(f2, lambda, r2);
      MulStrict(c2 / f2, lambda + r2, f2);
      hide Mul;
    }
  }

  /** A larger order never gets a better average: the VWAP is non-decreasing in size for a BUY and
      non-increasing for a SELL. */
  lemma VwapMonotone(buy: bool, bids: seq<Level>, asks: seq<Level>, order: real, larger: real)
    requires Sizes(bids) && Sizes(asks) && 0.0 < order <= larger
    requires Walk(Levels(buy, bids, asks), order).filled > 0.0
    ensures var ls := Levels(buy, bids, asks);
            && Walk(ls, larger).filled > 0.0
            && if buy then Vwap(ls, order) <= Vwap(ls, larger) else Vwap(ls, order) >= Vwap(ls, larger)
  {
    var side, ls := if buy then asks else bids, Levels(buy, bids, asks);
    SortSorted(side, Key(buy));
    SortMembers(side, Key(buy));
    SidesMonotone(buy, ls, order, larger);
  }

  lemma SidesMonotone(buy: bool, ls: seq<Level>, order: real, larger: real)
    requires Sizes(ls) && SortedBy(ls, Key(buy)) && 0.0 < order <= larger && Walk(ls, order).filled > 0.0
    ensures Walk(ls, larger).filled > 0.0
    ensures if buy then Vwap(ls, order) <= Vwap(ls, larger) else Vwap(ls, order) >= Vwap(ls, larger)
  {
    WalkFills(ls, order);
    WalkFills(ls, larger);
    var w1, w2 := Walk(ls, order), Walk(ls, larger);
    assert ls != [];
    var lambda := StrongDuality(buy, ls, order);
    WalkIsAllocation(ls, larger);
    WeakDuality(buy, ls, Parts(ls, larger), lambda);
    SavingsNegative(buy, ls, lambda);
    hide Walk, Total, Mul, Saving, Sizes, SortedBy, Depth;
    RatioOrder(Signed(buy, w1.cost), w1.filled, Signed(buy, w2.cost), w2.filled, lambda,
               Total(ls, Saving(buy, lambda)));
    NegativeRatio(w1.cost, w1.filled);
    NegativeRatio(w2.cost, w2.filled);
  }

  lemma NegativeRatio(c: real, f: real)
    requires f > 0.0
    ensures -c / f == -(c / f)
  {}

  // ----- the estimate and the gate --------------------------------------------------------------

  /** Slippage against the midpoint in basis points, before rounding. */
  function SlippageBps(buy: bool, vwap: real, midpoint: real): real {
    if midpoint > 0.0
    then (if buy then (vwap - midpoint) / midpoint else (midpoint - vwap) / midpoint) * 10000.0
    else 0.0
  }

  function Notional(ls: seq<Level>): real {
    Total(ls, (l: Level) => l.price * l.size)
  }

  function EstimateOf(order: real, buy: bool, bids: seq<Level>, asks: seq<Level>): Estimate {
    if bids == [] || asks == [] then Estimate(0.0, 0.0, Infinite, 0.0, 0, false)
    else
      var midpoint := (bids[0].price + asks[0].price) / 2.0;
      var ls := Levels(buy, bids, asks);
      var w := Walk(ls, order);
      if w.filled <= 0.0 then Estimate(0.0, midpoint, Infinite, Notional(ls), 0, false)
      else
        var vwap := w.cost / w.filled;
        Estimate(vwap, midpoint, Finite(RoundTo(SlippageBps(buy, vwap, midpoint), 100.0)),
                 RoundTo(Notional(ls), 100.0), w.used, w.filled >= order)
  }

  lemma WalkFirst(ls: seq<Level>, order: real)
    requires ls != [] && order > 0.0
    ensures var take := Min(order, ls[0].size);
            var rest := Walk(ls[1..], order - take);
            Walk(ls, order) == Walked(Mul(take, ls[0].price) + rest.cost, take + rest.filled, 1 + rest.used)
  {}

  /** The loop of `estimate_slippage`: it takes from level after level until the order is met. */
  method WalkBook(levels: seq<Level>, order: real) returns (w: Walked)
    ensures w == Walk(levels, order)
  {
    var remaining, totalCost, totalFilled, levelsConsumed := order, 0.0, 0.0, 0;
    var i := 0;
    while i < |levels| && remaining > 0.0
      invariant 0 <= i <= |levels|
      invariant Walk(levels, order).cost == totalCost + Walk(levels[i..], remaining).cost
      invariant Walk(levels, order).filled == totalFilled + Walk(levels[i..], remaining).filled
      invariant Walk(levels, order).used == levelsConsumed + Walk(levels[i..], remaining).used
    {
      assert levels[i..][0] == levels[i] && levels[i..][1..] == levels[i + 1..];
      WalkFirst(levels[i..], remaining);
      hide Walk;
      var price, size := levels[i].price, levels[i].size;
      levelsConsumed := levelsConsumed + 1;
      var fill := Min(remaining, size);
      assert Mul(fill, price) == fill * price;
      hide Mul;
      totalCost := totalCost + fill * price;
      totalFilled := totalFilled + fill;
      remaining := remaining - fill;
      i := i + 1;
    }
    w := Walked(totalCost, totalFilled, levelsConsumed);
  }

  /** `estimate_slippage`. Liquidity suffices exactly when the order is positive and within the depth. */
  method EstimateSlippage(order: real, buy: bool, bids: seq<Level>, asks: seq<Level>) returns (e: Estimate)
    ensures e == EstimateOf(order, buy, bids, asks)
    ensures Sizes(bids) && Sizes(asks) ==>
              (e.sufficient <==> bids != [] && asks != [] && 0.0 < order <= Depth(if buy then asks else bids))
  {
    if bids == [] || asks == [] {
      return Estimate(0.0, 0.0, Infinite, 0.0, 0, false);
    }
    if Sizes(bids) && Sizes(asks) {
      FillsTheSmaller(buy, bids, asks, order);
    }
    hide Walk, Sizes, Depth, SlippageBps, RoundTo;
    var midpoint := (bids[0].price + asks[0].price) / 2.0;
    var levels := Levels(buy, bids, asks);
    var totalDepth := Notional(levels);
    var w := WalkBook(levels, order);
    if w.filled <= 0.0 {
      return Estimate(0.0, midpoint, Infinite, totalDepth, 0, false);
    }
    var vwap := w.cost / w.filled;
    e := Estimate(vwap, midpoint, Finite(RoundTo(SlippageBps(buy, vwap, midpoint), 100.0)),
                  RoundTo(totalDepth, 100.0), w.used, w.filled >= order);
  }

  /** The walk touches the fewest best levels that cover the order, or all of them. */
  lemma {:induction false} UsedExactly(ls: seq<Level>, order: real)
    requires Sizes(ls) && order > 0.0
    ensures var u := Walk(ls, order).used;
            && u <= |ls| && (u < |ls| ==> Depth(ls[..u]) >= order)
            && forall k :: 0 <= k < u ==> Depth(ls[..k]) < order
  {
    assert ls[..0] == [];
    if ls == [] {
    } else {
      var s, rest, u := ls[0].size, ls[1..], Walk(ls, order).used;
      SizesRest(ls);
      forall k | 1 <= k <= |ls| ensures Depth(ls[..k]) == s + Depth(rest[..k - 1]) {
        assert ls[..k][0] == ls[0] && ls[..k][1..] == rest[..k - 1];
      }
      if order > s {
        UsedExactly(rest, order - s);
      }
      hide Depth, Sizes;
    }
  }

  lemma {:induction false} TotalIsSum(ls: seq<Level>, f: Level -> real)
    ensures Total(ls, f) == Sum(seq(|ls|, i requires 0 <= i < |ls| => f(ls[i])))
  {
    if ls == [] {
    } else {
      TotalIsSum(ls[1..], f);
      var xs := seq(|ls|, i requires 0 <= i < |ls| => f(ls[i]));
      assert xs == [f(ls[0])] + seq(|ls| - 1, i requires 0 <= i < |ls| - 1 => f(ls[1..][i]));
      SumCons(f(ls[0]), xs[1..]);
      hide Sum;
    }
  }

  /** Money on a side: price times size over all its levels. */
  ghost function SideValue(side: seq<Level>): real {
    Sum(seq(|side|, i requires 0 <= i < |side| => side[i].price * side[i].size))
  }

  /** What the estimate of a positive order reports: the midpoint of the first levels, the average price, the value
      of the whole side to the cent in whatever order the book lists it, and the levels touched. */
  lemma EstimateMeans(order: real, buy: bool, bids: seq<Level>, asks: seq<Level>)
    requires Sizes(bids) && Sizes(asks) && bids != [] && asks != [] && order > 0.0
    requires Depth(if buy then asks else bids) > 0.0
    ensures var side, ls := if buy then asks else bids, Levels(buy, bids, asks);
            var e, w := EstimateOf(order, buy, bids, asks), Walk(ls, order);
            && e.midpoint + e.midpoint == bids[0].price + asks[0].price && Mul(e.vwap, w.filled) == w.cost
            && -0.005 <= e.totalDepth - SideValue(side) <= 0.005
            && e.levelsConsumed <= |side|
            && (e.levelsConsumed < |side| ==> Depth(ls[..e.levelsConsumed]) >= order)
            && forall k :: 0 <= k < e.levelsConsumed ==> Depth(ls[..k]) < order
  {
    hide Walk, Sizes, Depth, SlippageBps, RoundTo, Levels, Notional, SideValue, Mul;
    var side, ls := if buy then asks else bids, Levels(buy, bids, asks);
    FillsTheSmaller(buy, bids, asks, order);
    LevelsSizes(buy, bids, asks);
    UsedExactly(ls, order);
    LevelsValue(buy, bids, asks);
    RoundsToCent(Notional(ls));
    DivCancel(Walk(ls, order).cost, Walk(ls, order).filled);
  }

  lemma LevelsSizes(buy: bool, bids: seq<Level>, asks: seq<Level>)
    requires Sizes(bids) && Sizes(asks)
    ensures Sizes(Levels(buy, bids, asks)) && |Levels(buy, bids, asks)| == |if buy then asks else bids|
  {
    SortMembers(if buy then asks else bids, Key(buy));
  }

  lemma LevelsValue(buy: bool, bids: seq<Level>, asks: seq<Level>)
    ensures Notional(Levels(buy, bids, asks)) == SideValue(if buy then asks else bids)
  {
    var side, worth := if buy then asks else bids, (l: Level) => l.price * l.size;
    SortTotal(side, Key(buy), worth);
    TotalIsSum(side, worth);
    assert seq(|side|, i requires 0 <= i < |side| => side[i].price * side[i].size)
           == seq(|side|, i requires 0 <= i < |side| => worth(side[i]));
    hide Sum, Total, Sort;
  }

  lemma RoundsToCent(x: real)
    ensures -0.005 <= RoundTo(x, 100.0) - x <= 0.005
  {
    RoundNear(x * 100.0);
  }

  /** `check_slippage_ok`: enough liquidity, and the rounded slippage within the limit. */
  predicate Accepts(order: real, buy: bool, bids: seq<Level>, asks: seq<Level>, maxBps: real) {
    var e := EstimateOf(order, buy, bids, asks);
    e.sufficient && e.slippage.Finite? && e.slippage.value <= maxBps
  }

  lemma SlippageMonotone(buy: bool, v1: real, v2: real, midpoint: real)
    requires if buy then v1 <= v2 else v1 >= v2
    ensures SlippageBps(buy, v1, midpoint) <= SlippageBps(buy, v2, midpoint)
  {
    if midpoint > 0.0 {
      if buy {
        DivideOrder(v1 - midpoint, v2 - midpoint, midpoint);
      } else {
        DivideOrder(midpoint - v1, midpoint - v2, midpoint);
      }
    }
  }

  lemma AcceptsMeans(order: real, buy: bool, bids: seq<Level>, asks: seq<Level>, maxBps: real)
    requires Sizes(bids) && Sizes(asks)
    ensures Accepts(order, buy, bids, asks, maxBps)
            <==> && bids != [] && asks != [] && 0.0 < order <= Depth(if buy then asks else bids)
                 && Walk(Levels(buy, bids, asks), order).filled > 0.0
                 && RoundTo(SlippageBps(buy, Vwap(Levels(buy, bids, asks), order),
                                        (bids[0].price + asks[0].price) / 2.0), 100.0) <= maxBps
  {
    FillsTheSmaller(buy, bids, asks, order);
    hide Walk, Sizes, Depth, SlippageBps, RoundTo, Levels;
  }

  /** Rounding to hundredths stays within a limit exactly up to the next half hundredth, the tie itself going to the
      even hundredth. */
  lemma RoundsWithin(x: real, limit: real)
    ensures var n := (limit * 100.0).Floor;
            RoundTo(x, 100.0) <= limit
            <==> x * 100.0 < n as real + 0.5 || (x * 100.0 == n as real + 0.5 && n % 2 == 0)
  {
    var n, k := (limit * 100.0).Floor, RoundHalfEven(x * 100.0);
    assert RoundTo(x, 100.0) * 100.0 == k as real;
    assert RoundTo(x, 100.0) <= limit <==> k as real <= limit * 100.0;
    assert k as real <= limit * 100.0 <==> k <= n;
  }

  /** Basis points against a positive midpoint, multiplied out. */
  lemma BpsInMoney(buy: bool, cost: real, filled: real, midpoint: real, bps: real)
    requires filled > 0.0 && midpoint > 0.0
    ensures var paid, fair := Signed(buy, cost), Mul(filled, midpoint);
            var over := Signed(buy, fair) + Mul(fair, bps / 10000.0);
            && (SlippageBps(buy, cost / filled, midpoint) <= bps <==> paid <= over)
            && (SlippageBps(buy, cost / filled, midpoint) < bps <==> paid < over)
  {
    var v, b := cost / filled, bps / 10000.0;
    var gap := Signed(buy, v) - Signed(buy, midpoint);
    assert SlippageBps(buy, v, midpoint) == gap / midpoint * 10000.0;
    DivCancel(gap, midpoint);
    DivCancel(cost, filled);
    var paid, fair := Signed(buy, cost), Mul(filled, midpoint);
    assert Mul(gap, filled) == paid - Signed(buy, fair) by {
      assert gap * filled == Signed(buy, v * filled) - Signed(buy, filled * midpoint);
    }
    var q := gap / midpoint;
    assert Mul(q, fair) == Mul(gap, filled) by {
      Associate(q, midpoint, filled);
      MulSymmetric(filled, midpoint);
    }
    MulSigns(filled, midpoint);
    MulSymmetric(b, fair);
    MulStrict(q, b, fair);
    MulStrict(b, q, fair);
    hide Mul, SlippageBps;
  }

  /** What acceptance means in money, at a positive midpoint: the depth covers the order, and what is paid for what
      is filled (or, for a SELL, brought in by it) is no further from its value at the midpoint than the limit, up to
      the rounding of the estimate to hundredths of a basis point, ties going to the even hundredth. */
  lemma AcceptsInMoney(order: real, buy: bool, bids: seq<Level>, asks: seq<Level>, maxBps: real)
    requires Sizes(bids) && Sizes(asks) && bids != [] && asks != [] && bids[0].price + asks[0].price > 0.0
    ensures var w := Walk(Levels(buy, bids, asks), order);
            var paid, fair := Signed(buy, w.cost), Mul(w.filled, (bids[0].price + asks[0].price) / 2.0);
            var n := (maxBps * 100.0).Floor;
            var most := Signed(buy, fair) + Mul(fair, (n as real + 0.5) / 1000000.0);
            Accepts(order, buy, bids, asks, maxBps)
            <==> && 0.0 < order <= Depth(if buy then asks else bids)
                 && (paid < most || (paid == most && n % 2 == 0))
  {
    var ls := Levels(buy, bids, asks);
    var w, midpoint := Walk(ls, order), (bids[0].price + asks[0].price) / 2.0;
    hide Walk, Sizes, Levels, RoundTo, SlippageBps, Depth, Accepts, Mul;
    AcceptsMeans(order, buy, bids, asks, maxBps);
    FillsTheSmaller(buy, bids, asks, order);
    if w.filled > 0.0 {
      var s := SlippageBps(buy, w.cost / w.filled, midpoint);
      var n := (maxBps * 100.0).Floor;
      RoundsWithin(s, maxBps);
      BpsInMoney(buy, w.cost, w.filled, midpoint, (n as real + 0.5) / 100.0);
      assert (n as real + 0.5) / 100.0 / 10000.0 == (n as real + 0.5) / 1000000.0;
    }
  }

  /** Hence the limit holds up to half a hundredth of a basis point, and half a hundredth inside it is enough. */
  lemma LimitHolds(order: real, buy: bool, bids: seq<Level>, asks: seq<Level>, maxBps: real)
    requires Sizes(bids) && Sizes(asks) && bids != [] && asks != [] && bids[0].price + asks[0].price > 0.0
    ensures var w := Walk(Levels(buy, bids, asks), order);
            var value := Mul(w.filled, (bids[0].price + asks[0].price) / 2.0);
            && (Accepts(order, buy, bids, asks, maxBps) ==>
                  if buy then w.cost <= Mul(value, 1.0 + (maxBps + 0.005) / 10000.0)
                  else w.cost >= Mul(value, 1.0 - (maxBps + 0.005) / 10000.0))
            && (0.0 < order <= Depth(if buy then asks else bids)
                && (if buy then w.cost <= Mul(value, 1.0 + (maxBps - 0.005) / 10000.0)
                    else w.cost >= Mul(value, 1.0 - (maxBps - 0.005) / 10000.0))
                ==> Accepts(order, buy, bids, asks, maxBps))
  {
    var ls := Levels(buy, bids, asks);
    var w, midpoint := Walk(ls, order), (bids[0].price + asks[0].price) / 2.0;
    var value, n := Mul(w.filled, midpoint), (maxBps * 100.0).Floor;
    var cap := (n as real + 0.5) / 1000000.0;
    hide Walk, Sizes, Levels, Depth, Accepts, Mul;
    AcceptsInMoney(order, buy, bids, asks, maxBps);
    FillsTheSmaller(buy, bids, asks, order);
    var low, high := (maxBps - 0.005) / 10000.0, (maxBps + 0.005) / 10000.0;
    assert low < cap <= high;
    if 0.0 < order <= Depth(if buy then asks else bids) {
      MulSigns(w.filled, midpoint);
      Distribute(value, 1.0, low);
      Distribute(value, 1.0, -low);
      Distribute(value, 1.0, high);
      Distribute(value, 1.0, -high);
      MulNegative(value, low);
      MulNegative(value, high);
      MulUnits(value);
      MulStrict(low, cap, value);
      MulMonotone(cap, high, value);
      MulSymmetric(low, value);
      MulSymmetric(cap, value);
      MulSymmetric(high, value);
    }
  }

  /** Without a positive midpoint only the depth is looked at. */
  lemma NoMidpointAccepts(order: real, buy: bool, bids: seq<Level>, asks: seq<Level>, maxBps: real)
    requires Sizes(bids) && Sizes(asks) && bids != [] && asks != [] && bids[0].price + asks[0].price <= 0.0
    ensures Accepts(order, buy, bids, asks, maxBps)
            <==> 0.0 < order <= Depth(if buy then asks else bids) && 0.0 <= maxBps
  {
    hide Walk, Sizes, Levels, Depth;
    AcceptsMeans(order, buy, bids, asks, maxBps);
    FillsTheSmaller(buy, bids, asks, order);
    RoundOfInt(0);
    assert RoundTo(0.0, 100.0) == 0.0;
  }

  /** The gate is downward closed, rounding included: if it accepts a size it accepts every smaller
      positive size on the same book. */
  lemma GateIsDownwardClosed(order: real, smaller: real, buy: bool, bids: seq<Level>, asks: seq<Level>, maxBps: real)
    requires Sizes(bids) && Sizes(asks) && 0.0 < smaller <= order
    requires Accepts(order, buy, bids, asks, maxBps)
    ensures Accepts(smaller, buy, bids, asks, maxBps)
  {
    var ls := Levels(buy, bids, asks);
    hide Walk, Sizes, Levels, RoundTo, SlippageBps, Depth, Accepts, Vwap;
    AcceptsMeans(order, buy, bids, asks, maxBps);
    AcceptsMeans(smaller, buy, bids, asks, maxBps);
    FillsTheSmaller(buy, bids, asks, smaller);
    VwapMonotone(buy, bids, asks, smaller, order);
    var midpoint := (bids[0].price + asks[0].price) / 2.0;
    SlippageMonotone(buy, Vwap(ls, smaller), Vwap(ls, order), midpoint);
    RoundToMonotone(SlippageBps(buy, Vwap(ls, smaller), midpoint), SlippageBps(buy, Vwap(ls, order), midpoint), 100.0);
  }
}
