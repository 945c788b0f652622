/** Position sizing by fractional Kelly, and the portfolio that a run of placements builds up. */
module Sizer {
  import opened Options
  import opened Rounding
  import opened Products
  import opened Sums

  datatype Config = Config(
    kellyFraction: real, maxPositionPct: real, maxPortfolioPct: real, maxCategoryPct: real, maxPositions: int,
    maxPerCategory: int, minConfidence: real, useBands: bool, zScore: real, maxSingleLoss: Option<real>)

  datatype Edge = Edge(prob: real, price: real, direction: string, confidence: real, regime: string, category: string,
                       spread: real, uncertainty: real)

  datatype Position = Position(size: real, category: string)

  const MIN_POSITION := 5.0
  const KELLY_EPS := 0.00000001

  function RegimeMultiplier(regime: string): real {
    if regime == "stable" then 1.0 else if regime == "trending" then 0.8 else 0.5
  }

  /** The market price clamped away from 0 and 1. */
  function SafePrice(e: Edge): real {
    Max(0.01, Min(e.price, 0.99))
  }

  /** Odds `b` against the side that is bought. */
  function Odds(e: Edge): real {
    var m := SafePrice(e);
    if e.direction == "YES" then (1.0 - m) / m else m / (1.0 - m)
  }

  /** The probability of the side that is bought. */
  function WinProbability(e: Edge): real {
    if e.direction == "YES" then e.prob else 1.0 - e.prob
  }

  function KellyOf(b: real, p: real): real
    requires b > 0.0
  {
    (b * p - (1.0 - p)) / (b + KELLY_EPS)
  }

  lemma OddsPositive(e: Edge)
    ensures Odds(e) > 0.0
  {}

  /** The lower confidence bound of the win probability. */
  function LowerBound(cfg: Config, p: real, uncertainty: real): real {
    Max(0.01, p - Mul(cfg.zScore, uncertainty))
  }

  /** The Kelly fraction that is used: at the lower bound if there is uncertainty; None to stay out. */
  function KellyAt(cfg: Config, b: real, p: real, uncertainty: real): Option<real>
    requires b > 0.0
  {
    if KellyOf(b, p) <= 0.0 then None
    else if cfg.useBands && uncertainty > 0.0 then
      var lower := KellyOf(b, LowerBound(cfg, p, uncertainty));
      if lower <= 0.0 then None else Some(lower)
    else Some(KellyOf(b, p))
  }

  function Kelly(cfg: Config, e: Edge): Option<real> {
    OddsPositive(e);
    KellyAt(cfg, Odds(e), WinProbability(e), e.uncertainty)
  }

  /** Everything the Kelly fraction is multiplied by to become dollars. */
  function Scale(cfg: Config, bankroll: real, e: Edge): real {
    cfg.kellyFraction * e.confidence * (if e.spread > 0.05 then Max(0.5, 1.0 - (e.spread - 0.05) * 5.0) else 1.0)
    * RegimeMultiplier(e.regime) * bankroll
  }

  function Held(ps: seq<Position>): real {
    if ps == [] then 0.0 else Held(ps[..|ps| - 1]) + ps[|ps| - 1].size
  }

  function InCategory(ps: seq<Position>, category: string): seq<Position> {
    if ps == [] then []
    else InCategory(ps[..|ps| - 1], category) + (if ps[|ps| - 1].category == category then [ps[|ps| - 1]] else [])
  }

  /** The chain of caps: per trade, portfolio, category, single loss. */
  function Capped(cfg: Config, bankroll: real, category: string, ps: seq<Position>, x: real): real {
    var perTrade := Min(x, Mul(bankroll, cfg.maxPositionPct));
    var portfolio := Min(perTrade, Max(Mul(bankroll, cfg.maxPortfolioPct) - Held(ps), 0.0));
    var perCategory := Min(portfolio, Max(Mul(bankroll, cfg.maxCategoryPct) - Held(InCategory(ps, category)), 0.0));
    if cfg.maxSingleLoss.Some? then Min(perCategory, cfg.maxSingleLoss.value) else perCategory
  }

  /** Drawdown scaling, the minimum, and rounding to cents. */
  function Final(x: real, multiplier: real): real {
    var y := Mul(x, multiplier);
    if y < MIN_POSITION then 0.0 else RoundTo(y, 100.0)
  }

  predicate Room(cfg: Config, category: string, ps: seq<Position>) {
    |ps| < cfg.maxPositions && |InCategory(ps, category)| < cfg.maxPerCategory
  }

  /** `calculate_position`. */
  function Size(cfg: Config, bankroll: real, e: Edge, ps: seq<Position>, multiplier: real): real {
    var k := Kelly(cfg, e);
    if e.confidence < cfg.minConfidence || k.None? || !Room(cfg, e.category, ps) then 0.0
    else Final(Capped(cfg, bankroll, e.category, ps, Mul(k.value, Scale(cfg, bankroll, e))), multiplier)
  }

  // ----- what the size is -----------------------------------------------------------------------

  /** What the side that is bought costs, kept away from 0 and 1. */
  ghost function SidePrice(e: Edge): real {
    var m := Clamp(e.price, 0.01, 0.99);
    if e.direction == "YES" then m else 1.0 - m
  }

  /** The probability the bet is sized by: the estimate for the side that is bought, at its lower bound if there is
      uncertainty to allow for. */
  ghost function SizedProbability(cfg: Config, e: Edge): real {
    var p := if e.direction == "YES" then e.prob else 1.0 - e.prob;
    if cfg.useBands && e.uncertainty > 0.0 then Max(0.01, p - Mul(cfg.zScore, e.uncertainty)) else p
  }

  /** Full size up to a spread of 5 cents, half size from 15 cents. */
  ghost function SpreadFactor(spread: real): real {
    Clamp(1.25 - 5.0 * spread, 0.5, 1.0)
  }

  /** The Kelly fraction of a bet with odds b = (1 - c) / c at win probability p is the edge p - c over 1 - c, but for
      the epsilon. */
  lemma KellyIsEdge(c: real, p: real)
    requires 0.0 < c < 1.0
    ensures Mul(KellyOf((1.0 - c) / c, p), 1.0 - c + c * KELLY_EPS) == p - c
  {
    var b := (1.0 - c) / c;
    DivCancel(1.0 - c, c);
    MulStrict(0.0, b, c);
    var k, n, d := KellyOf(b, p), b * p - (1.0 - p), b + KELLY_EPS;
    DivCancel(n, d);
    assert Mul(d, c) == 1.0 - c + c * KELLY_EPS;
    assert Mul(n, c) == p - c by {
      assert n * c == b * c * p - (1.0 - p) * c;
    }
    Associate(k, d, c);
    hide Mul, KellyOf;
  }

  lemma OddsOfSide(e: Edge)
    ensures var c := SidePrice(e); 0.01 <= c <= 0.99 && Odds(e) == (1.0 - c) / c
  {}

  /** No bet without an edge at the probability it is sized by, nor at the estimate itself. */
  lemma KellyExactly(cfg: Config, e: Edge)
    ensures var c := SidePrice(e);
            && 0.01 <= c <= 0.99
            && (Kelly(cfg, e).Some? <==> WinProbability(e) > c && SizedProbability(cfg, e) > c)
            && (Kelly(cfg, e).Some? ==>
                  Mul(Kelly(cfg, e).value, 1.0 - c + c * KELLY_EPS) == SizedProbability(cfg, e) - c)
  {
    var c, p, q := SidePrice(e), WinProbability(e), SizedProbability(cfg, e);
    OddsOfSide(e);
    KellyIsEdge(c, p);
    KellyIsEdge(c, q);
    var d := 1.0 - c + c * KELLY_EPS;
    assert d > 0.0;
    MulStrict(0.0, KellyOf(Odds(e), p), d);
    MulStrict(0.0, KellyOf(Odds(e), q), d);
    MulUnits(d);
    hide Mul, KellyOf, Odds;
  }

  /** What is held, and what is held in a category, as plain sums. */
  ghost function Sizes(ps: seq<Position>): seq<real> {
    seq(|ps|, i requires 0 <= i < |ps| => ps[i].size)
  }

  ghost function SizesIn(ps: seq<Position>, category: string): seq<real> {
    seq(|ps|, i requires 0 <= i < |ps| => if ps[i].category == category then ps[i].size else 0.0)
  }

  ghost function IndicesIn(ps: seq<Position>, category: string): set<nat> {
    set i | 0 <= i < |ps| && ps[i].category == category
  }

  lemma {:induction false} HeldIsSum(ps: seq<Position>)
    ensures Held(ps) == Sum(Sizes(ps))
  {
    if ps == [] {
    } else {
      var n := |ps| - 1;
      HeldIsSum(ps[..n]);
      SumLast(Sizes(ps), Sizes(ps[..n]), ps[n].size);
    }
  }

  lemma HeldSnoc(ps: seq<Position>, p: Position)
    ensures Held(ps + [p]) == Held(ps) + p.size
  {
    assert (ps + [p])[..|ps|] == ps;
  }

  lemma InCategoryLast(ps: seq<Position>, category: string)
    requires ps != []
    ensures var init, last := ps[..|ps| - 1], ps[|ps| - 1];
            InCategory(ps, category)
            == if last.category == category then InCategory(init, category) + [last] else InCategory(init, category)
  {}

  lemma SizesInLast(ps: seq<Position>, category: string)
    requires ps != []
    ensures var init, last := ps[..|ps| - 1], ps[|ps| - 1];
            SizesIn(ps, category) == SizesIn(init, category) + [if last.category == category then last.size else 0.0]
  {}

  lemma {:induction false} HeldInIsSum(ps: seq<Position>, category: string)
    ensures Held(InCategory(ps, category)) == Sum(SizesIn(ps, category))
  {
    if ps == [] {
    } else {
      hide Sum, Held, InCategory, SizesIn;
      var init, last := ps[..|ps| - 1], ps[|ps| - 1];
      HeldInIsSum(init, category);
      InCategoryLast(ps, category);
      SizesInLast(ps, category);
      SumLast(SizesIn(ps, category), SizesIn(init, category), if last.category == category then last.size else 0.0);
      HeldSnoc(InCategory(init, category), last);
    }
  }

  lemma {:induction false} CountsInCategory(ps: seq<Position>, category: string)
    ensures |InCategory(ps, category)| == |IndicesIn(ps, category)|
  {
    if ps == [] {
      assert IndicesIn(ps, category) == {};
    } else {
      var n := |ps| - 1;
      CountsInCategory(ps[..n], category);
      if ps[n].category == category {
        assert IndicesIn(ps, category) == IndicesIn(ps[..n], category) + {n};
      } else {
        assert IndicesIn(ps, category) == IndicesIn(ps[..n], category);
      }
    }
  }

  /** An amount that breaks no limit: no more than the Kelly amount and the share of one trade, if positive within the
      shares of the portfolio and of the category together with what is held, and no more than the single-loss cap. */
  ghost predicate Allowed(cfg: Config, bankroll: real, category: string, ps: seq<Position>, kelly: real, x: real) {
    && x <= kelly
    && x <= Mul(cfg.maxPositionPct, bankroll)
    && (x > 0.0 ==> Sum(Sizes(ps)) + x <= Mul(cfg.maxPortfolioPct, bankroll))
    && (x > 0.0 ==> Sum(SizesIn(ps, category)) + x <= Mul(cfg.maxCategoryPct, bankroll))
    && (cfg.maxSingleLoss.Some? ==> x <= cfg.maxSingleLoss.value)
  }

  /** The chain of caps leaves the largest amount allowed: no limit is skipped and none is added. */
  lemma CappedIsLargest(cfg: Config, bankroll: real, category: string, ps: seq<Position>, kelly: real, x: real)
    ensures x <= Capped(cfg, bankroll, category, ps, kelly) <==> Allowed(cfg, bankroll, category, ps, kelly, x)
  {
    HeldIsSum(ps);
    HeldInIsSum(ps, category);
    MulSymmetric(bankroll, cfg.maxPositionPct);
    MulSymmetric(bankroll, cfg.maxPortfolioPct);
    MulSymmetric(bankroll, cfg.maxCategoryPct);
    hide Held, InCategory, Sum, Sizes, SizesIn, Mul;
  }

  ghost predicate InCents(x: real) {
    (x * 100.0).Floor as real == x * 100.0
  }

  /** What stands in the way of a bet: too little confidence, no edge, or no free place. */
  ghost predicate StaysOut(cfg: Config, e: Edge, ps: seq<Position>) {
    || e.confidence < cfg.minConfidence
    || WinProbability(e) <= SidePrice(e) || SizedProbability(cfg, e) <= SidePrice(e)
    || |ps| >= cfg.maxPositions || |IndicesIn(ps, e.category)| >= cfg.maxPerCategory
  }

  ghost function Dollars(cfg: Config, bankroll: real, e: Edge): real {
    cfg.kellyFraction * e.confidence * SpreadFactor(e.spread)
    * (if e.regime == "stable" then 1.0 else if e.regime == "trending" then 0.8 else 0.5) * bankroll
  }

  /** The edge over the odds to win, scaled by the Kelly fraction, the confidence, the spread, the regime and the
      bankroll. */
  ghost predicate KellyAmount(cfg: Config, bankroll: real, e: Edge, x: real) {
    var c := SidePrice(e);
    Mul(x, 1.0 - c + c * KELLY_EPS) == Mul(SizedProbability(cfg, e) - c, Dollars(cfg, bankroll, e))
  }

  lemma SpreadDiscount(spread: real)
    ensures SpreadFactor(spread) == if spread > 0.05 then Max(0.5, 1.0 - (spread - 0.05) * 5.0) else 1.0
  {}

  lemma KellyScaled(cfg: Config, bankroll: real, e: Edge)
    requires Kelly(cfg, e).Some?
    ensures KellyAmount(cfg, bankroll, e, Mul(Kelly(cfg, e).value, Scale(cfg, bankroll, e)))
  {
    KellyExactly(cfg, e);
    ScaleIsDollars(cfg, bankroll, e);
    var k, c := Kelly(cfg, e).value, SidePrice(e);
    Reassociate(k, Scale(cfg, bankroll, e), 1.0 - c + c * KELLY_EPS);
    hide Mul, Kelly, SizedProbability, SidePrice, Scale, Dollars;
  }

  lemma ScaleIsDollars(cfg: Config, bankroll: real, e: Edge)
    ensures Scale(cfg, bankroll, e) == Dollars(cfg, bankroll, e)
  {
    SpreadDiscount(e.spread);
    hide SpreadFactor;
  }

  lemma Reassociate(k: real, scale: real, d: real)
    ensures Mul(Mul(k, scale), d) == Mul(Mul(k, d), scale)
  {}

  /** The size of a bet. None if anything stands in the way; otherwise the largest amount allowed up to the Kelly
      amount, times the drawdown multiplier, to the cent, but nothing if that is below the minimum. */
  lemma SizeExactly(cfg: Config, bankroll: real, e: Edge, ps: seq<Position>, multiplier: real)
    returns (kelly: real, largest: real)
    ensures var s := Size(cfg, bankroll, e, ps, multiplier);
            if StaysOut(cfg, e, ps) then s == 0.0
            else
              && KellyAmount(cfg, bankroll, e, kelly)
              && (forall x :: x <= largest <==> Allowed(cfg, bankroll, e.category, ps, kelly, x))
              && (if Mul(largest, multiplier) < 5.0 then s == 0.0
                  else InCents(s) && s - 0.005 <= Mul(largest, multiplier) <= s + 0.005)
  {
    KellyExactly(cfg, e);
    CountsInCategory(ps, e.category);
    kelly, largest := 0.0, 0.0;
    hide IndicesIn, InCategory, Kelly, Capped, SidePrice, SizedProbability, WinProbability, Allowed, KellyAmount, Mul,
         Scale, Final;
    if Kelly(cfg, e).Some? {
      kelly := Mul(Kelly(cfg, e).value, Scale(cfg, bankroll, e));
      largest := Capped(cfg, bankroll, e.category, ps, kelly);
      KellyScaled(cfg, bankroll, e);
      forall x ensures x <= largest <==> Allowed(cfg, bankroll, e.category, ps, kelly, x) {
        CappedIsLargest(cfg, bankroll, e.category, ps, kelly, x);
      }
      FinalCents(largest, multiplier);
    }
  }

  lemma FinalCents(x: real, multiplier: real)
    ensures var s, y := Final(x, multiplier), Mul(x, multiplier);
            if y < 5.0 then s == 0.0 else InCents(s) && s - 0.005 <= y <= s + 0.005
  {
    RoundNear(Mul(x, multiplier) * 100.0);
  }

  // ----- the shape of the size ------------------------------------------------------------------

  lemma CapsAreMonotone(cfg: Config, bankroll: real, category: string, ps: seq<Position>, x: real, y: real)
    requires x <= y
    ensures Capped(cfg, bankroll, category, ps, x) <= Capped(cfg, bankroll, category, ps, y)
    ensures Capped(cfg, bankroll, category, ps, x) <= x
  {}

  lemma FinalMonotone(x: real, y: real, multiplier: real)
    requires multiplier >= 0.0 && (x <= y || x <= 0.0)
    ensures Final(x, multiplier) <= Final(y, multiplier)
    ensures Final(x, multiplier) == 0.0 || Final(x, multiplier) >= MIN_POSITION
    ensures x <= 0.0 ==> Final(x, multiplier) == 0.0
  {
    FinalFloor(x, multiplier);
    FinalFloor(y, multiplier);
    MulSigns(x, multiplier);
    if x <= y {
      MulMonotone(x, y, multiplier);
      if Mul(x, multiplier) >= MIN_POSITION {
        RoundToMonotone(Mul(x, multiplier), Mul(y, multiplier), 100.0);
      }
    }
    hide Mul, RoundTo;
  }

  lemma FinalFloor(x: real, multiplier: real)
    ensures Final(x, multiplier) == 0.0 || Final(x, multiplier) >= MIN_POSITION
  {
    var y := Mul(x, multiplier);
    if y >= MIN_POSITION {
      RoundToMonotone(MIN_POSITION, y, 100.0);
      RoundOfInt(500);
      assert RoundTo(MIN_POSITION, 100.0) == 5.0;
    }
  }

  /** The size is zero or at least the minimum. */
  lemma ZeroOrMinimum(cfg: Config, bankroll: real, e: Edge, ps: seq<Position>, multiplier: real)
    ensures var s := Size(cfg, bankroll, e, ps, multiplier); s == 0.0 || s >= MIN_POSITION
  {
    hide Capped, Scale, Mul, Kelly, Room, Final;
    var k := Kelly(cfg, e);
    if k.Some? {
      FinalFloor(Capped(cfg, bankroll, e.category, ps, Mul(k.value, Scale(cfg, bankroll, e))), multiplier);
    }
  }

  function Mirrored(e: Edge): Edge
    requires e.direction == "YES"
  {
    e.(prob := 1.0 - e.prob, price := 1.0 - e.price, direction := "NO")
  }

  lemma MirrorKelly(cfg: Config, e: Edge)
    requires e.direction == "YES"
    ensures Kelly(cfg, Mirrored(e)) == Kelly(cfg, e)
  {
    assert SafePrice(Mirrored(e)) == 1.0 - SafePrice(e);
    assert Odds(Mirrored(e)) == Odds(e);
    assert WinProbability(Mirrored(e)) == WinProbability(e);
    hide Odds, WinProbability, KellyAt;
  }

  /** Buying YES at (prob, price) and buying NO at (1 - prob, 1 - price) are the same bet. */
  lemma SizeIsMirrorSymmetric(cfg: Config, bankroll: real, e: Edge, ps: seq<Position>, multiplier: real)
    requires e.direction == "YES"
    ensures Size(cfg, bankroll, Mirrored(e), ps, multiplier) == Size(cfg, bankroll, e, ps, multiplier)
  {
    MirrorKelly(cfg, e);
    hide Kelly, Capped, Mul, Final, Room, RegimeMultiplier;
    var f := Mirrored(e);
    assert Scale(cfg, bankroll, f) == Scale(cfg, bankroll, e) by {
      SameScale(cfg, bankroll, e, f);
    }
    hide Scale;
  }

  lemma SameScale(cfg: Config, bankroll: real, e: Edge, f: Edge)
    requires f.confidence == e.confidence && f.spread == e.spread && f.regime == e.regime
    ensures Scale(cfg, bankroll, f) == Scale(cfg, bankroll, e)
  {}

  /** A larger Kelly fraction, all else equal, never makes a smaller position. */
  lemma LargerKelly(cfg: Config, bankroll: real, e: Edge, f: Edge, ps: seq<Position>, multiplier: real)
    requires multiplier >= 0.0
    requires f.confidence == e.confidence && f.spread == e.spread && f.regime == e.regime && f.category == e.category
    requires Kelly(cfg, e).Some? ==> Kelly(cfg, f).Some? && 0.0 < Kelly(cfg, e).value <= Kelly(cfg, f).value
    ensures Size(cfg, bankroll, e, ps, multiplier) <= Size(cfg, bankroll, f, ps, multiplier)
  {
    ZeroOrMinimum(cfg, bankroll, f, ps, multiplier);
    hide Kelly, Capped, Mul, Final, Room, Scale;
    if Kelly(cfg, e).Some? {
      var k, l, s := Kelly(cfg, e).value, Kelly(cfg, f).value, Scale(cfg, bankroll, e);
      SameScale(cfg, bankroll, e, f);
      hide Scale;
      var x, y := Mul(k, s), Mul(l, s);
      CapsAreMonotone(cfg, bankroll, e.category, ps, Min(x, y), Max(x, y));
      CapsAreMonotone(cfg, bankroll, e.category, ps, x, x);
      if s >= 0.0 {
        MulMonotone(k, l, s);
      } else {
        MulSigns(-s, k);
        MulNegative(k, s);
        MulSymmetric(k, -s);
      }
      FinalMonotone(Capped(cfg, bankroll, e.category, ps, x), Capped(cfg, bankroll, e.category, ps, y), multiplier);
    }
  }

  lemma KellyMonotone(b: real, p: real, q: real)
    requires b > 0.0 && p <= q
    ensures KellyOf(b, p) <= KellyOf(b, q)
  {
    MulMonotone(p, q, b + 1.0);
    assert b * p - (1.0 - p) == Mul(p, b + 1.0) - 1.0;
    assert b * q - (1.0 - q) == Mul(q, b + 1.0) - 1.0;
    DivideOrder(b * p - (1.0 - p), b * q - (1.0 - q), b + KELLY_EPS);
  }

  /** The size of a YES bet is non-decreasing in the estimated probability. */
  lemma SizeFollowsProbability(cfg: Config, bankroll: real, e: Edge, higher: real, ps: seq<Position>, multiplier: real)
    requires e.direction == "YES" && e.prob <= higher && multiplier >= 0.0
    ensures Size(cfg, bankroll, e, ps, multiplier) <= Size(cfg, bankroll, e.(prob := higher), ps, multiplier)
  {
    var f := e.(prob := higher);
    assert Odds(f) == Odds(e) && WinProbability(e) == e.prob && WinProbability(f) == higher;
    OddsPositive(e);
    KellyAtFollows(cfg, Odds(e), e.prob, higher, e.uncertainty);
    hide Odds, WinProbability, KellyAt, Size;
    LargerKelly(cfg, bankroll, e, f, ps, multiplier);
  }

  lemma KellyAtFollows(cfg: Config, b: real, p: real, q: real, uncertainty: real)
    requires b > 0.0 && p <= q
    ensures var k, l := KellyAt(cfg, b, p, uncertainty), KellyAt(cfg, b, q, uncertainty);
            k.Some? ==> l.Some? && 0.0 < k.value <= l.value
  {
    KellyMonotone(b, p, q);
    KellyMonotone(b, LowerBound(cfg, p, uncertainty), LowerBound(cfg, q, uncertainty));
    hide KellyOf;
  }

  /** A positive Kelly fraction needs a win probability above the clamped price of the side, hence above 1%. */
  lemma PositiveKellyBeatsFloor(e: Edge)
    requires Odds(e) > 0.0 && KellyOf(Odds(e), WinProbability(e)) > 0.0
    ensures WinProbability(e) > 0.01
  {
    var side := if e.direction == "YES" then SafePrice(e) else 1.0 - SafePrice(e);
    var b, p := Odds(e), WinProbability(e);
    assert 0.01 <= side <= 0.99 && b == (1.0 - side) / side;
    KellySign(b, p);
    DivCancel(1.0 - side, side);
    assert Mul(b + 1.0, side) == 1.0 by {
      Distribute(side, b, 1.0);
      MulUnits(side);
      hide Mul;
    }
    hide Odds, WinProbability, SafePrice, KellyOf, Mul;
    MulStrict(side, p, b + 1.0);
    MulSymmetric(side, b + 1.0);
  }

  lemma KellySign(b: real, p: real)
    requires b > 0.0
    ensures KellyOf(b, p) > 0.0 <==> Mul(p, b + 1.0) > 1.0
  {
    assert b * p - (1.0 - p) == Mul(p, b + 1.0) - 1.0;
    var n := b * p - (1.0 - p);
    DivCancel(n, b + KELLY_EPS);
    MulStrict(0.0, n / (b + KELLY_EPS), b + KELLY_EPS);
  }

  /** More uncertainty never makes a larger position. */
  lemma SizeShrinksWithUncertainty(cfg: Config, bankroll: real, e: Edge, more: real, ps: seq<Position>,
                                   multiplier: real)
    requires 0.0 <= e.uncertainty <= more && cfg.zScore >= 0.0 && multiplier >= 0.0
    ensures Size(cfg, bankroll, e.(uncertainty := more), ps, multiplier) <= Size(cfg, bankroll, e, ps, multiplier)
  {
    var f := e.(uncertainty := more);
    assert Odds(f) == Odds(e) && WinProbability(f) == WinProbability(e);
    OddsPositive(e);
    if KellyOf(Odds(e), WinProbability(e)) > 0.0 {
      PositiveKellyBeatsFloor(e);
    }
    KellyAtShrinks(cfg, Odds(e), WinProbability(e), e.uncertainty, more);
    hide Odds, WinProbability, KellyAt, Size;
    LargerKelly(cfg, bankroll, f, e, ps, multiplier);
  }

  lemma KellyAtShrinks(cfg: Config, b: real, p: real, u: real, v: real)
    requires b > 0.0 && 0.0 <= u <= v && cfg.zScore >= 0.0 && (KellyOf(b, p) > 0.0 ==> p > 0.01)
    ensures var k, l := KellyAt(cfg, b, p, v), KellyAt(cfg, b, p, u);
            k.Some? ==> l.Some? && 0.0 < k.value <= l.value
  {
    MulMonotone(u, v, cfg.zScore);
    MulSymmetric(u, cfg.zScore);
    MulSymmetric(v, cfg.zScore);
    MulSigns(v, cfg.zScore);
    hide Mul;
    if p > 0.01 {
      KellyMonotone(b, LowerBound(cfg, p, v), p);
    }
    KellyMonotone(b, LowerBound(cfg, p, v), LowerBound(cfg, p, u));
    hide KellyOf;
  }

  /** A deeper drawdown never makes a larger position. */
  lemma SizeFollowsMultiplier(cfg: Config, bankroll: real, e: Edge, ps: seq<Position>, multiplier: real, larger: real)
    requires 0.0 <= multiplier <= larger
    ensures Size(cfg, bankroll, e, ps, multiplier) <= Size(cfg, bankroll, e, ps, larger)
  {
    hide Kelly, Capped, Scale, Room, Mul, Final;
    var k := Kelly(cfg, e);
    if k.Some? {
      FinalFollows(Capped(cfg, bankroll, e.category, ps, Mul(k.value, Scale(cfg, bankroll, e))), multiplier, larger);
    }
  }

  lemma FinalFollows(x: real, multiplier: real, larger: real)
    requires 0.0 <= multiplier <= larger
    ensures Final(x, multiplier) <= Final(x, larger)
  {
    FinalFloor(x, larger);
    MulSigns(x, multiplier);
    if x > 0.0 {
      MulMonotone(multiplier, larger, x);
      MulSymmetric(multiplier, x);
      MulSymmetric(larger, x);
      RoundToMonotone(Mul(x, multiplier), Mul(x, larger), 100.0);
    }
    hide Mul, RoundTo;
  }
}
