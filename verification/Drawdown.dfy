/** The streaming drawdown controller, the backtest's equity loop, and three views of the maximum drawdown
    that agree. */
module Drawdown {
  import opened Rounding
  import opened Products
  import opened Sums
  import opened Options

  datatype Thresholds = Thresholds(reduceAt: real, stopAt: real, emergencyAt: real)

  /** `get_drawdown` at a peak. */
  function DrawdownAt(peak: real, bankroll: real): real {
    if peak <= 0.0 then 0.0 else (peak - bankroll) / peak
  }

  function Multiplier(t: Thresholds, peak: real, dailyLimitHit: bool, bankroll: real): real {
    if peak <= 0.0 then 1.0
    else if dailyLimitHit then 0.0
    else
      var d := (peak - bankroll) / peak;
      if d >= t.emergencyAt then 0.0
      else if d >= t.stopAt then 0.0
      else if d >= t.reduceAt then 1.0 - (d - t.reduceAt) / (t.stopAt - t.reduceAt)
      else 1.0
  }

  /** `daily_limit_hit`: never, while no limit is set. */
  predicate LimitHit(limit: Option<real>, dailyPnl: real) {
    limit.Some? && dailyPnl <= -Abs(limit.value)
  }

  class DrawdownController {
    const thresholds: Thresholds
    var peak: real
    var dailyPnl: real
    var dailyDate: int
    const dailyLossLimit: Option<real>

    constructor (thresholds: Thresholds, initialBankroll: real, dailyLossLimit: Option<real>, today: int)
      ensures peak == initialBankroll && dailyPnl == 0.0 && dailyDate == today
      ensures this.thresholds == thresholds && this.dailyLossLimit == dailyLossLimit
    {
      this.thresholds, this.dailyLossLimit := thresholds, dailyLossLimit;
      peak, dailyPnl, dailyDate := initialBankroll, 0.0, today;
    }

    method Update(bankroll: real)
      modifies this`peak
      ensures peak == Max(old(peak), bankroll)
    {
      peak := Max(peak, bankroll);
    }

    method ResetPeak(bankroll: real)
      modifies this`peak
      ensures peak == bankroll
    {
      peak := bankroll;
    }

    /** `record_trade_pnl`: the running sum starts over when the date changes. */
    method RecordTradePnl(pnl: real, today: int)
      modifies this`dailyPnl, this`dailyDate
      ensures dailyDate == today && dailyPnl == (if today == old(dailyDate) then old(dailyPnl) else 0.0) + pnl
    {
      if today != dailyDate {
        dailyPnl := 0.0;
        dailyDate := today;
      }
      dailyPnl := dailyPnl + pnl;
    }

    method GetMultiplier(bankroll: real) returns (m: real)
      ensures m == Multiplier(thresholds, peak, LimitHit(dailyLossLimit, dailyPnl), bankroll)
    {
      if peak <= 0.0 {
        return 1.0;
      }
      if dailyLossLimit.Some? && dailyPnl <= -Abs(dailyLossLimit.value) {
        return 0.0;
      }
      var d := (peak - bankroll) / peak;
      if d >= thresholds.emergencyAt || d >= thresholds.stopAt {
        return 0.0;
      }
      if d >= thresholds.reduceAt {
        return 1.0 - (d - thresholds.reduceAt) / (thresholds.stopAt - thresholds.reduceAt);
      }
      return 1.0;
    }

    method GetDrawdown(bankroll: real) returns (d: real)
      ensures d == DrawdownAt(peak, bankroll)
    {
      d := if peak <= 0.0 then 0.0 else (peak - bankroll) / peak;
    }
  }

  /** Whatever the thresholds, the multiplier is a fraction, zero only when trading has to stop, and a
      poorer bankroll never gets a larger one. */
  lemma MultiplierIsFraction(t: Thresholds, peak: real, hit: bool, bankroll: real, poorer: real)
    requires poorer <= bankroll
    ensures 0.0 <= Multiplier(t, peak, hit, bankroll) <= 1.0
    ensures Multiplier(t, peak, hit, poorer) <= Multiplier(t, peak, hit, bankroll)
    ensures peak > 0.0 ==>
              (Multiplier(t, peak, hit, bankroll) == 0.0
               <==> hit || DrawdownAt(peak, bankroll) >= t.emergencyAt || DrawdownAt(peak, bankroll) >= t.stopAt)
  {
    if peak > 0.0 && !hit {
      var d, e := (peak - bankroll) / peak, (peak - poorer) / peak;
      DivideOrder(peak - bankroll, peak - poorer, peak);
      Slope(t, d);
      Slope(t, e);
      if t.reduceAt <= d && e < t.stopAt {
        DivideOrder(d - t.reduceAt, e - t.reduceAt, t.stopAt - t.reduceAt);
      }
    }
  }

  /** The multiplier falls in proportion: full before the first threshold, and from there on what is left on the way to
      the second, of the whole way. */
  lemma MultiplierIsLinear(t: Thresholds, peak: real, bankroll: real)
    requires peak > 0.0
    ensures var d, m := DrawdownAt(peak, bankroll), Multiplier(t, peak, false, bankroll);
            && Mul(d, peak) == peak - bankroll
            && (d < t.emergencyAt && t.reduceAt <= d < t.stopAt ==> Mul(m, t.stopAt - t.reduceAt) == t.stopAt - d)
            && (d < t.emergencyAt && d < t.stopAt && d < t.reduceAt ==> m == 1.0)
  {
    var d := (peak - bankroll) / peak;
    DivCancel(peak - bankroll, peak);
    if t.reduceAt <= d < t.stopAt {
      var w := t.stopAt - t.reduceAt;
      DivCancel(d - t.reduceAt, w);
      Distribute(w, 1.0, -((d - t.reduceAt) / w));
      MulNegative((d - t.reduceAt) / w, w);
      MulUnits(w);
      hide Mul;
    }
  }

  /** The daily limit is hit when the day has lost at least its magnitude, whichever sign it is given with. */
  lemma LimitHitExactly(limit: real, dailyPnl: real)
    ensures LimitHit(Some(limit), dailyPnl) <==> dailyPnl <= limit && dailyPnl <= -limit
    ensures !LimitHit(None, dailyPnl)
  {}

  lemma Slope(t: Thresholds, d: real)
    ensures t.reduceAt <= d < t.stopAt ==> 0.0 <= (d - t.reduceAt) / (t.stopAt - t.reduceAt) < 1.0
  {
    if t.reduceAt <= d < t.stopAt {
      var w := t.stopAt - t.reduceAt;
      var q := (d - t.reduceAt) / w;
      DivCancel(d - t.reduceAt, w);
      MulStrict(q, 1.0, w);
      MulStrict(q, 0.0, w);
      hide Mul;
      MulUnits(w);
    }
  }

  // ----- the backtest's equity ------------------------------------------------------------------

  datatype Position = Position(yes: bool, entry: real, size: real, cost: real)

  /** P&L of a position when its market resolves. */
  function Resolved(p: Position, resolution: real): real {
    (if p.yes then (if p.entry != 0.0 then (resolution - p.entry) * p.size / p.entry else 0.0)
     else (if 1.0 - p.entry != 0.0 then (p.entry - resolution) * p.size / (1.0 - p.entry) else 0.0))
    - p.cost
  }

  /** Bankrolls after each resolved position, from `start`. */
  function Equity(start: real, pnls: seq<real>): seq<real> {
    if pnls == [] then [start]
    else
      var e := Equity(start, pnls[..|pnls| - 1]);
      e + [e[|e| - 1] + pnls[|pnls| - 1]]
  }

  /** The bankroll loop conserves money: the curve ends at the start plus all P&L. */
  lemma {:induction false} EquityConserves(start: real, pnls: seq<real>)
    ensures var e := Equity(start, pnls); |e| == |pnls| + 1 && e[0] == start && e[|pnls|] == start + Sum(pnls)
  {
    if pnls == [] {
    } else {
      EquityConserves(start, pnls[..|pnls| - 1]);
    }
  }

  /** The loop over the positions of one resolved market. */
  method ResolvePositions(positions: seq<Position>, resolution: real, start: real, controller: DrawdownController)
    returns (bankroll: real, pnls: seq<real>, curve: seq<real>)
    modifies controller`peak
    ensures pnls == seq(|positions|, i requires 0 <= i < |positions| => Resolved(positions[i], resolution))
    ensures curve == Equity(start, pnls) && bankroll == start + Sum(pnls)
    ensures controller.peak == PeakFrom(old(controller.peak), curve[1..])
  {
    bankroll, pnls, curve := start, [], [start];
    assert curve[1..] == [];
    for i := 0 to |positions|
      invariant pnls == seq(i, j requires 0 <= j < i => Resolved(positions[j], resolution))
      invariant curve == Equity(start, pnls) && bankroll == start + Sum(pnls) && curve[|curve| - 1] == bankroll
      invariant |curve| >= 1 && controller.peak == PeakFrom(old(controller.peak), curve[1..])
    {
      var pnl := Resolved(positions[i], resolution);
      bankroll := bankroll + pnl;
      controller.Update(bankroll);
      assert (pnls + [pnl])[..|pnls|] == pnls;
      assert (curve + [bankroll])[1..][..|curve| - 1] == curve[1..];
      pnls := pnls + [pnl];
      curve := curve + [bankroll];
    }
  }

  lemma GrossPerContract(p: Position, resolution: real)
    requires 0.0 < p.entry < 1.0
    ensures var price := if p.yes then p.entry else 1.0 - p.entry;
            var payout := if p.yes then resolution else 1.0 - resolution;
            Resolved(p, resolution) + p.cost == Mul(payout - price, p.size) / price
  {}

  /** A position is as many contracts as its size buys at the price of its side; each pays what that side resolves
      to. */
  lemma ResolvedPaysOut(p: Position, resolution: real)
    requires 0.0 < p.entry < 1.0
    ensures var price := if p.yes then p.entry else 1.0 - p.entry;
            var payout := if p.yes then resolution else 1.0 - resolution;
            Mul(Resolved(p, resolution) + p.size + p.cost, price) == Mul(p.size, payout)
  {
    var price := if p.yes then p.entry else 1.0 - p.entry;
    var payout := if p.yes then resolution else 1.0 - resolution;
    var gross := Resolved(p, resolution) + p.cost;
    GrossPerContract(p, resolution);
    hide Mul, Resolved;
    DivCancel(Mul(payout - price, p.size), price);
    Distribute(price, gross, p.size);
    Distribute(p.size, payout, -price);
    MulNegative(price, p.size);
    MulSymmetric(price, p.size);
    MulSymmetric(payout, p.size);
    MulSymmetric(payout - price, p.size);
  }

  /** Hence it never loses more than its size and its costs, on either side of the market. */
  lemma LossIsBounded(p: Position, resolution: real)
    requires 0.0 < p.entry < 1.0 && 0.0 <= resolution <= 1.0 && p.size >= 0.0
    ensures Resolved(p, resolution) >= -p.size - p.cost
  {
    hide Mul, Resolved;
    var price := if p.yes then p.entry else 1.0 - p.entry;
    ResolvedPaysOut(p, resolution);
    MulSigns(p.size, if p.yes then resolution else 1.0 - resolution);
    MulStrict(Resolved(p, resolution) + p.size + p.cost, 0.0, price);
    MulUnits(price);
  }

  // ----- three maximum drawdowns ----------------------------------------------------------------

  function PeakFrom(peak: real, es: seq<real>): real {
    if es == [] then peak else Max(PeakFrom(peak, es[..|es| - 1]), es[|es| - 1])
  }

  /** After any updates the peak is the highest value the controller has seen. */
  lemma {:induction false} PeakIsHighest(peak: real, es: seq<real>)
    ensures var p := PeakFrom(peak, es);
            && p >= peak && (forall i :: 0 <= i < |es| ==> p >= es[i])
            && (p == peak || p in es)
  {
    if es == [] {
    } else {
      var n := |es| - 1;
      PeakIsHighest(peak, es[..n]);
      assert es == es[..n] + [es[n]];
    }
  }

  ghost predicate Positive(es: seq<real>) {
    forall i :: 0 <= i < |es| ==> es[i] > 0.0
  }

  /** The part of `from` that is lost on the way to `to`. */
  function Loss(from: real, to: real): real
    requires from > 0.0
  {
    (from - to) / from
  }

  /** `cummax` at the end of a non-empty curve. */
  function CumMax(es: seq<real>): real
    requires es != []
  {
    if |es| == 1 then es[0] else Max(CumMax(es[..|es| - 1]), es[|es| - 1])
  }

  /** The largest of (cummax - equity) / cummax along the curve. */
  ghost function WorstFromPeak(es: seq<real>): real
    requires es != [] && Positive(es)
  {
    CumMaxDominates(es);
    var d := Loss(CumMax(es), es[|es| - 1]);
    if |es| == 1 then d else Max(WorstFromPeak(es[..|es| - 1]), d)
  }

  /** `_compute_max_drawdown`. */
  ghost function BacktestDrawdown(es: seq<real>): real
    requires es != [] && Positive(es)
  {
    if |es| < 2 then 0.0 else WorstFromPeak(es)
  }

  /** The largest drawdown a controller that starts without a peak reports right after each update. */
  function StreamedDrawdown(es: seq<real>): real {
    if es == [] then 0.0
    else Max(StreamedDrawdown(es[..|es| - 1]), DrawdownAt(PeakFrom(0.0, es), es[|es| - 1]))
  }

  /** `v` is the largest relative loss from any point to the same or a later one. */
  ghost predicate LargestLoss(es: seq<real>, v: real)
    requires Positive(es)
  {
    && (exists i, j :: 0 <= i <= j < |es| && Loss(es[i], es[j]) == v)
    && (forall i, j :: 0 <= i <= j < |es| ==> Loss(es[i], es[j]) <= v)
  }

  lemma {:induction false} CumMaxDominates(es: seq<real>)
    requires es != []
    ensures forall i :: 0 <= i < |es| ==> es[i] <= CumMax(es)
    ensures exists i :: 0 <= i < |es| && es[i] == CumMax(es)
  {
    if |es| > 1 {
      var init := es[..|es| - 1];
      CumMaxDominates(init);
      var i :| 0 <= i < |init| && init[i] == CumMax(init);
      assert es[i] == init[i];
      assert CumMax(es) == es[i] || CumMax(es) == es[|es| - 1];
    } else {
      assert es[0] == CumMax(es);
    }
  }

  /** Losing to `e` is relatively worse from a higher start. */
  lemma HigherStartLosesMore(a: real, b: real, e: real)
    requires 0.0 < a <= b && e > 0.0
    ensures Loss(a, e) <= Loss(b, e)
  {
    DivCancel(a - e, a);
    DivCancel(b - e, b);
    var x, y := Loss(a, e), Loss(b, e);
    hide Loss;
    Complement(x, a, e);
    Complement(y, b, e);
    var p, q := 1.0 - x, 1.0 - y;
    MulStrict(0.0, q, b);
    MulUnits(b);
    MulMonotone(a, b, Max(q, 0.0));
    MulSymmetric(b, q);
    MulSymmetric(a, q);
    MulStrict(p, q, a);
    hide Mul;
  }

  lemma Complement(x: real, a: real, e: real)
    requires Mul(x, a) == a - e
    ensures Mul(1.0 - x, a) == e
  {}

  lemma PositivePrefix(es: seq<real>, n: nat)
    requires Positive(es) && n <= |es|
    ensures Positive(es[..n])
  {}

  lemma {:induction false} WorstIsLargestLoss(es: seq<real>)
    requires es != [] && Positive(es)
    ensures LargestLoss(es, WorstFromPeak(es))
  {
    hide Loss, CumMax;
    var n := |es| - 1;
    CumMaxDominates(es);
    var d := Loss(CumMax(es), es[n]);
    forall i | 0 <= i <= n ensures Loss(es[i], es[n]) <= d {
      HigherStartLosesMore(es[i], CumMax(es), es[n]);
    }
    var m :| 0 <= m < |es| && es[m] == CumMax(es);
    assert Loss(es[m], es[n]) == d;
    if n == 0 {
    } else {
      var init := es[..n];
      PositivePrefix(es, n);
      WorstIsLargestLoss(init);
      ExtendLargest(es, WorstFromPeak(init), d, m);
    }
  }

  lemma ExtendLargest(es: seq<real>, w: real, d: real, m: nat)
    requires |es| > 1 && Positive(es) && Positive(es[..|es| - 1]) && LargestLoss(es[..|es| - 1], w)
    requires m < |es| && Loss(es[m], es[|es| - 1]) == d
    requires forall i :: 0 <= i < |es| ==> Loss(es[i], es[|es| - 1]) <= d
    ensures LargestLoss(es, Max(w, d))
  {
    hide Loss;
    var init := es[..|es| - 1];
    var i, j :| 0 <= i <= j < |init| && Loss(init[i], init[j]) == w;
    assert Loss(es[i], es[j]) == w;
    forall p, q | 0 <= p <= q < |es| ensures Loss(es[p], es[q]) <= Max(w, d) {
      if q < |init| {
        assert Loss(init[p], init[q]) <= w;
      }
    }
  }

  lemma {:induction false} StreamIsWorst(es: seq<real>)
    requires es != [] && Positive(es)
    ensures StreamedDrawdown(es) == Max(WorstFromPeak(es), 0.0) && PeakFrom(0.0, es) == CumMax(es)
  {
    CumMaxDominates(es);
    if |es| > 1 {
      PositivePrefix(es, |es| - 1);
      StreamIsWorst(es[..|es| - 1]);
    } else {
      assert es[..0] == [] && StreamedDrawdown(es[..0]) == 0.0 && PeakFrom(0.0, es[..0]) == 0.0;
      assert PeakFrom(0.0, es) == es[0];
      SelfLoss(es[0]);
    }
  }

  /** For every positive equity curve the backtest's maximum drawdown, the largest loss over all pairs of
      points and the worst the streaming controller reports are one and the same number. */
  lemma ThreeDrawdownsAgree(es: seq<real>, v: real)
    requires es != [] && Positive(es)
    ensures LargestLoss(es, v) <==> v == BacktestDrawdown(es)
    ensures BacktestDrawdown(es) == StreamedDrawdown(es)
  {
    WorstIsLargestLoss(es);
    StreamIsWorst(es);
    SelfLoss(es[0]);
    hide Loss, StreamedDrawdown, CumMax;
    LargestIsUnique(es, v, WorstFromPeak(es));
    assert WorstFromPeak(es) >= Loss(es[0], es[0]);
    if |es| == 1 {
      LargestIsUnique(es, 0.0, WorstFromPeak(es));
    }
  }

  lemma SelfLoss(e: real)
    requires e > 0.0
    ensures Loss(e, e) == 0.0
  {}

  lemma LargestIsUnique(es: seq<real>, v: real, w: real)
    requires Positive(es) && LargestLoss(es, w)
    ensures LargestLoss(es, v) <==> v == w
  {
    hide Loss;
  }
}
