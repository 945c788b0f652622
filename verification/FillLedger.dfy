/** The ledger of one order over any sequence of fills. */
module FillLedger {
  import opened Rounding
  import opened Products
  import opened Options
  import opened Orders
  import opened OrderInvariants

  datatype FillRequest = FillRequest(size: real, price: real, at: Time)

  function ApplyFills(r: Row, fills: seq<FillRequest>): Row {
    if fills == [] then r
    else
      var f := fills[|fills| - 1];
      Fill(ApplyFills(r, fills[..|fills| - 1]), f.size, f.price, f.at)
  }

  /** The part of each request that was taken, times its price. */
  ghost function Spent(r: Row, fills: seq<FillRequest>): real {
    if fills == [] then 0.0
    else
      var f := fills[|fills| - 1];
      Spent(r, fills[..|fills| - 1]) + Mul(f.price, TakenSize(ApplyFills(r, fills[..|fills| - 1]), f.size))
  }

  /** An order nothing of which has been filled. */
  ghost predicate Fresh(r: Row) {
    r.size > 0.0 && r.filled == 0.0 && r.remaining == r.size && r.average == None && r.status == Placed
  }

  lemma {:induction false} FillsKeepLedger(r: Row, fills: seq<FillRequest>)
    requires LedgerOk(r)
    ensures LedgerOk(ApplyFills(r, fills)) && ApplyFills(r, fills).size == r.size
  {
    hide LedgerOk, Fill;
    if fills == [] {
    } else {
      var f := fills[|fills| - 1];
      FillsKeepLedger(r, fills[..|fills| - 1]);
      FillKeepsLedger(ApplyFills(r, fills[..|fills| - 1]), f.size, f.price, f.at);
    }
  }

  /** Filled and remaining add up to the size, within the rounding of the last fill and the snap of the
      last unit; for a size on the grid they add up exactly, or one unit short once complete. */
  lemma LedgerAddsUp(r: Row, fills: seq<FillRequest>)
    requires Fresh(r)
    ensures var o := ApplyFills(r, fills);
            && 0.0 <= o.filled && 0.0 <= o.remaining
            && -UNIT / 2.0 <= o.size - (o.filled + o.remaining) <= 1.5 * UNIT
            && (OnGrid(o.size) ==>
                  o.filled + o.remaining == o.size || (o.remaining == 0.0 && o.filled + UNIT == o.size))
  {
    UntouchedLedger(r);
    FillsKeepLedger(r, fills);
    var o := ApplyFills(r, fills);
    var gap := Max(o.size - o.filled, 0.0);
    Round8Facts(gap);
    if OnGrid(o.size) {
      GridDifference(o.size, o.filled);
      GridZeroOrUnit(o.size - o.filled);
    }
  }

  lemma GridDifference(x: real, y: real)
    requires OnGrid(x) && OnGrid(y)
    ensures OnGrid(x - y)
  {
    var m, n := (x * 100000000.0).Floor, (y * 100000000.0).Floor;
    assert (x - y) * 100000000.0 == (m - n) as real;
  }

  /** Grid points within one unit of zero. */
  lemma GridZeroOrUnit(x: real)
    requires OnGrid(x)
    ensures -UNIT / 2.0 <= x <= UNIT ==> x == 0.0 || x == UNIT
    ensures x < 0.0 ==> x <= -UNIT
    ensures x > 0.0 ==> x >= UNIT
  {
    var n := (x * 100000000.0).Floor;
    assert x * 100000000.0 == n as real;
  }

  // ----- the average price ----------------------------------------------------------------------

  /** What the filled part is worth at the average price. */
  ghost function Worth(r: Row): real {
    Mul(OrElse(r.average, 0.0), r.filled)
  }

  lemma FillAverage(r: Row, size: real, price: real, now: Time, low: real, high: real)
    requires LedgerOk(r) && low <= price <= high && TakenSize(r, size) > 0.0
    requires r.average.Some? ==> low <= r.average.value <= high
    ensures var r', total := Fill(r, size, price, now), r.filled + TakenSize(r, size);
            && r'.filled == Round8(total) && r'.average.Some? && low <= r'.average.value <= high
            && Mul(r'.average.value, total) == Worth(r) + Mul(price, TakenSize(r, size))
  {
    hide LedgerOk, Fill, Round8, Mul, NewAverage, TakenSize;
    LedgerAverage(r);
    FillResult(r, size, price, now);
    var taken := TakenSize(r, size);
    if r.filled > 0.0 {
      MeanBetween(r.average.value, price, r.filled, taken, low, high);
      DivCancel(Mul(r.average.value, r.filled) + Mul(price, taken), r.filled + taken);
    } else {
      NoWorth(r);
    }
  }

  lemma AverageWorth(r: Row, price: real, taken: real)
    requires r.filled > 0.0 && r.average.Some? && taken > 0.0
    ensures Mul(NewAverage(r, price, taken), r.filled + taken) == Mul(r.average.value, r.filled) + Mul(price, taken)
  {
    DivCancel(r.average.value * r.filled + price * taken, r.filled + taken);
  }

  lemma FirstAverage(r: Row, price: real, taken: real)
    requires (r.filled <= 0.0 || r.average.None?) && taken > 0.0
    ensures NewAverage(r, price, taken) == price
  {}

  /** Two fills at one price make the average of one fill. */
  lemma AverageAdds(r: Row, o: Row, price: real, x: real, y: real)
    requires r.filled >= 0.0 && x > 0.0 && y > 0.0
    requires o.filled == r.filled + x && o.average == Some(NewAverage(r, price, x))
    ensures NewAverage(o, price, y) == NewAverage(r, price, x + y)
  {
    hide NewAverage, Mul;
    var total := r.filled + x + y;
    AverageWorth(o, price, y);
    if r.filled > 0.0 && r.average.Some? {
      AverageWorth(r, price, x);
      AverageWorth(r, price, x + y);
      Distribute(price, x, y);
    } else {
      FirstAverage(r, price, x);
      FirstAverage(r, price, x + y);
      Distribute(price, o.filled, y);
    }
    MulStrict(NewAverage(o, price, y), NewAverage(r, price, x + y), total);
    MulStrict(NewAverage(r, price, x + y), NewAverage(o, price, y), total);
  }

  lemma LedgerAverage(r: Row)
    requires LedgerOk(r)
    ensures r.filled >= 0.0 && (r.filled > 0.0 ==> r.average.Some?)
  {}

  lemma FillResult(r: Row, size: real, price: real, now: Time)
    requires TakenSize(r, size) > 0.0
    ensures var r', taken := Fill(r, size, price, now), TakenSize(r, size);
            && r'.filled == Round8(r.filled + taken) && r'.average == Some(NewAverage(r, price, taken))
            && (r.filled > 0.0 && r.average.Some? ==>
                  NewAverage(r, price, taken)
                  == (Mul(r.average.value, r.filled) + Mul(price, taken)) / (r.filled + taken))
            && (r.filled <= 0.0 ==> NewAverage(r, price, taken) == price)
  {
    hide Round8;
  }

  lemma NoWorth(r: Row)
    requires r.filled == 0.0
    ensures Worth(r) == 0.0
  {}

  /** A fill adds what it costs to the worth, up to half a unit of rounding. */
  lemma FillSpends(r: Row, size: real, price: real, now: Time, bound: real)
    requires LedgerOk(r) && -bound <= price <= bound
    requires r.average.Some? ==> -bound <= r.average.value <= bound
    ensures var r' := Fill(r, size, price, now);
            var drift := Worth(r') - Worth(r) - Mul(price, TakenSize(r, size));
            && (r'.average.Some? ==> -bound <= r'.average.value <= bound)
            && -Mul(bound, UNIT / 2.0) <= drift <= Mul(bound, UNIT / 2.0)
            && (OnGrid(r.filled + TakenSize(r, size)) ==> drift == 0.0)
  {
    hide LedgerOk, Mul, Round8, OnGrid;
    var taken, r' := TakenSize(r, size), Fill(r, size, price, now);
    MulSigns(bound, UNIT / 2.0);
    if taken <= 0.0 {
      MulSymmetric(price, taken);
      MulUnits(price);
    } else {
      FillAverage(r, size, price, now, -bound, bound);
      var total := r.filled + taken;
      Round8Facts(total);
      hide Fill, TakenSize;
      var a, slip := r'.average.value, r'.filled - total;
      Distribute(a, total, slip);
      SmallProduct(a, slip, bound, UNIT / 2.0);
      MulUnits(a);
    }
  }

  /** The average price is the size-weighted mean of what was taken: average times filled equals the
      money spent, up to half a unit times the price bound for each fill. */
  lemma {:induction false} AverageIsWeightedMean(r: Row, fills: seq<FillRequest>, bound: real)
    requires Fresh(r) && bound >= 0.0
    requires forall i :: 0 <= i < |fills| ==> -bound <= fills[i].price <= bound
    ensures var o, slack := ApplyFills(r, fills), Mul(|fills| as real, Mul(bound, UNIT / 2.0));
            && (o.average.Some? ==> -bound <= o.average.value <= bound)
            && -slack <= Worth(o) - Spent(r, fills) <= slack
  {
    hide LedgerOk, Fill, Worth, Mul, TakenSize;
    var d := Mul(bound, UNIT / 2.0);
    if fills == [] {
      NoWorth(r);
      MulSymmetric(0.0, d);
      MulUnits(d);
    } else {
      var init, f := fills[..|fills| - 1], fills[|fills| - 1];
      AverageIsWeightedMean(r, init, bound);
      UntouchedLedger(r);
      FillsKeepLedger(r, init);
      FillSpends(ApplyFills(r, init), f.size, f.price, f.at, bound);
      Distribute(d, |init| as real, 1.0);
      MulUnits(d);
    }
  }

  /** With sizes on the 1e-8 grid the rounding does nothing, and the mean is exact. */
  lemma {:induction false} AverageIsExactOnGrid(r: Row, fills: seq<FillRequest>)
    requires Fresh(r) && OnGrid(r.size)
    requires forall i :: 0 <= i < |fills| ==> OnGrid(fills[i].size)
    ensures Worth(ApplyFills(r, fills)) == Spent(r, fills)
  {
    hide LedgerOk, Fill, Worth, OnGrid, Mul, TakenSize;
    if fills == [] {
      NoWorth(r);
    } else {
      var init, f := fills[..|fills| - 1], fills[|fills| - 1];
      AverageIsExactOnGrid(r, init);
      UntouchedLedger(r);
      FillsKeepLedger(r, init);
      var o := ApplyFills(r, init);
      TakenOnGrid(o, f.size);
      var bound := Max(Abs(f.price), Abs(OrElse(o.average, 0.0)));
      FillSpends(o, f.size, f.price, f.at, bound);
    }
  }

  lemma TakenOnGrid(r: Row, size: real)
    requires LedgerOk(r) && OnGrid(r.size) && OnGrid(size)
    ensures OnGrid(r.filled + TakenSize(r, size))
  {
    Round8Facts(Max(r.size - r.filled, 0.0));
    assert OnGrid(0.0);
    GridSum(r.filled, TakenSize(r, size));
  }

  lemma Round8OfGrid(x: real)
    requires OnGrid(x)
    ensures Round8(x) == x
  {
    Round8Facts(x);
  }

  /** What remains of an order on the grid that has been filled in part. */
  lemma GridRest(r: Row)
    requires LedgerOk(r) && OnGrid(r.size) && r.filled > 0.0 && r.remaining > 0.0
    ensures r.remaining == r.size - r.filled
  {
    GridDifference(r.size, r.filled);
    Round8OfGrid(r.size - r.filled);
    Round8Facts(0.0);
    ZeroOnGrid();
    hide Round8, OnGrid;
  }

  lemma ZeroOnGrid()
    ensures OnGrid(0.0)
  {}

  // ----- completing -----------------------------------------------------------------------------

  /** Filling all that remains completes an order. */
  lemma RestCompletes(r: Row, request: real, price: real, now: Time)
    requires LedgerOk(r) && r.remaining > 0.0 && request >= r.remaining
    ensures var r' := Fill(r, request, price, now);
            r'.remaining == 0.0 && r'.status == Filled && r'.average == Some(NewAverage(r, price, r.remaining))
  {
    hide Round8, NewAverage, LedgerOk;
    assert TakenSize(r, request) == r.remaining;
    RestLands(r, r.filled + r.remaining);
  }

  lemma RestLands(r: Row, total: real)
    requires LedgerOk(r) && r.remaining > 0.0 && total == r.filled + r.remaining
    ensures Round8(Max(r.size - Round8(total), 0.0)) <= UNIT
  {
    Round8Facts(Max(r.size - r.filled, 0.0));
    if r.filled == 0.0 && r.remaining == r.size {
      Round8Facts(r.size);
    } else {
      GridSum(r.filled, r.remaining);
      Round8Facts(total);
    }
    Round8Facts(Max(r.size - Round8(total), 0.0));
    hide Round8, OnGrid;
  }

  // ----- paper entries --------------------------------------------------------------------------

  /** Reconcile passes over one paper entry, each at the next price of `prices`, all acceptable. */
  function AfterPasses(cfg: Config, r: Row, prices: seq<real>): Row {
    if prices == [] then r
    else
      var o := AfterPasses(cfg, r, prices[..|prices| - 1]);
      Fill(o, PaperFillSize(cfg, o), prices[|prices| - 1], 0.0)
  }

  ghost predicate Acceptables(cfg: Config, r: Row, prices: seq<real>) {
    forall i :: 0 <= i < |prices| ==> prices[i] <= r.price + cfg.tolerance
  }

  lemma {:induction false} PassesKeepLedger(cfg: Config, r: Row, prices: seq<real>)
    requires LedgerOk(r)
    ensures var o := AfterPasses(cfg, r, prices); LedgerOk(o) && o.size == r.size && o.price == r.price
  {
    hide LedgerOk, Fill;
    if prices == [] {
    } else {
      PassesKeepLedger(cfg, r, prices[..|prices| - 1]);
      var o := AfterPasses(cfg, r, prices[..|prices| - 1]);
      FillKeepsLedger(o, PaperFillSize(cfg, o), prices[|prices| - 1], 0.0);
      FillKeepsOrder(o, PaperFillSize(cfg, o), prices[|prices| - 1], 0.0);
    }
  }

  /** No sequence of acceptable passes can push the average above limit plus tolerance. */
  lemma {:induction false} AverageWithinTolerance(cfg: Config, r: Row, prices: seq<real>)
    requires Fresh(r) && Acceptables(cfg, r, prices)
    ensures var o := AfterPasses(cfg, r, prices); o.average.Some? ==> o.average.value <= r.price + cfg.tolerance
  {
    hide LedgerOk, Round8;
    if prices == [] {
    } else {
      var init := prices[..|prices| - 1];
      AverageWithinTolerance(cfg, r, init);
      UntouchedLedger(r);
      PassesKeepLedger(cfg, r, init);
      var o := AfterPasses(cfg, r, init);
      var price, size := prices[|prices| - 1], PaperFillSize(cfg, o);
      if TakenSize(o, size) > 0.0 {
        FillAverage(o, size, price, 0.0, Min(price, OrElse(o.average, price)), r.price + cfg.tolerance);
      }
    }
  }
}
