/** How dear the passes of a paper entry can make it: the highest average it can reach, after any number of passes. */
module DearPasses {
  import opened Rounding
  import opened Products
  import opened Options
  import opened Orders
  import opened OrderInvariants
  import opened FillLedger
  import opened Schedules
  import opened EntryFills

  // ----- passes at the highest price --------------------------------------------------------------

  /** The highest price an entry can be filled at. */
  function Worst(cfg: Config, r: Row, top: real): real {
    Min(top, r.price + cfg.tolerance)
  }

  /** The entry after `n` passes at the highest price. */
  function AtWorst(cfg: Config, r: Row, top: real, n: nat): Row {
    AfterPasses(cfg, r, seq(n, _ => Worst(cfg, r, top)))
  }

  /** Bought above `t`. */
  predicate Above(r: Row, t: real) {
    OrElse(r.average, t) > t
  }

  /** Some number of passes at the highest price brings the average above `t`. */
  ghost predicate Dear(cfg: Config, r: Row, top: real, t: real) {
    exists n: nat :: Above(AtWorst(cfg, r, top, n), t)
  }

  // ----- dearer passes make a dearer entry --------------------------------------------------------

  /** As full, and at no lower a price. */
  ghost predicate Dearer(o: Row, o': Row) {
    && o'.size == o.size && o'.filled == o.filled && o'.remaining == o.remaining
    && (o.average.Some? <==> o'.average.Some?) && (o.average.Some? ==> o.average.value <= o'.average.value)
  }

  lemma FillDearer(cfg: Config, o: Row, o': Row, price: real, price': real)
    requires LedgerOk(o) && Dearer(o, o') && price <= price'
    ensures Dearer(Fill(o, PaperFillSize(cfg, o), price, 0.0), Fill(o', PaperFillSize(cfg, o'), price', 0.0))
  {
    hide Round8, LedgerOk, NewAverage, TakenSize;
    LedgerAverage(o);
    var size := PaperFillSize(cfg, o);
    SameTaken(cfg, o, o');
    hide PaperFillSize;
    if TakenSize(o, size) > 0.0 {
      AverageDearer(o, o', price, price', TakenSize(o, size));
    }
  }

  lemma AverageDearer(o: Row, o': Row, price: real, price': real, x: real)
    requires Dearer(o, o') && price <= price' && x > 0.0 && o.filled >= 0.0
    ensures NewAverage(o, price, x) <= NewAverage(o', price', x)
  {
    hide NewAverage, Mul;
    if o.filled > 0.0 && o.average.Some? {
      AverageWorth(o, price, x);
      AverageWorth(o', price', x);
      MulMonotone(o.average.value, o'.average.value, o.filled);
      MulMonotone(price, price', x);
      MulStrict(NewAverage(o', price', x), NewAverage(o, price, x), o.filled + x);
    } else {
      FirstAverage(o, price, x);
      FirstAverage(o', price', x);
    }
  }

  lemma {:induction false} PassesDearer(cfg: Config, r: Row, prices: seq<real>, price: real)
    requires LedgerOk(r) && forall i :: 0 <= i < |prices| ==> prices[i] <= price
    ensures Dearer(AfterPasses(cfg, r, prices), AfterPasses(cfg, r, seq(|prices|, _ => price)))
  {
    hide LedgerOk, Fill, PaperFillSize, Dearer;
    if prices == [] {
      AsDear(r);
      assert seq(|prices|, _ => price) == [];
    } else {
      var n := |prices| - 1;
      PassesDearer(cfg, r, prices[..n], price);
      PassesKeepLedger(cfg, r, prices[..n]);
      assert seq(n + 1, _ => price)[..n] == seq(n, _ => price);
      FillDearer(cfg, AfterPasses(cfg, r, prices[..n]), AfterPasses(cfg, r, seq(n, _ => price)), prices[n], price);
    }
  }

  lemma AsDear(r: Row)
    ensures Dearer(r, r)
  {}

  // ----- passes that have no effect ---------------------------------------------------------------

  /** The next pass leaves the order as it is, but for its average. */
  ghost predicate Stuck(cfg: Config, o: Row) {
    var next := Fill(o, PaperFillSize(cfg, o), 0.0, 0.0);
    o.remaining > 0.0 && next.filled == o.filled && next.remaining > 0.0
  }

  lemma PriceIsNothing(cfg: Config, o: Row, price: real)
    ensures var n, n' := Fill(o, PaperFillSize(cfg, o), price, 0.0), Fill(o, PaperFillSize(cfg, o), 0.0, 0.0);
            n.filled == n'.filled && n.remaining == n'.remaining && n.size == n'.size
  {
    hide Round8, NewAverage, TakenSize, PaperFillSize;
  }

  /** A pass completes the order, fills at least half its step and at least a unit, or has no effect, and then none
      ever will. */
  lemma NextPass(cfg: Config, o: Row, price: real)
    requires LedgerOk(o) && o.remaining > 0.0
    ensures var n := Fill(o, PaperFillSize(cfg, o), price, 0.0);
            n.remaining > 0.0 ==>
              || (n.filled >= o.filled + UNIT && n.filled >= o.filled + StepOf(cfg, o.size) / 2.0)
              || (n.filled == o.filled && Stuck(cfg, n))
  {
    hide LedgerOk, Stuck, Fill, PaperFillSize, TakenSize;
    var size := PaperFillSize(cfg, o);
    var n := Fill(o, size, price, 0.0);
    FillKeepsLedger(o, size, price, 0.0);
    FilledSteps(o, n);
    if n.remaining > 0.0 {
      if TakenSize(o, size) <= 0.0 {
        NothingTaken(o, size, price);
        NothingTaken(o, size, 0.0);
        StuckSame(cfg, o);
      } else if size >= o.remaining {
        RestCompletes(o, size, price, 0.0);
      } else {
        WholeSteps(cfg, o, price);
        if n.filled == o.filled {
          SmallStep(cfg, o, price);
        }
      }
    }
  }

  /** A step below what remains is taken whole, up to its rounding. */
  lemma WholeSteps(cfg: Config, o: Row, price: real)
    requires o.remaining > 0.0
    requires var size := PaperFillSize(cfg, o); TakenSize(o, size) > 0.0 && size < o.remaining
    ensures PaperFillSize(cfg, o) == StepOf(cfg, o.size)
    ensures Fill(o, PaperFillSize(cfg, o), price, 0.0).filled >= o.filled + StepOf(cfg, o.size) - UNIT / 2.0
  {
    var size := PaperFillSize(cfg, o);
    Round8Facts(o.filled + size);
    hide Round8, NewAverage;
  }

  lemma StuckSame(cfg: Config, o: Row)
    requires o.remaining > 0.0 && Fill(o, PaperFillSize(cfg, o), 0.0, 0.0) == o
    ensures Stuck(cfg, o)
  {}

  lemma FilledSteps(o: Row, n: Row)
    requires LedgerOk(o) && LedgerOk(n) && o.filled <= n.filled
    ensures n.filled == o.filled || n.filled >= o.filled + UNIT
  {
    GridDifference(n.filled, o.filled);
    GridZeroOrUnit(n.filled - o.filled);
    hide OnGrid, Round8;
  }

  /** A step that is rounded away once is rounded away again. */
  lemma SmallStep(cfg: Config, o: Row, price: real)
    requires LedgerOk(o) && o.remaining > 0.0
    requires var size := PaperFillSize(cfg, o);
             var n := Fill(o, size, price, 0.0);
             TakenSize(o, size) > 0.0 && size < o.remaining && n.remaining > 0.0 && n.filled == o.filled
    ensures Stuck(cfg, Fill(o, PaperFillSize(cfg, o), price, 0.0))
  {
    var step := PaperFillSize(cfg, o);
    var n := Fill(o, step, price, 0.0);
    Round8Facts(o.filled + step);
    assert TakenSize(o, step) == step && step <= UNIT / 2.0;
    SameStep(cfg, o, n);
    hide Round8, LedgerOk, NewAverage, PaperFillSize, OnGrid;
  }

  lemma SameStep(cfg: Config, o: Row, n: Row)
    requires o.remaining > 0.0 && PaperFillSize(cfg, o) < o.remaining && n.size == o.size
    requires n.remaining > PaperFillSize(cfg, o)
    ensures PaperFillSize(cfg, n) == PaperFillSize(cfg, o) || PaperFillSize(cfg, o) <= 0.0
  {}

  lemma StuckStays(cfg: Config, o: Row, price: real)
    requires LedgerOk(o) && Stuck(cfg, o)
    ensures var n := Fill(o, PaperFillSize(cfg, o), price, 0.0); n.remaining > 0.0 && Stuck(cfg, n)
  {
    hide LedgerOk, Fill, PaperFillSize;
    PriceIsNothing(cfg, o, price);
    NextPass(cfg, o, price);
    assert UNIT > 0.0;
  }

  // ----- how many passes it takes to know ---------------------------------------------------------

  /** After `n` passes that did not complete it the entry is stuck or has filled `n` half steps and `n` units. */
  lemma {:induction false} PassesProgress(cfg: Config, r: Row, price: real, n: nat)
    requires LedgerOk(r)
    ensures var o := AfterPasses(cfg, r, seq(n, _ => price));
            o.remaining > 0.0 ==>
              || Stuck(cfg, o)
              || (o.filled >= Mul(n as real, UNIT) && o.filled >= Mul(n as real, StepOf(cfg, r.size) / 2.0))
  {
    hide LedgerOk, Stuck, Fill, PaperFillSize, Mul, StepOf;
    LedgerAverage(r);
    if n == 0 {
      MulUnits(UNIT);
      MulUnits(StepOf(cfg, r.size) / 2.0);
    } else {
      var prices := seq(n - 1, _ => price);
      assert seq(n, _ => price)[..n - 1] == prices;
      PassesProgress(cfg, r, price, n - 1);
      PassesKeepLedger(cfg, r, prices);
      var o := AfterPasses(cfg, r, prices);
      if o.remaining <= 0.0 {
        CompleteStays(cfg, o, price);
      } else if Stuck(cfg, o) {
        StuckStays(cfg, o, price);
      } else {
        NextPass(cfg, o, price);
        OneMore(n, UNIT);
        OneMore(n, StepOf(cfg, r.size) / 2.0);
      }
    }
  }

  lemma OneMore(n: nat, x: real)
    requires n > 0
    ensures Mul(n as real, x) == Mul((n - 1) as real, x) + x
  {}

  /** More passes change neither a complete entry nor a stuck one's being incomplete. */
  lemma {:induction false} PassesSettle(cfg: Config, r: Row, price: real, n: nat, m: nat)
    requires LedgerOk(r) && n <= m
    ensures var o, o' := AfterPasses(cfg, r, seq(n, _ => price)), AfterPasses(cfg, r, seq(m, _ => price));
            (o.remaining <= 0.0 ==> o' == o) && (Stuck(cfg, o) ==> Stuck(cfg, o'))
  {
    hide LedgerOk, Stuck, Fill, PaperFillSize;
    if n == m {
    } else {
      var prices := seq(m - 1, _ => price);
      assert seq(m, _ => price)[..m - 1] == prices;
      PassesSettle(cfg, r, price, n, m - 1);
      PassesKeepLedger(cfg, r, prices);
      var o := AfterPasses(cfg, r, prices);
      if o.remaining <= 0.0 {
        CompleteStays(cfg, o, price);
      }
      if Stuck(cfg, o) {
        StuckStays(cfg, o, price);
      }
    }
  }

  /** Passes that complete an entry if any do: twice the steps in its size, and three. */
  function EnoughPasses(cfg: Config, size: real): nat {
    if StepOf(cfg, size) > 0.0 && size > 0.0 then TwiceTheSteps(size, StepOf(cfg, size)) else 1
  }

  function TwiceTheSteps(size: real, step: real): nat
    requires size > 0.0 && step > 0.0
  {
    (2.0 * size / step).Floor + 3
  }

  lemma StepsFill(size: real, step: real)
    requires size > 0.0 && step > 0.0
    ensures var n := TwiceTheSteps(size, step) as real;
            Mul(n, UNIT) > size + UNIT / 2.0 || Mul(n, step / 2.0) > size + UNIT / 2.0
  {
    var q := 2.0 * size / step;
    var n := TwiceTheSteps(size, step) as real;
    DivCancel(2.0 * size, step);
    PositiveRatio(2.0 * size, step);
    assert n >= q + 2.0;
    hide Mul;
    if step > UNIT / 2.0 {
      ManySteps(q, n, step, size);
    } else {
      MulMonotone(step, UNIT / 2.0, q);
      MulSymmetric(q, UNIT / 2.0);
      MulSymmetric(q, step);
      ManyUnits(q, n, size);
    }
  }

  lemma PositiveRatio(x: real, y: real)
    requires x > 0.0 && y > 0.0
    ensures x / y > 0.0
  {}

  lemma ManySteps(q: real, n: real, step: real, size: real)
    requires n >= q + 2.0 && step > UNIT / 2.0 && Mul(q, step) == 2.0 * size
    ensures Mul(n, step / 2.0) > size + UNIT / 2.0
  {
    MulMonotone(q + 2.0, n, step / 2.0);
    assert (q + 2.0) * (step / 2.0) == (q * step) / 2.0 + step;
  }

  lemma ManyUnits(q: real, n: real, size: real)
    requires n >= q + 2.0 && Mul(q, UNIT / 2.0) >= 2.0 * size > 0.0
    ensures Mul(n, UNIT) > size + UNIT / 2.0
  {
    MulMonotone(q + 2.0, n, UNIT);
    assert (q + 2.0) * UNIT == 2.0 * (q * (UNIT / 2.0)) + 2.0 * UNIT;
  }

  /** Enough passes complete the entry or leave it stuck. */
  lemma EnoughDecide(cfg: Config, r: Row, top: real)
    requires LedgerOk(r)
    ensures var o := AtWorst(cfg, r, top, EnoughPasses(cfg, r.size));
            o.remaining > 0.0 ==> Stuck(cfg, o)
  {
    hide AfterPasses, Worst, Stuck, LedgerOk, StepOf, Mul, TwiceTheSteps;
    SizeFacts(r);
    var price, enough := Worst(cfg, r, top), EnoughPasses(cfg, r.size);
    PassesProgress(cfg, r, price, enough);
    PassesKeepLedger(cfg, r, seq(enough, _ => price));
    var o := AtWorst(cfg, r, top, enough);
    SizeFacts(o);
    if StepOf(cfg, r.size) > 0.0 {
      StepsFill(r.size, StepOf(cfg, r.size));
    } else if o.remaining > 0.0 {
      NoStep(cfg, o);
    }
    hide EnoughPasses;
  }

  lemma NoStep(cfg: Config, o: Row)
    requires StepOf(cfg, o.size) <= 0.0 && o.size > 0.0 && o.remaining > 0.0
    ensures Stuck(cfg, o)
  {
    NothingTaken(o, PaperFillSize(cfg, o), 0.0);
    hide Fill;
  }

  lemma SizeFacts(r: Row)
    requires LedgerOk(r)
    ensures r.size > 0.0 && r.filled <= r.size + UNIT / 2.0
  {
    hide OnGrid, Round8;
  }

  lemma StuckRemains(cfg: Config, o: Row)
    ensures Stuck(cfg, o) ==> o.remaining > 0.0
  {}

  // ----- averages of passes -----------------------------------------------------------------------

  lemma {:induction false} PassesBounded(cfg: Config, r: Row, price: real, n: nat, bound: real)
    requires LedgerOk(r) && price <= bound && OrElse(r.average, bound) <= bound
    ensures OrElse(AfterPasses(cfg, r, seq(n, _ => price)).average, bound) <= bound
  {
    hide LedgerOk, Fill, PaperFillSize, TakenSize;
    if n == 0 {
    } else {
      PassesBounded(cfg, r, price, n - 1, bound);
      assert seq(n, _ => price)[..n - 1] == seq(n - 1, _ => price);
      PassesKeepLedger(cfg, r, seq(n - 1, _ => price));
      var o := AfterPasses(cfg, r, seq(n - 1, _ => price));
      var size := PaperFillSize(cfg, o);
      if TakenSize(o, size) > 0.0 {
        FillAverage(o, size, price, 0.0, Min(price, OrElse(o.average, price)), bound);
      } else {
        NothingTaken(o, size, price);
      }
    }
  }

  lemma NothingTaken(r: Row, size: real, price: real)
    requires TakenSize(r, size) <= 0.0
    ensures Fill(r, size, price, 0.0) == r
  {}

  /** Above `t` and offered above it, an average stays above it. */
  lemma {:induction false} StaysAbove(cfg: Config, r: Row, price: real, t: real, n: nat, m: nat)
    requires LedgerOk(r) && n <= m && price > t && Above(AfterPasses(cfg, r, seq(n, _ => price)), t)
    ensures Above(AfterPasses(cfg, r, seq(m, _ => price)), t)
  {
    hide LedgerOk, Fill, PaperFillSize, TakenSize;
    if n == m {
    } else {
      var prices := seq(m - 1, _ => price);
      assert seq(m, _ => price)[..m - 1] == prices;
      StaysAbove(cfg, r, price, t, n, m - 1);
      PassesKeepLedger(cfg, r, prices);
      var o := AfterPasses(cfg, r, prices);
      var size := PaperFillSize(cfg, o);
      if TakenSize(o, size) > 0.0 {
        FillAverage(o, size, price, 0.0, Min(price, o.average.value), Max(price, o.average.value));
      } else {
        NothingTaken(o, size, price);
      }
    }
  }

  /** Whether passes take anything of the order. */
  predicate Takes(cfg: Config, r: Row) {
    TakenSize(r, PaperFillSize(cfg, r)) > 0.0
  }

  lemma {:induction false} UntakenStays(cfg: Config, r: Row, price: real, n: nat)
    requires !Takes(cfg, r)
    ensures AfterPasses(cfg, r, seq(n, _ => price)) == r
  {
    hide Fill, PaperFillSize, TakenSize;
    if n == 0 {
    } else {
      assert seq(n, _ => price)[..n - 1] == seq(n - 1, _ => price);
      UntakenStays(cfg, r, price, n - 1);
      NothingTaken(r, PaperFillSize(cfg, r), price);
    }
  }

  /** What is dear but not yet above `t` is offered above it and takes something. */
  lemma DearNeeds(cfg: Config, r: Row, top: real, t: real, n: nat)
    requires LedgerOk(r) && Above(AtWorst(cfg, r, top, n), t) && !Above(r, t)
    ensures Worst(cfg, r, top) > t && Takes(cfg, r)
  {
    hide LedgerOk, AfterPasses, Worst, Takes;
    if Worst(cfg, r, top) <= t {
      PassesBounded(cfg, r, Worst(cfg, r, top), n, t);
    }
    if !Takes(cfg, r) {
      UntakenStays(cfg, r, Worst(cfg, r, top), n);
    }
  }

  /** If `n` passes complete it, an entry is dear exactly if it is above `t` now or then. */
  lemma DearWhenComplete(cfg: Config, r: Row, top: real, t: real, n: nat)
    requires LedgerOk(r) && AtWorst(cfg, r, top, n).remaining <= 0.0
    ensures Dear(cfg, r, top, t) <==> Above(r, t) || Above(AtWorst(cfg, r, top, n), t)
  {
    hide LedgerOk, AfterPasses, Worst, Above, Takes;
    var price := Worst(cfg, r, top);
    NoPassesYet(cfg, r, top);
    if Dear(cfg, r, top, t) && !Above(r, t) {
      var m: nat :| Above(AtWorst(cfg, r, top, m), t);
      DearNeeds(cfg, r, top, t, m);
      if m <= n {
        StaysAbove(cfg, r, price, t, m, n);
      } else {
        PassesSettle(cfg, r, price, n, m);
      }
    }
  }

  lemma NoPassesYet(cfg: Config, r: Row, top: real)
    ensures AtWorst(cfg, r, top, 0) == r
  {}

  // ----- entries that are stuck -------------------------------------------------------------------

  lemma TakesOn(cfg: Config, r: Row, o: Row)
    requires Takes(cfg, r) && o.size == r.size && o.remaining > 0.0
    ensures Takes(cfg, o)
  {}

  /** What a stuck order takes again and again, without effect but on its average. */
  lemma StuckPass(cfg: Config, o: Row, price: real)
    requires LedgerOk(o) && Stuck(cfg, o) && Takes(cfg, o) && o.filled > 0.0
    ensures var n, x := Fill(o, PaperFillSize(cfg, o), price, 0.0), TakenSize(o, PaperFillSize(cfg, o));
            && x > 0.0 && n.average == Some(NewAverage(o, price, x)) && n.filled == o.filled && n.size == o.size
            && Stuck(cfg, n) && LedgerOk(n) && TakenSize(n, PaperFillSize(cfg, n)) == x
  {
    hide LedgerOk, Round8;
    StuckStays(cfg, o, price);
    PriceIsNothing(cfg, o, price);
    FillKeepsLedger(o, PaperFillSize(cfg, o), price, 0.0);
    var n := Fill(o, PaperFillSize(cfg, o), price, 0.0);
    FillResult(o, PaperFillSize(cfg, o), price, 0.0);
    SameRemaining(cfg, o, n);
    hide Fill, Stuck;
  }

  /** Filled in part, an order has the same left after any fill that rounds to nothing. */
  lemma SameRemaining(cfg: Config, o: Row, n: Row)
    requires LedgerOk(o) && LedgerOk(n) && n.size == o.size && n.filled == o.filled > 0.0
    requires o.remaining > 0.0 && n.remaining > 0.0
    ensures n.remaining == o.remaining && TakenSize(n, PaperFillSize(cfg, n)) == TakenSize(o, PaperFillSize(cfg, o))
  {
    assert n.remaining == o.remaining by {
      hide Round8, OnGrid;
    }
    hide LedgerOk;
    SameTaken(cfg, o, n);
  }

  /** The gap to the price shrinks with every pass of a stuck order. */
  lemma {:induction false} StuckApproaches(cfg: Config, o: Row, price: real, n: nat)
    requires LedgerOk(o) && Stuck(cfg, o) && Takes(cfg, o) && o.filled > 0.0
    requires o.average.Some? && o.average.value <= price
    ensures var m, x := AfterPasses(cfg, o, seq(n, _ => price)), TakenSize(o, PaperFillSize(cfg, o));
            && LedgerOk(m) && Stuck(cfg, m) && m.filled == o.filled && TakenSize(m, PaperFillSize(cfg, m)) == x
            && m.average.Some? && m.average.value <= price
            && Mul(price - m.average.value, o.filled + Mul(n as real, x)) <= Mul(price - o.average.value, o.filled)
  {
    hide LedgerOk, Stuck, Fill, PaperFillSize, TakenSize, Mul, NewAverage;
    var x := TakenSize(o, PaperFillSize(cfg, o));
    if n == 0 {
      MulUnits(x);
      assert seq(0, _ => price) == [];
    } else {
      var prices := seq(n - 1, _ => price);
      assert seq(n, _ => price)[..n - 1] == prices;
      StuckApproaches(cfg, o, price, n - 1);
      var m := AfterPasses(cfg, o, prices);
      StuckPass(cfg, m, price);
      AverageWorth(m, price, x);
      MeanCloser(m.average.value, NewAverage(m, price, x), price, m.filled, x);
      Approaches(price - m.average.value, price - NewAverage(m, price, x), o.filled, x, n - 1,
                 Mul(price - o.average.value, o.filled));
    }
  }

  /** A stuck order that is offered above `t` is dear. */
  lemma StuckGetsAbove(cfg: Config, o: Row, price: real, t: real) returns (n: nat)
    requires LedgerOk(o) && Stuck(cfg, o) && Takes(cfg, o) && price > t
    ensures Above(AfterPasses(cfg, o, seq(n, _ => price)), t)
  {
    hide LedgerOk, Stuck, PaperFillSize, Mul, NewAverage;
    LedgerAverage(o);
    if o.filled <= 0.0 {
      n := 1;
      FirstFillAbove(cfg, o, price);
    } else if o.average.value > price {
      n := 0;
      assert seq(0, _ => price) == [];
    } else {
      var x := TakenSize(o, PaperFillSize(cfg, o));
      n := EnoughSteps(price - t, o.filled, x, Mul(price - o.average.value, o.filled));
      StuckApproaches(cfg, o, price, n);
      var m := AfterPasses(cfg, o, seq(n, _ => price));
      if m.average.value <= t {
        MulSigns(n as real, x);
        MulMonotone(price - t, price - m.average.value, o.filled + Mul(n as real, x));
      }
    }
    hide AfterPasses;
  }

  lemma FirstFillAbove(cfg: Config, o: Row, price: real)
    requires Takes(cfg, o) && o.filled <= 0.0
    ensures AfterPasses(cfg, o, seq(1, _ => price)).average == Some(price)
  {
    hide Round8, PaperFillSize, TakenSize;
    assert seq(1, _ => price)[..0] == [];
    FirstAverage(o, price, TakenSize(o, PaperFillSize(cfg, o)));
  }

  lemma {:induction false} PassesJoin(cfg: Config, r: Row, price: real, n: nat, m: nat)
    ensures AfterPasses(cfg, r, seq(n + m, _ => price))
            == AfterPasses(cfg, AfterPasses(cfg, r, seq(n, _ => price)), seq(m, _ => price))
  {
    hide Fill, PaperFillSize;
    if m == 0 {
      assert seq(0, _ => price) == [];
    } else {
      PassesJoin(cfg, r, price, n, m - 1);
      assert seq(n + m, _ => price)[..n + m - 1] == seq(n + (m - 1), _ => price);
      assert seq(m, _ => price)[..m - 1] == seq(m - 1, _ => price);
    }
  }

  /** Whether an entry is dear shows after enough passes: it is above `t` now, or then, or it is then stuck and still
      offered above `t`. */
  lemma DearIsDecided(cfg: Config, r: Row, top: real, t: real)
    requires LedgerOk(r)
    ensures var o := AtWorst(cfg, r, top, EnoughPasses(cfg, r.size));
            Dear(cfg, r, top, t)
            <==> Above(r, t) || Above(o, t) || (o.remaining > 0.0 && Takes(cfg, r) && Worst(cfg, r, top) > t)
  {
    hide LedgerOk, AfterPasses, Worst, Above, Takes, Stuck, EnoughPasses;
    var n := EnoughPasses(cfg, r.size);
    var o := AtWorst(cfg, r, top, n);
    NoPassesYet(cfg, r, top);
    EnoughDecide(cfg, r, top);
    if o.remaining <= 0.0 {
      DearWhenComplete(cfg, r, top, t, n);
    } else {
      if Dear(cfg, r, top, t) && !Above(r, t) {
        var m: nat :| Above(AtWorst(cfg, r, top, m), t);
        DearNeeds(cfg, r, top, t, m);
      }
      if Takes(cfg, r) && Worst(cfg, r, top) > t {
        StuckIsDear(cfg, r, top, t, n);
      }
    }
  }

  lemma StuckIsDear(cfg: Config, r: Row, top: real, t: real, n: nat)
    requires LedgerOk(r) && Takes(cfg, r) && Worst(cfg, r, top) > t && Stuck(cfg, AtWorst(cfg, r, top, n))
    ensures Dear(cfg, r, top, t)
  {
    hide LedgerOk, AfterPasses, Worst, Above, Takes, Stuck;
    var o, price := AtWorst(cfg, r, top, n), Worst(cfg, r, top);
    PassesKeepLedger(cfg, r, seq(n, _ => price));
    StuckRemains(cfg, o);
    TakesOn(cfg, r, o);
    var m := StuckGetsAbove(cfg, o, price, t);
    PassesJoin(cfg, r, price, n, m);
    assert Above(AtWorst(cfg, r, top, n + m), t);
  }

  // ----- steps on the grid ------------------------------------------------------------------------

  /** How many whole steps leave more than a unit of `remaining`. */
  function FullSteps(remaining: real, step: real): nat
    requires remaining > UNIT && step > 0.0
  {
    var q := (remaining - UNIT) / step;
    if q.Floor as real == q && q.Floor > 0 then q.Floor - 1 else Max(q, 0.0).Floor
  }

  lemma FullStepsFacts(remaining: real, step: real)
    requires remaining > UNIT && step > 0.0
    ensures var k := FullSteps(remaining, step) as real;
            Mul(k, step) < remaining - UNIT <= Mul(k, step) + step
  {
    var q, k := (remaining - UNIT) / step, FullSteps(remaining, step) as real;
    PositiveRatio(remaining - UNIT, step);
    DivCancel(remaining - UNIT, step);
    assert k < q <= k + 1.0;
    hide FullSteps;
    MulStrict(k, q, step);
    MulMonotone(q, k + 1.0, step);
    Distribute(step, k, 1.0);
    MulUnits(step);
    hide Mul;
  }

  /** What passes fill in all of an order on the grid: what remains, but for a last unit that is snapped when whole
      steps leave exactly that. */
  function GridTotal(remaining: real, step: real): real
    requires remaining > UNIT && step > 0.0
  {
    if remaining - Mul(FullSteps(remaining, step) as real, step) <= step then remaining else remaining - UNIT
  }

  /** On the grid an order has left what is missing. */
  lemma GridLeft(r: Row)
    requires LedgerOk(r) && OnGrid(r.size) && r.remaining > 0.0
    ensures r.remaining == r.size - r.filled && OnGrid(r.remaining) && OnGrid(r.filled) && r.filled >= 0.0
  {
    if r.filled > 0.0 {
      GridRest(r);
    } else {
      Round8OfGrid(r.size);
    }
    GridDifference(r.size, r.filled);
    hide Round8, OnGrid;
  }

  /** One pass on the grid: a whole step, or the end of the order. */
  lemma GridPass(cfg: Config, o: Row, price: real)
    requires LedgerOk(o) && OnGrid(o.size) && o.remaining > UNIT
    requires var s := StepOf(cfg, o.size); s > 0.0 && OnGrid(s)
    ensures var s, n := StepOf(cfg, o.size), Fill(o, PaperFillSize(cfg, o), price, 0.0);
            && n.average == Some(NewAverage(o, price, Min(s, o.remaining)))
            && (if o.remaining > s + UNIT then n.filled == o.filled + s && n.remaining == o.remaining - s
                else n.remaining == 0.0)
            && (s < o.remaining <= s + UNIT ==> o.remaining == s + UNIT)
  {
    hide LedgerOk, Round8, OnGrid, NewAverage;
    var s := StepOf(cfg, o.size);
    GridLeft(o);
    StepTaken(cfg, o);
    var x := Min(s, o.remaining);
    GridSum(o.filled, x);
    Round8OfGrid(o.filled + x);
    GridDifference(o.size, o.filled + x);
    Round8OfGrid(o.size - (o.filled + x));
    GridDifference(o.remaining, s);
    GridZeroOrUnit(o.remaining - s);
    hide StepOf, PaperFillSize;
  }

  lemma StepTaken(cfg: Config, o: Row)
    requires o.remaining > 0.0 && o.remaining <= o.size && StepOf(cfg, o.size) > 0.0
    ensures var x := Min(StepOf(cfg, o.size), o.remaining);
            PaperFillSize(cfg, o) == x && TakenSize(o, x) == x
  {}

  lemma {:induction false} GridPasses(cfg: Config, r: Row, price: real, k: nat)
    requires LedgerOk(r) && OnGrid(r.size) && r.remaining > UNIT
    requires var s := StepOf(cfg, r.size);
             s > 0.0 && OnGrid(s) && Mul(k as real, s) < r.remaining - UNIT
    ensures var s, o := StepOf(cfg, r.size), AfterPasses(cfg, r, seq(k, _ => price));
            && LedgerOk(o) && o.size == r.size
            && o.filled == r.filled + Mul(k as real, s) && o.remaining == r.remaining - Mul(k as real, s)
            && (if k == 0 then o == r else Mul(k as real, s) > 0.0
                                           && o.average == Some(NewAverage(r, price, Mul(k as real, s))))
  {
    hide LedgerOk, OnGrid, NewAverage, Mul, Fill, PaperFillSize, StepOf;
    var s := StepOf(cfg, r.size);
    if k == 0 {
      MulUnits(s);
      assert seq(0, _ => price) == [];
    } else {
      var prices := seq(k - 1, _ => price);
      assert seq(k, _ => price)[..k - 1] == prices;
      OneMore(k, s);
      MulSigns(k as real, s);
      GridPasses(cfg, r, price, k - 1);
      PassesKeepLedger(cfg, r, seq(k, _ => price));
      var o := AfterPasses(cfg, r, prices);
      GridPass(cfg, o, price);
      LedgerAverage(r);
      if k > 1 {
        AverageAdds(r, o, price, Mul((k - 1) as real, s), s);
      } else {
        MulUnits(s);
      }
    }
  }

  /** The closed form, for sizes and steps on the grid: the average now, or with all that passes fill at the highest
      price. */
  lemma GridDear(cfg: Config, r: Row, top: real, t: real)
    requires LedgerOk(r) && OnGrid(r.size) && r.remaining > UNIT
    requires StepOf(cfg, r.size) > 0.0 && OnGrid(StepOf(cfg, r.size))
    ensures var total := GridTotal(r.remaining, StepOf(cfg, r.size));
            && total > 0.0
            && (Dear(cfg, r, top, t) <==> Above(r, t) || NewAverage(r, Worst(cfg, r, top), total) > t)
  {
    hide LedgerOk, OnGrid, NewAverage, Mul, StepOf, AfterPasses, Worst, FullSteps, Fill, PaperFillSize;
    var s, price := StepOf(cfg, r.size), Worst(cfg, r, top);
    var k := FullSteps(r.remaining, s);
    FullStepsFacts(r.remaining, s);
    GridPasses(cfg, r, price, k);
    var o := AfterPasses(cfg, r, seq(k, _ => price));
    GridPass(cfg, o, price);
    OnePassMore(cfg, r, price, k);
    var x := Min(s, o.remaining);
    LedgerAverage(r);
    if k > 0 {
      AverageAdds(r, o, price, Mul(k as real, s), x);
    } else {
      MulUnits(s);
    }
    DearWhenComplete(cfg, r, top, t, k + 1);
  }

  lemma OnePassMore(cfg: Config, r: Row, price: real, k: nat)
    ensures var o := AfterPasses(cfg, r, seq(k, _ => price));
            AfterPasses(cfg, r, seq(k + 1, _ => price)) == Fill(o, PaperFillSize(cfg, o), price, 0.0)
  {
    hide Fill, PaperFillSize;
    assert seq(k + 1, _ => price)[..k] == seq(k, _ => price);
  }
}
