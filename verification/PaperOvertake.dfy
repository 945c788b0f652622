/** Exactly when an entry that is not asked about on the exchange can lose to its take-profit, if no quote fills it
    above `top`. */
module PaperOvertake {
  import opened Rounding
  import opened Options
  import opened Orders
  import opened OrderInvariants
  import opened OrderRuns
  import opened Passes
  import opened Touches
  import opened FillLedger
  import opened Schedules
  import opened EntryFills
  import opened Sweeps
  import opened Overtake
  import opened DearPasses

  // ----- entries nothing fills --------------------------------------------------------------------

  /** An entry that has ended, or a live one whose fills nobody asks about. */
  predicate Idle(cfg: Config, r: Row) {
    Final(r.status) || (!r.isPaper && !LiveManaged(cfg, r))
  }

  /** The ledger of a live entry that is not reconciled never changes. */
  lemma UnaskedStep(cfg: Config, b: Book, a: Action, p: OrderId)
    requires Inv(b) && p in b.rows && b.rows[p].kind == Entry && !b.rows[p].isPaper && !LiveManaged(cfg, b.rows[p])
    ensures var b' := Step(cfg, b, a).0; p in b'.rows && SameLedger(b.rows[p], b'.rows[p])
  {
    hide Inv, Step;
    EntryFacts(b, p);
    if !About(a, p) {
      OthersLeaveAlone(cfg, b, a, p);
    } else if a.Cancel? {
      CancelKeepsFill(cfg, b, p, a.exchangeOk);
      CancelIsOrder(cfg, b, a);
    } else {
      UnaskedTouch(cfg, b, p, a.touch);
    }
  }

  lemma UnaskedTouch(cfg: Config, b: Book, p: OrderId, t: Touch)
    requires EntryOf(b, p) && !b.rows[p].isPaper && !LiveManaged(cfg, b.rows[p])
    ensures var b' := Step(cfg, b, On(p, t)).0; p in b'.rows && SameLedger(b.rows[p], b'.rows[p])
  {
    hide PaperEntryFill, Rearm, LiveEntry, VisitChild;
    if t.Visit? {
      RearmUntouched(cfg, b, p, t.now, p);
    }
  }

  lemma {:induction false} UnaskedRun(cfg: Config, b: Book, actions: seq<Action>, p: OrderId)
    requires Inv(b) && p in b.rows && b.rows[p].kind == Entry && !b.rows[p].isPaper && !LiveManaged(cfg, b.rows[p])
    ensures var b' := Run(cfg, b, actions).0; p in b'.rows && SameLedger(b.rows[p], b'.rows[p])
  {
    hide Inv, Step, OrderInvariants.Moves;
    if actions == [] {
    } else {
      var init := actions[..|actions| - 1];
      UnaskedRun(cfg, b, init, p);
      RunMoves(cfg, b, init);
      var b1 := Run(cfg, b, init).0;
      MovedRow(b, b1, p);
      UnaskedStep(cfg, b1, actions[|actions| - 1], p);
    }
  }

  lemma IdleIsBounded(cfg: Config, b: Book, p: OrderId, top: real, t: real, grid: bool)
    requires Inv(b) && p in b.rows && b.rows[p].kind == Entry && Idle(cfg, b.rows[p]) && !Above(b.rows[p], t)
    ensures Bounded(cfg, b, p, top, t, grid)
  {
    hide Inv, Run, Flat, Within, Final;
    forall ss | Within(cfg, b.rows[p], Flat(cfg, b, ss), top, grid)
      ensures p in Onward(cfg, b, ss).rows && OrElse(Onward(cfg, b, ss).rows[p].average, t) <= t
    {
      if Final(b.rows[p].status) {
        EndedStays(cfg, b, ss, p);
      } else {
        UnaskedRun(cfg, b, Flat(cfg, b, ss), p);
      }
    }
  }

  /** Exactly when such an entry can lose: when it has been bought above the trigger. */
  lemma IdleSafeExactly(cfg: Config, b: Book, p: OrderId, c: OrderId, trigger: real, top: real, grid: bool)
    requires Inv(b) && Guards(b, p, c, trigger) && Idle(cfg, b.rows[p])
    ensures CanLose(cfg, b, p, c, top, grid) <==> Above(b.rows[p], trigger)
  {
    hide Inv, Loses, Idle, Bounded;
    if Above(b.rows[p], trigger) {
      var w := NowLoses(cfg, b, p, c, trigger, top, grid);
    } else {
      IdleIsBounded(cfg, b, p, top, trigger, grid);
      BoundedIsSafe(cfg, b, p, c, trigger, top, grid);
    }
  }

  // ----- the fills of a paper entry ---------------------------------------------------------------

  /** No action changes the ledger of a finished paper entry. */
  lemma EndedVisit(cfg: Config, b: Book, a: Action, p: OrderId)
    requires Inv(b) && p in b.rows && b.rows[p].kind == Entry && b.rows[p].isPaper && Final(b.rows[p].status)
    ensures var b' := Step(cfg, b, a).0; p in b'.rows && SameLedger(b.rows[p], b'.rows[p])
  {
    hide Inv, Step;
    EntryFacts(b, p);
    if Elsewhere(a, p) {
      EndedStep(cfg, b, a, p);
    } else {
      EndedAsked(cfg, b, p, a.touch);
    }
  }

  lemma EndedAsked(cfg: Config, b: Book, p: OrderId, t: Touch)
    requires EntryOf(b, p) && b.rows[p].isPaper && Final(b.rows[p].status) && Asks(On(p, t))
    ensures Step(cfg, b, On(p, t)).0 == b
  {}

  lemma LedgerCongruent(cfg: Config, o: Row, o': Row, price: real, now: Time)
    requires SameLedger(o, o')
    ensures SameLedger(Fill(o, PaperFillSize(cfg, o), price, now), Fill(o', PaperFillSize(cfg, o'), price, 0.0))
  {
    hide Round8, NewAverage, TakenSize, PaperFillSize;
    SameTaken(cfg, o, o');
    var x := TakenSize(o, PaperFillSize(cfg, o));
    if x > 0.0 {
      SameNewAverage(o, o', price, x);
    }
  }

  lemma {:induction false} PassesSameLedger(cfg: Config, o: Row, o': Row, prices: seq<real>)
    requires SameLedger(o, o')
    ensures SameLedger(AfterPasses(cfg, o, prices), AfterPasses(cfg, o', prices))
  {
    hide Fill, SameLedger, PaperFillSize;
    if prices == [] {
    } else {
      var init := prices[..|prices| - 1];
      PassesSameLedger(cfg, o, o', init);
      LedgerCongruent(cfg, AfterPasses(cfg, o, init), AfterPasses(cfg, o', init), prices[|prices| - 1], 0.0);
    }
  }

  /** Over any run, cancelled on the way or not, a paper entry is as full as some passes make it. */
  lemma {:induction false} PaperRun(cfg: Config, b: Book, actions: seq<Action>, p: OrderId, top: real, grid: bool)
    returns (prices: seq<real>)
    requires Inv(b) && p in b.rows && b.rows[p].kind == Entry && b.rows[p].isPaper
    requires Within(cfg, b.rows[p], actions, top, grid)
    ensures var b' := Run(cfg, b, actions).0;
            p in b'.rows && SameLedger(AfterPasses(cfg, b.rows[p], prices), b'.rows[p])
    ensures forall i :: 0 <= i < |prices| ==> prices[i] <= Worst(cfg, b.rows[p], top)
  {
    hide Inv, Step, AfterPasses, Priced, SameLedger, SameOrder, OfferOf, OrderInvariants.Moves;
    var r := b.rows[p];
    if actions == [] {
      prices := [];
      NoPasses(cfg, r);
    } else {
      var init, a := actions[..|actions| - 1], actions[|actions| - 1];
      assert actions == init + [a] && a in actions;
      assert forall x :: x in init ==> x in actions;
      prices := PaperRun(cfg, b, init, p, top, grid);
      RunMoves(cfg, b, init);
      var b1 := Run(cfg, b, init).0;
      MovedRow(b, b1, p);
      PricedSame(cfg, r, b1.rows[p], a, top, grid);
      PaperKind(r, b1.rows[p]);
      var more := PaperStep(cfg, b1, a, p, top, grid);
      SameWorst(cfg, r, b1.rows[p], top);
      PassesSameLedger(cfg, AfterPasses(cfg, r, prices), b1.rows[p], more);
      PassesSnoc(cfg, r, prices, more);
      LedgerTransitive(AfterPasses(cfg, r, prices + more), AfterPasses(cfg, b1.rows[p], more),
                       Step(cfg, b1, a).0.rows[p]);
      prices := prices + more;
    }
  }

  lemma NoPasses(cfg: Config, r: Row)
    ensures SameLedger(AfterPasses(cfg, r, []), r)
  {}

  lemma PaperKind(r: Row, r': Row)
    requires SameOrder(r, r')
    ensures r'.isPaper == r.isPaper && r'.kind == r.kind
  {}

  lemma SameWorst(cfg: Config, r: Row, r': Row, top: real)
    requires SameOrder(r, r')
    ensures Worst(cfg, r', top) == Worst(cfg, r, top)
  {}

  lemma LedgerTransitive(o1: Row, o2: Row, o3: Row)
    requires SameLedger(o1, o2) && SameLedger(o2, o3)
    ensures SameLedger(o1, o3)
  {}

  lemma PaperStep(cfg: Config, b: Book, a: Action, p: OrderId, top: real, grid: bool) returns (more: seq<real>)
    requires Inv(b) && p in b.rows && b.rows[p].kind == Entry && b.rows[p].isPaper
    requires Priced(cfg, b.rows[p], a, top, grid)
    ensures var b' := Step(cfg, b, a).0;
            p in b'.rows && SameLedger(AfterPasses(cfg, b.rows[p], more), b'.rows[p])
    ensures |more| <= 1 && forall i :: 0 <= i < |more| ==> more[i] <= Worst(cfg, b.rows[p], top)
  {
    hide Inv, Step, AfterPasses, OrderInvariants.Moves;
    var r := b.rows[p];
    EntryFacts(b, p);
    NoPasses(cfg, r);
    more := [];
    if Final(r.status) {
      EndedVisit(cfg, b, a, p);
    } else if a.Cancel? && a.id == p {
      CancelKeepsFill(cfg, b, p, a.exchangeOk);
      CancelIsOrder(cfg, b, a);
    } else {
      ActionFollows(cfg, b, a, p);
      more := OfferOf(cfg, r, a);
    }
  }

  /** If passes cannot make it dear, no continuation can. */
  lemma PaperIsBounded(cfg: Config, b: Book, p: OrderId, top: real, t: real, grid: bool)
    requires Inv(b) && p in b.rows && b.rows[p].kind == Entry && b.rows[p].isPaper && !Dear(cfg, b.rows[p], top, t)
    ensures Bounded(cfg, b, p, top, t, grid)
  {
    hide Inv, Run, Flat, Within, Dear;
    forall ss | Within(cfg, b.rows[p], Flat(cfg, b, ss), top, grid)
      ensures p in Onward(cfg, b, ss).rows && OrElse(Onward(cfg, b, ss).rows[p].average, t) <= t
    {
      ReachedIsDear(cfg, b, Flat(cfg, b, ss), p, top, t, grid);
    }
  }

  lemma ReachedIsDear(cfg: Config, b: Book, actions: seq<Action>, p: OrderId, top: real, t: real, grid: bool)
    requires Inv(b) && p in b.rows && b.rows[p].kind == Entry && b.rows[p].isPaper
    requires Within(cfg, b.rows[p], actions, top, grid)
    ensures var b' := Run(cfg, b, actions).0;
            p in b'.rows && (Above(b'.rows[p], t) ==> Dear(cfg, b.rows[p], top, t))
  {
    hide Inv, Run, AfterPasses, LedgerOk, Worst, Within;
    var r := b.rows[p];
    var prices := PaperRun(cfg, b, actions, p, top, grid);
    LedgerAt(b, p);
    PassesDearer(cfg, r, prices, Worst(cfg, r, top));
    if Above(Run(cfg, b, actions).0.rows[p], t) {
      assert Above(AtWorst(cfg, r, top, |prices|), t);
    }
  }

  // ----- passes at one price ----------------------------------------------------------------------

  /** A pass that offers the entry at `price` and keeps its take-profit below its trigger. */
  function OfferWorld(b: Book, p: OrderId, c: OrderId, price: real, trigger: real): World
    requires p in b.rows && c in b.rows
  {
    BracketWorld(b, p, c, b.rows[p].market, price, trigger - 1.0, OrElse(b.rows[c].expiry, 0.0))
  }

  lemma OfferWorldFacts(cfg: Config, b: Book, p: OrderId, c: OrderId, price: real, trigger: real, top: real, grid: bool)
    requires Inv(b) && Guards(b, p, c, trigger) && price <= b.rows[p].price + cfg.tolerance && price <= top
    ensures var w, r := OfferWorld(b, p, c, price, trigger), b.rows[p];
            && CalmBeside(b, w, p, c) && CalmSelf(b, w, c)
            && Offering(cfg, r, w) && Price(r, w) == price && WorldWithin(cfg, r, w, top, grid)
  {
    hide Inv, CalmBeside, FiredBy, EvalPrice, AnswersWithin;
    GuardsArmed(b, p, c, trigger);
    BracketWorldFacts(b, p, c, b.rows[p].market, price, trigger - 1.0, OrElse(b.rows[c].expiry, 0.0));
    NothingWithin(cfg, b.rows[p], top, grid);
  }

  /** The same pass `n` times. */
  function Offered(w: World, n: nat): seq<Stroke> {
    seq(n, _ => Sweep(w))
  }

  lemma OfferedMore(w: World, n: nat)
    requires n > 0
    ensures Offered(w, n) == Offered(w, n - 1) + [Sweep(w)] && Placeless(Offered(w, n))
  {}

  /** Whole passes at one price fill the entry as the schedule says and leave its take-profit armed. */
  lemma {:induction false} OfferedRun(cfg: Config, b: Book, p: OrderId, c: OrderId, trigger: real, price: real,
                                      top: real, grid: bool, n: nat)
    requires Inv(b) && Guards(b, p, c, trigger) && Working(b, p)
    requires price <= b.rows[p].price + cfg.tolerance && price <= top
    ensures var w := OfferWorld(b, p, c, price, trigger);
            var ss := Offered(w, n);
            var m := Onward(cfg, b, ss);
            && Inv(m) && Guards(m, p, c, trigger) && Follows(cfg, b.rows[p], m, p, seq(n, _ => price))
            && CalmBeside(m, w, p, c) && CalmSelf(m, w, c)
            && Within(cfg, b.rows[p], Flat(cfg, b, ss), top, grid) && Placeless(ss)
  {
    hide Inv, OrderInvariants.Moves, Onward, Flat, Follows, Working, CalmBeside, CalmSelf, Within, OfferWorld, Offered;
    hide Offering, Price, WorldWithin, Pass, PassActions, Run;
    WorkingRow(b, p);
    var r, w := b.rows[p], OfferWorld(b, p, c, price, trigger);
    OfferWorldFacts(cfg, b, p, c, price, trigger, top, grid);
    if n == 0 {
      NothingOffered(cfg, b, p, w, price, top, grid);
    } else {
      var init := Offered(w, n - 1);
      OfferedRun(cfg, b, p, c, trigger, price, top, grid, n - 1);
      OfferedMore(w, n);
      var m := Onward(cfg, b, init);
      OfferedOnce(cfg, m, r, p, c, trigger, price, w, top, grid, n - 1);
      FlatAppend(cfg, b, init, [Sweep(w)]);
      WithinAppend(cfg, r, Flat(cfg, b, init), Flat(cfg, m, [Sweep(w)]), top, grid);
    }
  }

  lemma NothingOffered(cfg: Config, b: Book, p: OrderId, w: World, price: real, top: real, grid: bool)
    requires Working(b, p)
    ensures Offered(w, 0) == [] && Placeless([]) && Flat(cfg, b, []) == [] && Onward(cfg, b, []) == b
    ensures Follows(cfg, b.rows[p], b, p, seq(0, _ => price)) && Within(cfg, b.rows[p], [], top, grid)
  {
    assert seq(0, _ => price) == [];
    FlatNone(cfg, b);
    NothingWithin(cfg, b.rows[p], top, grid);
    SameAsItself(cfg, b.rows[p]);
    hide Working, AfterPasses, Within;
  }

  lemma OfferedOnce(cfg: Config, m: Book, r: Row, p: OrderId, c: OrderId, trigger: real, price: real, w: World,
                    top: real, grid: bool, n: nat)
    requires Inv(m) && Guards(m, p, c, trigger) && r.id == p && Follows(cfg, r, m, p, seq(n, _ => price))
    requires CalmBeside(m, w, p, c) && CalmSelf(m, w, c)
    requires Offering(cfg, r, w) && Price(r, w) == price && WorldWithin(cfg, r, w, top, grid)
    ensures var m' := Onward(cfg, m, [Sweep(w)]);
            && Inv(m') && Guards(m', p, c, trigger) && Follows(cfg, r, m', p, seq(n + 1, _ => price))
            && CalmBeside(m', w, p, c) && CalmSelf(m', w, c)
            && Within(cfg, r, Flat(cfg, m, [Sweep(w)]), top, grid)
  {
    hide Inv, OrderInvariants.Moves, Follows, CalmBeside, CalmSelf, Within, Offering, Price, WorldWithin;
    hide Pass, PassActions, Run, Flat;
    SweepIsPass(cfg, m, w);
    FlatOne(cfg, m, Sweep(w));
    PassWithin(cfg, m, m.keys, w, r, top, grid);
    GuardsArmed(m, p, c, trigger);
    PassLeavesArmed(cfg, m, m.keys, w, p, c);
    GuardsStay(m, Pass(cfg, m, m.keys, w).0, p, c, trigger);
    PassFollowsOnce(cfg, m, r, p, seq(n, _ => price), w);
    assert seq(n + 1, _ => price) == seq(n, _ => price) + [price];
  }

  // ----- exactly when -----------------------------------------------------------------------------

  lemma DearLoses(cfg: Config, b: Book, p: OrderId, c: OrderId, trigger: real, top: real, grid: bool) returns (w: Way)
    requires Inv(b) && Guards(b, p, c, trigger) && Working(b, p) && Dear(cfg, b.rows[p], top, trigger)
    ensures Loses(cfg, b, p, c, top, grid, w) && Plain(cfg, b, p, trigger, w)
  {
    hide Inv, Onward, Flat, Within, OfferWorld, Offered, Loses, Plain, AfterPasses, CalmBeside, CalmSelf, Working;
    var r := b.rows[p];
    var price := Worst(cfg, r, top);
    var n: nat :| Above(AtWorst(cfg, r, top, n), trigger);
    OfferedRun(cfg, b, p, c, trigger, price, top, grid, n);
    w := FiredLoses(cfg, b, Offered(OfferWorld(b, p, c, price, trigger), n), p, c, trigger, top, grid);
  }

  /** Exactly when a paper entry that is open can lose, if no quote fills it above `top`: when some number of passes at
      the highest price it accepts brings its average above the trigger. */
  lemma PaperSafeExactly(cfg: Config, b: Book, p: OrderId, c: OrderId, trigger: real, top: real, grid: bool)
    requires Inv(b) && Guards(b, p, c, trigger) && b.rows[p].isPaper && !Final(b.rows[p].status)
    ensures CanLose(cfg, b, p, c, top, grid) <==> Dear(cfg, b.rows[p], top, trigger)
  {
    hide Inv, Loses, Dear, Bounded;
    EntryFacts(b, p);
    if Dear(cfg, b.rows[p], top, trigger) {
      var w := DearLoses(cfg, b, p, c, trigger, top, grid);
    } else {
      PaperIsBounded(cfg, b, p, top, trigger, grid);
      BoundedIsSafe(cfg, b, p, c, trigger, top, grid);
    }
  }

  /** The same in closed form, for sizes and steps on the grid: its average now, or with all that passes would still
      fill bought at the highest price it accepts. */
  lemma GridPaperSafeExactly(cfg: Config, b: Book, p: OrderId, c: OrderId, trigger: real, top: real, grid: bool)
    requires Inv(b) && Guards(b, p, c, trigger) && b.rows[p].isPaper && !Final(b.rows[p].status)
    requires var r := b.rows[p];
             OnGrid(r.size) && r.remaining > UNIT && StepOf(cfg, r.size) > 0.0 && OnGrid(StepOf(cfg, r.size))
    ensures var r := b.rows[p];
            var total := GridTotal(r.remaining, StepOf(cfg, r.size));
            && total > 0.0
            && (CanLose(cfg, b, p, c, top, grid)
                <==> Above(r, trigger) || NewAverage(r, Worst(cfg, r, top), total) > trigger)
  {
    hide Inv, CanLose, Dear, OnGrid, StepOf, GridTotal, NewAverage, LedgerOk, Worst;
    LedgerAt(b, p);
    PaperSafeExactly(cfg, b, p, c, trigger, top, grid);
    GridDear(cfg, b.rows[p], top, trigger);
  }
}
