/** Exactly when an entry that is managed on the exchange can lose to its take-profit, if no answer charges more than
    `top` a contract: for every report of the exchange, and for reports in whole units of 1e-8. */
module LiveOvertake {
  import opened Rounding
  import opened Products
  import opened Options
  import opened Orders
  import opened OrderInvariants
  import opened OrderRuns
  import opened Passes
  import opened Touches
  import opened FillLedger
  import opened EntryFills
  import opened Sweeps
  import opened Overtake

  // ----- one answer -------------------------------------------------------------------------------

  /** How much an answer adds to an entry, and at what price. */
  function Delta(r: Row, answers: seq<LiveRow>): real {
    Max(TotalFilled(answers) - r.filled, 0.0)
  }

  function PriceOf(r: Row, answers: seq<LiveRow>): real {
    LastPrice(answers, ActivePrice(r))
  }

  lemma LiveFillRow(b: Book, p: OrderId, answers: seq<LiveRow>, now: Time)
    requires EntryOf(b, p)
    ensures var r, b' := b.rows[p], LiveFill(b, p, answers, now).0;
            var r' := Fill(r, Delta(r, answers), PriceOf(r, answers), now);
            && EntryOf(b', p) && b'.rows == b.rows[p := b'.rows[p]]
            && b'.rows[p] == (if Delta(r, answers) > 0.0 then r' else r)
            && SameOrder(r, b'.rows[p]) && b'.rows[p].bracketIds == r.bracketIds
  {
    var r := b.rows[p];
    FillKeepsOrder(r, Delta(r, answers), PriceOf(r, answers), now);
    FillNotArmed(r, Delta(r, answers), PriceOf(r, answers), now);
    hide Fill, TotalFilled, LastPrice;
    assert b.rows[p := r] == b.rows;
  }

  /** Whatever the exchange answers, the entry ends with the ledger of that fill, and with its status too if anything
      is taken. */
  lemma AnswerFills(cfg: Config, b: Book, p: OrderId, answers: seq<LiveRow>, now: Time)
    requires EntryOf(b, p) && LiveManaged(cfg, b.rows[p])
    ensures var r, b' := b.rows[p], Step(cfg, b, On(p, Answer(answers, now))).0;
            && p in b'.rows
            && SameLedger(if answers != [] && Delta(r, answers) > 0.0
                          then Fill(r, Delta(r, answers), PriceOf(r, answers), now) else r, b'.rows[p])
            && (answers != [] && Delta(r, answers) > 0.0 && TakenSize(r, Delta(r, answers)) > 0.0 ==>
                  SameFill(Fill(r, Delta(r, answers), PriceOf(r, answers), now), b'.rows[p]))
  {
    hide LiveFill, LiveStatus, Arm, Fill, Delta, PriceOf, Step, TakenSize;
    AnswerStep(cfg, b, p, answers, now);
    if answers != [] {
      LiveFillRow(b, p, answers, now);
      if TakenSize(b.rows[p], Delta(b.rows[p], answers)) > 0.0 {
        FillWorking(b.rows[p], Delta(b.rows[p], answers), PriceOf(b.rows[p], answers), now);
        WorkingStatus(LiveFill(b, p, answers, now).0, p, answers);
      }
      var b1 := LiveFill(b, p, answers, now).0;
      LiveStatusKeepsFill(b1, p, answers);
      var b2 := LiveStatus(b1, p, answers).0;
      if cfg.brackets {
        ArmUntouched(b2, p, DefaultSpec(cfg).value, now, p);
      }
    }
  }

  lemma WorkingStatus(b: Book, p: OrderId, answers: seq<LiveRow>)
    requires Known(b, p)
    ensures var s := b.rows[p].status; s == Filled || s == PartiallyFilled ==> LiveStatus(b, p, answers).0 == b
  {}

  lemma FillWorking(r: Row, size: real, price: real, now: Time)
    requires TakenSize(r, size) > 0.0
    ensures var s := Fill(r, size, price, now).status; s == Filled || s == PartiallyFilled
  {
    hide Round8, TakenSize;
  }

  // ----- a pass with answers about one entry ------------------------------------------------------

  /** A pass without quotes in which the exchange answers about `p` alone. */
  function AskWorld(p: OrderId, answers: seq<LiveRow>, now: Time): World {
    World(map[], now, (k: OrderId) => if k == p then answers else [], (k: OrderId) => [])
  }

  lemma AskIsCalm(b: Book, p: OrderId, c: OrderId, answers: seq<LiveRow>, now: Time)
    requires p in b.rows && c in b.rows
    ensures var w := AskWorld(p, answers, now); CalmBeside(b, w, p, c) && CalmSelf(b, w, c)
  {}

  lemma AskedVisit(cfg: Config, b: Book, p: OrderId, answers: seq<LiveRow>, now: Time)
    requires EntryOf(b, p) && LiveManaged(cfg, b.rows[p]) && !Final(b.rows[p].status) && answers != []
    requires var r := b.rows[p]; Delta(r, answers) > 0.0 && TakenSize(r, Delta(r, answers)) > 0.0
    ensures var r, b' := b.rows[p], PassVisit(cfg, b, p, AskWorld(p, answers, now)).0;
            && EntryOf(b', p) && SameFill(Fill(r, Delta(r, answers), PriceOf(r, answers), now), b'.rows[p])
  {
    hide LiveEntry, Rearm, Fill, Delta, PriceOf, Step, TakenSize;
    AnswerStep(cfg, b, p, answers, now);
    AnswerFills(cfg, b, p, answers, now);
    AnsweredEntry(cfg, b, p, answers, now);
    assert Interfere(cfg, b, []) == b;
    RearmUntouched(cfg, LiveEntry(cfg, b, p, answers, now).0, p, now, p);
  }

  lemma AnsweredEntry(cfg: Config, b: Book, p: OrderId, answers: seq<LiveRow>, now: Time)
    requires EntryOf(b, p)
    ensures EntryOf(LiveEntry(cfg, b, p, answers, now).0, p)
  {
    hide LiveFill, LiveStatus, Arm;
    if answers != [] {
      LiveFillIsReported(b, p, answers, now);
      var b1 := LiveFill(b, p, answers, now).0;
      LiveStatusKeepsFill(b1, p, answers);
      var b2 := LiveStatus(b1, p, answers).0;
      if cfg.brackets {
        ArmUntouched(b2, p, DefaultSpec(cfg).value, now, p);
      }
    }
  }

  lemma FillOfSame(r: Row, r': Row, answers: seq<LiveRow>, now: Time)
    requires SameOrder(r, r') && SameFill(r, r')
    ensures Delta(r', answers) == Delta(r, answers) && PriceOf(r', answers) == PriceOf(r, answers)
    ensures TakenSize(r', Delta(r, answers)) == TakenSize(r, Delta(r, answers))
    ensures SameFill(Fill(r', Delta(r, answers), PriceOf(r, answers), now),
                     Fill(r, Delta(r, answers), PriceOf(r, answers), now))
  {
    hide Round8, TotalFilled, LastPrice, NewAverage;
    assert TakenSize(r', Delta(r, answers)) == TakenSize(r, Delta(r, answers));
    var x := TakenSize(r, Delta(r, answers));
    hide TakenSize;
    if x > 0.0 {
      SameNewAverage(r, r', PriceOf(r, answers), x);
    }
  }

  /** A whole pass fills the entry as answered and leaves its take-profit on guard. */
  lemma AskedSweep(cfg: Config, b: Book, p: OrderId, c: OrderId, trigger: real, answers: seq<LiveRow>, now: Time)
    requires Inv(b) && Guards(b, p, c, trigger) && LiveManaged(cfg, b.rows[p]) && !Final(b.rows[p].status)
    requires var r := b.rows[p]; answers != [] && Delta(r, answers) > 0.0 && TakenSize(r, Delta(r, answers)) > 0.0
    ensures var r, b' := b.rows[p], Onward(cfg, b, [Sweep(AskWorld(p, answers, now))]);
            && Inv(b') && Guards(b', p, c, trigger) && LiveManaged(cfg, b'.rows[p]) && SameOrder(r, b'.rows[p])
            && SameFill(Fill(r, Delta(r, answers), PriceOf(r, answers), now), b'.rows[p])
  {
    hide Inv, OrderInvariants.Moves, Run, Flat, Pass, PassVisit, Fill, Delta, PriceOf, TakenSize, CalmBeside, CalmSelf;
    hide SameFill, AskWorld, Final, LiveManaged;
    var w := AskWorld(p, answers, now);
    SweepIsPass(cfg, b, w);
    GuardsArmed(b, p, c, trigger);
    AskIsCalm(b, p, c, answers, now);
    PassLeavesArmed(cfg, b, b.keys, w, p, c);
    var b' := Pass(cfg, b, b.keys, w).0;
    MovedRow(b, b', p);
    SameManaged(cfg, b.rows[p], b'.rows[p]);
    GuardsStay(b, b', p, c, trigger);
    AskedPass(cfg, b, p, answers, now);
  }

  lemma SameManaged(cfg: Config, r: Row, r': Row)
    requires SameOrder(r, r')
    ensures LiveManaged(cfg, r') <==> LiveManaged(cfg, r)
  {}

  lemma AskedPass(cfg: Config, b: Book, p: OrderId, answers: seq<LiveRow>, now: Time)
    requires Inv(b) && p in b.rows && b.rows[p].kind == Entry && LiveManaged(cfg, b.rows[p])
    requires !Final(b.rows[p].status)
    requires var r := b.rows[p]; answers != [] && Delta(r, answers) > 0.0 && TakenSize(r, Delta(r, answers)) > 0.0
    ensures var r, b' := b.rows[p], Pass(cfg, b, b.keys, AskWorld(p, answers, now)).0;
            p in b'.rows && SameFill(Fill(r, Delta(r, answers), PriceOf(r, answers), now), b'.rows[p])
  {
    hide Inv, OrderInvariants.Moves, Pass, PassVisit, Fill, Delta, PriceOf, TakenSize;
    var w, r := AskWorld(p, answers, now), b.rows[p];
    var first, rest := KeyAt(b, p);
    PassAround(cfg, b, first, p, rest, w);
    PassMoves(cfg, b, first, w);
    PassLeavesEntry(cfg, b, first, w, p);
    var b1 := Pass(cfg, b, first, w).0;
    MovedRow(b, b1, p);
    EntryFacts(b1, p);
    FillOfSame(r, b1.rows[p], answers, now);
    SameManaged(cfg, r, b1.rows[p]);
    AskedVisit(cfg, b1, p, answers, now);
    VisitMoves(cfg, b1, p, w);
    PassLeavesEntry(cfg, PassVisit(cfg, b1, p, w).0, rest, w, p);
  }

  lemma VisitMoves(cfg: Config, b: Book, id: OrderId, w: World)
    requires Inv(b)
    ensures Inv(PassVisit(cfg, b, id, w).0)
  {
    hide Inv, OrderInvariants.Moves, PassVisit, VisitActions, Run;
    VisitRuns(cfg, b, id, w);
    RunMoves(cfg, b, VisitActions(cfg, b, id, w));
  }

  // ----- filling the rest -------------------------------------------------------------------------

  lemma LedgerRest(b: Book, p: OrderId)
    requires Inv(b) && p in b.rows && b.rows[p].remaining != 0.0
    ensures b.rows[p].remaining > 0.0
  {
    ShapeAt(b, p);
    Round8Facts(Max(b.rows[p].size - b.rows[p].filled, 0.0));
    hide Inv, Round8, OnGrid;
  }

  lemma CompleteHasAverage(b: Book, p: OrderId)
    requires Inv(b) && p in b.rows && b.rows[p].kind == Entry && b.rows[p].remaining == 0.0
    ensures b.rows[p].average.Some?
  {
    ShapeAt(b, p);
    var r := b.rows[p];
    Round8Facts(Max(r.size - r.filled, 0.0));
    hide Inv, Round8, OnGrid;
  }

  /** The exchange reports the rest of the order filled, at a price or without one. */
  function RestAnswer(r: Row, price: Option<real>): seq<LiveRow> {
    [LiveRow(false, false, r.filled + r.remaining, price)]
  }

  lemma RestFacts(r: Row, price: Option<real>)
    requires r.remaining > 0.0
    ensures var answers := RestAnswer(r, price);
            && TotalFilled(answers) == r.filled + r.remaining && Delta(r, answers) == r.remaining
            && PriceOf(r, answers) == OrElse(price, ActivePrice(r))
  {
    assert RestAnswer(r, price)[..0] == [];
    assert LastPrice([], ActivePrice(r)) == ActivePrice(r);
  }

  /** If filling the rest at that price makes the average exceed the trigger, two passes lose. */
  lemma RestLoses(cfg: Config, b: Book, p: OrderId, c: OrderId, trigger: real, top: real, grid: bool, price: real,
                  now: Time) returns (w: Way)
    requires Inv(b) && Guards(b, p, c, trigger) && LiveManaged(cfg, b.rows[p]) && !Final(b.rows[p].status)
    requires var r := b.rows[p];
             && r.remaining > 0.0 && price <= top && (grid ==> OnGrid(r.filled + r.remaining))
             && NewAverage(r, price, r.remaining) > trigger
    ensures Loses(cfg, b, p, c, top, grid, w) && Plain(cfg, b, p, trigger, w)
  {
    hide Inv, Run, Fill, NewAverage, Delta, PriceOf, OnGrid, LedgerOk, TakenSize, TotalFilled, RestAnswer, Onward, Flat;
    hide Within, Loses, Plain, AskWorld, WorldWithin;
    var r := b.rows[p];
    var answers := RestAnswer(r, Some(price));
    RestFacts(r, Some(price));
    LedgerAt(b, p);
    RestCompletes(r, r.remaining, price, now);
    RestTaken(r);
    RestWithin(r, Some(price), top, grid);
    AskedSweep(cfg, b, p, c, trigger, answers, now);
    AskedWithin(cfg, b, p, answers, now, top, grid);
    w := FiredLoses(cfg, b, [Sweep(AskWorld(p, answers, now))], p, c, trigger, top, grid);
  }

  lemma AskedWithin(cfg: Config, b: Book, p: OrderId, answers: seq<LiveRow>, now: Time, top: real, grid: bool)
    requires Known(b, p) && AnswersWithin(answers, top, grid)
    ensures Within(cfg, b.rows[p], Flat(cfg, b, [Sweep(AskWorld(p, answers, now))]), top, grid)
  {
    hide Within, AnswersWithin;
    FlatOne(cfg, b, Sweep(AskWorld(p, answers, now)));
    PassWithin(cfg, b, b.keys, AskWorld(p, answers, now), b.rows[p], top, grid);
    hide Flat;
  }

  lemma RestTaken(r: Row)
    requires r.remaining > 0.0
    ensures TakenSize(r, r.remaining) > 0.0
  {}

  lemma RestWithin(r: Row, price: Option<real>, top: real, grid: bool)
    requires price.Some? ==> price.value <= top
    requires r.remaining > 0.0 && (grid ==> OnGrid(r.filled + r.remaining))
    ensures RestAnswer(r, price) != [] && AnswersWithin(RestAnswer(r, price), top, grid)
  {
    RestFacts(r, price);
    hide OnGrid, TotalFilled;
  }

  // ----- what keeps an entry safe -----------------------------------------------------------------

  /** Even with the rest filled at `top` the average stays within `t`. */
  ghost predicate Spare(r: Row, top: real, t: real) {
    && r.filled > 0.0 && r.average.Some?
    && Mul(r.average.value, r.filled) + Mul(top, r.remaining) <= Mul(t, r.filled + r.remaining)
  }

  /** No fill to come can push the average above `t`. */
  ghost predicate Contained(r: Row, top: real, t: real, grid: bool) {
    && r.price <= top && (r.average.Some? ==> r.average.value <= t)
    && (r.remaining > 0.0 ==> top <= t || (grid && OnGrid(r.size) && Spare(r, top, t)))
  }

  /** On the grid a fill is exact, but for the last unit. */
  lemma GridFill(r: Row, size: real, price: real, now: Time)
    requires LedgerOk(r) && OnGrid(r.size) && OnGrid(size) && r.filled > 0.0 && TakenSize(r, size) > 0.0
    ensures var r', x := Fill(r, size, price, now), TakenSize(r, size);
            && r'.filled == r.filled + x && x <= r.remaining && OnGrid(r.filled + x)
            && (r'.remaining == r.remaining - x || r'.remaining == 0.0)
  {
    hide LedgerOk, Round8, OnGrid, NewAverage;
    var x := TakenSize(r, size);
    TakenOnGrid(r, size);
    GridRest(r);
    Round8OfGrid(r.filled + x);
    GridDifference(r.size, r.filled + x);
    Round8OfGrid(r.size - (r.filled + x));
  }

  lemma FillContained(r: Row, size: real, price: real, now: Time, top: real, t: real, grid: bool)
    requires LedgerOk(r) && Contained(r, top, t, grid) && (grid ==> OnGrid(size))
    requires price <= top || (r.average.Some? && price == r.average.value)
    ensures Contained(Fill(r, size, price, now), top, t, grid)
  {
    hide Spare, OnGrid, LedgerOk;
    FillKeepsOrder(r, size, price, now);
    if TakenSize(r, size) > 0.0 {
      RemainsToTake(r, size);
      if top <= t {
        var low := Min(price, OrElse(r.average, price));
        FillAverage(r, size, price, now, low, t);
      } else {
        SpareFill(r, size, price, now, top, t);
      }
    }
    hide Fill, TakenSize;
  }

  lemma RemainsToTake(r: Row, size: real)
    requires TakenSize(r, size) > 0.0
    ensures r.remaining > 0.0
  {}

  lemma SpareFill(r: Row, size: real, price: real, now: Time, top: real, t: real)
    requires LedgerOk(r) && OnGrid(r.size) && OnGrid(size) && TakenSize(r, size) > 0.0 && price <= top && t < top
    requires Spare(r, top, t) && (r.average.Some? ==> r.average.value <= t)
    ensures var r' := Fill(r, size, price, now);
            r'.average.Some? && r'.average.value <= t && (r'.remaining > 0.0 ==> Spare(r', top, t))
  {
    hide LedgerOk, OnGrid, Fill, TakenSize, Mul;
    var x, r' := TakenSize(r, size), Fill(r, size, price, now);
    GridFill(r, size, price, now);
    FillAverage(r, size, price, now, Min(price, r.average.value), top);
    var total, rest := r.filled + x, r.remaining - x;
    Round8OfGrid(total);
    MulMonotone(price, top, x);
    Distribute(top, x, rest);
    Distribute(t, total, rest);
    MulMonotone(t, top, rest);
    MulStrict(t, r'.average.value, total);
    hide Round8;
  }

  lemma {:induction false} LastPriceWithin(answers: seq<LiveRow>, default: real, top: real)
    requires forall x :: x in answers && x.average.Some? ==> x.average.value <= top
    ensures LastPrice(answers, default) <= top || LastPrice(answers, default) == default
  {
    if answers == [] {
    } else {
      assert answers[|answers| - 1] in answers;
      LastPriceWithin(answers[..|answers| - 1], default, top);
    }
  }

  lemma AnswerContained(r: Row, answers: seq<LiveRow>, now: Time, top: real, t: real, grid: bool)
    requires LedgerOk(r) && Contained(r, top, t, grid) && AnswersWithin(answers, top, grid)
    ensures Delta(r, answers) > 0.0 ==>
              Contained(Fill(r, Delta(r, answers), PriceOf(r, answers), now), top, t, grid)
  {
    hide Fill, TotalFilled, LastPrice, OnGrid, Spare;
    LastPriceWithin(answers, ActivePrice(r), top);
    if Delta(r, answers) > 0.0 {
      if grid {
        FilledOnGrid(r);
        GridDifference(TotalFilled(answers), r.filled);
      }
      FillContained(r, Delta(r, answers), PriceOf(r, answers), now, top, t, grid);
    }
  }

  lemma FilledOnGrid(r: Row)
    requires LedgerOk(r)
    ensures OnGrid(r.filled)
  {
    hide OnGrid, Round8;
  }

  // ----- over every run ---------------------------------------------------------------------------

  /** Nothing but an answer about it changes the ledger of an entry that is managed on the exchange. */
  lemma OnlyAnswersFill(cfg: Config, b: Book, a: Action, p: OrderId)
    requires Inv(b) && p in b.rows && b.rows[p].kind == Entry && LiveManaged(cfg, b.rows[p])
    requires !(a.On? && a.id == p && a.touch.Answer?)
    ensures var b' := Step(cfg, b, a).0; p in b'.rows && SameLedger(b.rows[p], b'.rows[p])
  {
    hide Inv;
    EntryFacts(b, p);
    if !About(a, p) {
      OthersLeaveAlone(cfg, b, a, p);
      hide Step;
    } else if a.Cancel? {
      CancelKeepsFill(cfg, b, p, a.exchangeOk);
      hide CancelOrder;
    } else if a.touch.Late? {
      RearmUntouched(cfg, b, p, a.touch.now, p);
      hide Rearm;
    } else {
      hide VisitChild, VisitLocalEntry, LiveEntry, Rearm;
    }
  }

  lemma ContainedSame(r: Row, r': Row, top: real, t: real, grid: bool)
    requires Contained(r, top, t, grid) && SameLedger(r, r') && r'.price == r.price
    ensures Contained(r', top, t, grid)
  {
    hide OnGrid;
  }

  lemma StepContained(cfg: Config, b: Book, a: Action, p: OrderId, top: real, t: real, grid: bool)
    requires Inv(b) && p in b.rows && b.rows[p].kind == Entry && LiveManaged(cfg, b.rows[p])
    requires Contained(b.rows[p], top, t, grid) && Priced(cfg, b.rows[p], a, top, grid)
    ensures var b' := Step(cfg, b, a).0; p in b'.rows && Contained(b'.rows[p], top, t, grid)
  {
    hide Inv, Step, Contained, Fill, Delta, PriceOf, AnswersWithin, LedgerOk, OrderInvariants.Moves;
    var r := b.rows[p];
    EntryFacts(b, p);
    LedgerAt(b, p);
    StepMoves(cfg, b, a);
    MovedRow(b, Step(cfg, b, a).0, p);
    var r' := Step(cfg, b, a).0.rows[p];
    if a.On? && a.id == p && a.touch.Answer? {
      var answers := a.touch.answers;
      AnswerFills(cfg, b, p, answers, a.touch.now);
      AnswerContained(r, answers, a.touch.now, top, t, grid);
      FillKeepsOrder(r, Delta(r, answers), PriceOf(r, answers), a.touch.now);
      var o := if answers != [] && Delta(r, answers) > 0.0
               then Fill(r, Delta(r, answers), PriceOf(r, answers), a.touch.now) else r;
      ContainedSame(o, r', top, t, grid);
    } else {
      OnlyAnswersFill(cfg, b, a, p);
      ContainedSame(r, r', top, t, grid);
    }
  }

  lemma {:induction false} RunContained(cfg: Config, b: Book, actions: seq<Action>, p: OrderId, top: real, t: real,
                                        grid: bool)
    requires Inv(b) && p in b.rows && b.rows[p].kind == Entry && LiveManaged(cfg, b.rows[p])
    requires Contained(b.rows[p], top, t, grid) && Within(cfg, b.rows[p], actions, top, grid)
    ensures var b' := Run(cfg, b, actions).0; p in b'.rows && Contained(b'.rows[p], top, t, grid)
  {
    hide Inv, Step, Contained, Priced, OrderInvariants.Moves;
    if actions == [] {
    } else {
      var init, a := actions[..|actions| - 1], actions[|actions| - 1];
      assert actions == init + [a] && a in actions;
      assert forall x :: x in init ==> x in actions;
      RunContained(cfg, b, init, p, top, t, grid);
      RunMoves(cfg, b, init);
      var b1 := Run(cfg, b, init).0;
      MovedRow(b, b1, p);
      PricedSame(cfg, b.rows[p], b1.rows[p], a, top, grid);
      StepContained(cfg, b1, a, p, top, t, grid);
    }
  }

  /** No continuation brings the average of a contained entry above `t`. */
  lemma ContainedIsBounded(cfg: Config, b: Book, p: OrderId, top: real, t: real, grid: bool)
    requires Inv(b) && p in b.rows && b.rows[p].kind == Entry && LiveManaged(cfg, b.rows[p])
    requires Contained(b.rows[p], top, t, grid)
    ensures Bounded(cfg, b, p, top, t, grid)
  {
    hide Inv, Run, Flat, Within, Contained;
    forall ss | Within(cfg, b.rows[p], Flat(cfg, b, ss), top, grid)
      ensures p in Onward(cfg, b, ss).rows && OrElse(Onward(cfg, b, ss).rows[p].average, t) <= t
    {
      RunContained(cfg, b, Flat(cfg, b, ss), p, top, t, grid);
      ContainedAverage(Onward(cfg, b, ss).rows[p], top, t, grid);
    }
  }

  lemma ContainedAverage(r: Row, top: real, t: real, grid: bool)
    requires Contained(r, top, t, grid)
    ensures r.average.Some? ==> r.average.value <= t
  {}

  // ----- reports in whole units -------------------------------------------------------------------

  /** The highest average an entry can still end with: as it is, or with the rest filled at `top`. */
  function WorstAverage(r: Row, top: real): real {
    if r.remaining > 0.0 then
      var a := NewAverage(r, top, r.remaining);
      Max(a, OrElse(r.average, a))
    else OrElse(r.average, top)
  }

  lemma WorstIsContained(r: Row, top: real, t: real)
    requires LedgerOk(r) && OnGrid(r.size) && r.price <= top && WorstAverage(r, top) <= t
    requires r.remaining <= 0.0 ==> r.average.Some?
    ensures Contained(r, top, t, true)
  {
    hide OnGrid, Mul, NewAverage;
    if r.remaining > 0.0 {
      if r.filled > 0.0 {
        AverageWorth(r, top, r.remaining);
        MulMonotone(NewAverage(r, top, r.remaining), t, r.filled + r.remaining);
      } else {
        FirstAverage(r, top, r.remaining);
      }
    }
  }

  lemma WholeOnGrid(r: Row)
    requires LedgerOk(r) && OnGrid(r.size) && r.remaining > 0.0
    ensures OnGrid(r.filled + r.remaining)
  {
    Round8Facts(Max(r.size - r.filled, 0.0));
    if r.filled != 0.0 {
      GridSum(r.filled, r.remaining);
    }
    hide Round8, OnGrid;
  }

  /** Exactly when a live entry that is open can lose, if the exchange reports whole units of 1e-8 and charges at most
      `top`: when its average, as it is or with the rest filled at `top`, is above the trigger. */
  lemma GridSafeExactly(cfg: Config, b: Book, p: OrderId, c: OrderId, trigger: real, top: real)
    requires Inv(b) && Guards(b, p, c, trigger) && LiveManaged(cfg, b.rows[p]) && !Final(b.rows[p].status)
    requires OnGrid(b.rows[p].size) && b.rows[p].price <= top
    ensures CanLose(cfg, b, p, c, top, true) <==> WorstAverage(b.rows[p], top) > trigger
  {
    hide Inv, OnGrid, NewAverage, Bounded, WorstAverage, Loses;
    if WorstAverage(b.rows[p], top) > trigger {
      var w := GridUnsafeLoses(cfg, b, p, c, trigger, top, 0.0);
    } else {
      GridIsBounded(cfg, b, p, top, trigger);
      BoundedIsSafe(cfg, b, p, c, trigger, top, true);
    }
  }

  lemma GridIsBounded(cfg: Config, b: Book, p: OrderId, top: real, t: real)
    requires Inv(b) && p in b.rows && b.rows[p].kind == Entry && LiveManaged(cfg, b.rows[p])
    requires OnGrid(b.rows[p].size) && b.rows[p].price <= top && WorstAverage(b.rows[p], top) <= t
    ensures Bounded(cfg, b, p, top, t, true)
  {
    hide Inv, LedgerOk, OnGrid, WorstAverage, Contained, Bounded;
    LedgerAt(b, p);
    CompleteAverage(b, p);
    WorstIsContained(b.rows[p], top, t);
    ContainedIsBounded(cfg, b, p, top, t, true);
  }

  lemma CompleteAverage(b: Book, p: OrderId)
    requires Inv(b) && p in b.rows && b.rows[p].kind == Entry
    ensures b.rows[p].remaining <= 0.0 ==> b.rows[p].remaining == 0.0 && b.rows[p].average.Some?
  {
    hide Inv;
    if b.rows[p].remaining == 0.0 {
      CompleteHasAverage(b, p);
    } else {
      LedgerRest(b, p);
    }
  }

  lemma GridUnsafeLoses(cfg: Config, b: Book, p: OrderId, c: OrderId, trigger: real, top: real, now: Time)
    returns (w: Way)
    requires Inv(b) && Guards(b, p, c, trigger) && LiveManaged(cfg, b.rows[p]) && !Final(b.rows[p].status)
    requires OnGrid(b.rows[p].size) && WorstAverage(b.rows[p], top) > trigger
    ensures Loses(cfg, b, p, c, top, true, w) && Plain(cfg, b, p, trigger, w)
  {
    hide Inv, LedgerOk, OnGrid, NewAverage, Loses, Plain;
    LedgerAt(b, p);
    CompleteAverage(b, p);
    var r := b.rows[p];
    if OrElse(r.average, trigger) > trigger {
      w := NowLoses(cfg, b, p, c, trigger, top, true);
    } else {
      WholeOnGrid(r);
      w := RestLoses(cfg, b, p, c, trigger, top, true, top, now);
    }
  }

  // ----- any reports ------------------------------------------------------------------------------

  const DUST := UNIT / 4.0

  /** The exchange reports a quarter of a unit more than is booked. The fill is rounded away, but not the average. */
  function DustAnswer(r: Row, price: real): seq<LiveRow> {
    [LiveRow(false, false, r.filled + DUST, Some(price))]
  }

  lemma DustFacts(r: Row, price: real)
    ensures var answers := DustAnswer(r, price);
            && TotalFilled(answers) == r.filled + DUST && Delta(r, answers) == DUST && PriceOf(r, answers) == price
            && AnswersWithin(answers, price, false) && answers != []
  {
    assert DustAnswer(r, price)[..0] == [];
  }

  lemma DustFill(r: Row, price: real, now: Time)
    requires LedgerOk(r) && r.filled > 0.0 && r.remaining > 0.0
    ensures TakenSize(r, DUST) == DUST
    ensures var r' := Fill(r, DUST, price, now);
            && r'.filled == r.filled && r'.remaining == r.remaining && r'.average == Some(NewAverage(r, price, DUST))
            && r'.status == PartiallyFilled
  {
    FilledOnGrid(r);
    Round8Facts(r.filled + DUST);
    GridDifference(Round8(r.filled + DUST), r.filled);
    GridZeroOrUnit(Round8(r.filled + DUST) - r.filled);
    hide Round8, OnGrid, NewAverage;
  }

  /** What stays and what moves while the same dust is reported over and over. */
  ghost predicate Dusted(r: Row, r': Row, top: real, n: nat) {
    && SameOrder(r, r') && r'.size == r.size && r'.filled == r.filled && r'.remaining == r.remaining
    && r.average.Some? && r'.average.Some? && r'.average.value <= top
    && Mul(top - r'.average.value, r.filled + Mul(n as real, DUST)) <= Mul(top - r.average.value, r.filled)
  }

  /** One more pass with the same dust. */
  lemma DustStep(cfg: Config, b: Book, p: OrderId, c: OrderId, trigger: real, r: Row, top: real, now: Time, n: nat)
    requires Inv(b) && Guards(b, p, c, trigger) && LiveManaged(cfg, b.rows[p]) && !Final(b.rows[p].status)
    requires r.filled > 0.0 && r.remaining > 0.0 && Dusted(r, b.rows[p], top, n)
    ensures var b' := Onward(cfg, b, [Sweep(AskWorld(p, DustAnswer(r, top), now))]);
            && Inv(b') && Guards(b', p, c, trigger) && LiveManaged(cfg, b'.rows[p]) && !Final(b'.rows[p].status)
            && Dusted(r, b'.rows[p], top, n + 1)
  {
    hide Inv, LedgerOk, Onward, Fill, Delta, PriceOf, TakenSize, DustAnswer, NewAverage, AskWorld;
    var o := b.rows[p];
    LedgerAt(b, p);
    SameDust(r, o, top);
    DustFacts(o, top);
    DustFill(o, top, now);
    FillKeepsOrder(o, DUST, top, now);
    AskedSweep(cfg, b, p, c, trigger, DustAnswer(r, top), now);
    AverageWorth(o, top, DUST);
    var a := NewAverage(o, top, DUST);
    hide Mul;
    MeanCloser(o.average.value, a, top, o.filled, DUST);
    Approaches(top - o.average.value, top - a, r.filled, DUST, n, Mul(top - r.average.value, r.filled));
  }

  lemma SameDust(r: Row, r': Row, top: real)
    requires r'.filled == r.filled
    ensures DustAnswer(r', top) == DustAnswer(r, top)
  {}

  /** The same dust in `n` passes. */
  function DustPasses(r: Row, top: real, now: Time, n: nat): seq<Stroke> {
    seq(n, _ => Sweep(AskWorld(r.id, DustAnswer(r, top), now)))
  }

  lemma DustMore(r: Row, top: real, now: Time, n: nat)
    requires n > 0
    ensures DustPasses(r, top, now, n)
            == DustPasses(r, top, now, n - 1) + [Sweep(AskWorld(r.id, DustAnswer(r, top), now))]
    ensures Placeless(DustPasses(r, top, now, n))
  {}

  lemma {:induction false} DustRun(cfg: Config, b: Book, p: OrderId, c: OrderId, trigger: real, top: real, now: Time,
                                   n: nat)
    requires Inv(b) && Guards(b, p, c, trigger) && LiveManaged(cfg, b.rows[p]) && !Final(b.rows[p].status)
    requires var r := b.rows[p]; r.filled > 0.0 && r.remaining > 0.0 && r.average.Some? && r.average.value <= top
    ensures Known(b, p)
    ensures var ss := DustPasses(b.rows[p], top, now, n);
            var b' := Onward(cfg, b, ss);
            && Inv(b') && Guards(b', p, c, trigger) && LiveManaged(cfg, b'.rows[p]) && !Final(b'.rows[p].status)
            && Dusted(b.rows[p], b'.rows[p], top, n)
            && Within(cfg, b.rows[p], Flat(cfg, b, ss), top, false) && Placeless(ss)
  {
    hide Inv, Onward, Flat, DustAnswer, Mul, Within, DustPasses, AskWorld, LedgerOk, AnswersWithin;
    LedgerAt(b, p);
    var r := b.rows[p];
    if n == 0 {
      NoDust(cfg, b, r, top, now);
      MulUnits(DUST);
    } else {
      var init, s := DustPasses(r, top, now, n - 1), Sweep(AskWorld(p, DustAnswer(r, top), now));
      DustRun(cfg, b, p, c, trigger, top, now, n - 1);
      DustMore(r, top, now, n);
      var m := Onward(cfg, b, init);
      DustStep(cfg, m, p, c, trigger, r, top, now, n - 1);
      FlatAppend(cfg, b, init, [s]);
      DustFacts(r, top);
      LedgerAt(m, p);
      AskedWithin(cfg, m, p, DustAnswer(r, top), now, top, false);
      WithinSame(cfg, r, m.rows[p], Flat(cfg, m, [s]), top, false);
      WithinAppend(cfg, r, Flat(cfg, b, init), Flat(cfg, m, [s]), top, false);
      hide Dusted;
    }
  }

  lemma NoDust(cfg: Config, b: Book, r: Row, top: real, now: Time)
    ensures DustPasses(r, top, now, 0) == [] && Onward(cfg, b, []) == b && Flat(cfg, b, []) == []
    ensures Within(cfg, r, [], top, false) && Placeless([])
  {
    FlatNone(cfg, b);
    NothingWithin(cfg, r, top, false);
    hide Within;
  }

  /** Whenever something remains and `top` is above the trigger, the average can be brought above it. */
  lemma DustLoses(cfg: Config, b: Book, p: OrderId, c: OrderId, trigger: real, top: real, now: Time) returns (w: Way)
    requires Inv(b) && Guards(b, p, c, trigger) && LiveManaged(cfg, b.rows[p]) && !Final(b.rows[p].status)
    requires var r := b.rows[p];
             r.filled > 0.0 && r.remaining > 0.0 && r.average.Some? && r.average.value <= top && top > trigger
    ensures Loses(cfg, b, p, c, top, false, w) && Plain(cfg, b, p, trigger, w)
  {
    hide Inv, Onward, Flat, DustPasses, Mul, Within, Loses, Plain;
    var r := b.rows[p];
    var n := EnoughSteps(top - trigger, r.filled, DUST, Mul(top - r.average.value, r.filled));
    DustRun(cfg, b, p, c, trigger, top, now, n);
    var ss := DustPasses(r, top, now, n);
    var b1 := Onward(cfg, b, ss);
    if b1.rows[p].average.value <= trigger {
      MulSigns(n as real, DUST);
      MulMonotone(top - trigger, top - b1.rows[p].average.value, r.filled + Mul(n as real, DUST));
    }
    w := FiredLoses(cfg, b, ss, p, c, trigger, top, false);
  }

  /** Exactly when a live entry that is open can lose, whatever the exchange reports, if it charges at most `top`: when
      it has been bought above the trigger, or something remains and `top` is above the trigger. */
  lemma AnySafeExactly(cfg: Config, b: Book, p: OrderId, c: OrderId, trigger: real, top: real)
    requires Inv(b) && Guards(b, p, c, trigger) && LiveManaged(cfg, b.rows[p]) && !Final(b.rows[p].status)
    requires b.rows[p].price <= top
    ensures var r := b.rows[p];
            CanLose(cfg, b, p, c, top, false)
            <==> OrElse(r.average, trigger) > trigger || (r.remaining > 0.0 && top > trigger)
  {
    hide Inv, Bounded, Loses;
    var r := b.rows[p];
    if OrElse(r.average, trigger) > trigger || (r.remaining > 0.0 && top > trigger) {
      var w := AnyUnsafeLoses(cfg, b, p, c, trigger, top, 0.0);
    } else {
      AnyIsBounded(cfg, b, p, top, trigger);
      BoundedIsSafe(cfg, b, p, c, trigger, top, false);
    }
  }

  lemma AnyIsBounded(cfg: Config, b: Book, p: OrderId, top: real, t: real)
    requires Inv(b) && p in b.rows && b.rows[p].kind == Entry && LiveManaged(cfg, b.rows[p]) && b.rows[p].price <= top
    requires OrElse(b.rows[p].average, t) <= t && (b.rows[p].remaining > 0.0 ==> top <= t)
    ensures Bounded(cfg, b, p, top, t, false)
  {
    hide Inv, Bounded;
    ContainedIsBounded(cfg, b, p, top, t, false);
  }

  lemma AnyUnsafeLoses(cfg: Config, b: Book, p: OrderId, c: OrderId, trigger: real, top: real, now: Time)
    returns (w: Way)
    requires Inv(b) && Guards(b, p, c, trigger) && LiveManaged(cfg, b.rows[p]) && !Final(b.rows[p].status)
    requires var r := b.rows[p]; OrElse(r.average, trigger) > trigger || (r.remaining > 0.0 && top > trigger)
    ensures Loses(cfg, b, p, c, top, false, w) && Plain(cfg, b, p, trigger, w)
  {
    hide Inv, Loses, Plain, LedgerOk, NewAverage;
    var r := b.rows[p];
    LedgerAt(b, p);
    LedgerAverage(r);
    if OrElse(r.average, trigger) > trigger {
      w := NowLoses(cfg, b, p, c, trigger, top, false);
    } else if r.filled <= 0.0 {
      FirstAverage(r, top, r.remaining);
      w := RestLoses(cfg, b, p, c, trigger, top, false, top, now);
    } else {
      w := DustLoses(cfg, b, p, c, trigger, top, now);
    }
  }
}
