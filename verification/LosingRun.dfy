/** A whole run of the desk from nothing to a take-profit that closes its trade at a loss. */
module LosingRun {
  import opened Options
  import opened Rounding
  import opened Orders
  import opened OrderInvariants
  import opened OrderRuns
  import opened Passes
  import opened Tracker
  import opened Lifecycle
  import opened Desk
  import opened BracketExits

  /** Paper trading that fills half an order per pass, with brackets at +6% and -3.5% and a tolerance of 0.002. */
  predicate HalfFills(cfg: Config) {
    && PaperMode(cfg) && cfg.brackets && !cfg.fillOnPlace && cfg.allowPartial && cfg.partialRatio == 0.5
    && cfg.tolerance == 0.002 && cfg.takeProfitPct == 0.06 && cfg.stopLossPct == 0.035
    && cfg.maxOrder >= 100.0 && cfg.ttlMinutes >= 0
  }

  const REQUEST := Request("m", "t", "YES", 100.0, 0.5, None)

  /** A pass that sees one quote for the market, at time zero, on paper only. */
  function Seen(midpoint: real, bid: real, ask: real): World {
    World(map["m" := Quote(Some(midpoint), Some(bid), Some(ask))], 0.0,
          (k: OrderId) => [], (k: OrderId) => [])
  }

  /** The market first trades at 0.40, then at 0.50, and then falls back to a bid of 0.424. */
  function FirstView(): World { Seen(0.40, 0.39, 0.41) }
  function SecondView(): World { Seen(0.50, 0.42, 0.58) }
  function ThirdView(): World { Seen(0.43, 0.424, 0.436) }

  ghost function OnePass(cfg: Config, b: Orders.Book, w: World): Move {
    Cycle(PassActions(cfg, b, b.keys, w))
  }

  // ----- placement --------------------------------------------------------------------------------

  function Entry(cfg: Config): Row {
    EntryRow(cfg, 0, REQUEST, 0.0)
  }

  function Placed(cfg: Config): Orders.Book {
    Book(map[0 := Entry(cfg)], [0], 1)
  }

  lemma PlacedTable(cfg: Config)
    requires HalfFills(cfg)
    ensures Step(cfg, EMPTY_BOOK, Place(REQUEST, false, 0.0)).0 == Placed(cfg)
    ensures Acceptable(cfg, false, REQUEST) && LimitPrice(REQUEST) == 0.499
  {}

  // ----- the first pass: half is bought at 0.40, the take-profit is set at 0.424 ------------------

  /** The entry, with half of it bought at 0.40. */
  ghost predicate HalfRow(r: Row) {
    && r.id == 0 && r.kind == Orders.Entry && r.isPaper && r.status == PartiallyFilled
    && r.size == 100.0 && r.filled == 50.0 && r.remaining == 50.0 && r.average == Some(0.4) && r.price == 0.499
    && r.market == "m" && r.direction == "YES"
  }

  ghost predicate ChildRow(cfg: Config, r: Row, id: OrderId, kind: Kind, trigger: Orders.Trigger) {
    && r.id == id && r.kind == kind && r.status == Armed && r.market == "m" && r.direction == "YES"
    && r.trigger == Some(trigger) && r.parent == Some(0) && r.expiry == Some(0.0 + 60.0 * cfg.ttlMinutes as real)
  }

  /** The whole table: the entry and its armed children. */
  ghost predicate Bracketed(cfg: Config, b: Orders.Book) {
    && b.keys == [0, 2, 3] && 0 in b.rows && 2 in b.rows && 3 in b.rows && b.rows[0].bracketIds == [2, 3]
    && ChildRow(cfg, b.rows[2], 2, TakeProfit, AtLeast(0.424)) && ChildRow(cfg, b.rows[3], 3, StopLoss, AtMost(0.386))
  }

  lemma FillHalf(r: Row, price: real)
    requires r.size == 100.0 && r.filled == 0.0 && r.remaining == 100.0
    ensures Fill(r, 50.0, price, 0.0)
            == r.(average := Some(price), filled := 50.0, remaining := 50.0, lastFillAt := Some(0.0),
                  status := PartiallyFilled)
  {
    RoundOfInt(5000000000);
    assert Round8(50.0) == 50.0;
    hide Round8;
  }

  /** The entry after the first pass bought half of it at 0.40. */
  function HalfEntry(cfg: Config): Row {
    Entry(cfg).(average := Some(0.4), filled := 50.0, remaining := 50.0, lastFillAt := Some(0.0),
                status := PartiallyFilled)
  }

  lemma FirstFill(cfg: Config)
    requires HalfFills(cfg)
    ensures var r := HalfEntry(cfg);
            PaperEntryFill(cfg, Placed(cfg), 0, FirstView().quotes["m"], 0.0).0
            == CreateChildren(Book(map[0 := r], [0], 1), r, DefaultSpec(cfg).value, 0.0).0
  {
    FillHalf(Entry(cfg), 0.4);
    PlacedTable(cfg);
    hide Fill, Step, CreateChildren;
    var r := Fill(Entry(cfg), 50.0, 0.4, 0.0);
    assert PaperFillSize(cfg, Entry(cfg)) == 50.0;
    assert map[0 := Entry(cfg)][0 := r] == map[0 := r];
  }

  lemma BracketMade(cfg: Config, r: Row)
    requires HalfFills(cfg) && HalfRow(r)
    ensures var b := CreateChildren(Book(map[0 := r], [0], 1), r, DefaultSpec(cfg).value, 0.0).0;
            Bracketed(cfg, b) && HalfRow(b.rows[0])
  {}

  lemma RearmIdle(cfg: Config, b: Orders.Book, p: OrderId)
    requires Known(b, p) && b.rows[p].bracketIds != []
    ensures Rearm(cfg, b, p, 0.0) == (b, [])
  {}

  lemma FirstPass(cfg: Config)
    requires HalfFills(cfg)
    ensures var b := Pass(cfg, Placed(cfg), [0], FirstView()).0; Bracketed(cfg, b) && HalfRow(b.rows[0])
  {
    FirstFill(cfg);
    PlacedTable(cfg);
    var r := HalfEntry(cfg);
    BracketMade(cfg, r);
    var b1 := PaperEntryFill(cfg, Placed(cfg), 0, FirstView().quotes["m"], 0.0).0;
    hide CreateChildren, PaperEntryFill, LimitPrice, Step, ChildRow;
    RearmIdle(cfg, b1, 0);
    hide Rearm;
    PassOne(cfg, Placed(cfg), 0, FirstView());
  }

  // ----- the second pass: the rest is bought at 0.50, the take-profit stays ----------------------

  ghost predicate FullRow(r: Row) {
    && r.id == 0 && r.kind == Orders.Entry && r.status == Filled && r.remaining == 0.0 && r.average == Some(0.45)
  }

  lemma FillRest(r: Row)
    requires HalfRow(r)
    ensures var r' := Fill(r, 50.0, 0.5, 0.0); FullRow(r') && r'.bracketIds == r.bracketIds
  {
    RoundOfInt(10000000000);
    assert Round8(100.0) == 100.0;
    RoundOfInt(0);
    assert Round8(0.0) == 0.0;
    hide Round8;
    assert TakenSize(r, 50.0) == 50.0 && NewAverage(r, 0.5, 50.0) == 0.45;
    hide NewAverage, TakenSize;
  }

  lemma SecondFill(cfg: Config, b: Orders.Book)
    requires HalfFills(cfg) && Bracketed(cfg, b) && HalfRow(b.rows[0])
    ensures var b' := PaperEntryFill(cfg, b, 0, SecondView().quotes["m"], 0.0).0;
            Bracketed(cfg, b') && FullRow(b'.rows[0])
  {
    var r := b.rows[0];
    FillRest(r);
    assert PaperFillSize(cfg, r) == 50.0;
    hide Fill, PaperFillSize;
    var b1 := Put(b, Fill(r, 50.0, 0.5, 0.0));
    Refreshed(cfg, b1);
    hide Arm;
  }

  lemma NoSync(b: Orders.Book, size: real)
    ensures SyncChildren(b, [], size) == b
  {}

  lemma SyncSnoc(b: Orders.Book, ids: seq<OrderId>, id: OrderId, size: real)
    ensures SyncChildren(b, ids + [id], size) == SyncOne(SyncChildren(b, ids, size), id, size)
  {
    hide SyncOne;
    assert (ids + [id])[..|ids|] == ids;
  }

  /** Arming again resizes the children and nothing else. */
  lemma Refreshed(cfg: Config, b: Orders.Book)
    requires HalfFills(cfg) && Bracketed(cfg, b) && FullRow(b.rows[0])
    ensures var b' := Arm(b, 0, DefaultSpec(cfg).value, 0.0).0; Bracketed(cfg, b') && FullRow(b'.rows[0])
  {
    hide TakeProfitLevel, StopLossLevel;
    var size := ActiveSize(b.rows[0]);
    var b1 := Put(b, WithLevels(b.rows[0], DefaultSpec(cfg).value).(bracketState := BracketArmed));
    assert [] + [2] == [2] && [2] + [3] == [2, 3];
    hide SyncChildren;
    NoSync(b1, size);
    SyncSnoc(b1, [], 2, size);
    SyncSnoc(b1, [2], 3, size);
  }

  lemma NothingFires(cfg: Config, b: Orders.Book, id: OrderId)
    requires HalfFills(cfg) && Bracketed(cfg, b) && (id == 2 || id == 3)
    ensures PassVisit(cfg, b, id, SecondView()) == (b, [])
  {
    hide TriggerChild, ExpireChild;
  }

  lemma SecondPass(cfg: Config, b: Orders.Book)
    requires HalfFills(cfg) && Bracketed(cfg, b) && HalfRow(b.rows[0])
    ensures var b' := Pass(cfg, b, [0, 2, 3], SecondView()).0; Bracketed(cfg, b') && FullRow(b'.rows[0])
  {
    SecondFill(cfg, b);
    PassThree(cfg, b, 0, 2, 3, SecondView());
    var b1 := PaperEntryFill(cfg, b, 0, SecondView().quotes["m"], 0.0).0;
    RearmIdle(cfg, b1, 0);
    NothingFires(cfg, b1, 2);
    NothingFires(cfg, b1, 3);
    hide PaperEntryFill, Rearm, ChildRow, Pass;
    assert PassVisit(cfg, b, 0, SecondView()).0 == b1;
  }

  // ----- the third pass: the take-profit fires at 0.424 -------------------------------------------

  lemma FiresBelowCost(cfg: Config, b: Orders.Book)
    requires HalfFills(cfg) && Bracketed(cfg, b) && FullRow(b.rows[0])
    ensures var es := Pass(cfg, b, [0, 2, 3], ThirdView()).1;
            exists n :: 0 <= n < |es| && es[n].kind == ExitFilled && es[n].order == 2 && es[n].parent == Some(0)
                        && es[n].fillPrice == Some(0.424)
  {
    PassThree(cfg, b, 0, 2, 3, ThirdView());
    assert PassVisit(cfg, b, 0, ThirdView()) == (b, []);
    hide TriggerChild;
    assert PassVisit(cfg, b, 2, ThirdView()) == TriggerChild(b, 2, 0.424, 0.0);
    TriggerEvents(b, 2, 0.424, 0.0);
    hide PassVisit, Pass;
    var (b2, e2) := TriggerChild(b, 2, 0.424, 0.0);
    var e3 := PassVisit(cfg, b2, 3, ThirdView()).1;
    var es := [] + e2 + e3;
    assert es[|e2| - 1] == e2[|e2| - 1];
  }

  // ----- the whole run ----------------------------------------------------------------------------

  ghost function Entered(): Move {
    Enter(REQUEST, false, 0.0, [], true, 0.5)
  }

  /** The desk after the placement and two passes. */
  ghost function HeldDesk(cfg: Config, rate: real): Desk {
    var d1 := Act(cfg, rate, Desk([], [], 0.0), Entered());
    var d2 := Act(cfg, rate, d1, OnePass(cfg, Table(cfg, d1), FirstView()));
    Act(cfg, rate, d2, OnePass(cfg, Table(cfg, d2), SecondView()))
  }

  lemma EnteredDesk(cfg: Config, rate: real)
    requires HalfFills(cfg)
    ensures var d := Act(cfg, rate, Desk([], [], 0.0), Entered());
            Table(cfg, d) == Placed(cfg) && |d.trades| == 1 && d.trades[0].order == 0 && Sound(cfg, d)
  {
    PlacedTable(cfg);
    var place := Place(REQUEST, false, 0.0);
    var d := Act(cfg, rate, Desk([], [], 0.0), Entered());
    EmptyDesk(cfg);
    EnterKeeps(cfg, rate, Desk([], [], 0.0), Entered());
    hide Step, Sound, Acceptable;
    assert d.history == [place];
    RunOne(cfg, EMPTY_BOOK, place);
  }

  /** One pass over the table of a sound desk. */
  lemma PassedDesk(cfg: Config, rate: real, d: Desk, w: World)
    requires Sound(cfg, d)
    ensures var d' := Act(cfg, rate, d, OnePass(cfg, Table(cfg, d), w));
            && Sound(cfg, d') && Table(cfg, d') == Pass(cfg, Table(cfg, d), Table(cfg, d).keys, w).0
            && |d'.trades| == |d.trades| && forall i :: 0 <= i < |d.trades| ==> d'.trades[i].order == d.trades[i].order
  {
    var b := Table(cfg, d);
    var actions := PassActions(cfg, b, b.keys, w);
    RunKeeps(cfg, d.history);
    PassIsRun(cfg, b, b.keys, w);
    CycleKeeps(cfg, rate, d, actions);
    CycleIsFresh(cfg, d, actions);
    RunAppend(cfg, EMPTY_BOOK, d.history, actions);
    var (b', es) := Run(cfg, b, actions);
    SoundOrders(cfg, d);
    ReportedIsRealised(d.trades, es, b', rate);
    hide Run, Sound, BookAll, Pass, PassActions, Lifecycle.Fresh, Inv;
  }

  lemma SoundOrders(cfg: Config, d: Desk)
    requires Sound(cfg, d)
    ensures DistinctOrders(d.trades)
  {
    hide Run;
  }

  /** The run ends with the trade closed at 0.424, below its average of 0.45, by its own take-profit: the gross P&L
      of its row is negative. */
  lemma TakeProfitBooksLoss(cfg: Config, rate: real) returns (u: Trade)
    requires HalfFills(cfg)
    ensures var d := HeldDesk(cfg, rate);
            var d' := Act(cfg, rate, d, OnePass(cfg, Table(cfg, d), ThirdView()));
            && Sound(cfg, d') && |d'.trades| == 1 && d'.trades[0].order == 0
            && ClosedAs(d'.trades[0], u, 0.424) && u.average == Some(0.45)
            && Gross(u, ExitYes(u, 0.424)) < 0.0
  {
    hide HeldDesk, Sound, Bracketed, FullRow, Act, Table, Run, PassActions, ThirdView;
    hide Complete, Gross, ExitYes, ClosedAs;
    HeldTable(cfg, rate);
    var d := HeldDesk(cfg, rate);
    var b := Table(cfg, d);
    PassedDesk(cfg, rate, d, ThirdView());
    NoRun(cfg, b);
    FullIsComplete(cfg, b);
    var n := LossExit(cfg, d);
    var after := PassActions(cfg, b, b.keys, ThirdView());
    assert [] + after == after;
    u := CompleteExit(cfg, rate, d, [], after, n, 0, 0.45);
  }

  lemma LossExit(cfg: Config, d: Desk) returns (n: nat)
    requires HalfFills(cfg) && Bracketed(cfg, Table(cfg, d)) && FullRow(Table(cfg, d).rows[0])
    ensures var b := Table(cfg, d);
            var es := Run(cfg, b, PassActions(cfg, b, b.keys, ThirdView())).1;
            n < |es| && es[n].kind == ExitFilled && es[n].parent == Some(0) && es[n].fillPrice == Some(0.424)
  {
    hide Bracketed, FullRow, Table, Run, Pass, PassActions, ThirdView;
    var b := Table(cfg, d);
    KeysOf(cfg, b);
    FiresBelowCost(cfg, b);
    LastPass(cfg, d);
    var es := Pass(cfg, b, b.keys, ThirdView()).1;
    n :| 0 <= n < |es| && es[n].kind == ExitFilled && es[n].order == 2 && es[n].parent == Some(0)
         && es[n].fillPrice == Some(0.424);
  }

  lemma NoRun(cfg: Config, b: Orders.Book)
    ensures Run(cfg, b, []) == (b, [])
  {}

  lemma HeldTable(cfg: Config, rate: real)
    requires HalfFills(cfg)
    ensures var d := HeldDesk(cfg, rate);
            && Sound(cfg, d) && |d.trades| == 1 && d.trades[0].order == 0
            && Bracketed(cfg, Table(cfg, d)) && FullRow(Table(cfg, d).rows[0])
  {
    EnteredDesk(cfg, rate);
    var d1 := Act(cfg, rate, Desk([], [], 0.0), Entered());
    hide Act, Sound, Table, Pass;
    PassedDesk(cfg, rate, d1, FirstView());
    FirstPass(cfg);
    var d2 := Act(cfg, rate, d1, OnePass(cfg, Table(cfg, d1), FirstView()));
    KeysOf(cfg, Table(cfg, d2));
    hide HalfRow, FullRow;
    PassedDesk(cfg, rate, d2, SecondView());
    SecondPass(cfg, Table(cfg, d2));
  }

  lemma KeysOf(cfg: Config, b: Orders.Book)
    requires Bracketed(cfg, b)
    ensures b.keys == [0, 2, 3]
  {}

  lemma FullIsComplete(cfg: Config, b: Orders.Book)
    requires Bracketed(cfg, b) && FullRow(b.rows[0])
    ensures Complete(b, 0, 0.45)
  {}

  lemma LastPass(cfg: Config, d: Desk)
    ensures var b := Table(cfg, d);
            Run(cfg, b, PassActions(cfg, b, b.keys, ThirdView())) == Pass(cfg, b, b.keys, ThirdView())
  {
    RunKeeps(cfg, d.history);
    hide Run, Inv, Pass;
    PassIsRun(cfg, Table(cfg, d), Table(cfg, d).keys, ThirdView());
  }
}
