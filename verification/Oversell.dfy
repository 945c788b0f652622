/** Exactly when brackets can sell more than was bought. */
module Oversell {
  import opened Rounding
  import opened Options
  import opened Orders
  import opened OrderInvariants
  import opened OrderRuns
  import opened Passes

  /** A minimal order, and two passes over the whole table. In the first the partial fill rounds to nothing, and the
      children are armed with the full size instead; in the second the take-profit sells what was never bought. */
  const DUST_REQUEST := Request("m", "t", "YES", 0.5, 0.5, None)

  function DustEntry(cfg: Config): Row {
    EntryRow(cfg, 0, DUST_REQUEST, 0.0)
  }

  function Quoted(q: Quote): World {
    World(map["m" := q], 0.0, (k: OrderId) => [], (k: OrderId) => [])
  }

  function FirstView(cfg: Config): World {
    Quoted(Quote(Some(DustEntry(cfg).price + cfg.tolerance), None, None))
  }

  function SecondView(): World {
    Quoted(Quote(Some(1.0), Some(1.0), Some(1.0)))
  }

  function Dusted(cfg: Config): Book {
    var b1 := Step(cfg, EMPTY_BOOK, Place(DUST_REQUEST, false, 0.0)).0;
    var b2 := Pass(cfg, b1, b1.keys, FirstView(cfg)).0;
    Pass(cfg, b2, b2.keys, SecondView()).0
  }

  lemma DustPlaced(cfg: Config)
    requires DustConfig(cfg)
    ensures Step(cfg, EMPTY_BOOK, Place(DUST_REQUEST, false, 0.0)).0 == Book(map[0 := DustEntry(cfg)], [0], 1)
  {}

  /** A partial fill of half a dollar rounds to nothing. */
  lemma DustFill(cfg: Config, r: Row, price: real, now: Time)
    requires DustRatio(cfg) && r.size == 0.5 && r.filled == 0.0 && r.remaining == 0.5
    ensures Fill(r, PaperFillSize(cfg, r), price, now)
            == r.(average := Some(price), filled := 0.0, remaining := 0.5, lastFillAt := Some(now),
                  status := PartiallyFilled)
  {
    var taken := 0.5 * cfg.partialRatio;
    assert 0.0 < taken <= UNIT / 2.0;
    assert RoundHalfEven(taken * 100000000.0) == 0;
    assert Round8(taken) == 0.0;
    RoundOfInt(50000000);
    assert Round8(0.5) == 0.5;
  }

  /** An entry with nothing filled, although a fill was reported. */
  ghost predicate DustRow(r: Row) {
    && r.id == 0 && r.kind == Entry && r.isPaper && r.status == PartiallyFilled && r.size == 0.5 && r.filled == 0.0
    && r.remaining == 0.5 && r.market == "m" && r.direction == "YES"
  }

  ghost predicate DustChild(cfg: Config, r: Row, id: OrderId, kind: Kind) {
    && r.id == id && r.kind == kind && r.parent == Some(0) && r.market == "m" && r.direction == "YES"
    && r.status == Armed && r.filled == 0.0 && r.remaining == r.size == 0.5 && r.oco == Some(1)
    && r.expiry == Some(0.0 + 60.0 * cfg.ttlMinutes as real)
    && (kind == TakeProfit ==> r.price <= 0.99 && r.trigger == Some(AtLeast(r.price)))
  }

  /** The oversized bracket: two children armed with the full size of an entry that bought nothing. */
  ghost predicate DustPair(cfg: Config, b: Book) {
    && b.keys == [0, 2, 3] && 0 in b.rows && 2 in b.rows && 3 in b.rows
    && DustRow(b.rows[0]) && b.rows[0].bracketIds != []
    && DustChild(cfg, b.rows[2], 2, TakeProfit) && DustChild(cfg, b.rows[3], 3, StopLoss)
  }

  lemma DustBracket(cfg: Config, p: Row)
    requires DefaultSpec(cfg).Some? && DustRow(p)
    ensures DustPair(cfg, CreateChildren(Book(map[0 := p], [0], 1), p, DefaultSpec(cfg).value, 0.0).0)
  {
    DustLevel(cfg, p);
    hide TakeProfitLevel, StopLossLevel;
  }

  lemma DustLevel(cfg: Config, p: Row)
    requires DefaultSpec(cfg).Some?
    ensures TakeProfitLevel(ActivePrice(p), DefaultSpec(cfg).value) <= 0.99
  {}

  lemma DustFirstFill(cfg: Config)
    requires DustConfig(cfg)
    ensures var b := Book(map[0 := DustEntry(cfg)], [0], 1);
            DustPair(cfg, PaperEntryFill(cfg, b, 0, FirstView(cfg).quotes["m"], 0.0).0)
  {
    var entry := DustEntry(cfg);
    var price := entry.price + cfg.tolerance;
    DustFill(cfg, entry, price, 0.0);
    hide Fill, Round8, LimitPrice, PaperFillSize, TakeProfitLevel, StopLossLevel;
    var r := Fill(entry, PaperFillSize(cfg, entry), price, 0.0);
    assert map[0 := entry][0 := r] == map[0 := r];
    DustBracket(cfg, r);
    hide DustPair, CreateChildren;
  }

  /** A visit of the entry that finds its bracket in place. */
  lemma DustVisit(cfg: Config, b: Book, q: Quote)
    requires DustConfig(cfg) && DustPair(cfg, b)
    ensures DustPair(cfg, VisitLocalEntry(cfg, b, 0, map["m" := q], 0.0).0)
  {
    var r := b.rows[0];
    DustFill(cfg, r, ContractPrice(r.direction, OrElse(q.midpoint, r.price)), 0.0);
    hide Fill, PaperFillSize, DustChild, Arm;
  }

  lemma DustFirstPass(cfg: Config)
    requires DustConfig(cfg)
    ensures DustPair(cfg, Pass(cfg, Book(map[0 := DustEntry(cfg)], [0], 1), [0], FirstView(cfg)).0)
  {
    DustFirstFill(cfg);
    hide LimitPrice, DustChild;
    var b := Book(map[0 := DustEntry(cfg)], [0], 1);
    PassOne(cfg, b, 0, FirstView(cfg));
    var b1 := PaperEntryFill(cfg, b, 0, FirstView(cfg).quotes["m"], 0.0).0;
    hide PaperEntryFill, Pass;
    assert Rearm(cfg, b1, 0, 0.0).0 == b1;
    hide Rearm;
  }

  /** The take-profit fires, and has sold something of nothing. */
  lemma DustSold(cfg: Config, b: Book)
    requires DustPair(cfg, b)
    ensures var b' := TriggerChild(b, 2, 1.0, 0.0).0; !NoOversell(b') && 3 in b'.rows && b'.rows[3].status == Cancelled
                                                      && b'.rows[3].kind == StopLoss && b'.rows[3].id == 3
  {
    var r := b.rows[2];
    FillWhole(r, 1.0, 0.0);
    Round8Positive(0.5);
    FillKeepsOrder(r, 0.5, 1.0, 0.0);
    var r' := Fill(r, 0.5, 1.0, 0.0);
    hide Fill, Round8;
    var b' := TriggerChild(b, 2, 1.0, 0.0).0;
    assert b'.rows[2] == r' && b'.rows[0].filled == 0.0 && b'.rows[0].kind == Entry && b'.rows[3].filled == 0.0;
    assert b'.keys == [0, 2, 3];
    hide TriggerChild;
    DustSum(b');
  }

  lemma DustSum(b: Book)
    requires b.keys == [0, 2, 3] && 0 in b.rows && 2 in b.rows && 3 in b.rows
    requires b.rows[0].filled == 0.0 && b.rows[0].kind == Entry && b.rows[3].filled == 0.0
    requires b.rows[2].parent == Some(0) && b.rows[2].filled > 0.0
    ensures !NoOversell(b)
  {
    assert [0, 2, 3][..2] == [0, 2] && [0, 2][..1] == [0] && [0][..0] == [];
    assert SoldBy(b, [0], 0) == 0.0;
    assert SoldBy(b, [0, 2], 0) > 0.0;
    assert SoldBy(b, [0, 2, 3], 0) > 0.0;
  }

  lemma DustFires(cfg: Config, b: Book)
    requires DustPair(cfg, b) && cfg.ttlMinutes >= 0
    ensures PassVisit(cfg, b, 2, SecondView()).0 == TriggerChild(b, 2, 1.0, 0.0).0
  {
    hide TriggerChild, ExpireChild;
  }

  lemma DustSecondPass(cfg: Config, b: Book)
    requires DustConfig(cfg) && DustPair(cfg, b) && cfg.ttlMinutes >= 0
    ensures !NoOversell(Pass(cfg, b, [0, 2, 3], SecondView()).0)
  {
    PassThree(cfg, b, 0, 2, 3, SecondView());
    var q := Quote(Some(1.0), Some(1.0), Some(1.0));
    DustVisit(cfg, b, q);
    var b0 := PassVisit(cfg, b, 0, SecondView()).0;
    assert b0 == VisitLocalEntry(cfg, b, 0, map["m" := q], 0.0).0;
    hide VisitLocalEntry, Pass, NoOversell, DustPair;
    DustFires(cfg, b0);
    DustSold(cfg, b0);
    var b2 := TriggerChild(b0, 2, 1.0, 0.0).0;
    hide TriggerChild;
    assert PassVisit(cfg, b2, 3, SecondView()).0 == b2;
  }

  /** In a dust configuration a placement and two whole passes oversell. */
  lemma DustOversells(cfg: Config)
    requires DustConfig(cfg) && cfg.ttlMinutes >= 0
    ensures !NoOversell(Dusted(cfg))
  {
    DustPlaced(cfg);
    DustFirstPass(cfg);
    var b1 := Book(map[0 := DustEntry(cfg)], [0], 1);
    var b2 := Pass(cfg, b1, [0], FirstView(cfg)).0;
    DustSecondPass(cfg, b2);
    DustKeys(cfg, b2);
    hide Pass, NoOversell, DustPair, Step, DustEntry, FirstView;
  }

  lemma DustKeys(cfg: Config, b: Book)
    requires DustPair(cfg, b)
    ensures b.keys == [0, 2, 3]
  {}

  /** What a placement and two passes lead to is the result of a run. */
  lemma DustedIsReached(cfg: Config) returns (actions: seq<Action>)
    ensures Run(cfg, EMPTY_BOOK, actions).0 == Dusted(cfg)
  {
    var place := Place(DUST_REQUEST, false, 0.0);
    RunOne(cfg, EMPTY_BOOK, place);
    RunKeeps(cfg, [place]);
    hide Inv, Pass, Step, FirstView, SecondView;
    var b1 := Run(cfg, EMPTY_BOOK, [place]).0;
    var first := PassActions(cfg, b1, b1.keys, FirstView(cfg));
    PassIsRun(cfg, b1, b1.keys, FirstView(cfg));
    RunAppend(cfg, EMPTY_BOOK, [place], first);
    RunKeeps(cfg, [place] + first);
    var b2 := Run(cfg, EMPTY_BOOK, [place] + first).0;
    var second := PassActions(cfg, b2, b2.keys, SecondView());
    PassIsRun(cfg, b2, b2.keys, SecondView());
    RunAppend(cfg, EMPTY_BOOK, [place] + first, second);
    hide Run, PassActions;
    actions := [place] + first + second;
  }

  /** Brackets never sell more than was bought, in any run, exactly when the configuration cannot round a
      first partial fill to nothing. */
  lemma OversellExactly(cfg: Config)
    requires cfg.ttlMinutes >= 0
    ensures (forall actions :: NoOversell(Run(cfg, EMPTY_BOOK, actions).0)) <==> !DustConfig(cfg)
  {
    if DustConfig(cfg) {
      DustOversells(cfg);
      var actions := DustedIsReached(cfg);
      assert !NoOversell(Run(cfg, EMPTY_BOOK, actions).0);
    } else {
      forall actions ensures NoOversell(Run(cfg, EMPTY_BOOK, actions).0) {
        BracketsNeverOversell(cfg, actions);
      }
    }
  }
}
