/** Between the two price spaces: quotes and trades are YES prices, orders are priced as contracts. What a fill and an
    exit were quoted at is what the trades table books, on either side. */
module Directions {
  import opened Rounding
  import opened Options
  import opened Orders
  import opened OrderInvariants
  import opened OrderRuns
  import opened Touches
  import opened Tracker
  import opened Lifecycle

  /** `contract` is the price, on the side `direction`, of a contract whose YES side is at `yes`. */
  ghost predicate Priced(direction: string, yes: real, contract: real) {
    (direction == "YES" && contract == yes) || (direction == "NO" && contract + yes == 1.0)
  }

  /** A trade that was opened on a side of an order. */
  ghost predicate SameSide(t: Trade, r: Row) {
    t.direction == r.direction && (r.direction == "YES" || r.direction == "NO")
  }

  // ----- entries ----------------------------------------------------------------------------------

  /** A paper entry that is waiting for its first fill. */
  ghost predicate Waiting(b: Book, p: OrderId) {
    && EntryOf(b, p) && b.rows[p].isPaper && b.rows[p].status == Placed && b.rows[p].filled == 0.0
    && b.rows[p].remaining == b.rows[p].size > 0.0 && b.rows[p].average == None
  }

  /** Passes ask for a positive part. */
  ghost predicate Asks(cfg: Config) {
    cfg.allowPartial ==> cfg.partialRatio > 0.0
  }

  lemma FirstFill(cfg: Config, b: Book, p: OrderId, q: Quote, now: Time)
    requires Waiting(b, p)
    ensures var r, r' := b.rows[p], Fill(b.rows[p], PaperFillSize(cfg, b.rows[p]),
                                         ContractPrice(b.rows[p].direction, OrElse(q.midpoint, b.rows[p].price)), now);
            r'.average == if Asks(cfg) then Some(ContractPrice(r.direction, OrElse(q.midpoint, r.price))) else None
  {
    var r := b.rows[p];
    AskedPart(cfg, r.size);
    hide Round8, PassSize, ContractPrice;
  }

  lemma AskedPart(cfg: Config, size: real)
    requires size > 0.0
    ensures PassSize(cfg, size, size) > 0.0 <==> Asks(cfg)
    ensures 0.0 <= PassSize(cfg, size, size) <= size
  {
    if cfg.partialRatio > 0.0 {
      assert size * cfg.partialRatio > 0.0;
    } else {
      assert size * -cfg.partialRatio >= 0.0;
    }
  }

  lemma VisitedAverage(cfg: Config, b: Book, p: OrderId, quotes: map<string, Quote>, now: Time)
    requires Waiting(b, p) && b.rows[p].market in quotes
    ensures var r, b' := b.rows[p], VisitLocalEntry(cfg, b, p, quotes, now).0;
            var price := ContractPrice(r.direction, OrElse(quotes[r.market].midpoint, r.price));
            && p in b'.rows
            && b'.rows[p].average == if price <= r.price + cfg.tolerance && Asks(cfg) then Some(price) else None
  {
    hide Fill, Arm, Rearm, ContractPrice;
    var r, q := b.rows[p], quotes[b.rows[p].market];
    var price, size := ContractPrice(r.direction, OrElse(q.midpoint, r.price)), PaperFillSize(cfg, r);
    FirstFill(cfg, b, p, q, now);
    FillKeepsOrder(r, size, price, now);
    FillNotArmed(r, size, price, now);
    hide PaperFillSize;
    var b1 := Put(b, Fill(r, size, price, now));
    if cfg.brackets {
      ArmUntouched(b1, p, DefaultSpec(cfg).value, now, p);
    }
    var b2 := PaperEntryFill(cfg, b, p, q, now).0;
    RearmUntouched(cfg, b2, p, now, p);
  }

  /** The first visit of a paper entry at a midpoint: it fills exactly if the contract costs no more than its limit and
      the tolerance, and then its trade is entered at that midpoint. */
  lemma FillIsBookedAtMidpoint(cfg: Config, b: Book, p: OrderId, quotes: map<string, Quote>, now: Time, m: real,
                               contract: real, t: Trade, rate: real)
    requires Waiting(b, p) && b.rows[p].market in quotes && quotes[b.rows[p].market].midpoint == Some(m)
    requires 0.0 <= m <= 1.0 && SameSide(t, b.rows[p]) && Priced(t.direction, m, contract)
    ensures var r, b' := b.rows[p], VisitLocalEntry(cfg, b, p, quotes, now).0;
            && p in b'.rows
            && (b'.rows[p].average.Some? <==> contract <= r.price + cfg.tolerance && Asks(cfg))
            && (b'.rows[p].average.Some? ==> b'.rows[p].average == Some(contract)
                                             && EntryYes(BookEntry(t, b'.rows[p], rate)) == m)
  {
    VisitedAverage(cfg, b, p, quotes, now);
    hide VisitLocalEntry, Fee, Asks;
  }

  /** Without a midpoint the visit takes the limit for a YES price, which it is for YES contracts alone: a NO entry is
      judged, and filled, at one less its limit. */
  lemma FallbackTurnsLimit(cfg: Config, b: Book, p: OrderId, quotes: map<string, Quote>, now: Time)
    requires Waiting(b, p) && b.rows[p].market in quotes && quotes[b.rows[p].market].midpoint == None
    requires Asks(cfg) && cfg.tolerance >= 0.0
    ensures var r, b' := b.rows[p], VisitLocalEntry(cfg, b, p, quotes, now).0;
            && p in b'.rows
            && (r.direction == "YES" ==> b'.rows[p].average == Some(r.price))
            && (r.direction == "NO" ==>
                  b'.rows[p].average == if 1.0 <= 2.0 * r.price + cfg.tolerance then Some(1.0 - r.price) else None)
  {
    VisitedAverage(cfg, b, p, quotes, now);
    hide VisitLocalEntry;
  }

  /** A placement bids a tenth of a cent below what its contract is quoted at. If it fills at once, its trade is
      entered that much below the quoted YES price, or above it for a NO contract. */
  lemma PlacementBidsBelow(cfg: Config, b: Book, req: Request, now: Time, contract: real, marketPrice: real)
    requires Inv(b) && Acceptable(cfg, false, req) && Priced(req.direction, req.price, contract)
    ensures var r := Step(cfg, b, Place(req, false, now)).0.rows[b.next];
            && b.next in Step(cfg, b, Place(req, false, now)).0.rows
            && r.price == Max(0.01, contract - 0.001)
            && (PaperMode(cfg) && cfg.fillOnPlace ==>
                  r.average == Some(r.price)
                  && (contract >= 0.011 ==>
                        EntryYes(Recorded(r, marketPrice))
                        == if req.direction == "YES" then req.price - 0.001 else req.price + 0.001))
  {
    hide Inv, PlaceEntry, Covered, Moves, NoNewExit;
    PlaceKeeps(cfg, b, req, now);
    assert LimitPrice(req) == Max(0.01, contract - 0.001);
    if PaperMode(cfg) && cfg.fillOnPlace {
      PlacedAverage(cfg, b, req, now);
    }
  }

  lemma PlacedAverage(cfg: Config, b: Book, req: Request, now: Time)
    requires Inv(b) && req.size >= 0.5 && PaperMode(cfg) && cfg.fillOnPlace
    ensures var b' := PlaceEntry(cfg, b, req, now);
            b.next in b'.rows && b'.rows[b.next].average == Some(LimitPrice(req))
  {
    var entry := EntryRow(cfg, b.next, req, now);
    InstantFill(entry, entry.price, now);
    FillKeepsOrder(entry, req.size, entry.price, now);
    FillNotArmed(entry, req.size, entry.price, now);
    hide Fill, Arm, Inv, LimitPrice, SameOrder;
    var b2 := Put(Insert(b.(next := b.next + 1), entry), Fill(entry, req.size, entry.price, now));
    if ChosenSpec(cfg, req).Some? {
      ArmUntouched(b2, entry.id, ChosenSpec(cfg, req).value, now, entry.id);
    }
  }

  // ----- exits ------------------------------------------------------------------------------------

  /** The YES price a child is judged by: the bid that would take a profit, the ask that would stop a loss, or the
      midpoint if there is no such side. */
  ghost predicate JudgedBy(kind: Kind, q: Quote, x: real) {
    var side := if kind == TakeProfit then q.bestBid else q.bestAsk;
    side == Some(x) || (side == None && q.midpoint == Some(x))
  }

  /** An armed child that waits at `level` until `deadline`, as every child of a reachable table does. */
  ghost predicate WaitsAt(b: Book, id: OrderId, level: real, deadline: Time) {
    && Known(b, id) && IsChild(b.rows[id].kind) && b.rows[id].status == Armed
    && b.rows[id].filled == 0.0 && b.rows[id].remaining == b.rows[id].size > 0.0
    && b.rows[id].expiry == Some(deadline)
    && b.rows[id].trigger == Some(if b.rows[id].kind == TakeProfit then AtLeast(level) else AtMost(level))
  }

  /** One visit of an armed child: past its deadline it expires; otherwise it sells if and only if its contract has
      reached the level, at what the contract then costs, and its trade closes at the YES price it was judged by. */
  lemma VisitIsBookedAtQuote(b: Book, id: OrderId, quotes: map<string, Quote>, now: Time, level: real, deadline: Time,
                             x: real, contract: real, t: Trade, rate: real)
    requires WaitsAt(b, id, level, deadline) && b.rows[id].market in quotes
    requires JudgedBy(b.rows[id].kind, quotes[b.rows[id].market], x) && 0.0 <= x <= 1.0
    requires SameSide(t, b.rows[id]) && Priced(t.direction, x, contract)
    ensures var (b', es) := VisitChild(b, id, quotes, now);
            && id in b'.rows
            && (if now > deadline then b'.rows[id].status == Expired && b'.rows[id].filled == 0.0
                else if (if b.rows[id].kind == TakeProfit then contract >= level else contract <= level)
                then && b'.rows[id].status == Filled && b'.rows[id].average == Some(contract)
                     && es != [] && es[|es| - 1].kind == ExitFilled && es[|es| - 1].fillPrice == Some(contract)
                     && BookExit(t, b'.rows[id], contract, rate).exitPrice == Some(x)
                else b' == b && es == [])
  {
    var r := b.rows[id];
    JudgedPrice(r, quotes[r.market], x, contract);
    hide EvalPrice, TriggerChild, BookExit, JudgedBy, Priced;
    if now <= deadline && (if r.kind == TakeProfit then contract >= level else contract <= level) {
      SoldRow(b, id, contract, now);
      ExitBooked(t, TriggerChild(b, id, contract, now).0.rows[id], x, contract, rate);
    }
  }

  lemma JudgedPrice(r: Row, q: Quote, x: real, contract: real)
    requires IsChild(r.kind) && JudgedBy(r.kind, q, x) && Priced(r.direction, x, contract)
    ensures EvalPrice(r, q) == contract
  {}

  lemma ExitBooked(t: Trade, r: Row, x: real, contract: real, rate: real)
    requires Priced(t.direction, x, contract) && 0.0 <= x <= 1.0
    ensures BookExit(t, r, contract, rate).exitPrice == Some(x)
  {
    hide Gross, Fee;
  }

  lemma SoldRow(b: Book, id: OrderId, price: real, now: Time)
    requires Known(b, id) && b.rows[id].remaining == b.rows[id].size > 0.0 && b.rows[id].filled == 0.0
    ensures var (b', es) := TriggerChild(b, id, price, now);
            && id in b'.rows && b'.rows[id].status == Filled && b'.rows[id].average == Some(price)
            && es != [] && es[|es| - 1].kind == ExitFilled && es[|es| - 1].fillPrice == Some(price)
  {
    var r := b.rows[id];
    FillWhole(r, price, now);
    FillKeepsOrder(r, r.size, price, now);
    hide Fill, OcoEvents, Siblings;
  }
}
