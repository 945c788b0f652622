/** From lifecycle events to the trades table: the glue that books fills and closes trades after each
    reconcile pass, and what a bracket exit is worth once it arrives there. */
module Lifecycle {
  import opened Options
  import opened Rounding
  import opened Products
  import opened Orders
  import opened OrderInvariants
  import opened OrderRuns
  import opened Tracker
  import Drawdown

  // ----- booking events -------------------------------------------------------------------------

  /** The row a placed order is recorded as. */
  function Recorded(r: Row, marketPrice: real): Trade {
    Trade(r.id, r.direction, Some(marketPrice), r.average, r.size, Some(r.filled),
          None, None, OpenTrade, None, None, None)
  }

  /** `order.parent_order_id or order.order_id`. */
  function TradeOrder(r: Row): OrderId {
    if r.parent.Some? then r.parent.value else r.id
  }

  function Fee(r: Row, rate: real): real {
    Abs(ActiveSize(r) * rate)
  }

  /** An entry event copies the order's fill into its row, and books the fee of a live order once. */
  function BookEntry(t: Trade, r: Row, rate: real): Trade {
    var t1 := t.(average := r.average, filled := Some(r.filled));
    if !r.isPaper && r.status == Filled && OrElse(t.fee, 0.0) == 0.0 then Charged(t1, Fee(r, rate), 0.0) else t1
  }

  /** An exit event books the exit fee and closes the row at the fill price. */
  function BookExit(t: Trade, r: Row, price: real, rate: real): Trade {
    ClosedAt(Charged(t, Fee(r, rate), 0.0), Max(price, 0.0))
  }

  /** The trades after one event, and the P&L it reports. The snapshot is the order as it is in `b`, after
      the whole pass. */
  function Book(ts: seq<Trade>, e: Event, b: Orders.Book, rate: real): (seq<Trade>, real) {
    if e.order !in b.rows then (ts, 0.0)
    else
      var r := b.rows[e.order];
      if r.kind == Entry then
        var i := Find(ts, r.id);
        (if i < |ts| then ts[i := BookEntry(ts[i], r, rate)] else ts, 0.0)
      else if e.kind == ExitFilled && e.fillPrice.Some? then
        var i := Find(ts, TradeOrder(r));
        if i < |ts| then
          var t := BookExit(ts[i], r, e.fillPrice.value, rate);
          (ts[i := t], t.pnl.value)
        else (ts, 0.0)
      else (ts, 0.0)
  }

  function BookAll(ts: seq<Trade>, es: seq<Event>, b: Orders.Book, rate: real): (seq<Trade>, real) {
    if es == [] then (ts, 0.0)
    else
      var (ts1, sum) := BookAll(ts, es[..|es| - 1], b, rate);
      var (ts2, pnl) := Book(ts1, es[|es| - 1], b, rate);
      (ts2, sum + pnl)
  }

  /** Whether any of the events reports a P&L. */
  function Reports(ts: seq<Trade>, es: seq<Event>, b: Orders.Book, rate: real): bool {
    es != [] &&
    (|| Reports(ts, es[..|es| - 1], b, rate)
     || Book(BookAll(ts, es[..|es| - 1], b, rate).0, es[|es| - 1], b, rate).1 != 0.0)
  }

  /** `_reconcile_order_lifecycle` after the executor's pass: books each event in order and reports realised
      P&L to the drawdown controller, whose daily sum starts over with the first report of a new day. */
  method ReconcileLifecycle(tracker: PerformanceTracker, controller: Drawdown.DrawdownController, es: seq<Event>,
                            b: Orders.Book, rate: real, today: int)
    modifies tracker, controller
    ensures tracker.trades == BookAll(old(tracker.trades), es, b, rate).0
    ensures controller.peak == old(controller.peak)
    ensures if Reports(old(tracker.trades), es, b, rate)
            then controller.dailyDate == today
                 && controller.dailyPnl
                    == (if old(controller.dailyDate) == today then old(controller.dailyPnl) else 0.0)
                       + BookAll(old(tracker.trades), es, b, rate).1
            else controller.dailyDate == old(controller.dailyDate) && controller.dailyPnl == old(controller.dailyPnl)
                 && BookAll(old(tracker.trades), es, b, rate).1 == 0.0
  {
    ghost var before := if controller.dailyDate == today then controller.dailyPnl else 0.0;
    hide Book;
    for n := 0 to |es|
      invariant tracker.trades == BookAll(old(tracker.trades), es[..n], b, rate).0
      invariant controller.peak == old(controller.peak)
      invariant if Reports(old(tracker.trades), es[..n], b, rate)
                then controller.dailyDate == today
                     && controller.dailyPnl == before + BookAll(old(tracker.trades), es[..n], b, rate).1
                else controller.dailyDate == old(controller.dailyDate)
                     && controller.dailyPnl == old(controller.dailyPnl)
                     && BookAll(old(tracker.trades), es[..n], b, rate).1 == 0.0
    {
      assert es[..n + 1][..n] == es[..n];
      var pnl := BookEvent(tracker, es[n], b, rate);
      if pnl != 0.0 {
        controller.RecordTradePnl(pnl, today);
      }
    }
    assert es[..|es|] == es;
  }

  method BookEvent(tracker: PerformanceTracker, e: Event, b: Orders.Book, rate: real) returns (pnl: real)
    modifies tracker
    ensures (tracker.trades, pnl) == Book(old(tracker.trades), e, b, rate)
  {
    hide Gross, BookEntry, Fee;
    pnl := 0.0;
    if e.order !in b.rows {
      return;
    }
    var r := b.rows[e.order];
    if r.kind == Entry {
      SyncEntry(tracker, r, rate);
    } else if e.kind == ExitFilled && e.fillPrice.Some? {
      var order := if r.parent.Some? then r.parent.value else r.id;
      var id := tracker.TradeIdFor(order);
      if id.Some? {
        ghost var ts := tracker.trades;
        tracker.RecordFee(id.value, Fee(r, rate), 0.0);
        FindKept(ts, order, tracker.trades);
        pnl := tracker.CloseTradeForOrder(order, e.fillPrice.value);
        assert tracker.trades == ts[id.value := BookExit(ts[id.value], r, e.fillPrice.value, rate)];
      }
    }
  }

  /** Changing rows without changing their orders leaves the search result alone. */
  lemma {:induction false} FindKept(ts: seq<Trade>, order: nat, ts': seq<Trade>)
    requires |ts'| == |ts| && forall i :: 0 <= i < |ts| ==> ts'[i].order == ts[i].order
    ensures Find(ts', order) == Find(ts, order)
  {
    if ts == [] {
    } else if ts[0].order != order {
      FindKept(ts[1..], order, ts'[1..]);
    }
  }

  /** `sync_entry_order`, and the taker fee of a live entry that has filled. */
  method SyncEntry(tracker: PerformanceTracker, r: Row, rate: real)
    modifies tracker
    ensures var i := Find(old(tracker.trades), r.id);
            tracker.trades == if i < |old(tracker.trades)|
                              then old(tracker.trades)[i := BookEntry(old(tracker.trades)[i], r, rate)]
                              else old(tracker.trades)
  {
    hide Fee;
    var id := tracker.TradeIdFor(r.id);
    if id.Some? {
      ghost var ts := tracker.trades;
      var t := tracker.trades[id.value];
      tracker.trades := tracker.trades[id.value := t.(average := r.average, filled := Some(r.filled))];
      if !r.isPaper && r.status == Filled && OrElse(t.fee, 0.0) == 0.0 {
        tracker.RecordFee(id.value, Fee(r, rate), 0.0);
      }
      assert tracker.trades == ts[id.value := BookEntry(ts[id.value], r, rate)];
    }
  }

  // ----- conservation ---------------------------------------------------------------------------

  function Realised(ts: seq<Trade>): real {
    if ts == [] then 0.0
    else Realised(ts[..|ts| - 1]) + (if ts[|ts| - 1].status == ClosedTrade then OrElse(ts[|ts| - 1].pnl, 0.0) else 0.0)
  }

  ghost predicate DistinctOrders(ts: seq<Trade>) {
    forall i, j :: 0 <= i < j < |ts| ==> ts[i].order != ts[j].order
  }

  ghost predicate SameOrders(ts: seq<Trade>, ts': seq<Trade>) {
    |ts'| == |ts| && forall i :: 0 <= i < |ts| ==> ts'[i].order == ts[i].order
  }

  /** The exit events of `es` tell of children in `b`, each parent once, and their trades are open in `ts`. */
  ghost predicate Fresh(ts: seq<Trade>, es: seq<Event>, b: Orders.Book) {
    && (forall n :: 0 <= n < |es| && es[n].kind == ExitFilled ==> TellsExit(b, es[n]) && es[n].parent.Some?)
    && (forall m, n :: 0 <= m < n < |es| && es[m].kind == ExitFilled && es[n].kind == ExitFilled
         ==> es[m].parent != es[n].parent)
    && (forall i, n :: 0 <= i < |ts| && 0 <= n < |es| && es[n].kind == ExitFilled && es[n].parent == Some(ts[i].order)
          ==> ts[i].status == OpenTrade)
  }

  lemma {:induction false} RealisedUpdate(ts: seq<Trade>, i: nat, t: Trade)
    requires i < |ts|
    ensures Realised(ts[i := t]) == Realised(ts)
              - (if ts[i].status == ClosedTrade then OrElse(ts[i].pnl, 0.0) else 0.0)
              + (if t.status == ClosedTrade then OrElse(t.pnl, 0.0) else 0.0)
  {
    var n := |ts| - 1;
    if i == n {
      assert ts[i := t][..n] == ts[..n];
    } else {
      assert ts[i := t][..n] == ts[..n][i := t];
      RealisedUpdate(ts[..n], i, t);
    }
  }

  /** What one event does to the rows: entry events change no status or P&L, an exit closes its own row. */
  lemma BookOne(ts: seq<Trade>, e: Event, b: Orders.Book, rate: real)
    requires e.kind == ExitFilled ==> TellsExit(b, e) && e.parent.Some?
    requires e.kind == ExitFilled && Find(ts, e.parent.value) < |ts|
             ==> ts[Find(ts, e.parent.value)].status == OpenTrade
    ensures var (ts', pnl) := Book(ts, e, b, rate);
            && SameOrders(ts, ts') && Realised(ts') == Realised(ts) + pnl
            && (forall i :: 0 <= i < |ts| ==>
                  var closes := e.kind == ExitFilled && i == Find(ts, e.parent.value);
                  ts'[i].status == if closes then ClosedTrade else ts[i].status)
  {
    hide BookEntry, BookExit, Realised, Fires, Find;
    if e.order in b.rows {
      var r := b.rows[e.order];
      if r.kind == Entry {
        var i := Find(ts, r.id);
        if i < |ts| {
          BookEntryKeeps(ts[i], r, rate);
          RealisedUpdate(ts, i, BookEntry(ts[i], r, rate));
        }
      } else if e.kind == ExitFilled {
        var i := Find(ts, TradeOrder(r));
        if i < |ts| {
          BookExitCloses(ts[i], r, e.fillPrice.value, rate);
          RealisedUpdate(ts, i, BookExit(ts[i], r, e.fillPrice.value, rate));
        }
      }
    }
  }

  lemma BookExitCloses(t: Trade, r: Row, price: real, rate: real)
    ensures var t' := BookExit(t, r, price, rate);
            && t'.status == ClosedTrade && t'.pnl.Some? && t'.order == t.order
            && t'.direction == t.direction && t'.size == t.size && t'.average == t.average && t'.filled == t.filled
  {
    hide Gross;
  }

  lemma BookEntryKeeps(t: Trade, r: Row, rate: real)
    ensures var t' := BookEntry(t, r, rate);
            && t'.status == t.status && t'.pnl == t.pnl && t'.order == t.order
            && t'.direction == t.direction && t'.size == t.size && t'.exitPrice == t.exitPrice
            && t'.average == r.average && t'.filled == Some(r.filled)
  {}

  /** Some exit event names the order as parent. */
  ghost predicate Exits(es: seq<Event>, order: OrderId) {
    exists n :: 0 <= n < |es| && es[n].kind == ExitFilled && es[n].parent == Some(order)
  }

  lemma ExitsSnoc(es: seq<Event>, e: Event, order: OrderId)
    ensures Exits(es + [e], order) <==> Exits(es, order) || (e.kind == ExitFilled && e.parent == Some(order))
  {
    assert (es + [e])[|es|] == e;
    if Exits(es, order) {
      var n :| 0 <= n < |es| && es[n].kind == ExitFilled && es[n].parent == Some(order);
      assert (es + [e])[n] == es[n];
    }
  }

  /** The P&L reported over any pass is exactly what the pass adds to the realised P&L of the table: no trade
      is closed twice, and nothing is reported that is not booked. A trade ends closed if and only if it was, or an
      exit event of the pass names its order. */
  lemma {:induction false} ReportedIsRealised(ts: seq<Trade>, es: seq<Event>, b: Orders.Book, rate: real)
    requires DistinctOrders(ts) && Fresh(ts, es, b)
    ensures var (ts', sum) := BookAll(ts, es, b, rate);
            && SameOrders(ts, ts') && Realised(ts') == Realised(ts) + sum
            && forall i :: 0 <= i < |ts| ==>
                 (ts'[i].status == ClosedTrade <==> ts[i].status == ClosedTrade || Exits(es, ts[i].order))
  {
    hide Book, TellsExit, Realised;
    if es == [] {
    } else {
      var n := |es| - 1;
      var init, e := es[..n], es[n];
      ReportedIsRealised(ts, init, b, rate);
      var ts1 := BookAll(ts, init, b, rate).0;
      if e.kind == ExitFilled {
        FindKept(ts, e.parent.value, ts1);
        NotYetExited(es, e.parent.value);
      }
      BookOne(ts1, e, b, rate);
      hide Exits, Fresh, BookAll;
      assert es == init + [e];
      forall i | 0 <= i < |ts|
        ensures Exits(es, ts[i].order)
                <==> Exits(init, ts[i].order) || (e.kind == ExitFilled && e.parent == Some(ts[i].order))
      {
        ExitsSnoc(init, e, ts[i].order);
      }
      if e.kind == ExitFilled {
        FindDistinct(ts1, e.parent.value);
      }
    }
  }

  lemma NotYetExited(es: seq<Event>, order: OrderId)
    requires es != [] && es[|es| - 1].kind == ExitFilled && es[|es| - 1].parent == Some(order)
    requires forall m, n :: 0 <= m < n < |es| && es[m].kind == ExitFilled && es[n].kind == ExitFilled
               ==> es[m].parent != es[n].parent
    ensures !Exits(es[..|es| - 1], order)
  {}

  /** With distinct orders the search finds the row of an order, wherever it is. */
  lemma FindDistinct(ts: seq<Trade>, order: nat)
    requires DistinctOrders(ts)
    ensures forall i :: 0 <= i < |ts| && ts[i].order == order ==> Find(ts, order) == i
  {}

  // ----- what a bracket exit is worth -----------------------------------------------------------

  /** The levels lie on their sides of the entry exactly when the clamp does not move them past it. */
  lemma LevelsAroundEntry(a: real, spec: BracketSpec)
    requires spec.takeProfitPct >= 0.0 && spec.stopLossPct >= 0.0
    ensures a <= TakeProfitLevel(a, spec) <==> a <= 0.99
    ensures StopLossLevel(a, spec) <= a <==> 0.01 <= a
  {
    if a >= 0.0 {
      MulMonotone(1.0, 1.0 + spec.takeProfitPct, a);
      MulMonotone(1.0 - spec.stopLossPct, 1.0, a);
      assert a * (1.0 + spec.takeProfitPct) == Mul(1.0 + spec.takeProfitPct, a);
      assert a * (1.0 - spec.stopLossPct) == Mul(1.0 - spec.stopLossPct, a);
      assert Mul(1.0, a) == a;
    }
    hide Mul;
  }

  /** An entry that filled completely before its bracket was armed. */
  ghost predicate ArmedWhole(b: Orders.Book, p: OrderId, a: real, spec: BracketSpec) {
    && p in b.rows && b.rows[p].kind == Entry && b.rows[p].remaining == 0.0 && b.rows[p].average == Some(a)
    && |b.rows[p].bracketIds| == 2
    && var t, s := b.rows[p].bracketIds[0], b.rows[p].bracketIds[1];
       && t in b.rows && s in b.rows && b.rows[t].kind == TakeProfit && b.rows[s].kind == StopLoss
       && b.rows[t].trigger == Some(AtLeast(TakeProfitLevel(a, spec)))
       && b.rows[s].trigger == Some(AtMost(StopLossLevel(a, spec)))
  }

  lemma ArmedWholeMoves(b: Orders.Book, b': Orders.Book, p: OrderId, a: real, spec: BracketSpec)
    requires Moves(b, b') && ArmedWhole(b, p, a, spec)
    ensures ArmedWhole(b', p, a, spec)
  {
    hide TakeProfitLevel, StopLossLevel;
    var t, s := b.rows[p].bracketIds[0], b.rows[p].bracketIds[1];
    assert RowMoves(b.rows[p], b'.rows[p]) && RowMoves(b.rows[t], b'.rows[t]) && RowMoves(b.rows[s], b'.rows[s]);
  }

  /** The bracket a request asks for: its own, or that of the configuration. */
  ghost predicate Wants(cfg: Config, req: Request, spec: BracketSpec) {
    || req.spec == Some(spec)
    || (req.spec == None && cfg.brackets
        && spec == BracketSpec(cfg.takeProfitPct, cfg.stopLossPct, cfg.ttlMinutes))
  }

  /** A paper placement that fills at once and arms the bracket it wants. */
  lemma PlacementArmsWhole(cfg: Config, b: Orders.Book, req: Request, now: Time, spec: BracketSpec)
    requires Inv(b) && Acceptable(cfg, false, req) && PaperMode(cfg) && cfg.fillOnPlace && Wants(cfg, req, spec)
    ensures var b' := Step(cfg, b, Place(req, false, now)).0;
            && ArmedWhole(b', b.next, LimitPrice(req), spec)
            && b'.rows[b.next].direction == req.direction
  {
    var entry := EntryRow(cfg, b.next, req, now);
    InstantFill(entry, entry.price, now);
    var filled := Fill(entry, req.size, entry.price, now);
    FillKeepsOrder(entry, req.size, entry.price, now);
    hide Fill, Inv, CreateChildren, ArmedWhole;
    assert ActivePrice(filled) == LimitPrice(req);
    assert ChosenSpec(cfg, req) == Some(spec);
    var b2 := Put(Insert(b.(next := b.next + 1), entry), filled);
    CreatedWhole(b2, filled, spec, now);
  }

  /** First arming of an entry that is complete. */
  lemma CreatedWhole(b: Orders.Book, p: Row, spec: BracketSpec, now: Time)
    requires p.id in b.rows && p.id < b.next && p.kind == Entry && p.remaining == 0.0
    requires p.average == Some(ActivePrice(p))
    ensures var b' := CreateChildren(b, p, spec, now).0;
            ArmedWhole(b', p.id, ActivePrice(p), spec) && b'.rows[p.id].direction == p.direction
  {
    hide TakeProfitLevel, StopLossLevel;
  }

  /** The event of a bracket child of `p` is priced on the right side of the average. */
  lemma ExitSide(b: Orders.Book, e: Event, p: OrderId, a: real, spec: BracketSpec)
    requires Inv(b) && TellsExit(b, e) && e.parent == Some(p) && ArmedWhole(b, p, a, spec)
    requires spec.takeProfitPct >= 0.0 && spec.stopLossPct >= 0.0
    ensures b.rows[e.order].kind == TakeProfit && a <= 0.99 ==> e.fillPrice.value >= a
    ensures b.rows[e.order].kind == StopLoss && 0.01 <= a ==> e.fillPrice.value <= a
  {
    LevelsAroundEntry(a, spec);
    hide ShapeOk, Groups, Exclusive, KeysOk, TakeProfitLevel, StopLossLevel;
    assert LinksOk(b, b.rows[e.order]);
  }
}
