/** The order executor on objects: orders are mutated in place, the table maps ids to them, and every
    method is proved to follow the value-level step of Orders.dfy. Fresh ids come from a counter. */
module Executor {
  import opened Rounding
  import opened Options
  import opened Orders
  import Dedup
  import Products
  import Slippage

  class Order {
    const id: OrderId
    const market: string
    const direction: string
    const kind: Kind
    const isPaper: bool
    const price: real
    const timestamp: Time
    const parent: Option<OrderId>
    const oco: Option<nat>
    const trigger: Option<Trigger>
    const expiry: Option<Time>
    var size: real
    var status: Status
    var filled: real
    var remaining: real
    var average: Option<real>
    var lastFillAt: Option<Time>
    var takeProfit: Option<real>
    var stopLoss: Option<real>
    var bracketIds: seq<OrderId>
    var bracketState: BracketState

    function View(): Row
      reads this
    {
      Row(id, market, direction, kind, isPaper, size, price, status, timestamp, filled, remaining, average, lastFillAt,
          parent, oco, trigger, expiry, takeProfit, stopLoss, bracketIds, bracketState)
    }

    constructor (r: Row)
      ensures View() == r
    {
      id, market, direction, kind, isPaper := r.id, r.market, r.direction, r.kind, r.isPaper;
      price, timestamp, parent, oco, trigger, expiry := r.price, r.timestamp, r.parent, r.oco, r.trigger, r.expiry;
      size, status, filled, remaining := r.size, r.status, r.filled, r.remaining;
      average, lastFillAt, takeProfit, stopLoss := r.average, r.lastFillAt, r.takeProfit, r.stopLoss;
      bracketIds, bracketState := r.bracketIds, r.bracketState;
    }

    /** `_apply_fill`. */
    method ApplyFill(fillSize: real, fillPrice: real, now: Time)
      modifies this
      ensures View() == Fill(old(View()), fillSize, fillPrice, now)
    {
      hide Round8;
      ghost var before := View();
      var taken := Max(0.0, Min(fillSize, remaining));
      if taken <= 0.0 {
        return;
      }
      var previous := filled;
      var total := previous + taken;
      if previous > 0.0 && average.Some? {
        assert before.average.value == average.value && before.filled == previous;
        assert NewAverage(before, fillPrice, taken) == (average.value * previous + fillPrice * taken) / total;
        average := Some((average.value * previous + fillPrice * taken) / total);
      } else {
        average := Some(fillPrice);
      }
      assert average == Some(NewAverage(before, fillPrice, taken));
      filled := Round8(total);
      remaining := Round8(Max(size - filled, 0.0));
      lastFillAt := Some(now);
      if remaining <= UNIT {
        remaining := 0.0;
        status := Filled;
      } else {
        status := PartiallyFilled;
      }
    }
  }

  class OrderExecutor {
    const cfg: Config
    var orders: map<OrderId, Order>
    var keys: seq<OrderId>
    var next: nat
    var recent: seq<Dedup.Stamp>

    /** The table as a value. */
    ghost function View(): Book
      reads `orders, `keys, `next, orders.Values
    {
      Book(map id | id in orders :: orders[id].View(), keys, next)
    }

    /** Every order sits under its own id, and the key list is the table's insertion order. */
    ghost predicate Valid()
      reads `orders, `keys, `next, orders.Values
    {
      && (forall id :: id in orders ==> orders[id].id == id && id < next)
      && (forall id :: id in keys <==> id in orders)
      && (forall i, j :: 0 <= i < j < |keys| ==> keys[i] != keys[j])
    }

    /** Changing one order in place is replacing its row. */
    twostate lemma OneChanged(o: Order)
      requires old(Valid()) && orders == old(orders) && keys == old(keys) && next == old(next)
      requires o.id in orders && orders[o.id] == o
      requires forall k :: k in orders && orders[k] != o ==> unchanged(orders[k])
      ensures Valid() && View() == old(View()).(rows := old(View()).rows[o.id := o.View()])
    {
      assert View().rows == old(View()).rows[o.id := o.View()];
    }

    /** One order of the table, seen through its value. */
    lemma ViewAt(id: OrderId)
      ensures id in orders <==> id in View().rows
      ensures id in orders ==> View().rows[id] == orders[id].View()
    {}

    lemma ViewNext()
      ensures View().next == next
    {}

    constructor (cfg: Config)
      ensures Valid() && View() == EMPTY_BOOK && recent == [] && this.cfg == cfg && fresh(orders.Values)
    {
      this.cfg := cfg;
      orders, keys, next, recent := map[], [], 0, [];
    }

    /** Stores a new order under a fresh id. */
    method Add(r: Row) returns (o: Order)
      requires Valid() && r.id >= next
      modifies this
      ensures Valid() && fresh(o) && o.View() == r && o.id == r.id && r.id !in old(orders)
      ensures orders == old(orders)[r.id := o] && keys == old(keys) + [r.id] && next == r.id + 1
      ensures View() == Insert(old(View()).(next := r.id + 1), r)
      ensures recent == old(recent)
    {
      o := new Order(r);
      orders := orders[r.id := o];
      keys := keys + [r.id];
      next := r.id + 1;
      OneAdded(o);
    }

    /** A new order under a fresh key is a new row. */
    twostate lemma OneAdded(new o: Order)
      requires old(Valid()) && o.id >= old(next) && next == o.id + 1
      requires orders == old(orders)[o.id := o] && keys == old(keys) + [o.id]
      requires forall k :: k in old(orders) ==> unchanged(old(orders)[k])
      ensures Valid() && View() == Insert(old(View()).(next := o.id + 1), o.View())
    {
      assert o.id !in old(orders);
      assert View().rows == old(View()).rows[o.id := o.View()];
    }

    method SyncOneChild(id: OrderId, activeSize: real)
      requires Valid()
      modifies orders.Values
      ensures Valid() && View() == SyncOne(old(View()), id, activeSize)
    {
      if id in orders {
        var child := orders[id];
        if child.status == Armed {
          child.size := activeSize;
          child.remaining := activeSize;
          OneChanged(child);
        }
      }
    }

    /** `_sync_child_sizes`, for the children listed in `ids`. */
    method SyncChildSizes(ids: seq<OrderId>, activeSize: real)
      requires Valid()
      modifies orders.Values
      ensures Valid() && View() == SyncChildren(old(View()), ids, activeSize)
    {
      hide SyncOne;
      for i := 0 to |ids|
        invariant Valid() && View() == SyncChildren(old(View()), ids[..i], activeSize)
      {
        SyncOneChild(ids[i], activeSize);
        assert ids[..i + 1][..i] == ids[..i];
      }
      assert ids[..|ids|] == ids;
    }

    /** `_arm_bracket_orders`: refreshes an existing bracket, or creates the two children. */
    method ArmBracketOrders(parent: Order, spec: BracketSpec, now: Time) returns (es: seq<Event>)
      requires Valid() && parent.id in orders && orders[parent.id] == parent
      modifies this, orders.Values
      ensures Valid() && fresh(orders.Values - old(orders.Values))
      ensures forall k :: k in old(orders) ==> k in orders && orders[k] == old(orders[k])
      ensures (View(), es) == Arm(old(View()), parent.id, spec, now)
      ensures recent == old(recent)
    {
      hide TakeProfitLevel, StopLossLevel, SyncChildren;
      if parent.kind != Entry {
        return [];
      }
      var activePrice :=
        if parent.average.Some? && parent.average.value != 0.0 then parent.average.value else parent.price;
      var childSize := if parent.filled != 0.0 then parent.filled else parent.size;
      var tpPrice, slPrice := TakeProfitLevel(activePrice, spec), StopLossLevel(activePrice, spec);
      ViewAt(parent.id);
      hide OrderExecutor.View, OrderExecutor.Valid, CreateChildren, Put, Fill;
      if parent.bracketIds != [] {
        RefreshBracket(parent, tpPrice, slPrice, childSize);
        return [Event(BracketsArmed, parent.id, None, 0.0, Some(parent.id), None)];
      }
      es := CreateBracket(parent, tpPrice, slPrice, childSize, spec, now);
    }

    /** Later fills: new levels for the parent and new sizes for its armed children. */
    method RefreshBracket(parent: Order, tpPrice: real, slPrice: real, childSize: real)
      requires Valid() && parent.id in orders && orders[parent.id] == parent
      modifies orders.Values
      ensures Valid()
      ensures var p := old(parent.View()).(takeProfit := Some(tpPrice), stopLoss := Some(slPrice),
                                           bracketState := BracketArmed);
              View() == SyncChildren(Put(old(View()), p), p.bracketIds, childSize)
    {
      hide SyncChildren;
      parent.takeProfit, parent.stopLoss := Some(tpPrice), Some(slPrice);
      parent.bracketState := BracketArmed;
      OneChanged(parent);
      SyncChildSizes(parent.bracketIds, childSize);
    }

    /** First arming: two fresh children in a fresh group. */
    method CreateBracket(parent: Order, tpPrice: real, slPrice: real, childSize: real, spec: BracketSpec, now: Time)
      returns (es: seq<Event>)
      requires Valid() && parent.id in orders && orders[parent.id] == parent
      requires childSize == ActiveSize(parent.View())
      requires tpPrice == TakeProfitLevel(ActivePrice(parent.View()), spec)
      requires slPrice == StopLossLevel(ActivePrice(parent.View()), spec)
      modifies this, parent
      ensures Valid() && fresh(orders.Values - old(orders.Values))
      ensures forall k :: k in old(orders) ==> k in orders && orders[k] == old(orders[k])
      ensures (View(), es) == CreateChildren(old(View()), old(parent.View()), spec, now)
      ensures recent == old(recent)
    {
      hide TakeProfitLevel, StopLossLevel, OrderExecutor.View, OrderExecutor.Valid, CreateChildren, Insert, Put;
      ghost var b, p := View(), parent.View();
      ViewNext();
      var group := next;
      var expiry := now + 60.0 * spec.ttlMinutes as real;
      var tpRow := Row(group + 1, parent.market, parent.direction, TakeProfit, parent.isPaper, childSize, tpPrice,
                       Armed, now, 0.0, childSize, None, None, Some(parent.id), Some(group),
                       Some(AtLeast(tpPrice)), Some(expiry), None, None, [], Inactive);
      var slRow := Row(group + 2, parent.market, parent.direction, StopLoss, parent.isPaper, childSize, slPrice,
                       Armed, now, 0.0, childSize, None, None, Some(parent.id), Some(group),
                       Some(AtMost(slPrice)), Some(expiry), None, None, [], Inactive);
      BracketValue(b, p, tpRow, slRow, spec, now);
      LinkPair(parent, tpRow, slRow, tpPrice, slPrice);
      es := [Event(BracketsArmed, parent.id, None, 0.0, Some(parent.id), None), Note(GttCreated, tpRow),
             Note(GttCreated, slRow)];
    }

    /** Stores the two children and records them in the parent. */
    method LinkPair(parent: Order, tpRow: Row, slRow: Row, tpPrice: real, slPrice: real)
      requires Valid() && parent.id in orders && orders[parent.id] == parent
      requires tpRow.id == next + 1 && slRow.id == next + 2
      modifies this, parent
      ensures Valid() && fresh(orders.Values - old(orders.Values)) && recent == old(recent)
      ensures forall k :: k in old(orders) ==> k in orders && orders[k] == old(orders[k])
      ensures var p := old(parent.View()).(takeProfit := Some(tpPrice), stopLoss := Some(slPrice),
                                           bracketIds := [tpRow.id, slRow.id], bracketState := BracketArmed);
              View() == Linked(old(View()), p, tpRow, slRow)
    {
      hide OrderExecutor.View, Linked, Insert;
      ghost var b := View();
      ghost var p := parent.View().(takeProfit := Some(tpPrice), stopLoss := Some(slPrice),
                                    bracketIds := [tpRow.id, slRow.id], bracketState := BracketArmed);
      AddPair(tpRow, slRow);
      label made:
      parent.takeProfit, parent.stopLoss := Some(tpPrice), Some(slPrice);
      parent.bracketIds := [tpRow.id, slRow.id];
      parent.bracketState := BracketArmed;
      OneChanged@made(parent);
      LinkedValue(b, p, tpRow, slRow);
    }

    method AddPair(tpRow: Row, slRow: Row)
      requires Valid() && tpRow.id == next + 1 && slRow.id == next + 2
      modifies this
      ensures Valid() && fresh(orders.Values - old(orders.Values)) && recent == old(recent)
      ensures forall k :: k in old(orders) ==> k in orders && orders[k] == old(orders[k])
      ensures View() == Insert(Insert(old(View()).(next := tpRow.id + 1), tpRow).(next := slRow.id + 1), slRow)
    {
      hide OrderExecutor.View, OrderExecutor.Valid, Insert;
      var tp := Add(tpRow);
      var sl := Add(slRow);
    }

    // ----- placing and closing ------------------------------------------------------------------

    /** Fills an order of the table. */
    method FillOrder(o: Order, size: real, price: real, now: Time)
      requires Valid() && o.id in orders && orders[o.id] == o
      modifies o
      ensures Valid() && o.View() == Fill(old(o.View()), size, price, now)
      ensures View() == Put(old(View()), o.View())
    {
      hide Fill;
      o.ApplyFill(size, price, now);
      FillKeepsOrder(old(o.View()), size, price, now);
      OneChanged(o);
    }

    /** `_is_duplicate` and the stamp of a placement that passes it. */
    method PassGate(market: string, direction: string, checked: Time, stamped: Time) returns (ok: bool)
      requires Valid()
      modifies this`recent
      ensures Valid() && View() == old(View())
      ensures (recent, ok)
              == Dedup.Gate(old(recent), Dedup.Attempt(market, direction, checked, stamped), cfg.dedupWindow)
    {
      hide OrderExecutor.View, OrderExecutor.Valid, Dedup.HasKey, Dedup.Cleanup;
      recent := Dedup.Cleanup(recent, checked, cfg.dedupWindow);
      if Dedup.HasKey(recent, market, direction) {
        return false;
      }
      recent := recent + [Dedup.Stamp(market, direction, stamped)];
      ok := true;
    }

    /** `_place_order_unlocked`, up to the first live submission. `book` is the market book, if any. */
    method PlaceOrder(req: Request, killed: bool, book: Option<(seq<Slippage.Level>, seq<Slippage.Level>)>,
                      checked: Time, now: Time) returns (placed: Option<OrderId>)
      requires Valid()
      modifies this, orders.Values
      ensures Valid() && fresh(orders.Values - old(orders.Values))
      ensures forall k :: k in old(orders) ==> k in orders && orders[k] == old(orders[k])
      ensures var (cache, passed) :=
              Dedup.Gate(old(recent), Dedup.Attempt(req.market, req.direction, checked, now), cfg.dedupWindow);
              if !Acceptable(cfg, killed, req) || !BookAccepts(cfg, req.size, book)
              then placed == None && View() == old(View()) && recent == old(recent)
              else if !passed then placed == None && View() == old(View()) && recent == cache
              else placed == Some(old(next)) && View() == PlaceEntry(cfg, old(View()), req, now) && recent == cache
      ensures Dedup.Gated(View(), recent)
              == Dedup.TryPlace(cfg, Dedup.Gated(old(View()), old(recent)), req, killed,
                                BookAccepts(cfg, req.size, book), checked, now)
    {
      hide PlaceEntry, Dedup.Gate, BookAccepts, OrderExecutor.View, OrderExecutor.Valid;
      if !Acceptable(cfg, killed, req) {
        return None;
      }
      var bookOk := CheckBook(req.size, book);
      if !bookOk {
        return None;
      }
      var ok := PassGate(req.market, req.direction, checked, now);
      if !ok {
        return None;
      }
      placed := Some(next);
      InsertEntry(req, now);
    }

    method CheckBook(size: real, book: Option<(seq<Slippage.Level>, seq<Slippage.Level>)>) returns (ok: bool)
      ensures ok == BookAccepts(cfg, size, book)
    {
      hide Slippage.EstimateOf;
      if book.Some? && !cfg.dryRun && book.value.0 != [] && book.value.1 != [] {
        var e := Slippage.EstimateSlippage(size, true, book.value.0, book.value.1);
        ok := e.sufficient && e.slippage.Finite? && e.slippage.value <= cfg.maxSlippageBps;
      } else {
        ok := true;
      }
    }

    /** Inserts the entry; on paper it may fill at once and arm its bracket. */
    method InsertEntry(req: Request, now: Time)
      requires Valid()
      modifies this, orders.Values
      ensures Valid() && fresh(orders.Values - old(orders.Values))
      ensures forall k :: k in old(orders) ==> k in orders && orders[k] == old(orders[k])
      ensures View() == PlaceEntry(cfg, old(View()), req, now) && recent == old(recent)
    {
      hide Fill, Arm, LimitPrice, OrderExecutor.View, OrderExecutor.Valid;
      ViewNext();
      ghost var b := View();
      var entry := Add(EntryRow(cfg, next, req, now));
      FillKeepsOrder(entry.View(), req.size, entry.price, now);
      if PaperMode(cfg) && cfg.fillOnPlace {
        FillAtOnce(entry, req, now);
      }
    }

    /** On paper a placed entry can fill at its limit and arm its bracket. */
    method FillAtOnce(entry: Order, req: Request, now: Time)
      requires Valid() && entry.id in orders && orders[entry.id] == entry
      modifies this, orders.Values
      ensures Valid() && fresh(orders.Values - old(orders.Values)) && recent == old(recent)
      ensures forall k :: k in old(orders) ==> k in orders && orders[k] == old(orders[k])
      ensures var r := old(entry.View());
              var b, spec := Put(old(View()), Fill(r, req.size, r.price, now)), ChosenSpec(cfg, req);
              View() == if spec.Some? && Known(b, r.id) then Arm(b, r.id, spec.value, now).0 else b
    {
      hide Fill, Arm, OrderExecutor.View, OrderExecutor.Valid;
      FillKeepsOrder(entry.View(), req.size, entry.price, now);
      FillOrder(entry, req.size, entry.price, now);
      var bracket := if req.spec.Some? then req.spec else DefaultSpec(cfg);
      if bracket.Some? {
        var es := ArmBracketOrders(entry, bracket.value, now);
      }
    }

    /** `close_position`, up to the live submission. */
    method ClosePositionOrder(market: string, direction: string, size: real, price: real, now: Time)
      returns (placed: Option<OrderId>)
      requires Valid()
      modifies this, orders.Values
      ensures Valid() && fresh(orders.Values - old(orders.Values))
      ensures forall k :: k in old(orders) ==> k in orders && orders[k] == old(orders[k])
      ensures View() == ClosePosition(cfg, old(View()), market, direction, size, price, now) && recent == old(recent)
      ensures placed == if 0.0 < price < 1.0 && size > 0.0 then Some(old(next)) else None
    {
      hide Fill, OrderExecutor.View, OrderExecutor.Valid;
      if !(0.0 < price < 1.0) || size <= 0.0 {
        return None;
      }
      ViewNext();
      placed := Some(next);
      var order := Add(CloseRow(cfg, next, market, direction, size, price, now));
      if PaperMode(cfg) {
        FillOrder(order, size, order.price, now);
      }
    }

    // ----- cancelling and expiry ----------------------------------------------------------------

    method CancelOpenChildOrder(id: OrderId)
      requires Valid()
      modifies orders.Values
      ensures Valid() && View() == CancelOpenChild(old(View()), id)
    {
      if id in orders && !Final(orders[id].status) {
        var child := orders[id];
        child.status := Cancelled;
        OneChanged(child);
      }
    }

    method CancelChildOrders(ids: seq<OrderId>)
      requires Valid()
      modifies orders.Values
      ensures Valid() && View() == CancelChildren(old(View()), ids)
    {
      hide CancelOpenChild;
      for i := 0 to |ids|
        invariant Valid() && View() == CancelChildren(old(View()), ids[..i])
      {
        CancelOpenChildOrder(ids[i]);
        assert ids[..i + 1][..i] == ids[..i];
      }
      assert ids[..|ids|] == ids;
    }

    /** Cancels an order whose cancellation is a local matter, and an entry's open children with it. */
    method CancelLocally(order: Order)
      requires Valid() && order.id in orders && orders[order.id] == order
      modifies orders.Values
      ensures Valid() && View() == CancelLocal(old(View()), order.id)
    {
      hide CancelChildren;
      ghost var b := View();
      ViewAt(order.id);
      CancelledValue(b, order.id);
      hide OrderExecutor.View, SetStatus, SetBracketState;
      order.status := Cancelled;
      if order.kind == Entry {
        order.bracketState := BracketCancelled;
        OneChanged(order);
        CancelChildOrders(order.bracketIds);
      } else {
        OneChanged(order);
      }
    }

    method ConfirmCancel(order: Order)
      requires Valid() && order.id in orders && orders[order.id] == order
      modifies orders.Values
      ensures Valid() && View() == ConfirmLiveCancel(old(View()), order.id)
    {
      ghost var b := View();
      ViewAt(order.id);
      hide OrderExecutor.View;
      order.status, order.bracketState := Cancelled, BracketCancelled;
      OneChanged(order);
      assert ConfirmLiveCancel(b, order.id).rows == b.rows[order.id := order.View()];
    }

    /** `cancel_order`; `exchangeOk` is the exchange's answer for a live entry. */
    method CancelOne(id: OrderId, exchangeOk: bool) returns (ok: bool)
      requires Valid()
      modifies orders.Values
      ensures Valid() && (View(), ok) == CancelOrder(cfg, old(View()), id, exchangeOk)
    {
      hide CancelLocal, ConfirmLiveCancel;
      if id !in orders {
        return false;
      }
      var order := orders[id];
      if Final(order.status) {
        return true;
      }
      if order.isPaper || !cfg.hasClob || order.kind != Entry {
        CancelLocally(order);
        return true;
      }
      if exchangeOk {
        ConfirmCancel(order);
      }
      return exchangeOk;
    }

    /** `cancel_all_open_orders`. */
    method CancelAllOpen(exchangeOk: OrderId -> bool) returns (n: nat)
      requires Valid()
      modifies orders.Values
      ensures Valid() && (View(), n) == CancelAll(cfg, old(View()), old(keys), exchangeOk)
    {
      hide CancelOrder, CancelAll, OrderExecutor.View, OrderExecutor.Valid;
      ghost var b := View();
      var snapshot := keys;
      n := 0;
      NothingCancelled(cfg, b, exchangeOk);
      for i := 0 to |snapshot|
        invariant Valid() && (View(), n) == CancelAll(cfg, b, snapshot[..i], exchangeOk)
      {
        CancelAllSnoc(cfg, b, snapshot, i, exchangeOk);
        var id := snapshot[i];
        ViewAt(id);
        if id in orders && Open(orders[id].status) {
          var ok := CancelOne(id, exchangeOk(id));
          if ok {
            n := n + 1;
          }
        }
      }
      assert snapshot[..|snapshot|] == snapshot;
    }

    method ExpireOneOrder(id: OrderId, now: Time, exchangeOk: bool) returns (ended: bool)
      requires Valid()
      modifies orders.Values
      ensures Valid() && (View(), ended) == ExpireOne(cfg, old(View()), id, now, exchangeOk)
    {
      hide CancelOrder;
      if id !in orders || !Open(orders[id].status) {
        return false;
      }
      var order := orders[id];
      if order.status == Armed {
        if order.expiry.Some? && now > order.expiry.value {
          order.status := Expired;
          OneChanged(order);
          return true;
        }
        return false;
      }
      if (now - order.timestamp) / 60.0 > cfg.expiryMinutes {
        ended := CancelOne(id, exchangeOk);
      } else {
        ended := false;
      }
    }

    /** `cancel_expired_orders`. */
    method CancelExpired(now: Time, exchangeOk: OrderId -> bool) returns (ended: seq<OrderId>)
      requires Valid()
      modifies orders.Values
      ensures Valid() && (View(), ended) == ExpireAll(cfg, old(View()), old(keys), now, exchangeOk)
    {
      hide ExpireOne, OrderExecutor.View, OrderExecutor.Valid;
      var snapshot := keys;
      ended := [];
      for i := 0 to |snapshot|
        invariant Valid() && (View(), ended) == ExpireAll(cfg, old(View()), snapshot[..i], now, exchangeOk)
      {
        ExpireAllSnoc(cfg, old(View()), snapshot, i, now, exchangeOk);
        hide ExpireAll;
        var id := snapshot[i];
        ghost var b := View();
        var done := ExpireOneOrder(id, now, exchangeOk(id));
        if done {
          ended := ended + [id];
        }
      }
      assert snapshot[..|snapshot|] == snapshot;
    }

    // ----- reconciliation -----------------------------------------------------------------------

    method SetParentState(parent: Option<OrderId>, s: BracketState)
      requires Valid()
      modifies orders.Values
      ensures Valid() && View() == ParentState(old(View()), parent, s)
    {
      if parent.Some? && parent.value in orders {
        var p := orders[parent.value];
        p.bracketState := s;
        OneChanged(p);
      }
    }

    method CancelIfSibling(id: OrderId, self: Order, ghost r: Row) returns (hit: bool)
      requires Valid() && id in orders && self.oco.Some? && r.oco == self.oco && r.id == self.id
      modifies orders.Values
      ensures id in old(View()).rows && orders[id].parent == old(View()).rows[id].parent
      ensures Valid() && hit == IsSibling(old(View()).rows[id], r)
      ensures View() == CancelOneSibling(old(View()), id, r)
    {
      var candidate := orders[id];
      hit := candidate.oco == self.oco && candidate.id != self.id && candidate.status == Armed;
      if hit {
        candidate.status := Cancelled;
        OneChanged(candidate);
      }
    }

    /** Cancels the armed members of the group of `self` and reports each. */
    method CancelOcoSiblings(self: Order, ghost r: Row) returns (es: seq<Event>, last: Option<OrderId>)
      requires Valid() && self.oco.Some? && r.oco == self.oco && r.id == self.id
      modifies orders.Values
      ensures Valid() && View() == CancelSiblings(old(View()), r)
      ensures var ids := Siblings(old(View()), old(keys), r);
              es == OcoEvents(old(View()), ids, self.id) && last == (if ids == [] then None else Some(ids[|ids| - 1]))
    {
      hide IsSibling, CancelOneSibling, CancelledSoFar, CancelFirst, Siblings, OcoEvents, CancelSiblings;
      hide OrderExecutor.Valid, OrderExecutor.View;
      ghost var b := View();
      TableKeys();
      es, last := [], None;
      NoneCancelled(b, r);
      for i := 0 to |keys|
        invariant keys == old(keys) && orders == old(orders) && Valid()
        invariant CancelledSoFar(b, keys[..i], r, View(), es, last)
      {
        var id := keys[i];
        assert keys[..i + 1] == keys[..i] + [id];
        NextCancelled(b, keys[..i], r, id, View(), es, last);
        var hit := CancelIfSibling(id, self, r);
        if hit {
          last := Some(id);
          es := es + [Event(OcoCancelled, id, None, 0.0, orders[id].parent, Some(self.id))];
        }
      }
      assert keys[..|keys|] == keys;
      AllCancelled(b, keys, r, View(), es, last);
    }

    lemma TableKeys()
      requires Valid()
      ensures View().rows.Keys == orders.Keys && View().keys == keys
      ensures forall i, j :: 0 <= i < j < |keys| ==> keys[i] != keys[j]
      ensures forall i :: 0 <= i < |keys| ==> keys[i] in orders
      ensures forall k :: k in View().rows ==> k in keys && View().rows[k] == orders[k].View()
    {}

    lemma OrderKnown(id: OrderId)
      requires Valid() && id in orders
      ensures Known(View(), id)
    {}

    /** A triggered child: fill it, close its parent, cancel the rest of its group. */
    method Trigger(order: Order, price: real, now: Time) returns (es: seq<Event>)
      requires Valid() && order.id in orders && orders[order.id] == order
      modifies orders.Values
      ensures Valid() && (View(), es) == TriggerChild(old(View()), order.id, price, now)
    {
      hide Fill, Put, TriggerChild, CancelSiblings, Siblings, OcoEvents, ParentState;
      hide OrderExecutor.View, OrderExecutor.Valid;
      TableKeys();
      ghost var b, r := View(), order.View();
      FillOrder(order, if order.remaining != 0.0 then order.remaining else order.size, price, now);
      ghost var r' := order.View();
      var exitSize := order.filled;
      SetParentState(order.parent, Closed);
      TableKeys();
      ghost var b1 := View();
      TriggerValue(b, r, r', price, now, b1);
      es := [];
      var sibling: Option<OrderId> := None;
      if order.oco.Some? {
        es, sibling := CancelOcoSiblings(order, r');
      }
      es := es + [Event(ExitFilled, order.id, Some(price), exitSize, order.parent, sibling)];
    }

    /** One visit of a bracket child. */
    method VisitBracketChild(order: Order, quotes: map<string, Quote>, now: Time) returns (es: seq<Event>)
      requires Valid() && order.id in orders && orders[order.id] == order && IsChild(order.kind)
      modifies orders.Values
      ensures Valid() && (View(), es) == VisitChild(old(View()), order.id, quotes, now)
    {
      hide TriggerChild, ParentState, OrderExecutor.View, OrderExecutor.Valid;
      TableKeys();
      if order.status != Armed || order.market !in quotes {
        return [];
      }
      if order.expiry.Some? && now > order.expiry.value {
        es := [Note(GttExpired, order.View())];
        ExpireInPlace(order);
        SetParentState(order.parent, BracketExpired);
        return;
      }
      var q := quotes[order.market];
      var mid := OrElse(q.midpoint, order.price);
      var evalPrice := if order.kind == TakeProfit then OrElse(q.bestBid, mid) else OrElse(q.bestAsk, mid);
      var price := ContractPrice(order.direction, evalPrice);
      if order.trigger.Some? && Fires(order.trigger.value, price) {
        es := Trigger(order, price, now);
      } else {
        es := [];
      }
    }

    method ExpireInPlace(order: Order)
      requires Valid() && order.id in orders && orders[order.id] == order
      modifies orders.Values
      ensures Valid() && View() == SetStatus(old(View()), order.id, Expired)
    {
      order.status := Expired;
      OneChanged(order);
    }

    /** The fill part of a paper entry's visit. */
    method FillPaperEntry(order: Order, q: Quote, now: Time) returns (es: seq<Event>)
      requires Valid() && order.id in orders && orders[order.id] == order
      modifies this, orders.Values
      ensures Valid() && fresh(orders.Values - old(orders.Values)) && recent == old(recent)
      ensures forall k :: k in old(orders) ==> k in orders && orders[k] == old(orders[k])
      ensures (View(), es) == PaperEntryFill(cfg, old(View()), order.id, q, now)
    {
      hide Fill, Arm, Put, PaperEntryFill, OrderExecutor.View, OrderExecutor.Valid;
      TableKeys();
      PaperValue(cfg, View(), order.id, q, now);
      var price := ContractPrice(order.direction, OrElse(q.midpoint, order.price));
      if price > order.price + cfg.tolerance {
        return [];
      }
      var size := order.remaining;
      if cfg.allowPartial && order.remaining > 0.0 {
        size := Min(order.remaining, Max(order.size * cfg.partialRatio, 0.0));
      }
      assert size == PaperFillSize(cfg, order.View());
      var previous := order.status;
      FillKeepsOrder(order.View(), size, price, now);
      FillOrder(order, size, price, now);
      var kind := if order.status == Filled then EntryFilled else EntryPartiallyFilled;
      es := [Event(kind, order.id, Some(price), size, None, None)];
      if order.status != previous && cfg.brackets {
        var armed := ArmBracketOrders(order, BracketSpec(cfg.takeProfitPct, cfg.stopLossPct, cfg.ttlMinutes), now);
        es := es + armed;
      }
    }

    /** Arms an entry that has a fill, wants a bracket and has none yet. */
    method RearmEntry(order: Order, now: Time) returns (es: seq<Event>)
      requires Valid() && order.id in orders && orders[order.id] == order
      modifies this, orders.Values
      ensures Valid() && fresh(orders.Values - old(orders.Values)) && recent == old(recent)
      ensures forall k :: k in old(orders) ==> k in orders && orders[k] == old(orders[k])
      ensures (View(), es) == Rearm(cfg, old(View()), order.id, now)
    {
      hide Arm, OrderExecutor.View, OrderExecutor.Valid;
      TableKeys();
      es := [];
      var arming := order.bracketState == PendingFill || order.bracketState == BracketArmed;
      if arming && order.filled > 0.0 && cfg.brackets {
        if order.bracketIds == [] {
          es := ArmBracketOrders(order, BracketSpec(cfg.takeProfitPct, cfg.stopLossPct, cfg.ttlMinutes), now);
        }
      }
    }

    /** One visit of an entry that is not asked about on the exchange. */
    method VisitEntry(order: Order, quotes: map<string, Quote>, now: Time) returns (es: seq<Event>)
      requires Valid() && order.id in orders && orders[order.id] == order
      modifies this, orders.Values
      ensures Valid() && fresh(orders.Values - old(orders.Values)) && recent == old(recent)
      ensures forall k :: k in old(orders) ==> k in orders && orders[k] == old(orders[k])
      ensures (View(), es) == VisitLocalEntry(cfg, old(View()), order.id, quotes, now)
    {
      hide PaperEntryFill, Rearm, OrderExecutor.View, OrderExecutor.Valid;
      TableKeys();
      es := [];
      if Final(order.status) {
        return;
      }
      if order.isPaper && (order.status == Placed || order.status == PartiallyFilled) {
        if order.market !in quotes {
          return;
        }
        es := FillPaperEntry(order, quotes[order.market], now);
      }
      var late := RearmEntry(order, now);
      assert [] + late == late;
      es := es + late;
    }

    method SumAnswers(answers: seq<LiveRow>, default: real) returns (total: real, price: real)
      ensures total == TotalFilled(answers) && price == LastPrice(answers, default)
    {
      total, price := 0.0, default;
      for i := 0 to |answers|
        invariant total == TotalFilled(answers[..i]) && price == LastPrice(answers[..i], default)
      {
        assert answers[..i + 1][..i] == answers[..i];
        total := total + answers[i].filled;
        if answers[i].average.Some? {
          price := answers[i].average.value;
        }
      }
      assert answers[..|answers|] == answers;
    }

    /** The live fill: what the exchange reports beyond what is already booked. */
    method BookLiveFill(order: Order, answers: seq<LiveRow>, now: Time) returns (es: seq<Event>)
      requires Valid() && order.id in orders && orders[order.id] == order
      modifies orders.Values
      ensures Valid() && (View(), es) == LiveFill(old(View()), order.id, answers, now)
    {
      hide Fill, Put, OrderExecutor.View, OrderExecutor.Valid;
      TableKeys();
      var fallback := if order.average.Some? && order.average.value != 0.0 then order.average.value else order.price;
      var total, price := SumAnswers(answers, fallback);
      var delta := Max(total - order.filled, 0.0);
      es := [];
      if delta > 0.0 {
        FillKeepsOrder(order.View(), delta, price, now);
        FillOrder(order, delta, price, now);
        var kind := if order.status == Filled then EntryFilled else EntryPartiallyFilled;
        es := [Event(kind, order.id, Some(price), delta, None, None)];
      }
    }

    method BookLiveStatus(order: Order, answers: seq<LiveRow>) returns (es: seq<Event>)
      requires Valid() && order.id in orders && orders[order.id] == order
      modifies orders.Values
      ensures Valid() && (View(), es) == LiveStatus(old(View()), order.id, answers)
    {
      es := [];
      ViewAt(order.id);
      hide OrderExecutor.View;
      if order.status == Filled || order.status == PartiallyFilled {
        return;
      }
      if exists a :: a in answers && a.cancelled {
        es := [Note(EntryCancelled, order.View())];
        order.status := Cancelled;
        OneChanged(order);
      } else if exists a :: a in answers && a.expired {
        es := [Note(EntryExpired, order.View())];
        order.status := Expired;
        OneChanged(order);
      }
    }

    /** `_reconcile_live_entry` once the answers are in. */
    method ReconcileLiveEntry(order: Order, answers: seq<LiveRow>, now: Time) returns (es: seq<Event>)
      requires Valid() && order.id in orders && orders[order.id] == order
      modifies this, orders.Values
      ensures Valid() && fresh(orders.Values - old(orders.Values)) && recent == old(recent)
      ensures forall k :: k in old(orders) ==> k in orders && orders[k] == old(orders[k])
      ensures (View(), es) == LiveEntry(cfg, old(View()), order.id, answers, now)
    {
      hide LiveFill, LiveStatus, Arm, OrderExecutor.View, OrderExecutor.Valid;
      es := [];
      if answers == [] {
        return;
      }
      es := BookLiveFill(order, answers, now);
      var ended := BookLiveStatus(order, answers);
      es := es + ended;
      TableKeys();
      if order.filled > 0.0 && cfg.brackets {
        var armed := ArmBracketOrders(order, BracketSpec(cfg.takeProfitPct, cfg.stopLossPct, cfg.ttlMinutes), now);
        es := es + armed;
      }
    }

    /** What another task does to one order between its own awaits. */
    method TouchOrder(order: Order, t: Touch)
      requires Valid() && order.id in orders && orders[order.id] == order
      requires t.Confirm? || t.Expire? || t.CloseFailed?
      modifies orders.Values
      ensures Valid() && View() == StepOn(cfg, old(View()), order.id, t).0
    {
      hide ConfirmLiveCancel, SetStatus;
      OrderKnown(order.id);
      ViewAt(order.id);
      if t.Confirm? {
        if !(order.isPaper || !cfg.hasClob || order.kind != Entry) {
          ConfirmCancel(order);
        }
      } else if t.Expire? {
        if order.status == Armed && order.expiry.Some? && t.now > order.expiry.value {
          ExpireInPlace(order);
        }
      } else if order.kind == Exit && !order.isPaper {
        FailClose(order);
      }
    }

    /** A live closing order whose submission failed. */
    method FailClose(order: Order)
      requires Valid() && order.id in orders && orders[order.id] == order
      modifies orders.Values
      ensures Valid() && View() == SetStatus(old(View()), order.id, Cancelled)
    {
      order.status := Cancelled;
      OneChanged(order);
    }

    method TakeOther(a: Action)
      requires Valid()
      modifies this, orders.Values
      ensures Valid() && fresh(orders.Values - old(orders.Values)) && recent == old(recent)
      ensures forall k :: k in old(orders) ==> k in orders && orders[k] == old(orders[k])
      ensures View() == if Unlocked(a) then Step(cfg, old(View()), a).0 else old(View())
    {
      hide StepOn, CancelOrder, ClosePosition, OrderExecutor.View, OrderExecutor.Valid;
      match a {
        case Close(market, direction, size, price, now) =>
          var placed := ClosePositionOrder(market, direction, size, price, now);
        case Cancel(id, exchangeOk) =>
          var ok := CancelOne(id, exchangeOk);
        case On(id, touch) =>
          ViewAt(id);
          if id in orders && (touch.Confirm? || touch.Expire? || touch.CloseFailed?) {
            OrderKnown(id);
            OrderAt(id);
            TouchOrder(orders[id], touch);
          }
        case Place(_, _, _) =>
      }
    }

    lemma OrderAt(id: OrderId)
      requires Valid() && id in orders
      ensures orders[id].id == id
    {}

    /** Everything other tasks do while the exchange is asked about one order. */
    method TakeOthers(others: Interference)
      requires Valid()
      modifies this, orders.Values
      ensures Valid() && fresh(orders.Values - old(orders.Values)) && recent == old(recent)
      ensures forall k :: k in old(orders) ==> k in orders && orders[k] == old(orders[k])
      ensures View() == Interfere(cfg, old(View()), others)
    {
      hide Step, Unlocked, OrderExecutor.View, OrderExecutor.Valid;
      for i := 0 to |others|
        invariant Valid() && fresh(orders.Values - old(orders.Values)) && recent == old(recent)
        invariant forall k :: k in old(orders) ==> k in orders && orders[k] == old(orders[k])
        invariant View() == Interfere(cfg, old(View()), others[..i])
      {
        InterfereSnoc(cfg, old(View()), others, i);
        hide Interfere;
        TakeOther(others[i]);
      }
      assert others[..|others|] == others;
    }

    /** A live entry's visit: other tasks run while the exchange is asked about it. */
    method VisitLive(order: Order, w: World) returns (es: seq<Event>)
      requires Valid() && order.id in orders && orders[order.id] == order
      modifies this, orders.Values
      ensures Valid() && fresh(orders.Values - old(orders.Values)) && recent == old(recent)
      ensures forall k :: k in old(orders) ==> k in orders && orders[k] == old(orders[k])
      ensures (View(), es) == LiveVisit(cfg, old(View()), order.id, w)
    {
      hide Interfere, LiveEntry, Rearm, OrderExecutor.View, OrderExecutor.Valid;
      ghost var b := View();
      OrderKnown(order.id);
      TakeOthers(w.others(order.id));
      ghost var b1 := View();
      OrderKnown(order.id);
      es := ReconcileLiveEntry(order, w.answers(order.id), w.now);
      ghost var b2 := View();
      OrderKnown(order.id);
      assert (b2, es) == LiveEntry(cfg, b1, order.id, w.answers(order.id), w.now);
      hide Known;
      var late := RearmEntry(order, w.now);
      es := es + late;
    }

    method VisitOne(id: OrderId, w: World) returns (es: seq<Event>)
      requires Valid() && id in orders
      modifies this, orders.Values
      ensures Valid() && fresh(orders.Values - old(orders.Values)) && recent == old(recent)
      ensures forall k :: k in old(orders) ==> k in orders && orders[k] == old(orders[k])
      ensures (View(), es) == PassVisit(cfg, old(View()), id, w)
    {
      hide LiveVisit, VisitLocalEntry, VisitChild;
      var order := orders[id];
      es := [];
      if order.kind == Entry {
        if Final(order.status) {
          return;
        }
        if !order.isPaper && cfg.liveReconcile && cfg.hasClob {
          es := VisitLive(order, w);
        } else {
          es := VisitEntry(order, w.quotes, w.now);
        }
      } else if order.kind == TakeProfit || order.kind == StopLoss {
        es := VisitBracketChild(order, w.quotes, w.now);
      }
    }

    /** `_reconcile_orders_unlocked`: one pass over a snapshot of the table, which grows and changes
        under the loop. */
    method ReconcileOrders(w: World) returns (es: seq<Event>)
      requires Valid()
      modifies this, orders.Values
      ensures Valid() && fresh(orders.Values - old(orders.Values)) && recent == old(recent)
      ensures forall k :: k in old(orders) ==> k in orders && orders[k] == old(orders[k])
      ensures (View(), es) == Pass(cfg, old(View()), old(keys), w)
    {
      hide PassVisit, OrderExecutor.View;
      var snapshot := keys;
      es := [];
      for i := 0 to |snapshot|
        invariant Valid() && fresh(orders.Values - old(orders.Values)) && recent == old(recent)
        invariant forall k :: k in old(orders) ==> k in orders && orders[k] == old(orders[k])
        invariant (View(), es) == Pass(cfg, old(View()), snapshot[..i], w)
      {
        assert snapshot[..i + 1][..i] == snapshot[..i];
        var more := VisitOne(snapshot[i], w);
        es := es + more;
      }
      assert snapshot[..|snapshot|] == snapshot;
    }
  }

  lemma NothingCancelled(cfg: Config, b: Book, ok: OrderId -> bool)
    ensures CancelAll(cfg, b, [], ok) == (b, 0)
  {}

  lemma CancelAllSnoc(cfg: Config, b: Book, ids: seq<OrderId>, i: nat, ok: OrderId -> bool)
    requires i < |ids|
    ensures var (b1, n) := CancelAll(cfg, b, ids[..i], ok);
            CancelAll(cfg, b, ids[..i + 1], ok)
            == if ids[i] in b1.rows && Open(b1.rows[ids[i]].status) then
                 var (b2, done) := CancelOrder(cfg, b1, ids[i], ok(ids[i]));
                 (b2, if done then n + 1 else n)
               else (b1, n)
  {
    hide CancelOrder;
    assert ids[..i + 1][..i] == ids[..i];
  }

  lemma InterfereSnoc(cfg: Config, b: Book, others: Interference, i: nat)
    requires i < |others|
    ensures var b1 := Interfere(cfg, b, others[..i]);
            Interfere(cfg, b, others[..i + 1]) == if Unlocked(others[i]) then Step(cfg, b1, others[i]).0 else b1
  {
    hide Step, Unlocked;
    assert others[..i + 1][..i] == others[..i];
  }

  lemma ExpireAllSnoc(cfg: Config, b: Book, ids: seq<OrderId>, i: nat, now: Time, ok: OrderId -> bool)
    requires i < |ids|
    ensures var (b1, done) := ExpireAll(cfg, b, ids[..i], now, ok);
            var (b2, ended) := ExpireOne(cfg, b1, ids[i], now, ok(ids[i]));
            ExpireAll(cfg, b, ids[..i + 1], now, ok) == (b2, if ended then done + [ids[i]] else done)
  {
    hide ExpireOne;
    assert ids[..i + 1][..i] == ids[..i];
  }

  /** The slippage gate of a live placement; without a two-sided book there is none. */
  predicate BookAccepts(cfg: Config, size: real, book: Option<(seq<Slippage.Level>, seq<Slippage.Level>)>) {
    book.Some? && !cfg.dryRun && book.value.0 != [] && book.value.1 != []
    ==> Slippage.Accepts(size, true, book.value.0, book.value.1, cfg.maxSlippageBps)
  }

  /** What the gate means for a placement on a book with a positive midpoint: unless in a dry run, the asks must cover
      the whole size, at a cost that exceeds its value at the midpoint by no more than the configured basis points, up
      to the rounding of the estimate. */
  lemma BookGateExactly(cfg: Config, size: real, bids: seq<Slippage.Level>, asks: seq<Slippage.Level>)
    requires Slippage.Sizes(bids) && Slippage.Sizes(asks)
    requires bids != [] && asks != [] && bids[0].price + asks[0].price > 0.0
    ensures var w := Slippage.Walk(Slippage.Levels(true, bids, asks), size);
            var fair := Products.Mul(w.filled, (bids[0].price + asks[0].price) / 2.0);
            var n := (cfg.maxSlippageBps * 100.0).Floor;
            var most := fair + Products.Mul(fair, (n as real + 0.5) / 1000000.0);
            BookAccepts(cfg, size, Some((bids, asks)))
            <==> cfg.dryRun || (&& 0.0 < size <= Slippage.Depth(asks)
                                && (w.cost < most || (w.cost == most && n % 2 == 0)))
    ensures BookAccepts(cfg, size, None)
    ensures BookAccepts(cfg, size, Some(([], asks))) && BookAccepts(cfg, size, Some((bids, [])))
  {
    hide Slippage.Walk, Slippage.Levels, Slippage.Depth, Slippage.Accepts, Products.Mul;
    Slippage.AcceptsInMoney(size, true, bids, asks, cfg.maxSlippageBps);
  }

  lemma PaperValue(cfg: Config, b: Book, id: OrderId, q: Quote, now: Time)
    requires Known(b, id)
    ensures var r := b.rows[id];
            var price := ContractPrice(r.direction, OrElse(q.midpoint, r.price));
            var size := PaperFillSize(cfg, r);
            var r' := Fill(r, size, price, now);
            var e := [EntryEvent(r', price, size)];
            && r'.id == id && Known(Put(b, r'), id)
            && PaperEntryFill(cfg, b, id, q, now)
               == (if price > r.price + cfg.tolerance then (b, [])
                   else if r'.status != r.status && cfg.brackets then
                     var spec := BracketSpec(cfg.takeProfitPct, cfg.stopLossPct, cfg.ttlMinutes);
                     var armed := Arm(Put(b, r'), id, spec, now);
                     (armed.0, e + armed.1)
                   else (Put(b, r'), e))
  {
    var r := b.rows[id];
    var size, price := PaperFillSize(cfg, r), ContractPrice(r.direction, OrElse(q.midpoint, r.price));
    FillKeepsOrder(r, size, price, now);
    hide Arm, Fill, PaperFillSize;
  }

  lemma CancelledValue(b: Book, id: OrderId)
    requires Known(b, id)
    ensures SetStatus(b, id, Cancelled) == b.(rows := b.rows[id := b.rows[id].(status := Cancelled)])
    ensures SetBracketState(SetStatus(b, id, Cancelled), id, BracketCancelled)
            == b.(rows := b.rows[id := b.rows[id].(status := Cancelled, bracketState := BracketCancelled)])
  {
    var r := b.rows[id].(status := Cancelled);
    assert b.rows[id := r][id := r.(bracketState := BracketCancelled)]
           == b.rows[id := b.rows[id].(status := Cancelled, bracketState := BracketCancelled)];
  }

  lemma TriggerValue(b: Book, r: Row, r': Row, price: real, now: Time, b1: Book)
    requires Known(b, r.id) && b.rows[r.id] == r
    requires r' == Fill(r, if r.remaining != 0.0 then r.remaining else r.size, price, now)
    requires b1 == ParentState(Put(b, r'), r.parent, Closed)
    ensures r'.oco == r.oco && r'.id == r.id
    ensures var ids := if r.oco.Some? then Siblings(b1, b1.keys, r') else [];
            && (r.oco.None? ==> OcoEvents(b1, ids, r.id) == [])
            && TriggerChild(b, r.id, price, now)
               == (if r.oco.Some? then CancelSiblings(b1, r') else b1,
                   OcoEvents(b1, ids, r.id)
                   + [Event(ExitFilled, r.id, Some(price), r'.filled, r.parent,
                            if ids == [] then None else Some(ids[|ids| - 1]))])
  {
    hide CancelSiblings, Siblings, Round8;
  }

  /** The sibling loop after `keys`: the table, the events, and the last order cancelled. */
  ghost predicate CancelledSoFar(b: Book, keys: seq<OrderId>, r: Row, v: Book, es: seq<Event>, last: Option<OrderId>) {
    var ids := Siblings(b, keys, r);
    v == CancelFirst(b, keys, r) && es == OcoEvents(b, ids, r.id)
    && last == if ids == [] then None else Some(ids[|ids| - 1])
  }

  lemma NoneCancelled(b: Book, r: Row)
    ensures CancelledSoFar(b, [], r, b, [], None)
  {}

  lemma NextCancelled(b: Book, keys: seq<OrderId>, r: Row, k: OrderId, v: Book, es: seq<Event>, last: Option<OrderId>)
    requires CancelledSoFar(b, keys, r, v, es, last) && k in b.rows && k !in keys
    ensures k in v.rows && v.rows[k] == b.rows[k]
    ensures var v' := CancelOneSibling(v, k, r);
            if IsSibling(b.rows[k], r)
            then CancelledSoFar(b, keys + [k], r, v',
                                es + [Event(OcoCancelled, k, None, 0.0, b.rows[k].parent, Some(r.id))], Some(k))
            else CancelledSoFar(b, keys + [k], r, v', es, last)
  {
    hide IsSibling, CancelOneSibling;
    var ids := Siblings(b, keys, r);
    CancelFirstRow(b, keys, r, k);
    assert (keys + [k])[..|keys|] == keys && (ids + [k])[..|ids|] == ids && ids + [] == ids;
  }

  lemma AllCancelled(b: Book, keys: seq<OrderId>, r: Row, v: Book, es: seq<Event>, last: Option<OrderId>)
    requires CancelledSoFar(b, keys, r, v, es, last)
    requires forall i, j :: 0 <= i < j < |keys| ==> keys[i] != keys[j]
    requires forall k :: k in b.rows ==> k in keys
    ensures v == CancelSiblings(b, r)
    ensures var ids := Siblings(b, keys, r);
            es == OcoEvents(b, ids, r.id) && last == if ids == [] then None else Some(ids[|ids| - 1])
  {
    CancelFirstAll(b, keys, r);
    hide CancelFirst, CancelSiblings, Siblings, OcoEvents;
  }

  ghost function CancelOneSibling(b: Book, k: OrderId, r: Row): Book {
    if k in b.rows && IsSibling(b.rows[k], r) then SetStatus(b, k, Cancelled) else b
  }

  /** The table after the first keys of the sibling loop. */
  ghost function CancelFirst(b: Book, keys: seq<OrderId>, r: Row): Book {
    if keys == [] then b else CancelOneSibling(CancelFirst(b, keys[..|keys| - 1], r), keys[|keys| - 1], r)
  }

  lemma {:induction false} CancelFirstRow(b: Book, keys: seq<OrderId>, r: Row, k: OrderId)
    requires k !in keys
    ensures var b' := CancelFirst(b, keys, r);
            b'.rows.Keys == b.rows.Keys && (k in b.rows ==> b'.rows[k] == b.rows[k])
  {
    if keys == [] {
    } else {
      CancelFirstRow(b, keys[..|keys| - 1], r, k);
    }
  }

  lemma {:induction false} CancelFirstRows(b: Book, keys: seq<OrderId>, r: Row)
    requires forall i, j :: 0 <= i < j < |keys| ==> keys[i] != keys[j]
    ensures var b' := CancelFirst(b, keys, r);
            && b'.rows.Keys == b.rows.Keys && b'.keys == b.keys && b'.next == b.next
            && forall k :: k in b.rows ==>
                 b'.rows[k]
                 == if k in keys && IsSibling(b.rows[k], r) then b.rows[k].(status := Cancelled) else b.rows[k]
  {
    hide IsSibling;
    if keys == [] {
    } else {
      var init, last := keys[..|keys| - 1], keys[|keys| - 1];
      assert keys == init + [last];
      assert last !in init;
      CancelFirstRows(b, init, r);
    }
  }

  lemma CancelFirstAll(b: Book, keys: seq<OrderId>, r: Row)
    requires forall i, j :: 0 <= i < j < |keys| ==> keys[i] != keys[j]
    requires forall k :: k in b.rows ==> k in keys
    ensures CancelFirst(b, keys, r) == CancelSiblings(b, r)
  {
    CancelFirstRows(b, keys, r);
    assert CancelFirst(b, keys, r).rows == CancelSiblings(b, r).rows;
  }

  ghost function Linked(b: Book, p: Row, tp: Row, sl: Row): Book {
    Put(Insert(Insert(b.(next := sl.id + 1), tp), sl), p)
  }

  lemma LinkedValue(b: Book, p: Row, tp: Row, sl: Row)
    ensures var b2 := Insert(Insert(b.(next := tp.id + 1), tp).(next := sl.id + 1), sl);
            Linked(b, p, tp, sl) == b2.(rows := b2.rows[p.id := p])
  {}

  lemma BracketValue(b: Book, p: Row, tpRow: Row, slRow: Row, spec: BracketSpec, now: Time)
    requires tpRow == Child(p, TakeProfit, b.next + 1, b.next, TakeProfitLevel(ActivePrice(p), spec), spec, now)
    requires slRow == Child(p, StopLoss, b.next + 2, b.next, StopLossLevel(ActivePrice(p), spec), spec, now)
    ensures var parent := p.(takeProfit := Some(tpRow.price), stopLoss := Some(slRow.price),
                             bracketIds := [tpRow.id, slRow.id], bracketState := BracketArmed);
            CreateChildren(b, p, spec, now)
            == (Linked(b, parent, tpRow, slRow),
                [Event(BracketsArmed, p.id, None, 0.0, Some(p.id), None), Note(GttCreated, tpRow),
                 Note(GttCreated, slRow)])
  {
    hide TakeProfitLevel, StopLossLevel;
  }
}
