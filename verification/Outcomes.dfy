/** What one action comes to, order by order and event by event. */
module Outcomes {
  import opened Rounding
  import opened Options
  import opened Orders
  import opened OrderInvariants
  import opened OrderRuns
  import opened Expiry
  import opened Touches
  import opened LateArming

  // ----- placing and settling ---------------------------------------------------------------------

  /** A placement adds an entry exactly if nothing is wrong with the request, and otherwise changes nothing. */
  lemma PlacedExactly(cfg: Config, b: Book, req: Request, killed: bool, now: Time)
    requires Inv(b)
    ensures var (b', es) := Step(cfg, b, Place(req, killed, now));
            var fine := && !killed && req.market != "" && (req.token != "" || cfg.dryRun)
                        && (req.direction == "YES" || req.direction == "NO")
                        && 0.01 <= req.price <= 0.99 && 0.5 <= req.size <= cfg.maxOrder;
            es == [] && (if fine then b.next in b'.rows && b'.rows[b.next].kind == Entry else b' == b)
  {
    hide Inv, PlaceEntry, Moves, NoNewExit, Covered;
    if Acceptable(cfg, killed, req) {
      PlaceKeeps(cfg, b, req, now);
    }
  }

  /** A submission that fails cancels its entry; one that succeeds has it wait for the fill if it is to be bracketed.
      Nothing else changes. */
  lemma SettledExactly(cfg: Config, b: Book, id: OrderId, ok: bool, bracketed: bool)
    requires Known(b, id) && b.rows[id].kind == Entry && !b.rows[id].isPaper
    ensures var (b', es) := Step(cfg, b, On(id, Settle(ok, bracketed)));
            && es == [] && b'.keys == b.keys && b'.next == b.next
            && b'.rows == b.rows[id := b.rows[id].(status := if ok then b.rows[id].status else Cancelled,
                                                   bracketState := if ok && bracketed then PendingFill
                                                                   else b.rows[id].bracketState)]
  {
    assert b.rows == b.rows[id := b.rows[id]];
  }

  /** A closing order is refused for a price that is none or a size that is nothing. Otherwise it is the one new order:
      an exit for that contract and size, at a valid price, on paper filled at once; no other order changes. */
  lemma ClosedExactly(cfg: Config, b: Book, market: string, direction: string, size: real, price: real, now: Time)
    requires Inv(b)
    ensures var (b', es) := Step(cfg, b, Close(market, direction, size, price, now));
            && es == []
            && (if 0.0 < price < 1.0 && size > 0.0
                then && b.next !in b.rows && b'.keys == b.keys + [b.next] && b'.rows.Keys == b.rows.Keys + {b.next}
                     && (forall x :: x in b.rows ==> b'.rows[x] == b.rows[x])
                     && var r := b'.rows[b.next];
                        && r.kind == Exit && r.market == market && r.direction == direction && r.size == size
                        && r.price == (if price < 0.01 then 0.01 else if price > 0.99 then 0.99 else price)
                        && (r.isPaper <==> cfg.dryRun || !cfg.hasClob)
                        && (if r.isPaper then r.status == Filled && r.remaining == 0.0 && r.average == Some(r.price)
                            else r.status == Placed && r.filled == 0.0 && r.remaining == size)
                else b' == b)
  {
    IdsFree(b);
    hide Inv;
    var r := CloseRow(cfg, b.next, market, direction, size, price, now);
    if 0.0 < price < 1.0 && size > 0.0 {
      FillWhole(r, r.price, now);
      FillKeepsOrder(r, size, r.price, now);
    }
    hide Fill;
  }

  // ----- cancelling -------------------------------------------------------------------------------

  /** An order that a cancellation ends along with the entry `id`. */
  ghost predicate GoesAlong(cfg: Config, b: Book, id: OrderId, x: OrderId) {
    && id in b.rows && x in b.rows && b.rows[id].kind == Entry && (b.rows[id].isPaper || !cfg.hasClob)
    && b.rows[x].parent == Some(id) && b.rows[x].status == Armed
  }

  /** A cancellation succeeds for an order that is final already, for any other that is not a live entry, and for a live
      entry if the exchange agrees. If it succeeds for an open order it ends that order, and with an entry that is not
      live its armed children; it changes no other order and nothing else. */
  lemma CancelledExactly(cfg: Config, b: Book, id: OrderId, ok: bool)
    requires Inv(b)
    ensures var (b', done) := CancelOrder(cfg, b, id, ok);
            && (done <==> id in b.rows
                          && (Final(b.rows[id].status) || b.rows[id].kind != Entry || b.rows[id].isPaper
                              || !cfg.hasClob || ok))
            && b'.rows.Keys == b.rows.Keys
            && forall x :: x in b.rows ==>
                 var ends := done && !Final(b.rows[id].status);
                 b'.rows[x] == b.rows[x].(status := if ends && (x == id || GoesAlong(cfg, b, id, x)) then Cancelled
                                                    else b.rows[x].status,
                                          bracketState := if ends && x == id && b.rows[id].kind == Entry
                                                          then BracketCancelled else b.rows[x].bracketState)
  {
    hide Inv, CancelLocal;
    if id in b.rows && CancelsLocally(cfg, b.rows[id]) {
      LocalRows(b, id);
    }
  }

  /** What a cancellation of local state does to each order. */
  lemma LocalRows(b: Book, id: OrderId)
    requires Inv(b) && id in b.rows
    ensures var b' := CancelLocal(b, id);
            && b'.rows.Keys == b.rows.Keys
            && forall x :: x in b.rows ==>
                 b'.rows[x] == b.rows[x].(status := if x == id then Cancelled
                                                    else if b.rows[id].kind == Entry && b.rows[x].parent == Some(id)
                                                            && b.rows[x].status == Armed then Cancelled
                                                    else b.rows[x].status,
                                          bracketState := if x == id && b.rows[id].kind == Entry then BracketCancelled
                                                          else b.rows[x].bracketState)
  {
    hide CancelChildren, Inv;
    if b.rows[id].kind == Entry {
      CancelChildrenRows(SetBracketState(SetStatus(b, id, Cancelled), id, BracketCancelled), b.rows[id].bracketIds);
      AlongIsListed(b, id);
    }
  }

  /** The armed children of an entry are the armed orders it lists. */
  lemma AlongIsListed(b: Book, p: OrderId)
    requires Inv(b) && p in b.rows && b.rows[p].kind == Entry
    ensures forall c :: c in b.rows[p].bracketIds ==>
              c in b.rows && c != p && b.rows[c].parent == Some(p)
              && (b.rows[c].status == Armed || Final(b.rows[c].status))
    ensures forall c :: c in b.rows && b.rows[c].status == Armed && b.rows[c].parent == Some(p)
              ==> c in b.rows[p].bracketIds && c != p
  {
    ListedChildren(b, p);
    forall c | c in b.rows[p].bracketIds ensures b.rows[c].status == Armed || Final(b.rows[c].status) {
      ArmedOrFinal(b, c);
    }
    forall c | c in b.rows && b.rows[c].status == Armed && b.rows[c].parent == Some(p)
      ensures c in b.rows[p].bracketIds && c != p
    {
      ArmedIsChild(b, c);
      ChildIsListed(b, c);
    }
    hide Inv;
  }

  // ----- visits of paper entries ------------------------------------------------------------------

  /** How much a visit asks for. */
  ghost function Asked(cfg: Config, r: Row): real {
    if cfg.allowPartial then Min(r.remaining, Max(r.size * cfg.partialRatio, 0.0)) else r.remaining
  }

  /** A visit of a working paper entry, of a table in which nothing is left to arm: if the contract costs more than the
      limit and the tolerance it does nothing, otherwise it reports the fill first, complete or in part, with the price
      of the contract and the size that was asked for. */
  lemma VisitReports(cfg: Config, b: Book, id: OrderId, quotes: map<string, Quote>, now: Time, m: real, contract: real)
    requires EntryOf(b, id) && b.rows[id].isPaper && b.rows[id].remaining >= 0.0
    requires b.rows[id].status == Placed || b.rows[id].status == PartiallyFilled
    requires Needs(cfg, b.rows[id]) ==> b.rows[id].bracketIds != []
    requires b.rows[id].market in quotes && quotes[b.rows[id].market].midpoint == Some(m)
    requires contract == if b.rows[id].direction == "YES" then m else 1.0 - m
    ensures var r, (b', es) := b.rows[id], VisitLocalEntry(cfg, b, id, quotes, now);
            && id in b'.rows
            && (if contract > r.price + cfg.tolerance then b' == b && es == []
                else && es != []
                     && es[0] == Event(if b'.rows[id].status == Filled then EntryFilled else EntryPartiallyFilled, id,
                                       Some(contract), Asked(cfg, r), None, None))
  {
    hide PaperEntryFill, Rearm;
    var r, q := b.rows[id], quotes[b.rows[id].market];
    PaperFillReports(cfg, b, id, q, now, contract);
    PaperFillEquips(cfg, b, id, q, now);
    var (b1, e1) := PaperEntryFill(cfg, b, id, q, now);
    RearmIsIdle(cfg, b1, id, now);
    assert VisitLocalEntry(cfg, b, id, quotes, now) == (b1, e1 + []);
    assert e1 + [] == e1;
  }

  lemma PaperFillReports(cfg: Config, b: Book, id: OrderId, q: Quote, now: Time, contract: real)
    requires EntryOf(b, id) && b.rows[id].remaining >= 0.0
    requires contract == ContractPrice(b.rows[id].direction, OrElse(q.midpoint, b.rows[id].price))
    ensures var r, (b', es) := b.rows[id], PaperEntryFill(cfg, b, id, q, now);
            && id in b'.rows
            && (if contract > r.price + cfg.tolerance then b' == b && es == []
                else && es != []
                     && es[0] == Event(if b'.rows[id].status == Filled then EntryFilled else EntryPartiallyFilled, id,
                                       Some(contract), Asked(cfg, r), None, None))
  {
    hide Fill, Arm, PassSize, ContractPrice;
    var r := b.rows[id];
    var size := PaperFillSize(cfg, r);
    AskedSize(cfg, r);
    hide Asked;
    FillKeepsOrder(r, size, contract, now);
    FillNotArmed(r, size, contract, now);
    var b1 := Put(b, Fill(r, size, contract, now));
    if cfg.brackets {
      ArmUntouched(b1, id, DefaultSpec(cfg).value, now, id);
    }
  }

  lemma AskedSize(cfg: Config, r: Row)
    requires r.remaining >= 0.0
    ensures PaperFillSize(cfg, r) == Asked(cfg, r)
  {
    var part := Max(r.size * cfg.partialRatio, 0.0);
    assert Asked(cfg, r) == if cfg.allowPartial then Min(r.remaining, part) else r.remaining;
    assert PaperFillSize(cfg, r)
           == if cfg.allowPartial && r.remaining > 0.0 then Min(r.remaining, part) else r.remaining;
  }

  // ----- exits ------------------------------------------------------------------------------------

  /** The other child of a bracket. */
  ghost function Other(b: Book, c: OrderId): OrderId
    requires Inv(b) && c in b.rows && IsChild(b.rows[c].kind)
  {
    BracketOf(b, c);
    var p := b.rows[b.rows[c].parent.value];
    if p.bracketIds[0] == c then p.bracketIds[1] else p.bracketIds[0]
  }

  lemma BracketOf(b: Book, c: OrderId)
    requires Inv(b) && c in b.rows && IsChild(b.rows[c].kind)
    ensures b.rows[c].parent.Some? && b.rows[c].parent.value in b.rows
    ensures |b.rows[b.rows[c].parent.value].bracketIds| == 2 && c in b.rows[b.rows[c].parent.value].bracketIds
  {
    hide ShapeOk, Groups, Exclusive, KeysOk;
    assert LinksOk(b, b.rows[c]);
    assert LinksOk(b, b.rows[b.rows[c].parent.value]);
  }

  lemma {:induction false} OneSibling(b: Book, keys: seq<OrderId>, self: Row, x: OrderId)
    requires forall i, j :: 0 <= i < j < |keys| ==> keys[i] != keys[j]
    requires forall k :: k in keys && k in b.rows && IsSibling(b.rows[k], self) ==> k == x
    ensures Siblings(b, keys, self) == if x in keys && x in b.rows && IsSibling(b.rows[x], self) then [x] else []
  {
    if keys == [] {
    } else {
      var n := |keys| - 1;
      assert keys == keys[..n] + [keys[n]];
      OneSibling(b, keys[..n], self, x);
      hide IsSibling;
    }
  }

  /** Only the other child of its bracket can be the sibling of a child. */
  lemma OnlyOther(b: Book, c: OrderId, k: OrderId)
    requires Inv(b) && c in b.rows && IsChild(b.rows[c].kind) && k in b.rows && k != c
    requires b.rows[k].oco.Some? && b.rows[k].oco == b.rows[c].oco
    ensures k == Other(b, c)
  {
    GroupedShape(b, k);
    BracketOf(b, c);
    BracketOf(b, k);
    SameParent(b, c, k);
    hide Inv;
  }

  lemma SameParent(b: Book, c: OrderId, k: OrderId)
    requires Inv(b) && c in b.rows && k in b.rows && b.rows[k].oco.Some? && b.rows[k].oco == b.rows[c].oco
    ensures b.rows[k].parent == b.rows[c].parent
  {
    hide ShapeOk, LinksOk, Exclusive, KeysOk;
  }

  lemma OtherShares(b: Book, c: OrderId)
    requires Inv(b) && c in b.rows && IsChild(b.rows[c].kind)
    ensures var o := Other(b, c);
            && o in b.rows && o != c && IsChild(b.rows[o].kind) && b.rows[o].parent == b.rows[c].parent
            && b.rows[o].oco == b.rows[c].oco && b.rows[c].oco.Some? && b.rows[o].id == o && b.rows[c].id == c
            && b.rows[c].parent.value != c && b.rows[c].parent.value != o
  {
    hide ShapeOk, Groups, Exclusive, KeysOk;
    assert LinksOk(b, b.rows[c]);
    assert LinksOk(b, b.rows[b.rows[c].parent.value]);
  }

  /** A child that sells fills whole, closes its bracket, and cancels the other child if that is still armed; the
      cancellation is reported first and the exit last, naming the entry and what was cancelled. No other order
      changes. */
  lemma SoldExactly(b: Book, id: OrderId, price: real, now: Time)
    requires Inv(b) && id in b.rows && IsChild(b.rows[id].kind) && b.rows[id].status == Armed
    ensures Known(b, id) && b.rows[id].parent.Some?
    ensures var (b', es) := TriggerChild(b, id, price, now);
            var p, o := b.rows[id].parent.value, Other(b, id);
            var both := o in b.rows && b.rows[o].status == Armed;
            && p in b.rows && o in b.rows && b'.rows.Keys == b.rows.Keys
            && (forall x :: x in b.rows && x != id ==>
                  b'.rows[x] == b.rows[x].(status := if x == o && both then Cancelled else b.rows[x].status,
                                           bracketState := if x == p then Closed else b.rows[x].bracketState))
            && b'.rows[id].status == Filled && b'.rows[id].average == Some(price)
            && es == (if both then [Event(OcoCancelled, o, None, 0.0, Some(p), Some(id))] else [])
                     + [Event(ExitFilled, id, Some(price), b'.rows[id].filled, Some(p), if both then Some(o) else None)]
  {
    hide Inv, Fill, TriggerChild, Siblings, OcoEvents, IsSibling, Other;
    OtherShares(b, id);
    ArmedChild(b, id);
    BracketOf(b, id);
    var r, o := b.rows[id], Other(b, id);
    FillWhole(r, price, now);
    FillKeepsOrder(r, r.size, price, now);
    var r' := Fill(r, r.size, price, now);
    SoldTable(b, id, price, now, r');
    SoldSiblings(b, id, r');
    SiblingEvent(AtExit(b, id, r'), o, id);
  }

  /** The table once the child has been filled and its bracket closed. */
  ghost function AtExit(b: Book, id: OrderId, r': Row): Book
    requires Known(b, id)
  {
    ParentState(Put(b, r'), b.rows[id].parent, Closed)
  }

  lemma SoldTable(b: Book, id: OrderId, price: real, now: Time, r': Row)
    requires Known(b, id) && b.rows[id].remaining == b.rows[id].size != 0.0 && b.rows[id].oco.Some?
    requires r' == Fill(b.rows[id], b.rows[id].size, price, now) && r'.id == id
    requires b.rows[id].parent.Some? && b.rows[id].parent.value in b.rows && b.rows[id].parent.value != id
    ensures var (b', es) := TriggerChild(b, id, price, now);
            var b1, p := AtExit(b, id, r'), b.rows[id].parent.value;
            var ids := Siblings(b1, b1.keys, r');
            && b1.rows.Keys == b'.rows.Keys == b.rows.Keys && b1.keys == b.keys
            && (forall x :: x in b.rows && x != id ==>
                  b1.rows[x] == b.rows[x].(bracketState := if x == p then Closed else b.rows[x].bracketState))
            && b1.rows[id] == r'
            && (forall x :: x in b.rows ==>
                  b'.rows[x] == if IsSibling(b1.rows[x], r') then b1.rows[x].(status := Cancelled) else b1.rows[x])
            && es == OcoEvents(b1, ids, id)
                     + [Event(ExitFilled, id, Some(price), r'.filled, Some(p),
                              if ids == [] then None else Some(ids[|ids| - 1]))]
  {
    FillKeepsOrder(b.rows[id], b.rows[id].size, price, now);
    hide Fill, Siblings, OcoEvents, IsSibling;
  }

  /** Only the other child can be cancelled with an exit, and it is if it is still armed. */
  lemma SoldSiblings(b: Book, id: OrderId, r': Row)
    requires Inv(b) && id in b.rows && IsChild(b.rows[id].kind) && Known(b, id)
    requires SameOrder(b.rows[id], r') && b.rows[id].parent.Some?
    requires var b1 := AtExit(b, id, r');
             && b1.rows.Keys == b.rows.Keys && b1.keys == b.keys && b1.rows[id] == r'
             && (forall x :: x in b.rows && x != id ==>
                   b1.rows[x] == b.rows[x].(bracketState := b1.rows[x].bracketState))
    ensures var b1, o := AtExit(b, id, r'), Other(b, id);
            && o in b.rows
            && (forall x :: x in b.rows && IsSibling(b1.rows[x], r') ==> x == o)
            && (IsSibling(b1.rows[o], r') <==> b.rows[o].status == Armed)
            && Siblings(b1, b1.keys, r') == if b.rows[o].status == Armed then [o] else []
  {
    hide Inv, Other, AtExit;
    OtherShares(b, id);
    DistinctKeys(b);
    var b1, o := AtExit(b, id, r'), Other(b, id);
    forall x | x in b.rows && IsSibling(b1.rows[x], r') ensures x == o {
      RowNamed(b, x);
      SoldSibling(b, id, x, r', b1.rows[x]);
    }
    OneSibling(b1, b1.keys, r', o);
  }

  lemma RowNamed(b: Book, id: OrderId)
    requires Inv(b) && id in b.rows
    ensures b.rows[id].id == id
  {
    IdsFree(b);
    hide Inv;
  }

  lemma SoldSibling(b: Book, id: OrderId, k: OrderId, r': Row, k': Row)
    requires Inv(b) && id in b.rows && IsChild(b.rows[id].kind) && k in b.rows && IsSibling(k', r')
    requires r'.oco == b.rows[id].oco && r'.id == id && k'.oco == b.rows[k].oco && k'.id == k
    ensures k == Other(b, id)
  {
    hide Inv;
    OnlyOther(b, id, k);
  }

  lemma SiblingEvent(b: Book, o: OrderId, id: OrderId)
    requires o in b.rows
    ensures OcoEvents(b, [], id) == []
    ensures OcoEvents(b, [o], id) == [Event(OcoCancelled, o, None, 0.0, b.rows[o].parent, Some(id))]
  {
    assert [o][..0] == [];
  }

  lemma DistinctKeys(b: Book)
    requires Inv(b)
    ensures forall i, j :: 0 <= i < j < |b.keys| ==> b.keys[i] != b.keys[j]
    ensures forall k :: k in b.keys <==> k in b.rows
  {
    hide ShapeOk, LinksOk, Groups, Exclusive;
  }

  lemma ArmedChild(b: Book, id: OrderId)
    requires Inv(b) && id in b.rows && IsChild(b.rows[id].kind) && b.rows[id].status == Armed
    ensures b.rows[id].filled == 0.0 && b.rows[id].remaining == b.rows[id].size > 0.0
  {
    hide Round8;
    assert ShapeOk(b.rows[id]);
  }

  /** A child past its deadline ends with nothing sold, its bracket with it; that is all that is reported. */
  lemma ExpiredExactly(b: Book, id: OrderId, quotes: map<string, Quote>, now: Time)
    requires Inv(b) && id in b.rows && IsChild(b.rows[id].kind) && b.rows[id].status == Armed
    requires b.rows[id].market in quotes && b.rows[id].expiry.Some? && now > b.rows[id].expiry.value
    ensures Known(b, id) && b.rows[id].parent.Some?
    ensures var (b', es) := VisitChild(b, id, quotes, now);
            var p := b.rows[id].parent.value;
            && p in b.rows && b'.rows.Keys == b.rows.Keys
            && (forall x :: x in b.rows ==>
                  b'.rows[x] == b.rows[x].(status := if x == id then Expired else b.rows[x].status,
                                           bracketState := if x == p then BracketExpired
                                                           else b.rows[x].bracketState))
            && es == [Event(GttExpired, id, None, 0.0, Some(p), None)]
  {
    hide Inv, Other;
    OtherShares(b, id);
    BracketOf(b, id);
  }

  // ----- arming -----------------------------------------------------------------------------------

  /** Arming an entry that has no children yet: two armed children for what it has filled, or for its size while that
      is nothing, reported in this order; the entry lists them and waits for their exit. */
  lemma ArmedExactly(b: Book, id: OrderId, spec: BracketSpec, now: Time)
    requires Inv(b) && id in b.rows && b.rows[id].kind == Entry && b.rows[id].bracketIds == []
    ensures Known(b, id)
    ensures var (b', es) := Arm(b, id, spec, now);
            var r := b.rows[id];
            var size := if r.filled != 0.0 then r.filled else r.size;
            exists t, s ::
              && t !in b.rows && s !in b.rows && t != s && b'.rows.Keys == b.rows.Keys + {t, s}
              && (forall x :: x in b.rows && x != id ==> b'.rows[x] == b.rows[x])
              && b'.rows[id] == r.(bracketIds := [t, s], bracketState := BracketArmed,
                                   takeProfit := Some(b'.rows[t].price), stopLoss := Some(b'.rows[s].price))
              && b'.rows[t].kind == TakeProfit && b'.rows[s].kind == StopLoss
              && b'.rows[t].status == b'.rows[s].status == Armed
              && b'.rows[t].size == b'.rows[s].size == b'.rows[t].remaining == b'.rows[s].remaining == size
              && b'.rows[t].filled == b'.rows[s].filled == 0.0
              && es == [Event(BracketsArmed, id, None, 0.0, Some(id), None),
                        Event(GttCreated, t, None, 0.0, Some(id), None),
                        Event(GttCreated, s, None, 0.0, Some(id), None)]
  {
    hide TakeProfitLevel, StopLossLevel, Inv, Child;
    IdsFree(b);
    var p, t, s := b.rows[id], b.next + 1, b.next + 2;
    var high, low := TakeProfitLevel(ActivePrice(p), spec), StopLossLevel(ActivePrice(p), spec);
    NewChild(p, TakeProfit, t, b.next, high, spec, now);
    NewChild(p, StopLoss, s, b.next, low, spec, now);
    assert t !in b.rows && s !in b.rows;
  }

  lemma NewChild(p: Row, kind: Kind, id: OrderId, group: nat, level: real, spec: BracketSpec, now: Time)
    ensures var c := Child(p, kind, id, group, level, spec, now);
            && c.id == id && c.kind == kind && c.status == Armed && c.price == level && c.filled == 0.0
            && c.size == c.remaining == (if p.filled != 0.0 then p.filled else p.size) && c.parent == Some(p.id)
  {}

  lemma IdsFree(b: Book)
    requires Inv(b)
    ensures forall k :: k in b.rows ==> b.rows[k].id == k && k < b.next
  {
    hide ShapeOk, LinksOk, Groups, Exclusive, KeysOk;
  }

  /** Arming an entry again: new levels for the entry, and its filled size for those of its children that are still
      armed, which keep their triggers. */
  lemma RearmedExactly(b: Book, id: OrderId, spec: BracketSpec, now: Time)
    requires Inv(b) && id in b.rows && b.rows[id].kind == Entry && b.rows[id].bracketIds != []
    ensures Known(b, id)
    ensures var (b', es) := Arm(b, id, spec, now);
            var r := b.rows[id];
            var size := if r.filled != 0.0 then r.filled else r.size;
            && b'.rows.Keys == b.rows.Keys
            && (forall x :: x in b.rows && x != id ==>
                  b'.rows[x] == if x in r.bracketIds && b.rows[x].status == Armed
                                then b.rows[x].(size := size, remaining := size) else b.rows[x])
            && b'.rows[id] == r.(bracketState := BracketArmed, takeProfit := b'.rows[id].takeProfit,
                                 stopLoss := b'.rows[id].stopLoss)
            && es == [Event(BracketsArmed, id, None, 0.0, Some(id), None)]
  {
    hide TakeProfitLevel, StopLossLevel, SyncChildren, Inv;
    RowNamed(b, id);
    AlongIsListed(b, id);
    var p := b.rows[id];
    SyncRows(Put(b, WithLevels(p, spec).(bracketState := BracketArmed)), p.bracketIds, ActiveSize(p));
  }

  lemma {:induction false} SyncRows(b: Book, ids: seq<OrderId>, size: real)
    ensures var b' := SyncChildren(b, ids, size);
            && b'.rows.Keys == b.rows.Keys
            && forall x :: x in b.rows ==>
                 b'.rows[x] == if x in ids && b.rows[x].status == Armed
                               then b.rows[x].(size := size, remaining := size) else b.rows[x]
  {
    if ids == [] {
    } else {
      SyncRows(b, ids[..|ids| - 1], size);
    }
  }
}
