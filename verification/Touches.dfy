/** What each action leaves alone: the fill of an entry changes only when a reconcile visit of that entry fills it,
    and then the visit reports it. */
module Touches {
  import opened Rounding
  import opened Options
  import opened Orders
  import opened OrderInvariants

  /** Size, fills, average price and status are the same; time stamps and bracket fields may differ. */
  ghost predicate SameFill(o: Row, o': Row) {
    && o'.size == o.size && o'.filled == o.filled && o'.remaining == o.remaining
    && o'.average == o.average && o'.status == o.status
  }

  /** The same but for the status. */
  ghost predicate SameLedger(o: Row, o': Row) {
    o'.size == o.size && o'.filled == o.filled && o'.remaining == o.remaining && o'.average == o.average
  }

  ghost predicate Untouched(b: Book, b': Book, p: OrderId) {
    p in b.rows && p in b'.rows && SameOrder(b.rows[p], b'.rows[p]) && SameFill(b.rows[p], b'.rows[p])
  }

  /** An entry of a table. */
  ghost predicate EntryOf(b: Book, p: OrderId) {
    Known(b, p) && p < b.next && b.rows[p].kind == Entry && b.rows[p].status != Armed
  }

  lemma EntryFacts(b: Book, p: OrderId)
    requires Inv(b) && p in b.rows && b.rows[p].kind == Entry
    ensures EntryOf(b, p)
  {
    hide LedgerOk, LinksOk, Groups, Exclusive, KeysOk;
    assert ShapeOk(b.rows[p]);
  }

  // ----- arming -----------------------------------------------------------------------------------

  lemma {:induction false} SyncUntouched(b: Book, ids: seq<OrderId>, size: real, p: OrderId)
    requires EntryOf(b, p)
    ensures var b' := SyncChildren(b, ids, size); Untouched(b, b', p) && b'.next == b.next
  {
    if ids == [] {
    } else {
      SyncUntouched(b, ids[..|ids| - 1], size, p);
    }
  }

  /** Arming changes levels and children of its order, never an entry's fill. */
  lemma ArmUntouched(b: Book, id: OrderId, spec: BracketSpec, now: Time, p: OrderId)
    requires EntryOf(b, p) && Known(b, id)
    ensures var b' := Arm(b, id, spec, now).0; Untouched(b, b', p) && b.next <= b'.next
  {
    hide TakeProfitLevel, StopLossLevel, SyncChildren;
    var r := b.rows[id];
    if r.kind == Entry && r.bracketIds != [] {
      var b1 := Put(b, WithLevels(r, spec).(bracketState := BracketArmed));
      SyncUntouched(b1, r.bracketIds, ActiveSize(r), p);
    }
  }

  lemma RearmUntouched(cfg: Config, b: Book, id: OrderId, now: Time, p: OrderId)
    requires EntryOf(b, p) && Known(b, id)
    ensures var b' := Rearm(cfg, b, id, now).0; Untouched(b, b', p) && b.next <= b'.next
  {
    hide Arm;
    if cfg.brackets {
      ArmUntouched(b, id, DefaultSpec(cfg).value, now, p);
    }
  }

  // ----- placing, closing and cancelling ----------------------------------------------------------

  lemma PlaceUntouched(cfg: Config, b: Book, req: Request, now: Time, p: OrderId)
    requires EntryOf(b, p)
    ensures Untouched(b, PlaceEntry(cfg, b, req, now), p)
  {
    hide Arm, Fill, LimitPrice;
    var entry := EntryRow(cfg, b.next, req, now);
    var b1 := Insert(b.(next := b.next + 1), entry);
    FillKeepsOrder(entry, req.size, entry.price, now);
    var b2 := Put(b1, Fill(entry, req.size, entry.price, now));
    if ChosenSpec(cfg, req).Some? {
      ArmUntouched(b2, entry.id, ChosenSpec(cfg, req).value, now, p);
    }
  }

  lemma CloseUntouched(cfg: Config, b: Book, market: string, direction: string,
                       size: real, price: real, now: Time, p: OrderId)
    requires EntryOf(b, p)
    ensures Untouched(b, ClosePosition(cfg, b, market, direction, size, price, now), p)
  {
    hide Fill;
    var r := CloseRow(cfg, b.next, market, direction, size, price, now);
    FillKeepsOrder(r, size, r.price, now);
  }

  lemma {:induction false} CancelChildrenUntouched(b: Book, ids: seq<OrderId>, p: OrderId)
    requires p in b.rows && p !in ids
    ensures Untouched(b, CancelChildren(b, ids), p)
  {
    if ids == [] {
    } else {
      var init, last := ids[..|ids| - 1], ids[|ids| - 1];
      assert ids == init + [last];
      CancelChildrenUntouched(b, init, p);
    }
  }

  lemma CancelUntouched(cfg: Config, b: Book, id: OrderId, ok: bool, p: OrderId)
    requires Inv(b) && p in b.rows && b.rows[p].kind == Entry && id != p
    ensures Untouched(b, CancelOrder(cfg, b, id, ok).0, p)
  {
    hide CancelChildren, ShapeOk, Groups, Exclusive, KeysOk;
    if id in b.rows && b.rows[id].kind == Entry {
      NotAChild(b, id, p);
      var b1 := SetBracketState(SetStatus(b, id, Cancelled), id, BracketCancelled);
      CancelChildrenUntouched(b1, b.rows[id].bracketIds, p);
    }
  }

  /** No entry is listed as the child of another. */
  lemma NotAChild(b: Book, id: OrderId, p: OrderId)
    requires Inv(b) && id in b.rows && b.rows[id].kind == Entry && p in b.rows && b.rows[p].kind == Entry
    ensures p !in b.rows[id].bracketIds
  {
    hide ShapeOk, Groups, Exclusive, KeysOk;
    assert LinksOk(b, b.rows[id]);
  }

  // ----- visits of other orders -------------------------------------------------------------------

  lemma TriggerUntouched(b: Book, id: OrderId, price: real, now: Time, p: OrderId)
    requires EntryOf(b, p) && Known(b, id) && id != p
    ensures Untouched(b, TriggerChild(b, id, price, now).0, p)
  {
    hide Fill, Siblings, OcoEvents, CancelSiblings, ParentState;
    var r := b.rows[id];
    var r' := Fill(r, if r.remaining != 0.0 then r.remaining else r.size, price, now);
    FillKeepsOrder(r, if r.remaining != 0.0 then r.remaining else r.size, price, now);
    ParentUntouched(Put(b, r'), r.parent, Closed, p);
    SiblingsUntouched(ParentState(Put(b, r'), r.parent, Closed), r', p);
  }

  lemma ParentUntouched(b: Book, parent: Option<OrderId>, s: BracketState, p: OrderId)
    requires EntryOf(b, p)
    ensures var b' := ParentState(b, parent, s); EntryOf(b', p) && Untouched(b, b', p)
  {}

  /** Entries are never armed, so no sibling loop touches them. */
  lemma SiblingsUntouched(b: Book, r: Row, p: OrderId)
    requires EntryOf(b, p)
    ensures Untouched(b, CancelSiblings(b, r), p)
  {}

  lemma VisitChildUntouched(b: Book, id: OrderId, quotes: map<string, Quote>, now: Time, p: OrderId)
    requires EntryOf(b, p) && Known(b, id) && IsChild(b.rows[id].kind)
    ensures Untouched(b, VisitChild(b, id, quotes, now).0, p)
  {
    hide TriggerChild, EvalPrice;
    if b.rows[id].market in quotes {
      TriggerUntouched(b, id, EvalPrice(b.rows[id], quotes[b.rows[id].market]), now, p);
    }
  }

  /** The fill of an entry leaves every other entry alone. */
  lemma PaperFillUntouched(cfg: Config, b: Book, id: OrderId, q: Quote, now: Time, p: OrderId)
    requires EntryOf(b, p) && EntryOf(b, id) && id != p
    ensures var b' := PaperEntryFill(cfg, b, id, q, now).0; Untouched(b, b', p) && b.next <= b'.next
  {
    hide Fill, Arm, PaperFillSize;
    var r := b.rows[id];
    var price := ContractPrice(r.direction, OrElse(q.midpoint, r.price));
    var r' := Fill(r, PaperFillSize(cfg, r), price, now);
    FillKeepsOrder(r, PaperFillSize(cfg, r), price, now);
    var b1 := Put(b, r');
    assert EntryOf(b1, p);
    if cfg.brackets {
      ArmUntouched(b1, id, DefaultSpec(cfg).value, now, p);
    }
  }

  lemma VisitEntryUntouched(cfg: Config, b: Book, id: OrderId, quotes: map<string, Quote>, now: Time, p: OrderId)
    requires EntryOf(b, p) && EntryOf(b, id) && id != p
    ensures Untouched(b, VisitLocalEntry(cfg, b, id, quotes, now).0, p)
  {
    hide PaperEntryFill, Rearm;
    var r := b.rows[id];
    if r.market in quotes {
      PaperFillUntouched(cfg, b, id, quotes[r.market], now, p);
      var b1 := PaperEntryFill(cfg, b, id, quotes[r.market], now).0;
      RearmUntouched(cfg, b1, id, now, p);
    }
    RearmUntouched(cfg, b, id, now, p);
  }

  lemma LiveFillUntouched(b: Book, id: OrderId, answers: seq<LiveRow>, now: Time, p: OrderId)
    requires EntryOf(b, p) && Known(b, id) && id != p
    ensures var b1 := LiveFill(b, id, answers, now).0; Untouched(b, b1, p) && b1.next == b.next
  {
    hide Fill, TotalFilled, LastPrice;
    var r := b.rows[id];
    FillKeepsOrder(r, Max(TotalFilled(answers) - r.filled, 0.0), LastPrice(answers, ActivePrice(r)), now);
  }

  lemma LiveEntryUntouched(cfg: Config, b: Book, id: OrderId, answers: seq<LiveRow>, now: Time, p: OrderId)
    requires EntryOf(b, p) && Known(b, id) && id != p
    ensures Untouched(b, LiveEntry(cfg, b, id, answers, now).0, p)
  {
    hide LiveFill, LiveStatus, Arm;
    LiveFillUntouched(b, id, answers, now, p);
    var b1 := LiveFill(b, id, answers, now).0;
    OtherStatusUntouched(b1, id, answers, p);
    var b2 := LiveStatus(b1, id, answers).0;
    if cfg.brackets {
      ArmUntouched(b2, id, DefaultSpec(cfg).value, now, p);
    }
  }

  lemma OtherStatusUntouched(b: Book, id: OrderId, answers: seq<LiveRow>, p: OrderId)
    requires EntryOf(b, p) && Known(b, id) && id != p
    ensures var b' := LiveStatus(b, id, answers).0; EntryOf(b', p) && Untouched(b, b', p)
  {}

  /** Whether an action is about order `p`. */
  predicate About(a: Action, p: OrderId) {
    (a.Cancel? && a.id == p) || (a.On? && a.id == p)
  }

  /** Every action about another order, or about none, leaves an entry's fill and status as they are. */
  lemma OthersLeaveAlone(cfg: Config, b: Book, a: Action, p: OrderId)
    requires Inv(b) && p in b.rows && b.rows[p].kind == Entry && !About(a, p)
    ensures Untouched(b, Step(cfg, b, a).0, p)
  {
    hide PlaceEntry, ClosePosition, CancelOrder, StepOn, Acceptable, ShapeOk, LinksOk, Groups, Exclusive, KeysOk;
    EntryFacts(b, p);
    match a
    case Place(req, killed, now) => PlaceUntouched(cfg, b, req, now, p);
    case Close(market, direction, size, price, now) => CloseUntouched(cfg, b, market, direction, size, price, now, p);
    case Cancel(id, ok) => CancelUntouched(cfg, b, id, ok, p);
    case On(id, t) =>
      if Known(b, id) {
        TouchesLeaveAlone(cfg, b, id, t, p);
      }
  }

  lemma TouchesLeaveAlone(cfg: Config, b: Book, id: OrderId, t: Touch, p: OrderId)
    requires Inv(b) && EntryOf(b, p) && Known(b, id) && id != p
    ensures Untouched(b, StepOn(cfg, b, id, t).0, p)
  {
    hide Inv, VisitChild, VisitLocalEntry, LiveEntry, Rearm;
    var r := b.rows[id];
    match t
    case Visit(quotes, now) =>
      if IsChild(r.kind) {
        VisitChildUntouched(b, id, quotes, now, p);
      } else if r.kind == Entry {
        EntryFacts(b, id);
        VisitEntryUntouched(cfg, b, id, quotes, now, p);
      }
    case Answer(answers, now) => LiveEntryUntouched(cfg, b, id, answers, now, p);
    case Late(now) => RearmUntouched(cfg, b, id, now, p);
    case _ =>
  }

  // ----- visits of the entry itself ---------------------------------------------------------------

  ghost predicate Tells(es: seq<Event>, p: OrderId) {
    exists e :: e in es && e.order == p
  }

  /** What an action does to an entry's fill it reports. */
  lemma FillsAreReported(cfg: Config, b: Book, a: Action, p: OrderId)
    requires Inv(b) && p in b.rows && b.rows[p].kind == Entry
    ensures var (b', es) := Step(cfg, b, a);
            && p in b'.rows && SameOrder(b.rows[p], b'.rows[p])
            && (Tells(es, p) || (b'.rows[p].filled == b.rows[p].filled && b'.rows[p].average == b.rows[p].average))
  {
    if About(a, p) {
      hide Inv;
      EntryFacts(b, p);
      if a.On? {
        TouchIsReported(cfg, b, p, a.touch);
      } else {
        CancelKeepsFill(cfg, b, p, a.exchangeOk);
      }
    } else {
      hide Step, Inv, About;
      OthersLeaveAlone(cfg, b, a, p);
    }
  }

  lemma CancelKeepsFill(cfg: Config, b: Book, p: OrderId, ok: bool)
    requires Inv(b) && EntryOf(b, p)
    ensures var b' := CancelOrder(cfg, b, p, ok).0;
            p in b'.rows && SameOrder(b.rows[p], b'.rows[p]) && SameLedger(b.rows[p], b'.rows[p])
  {
    hide CancelChildren;
    NotAChild(b, p, p);
    hide Inv;
    var b1 := SetBracketState(SetStatus(b, p, Cancelled), p, BracketCancelled);
    CancelChildrenUntouched(b1, b.rows[p].bracketIds, p);
  }

  lemma TouchIsReported(cfg: Config, b: Book, p: OrderId, t: Touch)
    requires EntryOf(b, p)
    ensures var (b', es) := StepOn(cfg, b, p, t);
            && p in b'.rows && SameOrder(b.rows[p], b'.rows[p])
            && (Tells(es, p) || (b'.rows[p].filled == b.rows[p].filled && b'.rows[p].average == b.rows[p].average))
  {
    hide VisitLocalEntry, LiveEntry, Rearm;
    match t
    case Visit(quotes, now) => VisitIsReported(cfg, b, p, quotes, now);
    case Answer(answers, now) => AnswerIsReported(cfg, b, p, answers, now);
    case Late(now) => RearmUntouched(cfg, b, p, now, p);
    case _ =>
  }

  lemma VisitIsReported(cfg: Config, b: Book, p: OrderId, quotes: map<string, Quote>, now: Time)
    requires EntryOf(b, p)
    ensures var (b', es) := VisitLocalEntry(cfg, b, p, quotes, now);
            && p in b'.rows && SameOrder(b.rows[p], b'.rows[p])
            && (Tells(es, p) || (b'.rows[p].filled == b.rows[p].filled && b'.rows[p].average == b.rows[p].average))
  {
    hide PaperEntryFill, Rearm;
    var r := b.rows[p];
    if r.market in quotes {
      PaperFillIsReported(cfg, b, p, quotes[r.market], now);
      var (b1, e1) := PaperEntryFill(cfg, b, p, quotes[r.market], now);
      RearmUntouched(cfg, b1, p, now, p);
      var e2 := Rearm(cfg, b1, p, now).1;
      assert forall e :: e in e1 ==> e in e1 + e2;
    }
    RearmUntouched(cfg, b, p, now, p);
  }

  lemma PaperFillIsReported(cfg: Config, b: Book, p: OrderId, q: Quote, now: Time)
    requires EntryOf(b, p)
    ensures var (b', es) := PaperEntryFill(cfg, b, p, q, now);
            && EntryOf(b', p) && SameOrder(b.rows[p], b'.rows[p])
            && (Tells(es, p) || (b'.rows[p].filled == b.rows[p].filled && b'.rows[p].average == b.rows[p].average))
  {
    hide Fill, Arm, PaperFillSize;
    var r := b.rows[p];
    var price := ContractPrice(r.direction, OrElse(q.midpoint, r.price));
    var size := PaperFillSize(cfg, r);
    var r' := Fill(r, size, price, now);
    FillKeepsOrder(r, size, price, now);
    FillNotArmed(r, size, price, now);
    var b1 := Put(b, r');
    if price <= r.price + cfg.tolerance {
      assert PaperEntryFill(cfg, b, p, q, now).1[0] == EntryEvent(r', price, size);
      if cfg.brackets {
        ArmUntouched(b1, p, DefaultSpec(cfg).value, now, p);
      }
    }
  }

  lemma FillNotArmed(r: Row, size: real, price: real, now: Time)
    requires r.status != Armed
    ensures Fill(r, size, price, now).status != Armed
  {
    hide Round8;
  }

  lemma AnswerIsReported(cfg: Config, b: Book, p: OrderId, answers: seq<LiveRow>, now: Time)
    requires EntryOf(b, p)
    ensures var (b', es) := LiveEntry(cfg, b, p, answers, now);
            && p in b'.rows && SameOrder(b.rows[p], b'.rows[p])
            && (Tells(es, p) || (b'.rows[p].filled == b.rows[p].filled && b'.rows[p].average == b.rows[p].average))
  {
    hide LiveFill, LiveStatus, Arm, Tells;
    LiveFillIsReported(b, p, answers, now);
    var (b1, e1) := LiveFill(b, p, answers, now);
    LiveStatusKeepsFill(b1, p, answers);
    var (b2, e2) := LiveStatus(b1, p, answers);
    TellsMore(e1, e2, p);
    if cfg.brackets {
      ArmUntouched(b2, p, DefaultSpec(cfg).value, now, p);
      TellsMore(e1 + e2, Arm(b2, p, DefaultSpec(cfg).value, now).1, p);
    }
  }

  lemma TellsMore(es: seq<Event>, more: seq<Event>, p: OrderId)
    ensures Tells(es, p) ==> Tells(es + more, p)
  {
    assert forall e :: e in es ==> e in es + more;
  }

  lemma LiveStatusKeepsFill(b: Book, p: OrderId, answers: seq<LiveRow>)
    requires EntryOf(b, p)
    ensures var b' := LiveStatus(b, p, answers).0;
            && EntryOf(b', p) && SameOrder(b.rows[p], b'.rows[p]) && SameLedger(b.rows[p], b'.rows[p])
            && (b.rows[p].status == Filled ==> b' == b)
  {}

  lemma LiveFillIsReported(b: Book, p: OrderId, answers: seq<LiveRow>, now: Time)
    requires EntryOf(b, p)
    ensures var (b', es) := LiveFill(b, p, answers, now);
            && EntryOf(b', p) && SameOrder(b.rows[p], b'.rows[p])
            && (Tells(es, p) || b' == b)
  {
    hide Fill, TotalFilled, LastPrice;
    var r := b.rows[p];
    var price := LastPrice(answers, ActivePrice(r));
    var delta := Max(TotalFilled(answers) - r.filled, 0.0);
    FillKeepsOrder(r, delta, price, now);
    FillNotArmed(r, delta, price, now);
    if delta > 0.0 {
      assert LiveFill(b, p, answers, now).1[0].order == p;
    }
  }

  lemma AnswerStep(cfg: Config, b: Book, p: OrderId, answers: seq<LiveRow>, now: Time)
    requires EntryOf(b, p) && LiveManaged(cfg, b.rows[p])
    ensures Step(cfg, b, On(p, Answer(answers, now))).0 == LiveEntry(cfg, b, p, answers, now).0
  {
    hide LiveEntry;
  }

  lemma CancelIsOrder(cfg: Config, b: Book, a: Action)
    requires a.Cancel?
    ensures Step(cfg, b, a).0 == CancelOrder(cfg, b, a.id, a.exchangeOk).0
  {
    hide CancelOrder;
  }
}
