/** Buying NO is buying YES in the mirror: with every quote x replaced by 1 - x and every side by the other, any run of
    the executor does the same, order for order and event for event. */
module Mirror {
  import opened Rounding
  import opened Options
  import opened Orders

  // ----- the mirror -------------------------------------------------------------------------------

  function Opposite(direction: string): string {
    if direction == "YES" then "NO" else "YES"
  }

  ghost function FlipRow(r: Row): Row {
    r.(direction := Opposite(r.direction))
  }

  ghost function Flip(b: Book): Book {
    b.(rows := map id | id in b.rows :: FlipRow(b.rows[id]))
  }

  function Complement(x: Option<real>): Option<real> {
    if x.Some? then Some(1.0 - x.value) else None
  }

  function FlipQuote(q: Quote): Quote {
    Quote(Complement(q.midpoint), Complement(q.bestBid), Complement(q.bestAsk))
  }

  ghost function FlipQuotes(quotes: map<string, Quote>): map<string, Quote> {
    map m | m in quotes :: FlipQuote(quotes[m])
  }

  /** A request on the other side; one that names no side names none in the mirror. */
  function FlipRequest(req: Request): Request {
    req.(price := 1.0 - req.price,
         direction := if req.direction == "YES" || req.direction == "NO" then Opposite(req.direction)
                      else req.direction)
  }

  ghost function FlipAction(a: Action): Action {
    match a
    case Place(req, killed, now) => Place(FlipRequest(req), killed, now)
    case Close(market, direction, size, price, now) => Close(market, Opposite(direction), size, price, now)
    case Cancel(id, ok) => a
    case On(id, t) => if t.Visit? then On(id, Visit(FlipQuotes(t.quotes), t.now)) else a
  }

  ghost function FlipActions(actions: seq<Action>): seq<Action> {
    seq(|actions|, i requires 0 <= i < |actions| => FlipAction(actions[i]))
  }

  /** Every market that is quoted has a midpoint. */
  ghost predicate Quoted(a: Action) {
    a.On? && a.touch.Visit? ==> forall m :: m in a.touch.quotes ==> a.touch.quotes[m].midpoint.Some?
  }

  // ----- single changes ---------------------------------------------------------------------------

  lemma FillFlips(r: Row, size: real, price: real, now: Time)
    ensures Fill(FlipRow(r), size, price, now) == FlipRow(Fill(r, size, price, now))
  {
    hide Round8;
    var taken := TakenSize(r, size);
    assert TakenSize(FlipRow(r), size) == taken;
    if taken > 0.0 {
      assert NewAverage(FlipRow(r), price, taken) == NewAverage(r, price, taken);
    }
    hide TakenSize, NewAverage;
  }

  lemma PutFlips(b: Book, r: Row)
    ensures Put(Flip(b), FlipRow(r)) == Flip(Put(b, r))
  {
    assert Put(Flip(b), FlipRow(r)).rows == Flip(Put(b, r)).rows;
  }

  lemma InsertFlips(b: Book, r: Row)
    ensures Insert(Flip(b), FlipRow(r)) == Flip(Insert(b, r))
  {
    assert Insert(Flip(b), FlipRow(r)).rows == Flip(Insert(b, r)).rows;
  }

  lemma RowFlips(b: Book, id: OrderId)
    ensures id in Flip(b).rows <==> id in b.rows
    ensures id in b.rows ==> Flip(b).rows[id] == FlipRow(b.rows[id])
    ensures Known(Flip(b), id) <==> Known(b, id)
  {}

  /** Replacing a row, whatever of it changes. */
  lemma ReplaceFlips(b: Book, id: OrderId, r: Row)
    ensures Flip(b).(rows := Flip(b).rows[id := FlipRow(r)]) == Flip(b.(rows := b.rows[id := r]))
  {
    assert Flip(b).rows[id := FlipRow(r)] == Flip(b.(rows := b.rows[id := r])).rows;
  }

  lemma StatusFlips(b: Book, id: OrderId, s: Status)
    requires id in b.rows
    ensures SetStatus(Flip(b), id, s) == Flip(SetStatus(b, id, s))
  {
    ReplaceFlips(b, id, b.rows[id].(status := s));
  }

  lemma BracketFlips(b: Book, id: OrderId, s: BracketState)
    requires id in b.rows
    ensures SetBracketState(Flip(b), id, s) == Flip(SetBracketState(b, id, s))
  {
    ReplaceFlips(b, id, b.rows[id].(bracketState := s));
  }

  // ----- arming -----------------------------------------------------------------------------------

  lemma {:induction false} SyncFlips(b: Book, ids: seq<OrderId>, size: real)
    ensures SyncChildren(Flip(b), ids, size) == Flip(SyncChildren(b, ids, size))
  {
    if ids == [] {
    } else {
      var init, id := ids[..|ids| - 1], ids[|ids| - 1];
      SyncFlips(b, init, size);
      var mid := SyncChildren(b, init, size);
      RowFlips(mid, id);
      if id in mid.rows {
        ReplaceFlips(mid, id, mid.rows[id].(size := size, remaining := size));
      }
    }
  }

  lemma ArmFlips(b: Book, id: OrderId, spec: BracketSpec, now: Time)
    requires Known(b, id)
    ensures Known(Flip(b), id)
    ensures Arm(Flip(b), id, spec, now) == (Flip(Arm(b, id, spec, now).0), Arm(b, id, spec, now).1)
  {
    RowFlips(b, id);
    var p := b.rows[id];
    hide SyncChildren, TakeProfitLevel, StopLossLevel;
    if p.kind != Entry {
    } else if p.bracketIds != [] {
      var p' := WithLevels(p, spec).(bracketState := BracketArmed);
      PutFlips(b, p');
      hide Flip;
      SyncFlips(Put(b, p'), p.bracketIds, ActiveSize(p));
    } else {
      CreateFlips(b, p, spec, now);
      hide Flip, CreateChildren;
    }
  }

  lemma ChildFlips(p: Row, kind: Kind, id: OrderId, group: nat, level: real, spec: BracketSpec, now: Time)
    ensures var c := Child(p, kind, id, group, level, spec, now);
            && Child(FlipRow(p), kind, id, group, level, spec, now) == FlipRow(c) && c.id == id
  {}

  lemma CreateFlips(b: Book, p: Row, spec: BracketSpec, now: Time)
    ensures CreateChildren(Flip(b), FlipRow(p), spec, now)
            == (Flip(CreateChildren(b, p, spec, now).0), CreateChildren(b, p, spec, now).1)
  {
    hide TakeProfitLevel, StopLossLevel, Flip, Insert, Put, Child;
    var group, tpId, slId := b.next, b.next + 1, b.next + 2;
    var high, low := TakeProfitLevel(ActivePrice(p), spec), StopLossLevel(ActivePrice(p), spec);
    var tp := Child(p, TakeProfit, tpId, group, high, spec, now);
    var sl := Child(p, StopLoss, slId, group, low, spec, now);
    ChildFlips(p, TakeProfit, tpId, group, high, spec, now);
    ChildFlips(p, StopLoss, slId, group, low, spec, now);
    var parent := WithLevels(p, spec).(bracketIds := [tpId, slId], bracketState := BracketArmed);
    var b0 := b.(next := b.next + 3);
    NextFlips(b, b.next + 3);
    InsertFlips(b0, tp);
    InsertFlips(Insert(b0, tp), sl);
    PutFlips(Insert(Insert(b0, tp), sl), parent);
  }

  lemma NextFlips(b: Book, next: nat)
    ensures Flip(b.(next := next)) == Flip(b).(next := next) && Flip(b).next == b.next
  {}

  lemma RearmFlips(cfg: Config, b: Book, id: OrderId, now: Time)
    requires Known(b, id)
    ensures Known(Flip(b), id)
    ensures Rearm(cfg, Flip(b), id, now) == (Flip(Rearm(cfg, b, id, now).0), Rearm(cfg, b, id, now).1)
  {
    RowFlips(b, id);
    hide Flip, Arm;
    if cfg.brackets {
      ArmFlips(b, id, DefaultSpec(cfg).value, now);
    }
  }

  // ----- visits of entries ------------------------------------------------------------------------

  lemma PriceFlips(direction: string, x: real)
    ensures ContractPrice(Opposite(direction), 1.0 - x) == ContractPrice(direction, x)
  {}

  /** The fill of a visit at a price, before anything is armed. */
  ghost function PaperFilled(cfg: Config, b: Book, id: OrderId, price: real, now: Time): Book
    requires Known(b, id)
  {
    Put(b, Fill(b.rows[id], PaperFillSize(cfg, b.rows[id]), price, now))
  }

  lemma FilledFlips(cfg: Config, b: Book, id: OrderId, price: real, now: Time)
    requires Known(b, id)
    ensures Known(Flip(b), id) && Known(PaperFilled(cfg, b, id, price, now), id)
    ensures PaperFilled(cfg, Flip(b), id, price, now) == Flip(PaperFilled(cfg, b, id, price, now))
  {
    RowFlips(b, id);
    var r := b.rows[id];
    var size := PaperFillSize(cfg, r);
    assert PaperFillSize(cfg, FlipRow(r)) == size;
    FillFlips(r, size, price, now);
    FillKeepsOrder(r, size, price, now);
    PutFlips(b, Fill(r, size, price, now));
    hide Flip, Fill, PassSize;
  }

  lemma PaperFillFlips(cfg: Config, b: Book, id: OrderId, q: Quote, now: Time)
    requires Known(b, id) && q.midpoint.Some?
    ensures Known(Flip(b), id)
    ensures PaperEntryFill(cfg, Flip(b), id, FlipQuote(q), now)
            == (Flip(PaperEntryFill(cfg, b, id, q, now).0), PaperEntryFill(cfg, b, id, q, now).1)
  {
    hide Flip, Fill, Arm, ContractPrice, PassSize;
    RowFlips(b, id);
    var r := b.rows[id];
    var price, size := ContractPrice(r.direction, q.midpoint.value), PaperFillSize(cfg, r);
    PriceFlips(r.direction, q.midpoint.value);
    FillFlips(r, size, price, now);
    FilledFlips(cfg, b, id, price, now);
    assert PaperFilled(cfg, b, id, price, now) == Put(b, Fill(r, size, price, now));
    assert PaperFilled(cfg, Flip(b), id, price, now) == Put(Flip(b), Fill(FlipRow(r), size, price, now));
    var b' := PaperFilled(cfg, b, id, price, now);
    hide Put, PaperFilled;
    if cfg.brackets {
      ArmFlips(b', id, DefaultSpec(cfg).value, now);
    }
  }

  lemma QuoteFlips(quotes: map<string, Quote>, m: string)
    ensures m in FlipQuotes(quotes) <==> m in quotes
    ensures m in quotes ==> FlipQuotes(quotes)[m] == FlipQuote(quotes[m])
  {}

  lemma VisitEntryFlips(cfg: Config, b: Book, id: OrderId, quotes: map<string, Quote>, now: Time)
    requires Known(b, id) && forall m :: m in quotes ==> quotes[m].midpoint.Some?
    ensures Known(Flip(b), id)
    ensures VisitLocalEntry(cfg, Flip(b), id, FlipQuotes(quotes), now)
            == (Flip(VisitLocalEntry(cfg, b, id, quotes, now).0), VisitLocalEntry(cfg, b, id, quotes, now).1)
  {
    hide Flip, PaperEntryFill, Rearm, FlipQuote, FlipQuotes;
    RowFlips(b, id);
    RearmFlips(cfg, b, id, now);
    var r := b.rows[id];
    QuoteFlips(quotes, r.market);
    if r.market in quotes {
      PaperFillFlips(cfg, b, id, quotes[r.market], now);
      RearmFlips(cfg, PaperEntryFill(cfg, b, id, quotes[r.market], now).0, id, now);
    }
  }

  lemma LiveFillFlips(b: Book, id: OrderId, answers: seq<LiveRow>, now: Time)
    requires Known(b, id)
    ensures Known(Flip(b), id)
    ensures LiveFill(Flip(b), id, answers, now)
            == (Flip(LiveFill(b, id, answers, now).0), LiveFill(b, id, answers, now).1)
  {
    hide Flip, Fill, LastPrice, TotalFilled;
    RowFlips(b, id);
    var r := b.rows[id];
    var price, delta := LastPrice(answers, ActivePrice(r)), Max(TotalFilled(answers) - r.filled, 0.0);
    FillFlips(r, delta, price, now);
    FillKeepsOrder(r, delta, price, now);
    PutFlips(b, Fill(r, delta, price, now));
  }

  lemma LiveEntryFlips(cfg: Config, b: Book, id: OrderId, answers: seq<LiveRow>, now: Time)
    requires Known(b, id)
    ensures Known(Flip(b), id)
    ensures LiveEntry(cfg, Flip(b), id, answers, now)
            == (Flip(LiveEntry(cfg, b, id, answers, now).0), LiveEntry(cfg, b, id, answers, now).1)
  {
    RowFlips(b, id);
    hide Flip, LiveFill, Arm, LiveStatus;
    LiveFillFlips(b, id, answers, now);
    var b1 := LiveFill(b, id, answers, now).0;
    LiveStatusFlips(b1, id, answers);
    var b2 := LiveStatus(b1, id, answers).0;
    RowFlips(b2, id);
    if cfg.brackets {
      ArmFlips(b2, id, DefaultSpec(cfg).value, now);
    }
  }

  lemma LiveStatusFlips(b: Book, id: OrderId, answers: seq<LiveRow>)
    requires Known(b, id)
    ensures Known(Flip(b), id)
    ensures LiveStatus(Flip(b), id, answers) == (Flip(LiveStatus(b, id, answers).0), LiveStatus(b, id, answers).1)
  {
    RowFlips(b, id);
    StatusFlips(b, id, Cancelled);
    StatusFlips(b, id, Expired);
    hide Flip, SetStatus;
  }

  // ----- visits of children -----------------------------------------------------------------------

  lemma {:induction false} SiblingsFlip(b: Book, keys: seq<OrderId>, self: Row)
    ensures Siblings(Flip(b), keys, FlipRow(self)) == Siblings(b, keys, self)
  {
    if keys == [] {
    } else {
      SiblingsFlip(b, keys[..|keys| - 1], self);
      RowFlips(b, keys[|keys| - 1]);
      hide Flip;
    }
  }

  lemma {:induction false} OcoEventsFlip(b: Book, ids: seq<OrderId>, self: OrderId)
    ensures OcoEvents(Flip(b), ids, self) == OcoEvents(b, ids, self)
  {
    if ids == [] {
    } else {
      OcoEventsFlip(b, ids[..|ids| - 1], self);
      RowFlips(b, ids[|ids| - 1]);
      hide Flip;
    }
  }

  lemma CancelSiblingsFlips(b: Book, self: Row)
    ensures CancelSiblings(Flip(b), FlipRow(self)) == Flip(CancelSiblings(b, self))
  {
    assert CancelSiblings(Flip(b), FlipRow(self)).rows == Flip(CancelSiblings(b, self)).rows;
  }

  lemma ParentFlips(b: Book, parent: Option<OrderId>, s: BracketState)
    ensures ParentState(Flip(b), parent, s) == Flip(ParentState(b, parent, s))
  {
    if parent.Some? && parent.value in b.rows {
      BracketFlips(b, parent.value, s);
    }
    hide SetBracketState;
  }

  lemma TriggerFlips(b: Book, id: OrderId, price: real, now: Time)
    requires Known(b, id)
    ensures Known(Flip(b), id)
    ensures TriggerChild(Flip(b), id, price, now)
            == (Flip(TriggerChild(b, id, price, now).0), TriggerChild(b, id, price, now).1)
  {
    RowFlips(b, id);
    var r := b.rows[id];
    var size := if r.remaining != 0.0 then r.remaining else r.size;
    var r' := Fill(r, size, price, now);
    FillFlips(r, size, price, now);
    PutFlips(b, r');
    ParentFlips(Put(b, r'), r.parent, Closed);
    var b1 := ParentState(Put(b, r'), r.parent, Closed);
    SiblingsFlip(b1, b1.keys, r');
    OcoEventsFlip(b1, Siblings(b1, b1.keys, r'), id);
    CancelSiblingsFlips(b1, r');
    SameKeys(b1);
    assert OcoEvents(Flip(b1), [], id) == OcoEvents(b1, [], id);
    hide Flip, Fill, OcoEvents, Siblings, CancelSiblings, ParentState;
  }

  lemma SameKeys(b: Book)
    ensures Flip(b).keys == b.keys
  {}

  lemma EvalFlips(r: Row, q: Quote)
    requires q.midpoint.Some?
    ensures EvalPrice(FlipRow(r), FlipQuote(q)) == EvalPrice(r, q)
  {}

  lemma VisitChildFlips(b: Book, id: OrderId, quotes: map<string, Quote>, now: Time)
    requires Known(b, id) && IsChild(b.rows[id].kind) && forall m :: m in quotes ==> quotes[m].midpoint.Some?
    ensures Known(Flip(b), id) && IsChild(Flip(b).rows[id].kind)
    ensures VisitChild(Flip(b), id, FlipQuotes(quotes), now)
            == (Flip(VisitChild(b, id, quotes, now).0), VisitChild(b, id, quotes, now).1)
  {
    hide Flip, TriggerChild, EvalPrice, FlipQuote, FlipQuotes, SetStatus, ParentState, Fires;
    RowFlips(b, id);
    var r := b.rows[id];
    QuoteFlips(quotes, r.market);
    if r.market in quotes {
      EvalFlips(r, quotes[r.market]);
      TriggerFlips(b, id, EvalPrice(r, quotes[r.market]), now);
    }
    StatusFlips(b, id, Expired);
    ParentFlips(SetStatus(b, id, Expired), r.parent, BracketExpired);
  }

  // ----- cancelling, placing and closing ----------------------------------------------------------

  lemma {:induction false} CancelChildrenFlips(b: Book, ids: seq<OrderId>)
    ensures CancelChildren(Flip(b), ids) == Flip(CancelChildren(b, ids))
  {
    if ids == [] {
    } else {
      var init, id := ids[..|ids| - 1], ids[|ids| - 1];
      CancelChildrenFlips(b, init);
      var mid := CancelChildren(b, init);
      RowFlips(mid, id);
      if id in mid.rows {
        StatusFlips(mid, id, Cancelled);
      }
      hide Flip, SetStatus;
    }
  }

  lemma CancelFlips(cfg: Config, b: Book, id: OrderId, ok: bool)
    ensures CancelOrder(cfg, Flip(b), id, ok) == (Flip(CancelOrder(cfg, b, id, ok).0), CancelOrder(cfg, b, id, ok).1)
  {
    RowFlips(b, id);
    if id in b.rows {
      var b1 := SetStatus(b, id, Cancelled);
      StatusFlips(b, id, Cancelled);
      BracketFlips(b1, id, BracketCancelled);
      var b2 := SetBracketState(b1, id, BracketCancelled);
      CancelChildrenFlips(b2, b.rows[id].bracketIds);
      hide Flip, SetStatus, SetBracketState, CancelChildren;
    }
  }

  lemma EntryFlips(cfg: Config, id: OrderId, req: Request, now: Time)
    requires req.direction == "YES" || req.direction == "NO"
    ensures EntryRow(cfg, id, FlipRequest(req), now) == FlipRow(EntryRow(cfg, id, req, now))
  {
    PriceFlips(req.direction, req.price);
    hide ContractPrice, ClampPrice;
  }

  /** The entry in the table, before anything else happens to it. */
  ghost function Entered(b: Book, entry: Row): Book {
    Insert(b.(next := b.next + 1), entry)
  }

  lemma EnteredFlips(b: Book, entry: Row)
    ensures Entered(Flip(b), FlipRow(entry)) == Flip(Entered(b, entry)) && Flip(b).next == b.next
  {
    NextFlips(b, b.next + 1);
    InsertFlips(b.(next := b.next + 1), entry);
    hide Insert, Flip;
  }

  lemma PlaceFlips(cfg: Config, b: Book, req: Request, now: Time)
    requires req.direction == "YES" || req.direction == "NO"
    ensures PlaceEntry(cfg, Flip(b), FlipRequest(req), now) == Flip(PlaceEntry(cfg, b, req, now))
  {
    hide Flip, Fill, Arm, Insert, EntryRow;
    var entry := EntryRow(cfg, b.next, req, now);
    assert entry.id == b.next by {
      EntryNamed(cfg, b.next, req, now);
    }
    EntryFlips(cfg, b.next, req, now);
    EnteredFlips(b, entry);
    var b1 := Entered(b, entry);
    var filled := Fill(entry, req.size, entry.price, now);
    FillFlips(entry, req.size, entry.price, now);
    FillKeepsOrder(entry, req.size, entry.price, now);
    PutFlips(b1, filled);
    assert Known(Put(b1, filled), entry.id);
    if ChosenSpec(cfg, req).Some? {
      ArmFlips(Put(b1, filled), entry.id, ChosenSpec(cfg, req).value, now);
    }
    hide Put;
  }

  lemma EntryNamed(cfg: Config, id: OrderId, req: Request, now: Time)
    ensures EntryRow(cfg, id, req, now).id == id
  {}

  lemma CloseFlips(cfg: Config, b: Book, market: string, direction: string, size: real, price: real, now: Time)
    ensures ClosePosition(cfg, Flip(b), market, Opposite(direction), size, price, now)
            == Flip(ClosePosition(cfg, b, market, direction, size, price, now))
  {
    var r := CloseRow(cfg, b.next, market, direction, size, price, now);
    EnteredFlips(b, r);
    FillFlips(r, size, r.price, now);
    PutFlips(Entered(b, r), Fill(r, size, r.price, now));
    hide Flip, Fill, Insert;
  }

  // ----- runs -------------------------------------------------------------------------------------

  lemma TouchFlips(cfg: Config, b: Book, id: OrderId, t: Touch)
    requires Known(b, id) && Quoted(On(id, t))
    ensures Known(Flip(b), id)
    ensures StepOn(cfg, Flip(b), id, FlipAction(On(id, t)).touch)
            == (Flip(StepOn(cfg, b, id, t).0), StepOn(cfg, b, id, t).1)
  {
    RowFlips(b, id);
    hide Flip, FlipQuotes, VisitChild, VisitLocalEntry, LiveEntry, Rearm;
    match t
    case Settle(ok, bracketed) =>
      StatusFlips(b, id, Cancelled);
      BracketFlips(b, id, PendingFill);
    case Visit(quotes, now) =>
      if IsChild(b.rows[id].kind) {
        VisitChildFlips(b, id, quotes, now);
      } else {
        VisitEntryFlips(cfg, b, id, quotes, now);
      }
    case Answer(answers, now) => LiveEntryFlips(cfg, b, id, answers, now);
    case Late(now) => RearmFlips(cfg, b, id, now);
    case Confirm =>
      StatusFlips(b, id, Cancelled);
      BracketFlips(SetStatus(b, id, Cancelled), id, BracketCancelled);
    case Expire(now) => StatusFlips(b, id, Expired);
    case CloseFailed => StatusFlips(b, id, Cancelled);
  }

  lemma StepFlips(cfg: Config, b: Book, a: Action)
    requires Quoted(a)
    ensures Step(cfg, Flip(b), FlipAction(a)) == (Flip(Step(cfg, b, a).0), Step(cfg, b, a).1)
  {
    hide Flip, StepOn, PlaceEntry, ClosePosition, CancelOrder, FlipQuotes, Quoted;
    match a
    case Place(req, killed, now) =>
      if Acceptable(cfg, killed, req) {
        PlaceFlips(cfg, b, req, now);
      }
    case Close(market, direction, size, price, now) => CloseFlips(cfg, b, market, direction, size, price, now);
    case Cancel(id, ok) => CancelFlips(cfg, b, id, ok);
    case On(id, t) =>
      RowFlips(b, id);
      if Known(b, id) {
        TouchFlips(cfg, b, id, t);
      }
  }

  /** As long as every quoted market has a midpoint: in the mirror any run leaves the mirrored table and reports the
      very same events, with the same fills and prices. */
  lemma {:induction false} RunIsMirrored(cfg: Config, b: Book, actions: seq<Action>)
    requires forall a :: a in actions ==> Quoted(a)
    ensures Run(cfg, Flip(b), FlipActions(actions)) == (Flip(Run(cfg, b, actions).0), Run(cfg, b, actions).1)
  {
    hide Flip, Step, FlipAction, Quoted;
    if actions == [] {
    } else {
      var n := |actions| - 1;
      RunIsMirrored(cfg, b, actions[..n]);
      assert FlipActions(actions)[..n] == FlipActions(actions[..n]);
      StepFlips(cfg, Run(cfg, b, actions[..n]).0, actions[n]);
    }
  }

  /** Without a midpoint the mirror can break: an entry of YES at a limit of 0.7 fills at 0.7, its mirror at 0.3. */
  lemma MidpointIsNeeded(cfg: Config, r: Row)
    requires r.direction == "YES" && r.price == 0.7 && r.kind == Entry && r.isPaper && r.status == Placed
    requires r.filled == 0.0 && r.remaining == r.size > 0.0 && r.average == None
    requires !cfg.allowPartial && !cfg.brackets && cfg.tolerance >= 0.0
    ensures var b, quotes := Book(map[r.id := r], [r.id], r.id + 1), map[r.market := Quote(None, None, None)];
            var a := On(r.id, Visit(quotes, 0.0));
            && r.id in Step(cfg, b, a).0.rows && r.id in Step(cfg, Flip(b), FlipAction(a)).0.rows
            && Step(cfg, b, a).0.rows[r.id].average == Some(0.7)
            && Step(cfg, Flip(b), FlipAction(a)).0.rows[r.id].average == Some(0.3)
  {
    hide Round8;
  }
}
