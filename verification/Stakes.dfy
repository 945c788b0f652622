/** What an exit sells against what its row books: a second part fill of a paper entry enlarges the stake of the row,
    but not the children of the entry. */
module Stakes {
  import opened Rounding
  import opened Options
  import opened Orders
  import opened OrderInvariants
  import opened OrderRuns
  import opened Passes
  import opened Touches
  import opened FillLedger
  import opened EntryFills
  import opened Sweeps
  import opened Overtake
  import opened Tracker
  import opened Desk
  import opened BracketExits

  /** The child is as large as what its entry holds. */
  ghost predicate Matched(b: Book, p: OrderId, c: OrderId) {
    p in b.rows && c in b.rows && b.rows[c].size == ActiveSize(b.rows[p])
  }

  /** `c` is a child of the entry `p`, in whatever state. */
  ghost predicate ChildOf(b: Book, p: OrderId, c: OrderId) {
    && p in b.rows && b.rows[p].kind == Entry
    && c in b.rows && IsChild(b.rows[c].kind) && b.rows[c].parent == Some(p)
  }

  // ----- what leaves the size of a child alone ----------------------------------------------------

  lemma {:induction false} SyncLeavesSize(b: Book, ids: seq<OrderId>, size: real, c: OrderId)
    requires c in b.rows && c !in ids
    ensures var b' := SyncChildren(b, ids, size); c in b'.rows && b'.rows[c] == b.rows[c]
  {
    if ids == [] {
    } else {
      SyncLeavesSize(b, ids[..|ids| - 1], size, c);
    }
  }

  lemma {:induction false} SyncSets(b: Book, ids: seq<OrderId>, size: real, c: OrderId)
    requires c in b.rows && c in ids && b.rows[c].status == Armed
    ensures var b' := SyncChildren(b, ids, size); c in b'.rows && b'.rows[c].size == size
  {
    var init, last := ids[..|ids| - 1], ids[|ids| - 1];
    assert ids == init + [last];
    if last == c {
      SyncKeepsStatus(b, init, size, c);
    } else {
      SyncSets(b, init, size, c);
    }
  }

  lemma ArmLeavesSize(b: Book, id: OrderId, spec: BracketSpec, now: Time, c: OrderId)
    requires Known(b, id) && c in b.rows && c < b.next && c != id && c !in b.rows[id].bracketIds
    ensures var b' := Arm(b, id, spec, now).0; c in b'.rows && b'.rows[c] == b.rows[c]
  {
    hide TakeProfitLevel, StopLossLevel, SyncChildren;
    var r := b.rows[id];
    if r.kind == Entry && r.bracketIds != [] {
      SyncLeavesSize(Put(b, WithLevels(r, spec).(bracketState := BracketArmed)), r.bracketIds, ActiveSize(r), c);
    }
  }

  lemma RearmLeavesSize(cfg: Config, b: Book, id: OrderId, now: Time, c: OrderId)
    requires Known(b, id) && c in b.rows && c < b.next && c != id && c !in b.rows[id].bracketIds
    ensures var b' := Rearm(cfg, b, id, now).0; c in b'.rows && b'.rows[c] == b.rows[c]
  {
    hide Arm;
    if cfg.brackets {
      ArmLeavesSize(b, id, DefaultSpec(cfg).value, now, c);
    }
  }

  lemma PaperLeavesSize(cfg: Config, b: Book, id: OrderId, q: Quote, now: Time, c: OrderId)
    requires Known(b, id) && c in b.rows && c < b.next && c != id && c !in b.rows[id].bracketIds
    ensures var b' := PaperEntryFill(cfg, b, id, q, now).0; c in b'.rows && b'.rows[c] == b.rows[c]
  {
    hide Fill, Arm, PaperFillSize;
    var r := b.rows[id];
    var price := ContractPrice(r.direction, OrElse(q.midpoint, r.price));
    FillKeepsOrder(r, PaperFillSize(cfg, r), price, now);
    var b1 := Put(b, Fill(r, PaperFillSize(cfg, r), price, now));
    if cfg.brackets {
      ArmLeavesSize(b1, id, DefaultSpec(cfg).value, now, c);
    }
  }

  lemma LiveLeavesSize(cfg: Config, b: Book, id: OrderId, answers: seq<LiveRow>, now: Time, c: OrderId)
    requires Known(b, id) && c in b.rows && c < b.next && c != id && c !in b.rows[id].bracketIds
    ensures var b' := LiveEntry(cfg, b, id, answers, now).0; c in b'.rows && b'.rows[c] == b.rows[c]
  {
    hide LiveFill, LiveStatus, Arm;
    LiveFillLeaves(b, id, answers, now, c);
    LiveFillKeepsList(b, id, answers, now);
    var b1 := LiveFill(b, id, answers, now).0;
    LiveStatusLeaves(b1, id, answers, c);
    LiveStatusKeepsList(b1, id, answers);
    var b2 := LiveStatus(b1, id, answers).0;
    if cfg.brackets {
      ArmLeavesSize(b2, id, DefaultSpec(cfg).value, now, c);
    }
  }

  lemma LiveFillKeepsList(b: Book, id: OrderId, answers: seq<LiveRow>, now: Time)
    requires Known(b, id)
    ensures var b' := LiveFill(b, id, answers, now).0; Known(b', id) && b'.rows[id].bracketIds == b.rows[id].bracketIds
  {
    hide Fill, TotalFilled, LastPrice;
    var r := b.rows[id];
    FillKeepsOrder(r, Max(TotalFilled(answers) - r.filled, 0.0), LastPrice(answers, ActivePrice(r)), now);
  }

  lemma LiveStatusKeepsList(b: Book, id: OrderId, answers: seq<LiveRow>)
    requires Known(b, id)
    ensures var b' := LiveStatus(b, id, answers).0;
            Known(b', id) && b'.rows[id].bracketIds == b.rows[id].bracketIds && b'.next == b.next
  {}

  lemma {:induction false} CancelChildrenSize(b: Book, ids: seq<OrderId>, c: OrderId)
    requires c in b.rows
    ensures var b' := CancelChildren(b, ids); c in b'.rows && b'.rows[c].size == b.rows[c].size
  {
    if ids == [] {
    } else {
      CancelChildrenSize(b, ids[..|ids| - 1], c);
    }
  }

  lemma CancelLeavesSize(cfg: Config, b: Book, id: OrderId, ok: bool, c: OrderId)
    requires c in b.rows
    ensures var b' := CancelOrder(cfg, b, id, ok).0; c in b'.rows && b'.rows[c].size == b.rows[c].size
  {
    hide CancelChildren;
    if id in b.rows && b.rows[id].kind == Entry {
      var b1 := SetBracketState(SetStatus(b, id, Cancelled), id, BracketCancelled);
      CancelChildrenSize(b1, b.rows[id].bracketIds, c);
    }
  }

  lemma ChildLeavesSize(b: Book, id: OrderId, quotes: map<string, Quote>, now: Time, c: OrderId)
    requires Known(b, id) && IsChild(b.rows[id].kind) && c in b.rows
    ensures var b' := VisitChild(b, id, quotes, now).0; c in b'.rows && b'.rows[c].size == b.rows[c].size
  {
    hide TriggerChild, EvalPrice, Fires;
    if b.rows[id].market in quotes {
      TriggerLeavesSize(b, id, EvalPrice(b.rows[id], quotes[b.rows[id].market]), now, c);
    }
  }

  lemma TriggerLeavesSize(b: Book, id: OrderId, price: real, now: Time, c: OrderId)
    requires Known(b, id) && c in b.rows
    ensures var b' := TriggerChild(b, id, price, now).0; c in b'.rows && b'.rows[c].size == b.rows[c].size
  {
    hide Fill, Siblings, OcoEvents;
    var r := b.rows[id];
    FillKeepsOrder(r, if r.remaining != 0.0 then r.remaining else r.size, price, now);
  }

  lemma PlaceLeavesSize(cfg: Config, b: Book, req: Request, now: Time, c: OrderId)
    requires c in b.rows && c < b.next
    ensures var b' := PlaceEntry(cfg, b, req, now); c in b'.rows && b'.rows[c] == b.rows[c]
  {
    hide Arm, Fill, LimitPrice;
    var entry := EntryRow(cfg, b.next, req, now);
    FillKeepsOrder(entry, req.size, entry.price, now);
    var b2 := Put(Insert(b.(next := b.next + 1), entry), Fill(entry, req.size, entry.price, now));
    if ChosenSpec(cfg, req).Some? {
      ArmLeavesSize(b2, entry.id, ChosenSpec(cfg, req).value, now, c);
    }
  }

  lemma CloseLeavesSize(cfg: Config, b: Book, market: string, direction: string,
                        size: real, price: real, now: Time, c: OrderId)
    requires c in b.rows && c < b.next
    ensures var b' := ClosePosition(cfg, b, market, direction, size, price, now);
            c in b'.rows && b'.rows[c] == b.rows[c]
  {
    hide Fill;
    var r := CloseRow(cfg, b.next, market, direction, size, price, now);
    FillKeepsOrder(r, size, r.price, now);
  }

  /** No other entry lists the child. */
  lemma NotListed(b: Book, p: OrderId, c: OrderId, id: OrderId)
    requires Inv(b) && ChildOf(b, p, c) && id in b.rows && id != p
    ensures c < b.next && (b.rows[id].kind == Entry ==> c !in b.rows[id].bracketIds && id != c)
  {
    hide ShapeOk, Groups, Exclusive, KeysOk;
    assert LinksOk(b, b.rows[id]);
  }

  lemma TouchLeavesSize(cfg: Config, b: Book, id: OrderId, t: Touch, p: OrderId, c: OrderId)
    requires Inv(b) && ChildOf(b, p, c) && Known(b, id) && id != p
    ensures var b' := StepOn(cfg, b, id, t).0; c in b'.rows && b'.rows[c].size == b.rows[c].size
  {
    hide Inv, VisitChild, PaperEntryFill, LiveEntry, Rearm;
    NotListed(b, p, c, id);
    if t.Visit? && IsChild(b.rows[id].kind) {
      ChildLeavesSize(b, id, t.quotes, t.now, c);
    } else if t.Visit? && b.rows[id].kind == Entry {
      RearmLeavesSize(cfg, b, id, t.now, c);
      if b.rows[id].market in t.quotes {
        LocalLeavesSize(cfg, b, id, t.quotes[b.rows[id].market], t.now, p, c);
      }
    } else if t.Answer? && b.rows[id].kind == Entry {
      LiveLeavesSize(cfg, b, id, t.answers, t.now, c);
    } else if t.Late? && b.rows[id].kind == Entry {
      RearmLeavesSize(cfg, b, id, t.now, c);
    }
  }

  lemma LocalLeavesSize(cfg: Config, b: Book, id: OrderId, q: Quote, now: Time, p: OrderId, c: OrderId)
    requires Inv(b) && ChildOf(b, p, c) && Known(b, id) && id != p && b.rows[id].kind == Entry
    ensures var b1 := PaperEntryFill(cfg, b, id, q, now).0;
            var b' := Rearm(cfg, b1, id, now).0;
            c in b'.rows && b'.rows[c].size == b.rows[c].size
  {
    hide PaperEntryFill, Rearm, Inv, OrderInvariants.Moves, Covered;
    NotListed(b, p, c, id);
    PaperLeavesSize(cfg, b, id, q, now, c);
    PaperEntryFillKeeps(cfg, b, id, q, now);
    var b1 := PaperEntryFill(cfg, b, id, q, now).0;
    MovedRow(b, b1, p);
    NotListed(b1, p, c, id);
    RearmLeavesSize(cfg, b1, id, now, c);
  }

  /** Only what is done about its entry resizes a child. */
  lemma OthersLeaveSize(cfg: Config, b: Book, a: Action, p: OrderId, c: OrderId)
    requires Inv(b) && ChildOf(b, p, c) && !About(a, p)
    ensures var b' := Step(cfg, b, a).0; c in b'.rows && b'.rows[c].size == b.rows[c].size
  {
    hide Inv, StepOn, PlaceEntry, ClosePosition, CancelOrder, Acceptable;
    NotListedSelf(b, c);
    match a
    case Place(req, _, now) =>
      PlaceLeavesSize(cfg, b, req, now, c);
    case Close(market, direction, size, price, now) =>
      CloseLeavesSize(cfg, b, market, direction, size, price, now, c);
    case Cancel(id, ok) =>
      CancelLeavesSize(cfg, b, id, ok, c);
    case On(id, t) =>
      if Known(b, id) {
        TouchLeavesSize(cfg, b, id, t, p, c);
      }
  }

  lemma NotListedSelf(b: Book, c: OrderId)
    requires Inv(b) && c in b.rows
    ensures c < b.next
  {
    hide ShapeOk, LinksOk, Groups, Exclusive, KeysOk;
  }

  // ----- what its own entry does to a child -------------------------------------------------------

  /** A visit resizes the children exactly when it changes the status of the entry. */
  lemma OwnVisitSize(cfg: Config, b: Book, p: OrderId, c: OrderId, quotes: map<string, Quote>, now: Time)
    requires Inv(b) && ArmedChild(b, p, c) && b.rows[p].isPaper && cfg.brackets
    ensures var b' := VisitLocalEntry(cfg, b, p, quotes, now).0;
            && p in b'.rows && c in b'.rows
            && b'.rows[c].size
               == if b'.rows[p].status != b.rows[p].status then ActiveSize(b'.rows[p]) else b.rows[c].size
  {
    hide Inv, PaperEntryFill;
    EntryFacts(b, p);
    ListedRows(b, p, c);
    if b.rows[p].market in quotes {
      OwnFillSize(cfg, b, p, c, quotes[b.rows[p].market], now);
    }
  }

  lemma OwnFillSize(cfg: Config, b: Book, p: OrderId, c: OrderId, q: Quote, now: Time)
    requires EntryOf(b, p) && ArmedChild(b, p, c) && c in b.rows[p].bracketIds && cfg.brackets
    ensures var b' := PaperEntryFill(cfg, b, p, q, now).0;
            && p in b'.rows && c in b'.rows && b'.rows[p].bracketIds == b.rows[p].bracketIds
            && b'.rows[c].size
               == if b'.rows[p].status != b.rows[p].status then ActiveSize(b'.rows[p]) else b.rows[c].size
  {
    hide Fill, PaperFillSize, TakeProfitLevel, StopLossLevel, SyncChildren;
    var r := b.rows[p];
    var price := ContractPrice(r.direction, OrElse(q.midpoint, r.price));
    var r' := Fill(r, PaperFillSize(cfg, r), price, now);
    FillKeepsOrder(r, PaperFillSize(cfg, r), price, now);
    FillNotArmed(r, PaperFillSize(cfg, r), price, now);
    var b1 := Put(b, WithLevels(r', DefaultSpec(cfg).value).(bracketState := BracketArmed));
    assert b1 == Put(Put(b, r'), WithLevels(r', DefaultSpec(cfg).value).(bracketState := BracketArmed));
    SyncSets(b1, r.bracketIds, ActiveSize(r'), c);
    SyncUntouched(b1, r.bracketIds, ActiveSize(r'), p);
    SyncKeepsStatus(b1, r.bracketIds, ActiveSize(r'), p);
  }

  /** Cancelling an open entry ends its children. */
  lemma CancelEndsChild(cfg: Config, b: Book, p: OrderId, c: OrderId, ok: bool)
    requires Inv(b) && ArmedChild(b, p, c) && b.rows[p].isPaper
    ensures var b' := CancelOrder(cfg, b, p, ok).0;
            if Final(b.rows[p].status) then b' == b else c in b'.rows && b'.rows[c].status == Cancelled
  {
    hide Inv, CancelChildren;
    ListedRows(b, p, c);
    var b1 := SetBracketState(SetStatus(b, p, Cancelled), p, BracketCancelled);
    CancelsListed(b1, b.rows[p].bracketIds, c);
  }

  lemma {:induction false} CancelsListed(b: Book, ids: seq<OrderId>, c: OrderId)
    requires c in b.rows && c in ids && b.rows[c].status == Armed
    ensures var b' := CancelChildren(b, ids); c in b'.rows && b'.rows[c].status == Cancelled
  {
    var init, last := ids[..|ids| - 1], ids[|ids| - 1];
    assert ids == init + [last];
    if c in init {
      CancelsListed(b, init, c);
    } else {
      CancelLeavesArmed(b, init, c);
    }
  }

  lemma {:induction false} CancelLeavesArmed(b: Book, ids: seq<OrderId>, c: OrderId)
    requires c in b.rows && c !in ids
    ensures var b' := CancelChildren(b, ids); c in b'.rows && b'.rows[c] == b.rows[c]
  {
    if ids == [] {
    } else {
      CancelLeavesArmed(b, ids[..|ids| - 1], c);
    }
  }

  // ----- over every run ---------------------------------------------------------------------------

  /** While its entry is filled in part a child keeps its size; completing the entry makes them match. */
  ghost predicate Sized(b: Book, p: OrderId, c: OrderId, size: real) {
    && Working(b, p) && b.rows[p].status != Placed && c in b.rows
    && b.rows[c].size == if b.rows[p].status == Filled then ActiveSize(b.rows[p]) else size
  }

  lemma StepSized(cfg: Config, b: Book, a: Action, p: OrderId, c: OrderId, size: real)
    requires Inv(b) && ArmedChild(b, p, c) && b.rows[p].isPaper && cfg.brackets && Sized(b, p, c, size)
    ensures var b' := Step(cfg, b, a).0;
            c in b'.rows && (b'.rows[c].status == Armed ==> ArmedChild(b', p, c) && Sized(b', p, c, size))
  {
    hide Inv, OrderInvariants.Moves, Step, AfterPasses;
    EntryFacts(b, p);
    StepMoves(cfg, b, a);
    var b' := Step(cfg, b, a).0;
    MovedRow(b, b', c);
    MovedRow(b, b', p);
    if !About(a, p) {
      OthersLeaveSize(cfg, b, a, p, c);
      OthersLeaveAlone(cfg, b, a, p);
    } else if a.Cancel? {
      CancelEndsChild(cfg, b, p, c, a.exchangeOk);
      CancelIsOrder(cfg, b, a);
    } else if a.touch.Visit? {
      VisitSized(cfg, b, a.touch.quotes, a.touch.now, p, c, size);
    } else {
      WorkingIgnores(cfg, b, a.touch, p);
    }
  }

  lemma VisitSized(cfg: Config, b: Book, quotes: map<string, Quote>, now: Time, p: OrderId, c: OrderId, size: real)
    requires Inv(b) && ArmedChild(b, p, c) && b.rows[p].isPaper && cfg.brackets && Sized(b, p, c, size)
    ensures var b' := Step(cfg, b, On(p, Visit(quotes, now))).0; Sized(b', p, c, size)
  {
    hide Inv, Step, AfterPasses;
    EntryFacts(b, p);
    VisitIsLocal(cfg, b, quotes, now, p);
    VisitFollows(cfg, b, quotes, now, p);
    OwnVisitSize(cfg, b, p, c, quotes, now);
    if b.rows[p].status == Filled {
      FilledVisit(cfg, b, quotes, now, p);
    }
    PlacedNoMore(cfg, b, quotes, now, p);
    hide VisitLocalEntry, OfferOf;
  }

  lemma FilledVisit(cfg: Config, b: Book, quotes: map<string, Quote>, now: Time, p: OrderId)
    requires Known(b, p) && b.rows[p].status == Filled
    ensures VisitLocalEntry(cfg, b, p, quotes, now).0 == b
  {}

  lemma PlacedNoMore(cfg: Config, b: Book, quotes: map<string, Quote>, now: Time, p: OrderId)
    requires EntryOf(b, p) && Working(b, p) && b.rows[p].status != Placed
    ensures var b' := VisitLocalEntry(cfg, b, p, quotes, now).0; p in b'.rows && b'.rows[p].status != Placed
  {
    VisitFollows(cfg, b, quotes, now, p);
    hide VisitLocalEntry;
    FillNotPlaced(cfg, b.rows[p], OfferOf(cfg, b.rows[p], On(p, Visit(quotes, now))));
  }

  lemma FillNotPlaced(cfg: Config, r: Row, offers: seq<real>)
    requires |offers| <= 1 && r.status != Placed
    ensures AfterPasses(cfg, r, offers).status != Placed
  {
    hide Round8, NewAverage, TakenSize, PaperFillSize;
    if offers != [] {
      assert offers[..0] == [];
    }
  }

  /** Over any run that leaves it armed, a child of a part-filled paper entry keeps the size it had, until the entry is
      complete. */
  lemma {:induction false} RunSized(cfg: Config, b: Book, actions: seq<Action>, p: OrderId, c: OrderId, size: real)
    requires Inv(b) && ArmedChild(b, p, c) && b.rows[p].isPaper && cfg.brackets && Sized(b, p, c, size)
    ensures var m := Run(cfg, b, actions).0;
            c in m.rows && (m.rows[c].status == Armed ==> ArmedChild(m, p, c) && Sized(m, p, c, size))
  {
    hide Inv, Step, Sized, OrderInvariants.Moves;
    if actions == [] {
    } else {
      var init, a := actions[..|actions| - 1], actions[|actions| - 1];
      RunSized(cfg, b, init, p, c, size);
      RunMoves(cfg, b, init);
      var b1 := Run(cfg, b, init).0;
      MovedRow(b, b1, p);
      RunMoves(cfg, b, actions);
      StepMoves(cfg, b1, a);
      MovedRow(b1, Step(cfg, b1, a).0, c);
      if b1.rows[c].status == Armed {
        StepSized(cfg, b1, a, p, c, size);
      } else {
        EndedChild(b, b1, c);
      }
    }
  }

  lemma EndedChild(b: Book, b1: Book, c: OrderId)
    requires Inv(b1) && OrderInvariants.Moves(b, b1) && c in b.rows && c in b1.rows && IsChild(b.rows[c].kind)
    requires b1.rows[c].status != Armed
    ensures Final(b1.rows[c].status) && IsChild(b1.rows[c].kind)
  {
    MovedRow(b, b1, c);
    ShapeAt(b1, c);
    hide Inv, OrderInvariants.Moves, LedgerOk;
  }

  /** Exactly when the exit of a paper entry sells the stake of its row: from the fill that armed it on, while its child
      is armed, the child matches what the entry holds if and only if the entry is complete or has not filled since. */
  lemma MatchedExactly(cfg: Config, b: Book, actions: seq<Action>, p: OrderId, c: OrderId)
    requires Inv(b) && ArmedChild(b, p, c) && b.rows[p].isPaper && cfg.brackets
    requires b.rows[p].status == PartiallyFilled && b.rows[p].filled > 0.0 && Matched(b, p, c)
    ensures var m := Run(cfg, b, actions).0;
            && p in m.rows && c in m.rows
            && (m.rows[c].status == Armed ==>
                  (Matched(m, p, c) <==> m.rows[p].status == Filled || m.rows[p].filled == b.rows[p].filled))
  {
    hide Inv, OrderInvariants.Moves, Run;
    EntryFacts(b, p);
    RunSized(cfg, b, actions, p, c, b.rows[c].size);
    RunMoves(cfg, b, actions);
    MovedRow(b, Run(cfg, b, actions).0, p);
  }

  // ----- live entries -----------------------------------------------------------------------------

  /** Every answer about a filled live entry makes its armed children match. */
  lemma AnswerMatches(cfg: Config, b: Book, p: OrderId, c: OrderId, answers: seq<LiveRow>, now: Time)
    requires EntryOf(b, p) && ArmedChild(b, p, c) && c in b.rows[p].bracketIds && cfg.brackets && c < b.next
    requires answers != []
    ensures var b' := LiveEntry(cfg, b, p, answers, now).0;
            p in b'.rows && (b'.rows[p].filled > 0.0 ==> Matched(b', p, c))
  {
    hide LiveFill, LiveStatus, TakeProfitLevel, StopLossLevel, SyncChildren;
    LiveFillLeaves(b, p, answers, now, c);
    LiveFillKeepsList(b, p, answers, now);
    LiveFillIsReported(b, p, answers, now);
    var b1 := LiveFill(b, p, answers, now).0;
    LiveStatusLeaves(b1, p, answers, c);
    LiveStatusKeepsList(b1, p, answers);
    LiveStatusKeepsFill(b1, p, answers);
    var b2 := LiveStatus(b1, p, answers).0;
    var r := b2.rows[p];
    var b3 := Put(b2, WithLevels(r, DefaultSpec(cfg).value).(bracketState := BracketArmed));
    SyncSets(b3, r.bracketIds, ActiveSize(r), c);
    SyncUntouched(b3, r.bracketIds, ActiveSize(r), p);
  }

  lemma LiveStepMatched(cfg: Config, b: Book, a: Action, p: OrderId, c: OrderId)
    requires Inv(b) && ArmedChild(b, p, c) && LiveManaged(cfg, b.rows[p]) && cfg.brackets
    requires b.rows[p].filled > 0.0 && Matched(b, p, c)
    ensures Matched(Step(cfg, b, a).0, p, c)
  {
    hide Inv, OrderInvariants.Moves, Step;
    EntryFacts(b, p);
    ListedRows(b, p, c);
    NotListedSelf(b, c);
    StepMoves(cfg, b, a);
    MovedRow(b, Step(cfg, b, a).0, p);
    if !About(a, p) {
      OthersLeaveSize(cfg, b, a, p, c);
      OthersLeaveAlone(cfg, b, a, p);
    } else if a.Cancel? {
      CancelIsOrder(cfg, b, a);
      CancelLeavesSize(cfg, b, p, a.exchangeOk, c);
      CancelKeepsFill(cfg, b, p, a.exchangeOk);
      hide CancelOrder;
    } else if a.touch.Answer? {
      AnswerStep(cfg, b, p, a.touch.answers, a.touch.now);
      if a.touch.answers != [] {
        AnswerMatches(cfg, b, p, c, a.touch.answers, a.touch.now);
      }
      hide Matched;
    } else {
      OtherTouch(cfg, b, p, c, a.touch);
    }
  }

  lemma OtherTouch(cfg: Config, b: Book, p: OrderId, c: OrderId, t: Touch)
    requires EntryOf(b, p) && LiveManaged(cfg, b.rows[p]) && b.rows[p].bracketIds != [] && c in b.rows && c != p
    requires !t.Answer?
    ensures var b' := Step(cfg, b, On(p, t)).0;
            && p in b'.rows && c in b'.rows && b'.rows[c] == b.rows[c]
            && b'.rows[p].filled == b.rows[p].filled && b'.rows[p].size == b.rows[p].size
  {
    hide VisitChild, VisitLocalEntry, LiveEntry, Arm;
  }

  /** Over any run that leaves it armed, a child that matches what a live entry holds goes on matching it. */
  lemma {:induction false} LiveMatchedStays(cfg: Config, b: Book, actions: seq<Action>, p: OrderId, c: OrderId)
    requires Inv(b) && ArmedChild(b, p, c) && LiveManaged(cfg, b.rows[p]) && cfg.brackets
    requires b.rows[p].filled > 0.0 && Matched(b, p, c)
    ensures var m := Run(cfg, b, actions).0;
            c in m.rows && (m.rows[c].status == Armed ==> ArmedChild(m, p, c) && Matched(m, p, c))
  {
    hide Inv, Step, Matched, OrderInvariants.Moves;
    if actions == [] {
    } else {
      var init, a := actions[..|actions| - 1], actions[|actions| - 1];
      LiveMatchedStays(cfg, b, init, p, c);
      RunMoves(cfg, b, init);
      var b1 := Run(cfg, b, init).0;
      MovedRow(b, b1, p);
      MovedRow(b, b1, c);
      StepMoves(cfg, b1, a);
      MovedRow(b1, Step(cfg, b1, a).0, c);
      MovedRow(b1, Step(cfg, b1, a).0, p);
      if b1.rows[c].status == Armed {
        LiveStepMatched(cfg, b1, a, p, c);
      } else {
        EndedChild(b, b1, c);
      }
    }
  }

  // ----- what an exit sells and books -------------------------------------------------------------

  lemma {:induction false} OthersRunSize(cfg: Config, b: Book, actions: seq<Action>, p: OrderId, c: OrderId)
    requires Inv(b) && ChildOf(b, p, c) && forall a :: a in actions ==> !About(a, p)
    ensures var m := Run(cfg, b, actions).0; c in m.rows && m.rows[c].size == b.rows[c].size
  {
    hide Inv, Step, About, OrderInvariants.Moves;
    if actions == [] {
    } else {
      var init, a := actions[..|actions| - 1], actions[|actions| - 1];
      assert actions == init + [a];
      OthersRunSize(cfg, b, init, p, c);
      RunMoves(cfg, b, init);
      var b1 := Run(cfg, b, init).0;
      MovedRow(b, b1, p);
      MovedRow(b, b1, c);
      OthersLeaveSize(cfg, b1, a, p, c);
    }
  }

  lemma UnaskedVisit(cfg: Config, b: Book, w: World, p: OrderId)
    requires EntryOf(b, p) && b.rows[p].bracketIds != [] && Unasked(cfg, b.rows[p], w)
    ensures PassVisit(cfg, b, p, w).0 == b
  {
    hide Fill, Arm;
    assert Interfere(cfg, b, []) == b;
  }

  lemma VisitLeavesSize(cfg: Config, b: Book, id: OrderId, w: World, p: OrderId, c: OrderId)
    requires Inv(b) && ChildOf(b, p, c) && b.rows[p].bracketIds != [] && Unasked(cfg, b.rows[p], w)
    ensures var b' := PassVisit(cfg, b, id, w).0; c in b'.rows && b'.rows[c].size == b.rows[c].size
  {
    hide Inv, PassVisit, Run;
    EntryFacts(b, p);
    if id == p {
      UnaskedVisit(cfg, b, w, p);
    } else {
      VisitRuns(cfg, b, id, w);
      assert Effective([]) == [];
      OthersRunSize(cfg, b, VisitActions(cfg, b, id, w), p, c);
    }
  }

  lemma {:induction false} PassLeavesSize(cfg: Config, b: Book, ids: seq<OrderId>, w: World, p: OrderId, c: OrderId)
    requires Inv(b) && ChildOf(b, p, c) && b.rows[p].bracketIds != [] && Unasked(cfg, b.rows[p], w)
    ensures var b' := Pass(cfg, b, ids, w).0; c in b'.rows && b'.rows[c].size == b.rows[c].size
  {
    hide Inv, PassVisit, OrderInvariants.Moves, Unasked;
    if ids == [] {
    } else {
      var init, last := ids[..|ids| - 1], ids[|ids| - 1];
      PassLeavesSize(cfg, b, init, w, p, c);
      PassMoves(cfg, b, init, w);
      var b1 := Pass(cfg, b, init, w).0;
      MovedRow(b, b1, p);
      MovedRow(b, b1, c);
      UnaskedSame(cfg, b.rows[p], b1.rows[p], w);
      VisitLeavesSize(cfg, b1, last, w, p, c);
    }
  }

  lemma ChildSells(cfg: Config, b: Book, c: OrderId, w: World)
    requires Inv(b) && c in b.rows && IsChild(b.rows[c].kind) && b.rows[c].status == Armed
    requires FiredBy(b.rows[c], w) && !Overdue(b.rows[c], w.now)
    ensures b.rows[c].id == c
    ensures var es := PassVisit(cfg, b, c, w).1; es != [] && es[|es| - 1].fillSize == Round8(b.rows[c].size)
  {
    ShapeAt(b, c);
    FillWhole(b.rows[c], EvalPrice(b.rows[c], w.quotes[b.rows[c].market]), w.now);
    hide Fires, EvalPrice, CancelSiblings, Siblings, OcoEvents, Fill, Round8;
    hide LinksOk, Groups, Exclusive, KeysOk, LedgerOk;
  }

  /** A pass that fires a child, and neither fills its entry nor fires another member of the bracket, sells the size the
      child has. */
  lemma PassSells(cfg: Config, b: Book, w: World, p: OrderId, c: OrderId) returns (n: nat)
    requires Inv(b) && ArmedChild(b, p, c) && CalmBeside(b, w, p, c) && Unasked(cfg, b.rows[p], w)
    requires FiredBy(b.rows[c], w) && !Overdue(b.rows[c], w.now)
    ensures var es := Pass(cfg, b, b.keys, w).1;
            && n < |es| && es[n].kind == ExitFilled && es[n].order == c && es[n].fillSize == Round8(b.rows[c].size)
  {
    hide Inv, OrderInvariants.Moves, Pass, PassVisit, FiredBy, EvalPrice, CalmBeside, Fires, Unasked, Round8;
    var first, rest := KeyAt(b, c);
    ListedRows(b, p, c);
    PassLeavesArmed(cfg, b, first, w, p, c);
    PassLeavesSize(cfg, b, first, w, p, c);
    var (b1, e1) := Pass(cfg, b, first, w);
    MovedRow(b, b1, c);
    FiredSame(b.rows[c], b1.rows[c], w);
    SameEval(b.rows[c], b1.rows[c], w);
    ChildSells(cfg, b1, c, w);
    ChildFires(cfg, b1, c, w);
    PassAround(cfg, b, first, c, rest, w);
    var (b2, e2) := PassVisit(cfg, b1, c, w);
    var e3 := Pass(cfg, b2, rest, w).1;
    n := |e1| + |e2| - 1;
    assert (e1 + e2 + e3)[n] == e2[|e2| - 1];
  }

  /** What that exit sells is the stake its row books if and only if the child matches what the entry holds. */
  lemma SoldIsStakeExactly(cfg: Config, rate: real, d: Desk, i: nat, c: OrderId, w: World) returns (n: nat, u: Trade)
    requires Sound(cfg, d) && i < |d.trades|
    requires var b, p := Table(cfg, d), d.trades[i].order;
             && ArmedChild(b, p, c) && CalmBeside(b, w, p, c) && Unasked(cfg, b.rows[p], w)
             && FiredBy(b.rows[c], w) && !Overdue(b.rows[c], w.now)
             && b.rows[p].filled > 0.0 && OnGrid(b.rows[c].size)
    ensures var b, p := Table(cfg, d), d.trades[i].order;
            var actions := PassActions(cfg, b, b.keys, w);
            var es := Run(cfg, b, actions).1;
            var ts := Act(cfg, rate, d, Cycle(actions)).trades;
            && n < |es| && es[n].kind == ExitFilled && es[n].order == c && es[n].fillPrice.Some?
            && |ts| == |d.trades| && ClosedAs(ts[i], u, es[n].fillPrice.value)
            && es[n].fillSize == b.rows[c].size && Stake(u) == b.rows[p].filled
            && (es[n].fillSize == Stake(u) <==> Matched(b, p, c))
  {
    hide Sound, Inv, OrderInvariants.Moves, Table, Run, Pass, PassActions, Act, FiredBy, CalmBeside, ClosedAs, Unasked;
    hide TellsExit, RowAfterAll, Tells;
    SoundRow(cfg, d, i);
    var b, p := Table(cfg, d), d.trades[i].order;
    var actions := PassActions(cfg, b, b.keys, w);
    PassIsRun(cfg, b, b.keys, w);
    n := PassSells(cfg, b, w, p, c);
    Round8Facts(b.rows[c].size);
    ExitNames(cfg, b, actions, p, c, n);
    u := BookedExit(cfg, rate, d, actions, n, i);
    HeldStays(cfg, b, w, p);
  }

  lemma HeldStays(cfg: Config, b: Book, w: World, p: OrderId)
    requires Inv(b) && p in b.rows && b.rows[p].kind == Entry && Unasked(cfg, b.rows[p], w)
    ensures var b' := Pass(cfg, b, b.keys, w).0; p in b'.rows && b'.rows[p].filled == b.rows[p].filled
  {
    hide Inv, Pass;
    PassLeavesEntry(cfg, b, b.keys, w, p);
  }
}
