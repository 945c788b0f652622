/** The theorems about whole runs of the executor: every sequence of actions, hence every interleaving of
    placements, reconcile passes, cancellations and expiry, starting from the empty table. */
module OrderRuns {
  import opened Rounding
  import opened Options
  import opened Orders
  import opened OrderInvariants

  // ----- cancelling -----------------------------------------------------------------------------

  lemma CancelOpenChildKeeps(b: Book, id: OrderId)
    requires Inv(b) && id in b.rows && IsChild(b.rows[id].kind)
    ensures var b' := CancelOpenChild(b, id); Quiet(b, b') && (Covered(b) ==> Covered(b'))
  {
    hide Inv, Covered, Quiet;
    QuietReflexive(b);
    if !Final(b.rows[id].status) {
      ChildStatus(b, id);
      EndChildKeeps(b, id, Cancelled);
    }
  }

  lemma ChildStatus(b: Book, id: OrderId)
    requires Inv(b) && id in b.rows && IsChild(b.rows[id].kind)
    ensures b.rows[id].status == Armed || Final(b.rows[id].status)
  {
    hide LedgerOk;
    assert ShapeOk(b.rows[id]);
  }

  lemma {:induction false} CancelChildrenKeeps(b: Book, ids: seq<OrderId>)
    requires Inv(b) && forall i :: i in ids ==> i in b.rows && IsChild(b.rows[i].kind)
    ensures var b' := CancelChildren(b, ids); Quiet(b, b') && (Covered(b) ==> Covered(b'))
  {
    hide Inv, Covered, NoNewExit, OldEntries;
    if ids == [] {
      QuietReflexive(b);
    } else {
      var init, last := ids[..|ids| - 1], ids[|ids| - 1];
      CancelChildrenKeeps(b, init);
      var mid := CancelChildren(b, init);
      SameKind(b, mid, last);
      CancelOpenChildKeeps(mid, last);
      QuietTransitive(b, mid, CancelChildren(b, ids));
    }
  }

  lemma CancelLocalKeeps(b: Book, id: OrderId)
    requires Inv(b) && id in b.rows && !Final(b.rows[id].status)
    ensures var b' := CancelLocal(b, id); Quiet(b, b') && (Covered(b) ==> Covered(b'))
  {
    hide Inv, Covered, Moves, NoNewExit, OldEntries;
    var r := b.rows[id];
    if IsChild(r.kind) {
      ChildStatus(b, id);
      EndChildKeeps(b, id, Cancelled);
    } else if r.kind == Exit {
      RestateKeeps(b, id, Cancelled, r.bracketState);
    } else {
      RestateKeeps(b, id, Cancelled, BracketCancelled);
      var b1 := SetBracketState(SetStatus(b, id, Cancelled), id, BracketCancelled);
      assert b1 == b.(rows := b.rows[id := r.(status := Cancelled, bracketState := BracketCancelled)]);
      ListedChildren(b1, id);
      CancelChildrenKeeps(b1, r.bracketIds);
      QuietTransitive(b, b1, CancelLocal(b, id));
    }
  }

  lemma ListedChildren(b: Book, id: OrderId)
    requires Inv(b) && id in b.rows && b.rows[id].kind == Entry
    ensures forall i :: i in b.rows[id].bracketIds ==>
              i in b.rows && IsChild(b.rows[i].kind) && b.rows[i].parent == Some(id)
  {
    hide ShapeOk, Groups, Exclusive, KeysOk;
    BracketChildren(b, id);
  }

  lemma CancelOrderKeeps(cfg: Config, b: Book, id: OrderId, exchangeOk: bool)
    requires Inv(b)
    ensures var b' := CancelOrder(cfg, b, id, exchangeOk).0; Quiet(b, b') && (Covered(b) ==> Covered(b'))
  {
    hide Inv, Covered, Quiet;
    QuietReflexive(b);
    if id in b.rows && !Final(b.rows[id].status) {
      if CancelsLocally(cfg, b.rows[id]) {
        CancelLocalKeeps(b, id);
      } else {
        ConfirmKeeps(b, id);
      }
    }
  }

  lemma ConfirmKeeps(b: Book, id: OrderId)
    requires Inv(b) && id in b.rows && b.rows[id].kind == Entry
    ensures var b' := ConfirmLiveCancel(b, id); Quiet(b, b') && (Covered(b) ==> Covered(b'))
  {
    hide Inv, Covered, Quiet;
    RestateKeeps(b, id, Cancelled, BracketCancelled);
    var r := b.rows[id];
    assert ConfirmLiveCancel(b, id)
           == b.(rows := b.rows[id := r.(status := Cancelled, bracketState := BracketCancelled)]);
  }

  // ----- placing and closing --------------------------------------------------------------------

  lemma FreshShape(r: Row)
    requires r.size > 0.0 && r.filled == 0.0 && r.remaining == r.size && r.status == Placed
    requires r.parent == None && r.oco == None && r.bracketIds == []
    requires (r.kind == Entry && r.size >= 0.5) || r.kind == Exit
    ensures ShapeOk(r)
  {
    UntouchedLedger(r);
    hide LedgerOk;
  }

  /** An instant paper fill of a fresh order completes it. */
  lemma InstantFill(r: Row, price: real, now: Time)
    requires r.size >= 0.5 && r.filled == 0.0 && r.remaining == r.size
    ensures var r' := Fill(r, r.size, price, now);
            r'.filled > 0.0 && r'.remaining == 0.0 && r'.status == Filled && r'.average == Some(price)
  {
    FillWhole(r, price, now);
    Round8Positive(r.size);
  }

  /** A placement adds exactly one entry, described by the request and the configuration. */
  lemma PlaceKeeps(cfg: Config, b: Book, req: Request, now: Time)
    requires Inv(b) && req.size >= 0.5
    ensures var b' := PlaceEntry(cfg, b, req, now);
            && Keeps(b, b') && NoNewExit(b, b') && (Covered(b) ==> Covered(b'))
            && (forall e :: e in b'.rows && b'.rows[e].kind == Entry ==> e in b.rows || e == b.next)
            && b.next in b'.rows && b'.rows[b.next].isPaper == PaperMode(cfg) && b'.rows[b.next].size == req.size
            && b'.rows[b.next].kind == Entry && SameOrder(EntryRow(cfg, b.next, req, now), b'.rows[b.next])
            && (PaperMode(cfg) && cfg.fillOnPlace ==> b'.rows[b.next].remaining == 0.0)
  {
    hide Inv, Covered, Moves, NoNewExit, OldEntries, Fill, ShapeOk, Arm;
    var entry := EntryRow(cfg, b.next, req, now);
    FreshShape(entry);
    InsertKeeps(b, entry);
    var b1 := Insert(b.(next := b.next + 1), entry);
    if PaperMode(cfg) && cfg.fillOnPlace {
      InstantFill(entry, entry.price, now);
      FillKeeps(b1, entry.id, req.size, entry.price, now);
      var b2 := Put(b1, Fill(entry, req.size, entry.price, now));
      var spec := ChosenSpec(cfg, req);
      QuietReflexive(b2);
      if spec.Some? {
        ArmKeeps(b2, entry.id, spec.value, now);
      }
      var b' := PlaceEntry(cfg, b, req, now);
      QuietTransitive(b1, b2, b');
      AfterInsert(b, b1, b');
      assert RowMoves(b2.rows[entry.id], b'.rows[entry.id]) by {
        MovedRow(b2, b', entry.id);
      }
      assert SameOrder(b1.rows[entry.id], b'.rows[entry.id]) && b'.rows[entry.id].size == req.size by {
        MovedRow(b1, b', entry.id);
      }
    }
  }

  lemma AfterInsert(b: Book, b1: Book, b': Book)
    requires Moves(b, b1) && NoNewExit(b, b1) && Quiet(b1, b') && b1.rows.Keys == b.rows.Keys + {b.next}
    ensures Moves(b, b') && NoNewExit(b, b')
    ensures forall e :: e in b'.rows && b'.rows[e].kind == Entry ==> e in b.rows || e == b.next
  {
    hide Inv;
    MovesTransitive(b, b1, b');
  }

  lemma CloseKeeps(cfg: Config, b: Book, market: string, direction: string, size: real, price: real, now: Time)
    requires Inv(b)
    ensures var b' := ClosePosition(cfg, b, market, direction, size, price, now);
            Quiet(b, b') && (Covered(b) ==> Covered(b'))
  {
    hide Inv, Covered, Moves, NoNewExit, OldEntries, Fill, ShapeOk;
    QuietReflexive(b);
    if 0.0 < price < 1.0 && size > 0.0 {
      var r := CloseRow(cfg, b.next, market, direction, size, price, now);
      FreshShape(r);
      InsertKeeps(b, r);
      var b1 := Insert(b.(next := b.next + 1), r);
      if PaperMode(cfg) {
        FillKeeps(b1, r.id, size, r.price, now);
        QuietTransitive(b, b1, Put(b1, Fill(r, size, r.price, now)));
      }
    }
  }

  // ----- one action -----------------------------------------------------------------------------

  /** The configuration can round the first partial fill of an accepted entry to nothing and arm
      full-size children on it. */
  predicate DustConfig(cfg: Config) {
    DustRatio(cfg) && cfg.brackets && PaperMode(cfg) && !cfg.fillOnPlace && cfg.maxOrder >= 0.5
  }

  /** What the configuration says about every entry in the table. */
  ghost predicate Regime(cfg: Config, b: Book) {
    forall id :: id in b.rows && b.rows[id].kind == Entry ==>
      && b.rows[id].isPaper == PaperMode(cfg) && b.rows[id].size <= cfg.maxOrder
      && (PaperMode(cfg) && cfg.fillOnPlace ==> b.rows[id].remaining == 0.0)
  }

  ghost predicate IsTrigger(b: Book, a: Action) {
    && a.On? && a.touch.Visit? && Known(b, a.id) && IsChild(b.rows[a.id].kind) && b.rows[a.id].status == Armed
    && b.rows[a.id].market in a.touch.quotes && !Overdue(b.rows[a.id], a.touch.now)
    && b.rows[a.id].trigger.Some?
    && Fires(b.rows[a.id].trigger.value, EvalPrice(b.rows[a.id], a.touch.quotes[b.rows[a.id].market]))
  }

  lemma StepOnKeeps(cfg: Config, b: Book, id: OrderId, t: Touch)
    requires Inv(b) && Known(b, id) && !IsTrigger(b, On(id, t))
    ensures var b' := StepOn(cfg, b, id, t).0;
            Quiet(b, b') && (Covered(b) && Regime(cfg, b) && !DustConfig(cfg) ==> Covered(b'))
  {
    hide Inv, Covered, Quiet, VisitLocalEntry, LiveEntry, Rearm, DustRatio;
    var r := b.rows[id];
    QuietReflexive(b);
    match t
    case Settle(ok, bracketed) =>
      if r.kind == Entry {
        NotArmed(b, id);
        RestateKeeps(b, id, Cancelled, r.bracketState);
        RestateKeeps(b, id, r.status, PendingFill);
      }
    case Visit(quotes, now) =>
      if IsChild(r.kind) {
        if r.status == Armed {
          ExpireKeeps(b, id);
        }
      } else if r.kind == Entry {
        EntrySize(b, id);
        VisitLocalKeeps(cfg, b, id, quotes, now);
      }
    case Answer(answers, now) =>
      if r.kind == Entry {
        LiveEntryKeeps(cfg, b, id, answers, now);
      }
    case Late(now) =>
      RearmKeeps(cfg, b, id, now);
    case Confirm =>
      if !CancelsLocally(cfg, r) {
        ConfirmKeeps(b, id);
      }
    case Expire(now) =>
      if r.status == Armed && Overdue(r, now) {
        ArmedIsChild(b, id);
        EndChildKeeps(b, id, Expired);
      }
    case CloseFailed =>
      if r.kind == Exit {
        RestateKeeps(b, id, Cancelled, r.bracketState);
      }
  }

  lemma EntrySize(b: Book, id: OrderId)
    requires Inv(b) && id in b.rows && b.rows[id].kind == Entry
    ensures b.rows[id].size >= 0.5
  {
    hide LedgerOk;
    assert ShapeOk(b.rows[id]);
  }

  lemma ArmedIsChild(b: Book, id: OrderId)
    requires Inv(b) && id in b.rows && b.rows[id].status == Armed
    ensures IsChild(b.rows[id].kind)
  {
    hide LedgerOk;
    assert ShapeOk(b.rows[id]);
  }

  /** Every action keeps the invariant, moves orders only as allowed, and keeps children covered
      unless the configuration is a dust configuration. Only a trigger fills a child. */
  lemma StepKeeps(cfg: Config, b: Book, a: Action)
    requires Inv(b)
    ensures var b' := Step(cfg, b, a).0;
            && Keeps(b, b')
            && (!IsTrigger(b, a) ==> NoNewExit(b, b'))
            && (!a.Place? ==> OldEntries(b, b'))
            && (Covered(b) && Regime(cfg, b) && !DustConfig(cfg) ==> Covered(b'))
  {
    hide Inv, Covered, Moves, NoNewExit, OldEntries, StepOn, PlaceEntry, CancelOrder, ClosePosition, IsTrigger,
        DustConfig;
    QuietReflexive(b);
    match a
    case Place(req, killed, now) =>
      if Acceptable(cfg, killed, req) {
        PlaceKeeps(cfg, b, req, now);
      }
    case Close(market, direction, size, price, now) => CloseKeeps(cfg, b, market, direction, size, price, now);
    case Cancel(id, exchangeOk) => CancelOrderKeeps(cfg, b, id, exchangeOk);
    case On(id, t) =>
      if Known(b, id) {
        if IsTrigger(b, a) {
          TriggerStep(cfg, b, a);
          TriggerKeeps(b, id, EvalPrice(b.rows[id], t.quotes[b.rows[id].market]), t.now);
        } else {
          StepOnKeeps(cfg, b, id, t);
        }
      }
  }

  lemma TriggerStep(cfg: Config, b: Book, a: Action)
    requires IsTrigger(b, a)
    ensures IsChild(b.rows[a.id].kind) && b.rows[a.id].status == Armed && Known(b, a.id)
    ensures a.touch.Visit? && b.rows[a.id].market in a.touch.quotes
    ensures Step(cfg, b, a)
            == TriggerChild(b, a.id, EvalPrice(b.rows[a.id], a.touch.quotes[b.rows[a.id].market]), a.touch.now)
  {
    hide TriggerChild, Fires, EvalPrice;
  }

  // ----- whole runs -----------------------------------------------------------------------------

  lemma StepRegime(cfg: Config, b: Book, a: Action)
    requires Inv(b) && Regime(cfg, b)
    ensures Regime(cfg, Step(cfg, b, a).0)
  {
    hide Inv, Covered, NoNewExit, StepOn, CancelOrder, ClosePosition, IsTrigger, PlaceEntry;
    StepKeeps(cfg, b, a);
    if a.Place? && Acceptable(cfg, a.killed, a.req) {
      PlaceKeeps(cfg, b, a.req, a.now);
    }
  }

  lemma EmptyBook(cfg: Config)
    ensures Inv(EMPTY_BOOK) && Regime(cfg, EMPTY_BOOK) && Covered(EMPTY_BOOK)
  {}

  /** The invariant holds in every reachable table. */
  lemma {:induction false} RunKeeps(cfg: Config, actions: seq<Action>)
    ensures var b := Run(cfg, EMPTY_BOOK, actions).0;
            Inv(b) && Regime(cfg, b) && (!DustConfig(cfg) ==> Covered(b))
  {
    hide Inv, Regime, Covered, Step;
    if actions == [] {
      EmptyBook(cfg);
    } else {
      var init, last := actions[..|actions| - 1], actions[|actions| - 1];
      RunKeeps(cfg, init);
      var b := Run(cfg, EMPTY_BOOK, init).0;
      StepKeeps(cfg, b, last);
      StepRegime(cfg, b, last);
    }
  }

  /** From any table of a run to any later one, orders move only as allowed. */
  lemma {:induction false} RunMoves(cfg: Config, b: Book, actions: seq<Action>)
    requires Inv(b)
    ensures Inv(Run(cfg, b, actions).0) && Moves(b, Run(cfg, b, actions).0)
  {
    hide Inv, Moves, Step;
    if actions == [] {
      MovesReflexive(b);
    } else {
      var init, last := actions[..|actions| - 1], actions[|actions| - 1];
      RunMoves(cfg, b, init);
      var mid := Run(cfg, b, init).0;
      StepKeeps(cfg, mid, last);
      MovesTransitive(b, mid, Run(cfg, b, actions).0);
    }
  }

  lemma MovesReflexive(b: Book)
    ensures Moves(b, b)
  {}

  // ----- exclusivity and finality ---------------------------------------------------------------

  /** In every reachable table, no two orders of an OCO group both hold a fill, and a group with a
      filled member has no armed member left. */
  lemma OcoGroupsAreExclusive(cfg: Config, actions: seq<Action>)
    ensures var b := Run(cfg, EMPTY_BOOK, actions).0;
            forall i, j :: i in b.rows && j in b.rows && i != j && b.rows[i].oco.Some? && b.rows[i].oco == b.rows[j].oco
              && b.rows[i].filled > 0.0
              ==> b.rows[j].filled == 0.0 && b.rows[j].status != Armed
  {
    var b := Run(cfg, EMPTY_BOOK, actions).0;
    RunKeeps(cfg, actions);
    forall i, j | i in b.rows && j in b.rows && i != j && b.rows[i].oco.Some? && b.rows[i].oco == b.rows[j].oco
      && b.rows[i].filled > 0.0
      ensures b.rows[j].filled == 0.0 && b.rows[j].status != Armed
    {
      GroupedShape(b, i);
      GroupedShape(b, j);
      hide ShapeOk, LinksOk, KeysOk, Groups;
    }
  }

  lemma GroupedShape(b: Book, id: OrderId)
    requires Inv(b) && id in b.rows && b.rows[id].oco.Some?
    ensures var r := b.rows[id];
            && (r.status == Armed || r.status == Cancelled || r.status == Expired ==> r.filled == 0.0)
            && (r.status == Armed || Final(r.status)) && IsChild(r.kind)
  {
    hide LedgerOk, Round8;
    assert ShapeOk(b.rows[id]);
  }

  /** Whatever happens later in a run, a child that is filled, cancelled or expired never changes
      again, no order disappears and no filled size shrinks. */
  lemma FinishedChildrenNeverChange(cfg: Config, before: seq<Action>, after: seq<Action>)
    ensures var b := Run(cfg, EMPTY_BOOK, before).0;
            var b' := Run(cfg, b, after).0;
            forall id :: id in b.rows ==>
              && id in b'.rows && b.rows[id].filled <= b'.rows[id].filled
              && (IsChild(b.rows[id].kind) && Final(b.rows[id].status) ==> b'.rows[id] == b.rows[id])
  {
    RunKeeps(cfg, before);
    RunMoves(cfg, Run(cfg, EMPTY_BOOK, before).0, after);
    hide Inv;
  }

  // ----- exits ----------------------------------------------------------------------------------

  ghost predicate NoExit(es: seq<Event>) {
    forall e :: e in es ==> e.kind != ExitFilled
  }

  lemma {:induction false} OcoEventsNoExit(b: Book, ids: seq<OrderId>, self: OrderId)
    ensures NoExit(OcoEvents(b, ids, self))
  {
    if ids == [] {
    } else {
      OcoEventsNoExit(b, ids[..|ids| - 1], self);
    }
  }

  lemma ArmNoExit(b: Book, id: OrderId, spec: BracketSpec, now: Time)
    requires Known(b, id)
    ensures NoExit(Arm(b, id, spec, now).1)
  {
    hide SyncChildren, WithLevels;
  }

  lemma PaperNoExit(cfg: Config, b: Book, id: OrderId, q: Quote, now: Time)
    requires Known(b, id)
    ensures NoExit(PaperEntryFill(cfg, b, id, q, now).1)
  {
    hide Arm, Fill, NoExit;
    var r := b.rows[id];
    var price := ContractPrice(r.direction, OrElse(q.midpoint, r.price));
    var r' := Fill(r, PaperFillSize(cfg, r), price, now);
    FillKeepsOrder(r, PaperFillSize(cfg, r), price, now);
    OneNoExit(EntryEvent(r', price, PaperFillSize(cfg, r)));
    assert NoExit([]) by { OneNoExit(EntryEvent(r', price, 0.0)); }
    if cfg.brackets {
      ArmNoExit(Put(b, r'), id, DefaultSpec(cfg).value, now);
      JoinNoExit([EntryEvent(r', price, PaperFillSize(cfg, r))], Arm(Put(b, r'), id, DefaultSpec(cfg).value, now).1);
    }
  }

  lemma OneNoExit(e: Event)
    ensures NoExit([]) && (e.kind != ExitFilled ==> NoExit([e]))
  {}

  lemma JoinNoExit(a: seq<Event>, b: seq<Event>)
    requires NoExit(a) && NoExit(b)
    ensures NoExit(a + b)
  {}

  lemma RearmNoExit(cfg: Config, b: Book, id: OrderId, now: Time)
    requires Known(b, id)
    ensures NoExit(Rearm(cfg, b, id, now).1)
  {
    hide Arm;
    if cfg.brackets {
      ArmNoExit(b, id, DefaultSpec(cfg).value, now);
    }
  }

  lemma VisitNoExit(cfg: Config, b: Book, id: OrderId, quotes: map<string, Quote>, now: Time)
    requires Known(b, id)
    ensures NoExit(VisitLocalEntry(cfg, b, id, quotes, now).1)
  {
    hide PaperEntryFill, Rearm;
    var r := b.rows[id];
    RearmNoExit(cfg, b, id, now);
    if r.market in quotes {
      PaperNoExit(cfg, b, id, quotes[r.market], now);
      RearmNoExit(cfg, PaperEntryFill(cfg, b, id, quotes[r.market], now).0, id, now);
    }
  }

  lemma LiveNoExit(cfg: Config, b: Book, id: OrderId, answers: seq<LiveRow>, now: Time)
    requires Known(b, id)
    ensures NoExit(LiveEntry(cfg, b, id, answers, now).1)
  {
    hide Arm, Fill;
    if answers != [] {
      var b1 := LiveFill(b, id, answers, now).0;
      var r := b.rows[id];
      FillKeepsOrder(r, Max(TotalFilled(answers) - r.filled, 0.0), LastPrice(answers, ActivePrice(r)), now);
      var b2 := LiveStatus(b1, id, answers).0;
      if cfg.brackets {
        ArmNoExit(b2, id, DefaultSpec(cfg).value, now);
      }
    }
  }

  /** Only a trigger reports an exit, and it reports exactly one, last. */
  lemma StepEvents(cfg: Config, b: Book, a: Action)
    ensures !IsTrigger(b, a) ==> NoExit(Step(cfg, b, a).1)
    ensures IsTrigger(b, a) ==>
              var es := Step(cfg, b, a).1;
              && es != [] && NoExit(es[..|es| - 1])
              && es[|es| - 1].kind == ExitFilled && es[|es| - 1].order == a.id
              && es[|es| - 1].parent == b.rows[a.id].parent
              && es[|es| - 1].fillPrice == Some(EvalPrice(b.rows[a.id], a.touch.quotes[b.rows[a.id].market]))
  {
    hide VisitLocalEntry, LiveEntry, Rearm, CancelSiblings, Fill, EvalPrice, Fires, PlaceEntry, CancelOrder,
        ClosePosition;
    if a.On? && Known(b, a.id) {
      match a.touch
      case Visit(quotes, now) =>
        VisitNoExit(cfg, b, a.id, quotes, now);
        if IsTrigger(b, a) {
          TriggerStep(cfg, b, a);
          var price := EvalPrice(b.rows[a.id], quotes[b.rows[a.id].market]);
          TriggerEvents(b, a.id, price, now);
        }
      case Answer(answers, now) => LiveNoExit(cfg, b, a.id, answers, now);
      case Late(now) => RearmNoExit(cfg, b, a.id, now);
      case _ =>
    }
  }

  lemma TriggerEvents(b: Book, id: OrderId, price: real, now: Time)
    requires Known(b, id)
    ensures var es := TriggerChild(b, id, price, now).1;
            && es != [] && NoExit(es[..|es| - 1])
            && es[|es| - 1].kind == ExitFilled && es[|es| - 1].order == id
            && es[|es| - 1].parent == b.rows[id].parent && es[|es| - 1].fillPrice == Some(price)
  {
    hide Fill, Siblings, NoExit;
    var r := b.rows[id];
    var r' := Fill(r, if r.remaining != 0.0 then r.remaining else r.size, price, now);
    var b1 := ParentState(Put(b, r'), r.parent, Closed);
    var ids := if r.oco.Some? then Siblings(b1, b1.keys, r') else [];
    OcoEventsNoExit(b1, ids, id);
    var es := TriggerChild(b, id, price, now).1;
    assert es[..|es| - 1] == OcoEvents(b1, ids, id);
  }

  /** An exit event tells of a filled child: who its parent is, and at which price it was triggered. */
  ghost predicate TellsExit(b: Book, e: Event) {
    && e.order in b.rows
    && var c := b.rows[e.order];
       && IsChild(c.kind) && c.status == Filled && c.parent == e.parent
       && c.trigger.Some? && e.fillPrice.Some? && c.average == e.fillPrice && Fires(c.trigger.value, e.fillPrice.value)
  }

  /** The exit events of a run are truthful, name each parent at most once, and miss no filled child. */
  ghost predicate ExitsOk(b: Book, es: seq<Event>) {
    && (forall i :: 0 <= i < |es| && es[i].kind == ExitFilled ==> TellsExit(b, es[i]))
    && (forall i, j :: 0 <= i < j < |es| && es[i].kind == ExitFilled && es[j].kind == ExitFilled
          ==> es[i].parent != es[j].parent)
    && (forall c :: c in b.rows && IsChild(b.rows[c].kind) && b.rows[c].status == Filled
          ==> exists i :: 0 <= i < |es| && es[i].kind == ExitFilled && es[i].order == c)
  }

  /** An armed child has no filled sibling, so no earlier exit names its parent. */
  lemma NoEarlierExit(b: Book, id: OrderId, e: Event)
    requires Inv(b) && id in b.rows && IsChild(b.rows[id].kind) && b.rows[id].status == Armed && TellsExit(b, e)
    ensures e.parent != b.rows[id].parent
  {
    SiblingsShareGroup(b, id, e.order);
    GroupedAt(b, id);
    hide ShapeOk, LinksOk, KeysOk, Groups, Fires;
  }

  lemma GroupedAt(b: Book, id: OrderId)
    requires Inv(b) && id in b.rows && IsChild(b.rows[id].kind)
    ensures b.rows[id].oco.Some? && b.rows[id].parent.Some?
  {
    hide ShapeOk;
    assert LinksOk(b, b.rows[id]);
  }

  lemma TellsExitMoves(b: Book, b': Book, e: Event)
    requires Moves(b, b') && TellsExit(b, e)
    ensures TellsExit(b', e)
  {
    hide Fires;
    assert RowMoves(b.rows[e.order], b'.rows[e.order]);
  }

  lemma QuietExits(b: Book, b': Book, es: seq<Event>, more: seq<Event>)
    requires ExitsOk(b, es) && Moves(b, b') && NoNewExit(b, b') && NoExit(more)
    ensures ExitsOk(b', es + more)
  {
    var all := es + more;
    forall k | |es| <= k < |all| ensures all[k].kind != ExitFilled {
      assert all[k] == more[k - |es|] && more[k - |es|] in more;
    }
    forall i | 0 <= i < |all| && all[i].kind == ExitFilled ensures i < |es| && TellsExit(b', all[i]) {
      if i < |es| {
        TellsExitMoves(b, b', es[i]);
      }
    }
    hide TellsExit, Moves;
    forall c | c in b'.rows && IsChild(b'.rows[c].kind) && b'.rows[c].status == Filled
      ensures exists i :: 0 <= i < |all| && all[i].kind == ExitFilled && all[i].order == c
    {
      SameKindBack(b, b', c);
      var i :| 0 <= i < |es| && es[i].kind == ExitFilled && es[i].order == c;
      assert all[i] == es[i];
    }
  }

  lemma SameKindBack(b: Book, b': Book, c: OrderId)
    requires Moves(b, b') && c in b.rows
    ensures c in b'.rows && b'.rows[c].kind == b.rows[c].kind
  {}

  lemma TriggerExits(b: Book, b': Book, es: seq<Event>, quiet: seq<Event>, exit: Event)
    requires Inv(b) && ExitsOk(b, es) && Moves(b, b') && NoExit(quiet) && exit.kind == ExitFilled && TellsExit(b', exit)
    requires exit.order in b.rows && IsChild(b.rows[exit.order].kind) && b.rows[exit.order].status == Armed
    requires exit.parent == b.rows[exit.order].parent
    requires forall k :: k in b'.rows && k != exit.order && b'.rows[k].status == Filled ==>
               k in b.rows && b.rows[k].status == Filled
    ensures ExitsOk(b', es + quiet + [exit])
  {
    hide Inv, TellsExit, Moves;
    var all := es + quiet + [exit];
    forall k | |es| <= k < |all| - 1 ensures all[k].kind != ExitFilled {
      assert all[k] == quiet[k - |es|] && quiet[k - |es|] in quiet;
    }
    forall i | 0 <= i < |all| && all[i].kind == ExitFilled
      ensures i < |es| || i == |all| - 1
      ensures TellsExit(b', all[i]) && (i < |es| ==> all[i].parent != exit.parent)
    {
      if i < |es| {
        assert all[i] == es[i];
        TellsExitMoves(b, b', es[i]);
        NoEarlierExit(b, exit.order, es[i]);
      }
    }
    forall c | c in b'.rows && IsChild(b'.rows[c].kind) && b'.rows[c].status == Filled
      ensures exists i :: 0 <= i < |all| && all[i].kind == ExitFilled && all[i].order == c
    {
      if c == exit.order {
        assert all[|all| - 1] == exit;
      } else {
        SameKindBack(b, b', c);
        var i :| 0 <= i < |es| && es[i].kind == ExitFilled && es[i].order == c;
        assert all[i] == es[i];
      }
    }
  }

  /** Over any run: each `exit_filled` event tells of a filled child and the price that fired its trigger,
      no two of them share a parent, and every filled child has one. */
  lemma {:induction false} ExitsAreReportedOnce(cfg: Config, actions: seq<Action>)
    ensures var (b, es) := Run(cfg, EMPTY_BOOK, actions); ExitsOk(b, es)
  {
    hide Inv, Moves, NoNewExit, TellsExit, Step, IsTrigger;
    if actions == [] {
    } else {
      var init, last := actions[..|actions| - 1], actions[|actions| - 1];
      ExitsAreReportedOnce(cfg, init);
      RunKeeps(cfg, init);
      var (b, es) := Run(cfg, EMPTY_BOOK, init);
      var (b', more) := Step(cfg, b, last);
      StepKeeps(cfg, b, last);
      StepEvents(cfg, b, last);
      if IsTrigger(b, last) {
        TriggerTells(cfg, b, last);
        var quiet, exit := more[..|more| - 1], more[|more| - 1];
        TriggerExits(b, b', es, quiet, exit);
        assert es + more == es + quiet + [exit];
      } else {
        QuietExits(b, b', es, more);
      }
    }
  }

  lemma TriggerTells(cfg: Config, b: Book, a: Action)
    requires Inv(b) && IsTrigger(b, a)
    ensures var (b', es) := Step(cfg, b, a);
            && es != [] && TellsExit(b', es[|es| - 1]) && es[|es| - 1].order == a.id
            && IsChild(b.rows[a.id].kind) && b.rows[a.id].status == Armed && a.id in b.rows
            && (forall k :: k in b'.rows && k != a.id && b'.rows[k].status == Filled ==>
                  k in b.rows && b.rows[k].status == Filled)
  {
    hide Inv, EvalPrice, Covered, Exclusive;
    StepEvents(cfg, b, a);
    TriggerStep(cfg, b, a);
    var price := EvalPrice(b.rows[a.id], a.touch.quotes[b.rows[a.id].market]);
    assert Fires(b.rows[a.id].trigger.value, price);
    TriggerKeeps(b, a.id, price, a.touch.now);
    var b' := TriggerChild(b, a.id, price, a.touch.now).0;
    hide TriggerChild, Fires;
    assert RowMoves(b.rows[a.id], b'.rows[a.id]);
  }

  // ----- no oversell ----------------------------------------------------------------------------

  /** The filled sizes of all orders whose parent is `p`, over the table. */
  ghost function SoldBy(b: Book, keys: seq<OrderId>, p: OrderId): real {
    if keys == [] then 0.0
    else
      var k := keys[|keys| - 1];
      SoldBy(b, keys[..|keys| - 1], p) + (if k in b.rows && b.rows[k].parent == Some(p) then b.rows[k].filled else 0.0)
  }

  /** No entry's bracket children have sold more than the entry bought. */
  ghost predicate NoOversell(b: Book) {
    forall p :: p in b.rows && b.rows[p].kind == Entry ==> SoldBy(b, b.keys, p) <= b.rows[p].filled
  }

  lemma {:induction false} SoldByOne(b: Book, keys: seq<OrderId>, p: OrderId, bound: real, c: OrderId)
    requires bound >= 0.0 && forall i, j :: 0 <= i < j < |keys| ==> keys[i] != keys[j]
    requires forall k :: k in b.rows && b.rows[k].parent == Some(p) && k != c ==> b.rows[k].filled == 0.0
    requires c in b.rows && b.rows[c].parent == Some(p) ==> 0.0 <= b.rows[c].filled <= bound
    ensures SoldBy(b, keys, p) <= bound && (c !in keys ==> SoldBy(b, keys, p) == 0.0)
  {
    if keys == [] {
    } else {
      SoldByOne(b, keys[..|keys| - 1], p, bound, c);
    }
  }

  /** At most one child of an entry holds a fill, and a covered child's fill is within the entry's. */
  lemma CoveredSold(b: Book, p: OrderId)
    requires Inv(b) && Covered(b) && p in b.rows && b.rows[p].kind == Entry
    ensures SoldBy(b, b.keys, p) <= b.rows[p].filled
  {
    hide LinksOk, ShapeOk, Groups, OnGrid;
    EntryFilled(b, p);
    if c :| c in b.rows && b.rows[c].parent == Some(p) && b.rows[c].filled != 0.0 {
      ParentedChild(b, c);
      forall k | k in b.rows && b.rows[k].parent == Some(p) && k != c ensures b.rows[k].filled == 0.0 {
        ParentedChild(b, k);
        SiblingsShareGroup(b, c, k);
      }
      SoldByOne(b, b.keys, p, b.rows[p].filled, c);
    } else {
      SoldByOne(b, b.keys, p, b.rows[p].filled, b.next);
    }
  }

  lemma EntryFilled(b: Book, p: OrderId)
    requires Inv(b) && p in b.rows
    ensures b.rows[p].filled >= 0.0
  {
    assert ShapeOk(b.rows[p]) && LedgerOk(b.rows[p]);
  }

  /** An order with a parent is a child; if it holds a fill it is filled, by its size if that is on the grid. */
  lemma ParentedChild(b: Book, c: OrderId)
    requires Inv(b) && c in b.rows && b.rows[c].parent.Some?
    ensures var r := b.rows[c];
            && IsChild(r.kind) && r.filled >= 0.0 && r.oco.Some? && (r.filled != 0.0 ==> r.status == Filled)
            && (r.status == Cancelled || r.status == Expired ==> r.filled == 0.0)
            && (OnGrid(r.size) && r.filled != 0.0 ==> r.filled == r.size)
  {
    var r := b.rows[c];
    assert ShapeOk(r) && LedgerOk(r);
    Round8Facts(r.size);
  }

  /** Children of one parent are in one group. */
  lemma SiblingsShareGroup(b: Book, c: OrderId, k: OrderId)
    requires Inv(b) && c in b.rows && k in b.rows && IsChild(b.rows[c].kind) && IsChild(b.rows[k].kind)
    ensures b.rows[c].parent == b.rows[k].parent ==> b.rows[c].oco == b.rows[k].oco
  {
    hide ShapeOk, KeysOk, Groups, Exclusive;
    assert LinksOk(b, b.rows[c]) && LinksOk(b, b.rows[k]);
    if b.rows[c].parent == b.rows[k].parent {
      var p := b.rows[b.rows[c].parent.value];
      assert LinksOk(b, p);
      assert c == p.bracketIds[0] || c == p.bracketIds[1];
      assert k == p.bracketIds[0] || k == p.bracketIds[1];
    }
  }

  /** In every reachable table the bracket children of an entry have sold at most what it bought. */
  lemma BracketsNeverOversell(cfg: Config, actions: seq<Action>)
    requires !DustConfig(cfg)
    ensures NoOversell(Run(cfg, EMPTY_BOOK, actions).0)
  {
    RunKeeps(cfg, actions);
    hide Inv, Covered, Run;
    var b := Run(cfg, EMPTY_BOOK, actions).0;
    forall p | p in b.rows && b.rows[p].kind == Entry ensures SoldBy(b, b.keys, p) <= b.rows[p].filled {
      CoveredSold(b, p);
    }
  }
}
