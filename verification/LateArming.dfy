/** The late arming at the end of a visit has nothing to do: in every reachable table an entry with a fill already has
    its children. */
module LateArming {
  import opened Rounding
  import opened Options
  import opened Orders
  import opened OrderInvariants
  import opened OrderRuns
  import opened Touches

  /** An entry that should have children: one with a fill, or on paper with a fill that rounded to nothing. */
  ghost predicate Needs(cfg: Config, r: Row) {
    r.kind == Entry && cfg.brackets && (r.filled > 0.0 || (r.isPaper && r.status == PartiallyFilled))
  }

  ghost predicate Equipped(cfg: Config, b: Book) {
    forall id :: id in b.rows && Needs(cfg, b.rows[id]) ==> b.rows[id].bracketIds != []
  }

  lemma RearmIsIdle(cfg: Config, b: Book, id: OrderId, now: Time)
    requires Known(b, id) && b.rows[id].kind == Entry && (Needs(cfg, b.rows[id]) ==> b.rows[id].bracketIds != [])
    ensures Rearm(cfg, b, id, now) == (b, [])
  {
    hide Arm;
  }

  lemma ArmEquips(b: Book, id: OrderId, spec: BracketSpec, now: Time)
    requires Known(b, id) && b.rows[id].kind == Entry && id < b.next
    ensures var b' := Arm(b, id, spec, now).0; id in b'.rows && b'.rows[id].bracketIds != []
  {
    hide TakeProfitLevel, StopLossLevel, SyncChildren;
    var p := b.rows[id];
    if p.bracketIds != [] {
      SyncKeepsIds(Put(b, WithLevels(p, spec).(bracketState := BracketArmed)), p.bracketIds, ActiveSize(p), id);
    }
  }

  lemma {:induction false} SyncKeepsIds(b: Book, ids: seq<OrderId>, size: real, id: OrderId)
    requires id in b.rows
    ensures var b' := SyncChildren(b, ids, size); id in b'.rows && b'.rows[id].bracketIds == b.rows[id].bracketIds
  {
    if ids == [] {
    } else {
      SyncKeepsIds(b, ids[..|ids| - 1], size, id);
    }
  }

  // ----- visits of the entry ----------------------------------------------------------------------

  /** What a fill does to an entry: nothing, or it has been filled. */
  lemma FillOrNot(r: Row, size: real, price: real, now: Time)
    ensures var r' := Fill(r, size, price, now);
            r' == r || r'.status == Filled || r'.status == PartiallyFilled
  {
    hide Round8;
  }

  lemma PaperFillEquips(cfg: Config, b: Book, id: OrderId, q: Quote, now: Time)
    requires EntryOf(b, id) && b.rows[id].isPaper && (Needs(cfg, b.rows[id]) ==> b.rows[id].bracketIds != [])
    requires b.rows[id].status == Placed || b.rows[id].status == PartiallyFilled
    ensures var b' := PaperEntryFill(cfg, b, id, q, now).0;
            EntryOf(b', id) && (Needs(cfg, b'.rows[id]) ==> b'.rows[id].bracketIds != [])
  {
    hide Fill, Arm, ContractPrice, PaperFillSize;
    var r := b.rows[id];
    var price, size := ContractPrice(r.direction, OrElse(q.midpoint, r.price)), PaperFillSize(cfg, r);
    FillOrNot(r, size, price, now);
    FillKeepsOrder(r, size, price, now);
    FillNotArmed(r, size, price, now);
    var b1 := Put(b, Fill(r, size, price, now));
    if cfg.brackets {
      ArmEquips(b1, id, DefaultSpec(cfg).value, now);
      ArmUntouched(b1, id, DefaultSpec(cfg).value, now, id);
    }
  }

  lemma VisitEquips(cfg: Config, b: Book, id: OrderId, quotes: map<string, Quote>, now: Time)
    requires EntryOf(b, id) && (Needs(cfg, b.rows[id]) ==> b.rows[id].bracketIds != [])
    ensures var b' := VisitLocalEntry(cfg, b, id, quotes, now).0;
            id in b'.rows && (Needs(cfg, b'.rows[id]) ==> b'.rows[id].bracketIds != [])
  {
    hide PaperEntryFill, Rearm, Needs;
    var r := b.rows[id];
    RearmIsIdle(cfg, b, id, now);
    if r.market in quotes && r.isPaper && (r.status == Placed || r.status == PartiallyFilled) {
      PaperFillEquips(cfg, b, id, quotes[r.market], now);
      RearmIsIdle(cfg, PaperEntryFill(cfg, b, id, quotes[r.market], now).0, id, now);
    }
  }

  lemma AnswerEquips(cfg: Config, b: Book, id: OrderId, answers: seq<LiveRow>, now: Time)
    requires EntryOf(b, id) && !b.rows[id].isPaper && (Needs(cfg, b.rows[id]) ==> b.rows[id].bracketIds != [])
    ensures var b' := LiveEntry(cfg, b, id, answers, now).0;
            id in b'.rows && (Needs(cfg, b'.rows[id]) ==> b'.rows[id].bracketIds != [])
  {
    hide LiveFill, LiveStatus, Arm;
    if answers != [] {
      LiveFillIsReported(b, id, answers, now);
      var b1 := LiveFill(b, id, answers, now).0;
      LiveStatusKeepsFill(b1, id, answers);
      var b2 := LiveStatus(b1, id, answers).0;
      if cfg.brackets {
        ArmEquips(b2, id, DefaultSpec(cfg).value, now);
      }
    }
  }

  // ----- actions ----------------------------------------------------------------------------------

  lemma TouchEquips(cfg: Config, b: Book, id: OrderId, t: Touch)
    requires EntryOf(b, id) && (Needs(cfg, b.rows[id]) ==> b.rows[id].bracketIds != [])
    ensures var b' := StepOn(cfg, b, id, t).0;
            id in b'.rows && (Needs(cfg, b'.rows[id]) ==> b'.rows[id].bracketIds != [])
  {
    hide VisitLocalEntry, LiveEntry, Rearm;
    match t
    case Visit(quotes, now) => VisitEquips(cfg, b, id, quotes, now);
    case Answer(answers, now) =>
      if LiveManaged(cfg, b.rows[id]) {
        AnswerEquips(cfg, b, id, answers, now);
      }
    case Late(now) => RearmIsIdle(cfg, b, id, now);
    case _ =>
  }

  lemma CancelEquips(cfg: Config, b: Book, id: OrderId, ok: bool)
    requires EntryOf(b, id) && (Needs(cfg, b.rows[id]) ==> b.rows[id].bracketIds != [])
    ensures var b' := CancelOrder(cfg, b, id, ok).0;
            id in b'.rows && (Needs(cfg, b'.rows[id]) ==> b'.rows[id].bracketIds != [])
  {
    hide CancelChildren;
    CancelKeepsIds(SetBracketState(SetStatus(b, id, Cancelled), id, BracketCancelled), b.rows[id].bracketIds, id);
  }

  lemma {:induction false} CancelKeepsIds(b: Book, ids: seq<OrderId>, id: OrderId)
    requires id in b.rows && Final(b.rows[id].status)
    ensures var b' := CancelChildren(b, ids); id in b'.rows && b'.rows[id] == b.rows[id]
  {
    if ids == [] {
    } else {
      CancelKeepsIds(b, ids[..|ids| - 1], id);
    }
  }

  lemma OldEquipped(cfg: Config, b: Book, a: Action, id: OrderId)
    requires Inv(b) && Equipped(cfg, b) && id in b.rows && b.rows[id].kind == Entry
    ensures var b' := Step(cfg, b, a).0;
            id in b'.rows && (Needs(cfg, b'.rows[id]) ==> b'.rows[id].bracketIds != [])
  {
    hide Inv, StepOn, CancelOrder, PlaceEntry, ClosePosition, Covered, Regime, NoNewExit, OldEntries, IsTrigger, Moves;
    EntryFacts(b, id);
    if About(a, id) {
      if a.On? {
        TouchEquips(cfg, b, id, a.touch);
      } else {
        CancelEquips(cfg, b, id, a.exchangeOk);
      }
    } else {
      OthersLeaveAlone(cfg, b, a, id);
      StepKeeps(cfg, b, a);
      MovedRow(b, Step(cfg, b, a).0, id);
    }
  }

  lemma PlacedEquipped(cfg: Config, b: Book, req: Request, now: Time)
    requires Inv(b) && req.size >= 0.5
    ensures var b' := PlaceEntry(cfg, b, req, now);
            b.next in b'.rows && (Needs(cfg, b'.rows[b.next]) ==> b'.rows[b.next].bracketIds != [])
  {
    hide Inv, Arm, Fill, LimitPrice;
    var entry := EntryRow(cfg, b.next, req, now);
    FillKeepsOrder(entry, req.size, entry.price, now);
    var b2 := Put(Insert(b.(next := b.next + 1), entry), Fill(entry, req.size, entry.price, now));
    if ChosenSpec(cfg, req).Some? {
      ArmEquips(b2, entry.id, ChosenSpec(cfg, req).value, now);
    }
  }

  lemma StepEquips(cfg: Config, b: Book, a: Action)
    requires Inv(b) && Equipped(cfg, b)
    ensures Equipped(cfg, Step(cfg, b, a).0)
  {
    hide Inv, StepOn, CancelOrder, PlaceEntry, ClosePosition, Covered, Regime, NoNewExit, IsTrigger, Moves, Needs;
    var b' := Step(cfg, b, a).0;
    StepKeeps(cfg, b, a);
    forall id | id in b'.rows && Needs(cfg, b'.rows[id]) ensures b'.rows[id].bracketIds != [] {
      NeedsEntry(cfg, b'.rows[id]);
      if id in b.rows {
        MovedRow(b, b', id);
        OldEquipped(cfg, b, a, id);
      } else {
        PlaceKeeps(cfg, b, a.req, a.now);
        PlacedEquipped(cfg, b, a.req, a.now);
      }
    }
  }

  lemma NeedsEntry(cfg: Config, r: Row)
    requires Needs(cfg, r)
    ensures r.kind == Entry
  {}

  /** In every reachable table the late arming of any entry changes nothing and reports nothing. */
  lemma {:induction false} AllEquipped(cfg: Config, actions: seq<Action>)
    ensures Equipped(cfg, Run(cfg, EMPTY_BOOK, actions).0)
  {
    hide Inv, Regime, Covered, Step;
    if actions == [] {
    } else {
      var init, last := actions[..|actions| - 1], actions[|actions| - 1];
      AllEquipped(cfg, init);
      RunKeeps(cfg, init);
      hide Equipped;
      StepEquips(cfg, Run(cfg, EMPTY_BOOK, init).0, last);
    }
  }

  lemma LateArmingIsIdle(cfg: Config, actions: seq<Action>, id: OrderId, now: Time)
    requires var b := Run(cfg, EMPTY_BOOK, actions).0; id in b.rows && b.rows[id].kind == Entry
    ensures var b := Run(cfg, EMPTY_BOOK, actions).0; Known(b, id) && Rearm(cfg, b, id, now) == (b, [])
  {
    RunKeeps(cfg, actions);
    AllEquipped(cfg, actions);
    hide Run, Rearm, Needs;
    var b := Run(cfg, EMPTY_BOOK, actions).0;
    EntryFacts(b, id);
    RearmIsIdle(cfg, b, id, now);
  }
}
