/** What every order of every reachable table is like: how it was placed or armed, and for how long it lives. */
module Births {
  import opened Rounding
  import opened Options
  import opened Orders
  import opened OrderInvariants
  import opened OrderRuns
  import opened Ages

  /** An entry was accepted: its market and side are named, its size is within the configured range and its limit a
      valid price, below what its contract was quoted at; and it is on paper if nothing can be submitted. */
  ghost predicate EntryBorn(cfg: Config, r: Row) {
    && r.market != "" && (r.direction == "YES" || r.direction == "NO")
    && 0.5 <= r.size <= cfg.maxOrder && 0.01 <= r.price <= 0.989
    && (r.isPaper <==> cfg.dryRun || !cfg.hasClob)
  }

  /** A child is for the same contract as its parent, waits for a valid price on its own side and lives a configured
      time. */
  ghost predicate ChildBorn(c: Row, p: Row, lives: set<int>) {
    && c.market == p.market && c.direction == p.direction && c.isPaper == p.isPaper
    && 0.01 <= c.price <= 0.99
    && c.trigger == Some(if c.kind == TakeProfit then AtLeast(c.price) else AtMost(c.price))
    && exists minutes :: minutes in lives && c.expiry == Some(c.timestamp + (60 * minutes) as real)
  }

  ghost predicate Born(cfg: Config, b: Book, r: Row, lives: set<int>) {
    && (r.kind == Entry ==> EntryBorn(cfg, r))
    && (IsChild(r.kind) ==> r.parent.Some? && r.parent.value in b.rows
                            && ChildBorn(r, b.rows[r.parent.value], lives))
  }

  ghost predicate AllBorn(cfg: Config, b: Book, lives: set<int>) {
    forall id :: id in b.rows ==> Born(cfg, b, b.rows[id], lives)
  }

  /** Every order that is new in `b'` is a child of `p`. */
  ghost predicate Births(b: Book, b': Book, p: OrderId, lives: set<int>) {
    p in b.rows && forall c :: c in b'.rows && c !in b.rows ==>
      IsChild(b'.rows[c].kind) && b'.rows[c].parent == Some(p) && ChildBorn(b'.rows[c], b.rows[p], lives)
  }

  lemma NoBirths(b: Book, b': Book, p: OrderId, lives: set<int>)
    requires p in b.rows && b'.rows.Keys == b.rows.Keys
    ensures Births(b, b', p, lives)
  {}

  lemma ChildBornSame(c: Row, p: Row, c': Row, p': Row, lives: set<int>)
    requires ChildBorn(c, p, lives) && SameOrder(c, c') && SameOrder(p, p')
    ensures ChildBorn(c', p', lives)
  {}

  lemma BirthsCompose(b: Book, b1: Book, b2: Book, p: OrderId, lives: set<int>)
    requires Births(b, b1, p, lives) && p in b1.rows && SameOrder(b.rows[p], b1.rows[p]) && Births(b1, b2, p, lives)
    requires forall k :: k in b1.rows ==> k in b2.rows && SameOrder(b1.rows[k], b2.rows[k])
    ensures Births(b, b2, p, lives)
  {
    hide ChildBorn, SameOrder;
    forall c | c in b2.rows && c !in b.rows
      ensures IsChild(b2.rows[c].kind) && b2.rows[c].parent == Some(p) && ChildBorn(b2.rows[c], b.rows[p], lives)
    {
      if c in b1.rows {
        SameFields(b1.rows[c], b2.rows[c]);
        SameSelf(b.rows[p]);
        ChildBornSame(b1.rows[c], b.rows[p], b2.rows[c], b.rows[p], lives);
      } else {
        SameSelf(b2.rows[c]);
        SameBack(b.rows[p], b1.rows[p]);
        ChildBornSame(b2.rows[c], b1.rows[p], b2.rows[c], b.rows[p], lives);
      }
    }
  }

  lemma SameFields(r: Row, r': Row)
    requires SameOrder(r, r')
    ensures r'.kind == r.kind && r'.parent == r.parent
  {}

  lemma SameSelf(r: Row)
    ensures SameOrder(r, r)
  {}

  lemma SameBack(r: Row, r': Row)
    requires SameOrder(r, r')
    ensures SameOrder(r', r)
  {}

  /** The lifetime that arming after a fill gives to children, if it creates any. */
  ghost function DefaultLives(cfg: Config): set<int> {
    if cfg.brackets then {cfg.ttlMinutes} else {}
  }

  // ----- arming -----------------------------------------------------------------------------------

  lemma ChildIsBorn(p: Row, kind: Kind, id: OrderId, group: nat, level: real, spec: BracketSpec, now: Time)
    requires IsChild(kind) && 0.01 <= level <= 0.99
    ensures ChildBorn(Child(p, kind, id, group, level, spec, now), p, {spec.ttlMinutes})
  {
    assert spec.ttlMinutes in {spec.ttlMinutes};
  }

  lemma ArmBirths(b: Book, id: OrderId, spec: BracketSpec, now: Time)
    requires Known(b, id) && forall k :: k in b.rows ==> k < b.next
    ensures Births(b, Arm(b, id, spec, now).0, id, {spec.ttlMinutes})
  {
    hide TakeProfitLevel, StopLossLevel, SyncChildren, ChildBorn, Child;
    var p, b' := b.rows[id], Arm(b, id, spec, now).0;
    if p.kind != Entry {
    } else if p.bracketIds != [] {
      SyncTable(Put(b, WithLevels(p, spec).(bracketState := BracketArmed)), p.bracketIds, ActiveSize(p));
    } else {
      Levels(ActivePrice(p), spec);
      ChildIsBorn(p, TakeProfit, b.next + 1, b.next, TakeProfitLevel(ActivePrice(p), spec), spec, now);
      ChildIsBorn(p, StopLoss, b.next + 2, b.next, StopLossLevel(ActivePrice(p), spec), spec, now);
      ChildFields(p, TakeProfit, b.next + 1, b.next, TakeProfitLevel(ActivePrice(p), spec), spec, now);
      ChildFields(p, StopLoss, b.next + 2, b.next, StopLossLevel(ActivePrice(p), spec), spec, now);
      assert b'.rows.Keys == b.rows.Keys + {b.next + 1, b.next + 2};
    }
  }

  lemma Levels(a: real, spec: BracketSpec)
    ensures 0.01 <= TakeProfitLevel(a, spec) <= 0.99 && 0.01 <= StopLossLevel(a, spec) <= 0.99
  {}

  lemma ChildFields(p: Row, kind: Kind, id: OrderId, group: nat, level: real, spec: BracketSpec, now: Time)
    ensures var c := Child(p, kind, id, group, level, spec, now); c.kind == kind && c.parent == Some(p.id) && c.id == id
  {}

  // ----- actions ----------------------------------------------------------------------------------

  ghost predicate Fresh(b: Book) {
    forall k :: k in b.rows ==> k < b.next
  }

  /** Rows are added at fresh ids and keep what they were created with. */
  ghost predicate Grows(b: Book, b': Book) {
    Fresh(b') && forall k :: k in b.rows ==> k in b'.rows && SameOrder(b.rows[k], b'.rows[k])
  }

  lemma GrowsFrom(b: Book, b': Book)
    requires Inv(b') && Moves(b, b')
    ensures Grows(b, b')
  {
    hide ShapeOk, LinksOk, Groups, Exclusive, KeysOk;
    forall k | k in b.rows ensures k in b'.rows && SameOrder(b.rows[k], b'.rows[k]) {
      assert RowMoves(b.rows[k], b'.rows[k]);
    }
  }

  lemma ArmGrows(b: Book, id: OrderId, spec: BracketSpec, now: Time)
    requires Inv(b) && Known(b, id)
    ensures var b' := Arm(b, id, spec, now).0;
            Inv(b') && Grows(b, b') && Births(b, b', id, {spec.ttlMinutes})
  {
    hide ShapeOk, LinksOk, Groups, Exclusive, KeysOk, Moves, Arm, Births, Grows;
    ArmBirths(b, id, spec, now);
    ArmKeeps(b, id, spec, now);
    GrowsFrom(b, Arm(b, id, spec, now).0);
  }

  lemma RearmBirths(cfg: Config, b: Book, id: OrderId, now: Time)
    requires Inv(b) && Known(b, id)
    ensures var b' := Rearm(cfg, b, id, now).0;
            Inv(b') && Grows(b, b') && Births(b, b', id, DefaultLives(cfg))
  {
    hide Inv, Arm, Births, Grows;
    SameTable(b, id, DefaultLives(cfg));
    if cfg.brackets {
      ArmGrows(b, id, DefaultSpec(cfg).value, now);
    }
  }

  lemma SameTable(b: Book, id: OrderId, lives: set<int>)
    requires Inv(b) && id in b.rows
    ensures Grows(b, b) && Births(b, b, id, lives)
  {
    MovesReflexive(b);
    GrowsFrom(b, b);
    NoBirths(b, b, id, lives);
    hide Inv;
  }

  lemma GrowsCompose(b: Book, b1: Book, b2: Book, p: OrderId, lives: set<int>)
    requires Grows(b, b1) && Grows(b1, b2) && Births(b, b1, p, lives) && Births(b1, b2, p, lives)
    ensures Grows(b, b2) && Births(b, b2, p, lives)
  {
    assert SameOrder(b.rows[p], b1.rows[p]);
    hide SameOrder;
    BirthsCompose(b, b1, b2, p, lives);
    forall k | k in b.rows ensures SameOrder(b.rows[k], b2.rows[k]) {
      SameThrice(b.rows[k], b1.rows[k], b2.rows[k]);
    }
    hide Births;
  }

  lemma SameThrice(r: Row, r1: Row, r2: Row)
    requires SameOrder(r, r1) && SameOrder(r1, r2)
    ensures SameOrder(r, r2)
  {}

  lemma PaperFillBirths(cfg: Config, b: Book, id: OrderId, q: Quote, now: Time)
    requires Inv(b) && Known(b, id) && b.rows[id].kind == Entry
    ensures var b' := PaperEntryFill(cfg, b, id, q, now).0;
            Inv(b') && Grows(b, b') && Births(b, b', id, DefaultLives(cfg))
  {
    hide Inv, Arm, Births, Grows, Fill, Moves, PaperFillSize;
    var r := b.rows[id];
    var price, size := ContractPrice(r.direction, OrElse(q.midpoint, r.price)), PaperFillSize(cfg, r);
    SameTable(b, id, DefaultLives(cfg));
    if price <= r.price + cfg.tolerance {
      FillKeeps(b, id, size, price, now);
      FillKeepsOrder(r, size, price, now);
      var b1 := Put(b, Fill(r, size, price, now));
      GrowsFrom(b, b1);
      NoBirths(b, b1, id, DefaultLives(cfg));
      if cfg.brackets {
        ArmGrows(b1, id, DefaultSpec(cfg).value, now);
        GrowsCompose(b, b1, Arm(b1, id, DefaultSpec(cfg).value, now).0, id, DefaultLives(cfg));
      }
    }
  }

  lemma VisitBirths(cfg: Config, b: Book, id: OrderId, quotes: map<string, Quote>, now: Time)
    requires Inv(b) && Known(b, id) && b.rows[id].kind == Entry
    ensures Births(b, VisitLocalEntry(cfg, b, id, quotes, now).0, id, DefaultLives(cfg))
  {
    hide Inv, Births, Grows, PaperEntryFill, Rearm;
    var r := b.rows[id];
    SameTable(b, id, DefaultLives(cfg));
    RearmBirths(cfg, b, id, now);
    if r.market in quotes {
      PaperFillBirths(cfg, b, id, quotes[r.market], now);
      var b1 := PaperEntryFill(cfg, b, id, quotes[r.market], now).0;
      RearmBirths(cfg, b1, id, now);
      GrowsCompose(b, b1, Rearm(cfg, b1, id, now).0, id, DefaultLives(cfg));
    }
  }

  lemma AnswerBirths(cfg: Config, b: Book, id: OrderId, answers: seq<LiveRow>, now: Time)
    requires Inv(b) && Known(b, id) && b.rows[id].kind == Entry
    ensures Births(b, LiveEntry(cfg, b, id, answers, now).0, id, DefaultLives(cfg))
  {
    hide Inv, Births, Grows, LiveFill, LiveStatus, Arm, Moves;
    SameTable(b, id, DefaultLives(cfg));
    if answers != [] {
      LiveFillKeeps(b, id, answers, now);
      var b1 := LiveFill(b, id, answers, now).0;
      LiveStatusKeeps(b1, id, answers);
      var b2 := LiveStatus(b1, id, answers).0;
      LiveKeys(b, id, answers, now);
      MovesTransitive(b, b1, b2);
      GrowsFrom(b, b2);
      NoBirths(b, b2, id, DefaultLives(cfg));
      if cfg.brackets {
        ArmGrows(b2, id, DefaultSpec(cfg).value, now);
        GrowsCompose(b, b2, Arm(b2, id, DefaultSpec(cfg).value, now).0, id, DefaultLives(cfg));
      }
    }
  }

  lemma LiveKeys(b: Book, id: OrderId, answers: seq<LiveRow>, now: Time)
    requires Known(b, id)
    ensures var b1 := LiveFill(b, id, answers, now).0;
            Known(b1, id) && LiveStatus(b1, id, answers).0.rows.Keys == b.rows.Keys
  {
    FillKeepsOrder(b.rows[id], Max(TotalFilled(answers) - b.rows[id].filled, 0.0),
                   LastPrice(answers, ActivePrice(b.rows[id])), now);
    hide Fill, TotalFilled, LastPrice;
  }

  // ----- one action -------------------------------------------------------------------------------

  /** The lifetimes an action can give to children: that of the configuration, and that of its own request. */
  ghost function LivesOf(cfg: Config, a: Action): set<int> {
    DefaultLives(cfg) + (if a.Place? && a.req.spec.Some? then {a.req.spec.value.ttlMinutes} else {})
  }

  ghost function Lives(cfg: Config, actions: seq<Action>): set<int> {
    if actions == [] then DefaultLives(cfg)
    else Lives(cfg, actions[..|actions| - 1]) + LivesOf(cfg, actions[|actions| - 1])
  }

  /** What a new order of an action is. */
  ghost predicate NewOrder(cfg: Config, b': Book, c: Row, lives: set<int>) {
    || c.kind == Exit
    || (c.kind == Entry && EntryBorn(cfg, c))
    || (IsChild(c.kind) && c.parent.Some? && c.parent.value in b'.rows
        && ChildBorn(c, b'.rows[c.parent.value], lives))
  }

  lemma ChildBornMore(c: Row, p: Row, some: set<int>, lives: set<int>)
    requires ChildBorn(c, p, some) && some <= lives
    ensures ChildBorn(c, p, lives)
  {
    var minutes :| minutes in some && c.expiry == Some(c.timestamp + (60 * minutes) as real);
    assert minutes in lives;
  }

  lemma BirthsAreNew(cfg: Config, b: Book, b': Book, p: OrderId, some: set<int>, lives: set<int>, id: OrderId)
    requires Births(b, b', p, some) && some <= lives && p in b'.rows && SameOrder(b.rows[p], b'.rows[p])
    requires id in b'.rows && id !in b.rows
    ensures NewOrder(cfg, b', b'.rows[id], lives)
  {
    hide SameOrder, ChildBorn;
    SameSelf(b'.rows[id]);
    ChildBornSame(b'.rows[id], b.rows[p], b'.rows[id], b'.rows[p], some);
    ChildBornMore(b'.rows[id], b'.rows[p], some, lives);
  }

  lemma LimitIsValid(req: Request)
    requires 0.01 <= req.price <= 0.99
    ensures 0.01 <= LimitPrice(req) <= 0.989
  {}

  lemma PlacedIsNew(cfg: Config, b: Book, req: Request, now: Time, lives: set<int>, id: OrderId)
    requires Inv(b) && Acceptable(cfg, false, req) && LivesOf(cfg, Place(req, false, now)) <= lives
    requires var b' := PlaceEntry(cfg, b, req, now); id in b'.rows && id !in b.rows
    ensures var b' := PlaceEntry(cfg, b, req, now); NewOrder(cfg, b', b'.rows[id], lives)
  {
    hide Inv, Covered, Moves, NoNewExit, OldEntries, Fill, ShapeOk, Arm, Births, Grows, NewOrder;
    var entry := EntryRow(cfg, b.next, req, now);
    var b' := PlaceEntry(cfg, b, req, now);
    PlaceKeeps(cfg, b, req, now);
    LimitIsValid(req);
    EntryIsNew(cfg, b', entry, b'.rows[b.next], lives);
    FreshShape(entry);
    InsertKeeps(b, entry);
    var b1 := Insert(b.(next := b.next + 1), entry);
    if PaperMode(cfg) && cfg.fillOnPlace && ChosenSpec(cfg, req).Some? {
      FillKeeps(b1, entry.id, req.size, entry.price, now);
      FillKeepsOrder(entry, req.size, entry.price, now);
      var b2, spec := Put(b1, Fill(entry, req.size, entry.price, now)), ChosenSpec(cfg, req).value;
      ArmGrows(b2, entry.id, spec, now);
      if id != b.next {
        assert id !in b2.rows;
        GrownRow(b2, b', b.next);
        BirthsAreNew(cfg, b2, b', b.next, {spec.ttlMinutes}, lives, id);
      }
    } else {
      assert b'.rows.Keys == b.rows.Keys + {b.next};
    }
  }

  lemma GrownRow(b: Book, b': Book, id: OrderId)
    requires Grows(b, b') && id in b.rows
    ensures id in b'.rows && SameOrder(b.rows[id], b'.rows[id])
  {}

  lemma EntryIsNew(cfg: Config, b': Book, entry: Row, r: Row, lives: set<int>)
    requires EntryBorn(cfg, entry) && entry.kind == Entry && SameOrder(entry, r) && r.size == entry.size
    ensures NewOrder(cfg, b', r, lives)
  {}

  lemma TouchIsNew(cfg: Config, b: Book, id: OrderId, t: Touch, lives: set<int>, c: OrderId)
    requires Inv(b) && Known(b, id) && DefaultLives(cfg) <= lives
    requires var b' := StepOn(cfg, b, id, t).0; c in b'.rows && c !in b.rows && Moves(b, b')
    ensures var b' := StepOn(cfg, b, id, t).0; NewOrder(cfg, b', b'.rows[c], lives)
  {
    hide Inv, Births, NewOrder, VisitLocalEntry, VisitChild, LiveEntry, Rearm, Moves;
    var b' := StepOn(cfg, b, id, t).0;
    MovedRow(b, b', id);
    match t
    case Visit(quotes, now) =>
      if IsChild(b.rows[id].kind) {
        VisitChildTable(b, id, quotes, now);
      } else if b.rows[id].kind == Entry {
        VisitBirths(cfg, b, id, quotes, now);
        BirthsAreNew(cfg, b, b', id, DefaultLives(cfg), lives, c);
      }
    case Answer(answers, now) =>
      if b.rows[id].kind == Entry {
        AnswerBirths(cfg, b, id, answers, now);
        BirthsAreNew(cfg, b, b', id, DefaultLives(cfg), lives, c);
      }
    case Late(now) =>
      RearmBirths(cfg, b, id, now);
      BirthsAreNew(cfg, b, b', id, DefaultLives(cfg), lives, c);
    case Settle(_, _) =>
    case Confirm =>
    case Expire(_) =>
    case CloseFailed =>
  }

  lemma ClosedIsNew(cfg: Config, b: Book, market: string, direction: string, size: real, price: real, now: Time,
                    lives: set<int>, c: OrderId)
    requires var b' := ClosePosition(cfg, b, market, direction, size, price, now); c in b'.rows && c !in b.rows
    ensures var b' := ClosePosition(cfg, b, market, direction, size, price, now);
            NewOrder(cfg, b', b'.rows[c], lives)
  {
    var r := CloseRow(cfg, b.next, market, direction, size, price, now);
    FillKeepsOrder(r, size, r.price, now);
    hide Fill, ChildBorn, EntryBorn;
  }

  lemma NewIsNew(cfg: Config, b: Book, a: Action, lives: set<int>, c: OrderId)
    requires Inv(b) && LivesOf(cfg, a) <= lives
    requires var b' := Step(cfg, b, a).0; c in b'.rows && c !in b.rows && Moves(b, b')
    ensures var b' := Step(cfg, b, a).0; NewOrder(cfg, b', b'.rows[c], lives)
  {
    hide Inv, NewOrder, StepOn, PlaceEntry, CancelOrder, ClosePosition, Moves;
    match a
    case Place(req, killed, now) => PlacedIsNew(cfg, b, req, now, lives, c);
    case Close(market, direction, size, price, now) =>
      ClosedIsNew(cfg, b, market, direction, size, price, now, lives, c);
    case Cancel(id, ok) => CancelTable(cfg, b, id, ok);
    case On(id, t) => TouchIsNew(cfg, b, id, t, lives, c);
  }

  lemma OldStaysBorn(cfg: Config, b: Book, b': Book, id: OrderId, lives: set<int>)
    requires id in b.rows && Born(cfg, b, b.rows[id], lives) && Moves(b, b')
    ensures id in b'.rows && Born(cfg, b', b'.rows[id], lives)
  {
    hide ChildBorn;
    var r := b.rows[id];
    MovedRow(b, b', id);
    if IsChild(r.kind) {
      MovedRow(b, b', r.parent.value);
      ChildBornSame(r, b.rows[r.parent.value], b'.rows[id], b'.rows[r.parent.value], lives);
    }
  }

  lemma StepBorn(cfg: Config, b: Book, a: Action, lives: set<int>)
    requires Inv(b) && AllBorn(cfg, b, lives) && LivesOf(cfg, a) <= lives
    ensures AllBorn(cfg, Step(cfg, b, a).0, lives)
  {
    hide Inv, Born, Moves, Step, NoNewExit, OldEntries, Covered, Regime, IsTrigger;
    StepKeeps(cfg, b, a);
    var b' := Step(cfg, b, a).0;
    forall id | id in b'.rows ensures Born(cfg, b', b'.rows[id], lives) {
      if id in b.rows {
        OldStaysBorn(cfg, b, b', id, lives);
      } else {
        NewIsNew(cfg, b, a, lives, id);
        NewIsBorn(cfg, b', b'.rows[id], lives);
      }
    }
  }

  lemma NewIsBorn(cfg: Config, b: Book, r: Row, lives: set<int>)
    requires NewOrder(cfg, b, r, lives)
    ensures Born(cfg, b, r, lives)
  {}

  lemma BornMore(cfg: Config, b: Book, some: set<int>, lives: set<int>)
    requires AllBorn(cfg, b, some) && some <= lives
    ensures AllBorn(cfg, b, lives)
  {
    hide ChildBorn, EntryBorn;
    forall id | id in b.rows ensures Born(cfg, b, b.rows[id], lives) {
      assert Born(cfg, b, b.rows[id], some);
      if IsChild(b.rows[id].kind) {
        ChildBornMore(b.rows[id], b.rows[b.rows[id].parent.value], some, lives);
      }
    }
  }

  /** In every reachable table every entry is one that was accepted, and every child waits on its own side for its own
      contract, for the lifetime of the configuration, if that enables brackets, or of a request that brought its
      own. */
  lemma {:induction false} EveryOrderIsBorn(cfg: Config, actions: seq<Action>)
    ensures AllBorn(cfg, Run(cfg, EMPTY_BOOK, actions).0, Lives(cfg, actions))
  {
    hide Inv, Regime, Covered, Step, Born, LivesOf;
    if actions == [] {
    } else {
      var init, last := actions[..|actions| - 1], actions[|actions| - 1];
      EveryOrderIsBorn(cfg, init);
      RunKeeps(cfg, init);
      var b := Run(cfg, EMPTY_BOOK, init).0;
      hide AllBorn;
      BornMore(cfg, b, Lives(cfg, init), Lives(cfg, actions));
      StepBorn(cfg, b, last, Lives(cfg, actions));
    }
  }

  lemma {:induction false} NoLives(cfg: Config, actions: seq<Action>)
    requires !cfg.brackets && forall a :: a in actions && a.Place? ==> a.req.spec == None
    ensures Lives(cfg, actions) == {}
  {
    if actions == [] {
    } else {
      var init, last := actions[..|actions| - 1], actions[|actions| - 1];
      assert actions == init + [last] && last in actions;
      NoLives(cfg, init);
    }
  }

  /** Without brackets in the configuration or in any request no child is ever created. */
  lemma NoBracketsNoChildren(cfg: Config, actions: seq<Action>)
    requires !cfg.brackets && forall a :: a in actions && a.Place? ==> a.req.spec == None
    ensures var b := Run(cfg, EMPTY_BOOK, actions).0; forall id :: id in b.rows ==> !IsChild(b.rows[id].kind)
  {
    NoLives(cfg, actions);
    EveryOrderIsBorn(cfg, actions);
    hide Run, EntryBorn;
    var b := Run(cfg, EMPTY_BOOK, actions).0;
    forall id | id in b.rows ensures !IsChild(b.rows[id].kind) {
      assert Born(cfg, b, b.rows[id], {});
    }
  }
}
