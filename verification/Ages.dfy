/** The order table is a list by age: ids only grow, and a child is younger than its entry. */
module Ages {
  import opened Options
  import opened Orders
  import opened OrderInvariants
  import opened OrderRuns

  /** Older orders first. */
  ghost predicate ByAge(keys: seq<OrderId>) {
    forall i, j :: 0 <= i < j < |keys| ==> keys[i] < keys[j]
  }

  ghost predicate Below(keys: seq<OrderId>, next: nat) {
    forall k :: k in keys ==> k < next
  }

  ghost predicate From(next: nat, keys: seq<OrderId>) {
    forall k :: k in keys ==> next <= k
  }

  /** New orders are added at the end, at fresh ids in order. */
  ghost predicate Extends(b: Book, b': Book, more: seq<OrderId>) {
    b.next <= b'.next && b'.keys == b.keys + more && ByAge(more) && From(b.next, more) && Below(more, b'.next)
  }

  lemma NothingAdded(b: Book, b': Book)
    requires b'.keys == b.keys && b.next <= b'.next
    ensures Extends(b, b', [])
  {
    assert b.keys + [] == b.keys;
  }

  lemma ByAgeAppend(keys: seq<OrderId>, more: seq<OrderId>, next: nat)
    requires ByAge(keys) && Below(keys, next) && ByAge(more) && From(next, more)
    ensures ByAge(keys + more)
  {
    var all := keys + more;
    forall i, j | 0 <= i < j < |all| ensures all[i] < all[j] {
      if i < |keys| <= j {
        assert all[i] in keys && all[j] in more;
      }
    }
  }

  lemma ExtendsTwice(b: Book, b1: Book, b2: Book, first: seq<OrderId>, second: seq<OrderId>)
    requires Extends(b, b1, first) && Extends(b1, b2, second)
    ensures Extends(b, b2, first + second)
  {
    ByAgeAppend(first, second, b1.next);
    assert b.keys + first + second == b.keys + (first + second);
  }

  // ----- what adds to the table -------------------------------------------------------------------

  lemma {:induction false} SyncTable(b: Book, ids: seq<OrderId>, size: real)
    ensures var b' := SyncChildren(b, ids, size);
            b'.keys == b.keys && b'.next == b.next && b'.rows.Keys == b.rows.Keys
  {
    if ids == [] {
    } else {
      SyncTable(b, ids[..|ids| - 1], size);
    }
  }

  lemma ArmExtends(b: Book, id: OrderId, spec: BracketSpec, now: Time) returns (more: seq<OrderId>)
    requires Known(b, id)
    ensures Extends(b, Arm(b, id, spec, now).0, more)
  {
    hide TakeProfitLevel, StopLossLevel, SyncChildren;
    var p, b' := b.rows[id], Arm(b, id, spec, now).0;
    more := [];
    if p.kind == Entry && p.bracketIds == [] {
      more := [b.next + 1, b.next + 2];
      assert b.keys + [b.next + 1] + [b.next + 2] == b.keys + more;
    } else if p.kind == Entry {
      SyncTable(Put(b, WithLevels(p, spec).(bracketState := BracketArmed)), p.bracketIds, ActiveSize(p));
      NothingAdded(b, b');
    } else {
      NothingAdded(b, b');
    }
  }

  lemma RearmExtends(cfg: Config, b: Book, id: OrderId, now: Time) returns (more: seq<OrderId>)
    requires Known(b, id)
    ensures Extends(b, Rearm(cfg, b, id, now).0, more)
  {
    hide Arm, Extends;
    NothingAdded(b, b);
    more := [];
    if Rearm(cfg, b, id, now) != (b, []) {
      more := ArmExtends(b, id, DefaultSpec(cfg).value, now);
    }
  }

  lemma PaperFillExtends(cfg: Config, b: Book, id: OrderId, q: Quote, now: Time) returns (more: seq<OrderId>)
    requires Known(b, id)
    ensures Extends(b, PaperEntryFill(cfg, b, id, q, now).0, more)
  {
    hide Arm, Fill, PaperFillSize, Extends;
    var r := b.rows[id];
    var price, size := ContractPrice(r.direction, OrElse(q.midpoint, r.price)), PaperFillSize(cfg, r);
    var r' := Fill(r, size, price, now);
    var b1 := Put(b, r');
    FillKeepsOrder(r, size, price, now);
    NothingAdded(b, b);
    NothingAdded(b, b1);
    more := [];
    if price <= r.price + cfg.tolerance && r'.status != r.status && cfg.brackets {
      more := ArmExtends(b1, id, DefaultSpec(cfg).value, now);
      ExtendsTwice(b, b1, Arm(b1, id, DefaultSpec(cfg).value, now).0, [], more);
      assert [] + more == more;
    }
  }

  lemma VisitEntryExtends(cfg: Config, b: Book, id: OrderId, quotes: map<string, Quote>, now: Time)
    returns (more: seq<OrderId>)
    requires Known(b, id)
    ensures Extends(b, VisitLocalEntry(cfg, b, id, quotes, now).0, more)
  {
    hide PaperEntryFill, Rearm, Extends;
    var r := b.rows[id];
    NothingAdded(b, b);
    more := [];
    if Final(r.status) {
    } else if r.isPaper && (r.status == Placed || r.status == PartiallyFilled) {
      if r.market in quotes {
        var first := PaperFillExtends(cfg, b, id, quotes[r.market], now);
        var b1 := PaperEntryFill(cfg, b, id, quotes[r.market], now).0;
        var second := RearmExtends(cfg, b1, id, now);
        ExtendsTwice(b, b1, Rearm(cfg, b1, id, now).0, first, second);
        more := first + second;
      }
    } else {
      more := RearmExtends(cfg, b, id, now);
    }
  }

  lemma LiveEntryExtends(cfg: Config, b: Book, id: OrderId, answers: seq<LiveRow>, now: Time)
    returns (more: seq<OrderId>)
    requires Known(b, id)
    ensures Extends(b, LiveEntry(cfg, b, id, answers, now).0, more)
  {
    hide Arm, Fill, TotalFilled, LastPrice, Extends;
    var b1 := LiveFill(b, id, answers, now).0;
    var b2 := LiveStatus(b1, id, answers).0;
    NothingAdded(b, b);
    NothingAdded(b, b2);
    more := [];
    if answers != [] && b2.rows[id].filled > 0.0 && cfg.brackets {
      more := ArmExtends(b2, id, DefaultSpec(cfg).value, now);
      ExtendsTwice(b, b2, Arm(b2, id, DefaultSpec(cfg).value, now).0, [], more);
      assert [] + more == more;
    }
  }

  lemma PlaceExtends(cfg: Config, b: Book, req: Request, now: Time) returns (more: seq<OrderId>)
    ensures Extends(b, PlaceEntry(cfg, b, req, now), more)
  {
    var entry := EntryRow(cfg, b.next, req, now);
    FillKeepsOrder(entry, req.size, entry.price, now);
    hide Arm, Fill;
    var b1 := Insert(b.(next := b.next + 1), entry);
    var b2 := Put(b1, Fill(entry, req.size, entry.price, now));
    more := [b.next];
    assert Extends(b, b1, more) && Extends(b, b2, more);
    hide Extends;
    if PaperMode(cfg) && cfg.fillOnPlace && ChosenSpec(cfg, req).Some? {
      var spec := ChosenSpec(cfg, req).value;
      var children := ArmExtends(b2, entry.id, spec, now);
      ExtendsTwice(b, b2, Arm(b2, entry.id, spec, now).0, more, children);
      more := more + children;
    }
  }

  // ----- what does not ----------------------------------------------------------------------------

  lemma {:induction false} CancelChildrenTable(b: Book, ids: seq<OrderId>)
    ensures var b' := CancelChildren(b, ids); b'.keys == b.keys && b'.next == b.next && b'.rows.Keys == b.rows.Keys
  {
    if ids == [] {
    } else {
      CancelChildrenTable(b, ids[..|ids| - 1]);
    }
  }

  lemma CancelTable(cfg: Config, b: Book, id: OrderId, ok: bool)
    ensures var b' := CancelOrder(cfg, b, id, ok).0;
            b'.keys == b.keys && b'.next == b.next && b'.rows.Keys == b.rows.Keys
  {
    hide CancelChildren;
    if id in b.rows {
      CancelChildrenTable(SetBracketState(SetStatus(b, id, Cancelled), id, BracketCancelled), b.rows[id].bracketIds);
    }
  }

  lemma VisitChildTable(b: Book, id: OrderId, quotes: map<string, Quote>, now: Time)
    requires Known(b, id) && IsChild(b.rows[id].kind)
    ensures var b' := VisitChild(b, id, quotes, now).0;
            b'.keys == b.keys && b'.next == b.next && b'.rows.Keys == b.rows.Keys
  {
    hide Fill, EvalPrice, Fires, OcoEvents, Siblings;
    var r := b.rows[id];
    if r.market in quotes {
      FillKeepsOrder(r, if r.remaining != 0.0 then r.remaining else r.size, EvalPrice(r, quotes[r.market]), now);
    }
  }

  lemma CloseExtends(cfg: Config, b: Book, market: string, direction: string, size: real, price: real, now: Time)
    returns (more: seq<OrderId>)
    ensures Extends(b, ClosePosition(cfg, b, market, direction, size, price, now), more)
  {
    hide Fill;
    more := [];
    NothingAdded(b, b);
    if 0.0 < price < 1.0 && size > 0.0 {
      more := [b.next];
    }
  }

  // ----- runs -------------------------------------------------------------------------------------

  lemma TouchExtends(cfg: Config, b: Book, id: OrderId, t: Touch) returns (more: seq<OrderId>)
    requires Known(b, id)
    ensures Extends(b, StepOn(cfg, b, id, t).0, more)
  {
    hide Extends, VisitChild, VisitLocalEntry, LiveEntry, Rearm;
    more := [];
    var b' := StepOn(cfg, b, id, t).0;
    NothingAdded(b, b);
    if t.Visit? && IsChild(b.rows[id].kind) {
      VisitChildTable(b, id, t.quotes, t.now);
      NothingAdded(b, b');
    } else if t.Visit? && b.rows[id].kind == Entry && !LiveManaged(cfg, b.rows[id]) {
      more := VisitEntryExtends(cfg, b, id, t.quotes, t.now);
    } else if t.Answer? && b.rows[id].kind == Entry && LiveManaged(cfg, b.rows[id]) {
      more := LiveEntryExtends(cfg, b, id, t.answers, t.now);
    } else if t.Late? && b.rows[id].kind == Entry && LiveManaged(cfg, b.rows[id]) {
      more := RearmExtends(cfg, b, id, t.now);
    } else {
      NothingAdded(b, b');
    }
  }

  lemma StepExtends(cfg: Config, b: Book, a: Action) returns (more: seq<OrderId>)
    ensures Extends(b, Step(cfg, b, a).0, more)
  {
    hide Extends, StepOn, PlaceEntry, ClosePosition, CancelOrder;
    more := [];
    NothingAdded(b, b);
    match a
    case Place(req, killed, now) =>
      if Acceptable(cfg, killed, req) {
        more := PlaceExtends(cfg, b, req, now);
      }
    case Close(market, direction, size, price, now) =>
      more := CloseExtends(cfg, b, market, direction, size, price, now);
    case Cancel(id, ok) =>
      CancelTable(cfg, b, id, ok);
      NothingAdded(b, Step(cfg, b, a).0);
    case On(id, t) =>
      if Known(b, id) {
        more := TouchExtends(cfg, b, id, t);
      }
  }

  ghost predicate Younger(b: Book) {
    forall c :: c in b.rows && IsChild(b.rows[c].kind) && b.rows[c].parent.Some? ==> b.rows[c].parent.value < c
  }

  /** What is not in the table yet is added at an id that is free. */
  lemma NewIsFree(b: Book, b': Book, more: seq<OrderId>, c: OrderId)
    requires Inv(b) && Inv(b') && Extends(b, b', more) && c in b'.rows && c !in b.rows
    ensures b.next <= c
  {
    hide ShapeOk, LinksOk, Groups, Exclusive;
    assert c in b'.keys;
  }

  lemma ParentAt(b: Book, c: OrderId)
    requires Inv(b) && c in b.rows && IsChild(b.rows[c].kind)
    ensures b.rows[c].parent.Some? && b.rows[c].parent.value in b.rows && b.rows[b.rows[c].parent.value].kind == Entry
    ensures b.rows[c].parent.value != c
  {
    hide ShapeOk, Groups, Exclusive, KeysOk;
    assert LinksOk(b, b.rows[c]);
  }

  lemma IdsBelow(b: Book)
    requires Inv(b)
    ensures Below(b.keys, b.next) && forall c :: c in b.rows ==> c < b.next
  {
    hide ShapeOk, LinksOk, Groups, Exclusive;
  }

  lemma StepYounger(cfg: Config, b: Book, a: Action)
    requires Inv(b) && Younger(b) && ByAge(b.keys)
    ensures Younger(Step(cfg, b, a).0) && ByAge(Step(cfg, b, a).0.keys)
  {
    hide Inv, Step, Covered, Regime, NoNewExit, Extends, ByAge, Moves, IsTrigger;
    var b' := Step(cfg, b, a).0;
    StepKeeps(cfg, b, a);
    var more := StepExtends(cfg, b, a);
    IdsBelow(b);
    AgesAppend(b, b', more);
    NewEntry(cfg, b, a);
    forall c | c in b'.rows && IsChild(b'.rows[c].kind) && b'.rows[c].parent.Some? ensures b'.rows[c].parent.value < c {
      ParentAt(b', c);
      if c in b.rows {
        MovedRow(b, b', c);
      } else {
        NewIsFree(b, b', more, c);
      }
    }
  }

  lemma AgesAppend(b: Book, b': Book, more: seq<OrderId>)
    requires ByAge(b.keys) && Below(b.keys, b.next) && Extends(b, b', more)
    ensures ByAge(b'.keys)
  {
    ByAgeAppend(b.keys, more, b.next);
  }

  /** The only entry an action adds has the next id. */
  lemma NewEntry(cfg: Config, b: Book, a: Action)
    requires Inv(b)
    ensures var b' := Step(cfg, b, a).0;
            forall e :: e in b'.rows && b'.rows[e].kind == Entry ==> e in b.rows || e == b.next
  {
    hide Inv, StepOn, PlaceEntry, Covered, Regime, NoNewExit, ClosePosition, CancelOrder, IsTrigger, Moves;
    StepKeeps(cfg, b, a);
    if a.Place? && Acceptable(cfg, a.killed, a.req) {
      PlaceKeeps(cfg, b, a.req, a.now);
    }
  }

  /** In every reachable table orders are listed by age, and every child comes after its entry. */
  lemma {:induction false} OldestFirst(cfg: Config, actions: seq<Action>)
    ensures var b := Run(cfg, EMPTY_BOOK, actions).0; ByAge(b.keys) && Younger(b)
  {
    hide Inv, Regime, Covered, Step;
    if actions == [] {
    } else {
      var init, last := actions[..|actions| - 1], actions[|actions| - 1];
      OldestFirst(cfg, init);
      RunKeeps(cfg, init);
      hide ByAge, Younger;
      StepYounger(cfg, Run(cfg, EMPTY_BOOK, init).0, last);
    }
  }
}
