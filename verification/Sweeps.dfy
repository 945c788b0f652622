/** How the executor goes on: whole reconcile passes over its table, and actions of other tasks between them. */
module Sweeps {
  import opened Rounding
  import opened Options
  import opened Orders
  import opened OrderInvariants
  import opened OrderRuns
  import opened Passes
  import opened Touches

  // ----- continuations ----------------------------------------------------------------------------

  /** The actions a reconcile pass is made of. Only a pass visits orders or asks the exchange about them. */
  predicate Asks(a: Action) {
    a.On? && (a.touch.Visit? || a.touch.Answer? || a.touch.Late?)
  }

  /** A pass over the whole table, or anything else. */
  datatype Stroke = Sweep(world: World) | Free(action: Action)

  ghost function StrokeActions(cfg: Config, b: Book, s: Stroke): seq<Action> {
    match s
    case Sweep(w) => PassActions(cfg, b, b.keys, w)
    case Free(a) => if Asks(a) then [] else [a]
  }

  /** The actions of a continuation, one stroke after the other. */
  ghost function Flat(cfg: Config, b: Book, ss: seq<Stroke>): seq<Action> {
    if ss == [] then []
    else
      var first := Flat(cfg, b, ss[..|ss| - 1]);
      first + StrokeActions(cfg, Run(cfg, b, first).0, ss[|ss| - 1])
  }

  ghost function Onward(cfg: Config, b: Book, ss: seq<Stroke>): Book {
    Run(cfg, b, Flat(cfg, b, ss)).0
  }

  lemma FlatSnoc(cfg: Config, b: Book, ss: seq<Stroke>, s: Stroke)
    ensures Flat(cfg, b, ss + [s]) == Flat(cfg, b, ss) + StrokeActions(cfg, Onward(cfg, b, ss), s)
  {
    hide StrokeActions, Run;
    assert (ss + [s])[..|ss|] == ss;
  }

  lemma FlatNone(cfg: Config, b: Book)
    ensures Flat(cfg, b, []) == [] && Onward(cfg, b, []) == b
  {}

  lemma {:induction false} FlatAppend(cfg: Config, b: Book, ss: seq<Stroke>, more: seq<Stroke>)
    ensures Flat(cfg, b, ss + more) == Flat(cfg, b, ss) + Flat(cfg, Onward(cfg, b, ss), more)
    ensures Onward(cfg, b, ss + more) == Onward(cfg, Onward(cfg, b, ss), more)
  {
    hide StrokeActions, Flat, Run;
    var m := Onward(cfg, b, ss);
    RunAppend(cfg, b, Flat(cfg, b, ss), Flat(cfg, m, more));
    if more == [] {
      FlatNone(cfg, m);
      assert ss + more == ss && Flat(cfg, b, ss) + [] == Flat(cfg, b, ss);
    } else {
      var init, s := more[..|more| - 1], more[|more| - 1];
      assert more == init + [s] && ss + more == (ss + init) + [s];
      FlatAppend(cfg, b, ss, init);
      FlatSnoc(cfg, b, ss + init, s);
      FlatSnoc(cfg, m, init, s);
    }
  }

  lemma FlatOne(cfg: Config, b: Book, s: Stroke)
    ensures Flat(cfg, b, [s]) == StrokeActions(cfg, b, s)
  {
    hide StrokeActions;
    FlatNone(cfg, b);
    FlatSnoc(cfg, b, [], s);
    assert [] + [s] == [s] && [] + StrokeActions(cfg, b, s) == StrokeActions(cfg, b, s);
  }

  /** A sweep is a pass over the table's own keys. */
  lemma SweepIsPass(cfg: Config, b: Book, w: World)
    requires Inv(b)
    ensures Run(cfg, b, Flat(cfg, b, [Sweep(w)])) == Pass(cfg, b, b.keys, w)
  {
    hide Inv, Pass, PassActions;
    FlatOne(cfg, b, Sweep(w));
    PassIsRun(cfg, b, b.keys, w);
  }

  // ----- orders that have ended -------------------------------------------------------------------

  /** An action that is not a visit of `p`. */
  predicate Elsewhere(a: Action, p: OrderId) {
    !(Asks(a) && a.id == p)
  }

  /** Without a visit of it an ended entry keeps its ledger and stays ended. */
  lemma EndedStep(cfg: Config, b: Book, a: Action, p: OrderId)
    requires Inv(b) && p in b.rows && b.rows[p].kind == Entry && Final(b.rows[p].status) && Elsewhere(a, p)
    ensures var b' := Step(cfg, b, a).0;
            p in b'.rows && SameLedger(b.rows[p], b'.rows[p]) && Final(b'.rows[p].status)
  {
    hide Inv, Step;
    EntryFacts(b, p);
    if !About(a, p) {
      OthersLeaveAlone(cfg, b, a, p);
    } else if a.Cancel? {
      EndedCancel(cfg, b, a, p);
    } else {
      EndedTouch(cfg, b, p, a.touch);
    }
  }

  lemma EndedCancel(cfg: Config, b: Book, a: Action, p: OrderId)
    requires p in b.rows && Final(b.rows[p].status) && a.Cancel? && a.id == p
    ensures Step(cfg, b, a).0 == b
  {
    hide CancelLocal, ConfirmLiveCancel;
  }

  lemma EndedTouch(cfg: Config, b: Book, p: OrderId, t: Touch)
    requires Known(b, p) && b.rows[p].kind == Entry && Final(b.rows[p].status) && Elsewhere(On(p, t), p)
    ensures var b' := Step(cfg, b, On(p, t)).0;
            p in b'.rows && SameLedger(b.rows[p], b'.rows[p]) && Final(b'.rows[p].status)
  {
    hide VisitChild, VisitLocalEntry, LiveEntry, Rearm;
  }

  lemma {:induction false} EndedRun(cfg: Config, b: Book, actions: seq<Action>, p: OrderId)
    requires Inv(b) && p in b.rows && b.rows[p].kind == Entry && Final(b.rows[p].status)
    requires forall a :: a in actions ==> Elsewhere(a, p)
    ensures var b' := Run(cfg, b, actions).0;
            && Inv(b') && p in b'.rows && b'.rows[p].kind == Entry
            && SameLedger(b.rows[p], b'.rows[p]) && Final(b'.rows[p].status)
  {
    hide Inv, Step, Moves, Elsewhere, Final;
    if actions == [] {
    } else {
      var init, a := actions[..|actions| - 1], actions[|actions| - 1];
      assert actions == init + [a];
      EndedRun(cfg, b, init, p);
      EndedStep(cfg, Run(cfg, b, init).0, a, p);
      RunMoves(cfg, b, actions);
      MovedRow(b, Run(cfg, b, actions).0, p);
    }
  }

  lemma {:induction false} EffectiveElsewhere(others: Interference, p: OrderId)
    ensures forall a :: a in Effective(others) ==> Elsewhere(a, p) && !a.Place?
  {
    if others == [] {
    } else {
      EffectiveElsewhere(others[..|others| - 1], p);
    }
  }

  /** A visit in a pass passes over an ended entry. */
  lemma VisitElsewhere(cfg: Config, b: Book, id: OrderId, w: World, p: OrderId)
    requires p in b.rows && b.rows[p].kind == Entry && Final(b.rows[p].status)
    ensures forall a :: a in VisitActions(cfg, b, id, w) ==> Elsewhere(a, p)
  {
    hide Effective;
    EffectiveElsewhere(w.others(id), p);
  }

  /** A pass, with any interference inside it, leaves the ledger of an ended entry alone. */
  lemma {:induction false} PassEnded(cfg: Config, b: Book, ids: seq<OrderId>, w: World, p: OrderId)
    requires Inv(b) && p in b.rows && b.rows[p].kind == Entry && Final(b.rows[p].status)
    ensures var b' := Pass(cfg, b, ids, w).0;
            && Inv(b') && p in b'.rows && b'.rows[p].kind == Entry
            && SameLedger(b.rows[p], b'.rows[p]) && Final(b'.rows[p].status)
  {
    hide Inv, PassVisit, VisitActions, Elsewhere, Final;
    if ids == [] {
    } else {
      var init, last := ids[..|ids| - 1], ids[|ids| - 1];
      PassEnded(cfg, b, init, w, p);
      var b1 := Pass(cfg, b, init, w).0;
      VisitElsewhere(cfg, b1, last, w, p);
      EndedRun(cfg, b1, VisitActions(cfg, b1, last, w), p);
      VisitRuns(cfg, b1, last, w);
    }
  }

  /** Over every continuation the ledger of an ended entry stays as it is. */
  lemma {:induction false} EndedStays(cfg: Config, b: Book, ss: seq<Stroke>, p: OrderId)
    requires Inv(b) && p in b.rows && b.rows[p].kind == Entry && Final(b.rows[p].status)
    ensures var b' := Onward(cfg, b, ss);
            && Inv(b') && p in b'.rows && b'.rows[p].kind == Entry
            && SameLedger(b.rows[p], b'.rows[p]) && Final(b'.rows[p].status)
  {
    hide Inv, Flat, Run, Pass, PassActions, Elsewhere, Final;
    if ss == [] {
      FlatNone(cfg, b);
    } else {
      var init, s := ss[..|ss| - 1], ss[|ss| - 1];
      assert ss == init + [s];
      EndedStays(cfg, b, init, p);
      var m := Onward(cfg, b, init);
      FlatAppend(cfg, b, init, [s]);
      if s.Sweep? {
        SweepIsPass(cfg, m, s.world);
        PassEnded(cfg, m, m.keys, s.world, p);
      } else {
        FlatOne(cfg, m, s);
        FreeElsewhere(s.action, p);
        EndedRun(cfg, m, Flat(cfg, m, [s]), p);
      }
    }
  }

  lemma FreeElsewhere(a: Action, p: OrderId)
    ensures !Asks(a) ==> Elsewhere(a, p)
  {}

  // ----- passes that leave a child armed ----------------------------------------------------------

  /** Its quote in that world satisfies the trigger of `r`. */
  predicate FiredBy(r: Row, w: World) {
    r.market in w.quotes && r.trigger.Some? && Fires(r.trigger.value, EvalPrice(r, w.quotes[r.market]))
  }

  /** Nobody interferes, and no quote fires a member of the bracket of `p` other than `c`. */
  ghost predicate CalmBeside(b: Book, w: World, p: OrderId, c: OrderId) {
    && (forall k :: w.others(k) == [])
    && p in b.rows
    && forall k :: k in b.rows[p].bracketIds && k != c && k in b.rows ==> !FiredBy(b.rows[k], w)
  }

  /** Its quote neither fires nor expires `c`. */
  ghost predicate CalmSelf(b: Book, w: World, c: OrderId) {
    c in b.rows && !FiredBy(b.rows[c], w) && (b.rows[c].market in w.quotes ==> !Overdue(b.rows[c], w.now))
  }

  /** `c` is an armed child of the entry `p`. */
  ghost predicate ArmedChild(b: Book, p: OrderId, c: OrderId) {
    && p in b.rows && b.rows[p].kind == Entry
    && c in b.rows && IsChild(b.rows[c].kind) && b.rows[c].status == Armed && b.rows[c].parent == Some(p)
  }

  /** Arming any order leaves the status of every other order alone. */
  lemma ArmLeavesStatus(b: Book, id: OrderId, spec: BracketSpec, now: Time, c: OrderId)
    requires Known(b, id) && c in b.rows && c < b.next
    ensures var b' := Arm(b, id, spec, now).0; c in b'.rows && b'.rows[c].status == b.rows[c].status
  {
    hide TakeProfitLevel, StopLossLevel, SyncChildren;
    var r := b.rows[id];
    if r.kind == Entry && r.bracketIds != [] {
      SyncKeepsStatus(Put(b, WithLevels(r, spec).(bracketState := BracketArmed)), r.bracketIds, ActiveSize(r), c);
    }
  }

  lemma {:induction false} SyncKeepsStatus(b: Book, ids: seq<OrderId>, size: real, c: OrderId)
    requires c in b.rows
    ensures var b' := SyncChildren(b, ids, size);
            c in b'.rows && b'.rows[c].status == b.rows[c].status && b'.rows[c].bracketIds == b.rows[c].bracketIds
  {
    if ids == [] {
    } else {
      SyncKeepsStatus(b, ids[..|ids| - 1], size, c);
    }
  }

  lemma RearmLeavesStatus(cfg: Config, b: Book, id: OrderId, now: Time, c: OrderId)
    requires Known(b, id) && c in b.rows && c < b.next
    ensures var b' := Rearm(cfg, b, id, now).0; c in b'.rows && b'.rows[c].status == b.rows[c].status
  {
    hide Arm;
    if cfg.brackets {
      ArmLeavesStatus(b, id, DefaultSpec(cfg).value, now, c);
    }
  }

  lemma PaperLeavesStatus(cfg: Config, b: Book, id: OrderId, q: Quote, now: Time, c: OrderId)
    requires Known(b, id) && c in b.rows && c < b.next && c != id
    ensures var b' := PaperEntryFill(cfg, b, id, q, now).0;
            c in b'.rows && b'.rows[c].status == b.rows[c].status && b.next <= b'.next
  {
    hide Fill, Arm, PaperFillSize;
    var r := b.rows[id];
    var price := ContractPrice(r.direction, OrElse(q.midpoint, r.price));
    FillKeepsOrder(r, PaperFillSize(cfg, r), price, now);
    var b1 := Put(b, Fill(r, PaperFillSize(cfg, r), price, now));
    if cfg.brackets {
      ArmLeavesStatus(b1, id, DefaultSpec(cfg).value, now, c);
      ArmGrows(b1, id, DefaultSpec(cfg).value, now);
    }
  }

  lemma ArmGrows(b: Book, id: OrderId, spec: BracketSpec, now: Time)
    requires Known(b, id)
    ensures b.next <= Arm(b, id, spec, now).0.next
  {
    hide TakeProfitLevel, StopLossLevel, SyncChildren;
    var r := b.rows[id];
    if r.kind == Entry && r.bracketIds != [] {
      SyncKeepsNext(Put(b, WithLevels(r, spec).(bracketState := BracketArmed)), r.bracketIds, ActiveSize(r));
    }
  }

  lemma {:induction false} SyncKeepsNext(b: Book, ids: seq<OrderId>, size: real)
    ensures SyncChildren(b, ids, size).next == b.next
  {
    if ids == [] {
    } else {
      SyncKeepsNext(b, ids[..|ids| - 1], size);
    }
  }

  lemma LiveLeavesStatus(cfg: Config, b: Book, id: OrderId, answers: seq<LiveRow>, now: Time, c: OrderId)
    requires EntryOf(b, id) && c in b.rows && c < b.next && c != id
    ensures var b' := LiveEntry(cfg, b, id, answers, now).0;
            c in b'.rows && b'.rows[c].status == b.rows[c].status && b.next <= b'.next
  {
    hide LiveFill, LiveStatus, Arm;
    LiveFillLeaves(b, id, answers, now, c);
    var b1 := LiveFill(b, id, answers, now).0;
    LiveStatusLeaves(b1, id, answers, c);
    var b2 := LiveStatus(b1, id, answers).0;
    if cfg.brackets {
      ArmLeavesStatus(b2, id, DefaultSpec(cfg).value, now, c);
      ArmGrows(b2, id, DefaultSpec(cfg).value, now);
    }
  }

  lemma LiveFillLeaves(b: Book, id: OrderId, answers: seq<LiveRow>, now: Time, c: OrderId)
    requires Known(b, id) && c in b.rows && c != id
    ensures var b' := LiveFill(b, id, answers, now).0;
            Known(b', id) && c in b'.rows && b'.rows[c] == b.rows[c] && b'.next == b.next
  {
    hide Fill, TotalFilled, LastPrice;
    var r := b.rows[id];
    FillKeepsOrder(r, Max(TotalFilled(answers) - r.filled, 0.0), LastPrice(answers, ActivePrice(r)), now);
  }

  lemma LiveStatusLeaves(b: Book, id: OrderId, answers: seq<LiveRow>, c: OrderId)
    requires Known(b, id) && c in b.rows && c != id
    ensures var b' := LiveStatus(b, id, answers).0;
            Known(b', id) && c in b'.rows && b'.rows[c] == b.rows[c] && b'.next == b.next
  {}

  /** The members of the group of an armed child are those its entry lists. */
  lemma GroupIsListed(b: Book, p: OrderId, c: OrderId, id: OrderId)
    requires Inv(b) && ArmedChild(b, p, c)
    requires id in b.rows && b.rows[id].oco == b.rows[c].oco && IsChild(b.rows[id].kind)
    ensures b.rows[id].parent == Some(p) && id in b.rows[p].bracketIds
  {
    hide ShapeOk, Exclusive, KeysOk;
    assert LinksOk(b, b.rows[c]) && LinksOk(b, b.rows[id]);
  }

  lemma TriggerLeavesStatus(b: Book, id: OrderId, price: real, now: Time, c: OrderId)
    requires Known(b, id) && c in b.rows && c != id && (b.rows[id].oco.None? || b.rows[id].oco != b.rows[c].oco)
    ensures var b' := TriggerChild(b, id, price, now).0; c in b'.rows && b'.rows[c].status == b.rows[c].status
  {
    hide Fill, Siblings, OcoEvents;
    var r := b.rows[id];
    FillKeepsOrder(r, if r.remaining != 0.0 then r.remaining else r.size, price, now);
  }

  lemma ChildVisitLeaves(b: Book, id: OrderId, w: World, p: OrderId, c: OrderId)
    requires Inv(b) && ArmedChild(b, p, c) && Known(b, id) && IsChild(b.rows[id].kind)
    requires CalmBeside(b, w, p, c) && (id == c ==> CalmSelf(b, w, c))
    ensures var b' := VisitChild(b, id, w.quotes, w.now).0; c in b'.rows && b'.rows[c].status == Armed
  {
    hide Inv, TriggerChild, EvalPrice, Fires;
    if id != c && b.rows[id].oco == b.rows[c].oco {
      GroupIsListed(b, p, c, id);
    }
    if id != c && b.rows[id].market in w.quotes && b.rows[id].oco != b.rows[c].oco {
      TriggerLeavesStatus(b, id, EvalPrice(b.rows[id], w.quotes[b.rows[id].market]), w.now, c);
    }
  }

  lemma VisitLeavesArmed(cfg: Config, b: Book, id: OrderId, w: World, p: OrderId, c: OrderId)
    requires Inv(b) && ArmedChild(b, p, c) && CalmBeside(b, w, p, c) && (id == c ==> CalmSelf(b, w, c))
    ensures var b' := PassVisit(cfg, b, id, w).0; c in b'.rows && b'.rows[c].status == Armed
  {
    hide VisitChild, LiveEntry, Rearm, PaperEntryFill, ShapeOk, LinksOk, Groups, Exclusive, KeysOk, CalmSelf;
    if Known(b, id) {
      var r := b.rows[id];
      if IsChild(r.kind) {
        ChildVisitLeaves(b, id, w, p, c);
      } else if r.kind == Entry {
        EntryFacts(b, id);
        if LiveManaged(cfg, r) {
          assert w.others(id) == [] && Interfere(cfg, b, []) == b;
          LiveLeavesStatus(cfg, b, id, w.answers(id), w.now, c);
          RearmLeavesStatus(cfg, LiveEntry(cfg, b, id, w.answers(id), w.now).0, id, w.now, c);
        } else {
          RearmLeavesStatus(cfg, b, id, w.now, c);
          if r.market in w.quotes {
            PaperLeavesStatus(cfg, b, id, w.quotes[r.market], w.now, c);
            RearmLeavesStatus(cfg, PaperEntryFill(cfg, b, id, w.quotes[r.market], w.now).0, id, w.now, c);
          }
        }
      }
    }
  }

  /** What a pass may fire stays the same while it runs. */
  lemma CalmStays(b: Book, b': Book, w: World, p: OrderId, c: OrderId)
    requires Inv(b) && Moves(b, b') && ArmedChild(b, p, c) && c in b'.rows && b'.rows[c].status == Armed
    ensures ArmedChild(b', p, c)
    ensures CalmBeside(b, w, p, c) ==> CalmBeside(b', w, p, c)
    ensures CalmSelf(b, w, c) ==> CalmSelf(b', w, c)
  {
    hide Inv, Moves, FiredBy;
    ListedRows(b, p, c);
    MovedRow(b, b', p);
    MovedRow(b, b', c);
    FiredSame(b.rows[c], b'.rows[c], w);
    forall k | k in b.rows[p].bracketIds ensures k in b'.rows && (FiredBy(b'.rows[k], w) <==> FiredBy(b.rows[k], w)) {
      MovedRow(b, b', k);
      FiredSame(b.rows[k], b'.rows[k], w);
    }
  }

  lemma FiredSame(r: Row, r': Row, w: World)
    requires SameOrder(r, r')
    ensures FiredBy(r', w) <==> FiredBy(r, w)
  {}

  lemma ListedRows(b: Book, p: OrderId, c: OrderId)
    requires Inv(b) && ArmedChild(b, p, c)
    ensures c in b.rows[p].bracketIds && b.rows[c].id == c && b.rows[p].id == p
    ensures forall k :: k in b.rows[p].bracketIds ==> k in b.rows
  {
    hide ShapeOk, Groups, Exclusive, KeysOk;
    assert LinksOk(b, b.rows[c]) && LinksOk(b, b.rows[p]);
    BracketChildren(b, p);
  }

  lemma {:induction false} PassLeavesArmed(cfg: Config, b: Book, ids: seq<OrderId>, w: World, p: OrderId, c: OrderId)
    requires Inv(b) && ArmedChild(b, p, c) && CalmBeside(b, w, p, c) && (c in ids ==> CalmSelf(b, w, c))
    ensures var b' := Pass(cfg, b, ids, w).0;
            && Inv(b') && Moves(b, b') && ArmedChild(b', p, c) && CalmBeside(b', w, p, c)
            && (CalmSelf(b, w, c) ==> CalmSelf(b', w, c))
  {
    hide Inv, Moves, PassVisit, CalmBeside, CalmSelf;
    PassMoves(cfg, b, ids, w);
    if ids == [] {
      CalmStays(b, b, w, p, c);
    } else {
      var init, last := ids[..|ids| - 1], ids[|ids| - 1];
      assert ids == init + [last];
      PassLeavesArmed(cfg, b, init, w, p, c);
      VisitLeavesArmed(cfg, Pass(cfg, b, init, w).0, last, w, p, c);
      CalmStays(b, Pass(cfg, b, ids, w).0, w, p, c);
    }
  }

  lemma PassMoves(cfg: Config, b: Book, ids: seq<OrderId>, w: World)
    requires Inv(b)
    ensures Inv(Pass(cfg, b, ids, w).0) && Moves(b, Pass(cfg, b, ids, w).0)
  {
    hide Inv, Moves, Pass, PassActions, Run;
    PassIsRun(cfg, b, ids, w);
    RunMoves(cfg, b, PassActions(cfg, b, ids, w));
  }

  // ----- passes in parts --------------------------------------------------------------------------

  lemma {:induction false} PassAppend(cfg: Config, b: Book, ids: seq<OrderId>, more: seq<OrderId>, w: World)
    ensures var (b1, e1) := Pass(cfg, b, ids, w);
            var (b2, e2) := Pass(cfg, b1, more, w);
            Pass(cfg, b, ids + more, w) == (b2, e1 + e2)
  {
    hide PassVisit, Pass;
    var (b1, e1) := Pass(cfg, b, ids, w);
    NoPass(cfg, b1, w);
    if more == [] {
      assert ids + more == ids && e1 + [] == e1;
    } else {
      var init, last := more[..|more| - 1], more[|more| - 1];
      assert more == init + [last] && ids + more == (ids + init) + [last];
      PassAppend(cfg, b, ids, init, w);
      PassSnoc(cfg, b, ids + init, last, w);
      PassSnoc(cfg, b1, init, last, w);
      var (b2, e2) := Pass(cfg, b1, init, w);
      var e3 := PassVisit(cfg, b2, last, w).1;
      assert e1 + e2 + e3 == e1 + (e2 + e3);
    }
  }

  /** Before, at and after the one visit of an order. */
  lemma PassAround(cfg: Config, b: Book, first: seq<OrderId>, id: OrderId, rest: seq<OrderId>, w: World)
    ensures var (b1, e1) := Pass(cfg, b, first, w);
            var (b2, e2) := PassVisit(cfg, b1, id, w);
            var (b3, e3) := Pass(cfg, b2, rest, w);
            Pass(cfg, b, first + [id] + rest, w) == (b3, e1 + e2 + e3)
  {
    hide PassVisit, Pass;
    PassSnoc(cfg, b, first, id, w);
    PassAppend(cfg, b, first + [id], rest, w);
  }

  /** The table lists every order once. */
  lemma KeyAt(b: Book, id: OrderId) returns (first: seq<OrderId>, rest: seq<OrderId>)
    requires Inv(b) && id in b.rows
    ensures b.keys == first + [id] + rest && id !in first && id !in rest
  {
    hide ShapeOk, LinksOk, Groups, Exclusive;
    assert id in b.keys;
    var k :| 0 <= k < |b.keys| && b.keys[k] == id;
    first, rest := b.keys[..k], b.keys[k + 1..];
    assert b.keys == first + [id] + rest;
  }

  // ----- passes that leave an entry alone ---------------------------------------------------------

  /** The pass neither fills the entry nor hears of it. */
  ghost predicate Unasked(cfg: Config, r: Row, w: World) {
    && (forall k :: w.others(k) == []) && w.answers(r.id) == []
    && (r.market in w.quotes ==>
          ContractPrice(r.direction, OrElse(w.quotes[r.market].midpoint, r.price)) > r.price + cfg.tolerance)
  }

  lemma {:induction false} OthersRun(cfg: Config, b: Book, actions: seq<Action>, p: OrderId)
    requires Inv(b) && p in b.rows && b.rows[p].kind == Entry && forall a :: a in actions ==> !About(a, p)
    ensures Untouched(b, Run(cfg, b, actions).0, p)
  {
    hide Inv, Step, About;
    if actions == [] {
    } else {
      var init, a := actions[..|actions| - 1], actions[|actions| - 1];
      assert actions == init + [a];
      OthersRun(cfg, b, init, p);
      RunMoves(cfg, b, init);
      OthersLeaveAlone(cfg, Run(cfg, b, init).0, a, p);
    }
  }

  /** A visit of another order, with nobody interfering, leaves the entry alone. */
  lemma OtherVisit(cfg: Config, b: Book, id: OrderId, w: World, p: OrderId)
    requires Inv(b) && p in b.rows && b.rows[p].kind == Entry && id != p && w.others(id) == []
    ensures Untouched(b, PassVisit(cfg, b, id, w).0, p)
  {
    hide Inv, PassVisit, Run;
    VisitRuns(cfg, b, id, w);
    assert Effective([]) == [];
    OthersRun(cfg, b, VisitActions(cfg, b, id, w), p);
  }

  lemma OwnVisit(cfg: Config, b: Book, w: World, p: OrderId)
    requires EntryOf(b, p) && Unasked(cfg, b.rows[p], w)
    ensures Untouched(b, PassVisit(cfg, b, p, w).0, p)
  {
    hide Rearm, Fill, Arm;
    RearmUntouched(cfg, b, p, w.now, p);
    assert Interfere(cfg, b, []) == b;
  }

  lemma {:induction false} PassLeavesEntry(cfg: Config, b: Book, ids: seq<OrderId>, w: World, p: OrderId)
    requires Inv(b) && p in b.rows && b.rows[p].kind == Entry && (forall k :: w.others(k) == [])
    requires p in ids ==> Unasked(cfg, b.rows[p], w)
    ensures Untouched(b, Pass(cfg, b, ids, w).0, p)
  {
    hide Inv, PassVisit, Moves, Unasked;
    if ids == [] {
    } else {
      var init, last := ids[..|ids| - 1], ids[|ids| - 1];
      assert ids == init + [last];
      PassLeavesEntry(cfg, b, init, w, p);
      PassMoves(cfg, b, init, w);
      var b1 := Pass(cfg, b, init, w).0;
      if last == p {
        EntryFacts(b1, p);
        UnaskedSame(cfg, b.rows[p], b1.rows[p], w);
        OwnVisit(cfg, b1, w, p);
      } else {
        OtherVisit(cfg, b1, last, w, p);
      }
    }
  }

  lemma UnaskedSame(cfg: Config, r: Row, r': Row, w: World)
    requires SameOrder(r, r')
    ensures Unasked(cfg, r', w) <==> Unasked(cfg, r, w)
  {}

  // ----- a pass that fires a child ----------------------------------------------------------------

  lemma ChildFires(cfg: Config, b: Book, c: OrderId, w: World)
    requires Known(b, c) && IsChild(b.rows[c].kind) && b.rows[c].status == Armed
    requires FiredBy(b.rows[c], w) && !Overdue(b.rows[c], w.now)
    ensures var (b', es) := PassVisit(cfg, b, c, w);
            var price := EvalPrice(b.rows[c], w.quotes[b.rows[c].market]);
            && es != [] && es[|es| - 1].kind == ExitFilled && es[|es| - 1].order == c
            && es[|es| - 1].fillPrice == Some(price)
  {
    hide Fires, EvalPrice, CancelSiblings, Siblings, OcoEvents, Fill;
  }

  /** A pass in which nothing else of the bracket fires exits through `c`. */
  lemma PassFires(cfg: Config, b: Book, w: World, p: OrderId, c: OrderId) returns (n: nat)
    requires Inv(b) && ArmedChild(b, p, c) && CalmBeside(b, w, p, c)
    requires FiredBy(b.rows[c], w) && !Overdue(b.rows[c], w.now)
    ensures var es := Pass(cfg, b, b.keys, w).1;
            && n < |es| && es[n].kind == ExitFilled && es[n].order == c
            && es[n].fillPrice == Some(EvalPrice(b.rows[c], w.quotes[b.rows[c].market]))
  {
    hide Inv, Moves, Pass, PassVisit, FiredBy, EvalPrice, CalmBeside, Fires;
    var first, rest := KeyAt(b, c);
    PassLeavesArmed(cfg, b, first, w, p, c);
    var (b1, e1) := Pass(cfg, b, first, w);
    MovedRow(b, b1, c);
    ListedRows(b1, p, c);
    FiredSame(b.rows[c], b1.rows[c], w);
    SameEval(b.rows[c], b1.rows[c], w);
    ChildFires(cfg, b1, c, w);
    PassAround(cfg, b, first, c, rest, w);
    var (b2, e2) := PassVisit(cfg, b1, c, w);
    var e3 := Pass(cfg, b2, rest, w).1;
    n := |e1| + |e2| - 1;
    assert (e1 + e2 + e3)[n] == e2[|e2| - 1];
  }

  lemma SameEval(r: Row, r': Row, w: World)
    requires SameOrder(r, r') && FiredBy(r, w)
    ensures EvalPrice(r', w.quotes[r'.market]) == EvalPrice(r, w.quotes[r.market])
    ensures Overdue(r', w.now) <==> Overdue(r, w.now)
  {}

  // ----- quotes for a bracket ---------------------------------------------------------------------

  /** A price that does not satisfy the trigger. */
  function NotFiring(t: Option<Trigger>): real {
    match t
    case None => 0.0
    case Some(AtLeast(x)) => x - 1.0
    case Some(AtMost(x)) => x + 1.0
  }

  /** One market quoted so that the entry `p` is offered at `offer`, its take-profit `c` is judged by `bid`, and its
      stop-loss does not fire. All three are contract prices. */
  function BracketQuote(b: Book, p: OrderId, c: OrderId, offer: real, bid: real): Quote
    requires p in b.rows && c in b.rows
  {
    var s := if |b.rows[p].bracketIds| == 2 && b.rows[p].bracketIds[1] in b.rows then b.rows[b.rows[p].bracketIds[1]]
             else b.rows[c];
    Quote(Some(ContractPrice(b.rows[p].direction, offer)), Some(ContractPrice(b.rows[c].direction, bid)),
          Some(ContractPrice(s.direction, NotFiring(s.trigger))))
  }

  /** A pass that sees that quote alone and hears nothing else. */
  function BracketWorld(b: Book, p: OrderId, c: OrderId, market: string, offer: real, bid: real, now: Time): World
    requires p in b.rows && c in b.rows
  {
    World(map[market := BracketQuote(b, p, c, offer, bid)], now, (k: OrderId) => [], (k: OrderId) => [])
  }

  lemma Listing(b: Book, p: OrderId, c: OrderId)
    requires Inv(b) && ArmedChild(b, p, c) && b.rows[c].kind == TakeProfit
    ensures var ids := b.rows[p].bracketIds;
            && |ids| == 2 && ids[0] == c && ids[1] in b.rows && b.rows[ids[1]].kind == StopLoss
    ensures b.rows[c].trigger.Some? && b.rows[b.rows[p].bracketIds[1]].trigger.Some?
  {
    hide Groups, Exclusive, KeysOk, LedgerOk;
    assert LinksOk(b, b.rows[c]) && LinksOk(b, b.rows[p]) && ShapeOk(b.rows[c]);
    assert ShapeOk(b.rows[b.rows[p].bracketIds[1]]);
  }

  /** Only `c` can fire in such a pass, and it does exactly at bids that satisfy its trigger. */
  lemma BracketWorldFacts(b: Book, p: OrderId, c: OrderId, market: string, offer: real, bid: real, now: Time)
    requires Inv(b) && ArmedChild(b, p, c) && b.rows[c].kind == TakeProfit
    ensures var w := BracketWorld(b, p, c, market, offer, bid, now);
            && CalmBeside(b, w, p, c)
            && (FiredBy(b.rows[c], w) <==> market == b.rows[c].market && Fires(b.rows[c].trigger.value, bid))
            && (market == b.rows[c].market ==> EvalPrice(b.rows[c], w.quotes[market]) == bid)
            && (market == b.rows[p].market ==>
                  ContractPrice(b.rows[p].direction, OrElse(w.quotes[market].midpoint, b.rows[p].price)) == offer)
    ensures b.rows[c].trigger.Some?
  {
    hide Inv;
    Listing(b, p, c);
    CalmBracket(b, p, c, market, offer, bid, now);
    hide NotFiring, Fires, CalmBeside;
  }

  lemma CalmBracket(b: Book, p: OrderId, c: OrderId, market: string, offer: real, bid: real, now: Time)
    requires p in b.rows && c in b.rows && |b.rows[p].bracketIds| == 2 && b.rows[p].bracketIds[0] == c
    requires b.rows[p].bracketIds[1] in b.rows && b.rows[b.rows[p].bracketIds[1]].kind == StopLoss
    ensures CalmBeside(b, BracketWorld(b, p, c, market, offer, bid, now), p, c)
  {
    var w, ids := BracketWorld(b, p, c, market, offer, bid, now), b.rows[p].bracketIds;
    forall k | k in ids && k != c ensures !FiredBy(b.rows[k], w) {
      assert k == ids[1];
    }
  }
}
