/** When a take-profit can close a trade at a loss: fills after the first arming move the average price, but not the
    triggers of the children. Here is what that means; LiveOvertake.dfy and PaperOvertake.dfy say exactly when. */
module Overtake {
  import opened Rounding
  import opened Options
  import opened Orders
  import opened OrderInvariants
  import opened OrderRuns
  import opened Passes
  import opened EntryFills
  import opened Sweeps

  // ----- exits of any run -------------------------------------------------------------------------

  /** From any table, the exit events of a run are truthful about the table it ends in. */
  lemma {:induction false} RunTells(cfg: Config, b: Book, actions: seq<Action>)
    requires Inv(b)
    ensures var (b', es) := Run(cfg, b, actions);
            forall n :: 0 <= n < |es| && es[n].kind == ExitFilled ==> TellsExit(b', es[n])
  {
    hide Inv, OrderInvariants.Moves, TellsExit, Step, IsTrigger, Keeps;
    if actions == [] {
    } else {
      var init, a := actions[..|actions| - 1], actions[|actions| - 1];
      RunTells(cfg, b, init);
      RunMoves(cfg, b, init);
      var (b1, e1) := Run(cfg, b, init);
      var (b', e2) := Step(cfg, b1, a);
      StepTells(cfg, b1, a);
      forall n | 0 <= n < |e1 + e2| && (e1 + e2)[n].kind == ExitFilled ensures TellsExit(b', (e1 + e2)[n]) {
        if n < |e1| {
          TellsExitMoves(b1, b', e1[n]);
        } else {
          assert (e1 + e2)[n] == e2[n - |e1|];
        }
      }
    }
  }

  lemma StepTells(cfg: Config, b: Book, a: Action)
    requires Inv(b)
    ensures var (b', es) := Step(cfg, b, a);
            && OrderInvariants.Moves(b, b')
            && forall n :: 0 <= n < |es| && es[n].kind == ExitFilled ==> TellsExit(b', es[n])
  {
    hide Inv, OrderInvariants.Moves, TellsExit, Step, IsTrigger, Covered, Regime;
    StepKeeps(cfg, b, a);
    StepEvents(cfg, b, a);
    var es := Step(cfg, b, a).1;
    if IsTrigger(b, a) {
      TriggerTells(cfg, b, a);
      QuietPart(es[..|es| - 1]);
    } else {
      QuietPart(es);
    }
    hide NoExit;
  }

  lemma QuietPart(es: seq<Event>)
    requires NoExit(es)
    ensures forall n :: 0 <= n < |es| ==> es[n].kind != ExitFilled
  {
    forall n | 0 <= n < |es| ensures es[n].kind != ExitFilled {
      assert es[n] in es;
    }
  }

  // ----- losing to a take-profit ------------------------------------------------------------------

  /** `c` is an armed take-profit child of the entry `p`, to be fired at `trigger`. */
  ghost predicate Guards(b: Book, p: OrderId, c: OrderId, trigger: real) {
    && p in b.rows && b.rows[p].kind == Entry && 0.0 <= trigger < 1.0
    && c in b.rows && b.rows[c].kind == TakeProfit && b.rows[c].status == Armed && b.rows[c].parent == Some(p)
    && b.rows[c].trigger == Some(AtLeast(trigger))
  }

  /** Answers about an order that charge at most `top` a contract and, with `grid`, report whole units of 1e-8. */
  ghost predicate AnswersWithin(answers: seq<LiveRow>, top: real, grid: bool) {
    && (forall x :: x in answers && x.average.Some? ==> x.average.value <= top)
    && (grid ==> OnGrid(TotalFilled(answers)))
  }

  /** An action that, if it is about order `r`, fills nothing of it above `top`. */
  ghost predicate Priced(cfg: Config, r: Row, a: Action, top: real, grid: bool) {
    a.On? && a.id == r.id ==>
      match a.touch
      case Visit(quotes, _) => OffersWithin(cfg, r, quotes, top)
      case Answer(answers, _) => AnswersWithin(answers, top, grid)
      case _ => true
  }

  /** Quotes that offer the order nothing above `top` that it would accept. */
  ghost predicate OffersWithin(cfg: Config, r: Row, quotes: map<string, Quote>, top: real) {
    r.market in quotes && Offer(r, quotes[r.market]) <= r.price + cfg.tolerance ==> Offer(r, quotes[r.market]) <= top
  }

  ghost predicate Within(cfg: Config, r: Row, actions: seq<Action>, top: real, grid: bool) {
    forall a :: a in actions ==> Priced(cfg, r, a, top, grid)
  }

  /** A continuation in two parts, an exit event of the second, and the average of the entry between them. */
  datatype Way = Way(before: seq<Stroke>, after: seq<Stroke>, exit: nat, average: real)

  /** The first part brings the entry to an average price, and in the second its take-profit fires below it. */
  ghost predicate Loses(cfg: Config, b: Book, p: OrderId, c: OrderId, top: real, grid: bool, w: Way)
    requires p in b.rows
  {
    var m := Onward(cfg, b, w.before);
    var es := Run(cfg, m, Flat(cfg, m, w.after)).1;
    && Within(cfg, b.rows[p], Flat(cfg, b, w.before), top, grid)
    && Within(cfg, b.rows[p], Flat(cfg, m, w.after), top, grid)
    && p in m.rows && m.rows[p].average == Some(w.average)
    && w.exit < |es| && es[w.exit].kind == ExitFilled && es[w.exit].order == c
    && es[w.exit].fillPrice.Some? && es[w.exit].fillPrice.value < w.average
  }

  /** Some continuation with prices of at most `top` loses. */
  ghost predicate CanLose(cfg: Config, b: Book, p: OrderId, c: OrderId, top: real, grid: bool)
    requires p in b.rows
  {
    exists w: Way :: Loses(cfg, b, p, c, top, grid, w)
  }

  /** No continuation with prices of at most `top` brings the average above `t`. */
  ghost predicate Bounded(cfg: Config, b: Book, p: OrderId, top: real, t: real, grid: bool)
    requires p in b.rows
  {
    forall ss :: Within(cfg, b.rows[p], Flat(cfg, b, ss), top, grid) ==>
      p in Onward(cfg, b, ss).rows && OrElse(Onward(cfg, b, ss).rows[p].average, t) <= t
  }

  /** Nothing is placed on the way, the take-profit fires exactly at its trigger, and the average stays as it was. */
  ghost predicate Plain(cfg: Config, b: Book, p: OrderId, trigger: real, w: Way) {
    var m := Onward(cfg, b, w.before);
    var (b', es) := Run(cfg, m, Flat(cfg, m, w.after));
    && Placeless(w.before) && Placeless(w.after)
    && w.exit < |es| && es[w.exit].fillPrice == Some(trigger)
    && p in b'.rows && b'.rows[p].average == Some(w.average)
  }

  predicate Placeless(ss: seq<Stroke>) {
    forall i :: 0 <= i < |ss| ==> !(ss[i].Free? && ss[i].action.Place?)
  }

  lemma PricedSame(cfg: Config, r: Row, r': Row, a: Action, top: real, grid: bool)
    requires SameOrder(r, r')
    ensures Priced(cfg, r, a, top, grid) <==> Priced(cfg, r', a, top, grid)
  {}

  lemma WithinSame(cfg: Config, r: Row, r': Row, actions: seq<Action>, top: real, grid: bool)
    requires SameOrder(r, r')
    ensures Within(cfg, r, actions, top, grid) <==> Within(cfg, r', actions, top, grid)
  {
    hide Priced;
    forall a | a in actions ensures Priced(cfg, r, a, top, grid) <==> Priced(cfg, r', a, top, grid) {
      PricedSame(cfg, r, r', a, top, grid);
    }
  }

  lemma WithinAppend(cfg: Config, r: Row, first: seq<Action>, second: seq<Action>, top: real, grid: bool)
    ensures Within(cfg, r, first + second, top, grid)
            <==> Within(cfg, r, first, top, grid) && Within(cfg, r, second, top, grid)
  {
    hide Priced;
    assert forall a :: a in first + second <==> a in first || a in second;
  }

  // ----- passes within the bound ------------------------------------------------------------------

  /** A world that charges the order nothing above `top`. */
  ghost predicate WorldWithin(cfg: Config, r: Row, w: World, top: real, grid: bool) {
    OffersWithin(cfg, r, w.quotes, top) && AnswersWithin(w.answers(r.id), top, grid)
  }

  lemma {:induction false} EffectiveWithin(cfg: Config, r: Row, others: Interference, top: real, grid: bool)
    ensures Within(cfg, r, Effective(others), top, grid)
  {
    if others == [] {
    } else {
      EffectiveWithin(cfg, r, others[..|others| - 1], top, grid);
    }
  }

  lemma VisitWithin(cfg: Config, b: Book, id: OrderId, w: World, r: Row, top: real, grid: bool)
    requires WorldWithin(cfg, r, w, top, grid)
    ensures Within(cfg, r, VisitActions(cfg, b, id, w), top, grid)
  {
    hide Effective, AnswersWithin, OffersWithin;
    EffectiveWithin(cfg, r, w.others(id), top, grid);
  }

  lemma {:induction false} PassWithin(cfg: Config, b: Book, ids: seq<OrderId>, w: World, r: Row, top: real, grid: bool)
    requires WorldWithin(cfg, r, w, top, grid)
    ensures Within(cfg, r, PassActions(cfg, b, ids, w), top, grid)
  {
    hide WorldWithin, Within, VisitActions, Pass;
    if ids == [] {
      NothingWithin(cfg, r, top, grid);
    } else {
      var init, last := ids[..|ids| - 1], ids[|ids| - 1];
      PassWithin(cfg, b, init, w, r, top, grid);
      var b1 := Pass(cfg, b, init, w).0;
      VisitWithin(cfg, b1, last, w, r, top, grid);
      WithinAppend(cfg, r, PassActions(cfg, b, init, w), VisitActions(cfg, b1, last, w), top, grid);
    }
  }

  lemma NothingWithin(cfg: Config, r: Row, top: real, grid: bool)
    ensures Within(cfg, r, [], top, grid) && AnswersWithin([], top, grid)
  {}

  // ----- ways to lose -----------------------------------------------------------------------------

  lemma GuardsArmed(b: Book, p: OrderId, c: OrderId, trigger: real)
    requires Guards(b, p, c, trigger)
    ensures ArmedChild(b, p, c) && b.rows[c].kind == TakeProfit && b.rows[c].trigger == Some(AtLeast(trigger))
  {}

  lemma StepMoves(cfg: Config, b: Book, a: Action)
    requires Inv(b)
    ensures Inv(Step(cfg, b, a).0) && OrderInvariants.Moves(b, Step(cfg, b, a).0)
  {
    hide Inv, OrderInvariants.Moves, Step, NoNewExit, OldEntries, Covered, Regime, IsTrigger;
    StepKeeps(cfg, b, a);
  }

  lemma LedgerAt(b: Book, p: OrderId)
    requires Inv(b) && p in b.rows
    ensures LedgerOk(b.rows[p]) && b.rows[p].id == p
  {
    ShapeAt(b, p);
    hide LedgerOk, LinksOk, Groups, Exclusive, KeysOk;
  }

  /** The take-profit stays on guard while it is armed. */
  lemma GuardsStay(b: Book, b': Book, p: OrderId, c: OrderId, trigger: real)
    requires OrderInvariants.Moves(b, b') && Guards(b, p, c, trigger) && c in b'.rows && b'.rows[c].status == Armed
    ensures Guards(b', p, c, trigger)
  {
    MovedRow(b, b', p);
    MovedRow(b, b', c);
    hide OrderInvariants.Moves;
  }

  lemma OnwardMoves(cfg: Config, b: Book, ss: seq<Stroke>)
    requires Inv(b)
    ensures Inv(Onward(cfg, b, ss)) && OrderInvariants.Moves(b, Onward(cfg, b, ss))
  {
    hide Inv, OrderInvariants.Moves, Run, Flat;
    RunMoves(cfg, b, Flat(cfg, b, ss));
  }

  /** An exit event of a child is priced, names its entry and fires its trigger. */
  lemma ExitNames(cfg: Config, b: Book, actions: seq<Action>, p: OrderId, c: OrderId, n: nat)
    requires Inv(b) && c in b.rows && b.rows[c].parent == Some(p)
    requires var es := Run(cfg, b, actions).1; n < |es| && es[n].kind == ExitFilled && es[n].order == c
    ensures var (b', es) := Run(cfg, b, actions);
            && c in b'.rows && es[n].fillPrice.Some? && es[n].parent == Some(p)
            && b.rows[c].trigger.Some? && Fires(b.rows[c].trigger.value, es[n].fillPrice.value)
  {
    hide Inv, OrderInvariants.Moves, Run;
    RunTells(cfg, b, actions);
    RunMoves(cfg, b, actions);
    MovedRow(b, Run(cfg, b, actions).0, c);
  }

  /** A bounded average is safe. */
  lemma BoundedIsSafe(cfg: Config, b: Book, p: OrderId, c: OrderId, trigger: real, top: real, grid: bool)
    requires Inv(b) && Guards(b, p, c, trigger) && Bounded(cfg, b, p, top, trigger, grid)
    ensures !CanLose(cfg, b, p, c, top, grid)
  {
    hide Inv, OrderInvariants.Moves, Run, Within, Flat, Onward;
    forall w: Way ensures !Loses(cfg, b, p, c, top, grid, w) {
      if Loses(cfg, b, p, c, top, grid, w) {
        OnwardMoves(cfg, b, w.before);
        var m := Onward(cfg, b, w.before);
        MovedRow(b, m, c);
        ExitNames(cfg, m, Flat(cfg, m, w.after), p, c, w.exit);
        assert false;
      }
    }
  }

  /** The quotes of the last pass: the take-profit at its trigger, and the entry above what it accepts. */
  function FireWorld(cfg: Config, b: Book, p: OrderId, c: OrderId, trigger: real): World
    requires p in b.rows && c in b.rows
  {
    BracketWorld(b, p, c, b.rows[c].market, b.rows[p].price + cfg.tolerance + 1.0, trigger,
                 OrElse(b.rows[c].expiry, 0.0))
  }

  lemma FireWorldFacts(cfg: Config, b: Book, p: OrderId, c: OrderId, trigger: real, top: real, grid: bool)
    requires Inv(b) && Guards(b, p, c, trigger)
    ensures var w, r := FireWorld(cfg, b, p, c, trigger), b.rows[c];
            && CalmBeside(b, w, p, c) && FiredBy(r, w) && !Overdue(r, w.now)
            && r.market in w.quotes && EvalPrice(r, w.quotes[r.market]) == trigger
            && Unasked(cfg, b.rows[p], w) && WorldWithin(cfg, b.rows[p], w, top, grid)
  {
    hide Inv, CalmBeside, FiredBy, EvalPrice, AnswersWithin;
    GuardsArmed(b, p, c, trigger);
    BracketWorldFacts(b, p, c, b.rows[c].market, b.rows[p].price + cfg.tolerance + 1.0, trigger,
                      OrElse(b.rows[c].expiry, 0.0));
    NothingWithin(cfg, b.rows[p], top, grid);
  }

  /** Once the average of the entry is above the trigger, one more pass makes it lose. */
  lemma FiredLoses(cfg: Config, b: Book, before: seq<Stroke>, p: OrderId, c: OrderId, trigger: real, top: real,
                   grid: bool) returns (w: Way)
    requires Inv(b) && p in b.rows && Placeless(before) && Within(cfg, b.rows[p], Flat(cfg, b, before), top, grid)
    requires var m := Onward(cfg, b, before);
             Guards(m, p, c, trigger) && OrElse(m.rows[p].average, trigger) > trigger
    ensures Loses(cfg, b, p, c, top, grid, w) && Plain(cfg, b, p, trigger, w)
  {
    hide Inv, OrderInvariants.Moves, Run, Within, Flat, Onward, Pass, PassActions, Unasked, WorldWithin;
    hide CalmBeside, FiredBy, EvalPrice, FireWorld;
    OnwardMoves(cfg, b, before);
    var m := Onward(cfg, b, before);
    MovedRow(b, m, p);
    GuardsArmed(m, p, c, trigger);
    FireWorldFacts(cfg, m, p, c, trigger, top, grid);
    var world := FireWorld(cfg, m, p, c, trigger);
    SweepIsPass(cfg, m, world);
    FlatOne(cfg, m, Sweep(world));
    PassWithin(cfg, m, m.keys, world, m.rows[p], top, grid);
    WithinSame(cfg, b.rows[p], m.rows[p], Flat(cfg, m, [Sweep(world)]), top, grid);
    var n := PassFires(cfg, m, world, p, c);
    AverageStays(cfg, m, world, p);
    w := Way(before, [Sweep(world)], n, m.rows[p].average.value);
  }

  lemma AverageStays(cfg: Config, b: Book, w: World, p: OrderId)
    requires Inv(b) && p in b.rows && b.rows[p].kind == Entry && Unasked(cfg, b.rows[p], w)
    ensures var b' := Pass(cfg, b, b.keys, w).0; p in b'.rows && b'.rows[p].average == b.rows[p].average
  {
    hide Inv, Pass;
    PassLeavesEntry(cfg, b, b.keys, w, p);
  }

  /** An entry whose average is above the trigger can lose at once. */
  lemma NowLoses(cfg: Config, b: Book, p: OrderId, c: OrderId, trigger: real, top: real, grid: bool) returns (w: Way)
    requires Inv(b) && Guards(b, p, c, trigger) && OrElse(b.rows[p].average, trigger) > trigger
    ensures Loses(cfg, b, p, c, top, grid, w) && Plain(cfg, b, p, trigger, w)
  {
    hide Inv, Flat, Onward, Loses, Plain, Within;
    FlatNone(cfg, b);
    NothingWithin(cfg, b.rows[p], top, grid);
    w := FiredLoses(cfg, b, [], p, c, trigger, top, grid);
  }
}
