/** Exactly when a take-profit can close a trade at a loss, for every kind of entry, in the order table and in the row
    that is booked. */
module TakeProfits {
  import opened Rounding
  import opened Options
  import opened Orders
  import opened OrderInvariants
  import opened Passes
  import opened Touches
  import opened Tracker
  import opened Lifecycle
  import opened Desk
  import opened BracketExits
  import opened Sweeps
  import opened Overtake
  import opened LiveOvertake
  import opened DearPasses
  import opened PaperOvertake

  // ----- the order table --------------------------------------------------------------------------

  /** Bought above the trigger already, or able to get there by fills of at most `top` that are still to come. */
  ghost predicate Exposed(cfg: Config, r: Row, trigger: real, top: real, grid: bool) {
    || Above(r, trigger)
    || (!Idle(cfg, r) &&
        if r.isPaper then
          var o := AtWorst(cfg, r, top, EnoughPasses(cfg, r.size));
          Above(o, trigger) || (o.remaining > 0.0 && Takes(cfg, r) && Worst(cfg, r, top) > trigger)
        else if grid then WorstAverage(r, top) > trigger
        else r.remaining > 0.0 && top > trigger)
  }

  /** What is asked of a live order: its limit is within `top`, and its size is in whole units if its fills are. */
  ghost predicate Quoted(cfg: Config, r: Row, top: real, grid: bool) {
    LiveManaged(cfg, r) ==> r.price <= top && (grid ==> OnGrid(r.size))
  }

  /** Over all continuations by whole passes and by actions of other tasks in which the entry fills at `top` at most: no
      average above the trigger is reached unless the entry is exposed. */
  lemma UnexposedIsBounded(cfg: Config, b: Orders.Book, p: OrderId, t: real, top: real, grid: bool)
    requires Inv(b) && p in b.rows && b.rows[p].kind == Entry && Quoted(cfg, b.rows[p], top, grid)
    requires !Exposed(cfg, b.rows[p], t, top, grid)
    ensures Bounded(cfg, b, p, top, t, grid)
  {
    hide Inv, OnGrid, WorstAverage, AtWorst, Bounded, LedgerOk, Takes, Worst, EnoughPasses, Dear;
    var r := b.rows[p];
    if Idle(cfg, r) {
      IdleIsBounded(cfg, b, p, top, t, grid);
    } else if r.isPaper {
      LedgerAt(b, p);
      DearIsDecided(cfg, r, top, t);
      PaperIsBounded(cfg, b, p, top, t, grid);
    } else if grid {
      GridIsBounded(cfg, b, p, top, t);
    } else {
      AnyIsBounded(cfg, b, p, top, t);
    }
  }

  /** An exposed entry has a way to lose on which nothing is placed. */
  lemma ExposedLoses(cfg: Config, b: Orders.Book, p: OrderId, c: OrderId, trigger: real, top: real, grid: bool)
    returns (w: Way)
    requires Inv(b) && Guards(b, p, c, trigger) && Quoted(cfg, b.rows[p], top, grid)
    requires Exposed(cfg, b.rows[p], trigger, top, grid)
    ensures Loses(cfg, b, p, c, top, grid, w) && Plain(cfg, b, p, trigger, w)
  {
    hide Inv, Loses, Plain, OnGrid, WorstAverage, AtWorst, LedgerOk, Takes, Worst, EnoughPasses, Dear;
    var r := b.rows[p];
    if Above(r, trigger) {
      w := NowLoses(cfg, b, p, c, trigger, top, grid);
    } else if r.isPaper {
      EntryFacts(b, p);
      LedgerAt(b, p);
      DearIsDecided(cfg, r, top, trigger);
      w := DearLoses(cfg, b, p, c, trigger, top, grid);
    } else if grid {
      w := GridUnsafeLoses(cfg, b, p, c, trigger, top, 0.0);
    } else {
      w := AnyUnsafeLoses(cfg, b, p, c, trigger, top, 0.0);
    }
  }

  /** Over those continuations: some brings the entry above its trigger and then fires its take-profit below its average
      if and only if the entry is exposed. */
  lemma TakeProfitSafeExactly(cfg: Config, b: Orders.Book, p: OrderId, c: OrderId, trigger: real, top: real, grid: bool)
    requires Inv(b) && Guards(b, p, c, trigger) && Quoted(cfg, b.rows[p], top, grid)
    ensures CanLose(cfg, b, p, c, top, grid) <==> Exposed(cfg, b.rows[p], trigger, top, grid)
  {
    hide Inv, Loses, Bounded, Exposed, Quoted;
    if Exposed(cfg, b.rows[p], trigger, top, grid) {
      var w := ExposedLoses(cfg, b, p, c, trigger, top, grid);
    } else {
      UnexposedIsBounded(cfg, b, p, trigger, top, grid);
      BoundedIsSafe(cfg, b, p, c, trigger, top, grid);
    }
  }

  /** In particular an entry bought within the trigger that pays no more for the rest cannot lose. */
  lemma WithinTriggerIsSafe(cfg: Config, b: Orders.Book, p: OrderId, c: OrderId, trigger: real, top: real, grid: bool)
    requires Inv(b) && Guards(b, p, c, trigger) && (LiveManaged(cfg, b.rows[p]) ==> b.rows[p].price <= top)
    requires top <= trigger && OrElse(b.rows[p].average, trigger) <= trigger
    ensures !CanLose(cfg, b, p, c, top, grid)
  {
    hide Inv, Loses, Bounded, AtWorst, LedgerOk, Dear, CanLose;
    var r := b.rows[p];
    if Idle(cfg, r) {
      IdleIsBounded(cfg, b, p, top, trigger, grid);
    } else if r.isPaper {
      LedgerAt(b, p);
      CheapIsNotDear(cfg, r, top, trigger);
      PaperIsBounded(cfg, b, p, top, trigger, grid);
    } else {
      ContainedIsBounded(cfg, b, p, top, trigger, grid);
    }
    BoundedIsSafe(cfg, b, p, c, trigger, top, grid);
  }

  lemma CheapIsNotDear(cfg: Config, r: Row, top: real, t: real)
    requires LedgerOk(r) && top <= t && !Above(r, t)
    ensures !Dear(cfg, r, top, t)
  {
    hide AtWorst, LedgerOk;
    forall n: nat ensures !Above(AtWorst(cfg, r, top, n), t) {
      if Above(AtWorst(cfg, r, top, n), t) {
        DearNeeds(cfg, r, top, t, n);
        assert false;
      }
    }
  }

  // ----- runs of the desk -------------------------------------------------------------------------

  /** The desk after further moves. */
  function Later(cfg: Config, rate: real, d: Desk, moves: seq<Move>): Desk {
    if moves == [] then d
    else Act(cfg, rate, Later(cfg, rate, d, moves[..|moves| - 1]), moves[|moves| - 1])
  }

  function MoveActions(m: Move): seq<Action> {
    match m
    case Enter(req, killed, now, during, _, _) => [Place(req, killed, now)] + during
    case Cycle(actions) => actions
  }

  /** The actions are those of whole passes and of other tasks. */
  ghost predicate Orderly(cfg: Config, b: Orders.Book, actions: seq<Action>) {
    exists ss :: Flat(cfg, b, ss) == actions
  }

  /** Moves a desk can make, none of which fills the entry `r` above `top`. */
  ghost predicate Allowed(cfg: Config, rate: real, d: Desk, r: Row, moves: seq<Move>, top: real, grid: bool) {
    moves == [] ||
    var init, m := moves[..|moves| - 1], moves[|moves| - 1];
    && Allowed(cfg, rate, d, r, init, top, grid) && Proper(m)
    && Orderly(cfg, Table(cfg, Later(cfg, rate, d, init)), MoveActions(m))
    && Within(cfg, r, MoveActions(m), top, grid)
  }

  /** The cycle after `moves` books an exit of `c` that closes row `i` below its average, at a gross loss. */
  ghost predicate BooksLoss(cfg: Config, rate: real, d: Desk, i: nat, c: OrderId, top: real, grid: bool,
                            moves: seq<Move>, actions: seq<Action>, n: nat)
    requires i < |d.trades| && d.trades[i].order in Table(cfg, d).rows
  {
    var d1 := Later(cfg, rate, d, moves);
    var (b', es) := Run(cfg, Table(cfg, d1), actions);
    var ts := Act(cfg, rate, d1, Cycle(actions)).trades;
    && Allowed(cfg, rate, d, Table(cfg, d).rows[d.trades[i].order], moves + [Cycle(actions)], top, grid)
    && n < |es| && es[n].kind == ExitFilled && es[n].order == c && es[n].fillPrice.Some? && c in b'.rows
    && i < |d1.trades| && i < |ts|
    && var price := es[n].fillPrice.value;
       var u := BookExit(RowAfterAll(d1.trades[i], es[..n], b', rate), b'.rows[c], price, rate);
       && ClosedAs(ts[i], u, price)
       && u.average.Some? && price < u.average.value && Gross(u, ExitYes(u, Max(price, 0.0))) < 0.0
  }

  ghost predicate CanBookLoss(cfg: Config, rate: real, d: Desk, i: nat, c: OrderId, top: real, grid: bool)
    requires i < |d.trades| && d.trades[i].order in Table(cfg, d).rows
  {
    exists moves, actions, n: nat :: BooksLoss(cfg, rate, d, i, c, top, grid, moves, actions, n)
  }

  lemma ActRuns(cfg: Config, rate: real, d: Desk, m: Move)
    ensures Table(cfg, Act(cfg, rate, d, m)) == Run(cfg, Table(cfg, d), MoveActions(m)).0
    ensures Act(cfg, rate, d, m).history == d.history + MoveActions(m)
  {
    hide Run, BookAll, NewTrade, Acceptable;
    RunAppend(cfg, EMPTY_BOOK, d.history, MoveActions(m));
    match m
    case Enter(req, killed, now, during, _, _) =>
      assert d.history + [Place(req, killed, now)] + during == d.history + MoveActions(m);
    case Cycle(_) =>
  }

  lemma ActKeeps(cfg: Config, rate: real, d: Desk, m: Move)
    requires Sound(cfg, d) && Proper(m)
    ensures var d' := Act(cfg, rate, d, m);
            && Sound(cfg, d') && |d'.trades| >= |d.trades|
            && forall i :: 0 <= i < |d.trades| ==> d'.trades[i].order == d.trades[i].order
  {
    hide Sound, Proper, Run, BookAll, NewTrade, Acceptable;
    match m
    case Enter(_, _, _, _, _, _) =>
      EnterKeeps(cfg, rate, d, m);
    case Cycle(actions) =>
      CycleKeeps(cfg, rate, d, actions);
      CycleOrders(cfg, rate, d, actions);
  }

  lemma CycleOrders(cfg: Config, rate: real, d: Desk, actions: seq<Action>)
    requires Sound(cfg, d)
    ensures var ts := Act(cfg, rate, d, Cycle(actions)).trades;
            |ts| == |d.trades| && forall i :: 0 <= i < |d.trades| ==> ts[i].order == d.trades[i].order
  {
    hide Sound, Run, RowAfterAll, Act;
    CycleRows(cfg, rate, d, actions);
    var (b', es) := Run(cfg, Table(cfg, d), actions);
    forall i | 0 <= i < |d.trades| ensures RowAfterAll(d.trades[i], es, b', rate).order == d.trades[i].order {
      RowKeepsOrder(d.trades[i], es, b', rate);
    }
  }

  lemma {:induction false} RowKeepsOrder(t: Trade, es: seq<Event>, b: Orders.Book, rate: real)
    ensures RowAfterAll(t, es, b, rate).order == t.order
  {
    hide RowAfter;
    if es == [] {
    } else {
      RowKeepsOrder(t, es[..|es| - 1], b, rate);
      RowAfterKeeps(RowAfterAll(t, es[..|es| - 1], b, rate), es[|es| - 1], b, rate);
    }
  }

  /** Allowed moves are a continuation of the order table. */
  lemma {:induction false} LaterIsOnward(cfg: Config, rate: real, d: Desk, r: Row, moves: seq<Move>,
                                         top: real, grid: bool)
    returns (ss: seq<Stroke>)
    requires Sound(cfg, d) && Allowed(cfg, rate, d, r, moves, top, grid)
    ensures var d1, b := Later(cfg, rate, d, moves), Table(cfg, d);
            && Sound(cfg, d1) && Table(cfg, d1) == Onward(cfg, b, ss) && Within(cfg, r, Flat(cfg, b, ss), top, grid)
            && |d1.trades| >= |d.trades|
            && forall i :: 0 <= i < |d.trades| ==> d1.trades[i].order == d.trades[i].order
  {
    hide Sound, Act, Flat, Run, Within, Table, Proper;
    var b := Table(cfg, d);
    if moves == [] {
      ss := [];
      FlatNone(cfg, b);
      NothingWithin(cfg, r, top, grid);
    } else {
      var init, m := moves[..|moves| - 1], moves[|moves| - 1];
      var first := LaterIsOnward(cfg, rate, d, r, init, top, grid);
      var d1 := Later(cfg, rate, d, init);
      var more :| Flat(cfg, Table(cfg, d1), more) == MoveActions(m);
      ActRuns(cfg, rate, d1, m);
      ActKeeps(cfg, rate, d1, m);
      FlatAppend(cfg, b, first, more);
      WithinAppend(cfg, r, Flat(cfg, b, first), MoveActions(m), top, grid);
      ss := first + more;
    }
  }

  /** Over every run of the desk: the trade of an entry can be booked as closed by its take-profit below its average, at
      a gross loss, if and only if the entry is exposed. */
  lemma LossesAreBooked(cfg: Config, rate: real, d: Desk, i: nat, c: OrderId, trigger: real, top: real, grid: bool)
    requires Sound(cfg, d) && i < |d.trades| && Guards(Table(cfg, d), d.trades[i].order, c, trigger)
    requires Quoted(cfg, Table(cfg, d).rows[d.trades[i].order], top, grid)
    ensures CanBookLoss(cfg, rate, d, i, c, top, grid)
            <==> Exposed(cfg, Table(cfg, d).rows[d.trades[i].order], trigger, top, grid)
  {
    hide Sound, Inv, Table, BooksLoss, Exposed, Loses, Plain, Guards, Quoted, Bounded;
    SoundRow(cfg, d, i);
    var b, p := Table(cfg, d), d.trades[i].order;
    KnownGuards(b, p, c, trigger);
    if Exposed(cfg, b.rows[p], trigger, top, grid) {
      var w := ExposedLoses(cfg, b, p, c, trigger, top, grid);
      var moves, actions := LossIsBooked(cfg, rate, d, i, c, trigger, top, grid, w);
    } else {
      UnexposedIsBounded(cfg, b, p, trigger, top, grid);
      forall moves, actions, n: nat ensures !BooksLoss(cfg, rate, d, i, c, top, grid, moves, actions, n) {
        if BooksLoss(cfg, rate, d, i, c, top, grid, moves, actions, n) {
          BookedNeedsAverage(cfg, rate, d, i, c, trigger, top, grid, moves, actions, n);
          assert false;
        }
      }
    }
  }

  lemma KnownGuards(b: Orders.Book, p: OrderId, c: OrderId, trigger: real)
    requires Guards(b, p, c, trigger)
    ensures p in b.rows && b.rows[p].kind == Entry
  {}

  /** A booked loss means an average above the trigger somewhere on the way. */
  lemma BookedNeedsAverage(cfg: Config, rate: real, d: Desk, i: nat, c: OrderId, trigger: real, top: real, grid: bool,
                           moves: seq<Move>, actions: seq<Action>, n: nat)
    requires Sound(cfg, d) && i < |d.trades| && Guards(Table(cfg, d), d.trades[i].order, c, trigger)
    requires BooksLoss(cfg, rate, d, i, c, top, grid, moves, actions, n)
    ensures !Bounded(cfg, Table(cfg, d), d.trades[i].order, top, trigger, grid)
  {
    hide Sound, Inv, OrderInvariants.Moves, Table, Run, Flat, Onward, Act, Allowed, Within;
    hide RowAfterAll, ClosedAs, Gross, Tells;
    SoundRow(cfg, d, i);
    var b, p := Table(cfg, d), d.trades[i].order;
    var d1 := Later(cfg, rate, d, moves);
    AllowedSnoc(cfg, rate, d, b.rows[p], moves, Cycle(actions), top, grid);
    var ss := LaterIsOnward(cfg, rate, d, b.rows[p], moves, top, grid);
    var m := Table(cfg, d1);
    OnwardMoves(cfg, b, ss);
    MovedRow(b, m, c);
    ExitNames(cfg, m, actions, p, c, n);
    var u := BookedExit(cfg, rate, d1, actions, n, i);
    var more :| Flat(cfg, m, more) == actions;
    FlatAppend(cfg, b, ss, more);
    OnwardIsRun(cfg, m, more, actions);
    WithinAppend(cfg, b.rows[p], Flat(cfg, b, ss), actions, top, grid);
    UseBound(cfg, b, p, top, trigger, grid, ss);
    UseBound(cfg, b, p, top, trigger, grid, ss + more);
  }

  lemma UseBound(cfg: Config, b: Orders.Book, p: OrderId, top: real, t: real, grid: bool, ss: seq<Stroke>)
    requires p in b.rows && Within(cfg, b.rows[p], Flat(cfg, b, ss), top, grid)
    ensures var m := Onward(cfg, b, ss);
            Bounded(cfg, b, p, top, t, grid) ==> p in m.rows && OrElse(m.rows[p].average, t) <= t
  {
    hide Within, Flat, Onward;
  }

  lemma OnwardIsRun(cfg: Config, b: Orders.Book, ss: seq<Stroke>, actions: seq<Action>)
    requires Flat(cfg, b, ss) == actions
    ensures Onward(cfg, b, ss) == Run(cfg, b, actions).0
  {}

  lemma AllowedSnoc(cfg: Config, rate: real, d: Desk, r: Row, moves: seq<Move>, m: Move, top: real, grid: bool)
    ensures Allowed(cfg, rate, d, r, moves + [m], top, grid)
            <==> && Allowed(cfg, rate, d, r, moves, top, grid) && Proper(m)
                 && Orderly(cfg, Table(cfg, Later(cfg, rate, d, moves)), MoveActions(m))
                 && Within(cfg, r, MoveActions(m), top, grid)
  {
    hide Orderly, Within, Proper, Later;
    assert (moves + [m])[..|moves|] == moves;
  }

  // ----- the booked loss --------------------------------------------------------------------------

  /** A continuation without placements is a proper cycle. */
  lemma {:induction false} FlatIsProper(cfg: Config, b: Orders.Book, ss: seq<Stroke>)
    requires Placeless(ss)
    ensures Proper(Cycle(Flat(cfg, b, ss)))
  {
    hide Run, PassActions;
    if ss == [] {
    } else {
      var init, s := ss[..|ss| - 1], ss[|ss| - 1];
      FlatIsProper(cfg, b, init);
      var m := Run(cfg, b, Flat(cfg, b, init)).0;
      if s.Sweep? {
        PassPlaces(cfg, m, m.keys, s.world);
      }
    }
  }

  lemma {:induction false} PassPlaces(cfg: Config, b: Orders.Book, ids: seq<OrderId>, w: World)
    ensures forall a :: a in PassActions(cfg, b, ids, w) ==> !a.Place?
  {
    hide Pass, VisitActions;
    if ids == [] {
    } else {
      var init, last := ids[..|ids| - 1], ids[|ids| - 1];
      PassPlaces(cfg, b, init, w);
      VisitPlaces(cfg, Pass(cfg, b, init, w).0, last, w);
    }
  }

  lemma VisitPlaces(cfg: Config, b: Orders.Book, id: OrderId, w: World)
    ensures forall a :: a in VisitActions(cfg, b, id, w) ==> !a.Place?
  {
    hide Effective;
    EffectiveElsewhere(w.others(id), id);
  }

  lemma LossIsBooked(cfg: Config, rate: real, d: Desk, i: nat, c: OrderId, trigger: real, top: real, grid: bool, w: Way)
    returns (moves: seq<Move>, actions: seq<Action>)
    requires Sound(cfg, d) && i < |d.trades| && Guards(Table(cfg, d), d.trades[i].order, c, trigger)
    requires Loses(cfg, Table(cfg, d), d.trades[i].order, c, top, grid, w)
    requires Plain(cfg, Table(cfg, d), d.trades[i].order, trigger, w)
    ensures BooksLoss(cfg, rate, d, i, c, top, grid, moves, actions, w.exit)
  {
    hide Sound, Inv, OrderInvariants.Moves, Table, Run, Flat, Act, Within, Placeless, Proper;
    hide RowAfterAll, ClosedAs, Gross, Tells;
    SoundRow(cfg, d, i);
    var b, p := Table(cfg, d), d.trades[i].order;
    var m := Onward(cfg, b, w.before);
    var first := Cycle(Flat(cfg, b, w.before));
    actions := Flat(cfg, m, w.after);
    moves := [first];
    FlatIsProper(cfg, b, w.before);
    FlatIsProper(cfg, m, w.after);
    ActRuns(cfg, rate, d, first);
    TwoAllowed(cfg, rate, d, b.rows[p], first, Cycle(actions), top, grid);
    var d1 := Later(cfg, rate, d, moves);
    ActKeeps(cfg, rate, d, first);
    OnwardMoves(cfg, b, w.before);
    MovedRow(b, m, c);
    ExitNames(cfg, m, actions, p, c, w.exit);
    var u := BookedExit(cfg, rate, d1, actions, w.exit, i);
  }

  lemma TwoAllowed(cfg: Config, rate: real, d: Desk, r: Row, m1: Move, m2: Move, top: real, grid: bool)
    requires Proper(m1) && Proper(m2)
    requires Orderly(cfg, Table(cfg, d), MoveActions(m1)) && Within(cfg, r, MoveActions(m1), top, grid)
    requires var d1 := Act(cfg, rate, d, m1);
             Orderly(cfg, Table(cfg, d1), MoveActions(m2)) && Within(cfg, r, MoveActions(m2), top, grid)
    ensures Later(cfg, rate, d, [m1]) == Act(cfg, rate, d, m1) && Allowed(cfg, rate, d, r, [m1] + [m2], top, grid)
  {
    hide Act, Orderly, Within, Proper, Table;
    assert [] + [m1] == [m1] && [m1][..0] == [];
    assert Later(cfg, rate, d, []) == d && Allowed(cfg, rate, d, r, [], top, grid);
    AllowedSnoc(cfg, rate, d, r, [], m1, top, grid);
    AllowedSnoc(cfg, rate, d, r, [m1], m2, top, grid);
  }
}
