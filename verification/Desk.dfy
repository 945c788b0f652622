/** The order table and the trades table together, over whole runs of the agent: entries are placed and recorded,
    and the events of every reconcile pass are booked against the table that pass leaves behind. */
module Desk {
  import opened Rounding
  import opened Options
  import opened Orders
  import opened OrderInvariants
  import opened OrderRuns
  import opened Passes
  import opened Touches
  import opened Tracker
  import opened Lifecycle

  // ----- runs of the desk -------------------------------------------------------------------------

  /** Everything done to the order table so far, the trades table, and the P&L reported so far. */
  datatype Desk = Desk(history: seq<Action>, trades: seq<Trade>, reported: real)

  /** An entry is placed, other tasks run until it is submitted, and it is recorded unless its submission failed.
      Or actions run with no placement among them, such as a reconcile pass, and their events are booked. */
  datatype Move =
    | Enter(req: Request, killed: bool, now: Time, during: seq<Action>, submitted: bool, marketPrice: real)
    | Cycle(actions: seq<Action>)

  /** What can happen between placing and recording: the rest of the submission, and actions that take no lock. */
  predicate Silent(a: Action) {
    Unlocked(a) || (a.On? && a.touch.Settle?)
  }

  ghost predicate Proper(m: Move) {
    match m
    case Enter(_, _, _, during, _, _) => forall a :: a in during ==> Silent(a)
    case Cycle(actions) => forall a :: a in actions ==> !a.Place?
  }

  function Table(cfg: Config, d: Desk): Orders.Book {
    Run(cfg, EMPTY_BOOK, d.history).0
  }

  /** The row of a new trade, with the fee that is booked when the order fills on paper or at once. */
  function NewTrade(r: Row, marketPrice: real, rate: real): Trade {
    var t := Recorded(r, marketPrice);
    if r.isPaper || r.status == Filled then Charged(t, r.size * rate, 0.0) else t
  }

  function Act(cfg: Config, rate: real, d: Desk, m: Move): Desk {
    match m
    case Enter(req, killed, now, during, submitted, marketPrice) =>
      var p := Table(cfg, d).next;
      var d' := d.(history := d.history + [Place(req, killed, now)] + during);
      var b := Table(cfg, d');
      if Acceptable(cfg, killed, req) && (submitted || PaperMode(cfg)) && p in b.rows
      then d'.(trades := d.trades + [NewTrade(b.rows[p], marketPrice, rate)]) else d'
    case Cycle(actions) =>
      var (b, es) := Run(cfg, Table(cfg, d), actions);
      var (ts, sum) := BookAll(d.trades, es, b, rate);
      Desk(d.history + actions, ts, d.reported + sum)
  }

  function After(cfg: Config, rate: real, moves: seq<Move>): Desk {
    if moves == [] then Desk([], [], 0.0)
    else Act(cfg, rate, After(cfg, rate, moves[..|moves| - 1]), moves[|moves| - 1])
  }

  // ----- what every run keeps ---------------------------------------------------------------------

  /** A row describes its entry as the order table has it. */
  ghost predicate InStep(t: Trade, b: Orders.Book) {
    && t.order in b.rows && b.rows[t.order].kind == Entry
    && (t.direction == "YES" || t.direction == "NO") && t.direction == b.rows[t.order].direction
    && t.size == b.rows[t.order].size > 0.0
    && t.average == b.rows[t.order].average && t.filled == Some(b.rows[t.order].filled) && b.rows[t.order].filled >= 0.0
  }

  /** Each entry has at most one row, in step with the order table; a row is closed if and only if an exit of its
      entry has been reported; and what was reported is what the table has realised. */
  ghost predicate Sound(cfg: Config, d: Desk) {
    var (b, es) := Run(cfg, EMPTY_BOOK, d.history);
    && DistinctOrders(d.trades)
    && (forall t :: t in d.trades ==> InStep(t, b))
    && (forall t :: t in d.trades ==> (t.status == ClosedTrade <==> Exits(es, t.order)))
    && d.reported == Realised(d.trades)
  }

  // ----- silent actions ---------------------------------------------------------------------------

  lemma SilentStep(cfg: Config, b: Orders.Book, a: Action)
    requires Silent(a)
    ensures Step(cfg, b, a).1 == []
  {
    if Unlocked(a) {
      UnlockedIsSilent(cfg, b, a);
    }
    hide Unlocked, CancelOrder, ClosePosition;
  }

  /** Silent actions report nothing and leave every entry's direction, size and fill alone. */
  lemma {:induction false} SilentRun(cfg: Config, b: Orders.Book, actions: seq<Action>, p: OrderId)
    requires Inv(b) && (forall a :: a in actions ==> Silent(a)) && p in b.rows && b.rows[p].kind == Entry
    ensures var (b', es) := Run(cfg, b, actions);
            && es == [] && p in b'.rows && SameAmounts(b.rows[p], b'.rows[p])
  {
    hide Inv, Step, Silent;
    if actions == [] {
    } else {
      var init, a := actions[..|actions| - 1], actions[|actions| - 1];
      assert actions == init + [a];
      SilentRun(cfg, b, init, p);
      RunMoves(cfg, b, init);
      var b1 := Run(cfg, b, init).0;
      SilentStep(cfg, b1, a);
      FillsAreReported(cfg, b1, a, p);
      RunMoves(cfg, b, actions);
      MovedAmounts(b, Run(cfg, b, actions).0, p);
    }
  }

  /** The fields of an entry that its row repeats. */
  ghost predicate SameAmounts(r: Row, r': Row) {
    && r'.kind == r.kind && r'.direction == r.direction && r'.size == r.size
    && r'.filled == r.filled && r'.average == r.average
  }

  lemma MovedAmounts(b: Orders.Book, b': Orders.Book, p: OrderId)
    requires Moves(b, b') && p in b.rows && b.rows[p].kind == Entry
    ensures p in b'.rows && b'.rows[p].kind == Entry
    ensures b'.rows[p].direction == b.rows[p].direction && b'.rows[p].size == b.rows[p].size
  {
    assert RowMoves(b.rows[p], b'.rows[p]);
  }

  lemma {:induction false} SilentReports(cfg: Config, b: Orders.Book, actions: seq<Action>)
    requires forall a :: a in actions ==> Silent(a)
    ensures Run(cfg, b, actions).1 == []
  {
    hide Step, Silent;
    if actions == [] {
    } else {
      var init, a := actions[..|actions| - 1], actions[|actions| - 1];
      assert actions == init + [a];
      SilentReports(cfg, b, init);
      SilentStep(cfg, Run(cfg, b, init).0, a);
    }
  }

  // ----- placing and recording --------------------------------------------------------------------

  /** The entry a placement adds, after whatever happens until it is recorded. */
  lemma EnteredRow(cfg: Config, b: Orders.Book, req: Request, now: Time, during: seq<Action>)
    requires Inv(b) && Acceptable(cfg, false, req) && forall a :: a in during ==> Silent(a)
    ensures var b1 := PlaceEntry(cfg, b, req, now);
            var b2 := Run(cfg, b1, during).0;
            && b.next !in b.rows && b.next in b2.rows && b2.rows[b.next].kind == Entry && b2.rows[b.next].id == b.next
            && b2.rows[b.next].direction == req.direction && b2.rows[b.next].size == req.size > 0.0
            && b2.rows[b.next].filled >= 0.0 && Inv(b2)
  {
    PlaceKeeps(cfg, b, req, now);
    assert req.size >= 0.5;
    var b1 := PlaceEntry(cfg, b, req, now);
    hide PlaceEntry, Silent, Covered, NoNewExit, Acceptable;
    SilentRun(cfg, b1, during, b.next);
    RunMoves(cfg, b1, during);
    var b2 := Run(cfg, b1, during).0;
    RowId(b2, b.next);
  }

  lemma RowId(b: Orders.Book, p: OrderId)
    requires Inv(b) && p in b.rows
    ensures b.rows[p].id == p && b.rows[p].filled >= 0.0
  {
    hide LinksOk, Groups, Exclusive, KeysOk, Round8, OnGrid;
    assert ShapeOk(b.rows[p]);
  }

  /** Placing and what follows until the recording, as a run: no events. */
  lemma EnterRuns(cfg: Config, history: seq<Action>, place: Action, during: seq<Action>)
    requires place.Place? && forall a :: a in during ==> Silent(a)
    ensures var (b, es) := Run(cfg, EMPTY_BOOK, history);
            Run(cfg, EMPTY_BOOK, history + [place] + during) == (Run(cfg, Step(cfg, b, place).0, during).0, es)
  {
    hide Silent;
    var (b, es) := Run(cfg, EMPTY_BOOK, history);
    var b1 := Step(cfg, b, place).0;
    assert Step(cfg, b, place).1 == [];
    hide Step, Run;
    RunOne(cfg, b, place);
    RunAppend(cfg, EMPTY_BOOK, history, [place]);
    RunAppend(cfg, EMPTY_BOOK, history + [place], during);
    SilentReports(cfg, b1, during);
    assert es + [] == es;
  }

  /** Recording an entry keeps the desk sound. */
  lemma EnterKeeps(cfg: Config, rate: real, d: Desk, m: Move)
    requires Sound(cfg, d) && Proper(m) && m.Enter?
    ensures Sound(cfg, Act(cfg, rate, d, m))
  {
    hide Silent, Inv, Run, Step, InStep, Exits, Realised, PlaceEntry, Acceptable, NewTrade;
    var place := Place(m.req, m.killed, m.now);
    var (b, es) := Run(cfg, EMPTY_BOOK, d.history);
    RunKeeps(cfg, d.history);
    EnterRuns(cfg, d.history, place, m.during);
    var b2 := Run(cfg, Step(cfg, b, place).0, m.during).0;
    var p := b.next;
    forall t | t in d.trades ensures InStep(t, b2) {
      KeptInStep(cfg, b, place, m.during, t);
    }
    if Acceptable(cfg, m.killed, m.req) && (m.submitted || PaperMode(cfg)) {
      PlaceIfAcceptable(cfg, b, m.req, m.killed, m.now);
      EnteredRow(cfg, b, m.req, m.now, m.during);
      var t := NewTrade(b2.rows[p], m.marketPrice, rate);
      NewInStep(b2.rows[p], m.marketPrice, rate, b2);
      NeverExited(cfg, d.history, p);
      OtherOrders(d.trades, b, p);
      Recording(d.trades, t, p);
      assert forall u :: u in d.trades + [t] <==> u in d.trades || u == t;
    }
  }

  lemma OtherOrders(ts: seq<Trade>, b: Orders.Book, p: OrderId)
    requires (forall t :: t in ts ==> InStep(t, b)) && p !in b.rows
    ensures forall t :: t in ts ==> t.order != p
  {
    forall t | t in ts ensures t.order != p {
      assert InStep(t, b);
    }
  }

  lemma PlaceIfAcceptable(cfg: Config, b: Orders.Book, req: Request, killed: bool, now: Time)
    requires Acceptable(cfg, killed, req)
    ensures Step(cfg, b, Place(req, killed, now)).0 == PlaceEntry(cfg, b, req, now) && Acceptable(cfg, false, req)
    ensures req.direction == "YES" || req.direction == "NO"
  {
    hide PlaceEntry;
  }

  lemma NewInStep(r: Row, marketPrice: real, rate: real, b: Orders.Book)
    requires r.id in b.rows && b.rows[r.id] == r && r.kind == Entry && r.filled >= 0.0 && r.size > 0.0
    requires r.direction == "YES" || r.direction == "NO"
    ensures var t := NewTrade(r, marketPrice, rate); InStep(t, b) && t.order == r.id && t.status == OpenTrade
  {}

  lemma KeptInStep(cfg: Config, b: Orders.Book, place: Action, during: seq<Action>, t: Trade)
    requires Inv(b) && place.Place? && InStep(t, b) && forall a :: a in during ==> Silent(a)
    ensures InStep(t, Run(cfg, Step(cfg, b, place).0, during).0)
  {
    var b1 := Step(cfg, b, place).0;
    OthersLeaveAlone(cfg, b, place, t.order);
    StepKeeps(cfg, b, place);
    hide Inv, Step, Silent;
    SilentRun(cfg, b1, during, t.order);
  }

  /** No exit event names an order that is not in the table. */
  lemma NeverExited(cfg: Config, actions: seq<Action>, p: OrderId)
    requires p !in Run(cfg, EMPTY_BOOK, actions).0.rows
    ensures !Exits(Run(cfg, EMPTY_BOOK, actions).1, p)
  {
    var (b, es) := Run(cfg, EMPTY_BOOK, actions);
    RunKeeps(cfg, actions);
    ExitsAreReportedOnce(cfg, actions);
    hide Run;
    forall n | 0 <= n < |es| && es[n].kind == ExitFilled ensures es[n].parent != Some(p) {
      ParentKnown(b, es[n]);
    }
  }

  lemma ParentKnown(b: Orders.Book, e: Event)
    requires Inv(b) && TellsExit(b, e)
    ensures e.parent.Some? && e.parent.value in b.rows
  {
    hide ShapeOk, Groups, Exclusive, KeysOk, Fires;
    assert LinksOk(b, b.rows[e.order]);
  }

  lemma Recording(ts: seq<Trade>, t: Trade, p: OrderId)
    requires DistinctOrders(ts) && (forall u :: u in ts ==> u.order != p) && t.order == p && t.status == OpenTrade
    ensures DistinctOrders(ts + [t]) && Realised(ts + [t]) == Realised(ts)
  {
    assert (ts + [t])[..|ts|] == ts;
    forall i | 0 <= i < |ts| ensures ts[i].order != p {
      assert ts[i] in ts;
    }
  }

  // ----- booking a cycle --------------------------------------------------------------------------

  ghost predicate RowIds(b: Orders.Book) {
    forall id :: id in b.rows ==> b.rows[id].id == id
  }

  /** What one event does to one row. */
  function RowAfter(t: Trade, e: Event, b: Orders.Book, rate: real): Trade {
    if e.order !in b.rows then t
    else
      var r := b.rows[e.order];
      if r.kind == Entry then (if r.id == t.order then BookEntry(t, r, rate) else t)
      else if e.kind == ExitFilled && e.fillPrice.Some? && TradeOrder(r) == t.order
      then BookExit(t, r, e.fillPrice.value, rate) else t
  }

  function RowAfterAll(t: Trade, es: seq<Event>, b: Orders.Book, rate: real): Trade {
    if es == [] then t else RowAfter(RowAfterAll(t, es[..|es| - 1], b, rate), es[|es| - 1], b, rate)
  }

  lemma RowAfterKeeps(t: Trade, e: Event, b: Orders.Book, rate: real)
    ensures var u := RowAfter(t, e, b, rate); u.order == t.order && u.direction == t.direction && u.size == t.size
  {
    hide Gross, Fee;
  }

  lemma BookOneRow(ts: seq<Trade>, e: Event, b: Orders.Book, rate: real)
    requires DistinctOrders(ts)
    ensures var ts' := Lifecycle.Book(ts, e, b, rate).0;
            |ts'| == |ts| && DistinctOrders(ts') && forall i :: 0 <= i < |ts| ==> ts'[i] == RowAfter(ts[i], e, b, rate)
  {
    if e.order in b.rows {
      var r := b.rows[e.order];
      FindDistinct(ts, r.id);
      FindDistinct(ts, TradeOrder(r));
    }
    forall i | 0 <= i < |ts| ensures RowAfter(ts[i], e, b, rate).order == ts[i].order {
      RowAfterKeeps(ts[i], e, b, rate);
    }
    hide BookEntry, BookExit;
  }

  /** The booking loop treats each row on its own. */
  lemma {:induction false} BookByRow(ts: seq<Trade>, es: seq<Event>, b: Orders.Book, rate: real)
    requires DistinctOrders(ts)
    ensures var ts' := BookAll(ts, es, b, rate).0;
            && |ts'| == |ts| && DistinctOrders(ts')
            && forall i :: 0 <= i < |ts| ==> ts'[i] == RowAfterAll(ts[i], es, b, rate)
  {
    hide Lifecycle.Book, RowAfter, DistinctOrders;
    if es == [] {
    } else {
      var init := es[..|es| - 1];
      BookByRow(ts, init, b, rate);
      BookOneRow(BookAll(ts, init, b, rate).0, es[|es| - 1], b, rate);
    }
  }

  /** The amounts of a row are those of the table once an event of its entry is booked, and until then those it had. */
  lemma {:induction false} RowSync(t: Trade, es: seq<Event>, b: Orders.Book, rate: real)
    requires RowIds(b) && t.order in b.rows && b.rows[t.order].kind == Entry
    ensures var u, r := RowAfterAll(t, es, b, rate), b.rows[t.order];
            && u.order == t.order && u.direction == t.direction && u.size == t.size
            && (if Tells(es, t.order) then u.average == r.average && u.filled == Some(r.filled)
                else u.average == t.average && u.filled == t.filled)
  {
    if es == [] {
    } else {
      var init, e := es[..|es| - 1], es[|es| - 1];
      RowSync(t, init, b, rate);
      assert es == init + [e];
      assert Tells(es, t.order) <==> Tells(init, t.order) || e.order == t.order;
      RowStepSync(RowAfterAll(t, init, b, rate), e, b, rate);
      hide RowAfter, Tells;
    }
  }

  lemma RowStepSync(t: Trade, e: Event, b: Orders.Book, rate: real)
    requires RowIds(b) && t.order in b.rows && b.rows[t.order].kind == Entry
    ensures var u, r := RowAfter(t, e, b, rate), b.rows[t.order];
            && u.order == t.order && u.direction == t.direction && u.size == t.size
            && (if e.order == t.order then u.average == r.average && u.filled == Some(r.filled)
                else u.average == t.average && u.filled == t.filled)
  {
    if e.order in b.rows {
      var r := b.rows[e.order];
      BookEntryKeeps(t, r, rate);
      if e.fillPrice.Some? {
        BookExitCloses(t, r, e.fillPrice.value, rate);
      }
    }
    hide BookEntry, BookExit;
  }

  lemma {:induction false} RunReports(cfg: Config, b: Orders.Book, actions: seq<Action>, p: OrderId)
    requires Inv(b) && p in b.rows && b.rows[p].kind == Entry
    ensures var (b', es) := Run(cfg, b, actions);
            && p in b'.rows && b'.rows[p].kind == Entry
            && b'.rows[p].direction == b.rows[p].direction && b'.rows[p].size == b.rows[p].size
            && (Tells(es, p) || (b'.rows[p].filled == b.rows[p].filled && b'.rows[p].average == b.rows[p].average))
  {
    hide Inv, Step, Tells;
    if actions == [] {
    } else {
      var init, a := actions[..|actions| - 1], actions[|actions| - 1];
      RunReports(cfg, b, init, p);
      RunMoves(cfg, b, init);
      var (b1, e1) := Run(cfg, b, init);
      FillsAreReported(cfg, b1, a, p);
      TellsJoin(e1, Step(cfg, b1, a).1, p);
      RunMoves(cfg, b, actions);
      MovedAmounts(b, Run(cfg, b, actions).0, p);
    }
  }

  lemma TellsJoin(es: seq<Event>, more: seq<Event>, p: OrderId)
    ensures Tells(es + more, p) <==> Tells(es, p) || Tells(more, p)
  {
    assert forall e :: e in es + more <==> e in es || e in more;
  }

  /** The events of any run from a sound desk meet the conditions of booking: their trades are open. */
  lemma CycleIsFresh(cfg: Config, d: Desk, actions: seq<Action>)
    requires Sound(cfg, d)
    ensures var (b, more) := Run(cfg, Table(cfg, d), actions); Lifecycle.Fresh(d.trades, more, b)
  {
    var (b, es) := Run(cfg, EMPTY_BOOK, d.history);
    var (b', more) := Run(cfg, b, actions);
    RunAppend(cfg, EMPTY_BOOK, d.history, actions);
    ExitsAreReportedOnce(cfg, d.history + actions);
    RunKeeps(cfg, d.history + actions);
    hide Run, Inv, TellsExit, InStep;
    var all := es + more;
    forall n | 0 <= n < |more| && more[n].kind == ExitFilled
      ensures TellsExit(b', more[n]) && more[n].parent.Some? && all[|es| + n] == more[n]
    {
      assert all[|es| + n] == more[n];
      ParentKnown(b', more[n]);
    }
    forall t, n | t in d.trades && 0 <= n < |more| && more[n].kind == ExitFilled && more[n].parent == Some(t.order)
      ensures !Exits(es, t.order)
    {
      LaterExit(es, more, n, t.order);
    }
  }

  lemma LaterExit(es: seq<Event>, more: seq<Event>, n: nat, order: OrderId)
    requires n < |more| && more[n].kind == ExitFilled && more[n].parent == Some(order)
    requires forall i, j :: (0 <= i < j < |es + more|
                             && (es + more)[i].kind == ExitFilled && (es + more)[j].kind == ExitFilled)
               ==> (es + more)[i].parent != (es + more)[j].parent
    ensures !Exits(es, order)
  {
    var all := es + more;
    assert all[|es| + n] == more[n];
    forall m | 0 <= m < |es| && es[m].kind == ExitFilled ensures es[m].parent != Some(order) {
      assert all[m] == es[m];
    }
  }

  lemma ExitsJoin(es: seq<Event>, more: seq<Event>, order: OrderId)
    ensures Exits(es + more, order) <==> Exits(es, order) || Exits(more, order)
  {
    var all := es + more;
    forall n | 0 <= n < |es| ensures all[n] == es[n] {}
    forall n | 0 <= n < |more| ensures all[|es| + n] == more[n] {}
    if Exits(more, order) {
      var n :| 0 <= n < |more| && more[n].kind == ExitFilled && more[n].parent == Some(order);
      assert all[|es| + n].kind == ExitFilled && all[|es| + n].parent == Some(order);
    }
    if Exits(es, order) {
      var n :| 0 <= n < |es| && es[n].kind == ExitFilled && es[n].parent == Some(order);
      assert all[n].kind == ExitFilled && all[n].parent == Some(order);
    }
    if Exits(all, order) {
      var n :| 0 <= n < |all| && all[n].kind == ExitFilled && all[n].parent == Some(order);
      assert if n < |es| then es[n] == all[n] else more[n - |es|] == all[n];
    }
  }

  lemma AllRowIds(b: Orders.Book)
    requires Inv(b)
    ensures RowIds(b)
  {}

  /** A cycle keeps a row in step with the table it leaves. */
  lemma CycleInStep(cfg: Config, b: Orders.Book, actions: seq<Action>, t: Trade, rate: real)
    requires Inv(b) && InStep(t, b)
    ensures var (b', es) := Run(cfg, b, actions); InStep(RowAfterAll(t, es, b', rate), b')
  {
    var (b', es) := Run(cfg, b, actions);
    RunReports(cfg, b, actions, t.order);
    RunMoves(cfg, b, actions);
    AllRowIds(b');
    RowId(b', t.order);
    hide Inv, Moves, Run, Tells;
    RowSync(t, es, b', rate);
    hide RowIds, RowAfterAll;
  }

  /** Booking the events of a cycle keeps the desk sound. */
  lemma CycleKeeps(cfg: Config, rate: real, d: Desk, actions: seq<Action>)
    requires Sound(cfg, d)
    ensures Sound(cfg, Act(cfg, rate, d, Cycle(actions)))
  {
    hide Run, BookAll, Inv, Lifecycle.Fresh, RowAfterAll, InStep, Exits, Realised, RowSound;
    var (b, es) := Run(cfg, EMPTY_BOOK, d.history);
    var (b', more) := Run(cfg, b, actions);
    RunAppend(cfg, EMPTY_BOOK, d.history, actions);
    CycleIsFresh(cfg, d, actions);
    ReportedIsRealised(d.trades, more, b', rate);
    BookByRow(d.trades, more, b', rate);
    var d' := Act(cfg, rate, d, Cycle(actions));
    forall i | 0 <= i < |d'.trades| ensures RowSound(d'.trades[i], b', es + more) {
      CycleRowSound(cfg, rate, d, actions, i);
    }
    hide Act, DistinctOrders;
    SoundRows(cfg, d', b', es + more);
  }

  lemma SoundRows(cfg: Config, d: Desk, b: Orders.Book, es: seq<Event>)
    requires Run(cfg, EMPTY_BOOK, d.history) == (b, es)
    requires DistinctOrders(d.trades) && d.reported == Realised(d.trades)
    requires forall i :: 0 <= i < |d.trades| ==> RowSound(d.trades[i], b, es)
    ensures Sound(cfg, d)
  {
    hide Run, RowSound, InStep, Exits, DistinctOrders, Realised;
    AllSound(d.trades, b, es);
  }

  ghost predicate RowSound(t: Trade, b: Orders.Book, es: seq<Event>) {
    InStep(t, b) && (t.status == ClosedTrade <==> Exits(es, t.order))
  }

  lemma AllSound(ts: seq<Trade>, b: Orders.Book, es: seq<Event>)
    requires forall i :: 0 <= i < |ts| ==> RowSound(ts[i], b, es)
    ensures forall t :: t in ts ==> InStep(t, b)
    ensures forall t :: t in ts ==> (t.status == ClosedTrade <==> Exits(es, t.order))
  {
    hide InStep, Exits;
  }

  /** One row after the events of a cycle are booked. */
  lemma CycleRowSound(cfg: Config, rate: real, d: Desk, actions: seq<Action>, i: nat)
    requires Sound(cfg, d) && i < |d.trades|
    ensures var (b, es) := Run(cfg, EMPTY_BOOK, d.history);
            var (b', more) := Run(cfg, b, actions);
            var ts := BookAll(d.trades, more, b', rate).0;
            |ts| == |d.trades| && RowSound(ts[i], b', es + more)
  {
    var (b, es) := Run(cfg, EMPTY_BOOK, d.history);
    var (b', more) := Run(cfg, b, actions);
    RunKeeps(cfg, d.history);
    CycleIsFresh(cfg, d, actions);
    assert d.trades[i] in d.trades;
    hide Run, Inv, InStep, Exits, Lifecycle.Fresh, BookAll, RowAfterAll;
    ReportedIsRealised(d.trades, more, b', rate);
    BookByRow(d.trades, more, b', rate);
    CycleInStep(cfg, b, actions, d.trades[i], rate);
    ExitsJoin(es, more, d.trades[i].order);
  }

  /** Over every run of the desk, with any number of placements and passes: each row is in step with its entry, a
      trade is closed exactly when an exit of its entry was reported, no trade twice, and the P&L reported so far is
      exactly the realised P&L of the table. */
  lemma {:induction false} DeskIsSound(cfg: Config, rate: real, moves: seq<Move>)
    requires forall m :: m in moves ==> Proper(m)
    ensures Sound(cfg, After(cfg, rate, moves))
  {
    hide Sound, Act, Proper;
    if moves == [] {
      EmptyDesk(cfg);
    } else {
      var init, m := moves[..|moves| - 1], moves[|moves| - 1];
      assert moves == init + [m] && m in moves;
      DeskIsSound(cfg, rate, init);
      if m.Enter? {
        EnterKeeps(cfg, rate, After(cfg, rate, init), m);
      } else {
        CycleKeeps(cfg, rate, After(cfg, rate, init), m.actions);
      }
    }
  }

  lemma EmptyDesk(cfg: Config)
    ensures Sound(cfg, Desk([], [], 0.0))
  {}
}
