/** Closing trades by hand, beside the desk: the tracker closes the row and nothing else is told. */
module HandCloses {
  import opened Rounding
  import opened Options
  import opened Orders
  import opened Tracker
  import opened Lifecycle
  import opened Desk

  /** A move of the desk, or `close_position` on a row, whatever its state. */
  datatype HandMove = Usual(move: Move) | ByHand(row: nat, exit: real)

  function CloseRow(ts: seq<Trade>, i: nat, exit: real): seq<Trade> {
    if i < |ts| then ts[i := ClosedAt(ts[i], exit)] else ts
  }

  function HandAct(cfg: Config, rate: real, d: Desk, m: HandMove): Desk {
    match m
    case Usual(move) => Act(cfg, rate, d, move)
    case ByHand(i, exit) => d.(trades := CloseRow(d.trades, i, exit))
  }

  function HandAfter(cfg: Config, rate: real, moves: seq<HandMove>): Desk {
    if moves == [] then Desk([], [], 0.0)
    else HandAct(cfg, rate, HandAfter(cfg, rate, moves[..|moves| - 1]), moves[|moves| - 1])
  }

  /** The rows that have been closed by hand. */
  function Hand(cfg: Config, rate: real, moves: seq<HandMove>): set<nat> {
    if moves == [] then {}
    else
      var init, m := moves[..|moves| - 1], moves[|moves| - 1];
      if m.ByHand? && m.row < |HandAfter(cfg, rate, init).trades| then Hand(cfg, rate, init) + {m.row}
      else Hand(cfg, rate, init)
  }

  /** The same run with nothing closed by hand. */
  function Usuals(moves: seq<HandMove>): seq<Move> {
    if moves == [] then []
    else
      var init, m := Usuals(moves[..|moves| - 1]), moves[|moves| - 1];
      if m.Usual? then init + [m.move] else init
  }

  // ----- what a close by hand leaves alone --------------------------------------------------------

  /** The same trade but for how it was closed. */
  ghost predicate Alike(t: Trade, t0: Trade) {
    && t.order == t0.order && t.direction == t0.direction && t.entryPrice == t0.entryPrice && t.average == t0.average
    && t.size == t0.size && t.filled == t0.filled && t.fee == t0.fee && t.gas == t0.gas
    && (t0.status == ClosedTrade ==> t.status == ClosedTrade)
  }

  /** Two tables that differ only in how the rows of `hand` were closed. */
  ghost predicate Erased(ts: seq<Trade>, ts0: seq<Trade>, hand: set<nat>) {
    && |ts| == |ts0| && (forall i :: i in hand ==> i < |ts|)
    && forall i :: 0 <= i < |ts| ==>
         && Alike(ts[i], ts0[i]) && (i in hand ==> ts[i].status == ClosedTrade) && (i !in hand ==> ts[i] == ts0[i])
  }

  /** An exit overwrites what was done by hand: it closes both rows alike. */
  lemma ExitOverwrites(t: Trade, t0: Trade, r: Row, price: real, rate: real)
    requires Alike(t, t0)
    ensures BookExit(t, r, price, rate) == BookExit(t0, r, price, rate)
  {
    hide Fee;
    var u, u0 := Charged(t, Fee(r, rate), 0.0), Charged(t0, Fee(r, rate), 0.0);
    var exit := Max(price, 0.0);
    assert Gross(u, ExitYes(u, exit)) == Gross(u0, ExitYes(u0, exit));
  }

  lemma EntryAlike(t: Trade, t0: Trade, r: Row, rate: real)
    requires Alike(t, t0)
    ensures var u, u0 := BookEntry(t, r, rate), BookEntry(t0, r, rate);
            Alike(u, u0) && u.status == t.status && (t == t0 ==> u == u0)
  {
    hide Fee;
  }

  lemma BookErased(ts: seq<Trade>, ts0: seq<Trade>, hand: set<nat>, e: Event, b: Orders.Book, rate: real)
    requires Erased(ts, ts0, hand)
    ensures var (us, pnl) := Lifecycle.Book(ts, e, b, rate);
            var (us0, pnl0) := Lifecycle.Book(ts0, e, b, rate);
            Erased(us, us0, hand) && pnl == pnl0
  {
    hide BookEntry, BookExit, Find, Erased;
    ErasedOrders(ts, ts0, hand);
    if e.order in b.rows {
      var r := b.rows[e.order];
      FindKept(ts0, r.id, ts);
      FindKept(ts0, TradeOrder(r), ts);
      if r.kind == Entry {
        var i := Find(ts, r.id);
        if i < |ts| {
          ErasedRow(ts, ts0, hand, i);
          EntryAlike(ts[i], ts0[i], r, rate);
          UpdateErased(ts, ts0, hand, i, BookEntry(ts[i], r, rate), BookEntry(ts0[i], r, rate));
        }
      } else if e.fillPrice.Some? {
        var i := Find(ts, TradeOrder(r));
        if i < |ts| {
          ErasedRow(ts, ts0, hand, i);
          ExitOverwrites(ts[i], ts0[i], r, e.fillPrice.value, rate);
          ExitCloses(ts[i], r, e.fillPrice.value, rate);
          var t := BookExit(ts[i], r, e.fillPrice.value, rate);
          UpdateErased(ts, ts0, hand, i, t, t);
        }
      }
    }
    hide Alike;
  }

  lemma ErasedOrders(ts: seq<Trade>, ts0: seq<Trade>, hand: set<nat>)
    requires Erased(ts, ts0, hand)
    ensures |ts| == |ts0| && forall i :: 0 <= i < |ts| ==> ts[i].order == ts0[i].order
  {
    forall i | 0 <= i < |ts| ensures ts[i].order == ts0[i].order {
      assert Alike(ts[i], ts0[i]);
    }
  }

  lemma ErasedRow(ts: seq<Trade>, ts0: seq<Trade>, hand: set<nat>, i: nat)
    requires Erased(ts, ts0, hand) && i < |ts|
    ensures i < |ts0| && Alike(ts[i], ts0[i])
    ensures (i in hand ==> ts[i].status == ClosedTrade) && (i !in hand ==> ts[i] == ts0[i])
  {
    hide Alike;
  }

  lemma UpdateErased(ts: seq<Trade>, ts0: seq<Trade>, hand: set<nat>, i: nat, t: Trade, t0: Trade)
    requires Erased(ts, ts0, hand) && i < |ts| && Alike(t, t0)
    requires (i in hand ==> t.status == ClosedTrade) && (i !in hand ==> t == t0)
    ensures Erased(ts[i := t], ts0[i := t0], hand)
  {
    hide Alike;
  }

  lemma AppendErased(ts: seq<Trade>, ts0: seq<Trade>, hand: set<nat>, t: Trade)
    requires Erased(ts, ts0, hand)
    ensures Erased(ts + [t], ts0 + [t], hand)
  {
    assert Alike(t, t);
    hide Alike;
  }

  lemma ExitCloses(t: Trade, r: Row, price: real, rate: real)
    ensures BookExit(t, r, price, rate).status == ClosedTrade
  {
    hide Gross, Fee;
  }

  lemma {:induction false} BookAllErased(ts: seq<Trade>, ts0: seq<Trade>, hand: set<nat>, es: seq<Event>,
                                         b: Orders.Book, rate: real)
    requires Erased(ts, ts0, hand)
    ensures var (us, sum) := BookAll(ts, es, b, rate);
            var (us0, sum0) := BookAll(ts0, es, b, rate);
            Erased(us, us0, hand) && sum == sum0
  {
    hide Erased, Lifecycle.Book;
    if es == [] {
    } else {
      var init := es[..|es| - 1];
      BookAllErased(ts, ts0, hand, init, b, rate);
      BookErased(BookAll(ts, init, b, rate).0, BookAll(ts0, init, b, rate).0, hand, es[|es| - 1], b, rate);
    }
  }

  /** Desks that differ only in what was closed by hand. */
  ghost predicate Beside(d: Desk, d0: Desk, hand: set<nat>) {
    d.history == d0.history && d.reported == d0.reported && Erased(d.trades, d0.trades, hand)
  }

  lemma UsualBeside(cfg: Config, rate: real, d: Desk, d0: Desk, hand: set<nat>, m: Move)
    requires Beside(d, d0, hand)
    ensures Beside(Act(cfg, rate, d, m), Act(cfg, rate, d0, m), hand)
  {
    hide Run, BookAll, NewTrade, Acceptable;
    match m
    case Enter(_, _, _, _, _, _) =>
      hide Erased;
      var d' := Act(cfg, rate, d, m);
      if |d'.trades| > |d.trades| {
        AppendErased(d.trades, d0.trades, hand, d'.trades[|d.trades|]);
      }
    case Cycle(actions) =>
      hide Erased;
      var (b, es) := Run(cfg, Table(cfg, d), actions);
      BookAllErased(d.trades, d0.trades, hand, es, b, rate);
  }

  lemma HandBeside(d: Desk, d0: Desk, hand: set<nat>, i: nat, exit: real)
    requires Beside(d, d0, hand)
    ensures Beside(d.(trades := CloseRow(d.trades, i, exit)), d0, if i < |d.trades| then hand + {i} else hand)
  {
    hide Gross;
  }

  lemma UsualsSnoc(moves: seq<HandMove>, m: HandMove)
    ensures Usuals(moves + [m]) == if m.Usual? then Usuals(moves) + [m.move] else Usuals(moves)
  {
    assert (moves + [m])[..|moves|] == moves;
  }

  lemma HandSnoc(cfg: Config, rate: real, moves: seq<HandMove>, m: HandMove)
    ensures var d := HandAfter(cfg, rate, moves);
            && HandAfter(cfg, rate, moves + [m]) == HandAct(cfg, rate, d, m)
            && Hand(cfg, rate, moves + [m])
               == (if m.ByHand? && m.row < |d.trades| then Hand(cfg, rate, moves) + {m.row} else Hand(cfg, rate, moves))
  {
    hide HandAct;
    assert (moves + [m])[..|moves|] == moves;
  }

  lemma AfterSnoc(cfg: Config, rate: real, moves: seq<Move>, m: Move)
    ensures After(cfg, rate, moves + [m]) == Act(cfg, rate, After(cfg, rate, moves), m)
  {
    hide Act;
    assert (moves + [m])[..|moves|] == moves;
  }

  /** Over every run, closing by hand changes neither the orders nor what is reported, and of the trades only the rows
      it closes, and of those only how they were closed. */
  lemma {:induction false} HandIsBeside(cfg: Config, rate: real, moves: seq<HandMove>)
    ensures Beside(HandAfter(cfg, rate, moves), After(cfg, rate, Usuals(moves)), Hand(cfg, rate, moves))
  {
    if moves == [] {
      NothingBeside();
    } else {
      hide Beside, Act, HandAfter, Hand, Usuals, After;
      var init, m := moves[..|moves| - 1], moves[|moves| - 1];
      assert moves == init + [m];
      HandIsBeside(cfg, rate, init);
      UsualsSnoc(init, m);
      HandSnoc(cfg, rate, init, m);
      var d, d0, hand := HandAfter(cfg, rate, init), After(cfg, rate, Usuals(init)), Hand(cfg, rate, init);
      if m.Usual? {
        AfterSnoc(cfg, rate, Usuals(init), m.move);
        UsualBeside(cfg, rate, d, d0, hand, m.move);
      } else {
        HandBeside(d, d0, hand, m.row, m.exit);
      }
    }
  }

  lemma NothingBeside()
    ensures Beside(Desk([], [], 0.0), Desk([], [], 0.0), {})
  {}

  // ----- what survives ----------------------------------------------------------------------------

  /** Over every run with closes by hand: a trade is closed if and only if an exit of its entry was reported or it was
      closed by hand, and what was reported is what the table would have realised without them. */
  lemma ClosedExactly(cfg: Config, rate: real, moves: seq<HandMove>)
    requires forall m :: m in Usuals(moves) ==> Proper(m)
    ensures var d, hand := HandAfter(cfg, rate, moves), Hand(cfg, rate, moves);
            var (b, es) := Run(cfg, EMPTY_BOOK, d.history);
            && (forall i :: 0 <= i < |d.trades| ==>
                  (d.trades[i].status == ClosedTrade <==> Exits(es, d.trades[i].order) || i in hand))
            && d.reported == Realised(After(cfg, rate, Usuals(moves)).trades)
            && (hand == {} ==> d.reported == Realised(d.trades))
  {
    hide HandAfter, After, Hand, Run, Exits, InStep, Proper, DistinctOrders;
    HandIsBeside(cfg, rate, moves);
    DeskIsSound(cfg, rate, Usuals(moves));
    var d, d0, hand := HandAfter(cfg, rate, moves), After(cfg, rate, Usuals(moves)), Hand(cfg, rate, moves);
    forall i | 0 <= i < |d.trades|
      ensures d.trades[i].status == ClosedTrade
              <==> Exits(Run(cfg, EMPTY_BOOK, d.history).1, d.trades[i].order) || i in hand
    {
      assert d0.trades[i] in d0.trades && Alike(d.trades[i], d0.trades[i]);
    }
    if hand == {} {
      assert d.trades == d0.trades;
    }
  }

  /** What a row has been booked with. */
  function Booked(t: Trade): real {
    if t.status == ClosedTrade then OrElse(t.pnl, 0.0) else 0.0
  }

  /** By how much the closes by hand changed what their rows are booked with, in all. */
  function HandGap(ts: seq<Trade>, ts0: seq<Trade>, hand: set<nat>): real
    requires |ts0| == |ts|
  {
    if ts == [] then 0.0
    else
      var n := |ts| - 1;
      HandGap(ts[..n], ts0[..n], hand) + if n in hand then Booked(ts[n]) - Booked(ts0[n]) else 0.0
  }

  lemma {:induction false} RealisedGap(ts: seq<Trade>, ts0: seq<Trade>, hand: set<nat>)
    requires |ts0| == |ts| && forall i :: 0 <= i < |ts| && i !in hand ==> ts[i] == ts0[i]
    ensures Realised(ts) - Realised(ts0) == HandGap(ts, ts0, hand)
  {
    if ts == [] {
    } else {
      var n := |ts| - 1;
      RealisedGap(ts[..n], ts0[..n], hand);
    }
  }

  /** Over every run with closes by hand: what the table has realised exceeds what was reported by exactly what the
      closes by hand changed, row by row. */
  lemma ReportedGap(cfg: Config, rate: real, moves: seq<HandMove>)
    requires forall m :: m in Usuals(moves) ==> Proper(m)
    ensures var d, d0 := HandAfter(cfg, rate, moves), After(cfg, rate, Usuals(moves));
            && |d0.trades| == |d.trades|
            && Realised(d.trades) - d.reported == HandGap(d.trades, d0.trades, Hand(cfg, rate, moves))
  {
    hide HandAfter, After, Hand, Run, Exits, InStep, Proper, DistinctOrders, Alike, Realised, HandGap;
    HandIsBeside(cfg, rate, moves);
    DeskIsSound(cfg, rate, Usuals(moves));
    RealisedGap(HandAfter(cfg, rate, moves).trades, After(cfg, rate, Usuals(moves)).trades, Hand(cfg, rate, moves));
  }

  /** After one close by hand on a sound desk the P&L reported is the P&L realised if and only if the close earned what
      the row had been booked with: its P&L if it was closed already, else nothing. */
  lemma HandBreaksExactly(cfg: Config, d: Desk, i: nat, exit: real)
    requires Sound(cfg, d) && i < |d.trades|
    ensures var t, d' := d.trades[i], d.(trades := CloseRow(d.trades, i, exit));
            var earned := ClosedAt(t, exit).pnl.value;
            var booked := Booked(t);
            && Realised(d'.trades) - d'.reported == earned - booked
            && (d'.reported == Realised(d'.trades) <==> earned == booked)
  {
    hide Run, Gross, InStep, Exits, Realised;
    RealisedUpdate(d.trades, i, ClosedAt(d.trades[i], exit));
  }
}
