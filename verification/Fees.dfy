/** What a trade is charged over a run of the desk: once for its entry and once for its exit. */
module Fees {
  import opened Rounding
  import opened Options
  import opened Orders
  import opened OrderInvariants
  import opened OrderRuns
  import opened Passes
  import opened Touches
  import opened Tracker
  import opened Lifecycle
  import opened Desk

  /** A filled exit of the entry `p`. */
  ghost predicate ExitOf(b: Orders.Book, p: OrderId, c: OrderId) {
    c in b.rows && IsChild(b.rows[c].kind) && b.rows[c].status == Filled && b.rows[c].parent == Some(p)
  }

  /** What the exit is charged for: what it filled, or its size if that rounds to nothing. */
  ghost function ExitCharge(r: Row, rate: real): real {
    Abs(rate * if r.filled != 0.0 then r.filled else r.size)
  }

  /** A paper trade has been charged for its whole size, and once it is closed for one exit as well. */
  ghost predicate PaperCharged(t: Trade, b: Orders.Book, rate: real) {
    && t.gas == Some(0.0) && t.fee.Some?
    && (t.status == OpenTrade ==> t.fee.value == rate * t.size)
    && (t.status == ClosedTrade ==>
          exists c :: ExitOf(b, t.order, c) && t.fee.value == rate * t.size + ExitCharge(b.rows[c], rate))
  }

  /** What one event does to the charges of a paper row. */
  lemma EventCharges(t: Trade, e: Event, b: Orders.Book, rate: real)
    requires RowIds(b) && t.order in b.rows && b.rows[t.order].kind == Entry && b.rows[t.order].isPaper
    requires PaperCharged(t, b, rate)
    requires e.kind == ExitFilled ==>
               TellsExit(b, e) && e.parent.Some? && (e.parent == Some(t.order) ==> t.status == OpenTrade)
    ensures PaperCharged(RowAfter(t, e, b, rate), b, rate)
    ensures var u := RowAfter(t, e, b, rate);
            && u.order == t.order
            && (u.status == ClosedTrade
                <==> t.status == ClosedTrade || (e.kind == ExitFilled && e.parent == Some(t.order)))
  {
    hide Gross, Fires;
    if e.order in b.rows {
      var r := b.rows[e.order];
      if r.kind != Entry && e.kind == ExitFilled && e.fillPrice.Some? && TradeOrder(r) == t.order {
        var u := BookExit(t, r, e.fillPrice.value, rate);
        assert ExitOf(b, t.order, e.order) && u.fee.value == rate * t.size + ExitCharge(r, rate);
      }
    }
  }

  lemma {:induction false} EventsCharge(t: Trade, es: seq<Event>, b: Orders.Book, rate: real)
    requires RowIds(b) && t.order in b.rows && b.rows[t.order].kind == Entry && b.rows[t.order].isPaper
    requires PaperCharged(t, b, rate)
    requires forall n :: 0 <= n < |es| && es[n].kind == ExitFilled ==> TellsExit(b, es[n]) && es[n].parent.Some?
    requires forall m, n :: 0 <= m < n < |es| && es[m].kind == ExitFilled && es[n].kind == ExitFilled
               ==> es[m].parent != es[n].parent
    requires Exits(es, t.order) ==> t.status == OpenTrade
    ensures var u := RowAfterAll(t, es, b, rate);
            && PaperCharged(u, b, rate) && u.order == t.order
            && (u.status == ClosedTrade <==> t.status == ClosedTrade || Exits(es, t.order))
  {
    hide PaperCharged, TellsExit, RowAfter, RowIds, Exits;
    NoExits(t.order);
    if es == [] {
    } else {
      var init, e := es[..|es| - 1], es[|es| - 1];
      assert es == init + [e];
      ExitsSnoc(init, e, t.order);
      if e.kind == ExitFilled && e.parent == Some(t.order) {
        NotYetExited(es, t.order);
      }
      EventsCharge(t, init, b, rate);
      EventCharges(RowAfterAll(t, init, b, rate), e, b, rate);
    }
  }

  lemma NoExits(order: OrderId)
    ensures !Exits([], order)
  {}

  /** Charges stand: what is paid for stays filled. */
  lemma ChargedStays(t: Trade, b: Orders.Book, b': Orders.Book, rate: real)
    requires PaperCharged(t, b, rate) && Moves(b, b')
    ensures PaperCharged(t, b', rate)
  {
    if t.status == ClosedTrade {
      var c :| ExitOf(b, t.order, c) && t.fee.value == rate * t.size + ExitCharge(b.rows[c], rate);
      MovedRow(b, b', c);
      assert ExitOf(b', t.order, c);
    }
  }

  ghost predicate AllCharged(cfg: Config, d: Desk, rate: real) {
    var b := Table(cfg, d);
    forall t :: t in d.trades ==> t.order in b.rows && (b.rows[t.order].isPaper ==> PaperCharged(t, b, rate))
  }

  lemma NewCharged(r: Row, marketPrice: real, rate: real, b: Orders.Book)
    requires r.isPaper
    ensures var t := NewTrade(r, marketPrice, rate); PaperCharged(t, b, rate) && t.order == r.id
  {}

  lemma EnterCharges(cfg: Config, rate: real, d: Desk, m: Move)
    requires Sound(cfg, d) && Proper(m) && m.Enter? && AllCharged(cfg, d, rate)
    ensures AllCharged(cfg, Act(cfg, rate, d, m), rate)
  {
    hide Inv, Run, Step, Moves, PaperCharged, NewTrade, Sound, Silent, Acceptable;
    var d' := Act(cfg, rate, d, m);
    var place := Place(m.req, m.killed, m.now);
    var b, b' := Table(cfg, d), Table(cfg, d');
    RunKeeps(cfg, d.history);
    assert d'.history == d.history + [place] + m.during;
    assert d.history + [place] + m.during == d.history + ([place] + m.during);
    RunAppend(cfg, EMPTY_BOOK, d.history, [place] + m.during);
    RunMoves(cfg, b, [place] + m.during);
    RunKeeps(cfg, d'.history);
    forall t | t in d'.trades
      ensures t.order in b'.rows && (b'.rows[t.order].isPaper ==> PaperCharged(t, b', rate))
    {
      if t in d.trades {
        MovedRow(b, b', t.order);
        if b.rows[t.order].isPaper {
          ChargedStays(t, b, b', rate);
        }
      } else {
        RowId(b', b.next);
        NewTradeNamed(b'.rows[b.next], m.marketPrice, rate);
        if b'.rows[b.next].isPaper {
          NewCharged(b'.rows[b.next], m.marketPrice, rate, b');
        }
      }
    }
  }

  lemma NewTradeNamed(r: Row, marketPrice: real, rate: real)
    ensures NewTrade(r, marketPrice, rate).order == r.id
  {}

  lemma CycleCharges(cfg: Config, rate: real, d: Desk, actions: seq<Action>)
    requires Sound(cfg, d) && AllCharged(cfg, d, rate)
    ensures AllCharged(cfg, Act(cfg, rate, d, Cycle(actions)), rate)
  {
    hide Run, BookAll, Inv, RowAfterAll, Exits, PaperCharged, Moves, TellsExit;
    var b := Table(cfg, d);
    var (b', es) := Run(cfg, b, actions);
    RunKeeps(cfg, d.history);
    RunMoves(cfg, b, actions);
    RunAppend(cfg, EMPTY_BOOK, d.history, actions);
    CycleIsFresh(cfg, d, actions);
    AllRowIds(b');
    BookByRow(d.trades, es, b', rate);
    var d' := Act(cfg, rate, d, Cycle(actions));
    forall t' | t' in d'.trades
      ensures t'.order in b'.rows && (b'.rows[t'.order].isPaper ==> PaperCharged(t', b', rate))
    {
      var i :| 0 <= i < |d'.trades| && d'.trades[i] == t';
      var t := d.trades[i];
      assert t in d.trades && InStep(t, b);
      RunReports(cfg, b, actions, t.order);
      MovedRow(b, b', t.order);
      RowSync(t, es, b', rate);
      if b.rows[t.order].isPaper {
        ChargedStays(t, b, b', rate);
        FreshRow(d.trades, i, es, b');
        EventsCharge(t, es, b', rate);
      }
    }
  }

  lemma FreshRow(ts: seq<Trade>, i: nat, es: seq<Event>, b: Orders.Book)
    requires i < |ts| && Lifecycle.Fresh(ts, es, b)
    ensures Exits(es, ts[i].order) ==> ts[i].status == OpenTrade
  {
    hide TellsExit;
  }

  /** Over every run of the desk every paper trade has been charged the rate on its whole size when it was entered, and
      once it is closed the rate on what its one exit filled, and no more. */
  lemma {:induction false} PaperFees(cfg: Config, rate: real, moves: seq<Move>)
    requires forall m :: m in moves ==> Proper(m)
    ensures AllCharged(cfg, After(cfg, rate, moves), rate)
  {
    hide Act, Proper, Sound, AllCharged;
    if moves == [] {
      NothingCharged(cfg, rate);
    } else {
      var init, m := moves[..|moves| - 1], moves[|moves| - 1];
      assert moves == init + [m] && m in moves;
      DeskIsSound(cfg, rate, init);
      PaperFees(cfg, rate, init);
      if m.Enter? {
        EnterCharges(cfg, rate, After(cfg, rate, init), m);
      } else {
        CycleCharges(cfg, rate, After(cfg, rate, init), m.actions);
      }
    }
  }

  lemma NothingCharged(cfg: Config, rate: real)
    ensures AllCharged(cfg, Desk([], [], 0.0), rate)
  {}

  // ----- live trades ------------------------------------------------------------------------------

  /** A live trade is charged for its entry once: by the first event of the entry that is booked when it is filled,
      unless it has been charged before. */
  lemma {:induction false} LiveFeeOnce(t: Trade, es: seq<Event>, b: Orders.Book, rate: real)
    requires RowIds(b) && t.order in b.rows && b.rows[t.order].kind == Entry && !b.rows[t.order].isPaper
    requires forall e :: e in es ==> e.kind != ExitFilled
    ensures var r, u := b.rows[t.order], RowAfterAll(t, es, b, rate);
            var size := if r.filled != 0.0 then r.filled else r.size;
            && u.order == t.order && OrElse(u.gas, 0.0) == OrElse(t.gas, 0.0)
            && OrElse(u.fee, 0.0)
               == if OrElse(t.fee, 0.0) == 0.0 && r.status == Filled && Touches.Tells(es, t.order) then Abs(rate * size)
                  else OrElse(t.fee, 0.0)
  {
    if es == [] {
    } else {
      var init, e := es[..|es| - 1], es[|es| - 1];
      assert es == init + [e];
      LiveFeeOnce(t, init, b, rate);
      assert Touches.Tells(es, t.order) <==> Touches.Tells(init, t.order) || e.order == t.order;
      LiveEventFee(RowAfterAll(t, init, b, rate), e, b, rate);
      hide RowAfter, Touches.Tells;
    }
  }

  lemma LiveEventFee(t: Trade, e: Event, b: Orders.Book, rate: real)
    requires RowIds(b) && t.order in b.rows && b.rows[t.order].kind == Entry && !b.rows[t.order].isPaper
    requires e.kind != ExitFilled
    ensures var r, u := b.rows[t.order], RowAfter(t, e, b, rate);
            && u.order == t.order && OrElse(u.gas, 0.0) == OrElse(t.gas, 0.0)
            && OrElse(u.fee, 0.0)
               == if OrElse(t.fee, 0.0) == 0.0 && r.status == Filled && e.order == t.order
                  then Abs(rate * if r.filled != 0.0 then r.filled else r.size)
                  else OrElse(t.fee, 0.0)
  {}
}
