/** What a bracket exit is worth in the trades table, from the trigger through the lifecycle event to the row. */
module BracketExits {
  import opened Rounding
  import opened Options
  import opened Orders
  import opened OrderInvariants
  import opened OrderRuns
  import opened Passes
  import opened Touches
  import opened Tracker
  import opened Lifecycle
  import opened Desk

  // ----- the row an exit closes -------------------------------------------------------------------

  /** An entry with nothing left to fill, bought at average `a`. */
  ghost predicate Complete(b: Orders.Book, p: OrderId, a: real) {
    p in b.rows && b.rows[p].kind == Entry && b.rows[p].remaining == 0.0 && b.rows[p].average == Some(a)
  }

  /** Row `t` is closed at the contract price `price`, with the P&L of row `u`, the same row when its exit was
      booked. */
  ghost predicate ClosedAs(t: Trade, u: Trade, price: real) {
    var yes := ExitYes(u, Max(price, 0.0));
    t.status == ClosedTrade && t.exitPrice == Some(yes) && t.pnl == Some(Net(Gross(u, yes), u))
  }

  lemma {:induction false} RowAppend(t: Trade, es: seq<Event>, more: seq<Event>, b: Orders.Book, rate: real)
    ensures RowAfterAll(t, es + more, b, rate) == RowAfterAll(RowAfterAll(t, es, b, rate), more, b, rate)
  {
    hide RowAfter;
    if more == [] {
      assert es + more == es;
    } else {
      var n := |more| - 1;
      RowAppend(t, es, more[..n], b, rate);
      assert (es + more)[..|es| + n] == es + more[..n];
    }
  }

  ghost predicate Truthful(es: seq<Event>, b: Orders.Book) {
    forall n :: 0 <= n < |es| && es[n].kind == ExitFilled ==> TellsExit(b, es[n]) && es[n].parent.Some?
  }

  /** Without a further exit of its order a closed row keeps its price and P&L. */
  lemma {:induction false} ClosedStays(t: Trade, es: seq<Event>, b: Orders.Book, rate: real)
    requires Truthful(es, b) && !Exits(es, t.order)
    ensures var u := RowAfterAll(t, es, b, rate);
            u.order == t.order && u.status == t.status && u.exitPrice == t.exitPrice && u.pnl == t.pnl
  {
    hide TellsExit;
    if es == [] {
    } else {
      var init, e := es[..|es| - 1], es[|es| - 1];
      assert es == init + [e];
      ExitsSnoc(init, e, t.order);
      ClosedStays(t, init, b, rate);
      hide Exits;
      OtherRow(RowAfterAll(t, init, b, rate), e, b, rate);
      hide RowAfter;
    }
  }

  lemma OtherRow(t: Trade, e: Event, b: Orders.Book, rate: real)
    requires e.kind == ExitFilled ==> TellsExit(b, e) && e.parent.Some? && e.parent.value != t.order
    ensures var u := RowAfter(t, e, b, rate);
            u.order == t.order && u.status == t.status && u.exitPrice == t.exitPrice && u.pnl == t.pnl
  {
    hide Fires, BookExit;
    if e.order in b.rows {
      BookEntryKeeps(t, b.rows[e.order], rate);
    }
    hide BookEntry;
  }

  /** The amounts of a row before the n-th event of a cycle is booked. */
  lemma RowBeforeEvent(cfg: Config, b: Orders.Book, actions: seq<Action>, n: nat, t: Trade, rate: real)
    requires Inv(b) && InStep(t, b) && n <= |Run(cfg, b, actions).1|
    ensures var (b', es) := Run(cfg, b, actions);
            var u := RowAfterAll(t, es[..n], b', rate);
            && t.order in b'.rows && u.order == t.order && u.direction == t.direction && u.size == t.size
            && var o := if Tells(es[..n], t.order) then b'.rows[t.order] else b.rows[t.order];
               u.average == o.average && u.filled == Some(o.filled) && o.filled >= 0.0
  {
    var (b', es) := Run(cfg, b, actions);
    RunMoves(cfg, b, actions);
    RunReports(cfg, b, actions, t.order);
    AllRowIds(b');
    RowId(b', t.order);
    hide Inv, OrderInvariants.Moves, Run, Tells;
    RowSync(t, es[..n], b', rate);
    hide RowIds, RowAfterAll;
  }

  lemma CompleteMoves(b: Orders.Book, b': Orders.Book, p: OrderId, a: real)
    requires OrderInvariants.Moves(b, b') && Complete(b, p, a)
    ensures Complete(b', p, a) && b'.rows[p].filled == b.rows[p].filled
  {
    assert RowMoves(b.rows[p], b'.rows[p]);
  }

  lemma ExitWorth(t: Trade, r: Row, price: real, rate: real)
    requires (t.direction == "YES" || t.direction == "NO") && t.size > 0.0 && t.filled.Some? && t.filled.value >= 0.0
    ensures var u := BookExit(t, r, price, rate);
            && u.order == t.order && u.average == t.average && u.filled == t.filled && u.size == t.size
            && ClosedAs(u, u, price) && Signed(u, price)
  {
    var u := BookExit(t, r, price, rate);
    var t1 := Charged(t, Fee(r, rate), 0.0);
    assert Stake(u) == Stake(t) > 0.0 && Stake(t1) == Stake(t) && EntryYes(u) == EntryYes(t1);
    if u.average.Some? && u.average.value > 0.0 {
      GrossSign(u, Max(price, 0.0));
    }
    hide Fee, Clamp01;
    assert Gross(u, ExitYes(u, Max(price, 0.0))) == Gross(t1, ExitYes(t1, Max(price, 0.0)));
    hide Gross;
  }

  /** At a positive average the gross P&L of an exit has the sign of price less average. */
  ghost predicate Signed(u: Trade, price: real) {
    u.average.Some? && u.average.value > 0.0 ==>
      var a, g := u.average.value, Gross(u, ExitYes(u, Max(price, 0.0)));
      (price >= a ==> g >= 0.0) && (price <= a ==> g <= 0.0) && (price < a && price < 1.0 ==> g < 0.0)
  }

  /** Any exit, of an entry filled in whole or in part: in any run of the desk, at any point of any cycle, the row of
      the entry ends closed at the price of the event, with the P&L and fees of that price. Its average and stake are
      those the entry has after the cycle if an event of the entry came before the exit, else those from before the
      cycle, and the gross has the sign of price less average. */
  lemma BookedExit(cfg: Config, rate: real, d: Desk, actions: seq<Action>, n: nat, i: nat) returns (u: Trade)
    requires Sound(cfg, d) && i < |d.trades|
    requires var es := Run(cfg, Table(cfg, d), actions).1;
             n < |es| && es[n].kind == ExitFilled && es[n].parent == Some(d.trades[i].order)
    ensures var b, p := Table(cfg, d), d.trades[i].order;
            var (b', es) := Run(cfg, b, actions);
            var ts := Act(cfg, rate, d, Cycle(actions)).trades;
            && TellsExit(b', es[n]) && |ts| == |d.trades| && ts[i].order == p && p in b.rows && p in b'.rows
            && var price := es[n].fillPrice.value;
               && u == BookExit(RowAfterAll(d.trades[i], es[..n], b', rate), b'.rows[es[n].order], price, rate)
               && ClosedAs(ts[i], u, price) && Signed(u, price)
               && var o := if Tells(es[..n], p) then b'.rows[p] else b.rows[p];
                  u.average == o.average && u.filled == Some(o.filled)
  {
    SoundRow(cfg, d, i);
    hide Sound;
    var b := Table(cfg, d);
    hide Run, Table, Tells;
    var (b', es) := Run(cfg, b, actions);
    var t := d.trades[i];
    CycleRows(cfg, rate, d, actions);
    FreshPart(d.trades, es, b', n);
    RowBeforeEvent(cfg, b, actions, n, t, rate);
    hide Lifecycle.Fresh, InStep, Inv, Act, Exits, RowAfterAll;
    var t0 := RowAfterAll(t, es[..n], b', rate);
    ExitRow(b', es[n], t0, rate);
    var r, price := b'.rows[es[n].order], es[n].fillPrice.value;
    StepRow(t, b);
    ExitWorth(t0, r, price, rate);
    u := BookExit(t0, r, price, rate);
    hide BookExit, RowAfter, TellsExit, Signed;
    RowThrough(t, es, n, b', rate);
    ClosedStays(u, es[n + 1..], b', rate);
  }

  lemma StepRow(t: Trade, b: Orders.Book)
    requires InStep(t, b)
    ensures (t.direction == "YES" || t.direction == "NO") && t.size > 0.0 && t.order in b.rows
  {}

  /** An exit of an entry that was complete before it: its row has that average. */
  lemma CompleteExit(cfg: Config, rate: real, d: Desk, before: seq<Action>, after: seq<Action>, n: nat, i: nat, a: real)
    returns (u: Trade)
    requires Sound(cfg, d) && i < |d.trades|
    requires var m := Run(cfg, Table(cfg, d), before).0;
             var e2 := Run(cfg, m, after).1;
             && Complete(m, d.trades[i].order, a)
             && n < |e2| && e2[n].kind == ExitFilled && e2[n].parent == Some(d.trades[i].order)
    ensures var m := Run(cfg, Table(cfg, d), before).0;
            var (b', e2) := Run(cfg, m, after);
            var ts := Act(cfg, rate, d, Cycle(before + after)).trades;
            && TellsExit(b', e2[n]) && |ts| == |d.trades| && ts[i].order == d.trades[i].order
            && var price := e2[n].fillPrice.value;
               ClosedAs(ts[i], u, price) && Signed(u, price) && u.average == Some(a)
  {
    hide Sound, Run, Table, Tells, Inv, OrderInvariants.Moves, Act, TellsExit, Signed, ClosedAs;
    SoundRow(cfg, d, i);
    var b, p := Table(cfg, d), d.trades[i].order;
    var (m, e1) := Run(cfg, b, before);
    var (b', e2) := Run(cfg, m, after);
    RunAppend(cfg, b, before, after);
    var es := e1 + e2;
    assert es[|e1| + n] == e2[n] && es[..|e1| + n] == e1 + e2[..n];
    u := BookedExit(cfg, rate, d, before + after, |e1| + n, i);
    RunMoves(cfg, b, before);
    RunMoves(cfg, m, after);
    StepEntry(d.trades[i], b);
    RunReports(cfg, b, before, p);
    CompleteMoves(m, b', p, a);
    TellsJoin(e1, e2[..n], p);
  }

  lemma StepEntry(t: Trade, b: Orders.Book)
    requires InStep(t, b)
    ensures t.order in b.rows && b.rows[t.order].kind == Entry
  {}

  lemma SoundRow(cfg: Config, d: Desk, i: nat)
    requires Sound(cfg, d) && i < |d.trades|
    ensures InStep(d.trades[i], Table(cfg, d)) && DistinctOrders(d.trades) && Inv(Table(cfg, d))
  {
    RunKeeps(cfg, d.history);
    hide Run, Inv, InStep;
    assert d.trades[i] in d.trades;
  }

  lemma CycleRows(cfg: Config, rate: real, d: Desk, actions: seq<Action>)
    requires Sound(cfg, d)
    ensures var (b', es) := Run(cfg, Table(cfg, d), actions);
            var ts := Act(cfg, rate, d, Cycle(actions)).trades;
            && Lifecycle.Fresh(d.trades, es, b') && |ts| == |d.trades|
            && forall i :: 0 <= i < |ts| ==> ts[i] == RowAfterAll(d.trades[i], es, b', rate)
  {
    hide Run, Lifecycle.Fresh;
    var (b', es) := Run(cfg, Table(cfg, d), actions);
    CycleIsFresh(cfg, d, actions);
    BookByRow(d.trades, es, b', rate);
  }

  /** A row through the events before the n-th, that event, and the rest. */
  lemma RowThrough(t: Trade, es: seq<Event>, n: nat, b: Orders.Book, rate: real)
    requires n < |es|
    ensures RowAfterAll(t, es, b, rate)
            == RowAfterAll(RowAfter(RowAfterAll(t, es[..n], b, rate), es[n], b, rate), es[n + 1..], b, rate)
  {
    hide RowAfter, RowAfterAll;
    var first, rest := es[..n], es[n + 1..];
    assert es == (first + [es[n]]) + rest;
    RowAppend(t, first, [es[n]], b, rate);
    RowSingle(RowAfterAll(t, first, b, rate), es[n], b, rate);
    RowAppend(t, first + [es[n]], rest, b, rate);
  }

  lemma RowSingle(t: Trade, e: Event, b: Orders.Book, rate: real)
    ensures RowAfterAll(t, [e], b, rate) == RowAfter(t, e, b, rate)
  {
    hide RowAfter;
    assert [e][..0] == [];
  }

  lemma FreshPart(ts: seq<Trade>, es: seq<Event>, b: Orders.Book, n: nat)
    requires Lifecycle.Fresh(ts, es, b) && n < |es| && es[n].kind == ExitFilled && es[n].parent.Some?
    ensures TellsExit(b, es[n]) && !Exits(es[n + 1..], es[n].parent.value)
    ensures Truthful(es[n + 1..], b)
  {
    hide TellsExit;
  }

  lemma ExitRow(b: Orders.Book, e: Event, t: Trade, rate: real)
    requires TellsExit(b, e) && e.kind == ExitFilled && e.parent == Some(t.order)
    ensures RowAfter(t, e, b, rate) == BookExit(t, b.rows[e.order], e.fillPrice.value, rate)
  {
    hide Fires, BookExit;
  }

  // ----- entries that fill in one piece -----------------------------------------------------------

  /** An entry nothing of which has been filled, and that has no bracket. */
  ghost predicate Bare(r: Row) {
    && r.kind == Entry && r.size >= 0.5 && r.status == Placed && r.filled == 0.0 && r.remaining == r.size
    && r.average == None && r.bracketIds == []
  }

  lemma BareFill(r: Row, size: real, price: real, now: Time)
    requires Bare(r) && Fill(r, size, price, now).remaining == 0.0
    ensures var r' := Fill(r, size, price, now);
            && r'.status == Filled && r'.average == Some(price) && r'.filled > 0.0
            && r'.id == r.id && r'.kind == Entry && r'.bracketIds == []
  {
    var taken := TakenSize(r, size);
    if taken > 0.0 {
      Round8Facts(r.filled + taken);
      SmallRemainder(r.size, Round8(taken));
    }
    hide Round8, OnGrid;
  }

  /** What is left of half a dollar or more is not a unit unless something was filled. */
  lemma SmallRemainder(size: real, filled: real)
    requires size >= 0.5 && Round8(Max(size - filled, 0.0)) <= UNIT
    ensures filled > 0.0
  {
    Round8Facts(Max(size - filled, 0.0));
  }

  /** First arming of an entry that is complete. */
  lemma ArmingWhole(b: Orders.Book, p: OrderId, a: real, spec: BracketSpec, now: Time)
    requires Complete(b, p, a) && a != 0.0 && Known(b, p) && b.rows[p].bracketIds == [] && p < b.next
    ensures ArmedWhole(Arm(b, p, spec, now).0, p, a, spec)
  {
    hide TakeProfitLevel, StopLossLevel;
  }

  /** A reconcile visit that completes an untouched paper entry in one fill arms it around that fill. */
  lemma PaperVisitArmsWhole(cfg: Config, b: Orders.Book, p: OrderId, quotes: map<string, Quote>, now: Time)
    requires Inv(b) && Known(b, p) && Bare(b.rows[p]) && b.rows[p].isPaper && cfg.brackets
    requires var b' := Step(cfg, b, On(p, Visit(quotes, now))).0; p in b'.rows && b'.rows[p].remaining == 0.0
    ensures var r := b.rows[p];
            && r.market in quotes
            && var price := ContractPrice(r.direction, OrElse(quotes[r.market].midpoint, r.price));
               price != 0.0 ==> ArmedWhole(Step(cfg, b, On(p, Visit(quotes, now))).0, p, price, DefaultSpec(cfg).value)
  {
    EntryFacts(b, p);
    hide Inv, VisitLocalEntry, Step;
    var r := b.rows[p];
    VisitStep(cfg, b, p, quotes, now);
    if r.market in quotes {
      PaperFillArms(cfg, b, p, quotes[r.market], now);
    }
    hide ArmedWhole, Rearm, PaperEntryFill;
  }

  /** A visit without a quote does nothing; with one it fills, and arms what is not armed yet. */
  lemma VisitStep(cfg: Config, b: Orders.Book, p: OrderId, quotes: map<string, Quote>, now: Time)
    requires EntryOf(b, p) && Bare(b.rows[p]) && b.rows[p].isPaper
    ensures Step(cfg, b, On(p, Visit(quotes, now))).0
            == if b.rows[p].market !in quotes then b
               else Rearm(cfg, PaperEntryFill(cfg, b, p, quotes[b.rows[p].market], now).0, p, now).0
  {
    hide PaperEntryFill, Rearm;
  }

  lemma PaperFillArms(cfg: Config, b: Orders.Book, p: OrderId, q: Quote, now: Time)
    requires EntryOf(b, p) && Bare(b.rows[p]) && cfg.brackets
    requires var b' := Rearm(cfg, PaperEntryFill(cfg, b, p, q, now).0, p, now).0;
             p in b'.rows && b'.rows[p].remaining == 0.0
    ensures var r := b.rows[p];
            var price := ContractPrice(r.direction, OrElse(q.midpoint, r.price));
            var b1 := PaperEntryFill(cfg, b, p, q, now).0;
            price != 0.0 ==> ArmedWhole(Rearm(cfg, b1, p, now).0, p, price, DefaultSpec(cfg).value)
  {
    var r := b.rows[p];
    var price := ContractPrice(r.direction, OrElse(q.midpoint, r.price));
    var r' := Fill(r, PaperFillSize(cfg, r), price, now);
    FillKeepsOrder(r, PaperFillSize(cfg, r), price, now);
    FillNotArmed(r, PaperFillSize(cfg, r), price, now);
    PaperFillIsReported(cfg, b, p, q, now);
    var b1 := PaperEntryFill(cfg, b, p, q, now).0;
    RearmUntouched(cfg, b1, p, now, p);
    if price <= r.price + cfg.tolerance {
      ArmUntouched(Put(b, r'), p, DefaultSpec(cfg).value, now, p);
      hide Arm, PaperFillSize;
      if r'.remaining == 0.0 {
        BareFill(r, PaperFillSize(cfg, r), price, now);
        hide Fill;
        if price != 0.0 {
          ArmingWhole(Put(b, r'), p, price, DefaultSpec(cfg).value, now);
        }
      }
    } else {
      hide Fill;
    }
  }

  /** A live answer that completes an untouched entry in one fill arms it around that fill. */
  lemma LiveAnswerArmsWhole(cfg: Config, b: Orders.Book, p: OrderId, answers: seq<LiveRow>, now: Time)
    requires Inv(b) && Known(b, p) && Bare(b.rows[p]) && LiveManaged(cfg, b.rows[p]) && cfg.brackets
    requires var b' := Step(cfg, b, On(p, Answer(answers, now))).0; p in b'.rows && b'.rows[p].remaining == 0.0
    ensures var price := LastPrice(answers, ActivePrice(b.rows[p]));
            price != 0.0 ==> ArmedWhole(Step(cfg, b, On(p, Answer(answers, now))).0, p, price, DefaultSpec(cfg).value)
  {
    EntryFacts(b, p);
    hide Inv, LiveEntry;
    LiveEntryArms(cfg, b, p, answers, now);
  }

  lemma LiveEntryArms(cfg: Config, b: Orders.Book, p: OrderId, answers: seq<LiveRow>, now: Time)
    requires EntryOf(b, p) && Bare(b.rows[p]) && cfg.brackets
    requires var b' := LiveEntry(cfg, b, p, answers, now).0; p in b'.rows && b'.rows[p].remaining == 0.0
    ensures var price := LastPrice(answers, ActivePrice(b.rows[p]));
            price != 0.0 ==> ArmedWhole(LiveEntry(cfg, b, p, answers, now).0, p, price, DefaultSpec(cfg).value)
  {
    LiveFillWhole(b, p, answers, now);
    hide LiveFill, LastPrice, Arm, Bare;
    var price := LastPrice(answers, ActivePrice(b.rows[p]));
    var b1 := LiveFill(b, p, answers, now).0;
    if cfg.brackets {
      LiveStatusKeepsFill(b1, p, answers);
      var b2 := LiveStatus(b1, p, answers).0;
      hide LiveStatus;
      ArmUntouched(b2, p, DefaultSpec(cfg).value, now, p);
      if b1.rows[p].remaining == 0.0 && price != 0.0 {
        ArmingWhole(b1, p, price, DefaultSpec(cfg).value, now);
      }
    }
  }

  lemma LiveFillWhole(b: Orders.Book, p: OrderId, answers: seq<LiveRow>, now: Time)
    requires EntryOf(b, p) && Bare(b.rows[p])
    ensures var b1, price := LiveFill(b, p, answers, now).0, LastPrice(answers, ActivePrice(b.rows[p]));
            && EntryOf(b1, p)
            && (b1.rows[p].remaining == 0.0 ==>
                  Complete(b1, p, price) && b1.rows[p].status == Filled && b1.rows[p].filled > 0.0
                  && b1.rows[p].bracketIds == [])
  {
    var r := b.rows[p];
    var price := LastPrice(answers, ActivePrice(r));
    var delta := Max(TotalFilled(answers) - r.filled, 0.0);
    FillKeepsOrder(r, delta, price, now);
    FillNotArmed(r, delta, price, now);
    if delta > 0.0 && Fill(r, delta, price, now).remaining == 0.0 {
      BareFill(r, delta, price, now);
    }
    hide TotalFilled, LastPrice, Fill;
  }

  /** For every entry that was complete when its bracket was armed, however it was filled, at any point of any run of
      the desk: when a child of it exits, its row is closed at the price of the exit event with P&L equal to gross less
      fees and gas, and the gross is at least zero for a take-profit and at most zero for a stop-loss, for averages that
      the clamp of their level does not cut off. */
  lemma WholeEntryExits(cfg: Config, rate: real, d: Desk, before: seq<Action>, after: seq<Action>, n: nat, i: nat,
                        a: real, spec: BracketSpec) returns (u: Trade)
    requires Sound(cfg, d) && i < |d.trades|
    requires 0.0 < a && spec.takeProfitPct >= 0.0 && spec.stopLossPct >= 0.0
    requires var m := Run(cfg, Table(cfg, d), before).0;
             var e2 := Run(cfg, m, after).1;
             && ArmedWhole(m, d.trades[i].order, a, spec)
             && n < |e2| && e2[n].kind == ExitFilled && e2[n].parent == Some(d.trades[i].order)
    ensures var m := Run(cfg, Table(cfg, d), before).0;
            var (b', e2) := Run(cfg, m, after);
            var ts := Act(cfg, rate, d, Cycle(before + after)).trades;
            && TellsExit(b', e2[n]) && |ts| == |d.trades| && ts[i].order == d.trades[i].order
            && var price := e2[n].fillPrice.value;
               var g := Gross(u, ExitYes(u, Max(price, 0.0)));
               && ClosedAs(ts[i], u, price) && u.average == Some(a)
               && (b'.rows[e2[n].order].kind == TakeProfit && a <= 0.99 ==> g >= 0.0)
               && (b'.rows[e2[n].order].kind == StopLoss && 0.01 <= a ==> g <= 0.0)
  {
    var b := Table(cfg, d);
    var m := Run(cfg, b, before).0;
    var (b', e2) := Run(cfg, m, after);
    WholeIsComplete(m, d.trades[i].order, a, spec);
    u := CompleteExit(cfg, rate, d, before, after, n, i, a);
    RunKeeps(cfg, d.history);
    RunMoves(cfg, b, before);
    RunMoves(cfg, m, after);
    hide Inv, OrderInvariants.Moves, Run, ArmedWhole, TellsExit, Gross, Sound, Act;
    ArmedWholeMoves(m, b', d.trades[i].order, a, spec);
    ExitSide(b', e2[n], d.trades[i].order, a, spec);
  }

  lemma WholeIsComplete(b: Orders.Book, p: OrderId, a: real, spec: BracketSpec)
    requires ArmedWhole(b, p, a, spec)
    ensures Complete(b, p, a)
  {}
}
