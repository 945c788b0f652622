/** What a live entry books of the exchange's answers about its chunks: their sum, however it is split and in whatever
    order it comes. */
module LiveAnswers {
  import opened Rounding
  import opened Products
  import opened Options
  import opened Sums
  import opened Orders
  import opened OrderInvariants
  import opened OrderRuns
  import opened Touches
  import opened FillLedger

  /** What each answer reports as filled. */
  ghost function Reported(answers: seq<LiveRow>): seq<real> {
    seq(|answers|, i requires 0 <= i < |answers| => answers[i].filled)
  }

  /** `price` is that of the last answer that carries one; without any, the average so far, or the limit. */
  ghost predicate LastPriced(answers: seq<LiveRow>, r: Row, price: real) {
    || (exists k :: 0 <= k < |answers| && answers[k].average == Some(price)
                    && forall j :: k < j < |answers| ==> answers[j].average == None)
    || ((forall j :: 0 <= j < |answers| ==> answers[j].average == None)
        && price == if r.average == None || r.average == Some(0.0) then r.price else r.average.value)
  }

  lemma {:induction false} TotalIsSum(answers: seq<LiveRow>)
    ensures TotalFilled(answers) == Sum(Reported(answers))
  {
    if answers == [] {
    } else {
      var n := |answers| - 1;
      TotalIsSum(answers[..n]);
      assert Reported(answers)[..n] == Reported(answers[..n]);
    }
  }

  lemma {:induction false} LastPriceIsLast(answers: seq<LiveRow>, r: Row)
    ensures LastPriced(answers, r, LastPrice(answers, ActivePrice(r)))
  {
    if answers == [] {
    } else {
      var n := |answers| - 1;
      var price := LastPrice(answers, ActivePrice(r));
      if answers[n].average == None {
        LastPriceIsLast(answers[..n], r);
        if k :| 0 <= k < n && answers[..n][k].average == Some(price)
                && forall j :: k < j < n ==> answers[..n][j].average == None
        {
          assert answers[k].average == Some(price);
          assert forall j :: k < j < |answers| ==> j == n || answers[j] == answers[..n][j];
        } else {
          assert forall j :: 0 <= j < |answers| ==> j == n || answers[j] == answers[..n][j];
        }
      }
    }
  }

  // ----- one visit --------------------------------------------------------------------------------

  /** The fill of an entry after `total` has been reported at `price`: nothing unless that is more than is booked and
      something is left; otherwise the difference, as far as it is left, at that price. */
  ghost predicate Books(r: Row, r': Row, total: real, price: real) {
    var taken := Min(total - r.filled, r.remaining);
    if taken <= 0.0 then SameLedger(r, r')
    else
      && r'.size == r.size && r'.filled == Round8(r.filled + taken) && r'.average.Some?
      && Mul(r'.average.value, r.filled + taken) == Worth(r) + Mul(price, taken)
  }

  /** The status of an entry after a visit: filled or filled in part if anything was taken or had been; otherwise
      cancelled if any answer says so, else expired if any says so. */
  ghost predicate Ends(r: Row, s: Status, taken: real, left: real, answers: seq<LiveRow>) {
    s == if taken > 0.0 then (if left == 0.0 then Filled else PartiallyFilled)
         else if r.status == PartiallyFilled then PartiallyFilled
         else if exists a :: a in answers && a.cancelled then Cancelled
         else if exists a :: a in answers && a.expired then Expired
         else r.status
  }

  /** A live entry that is asked about in a pass while no other task interferes. */
  ghost predicate Asked(cfg: Config, b: Book, id: OrderId, w: World) {
    && id in b.rows && b.rows[id].kind == Entry && !b.rows[id].isPaper && cfg.liveReconcile && cfg.hasClob
    && !Final(b.rows[id].status)
    && w.others(id) == [] && w.answers(id) != []
  }

  /** The report of a fill: complete or in part, with the price and the size that was asked for. */
  ghost function FillEvent(r: Row, price: real, size: real): Event {
    Event(if r.status == Filled then EntryFilled else EntryPartiallyFilled, r.id, Some(price), size, None, None)
  }

  lemma FillBooks(r: Row, total: real, price: real, now: Time)
    requires LedgerOk(r) && total > r.filled
    ensures Books(r, Fill(r, total - r.filled, price, now), total, price)
    ensures var taken := Min(total - r.filled, r.remaining);
            taken > 0.0 ==>
              var r' := Fill(r, total - r.filled, price, now);
              r'.status == if r'.remaining == 0.0 then Filled else PartiallyFilled
  {
    hide Fill, Round8, NewAverage, LedgerOk, Mul, TakenSize, Worth;
    FillParts(r, total - r.filled, price, now);
    if Min(total - r.filled, r.remaining) > 0.0 {
      LedgerAverage(r);
      var a := OrElse(r.average, price);
      FillAverage(r, total - r.filled, price, now, Min(a, price), Max(a, price));
    }
  }

  lemma FillParts(r: Row, size: real, price: real, now: Time)
    requires size > 0.0
    ensures var r', taken := Fill(r, size, price, now), Min(size, r.remaining);
            && r'.size == r.size
            && (if taken > 0.0
                then TakenSize(r, size) == taken && r'.status == if r'.remaining == 0.0 then Filled else PartiallyFilled
                else r' == r)
  {
    hide Round8, NewAverage;
  }

  /** What the visit of a live entry books. */
  lemma VisitBooks(cfg: Config, b: Book, id: OrderId, w: World) returns (price: real)
    requires Inv(b) && Asked(cfg, b, id, w)
    ensures LastPriced(w.answers(id), b.rows[id], price)
    ensures var (b', es) := PassVisit(cfg, b, id, w);
            var r, total := b.rows[id], Sum(Reported(w.answers(id)));
            && id in b'.rows && Books(r, b'.rows[id], total, price)
            && Ends(r, b'.rows[id].status, Min(total - r.filled, r.remaining), b'.rows[id].remaining, w.answers(id))
            && (total > r.filled ==> es != [] && es[0] == FillEvent(b'.rows[id], price, total - r.filled))
  {
    hide Inv, LiveEntry, Rearm, LastPriced, Books, LedgerOk, Ends, Reported, Sum;
    var r, answers := b.rows[id], w.answers(id);
    EntryFacts(b, id);
    LedgerOf(b, id);
    assert Interfere(cfg, b, []) == b;
    price := LastPrice(answers, ActivePrice(r));
    LastPriceIsLast(answers, r);
    EntryBooks(cfg, b, id, answers, w.now, price);
    var b' := LiveEntry(cfg, b, id, answers, w.now).0;
    RearmUntouched(cfg, b', id, w.now, id);
    SameBooks(r, b'.rows[id], PassVisit(cfg, b, id, w).0.rows[id], Sum(Reported(answers)), price);
  }

  lemma EntryBooks(cfg: Config, b: Book, id: OrderId, answers: seq<LiveRow>, now: Time, price: real)
    requires EntryOf(b, id) && LedgerOk(b.rows[id]) && !Final(b.rows[id].status) && answers != []
    requires price == LastPrice(answers, ActivePrice(b.rows[id]))
    ensures var (b', es) := LiveEntry(cfg, b, id, answers, now);
            var r, total := b.rows[id], Sum(Reported(answers));
            && EntryOf(b', id) && Books(r, b'.rows[id], total, price)
            && Ends(r, b'.rows[id].status, Min(total - r.filled, r.remaining), b'.rows[id].remaining, answers)
            && (total > r.filled ==> es != [] && es[0] == FillEvent(b'.rows[id], price, total - r.filled))
  {
    hide LiveFill, LiveStatus, LiveEntry, LastPrice, Books, LedgerOk, Reported, Sum;
    TotalIsSum(answers);
    var total := Sum(Reported(answers));
    FillStep(b, id, answers, now, total, price);
    var b1 := LiveFill(b, id, answers, now).0;
    StatusEnds(b, b1, id, answers, Min(total - b.rows[id].filled, b.rows[id].remaining));
    LiveStatusKeepsFill(b1, id, answers);
    EntryParts(cfg, b, id, answers, now);
    SameBooks(b.rows[id], b1.rows[id], LiveEntry(cfg, b, id, answers, now).0.rows[id], total, price);
  }

  /** What follows the fill and the status leaves both alone and reports later. */
  lemma EntryParts(cfg: Config, b: Book, id: OrderId, answers: seq<LiveRow>, now: Time)
    requires EntryOf(b, id) && EntryOf(LiveFill(b, id, answers, now).0, id) && answers != []
    ensures var (b1, e1) := LiveFill(b, id, answers, now);
            var b2 := LiveStatus(b1, id, answers).0;
            var (b', es) := LiveEntry(cfg, b, id, answers, now);
            && EntryOf(b2, id) && EntryOf(b', id) && SameFill(b2.rows[id], b'.rows[id])
            && SameOrder(b2.rows[id], b'.rows[id])
            && (e1 != [] ==> es != [] && es[0] == e1[0])
  {
    hide LiveFill, LiveStatus, Arm;
    var b1 := LiveFill(b, id, answers, now).0;
    LiveStatusKeepsFill(b1, id, answers);
    var b2 := LiveStatus(b1, id, answers).0;
    if cfg.brackets {
      ArmUntouched(b2, id, DefaultSpec(cfg).value, now, id);
    }
  }

  lemma StatusEnds(b: Book, b1: Book, id: OrderId, answers: seq<LiveRow>, taken: real)
    requires EntryOf(b, id) && EntryOf(b1, id) && !Final(b.rows[id].status)
    requires b1.rows[id].status
             == (if taken > 0.0 then (if b1.rows[id].remaining == 0.0 then Filled else PartiallyFilled)
                 else b.rows[id].status)
    ensures var r, r2 := b.rows[id], LiveStatus(b1, id, answers).0.rows[id];
            && Ends(r, r2.status, taken, r2.remaining, answers)
            && (r2.status == Filled <==> b1.rows[id].status == Filled)
  {}

  lemma LedgerOf(b: Book, id: OrderId)
    requires Inv(b) && id in b.rows
    ensures LedgerOk(b.rows[id])
  {
    hide LedgerOk, LinksOk, Groups, Exclusive, KeysOk;
    assert ShapeOk(b.rows[id]);
  }

  lemma FillStep(b: Book, id: OrderId, answers: seq<LiveRow>, now: Time, total: real, price: real)
    requires EntryOf(b, id) && LedgerOk(b.rows[id])
    requires total == TotalFilled(answers) && price == LastPrice(answers, ActivePrice(b.rows[id]))
    ensures var r, (b', es) := b.rows[id], LiveFill(b, id, answers, now);
            && EntryOf(b', id) && Books(r, b'.rows[id], total, price)
            && b'.rows[id].status
               == (if Min(total - r.filled, r.remaining) > 0.0
                   then (if b'.rows[id].remaining == 0.0 then Filled else PartiallyFilled) else r.status)
            && (total > r.filled ==> |es| == 1 && es[0] == FillEvent(b'.rows[id], price, total - r.filled))
  {
    hide LastPrice, TotalFilled, Round8, NewAverage, LedgerOk, Worth, Mul;
    var r := b.rows[id];
    if total > r.filled {
      FillBooks(r, total, price, now);
      FillKeepsOrder(r, total - r.filled, price, now);
      FillNotArmed(r, total - r.filled, price, now);
    }
  }

  lemma SameBooks(r: Row, o: Row, r': Row, total: real, price: real)
    requires Books(r, o, total, price) && SameLedger(o, r')
    ensures Books(r, r', total, price)
  {
    hide Round8, Mul;
  }

  // ----- on the grid ------------------------------------------------------------------------------

  lemma {:induction false} SumOnGrid(xs: seq<real>)
    requires forall i :: 0 <= i < |xs| ==> OnGrid(xs[i])
    ensures OnGrid(Sum(xs))
  {
    hide OnGrid;
    ZeroOnGrid();
    if xs == [] {
    } else {
      SumOnGrid(xs[..|xs| - 1]);
      GridSum(Sum(xs[..|xs| - 1]), xs[|xs| - 1]);
    }
  }

  lemma GridRemainder(r: Row)
    requires LedgerOk(r) && OnGrid(r.size) && r.remaining > 0.0
    ensures r.remaining == r.size - r.filled
  {
    if r.filled > 0.0 {
      GridRest(r);
    } else {
      Round8Facts(r.size);
      hide Round8;
    }
  }

  /** With the size and the reports in whole units of 1e-8, an open entry holds exactly the smaller of its size and the
      larger of what it held and the sum of the answers. */
  lemma VisitAddsUp(cfg: Config, b: Book, id: OrderId, w: World)
    requires Inv(b) && Asked(cfg, b, id, w) && b.rows[id].remaining > 0.0 && OnGrid(b.rows[id].size)
    requires forall a :: a in w.answers(id) ==> OnGrid(a.filled)
    ensures var r, b' := b.rows[id], PassVisit(cfg, b, id, w).0;
            id in b'.rows && b'.rows[id].filled == Min(r.size, Max(r.filled, Sum(Reported(w.answers(id)))))
  {
    hide Inv, PassVisit, LastPriced, OnGrid, Round8, LedgerOk, Sum;
    var r, answers := b.rows[id], w.answers(id);
    var price := VisitBooks(cfg, b, id, w);
    LedgerOf(b, id);
    GridRemainder(r);
    forall i | 0 <= i < |answers| ensures OnGrid(Reported(answers)[i]) {
      assert answers[i] in answers;
    }
    SumOnGrid(Reported(answers));
    var total := Sum(Reported(answers));
    Round8OfGrid(total);
    Round8OfGrid(r.size);
  }

  // ----- the split does not matter ----------------------------------------------------------------

  lemma {:induction false} SumWithout(xs: seq<real>, i: nat)
    requires i < |xs|
    ensures Sum(xs) == Sum(xs[..i] + xs[i + 1..]) + xs[i]
  {
    var n := |xs| - 1;
    if i == n {
      assert xs[..i] + xs[i + 1..] == xs[..n];
    } else {
      SumWithout(xs[..n], i);
      assert (xs[..i] + xs[i + 1..])[..n - 1] == xs[..n][..i] + xs[..n][i + 1..];
    }
  }

  lemma Without(xs: seq<real>, i: nat)
    requires i < |xs|
    ensures multiset(xs[..i] + xs[i + 1..]) == multiset(xs) - multiset{xs[i]}
  {
    assert xs == xs[..i] + [xs[i]] + xs[i + 1..];
  }

  lemma IndexOf(xs: seq<real>, ys: seq<real>, x: real) returns (i: nat)
    requires multiset(xs) == multiset(ys) && x in xs
    ensures i < |ys| && ys[i] == x
  {
    assert x in multiset(ys);
    i :| i < |ys| && ys[i] == x;
  }

  lemma {:induction false} SumOfPermutation(xs: seq<real>, ys: seq<real>)
    requires multiset(xs) == multiset(ys)
    ensures Sum(xs) == Sum(ys)
    decreases |xs|
  {
    hide Sum;
    assert |xs| == |multiset(xs)| == |multiset(ys)| == |ys|;
    if xs == [] {
    } else {
      var i := IndexOf(xs, ys, xs[0]);
      Without(xs, 0);
      Without(ys, i);
      SumWithout(xs, 0);
      SumWithout(ys, i);
      SumOfPermutation(xs[..0] + xs[1..], ys[..i] + ys[i + 1..]);
    }
  }

  /** Answers that report the same amounts in another order, or the same total split otherwise, leave the same fill, as
      long as their last price is the same. */
  lemma SplitDoesNotMatter(cfg: Config, b: Book, id: OrderId, w: World, v: World)
    requires Inv(b) && Asked(cfg, b, id, w) && Asked(cfg, b, id, v)
    requires multiset(Reported(w.answers(id))) == multiset(Reported(v.answers(id)))
             || Sum(Reported(w.answers(id))) == Sum(Reported(v.answers(id)))
    requires forall x, y :: LastPriced(w.answers(id), b.rows[id], x) && LastPriced(v.answers(id), b.rows[id], y)
               ==> x == y
    ensures var r, s := PassVisit(cfg, b, id, w).0.rows, PassVisit(cfg, b, id, v).0.rows;
            && id in r && id in s
            && r[id].filled == s[id].filled && r[id].average == s[id].average
  {
    hide Inv, PassVisit, LastPriced, Round8, Sum, Reported;
    if multiset(Reported(w.answers(id))) == multiset(Reported(v.answers(id))) {
      SumOfPermutation(Reported(w.answers(id)), Reported(v.answers(id)));
    }
    LedgerOf(b, id);
    var x := VisitBooks(cfg, b, id, w);
    var y := VisitBooks(cfg, b, id, v);
    OneBooking(b.rows[id], PassVisit(cfg, b, id, w).0.rows[id], PassVisit(cfg, b, id, v).0.rows[id],
               Sum(Reported(w.answers(id))), x);
  }

  lemma OneBooking(r: Row, o: Row, o': Row, total: real, price: real)
    requires LedgerOk(r) && Books(r, o, total, price) && Books(r, o', total, price)
    ensures o.filled == o'.filled && o.average == o'.average
  {
    LedgerAverage(r);
    hide LedgerOk, Round8, Mul, Worth;
    var taken := Min(total - r.filled, r.remaining);
    if taken > 0.0 {
      var a, a' := o.average.value, o'.average.value;
      MulStrict(a, a', r.filled + taken);
      MulStrict(a', a, r.filled + taken);
    }
  }

  // ----- without reconciliation -------------------------------------------------------------------

  /** An action leaves a live entry's fill alone unless its answers are reconciled. */
  lemma UnmanagedStep(cfg: Config, b: Book, a: Action, p: OrderId)
    requires Inv(b) && p in b.rows && b.rows[p].kind == Entry && !b.rows[p].isPaper
    requires !(cfg.liveReconcile && cfg.hasClob)
    ensures var b' := Step(cfg, b, a).0;
            p in b'.rows && SameOrder(b.rows[p], b'.rows[p]) && SameLedger(b.rows[p], b'.rows[p])
  {
    hide Inv, StepOn, PlaceEntry, ClosePosition, CancelOrder;
    EntryFacts(b, p);
    if !About(a, p) {
      OthersLeaveAlone(cfg, b, a, p);
    } else if a.Cancel? {
      CancelKeepsFill(cfg, b, p, a.exchangeOk);
    } else {
      UnmanagedTouch(cfg, b, p, a.touch);
    }
  }

  lemma UnmanagedTouch(cfg: Config, b: Book, p: OrderId, t: Touch)
    requires EntryOf(b, p) && !b.rows[p].isPaper && !(cfg.liveReconcile && cfg.hasClob)
    ensures var b' := StepOn(cfg, b, p, t).0;
            p in b'.rows && SameOrder(b.rows[p], b'.rows[p]) && SameLedger(b.rows[p], b'.rows[p])
  {
    hide Rearm;
    match t
    case Visit(_, now) => RearmUntouched(cfg, b, p, now, p);
    case _ =>
  }

  /** Without reconciliation, or without an exchange, no run ever fills a live entry. */
  lemma {:induction false} UnmanagedNeverFills(cfg: Config, b: Book, actions: seq<Action>, p: OrderId)
    requires Inv(b) && p in b.rows && b.rows[p].kind == Entry && !b.rows[p].isPaper
    requires !(cfg.liveReconcile && cfg.hasClob)
    ensures var b' := Run(cfg, b, actions).0;
            p in b'.rows && SameOrder(b.rows[p], b'.rows[p]) && SameLedger(b.rows[p], b'.rows[p])
  {
    hide Inv, Step, Moves;
    if actions == [] {
    } else {
      var init, last := actions[..|actions| - 1], actions[|actions| - 1];
      UnmanagedNeverFills(cfg, b, init, p);
      RunMoves(cfg, b, init);
      UnmanagedStep(cfg, Run(cfg, b, init).0, last, p);
    }
  }
}
