/** The sizing loop of a trading cycle and the bankroll accounting around it, over any number of cycles with positions
    closed in between. */
module Portfolio {
  import opened Rounding
  import opened Products
  import opened Sums
  import opened Sizer

  datatype Account = Account(bankroll: real, positions: seq<Position>)

  /** What placing an order came to: no order, an order that rests, or one that filled at once. */
  datatype Outcome = Refused | Resting | Filled

  /** One opportunity with the drawdown multiplier of its cycle and the outcome of its order. */
  datatype Opportunity = Opportunity(edge: Edge, multiplier: real, outcome: Outcome)

  /** Sizing, recording the placed order, and the deduction of its cost if it filled. */
  function Place(cfg: Config, a: Account, o: Opportunity): Account {
    var s := Size(cfg, a.bankroll, o.edge, a.positions, o.multiplier);
    if s <= 0.0 || o.outcome == Refused then a
    else Account(if o.outcome == Filled then Max(0.0, a.bankroll - s) else a.bankroll,
                 a.positions + [Position(s, o.edge.category)])
  }

  function PlaceAll(cfg: Config, a: Account, os: seq<Opportunity>): Account {
    if os == [] then a else Place(cfg, PlaceAll(cfg, a, os[..|os| - 1]), os[|os| - 1])
  }

  /** The recomputation at the end of a cycle: the initial bankroll and realised P&L, less open capital. */
  function Recompute(initial: real, realised: real, a: Account): Account {
    a.(bankroll := Max(0.0, initial + realised - Held(a.positions)))
  }

  /** At most five opportunities are tried in a cycle. */
  function Tried(os: seq<Opportunity>, topN: nat): seq<Opportunity> {
    os[..LeastOf([5, topN, |os|])]
  }

  class Trader {
    const cfg: Config
    const initial: real
    var bankroll: real
    var positions: seq<Position>

    constructor (cfg: Config, initial: real)
      ensures this.cfg == cfg && this.initial == initial && bankroll == initial && positions == []
    {
      this.cfg, this.initial, bankroll, positions := cfg, initial, initial, [];
    }

    /** The execution loop of `run_cycle` and the recomputation after it. */
    method RunCycle(os: seq<Opportunity>, topN: nat, realised: real) returns (placed: nat)
      modifies this`bankroll, this`positions
      ensures Account(bankroll, positions)
              == Recompute(initial, realised, PlaceAll(cfg, old(Account(bankroll, positions)), Tried(os, topN)))
      ensures placed == |positions| - |old(positions)| && placed <= 5 && placed <= topN
    {
      hide Size, PlaceAll, Held;
      var n := LeastOf([5, topN, |os|]);
      assert 5 in [5, topN, |os|] && topN in [5, topN, |os|];
      ghost var start := Account(bankroll, positions);
      placed := 0;
      NothingPlaced(cfg, start, os);
      for i := 0 to n
        invariant Account(bankroll, positions) == PlaceAll(cfg, start, os[..i])
        invariant placed == |positions| - |old(positions)| && placed <= i
      {
        PlaceAllSnoc(cfg, start, os, i);
        var size := Size(cfg, bankroll, os[i].edge, positions, os[i].multiplier);
        if size <= 0.0 {
          continue;
        }
        if os[i].outcome != Refused {
          positions := positions + [Position(size, os[i].edge.category)];
          if os[i].outcome == Filled {
            bankroll := Max(0.0, bankroll - size);
          }
          placed := placed + 1;
        }
      }
      var open := OpenCapital(positions);
      bankroll := Max(0.0, initial + realised - open);
    }
  }

  lemma NothingPlaced(cfg: Config, a: Account, os: seq<Opportunity>)
    ensures PlaceAll(cfg, a, os[..0]) == a
  {}

  lemma PlaceAllSnoc(cfg: Config, a: Account, os: seq<Opportunity>, i: nat)
    requires i < |os|
    ensures PlaceAll(cfg, a, os[..i + 1]) == Place(cfg, PlaceAll(cfg, a, os[..i]), os[i])
  {
    hide Place;
    assert os[..i + 1][..i] == os[..i];
  }

  method OpenCapital(ps: seq<Position>) returns (open: real)
    ensures open == Held(ps)
  {
    open := 0.0;
    for i := 0 to |ps|
      invariant open == Held(ps[..i])
    {
      assert ps[..i + 1][..i] == ps[..i];
      open := open + ps[i].size;
    }
    assert ps[..|ps|] == ps;
  }

  function LeastOf(xs: seq<nat>): (m: nat)
    requires xs != []
    ensures m in xs && forall x :: x in xs ==> m <= x
  {
    if |xs| == 1 then xs[0]
    else
      var m := LeastOf(xs[..|xs| - 1]);
      assert xs == xs[..|xs| - 1] + [xs[|xs| - 1]];
      if m <= xs[|xs| - 1] then m else xs[|xs| - 1]
  }

  const HALF_CENT := 0.005

  /** What the open size adds up to, together with the cash. */
  function Equity(a: Account): real {
    a.bankroll + Held(a.positions)
  }

  /** Open size within a share of the equity, up to half a cent. */
  ghost predicate Within(held: real, share: real, equity: real) {
    held == 0.0 || (share > 0.0 && held <= Mul(share, equity) + HALF_CENT)
  }

  ghost predicate Positive(ps: seq<Position>) {
    forall p :: p in ps ==> p.size > 0.0
  }

  /** The limits of an account that has never been worth more than `top`: the cash is no more, open size and category
      exposure are within their share of it, and the counts within theirs. */
  ghost predicate Limits(cfg: Config, top: real, a: Account) {
    && 0.0 <= a.bankroll <= top && Positive(a.positions)
    && Within(Held(a.positions), cfg.maxPortfolioPct, top)
    && |a.positions| <= AtLeastZero(cfg.maxPositions)
    && forall c :: CategoryLimits(cfg, top, a, c)
  }

  ghost predicate CategoryLimits(cfg: Config, top: real, a: Account, c: string) {
    && Within(Held(InCategory(a.positions, c)), cfg.maxCategoryPct, top)
    && |InCategory(a.positions, c)| <= AtLeastZero(cfg.maxPerCategory)
  }

  function AtLeastZero(n: int): nat {
    if n >= 0 then n else 0
  }

  /** A positive size fits every limit, up to half a cent of rounding: both remaining capacities, the share of one trade
      and the single-loss cap. */
  lemma SizeFits(cfg: Config, bankroll: real, e: Edge, ps: seq<Position>, multiplier: real)
    requires 0.0 <= multiplier <= 1.0 && Size(cfg, bankroll, e, ps, multiplier) > 0.0
    requires Held(ps) >= 0.0 && Held(InCategory(ps, e.category)) >= 0.0
    ensures var s := Size(cfg, bankroll, e, ps, multiplier);
            && Room(cfg, e.category, ps)
            && Held(ps) + s <= Mul(cfg.maxPortfolioPct, bankroll) + HALF_CENT
            && Mul(cfg.maxPortfolioPct, bankroll) > 0.0
            && Held(InCategory(ps, e.category)) + s <= Mul(cfg.maxCategoryPct, bankroll) + HALF_CENT
            && Mul(cfg.maxCategoryPct, bankroll) > 0.0
            && s <= Mul(cfg.maxPositionPct, bankroll) + HALF_CENT
            && (cfg.maxSingleLoss.Some? ==> s <= cfg.maxSingleLoss.value + HALF_CENT)
  {
    hide Room, Kelly, Scale;
    var k := Kelly(cfg, e);
    var raw := Mul(k.value, Scale(cfg, bankroll, e));
    var x := Capped(cfg, bankroll, e.category, ps, raw);
    FinalFits(x, multiplier);
    CapsFit(cfg, bankroll, e.category, ps, raw);
    hide Mul, Capped, Final;
  }

  lemma CapsFit(cfg: Config, bankroll: real, category: string, ps: seq<Position>, raw: real)
    requires Capped(cfg, bankroll, category, ps, raw) > 0.0
    ensures Capped(cfg, bankroll, category, ps, raw) <= Mul(cfg.maxPortfolioPct, bankroll) - Held(ps)
    ensures Capped(cfg, bankroll, category, ps, raw)
            <= Mul(cfg.maxCategoryPct, bankroll) - Held(InCategory(ps, category))
    ensures Capped(cfg, bankroll, category, ps, raw) <= Mul(cfg.maxPositionPct, bankroll)
    ensures cfg.maxSingleLoss.Some? ==> Capped(cfg, bankroll, category, ps, raw) <= cfg.maxSingleLoss.value
  {
    hide Mul, Held, InCategory;
    MulSymmetric(bankroll, cfg.maxPositionPct);
    MulSymmetric(bankroll, cfg.maxPortfolioPct);
    MulSymmetric(bankroll, cfg.maxCategoryPct);
  }

  lemma FinalFits(x: real, multiplier: real)
    requires 0.0 <= multiplier <= 1.0 && Final(x, multiplier) > 0.0
    ensures x > 0.0 && Final(x, multiplier) <= x + HALF_CENT
  {
    var y := Mul(x, multiplier);
    MulSigns(x, multiplier);
    if x > 0.0 {
      MulMonotone(multiplier, 1.0, x);
      MulSymmetric(multiplier, x);
      MulUnits(x);
    }
    RoundNear(y * 100.0);
    assert RoundTo(y, 100.0) <= y + HALF_CENT;
    hide Mul;
  }

  lemma HeldAppend(ps: seq<Position>, p: Position)
    ensures Held(ps + [p]) == Held(ps) + p.size
    ensures forall c :: InCategory(ps + [p], c) == InCategory(ps, c) + (if p.category == c then [p] else [])
    ensures forall c ::
              Held(InCategory(ps + [p], c)) == Held(InCategory(ps, c)) + (if p.category == c then p.size else 0.0)
  {
    assert (ps + [p])[..|ps|] == ps;
    forall c
      ensures Held(InCategory(ps + [p], c)) == Held(InCategory(ps, c)) + (if p.category == c then p.size else 0.0)
    {
      if p.category == c {
        assert (InCategory(ps, c) + [p])[..|InCategory(ps, c)|] == InCategory(ps, c);
      } else {
        assert InCategory(ps + [p], c) == InCategory(ps, c);
      }
    }
  }

  /** A bound met at some bankroll stays met when the equity is at least that. */
  lemma WithinGrows(held: real, share: real, bankroll: real, equity: real)
    requires bankroll >= 0.0 && equity >= bankroll && Mul(share, bankroll) > 0.0
             && held <= Mul(share, bankroll) + HALF_CENT
    ensures Within(held, share, equity)
  {
    MulSigns(-share, bankroll);
    MulNegative(share, bankroll);
    MulMonotone(bankroll, equity, Max(share, 0.0));
    MulSymmetric(share, bankroll);
    MulSymmetric(share, equity);
    hide Mul;
  }

  lemma WithinKeeps(held: real, share: real, equity: real, larger: real)
    requires Within(held, share, equity) && equity <= larger
    ensures Within(held, share, larger)
  {
    if held != 0.0 {
      MulMonotone(equity, larger, share);
      MulSymmetric(share, equity);
      MulSymmetric(share, larger);
    }
    hide Mul;
  }

  lemma {:induction false} HeldPositive(ps: seq<Position>, c: string)
    requires Positive(ps)
    ensures 0.0 <= Held(InCategory(ps, c)) <= Held(ps)
  {
    if ps == [] {
    } else {
      var n := |ps| - 1;
      HeldPositive(ps[..n], c);
      assert ps == ps[..n] + [ps[n]];
      HeldAppend(ps[..n], ps[n]);
    }
  }

  lemma PlaceKeepsLimits(cfg: Config, top: real, a: Account, o: Opportunity)
    requires Limits(cfg, top, a) && 0.0 <= o.multiplier <= 1.0
    ensures Limits(cfg, top, Place(cfg, a, o)) && Equity(Place(cfg, a, o)) >= Equity(a)
  {
    hide Size, Within, Mul;
    var s, c := Size(cfg, a.bankroll, o.edge, a.positions, o.multiplier), o.edge.category;
    if s > 0.0 && o.outcome != Refused {
      assert CategoryLimits(cfg, top, a, c);
      HeldPositive(a.positions, c);
      SizeFits(cfg, a.bankroll, o.edge, a.positions, o.multiplier);
      var a' := Place(cfg, a, o);
      HeldAppend(a.positions, Position(s, c));
      hide Held, InCategory;
      WithinGrows(Held(a'.positions), cfg.maxPortfolioPct, a.bankroll, top);
      WithinGrows(Held(InCategory(a'.positions, c)), cfg.maxCategoryPct, a.bankroll, top);
      forall d ensures CategoryLimits(cfg, top, a', d) {
        assert CategoryLimits(cfg, top, a, d);
      }
    }
  }

  lemma {:induction false} PlaceAllKeepsLimits(cfg: Config, top: real, a: Account, os: seq<Opportunity>)
    requires Limits(cfg, top, a) && Fractions(os)
    ensures Limits(cfg, top, PlaceAll(cfg, a, os)) && Equity(PlaceAll(cfg, a, os)) >= Equity(a)
  {
    hide Limits, Place, Equity;
    if os == [] {
    } else {
      var init, last := os[..|os| - 1], os[|os| - 1];
      assert last in os;
      PlaceAllKeepsLimits(cfg, top, a, init);
      PlaceKeepsLimits(cfg, top, PlaceAll(cfg, a, init), last);
    }
  }

  ghost predicate Fractions(os: seq<Opportunity>) {
    forall o :: o in os ==> 0.0 <= o.multiplier <= 1.0
  }

  // ----- days of trading ------------------------------------------------------------------------

  /** A position that is closed, by its place in the list, and what it earned. */
  datatype Closing = Closing(index: nat, pnl: real)

  /** What closes after one cycle and before the next, and the opportunities of that next cycle. */
  datatype Day = Day(closes: seq<Closing>, os: seq<Opportunity>)

  /** The account with what has been realised and the sizes that have been closed. */
  datatype Ledger = Ledger(account: Account, realised: real, closed: seq<real>)

  function CloseOne(l: Ledger, c: Closing): Ledger {
    var ps := l.account.positions;
    if c.index >= |ps| then l
    else Ledger(l.account.(positions := ps[..c.index] + ps[c.index + 1..]), l.realised + c.pnl,
                l.closed + [ps[c.index].size])
  }

  function CloseAll(l: Ledger, cs: seq<Closing>): Ledger {
    if cs == [] then l else CloseOne(CloseAll(l, cs[..|cs| - 1]), cs[|cs| - 1])
  }

  /** A day: the closes leave the cash as it is, which the end of the cycle makes good. */
  function Trade(cfg: Config, initial: real, l: Ledger, d: Day): Ledger {
    var m := CloseAll(l, d.closes);
    m.(account := Recompute(initial, m.realised, PlaceAll(cfg, m.account, d.os)))
  }

  function Days(cfg: Config, initial: real, days: seq<Day>): Ledger {
    if days == [] then Ledger(Account(initial, []), 0.0, [])
    else Trade(cfg, initial, Days(cfg, initial, days[..|days| - 1]), days[|days| - 1])
  }

  /** The most the account has been worth at the end of any cycle. */
  ghost function Top(cfg: Config, initial: real, days: seq<Day>): real {
    if days == [] then initial
    else Max(Top(cfg, initial, days[..|days| - 1]), initial + Days(cfg, initial, days).realised)
  }

  lemma {:induction false} HeldWithout(ps: seq<Position>, i: nat)
    requires i < |ps|
    ensures Held(ps[..i] + ps[i + 1..]) == Held(ps) - ps[i].size
    ensures forall c ::
              && |InCategory(ps[..i] + ps[i + 1..], c)| <= |InCategory(ps, c)|
              && Held(InCategory(ps[..i] + ps[i + 1..], c))
                 == Held(InCategory(ps, c)) - (if ps[i].category == c then ps[i].size else 0.0)
  {
    var n := |ps| - 1;
    var rest := ps[..i] + ps[i + 1..];
    assert ps == ps[..n] + [ps[n]];
    HeldAppend(ps[..n], ps[n]);
    if i == n {
      assert rest == ps[..n];
    } else {
      HeldWithout(ps[..n], i);
      var less := ps[..n][..i] + ps[..n][i + 1..];
      assert rest == less + [ps[n]];
      HeldAppend(less, ps[n]);
    }
    hide Held, InCategory;
  }

  lemma CloseKeepsLimits(cfg: Config, top: real, l: Ledger, c: Closing)
    requires Limits(cfg, top, l.account)
    ensures Limits(cfg, top, CloseOne(l, c).account) && CloseOne(l, c).account.bankroll == l.account.bankroll
  {
    hide Within;
    var a, a' := l.account, CloseOne(l, c).account;
    if c.index < |a.positions| {
      var p := a.positions[c.index];
      HeldWithout(a.positions, c.index);
      assert Positive(a'.positions);
      HeldPositive(a'.positions, "");
      WithinLess(Held(a'.positions), Held(a.positions), cfg.maxPortfolioPct, top);
      forall d ensures CategoryLimits(cfg, top, a', d) {
        assert CategoryLimits(cfg, top, a, d);
        HeldPositive(a'.positions, d);
        assert p in a.positions;
        WithinLess(Held(InCategory(a'.positions, d)), Held(InCategory(a.positions, d)), cfg.maxCategoryPct, top);
      }
      hide Held, InCategory;
    }
  }

  lemma WithinLess(less: real, held: real, share: real, top: real)
    requires 0.0 <= less <= held && Within(held, share, top)
    ensures Within(less, share, top)
  {}

  lemma {:induction false} ClosesKeepLimits(cfg: Config, top: real, l: Ledger, cs: seq<Closing>)
    requires Limits(cfg, top, l.account)
    ensures Limits(cfg, top, CloseAll(l, cs).account)
  {
    hide Limits, CloseOne;
    if cs == [] {
    } else {
      ClosesKeepLimits(cfg, top, l, cs[..|cs| - 1]);
      CloseKeepsLimits(cfg, top, CloseAll(l, cs[..|cs| - 1]), cs[|cs| - 1]);
    }
  }

  lemma HigherTop(cfg: Config, top: real, higher: real, a: Account, bankroll: real)
    requires Limits(cfg, top, a) && 0.0 <= bankroll <= higher && top <= higher
    ensures Limits(cfg, higher, a.(bankroll := bankroll))
  {
    hide Within, Held, InCategory;
    var a' := a.(bankroll := bankroll);
    WithinKeeps(Held(a.positions), cfg.maxPortfolioPct, top, higher);
    forall c ensures CategoryLimits(cfg, higher, a', c) {
      assert CategoryLimits(cfg, top, a, c);
      WithinKeeps(Held(InCategory(a.positions, c)), cfg.maxCategoryPct, top, higher);
    }
  }

  lemma FlatWithin(cfg: Config, initial: real)
    requires initial >= 0.0
    ensures Limits(cfg, initial, Account(initial, []))
  {}

  lemma {:induction false} DaysKeepLimits(cfg: Config, initial: real, days: seq<Day>)
    requires initial >= 0.0 && forall d :: d in days ==> Fractions(d.os)
    ensures Limits(cfg, Top(cfg, initial, days), Days(cfg, initial, days).account)
  {
    hide Limits, PlaceAll, CloseAll, Fractions;
    if days == [] {
      FlatWithin(cfg, initial);
    } else {
      var init, last := days[..|days| - 1], days[|days| - 1];
      assert last in days;
      var l, top := Days(cfg, initial, init), Top(cfg, initial, init);
      DaysKeepLimits(cfg, initial, init);
      ClosesKeepLimits(cfg, top, l, last.closes);
      var m := CloseAll(l, last.closes);
      PlaceAllKeepsLimits(cfg, top, m.account, last.os);
      var a := PlaceAll(cfg, m.account, last.os);
      NeverNegative(cfg, top, a);
      HigherTop(cfg, top, Top(cfg, initial, days), a, Recompute(initial, m.realised, a).bankroll);
    }
  }

  lemma NeverNegative(cfg: Config, top: real, a: Account)
    requires Limits(cfg, top, a)
    ensures top >= 0.0 && Held(a.positions) >= 0.0
  {
    HeldPositive(a.positions, "");
  }

  /** Starting flat, in the middle of any cycle after any number of others, with any closes in between and whatever
      became of each order: open size and every category's exposure stay within their share of the most the account
      has been worth, up to half a cent in all, the slack never adding up; the position counts stay within theirs.
      With no closes since the last cycle cash plus open size is no less than what the account was worth then. */
  lemma PlacementsKeepLimits(cfg: Config, initial: real, days: seq<Day>, day: Day)
    requires initial >= 0.0 && Fractions(day.os) && forall d :: d in days ==> Fractions(d.os)
    ensures var l := Days(cfg, initial, days);
            var a := PlaceAll(cfg, CloseAll(l, day.closes).account, day.os);
            && Limits(cfg, Top(cfg, initial, days), a)
            && (day.closes == [] ==> Equity(a) >= initial + l.realised)
  {
    hide Limits, PlaceAll, CloseAll, Fractions;
    var l, top := Days(cfg, initial, days), Top(cfg, initial, days);
    DaysKeepLimits(cfg, initial, days);
    ClosesKeepLimits(cfg, top, l, day.closes);
    PlaceAllKeepsLimits(cfg, top, CloseAll(l, day.closes).account, day.os);
    if day.closes == [] {
      NothingClosed(l);
    }
  }

  lemma NothingClosed(l: Ledger)
    ensures CloseAll(l, []) == l
  {}

  // ----- conservation ---------------------------------------------------------------------------

  lemma HeldSizes(ps: seq<Position>, sizes: seq<real>, p: Position)
    ensures Held(ps + [p]) == Held(ps) + p.size && Sum(sizes + [p.size]) == Sum(sizes) + p.size
  {
    assert (ps + [p])[..|ps|] == ps && (sizes + [p.size])[..|sizes|] == sizes;
  }

  lemma {:induction false} ClosingsConserve(l: Ledger, cs: seq<Closing>)
    ensures var m := CloseAll(l, cs);
            Held(m.account.positions) + Sum(m.closed) == Held(l.account.positions) + Sum(l.closed)
    ensures CloseAll(l, cs).account.bankroll == l.account.bankroll
  {
    hide Held, Sum;
    if cs == [] {
    } else {
      var m, c := CloseAll(l, cs[..|cs| - 1]), cs[|cs| - 1];
      ClosingsConserve(l, cs[..|cs| - 1]);
      var ps := m.account.positions;
      if c.index < |ps| {
        HeldWithout(ps, c.index);
        HeldSizes([], m.closed, ps[c.index]);
      }
    }
  }

  /** What the orders of all days have cost. */
  ghost function Spent(cfg: Config, initial: real, days: seq<Day>): real {
    if days == [] then 0.0
    else
      var m := CloseAll(Days(cfg, initial, days[..|days| - 1]), days[|days| - 1].closes);
      Spent(cfg, initial, days[..|days| - 1])
      + Held(PlaceAll(cfg, m.account, days[|days| - 1].os).positions) - Held(m.account.positions)
  }

  /** At the end of every cycle, whatever has been closed at whatever P&L: cash plus open size is the initial bankroll
      plus what was realised, unless more than that is open, and then there is no cash. And every size that was paid
      for is either still open or has been closed. */
  lemma {:induction false} TradingConserves(cfg: Config, initial: real, days: seq<Day>)
    requires initial >= 0.0
    ensures var l := Days(cfg, initial, days);
            var open := Sum(Sizes(l.account.positions));
            && (open <= initial + l.realised ==> l.account.bankroll + open == initial + l.realised)
            && (open >= initial + l.realised ==> l.account.bankroll == 0.0)
            && Spent(cfg, initial, days) == open + Sum(l.closed)
  {
    hide Held, PlaceAll, CloseAll;
    HeldIsSum(Days(cfg, initial, days).account.positions);
    if days == [] {
    } else {
      var init, last := days[..|days| - 1], days[|days| - 1];
      TradingConserves(cfg, initial, init);
      HeldIsSum(Days(cfg, initial, init).account.positions);
      ClosingsConserve(Days(cfg, initial, init), last.closes);
      hide Sum, Sizes;
    }
  }

  /** While every order is refused or fills at once, the running deductions already are what the end of the cycle
      recomputes: with nothing closed meanwhile the recomputation changes nothing. */
  lemma {:induction false} RecomputeIsIdle(cfg: Config, initial: real, realised: real, a: Account,
                                           os: seq<Opportunity>)
    requires a == Recompute(initial, realised, a) && forall i :: 0 <= i < |os| ==> os[i].outcome != Resting
    ensures PlaceAll(cfg, a, os) == Recompute(initial, realised, PlaceAll(cfg, a, os))
  {
    hide Size;
    if os == [] {
    } else {
      var init, o := os[..|os| - 1], os[|os| - 1];
      RecomputeIsIdle(cfg, initial, realised, a, init);
      var b := PlaceAll(cfg, a, init);
      HeldAppend(b.positions, Position(Size(cfg, b.bankroll, o.edge, b.positions, o.multiplier), o.edge.category));
      hide Held;
    }
  }
}
