/** Cross-market signals: one market at a time, and for all markets at once with every history loaded once.
    Histories and correlation are parameters; no call raises. */
module CrossSignals {
  import opened Rounding
  import opened Options
  import opened StableSort

  datatype Market = Market(id: string, category: string)

  datatype Signal = Signal(id: string, change: real, correlation: real)

  /** The history store (midpoints, oldest first) and the correlation of two equally long series, which
      may be undefined (NaN). */
  datatype Store = Store(load: string -> Option<seq<real>>, correlate: (seq<real>, seq<real>) -> Option<real>)

  /** The history of a market, unless it is missing or empty. */
  function History(s: Store, id: string): Option<seq<real>> {
    var h := s.load(id);
    if h.Some? && h.value != [] then h else None
  }

  function Suffix(xs: seq<real>, n: nat): seq<real>
    requires n <= |xs|
  {
    xs[|xs| - n..]
  }

  function DayChange(prices: seq<real>): real {
    if |prices| >= 2 then prices[|prices| - 1] - prices[|prices| - (if |prices| < 24 then |prices| else 24)] else 0.0
  }

  /** What market `other` contributes to a market with prices `ours`: nothing or one signal. */
  function Contribution(s: Store, ours: seq<real>, other: Market): seq<Signal> {
    var h := History(s, other.id);
    if h.None? then []
    else
      var theirs := h.value;
      var n := if |ours| <= |theirs| then |ours| else |theirs|;
      if n < 5 then []
      else
        var c := s.correlate(Suffix(ours, n), Suffix(theirs, n));
        if c.None? then [] else [Signal(other.id, DayChange(theirs), c.value)]
  }

  function Collected(s: Store, ours: seq<real>, others: seq<Market>): seq<Signal> {
    if others == [] then []
    else Collected(s, ours, others[..|others| - 1]) + Contribution(s, ours, others[|others| - 1])
  }

  lemma NothingCollected(s: Store, ours: seq<real>)
    ensures Collected(s, ours, []) == []
  {}

  lemma CollectedSnoc(s: Store, ours: seq<real>, others: seq<Market>, o: Market)
    ensures Collected(s, ours, others + [o]) == Collected(s, ours, others) + Contribution(s, ours, o)
  {
    hide Contribution;
    assert (others + [o])[..|others|] == others;
  }

  function Strength(): Signal -> real {
    (x: Signal) => -Abs(x.correlation)
  }

  /** The five strongest, strongest first, ties in input order. */
  function TopFive(xs: seq<Signal>): seq<Signal> {
    var sorted := Sort(xs, Strength());
    if |sorted| <= 5 then sorted else sorted[..5]
  }

  function Peers(all: seq<Market>, m: Market): seq<Market> {
    if all == [] then []
    else
      var last := all[|all| - 1];
      Peers(all[..|all| - 1], m) + (if last.category == m.category && last.id != m.id then [last] else [])
  }

  /** What `get_cross_market_signals` returns for `m`. */
  function Signals(s: Store, all: seq<Market>, m: Market): seq<Signal> {
    var ours := History(s, m.id);
    if ours.None? then [] else TopFive(Collected(s, ours.value, Peers(all, m)))
  }

  // ----- one market -----------------------------------------------------------------------------

  method GetCrossMarketSignals(s: Store, market: Market, all: seq<Market>) returns (r: seq<Signal>)
    ensures r == Signals(s, all, market)
  {
    hide Collected, Sort, Contribution;
    var sameCategory: seq<Market> := [];
    for i := 0 to |all|
      invariant sameCategory == Peers(all[..i], market)
    {
      assert all[..i + 1][..i] == all[..i];
      if all[i].category == market.category && all[i].id != market.id {
        sameCategory := sameCategory + [all[i]];
      }
    }
    assert all[..|all|] == all;
    var ours := s.load(market.id);
    if ours.None? || ours.value == [] {
      return [];
    }
    var results := SignalsOfPeers(s, ours.value, sameCategory);
    var sorted := Sort(results, Strength());
    r := if |sorted| <= 5 then sorted else sorted[..5];
  }

  /** The correlation loop over the markets of the same category. */
  method SignalsOfPeers(s: Store, ours: seq<real>, sameCategory: seq<Market>) returns (results: seq<Signal>)
    ensures results == Collected(s, ours, sameCategory)
  {
    results := [];
    NothingCollected(s, ours);
    hide Collected;
    for i := 0 to |sameCategory|
      invariant results == Collected(s, ours, sameCategory[..i])
    {
      CollectedSnoc(s, ours, sameCategory[..i], sameCategory[i]);
      assert sameCategory[..i + 1] == sameCategory[..i] + [sameCategory[i]];
      var theirs := s.load(sameCategory[i].id);
      if theirs.None? || theirs.value == [] {
        continue;
      }
      var n := if |ours| <= |theirs.value| then |ours| else |theirs.value|;
      if n < 5 {
        continue;
      }
      var c := s.correlate(Suffix(ours, n), Suffix(theirs.value, n));
      if c.None? {
        continue;
      }
      results := results + [Signal(sameCategory[i].id, DayChange(theirs.value), c.value)];
    }
    assert sameCategory[..|sameCategory|] == sameCategory;
  }

  // ----- all markets at once --------------------------------------------------------------------

  ghost predicate DistinctIds(markets: seq<Market>) {
    forall i, j :: 0 <= i < j < |markets| ==> markets[i].id != markets[j].id
  }

  function InCategory(all: seq<Market>, category: string): seq<Market> {
    if all == [] then []
    else
      var last := all[|all| - 1];
      InCategory(all[..|all| - 1], category) + (if last.category == category then [last] else [])
  }

  /** The signals the inner loop collects over one category, passing over the market itself. */
  function CollectedSkipping(s: Store, ours: seq<real>, group: seq<Market>, id: string): seq<Signal> {
    if group == [] then []
    else
      var last := group[|group| - 1];
      CollectedSkipping(s, ours, group[..|group| - 1], id) + (if last.id == id then [] else Contribution(s, ours, last))
  }

  lemma SkippingSnoc(s: Store, ours: seq<real>, group: seq<Market>, o: Market, id: string)
    ensures CollectedSkipping(s, ours, group + [o], id)
            == CollectedSkipping(s, ours, group, id) + (if o.id == id then [] else Contribution(s, ours, o))
  {
    hide Contribution;
    assert (group + [o])[..|group|] == group;
  }

  /** Collecting over the category and skipping oneself is collecting over the peers. */
  lemma {:induction false} GroupIsPeers(s: Store, ours: seq<real>, all: seq<Market>, m: Market)
    ensures CollectedSkipping(s, ours, InCategory(all, m.category), m.id) == Collected(s, ours, Peers(all, m))
  {
    if all == [] {
    } else {
      var init, last := all[..|all| - 1], all[|all| - 1];
      GroupIsPeers(s, ours, init, m);
      hide Contribution;
      if last.category == m.category {
        SkippingSnoc(s, ours, InCategory(init, m.category), last, m.id);
        if last.id == m.id {
          assert Peers(all, m) == Peers(init, m);
        } else {
          assert Peers(all, m) == Peers(init, m) + [last];
          CollectedSnoc(s, ours, Peers(init, m), last);
        }
      } else {
        assert InCategory(all, m.category) == InCategory(init, m.category) && Peers(all, m) == Peers(init, m);
      }
    }
  }

  lemma {:induction false} InCategoryMembers(all: seq<Market>, category: string)
    ensures forall m :: m in InCategory(all, category) <==> m in all && m.category == category
  {
    if all == [] {
    } else {
      var init, last := all[..|all| - 1], all[|all| - 1];
      InCategoryMembers(init, category);
      assert forall m :: m in all <==> m in init || m == last;
    }
  }

  /** Loads every usable history once. */
  method LoadHistories(s: Store, markets: seq<Market>) returns (histories: map<string, seq<real>>)
    ensures forall m :: m in markets ==> (m.id in histories <==> History(s, m.id).Some?)
    ensures forall id :: id in histories ==> History(s, id) == Some(histories[id])
  {
    histories := map[];
    for i := 0 to |markets|
      invariant forall j :: 0 <= j < i ==> (markets[j].id in histories <==> History(s, markets[j].id).Some?)
      invariant forall id :: id in histories ==> History(s, id) == Some(histories[id])
    {
      var h := s.load(markets[i].id);
      if h.Some? && h.value != [] {
        histories := histories[markets[i].id := h.value];
      }
    }
  }

  /** Every category that occurs is a key, in the order list and in the dictionary, with its markets. */
  ghost predicate Grouping(markets: seq<Market>, order: seq<string>, groups: map<string, seq<Market>>) {
    && (forall c :: c in groups ==> groups[c] == InCategory(markets, c))
    && (forall c :: c !in groups ==> InCategory(markets, c) == [])
    && (forall m :: m in markets ==> m.category in groups)
    && (forall c :: c in order <==> c in groups)
  }

  lemma InCategorySnoc(markets: seq<Market>, m: Market, c: string)
    ensures InCategory(markets + [m], c)
            == if m.category == c then InCategory(markets, c) + [m] else InCategory(markets, c)
  {
    assert (markets + [m])[..|markets|] == markets;
  }

  lemma GroupingSnoc(markets: seq<Market>, m: Market, order: seq<string>, groups: map<string, seq<Market>>)
    requires Grouping(markets, order, groups)
    ensures var c := m.category;
            Grouping(markets + [m], if c in groups then order else order + [c],
                     groups[c := (if c in groups then groups[c] else []) + [m]])
  {
    hide InCategory;
    var k := m.category;
    var order' := if k in groups then order else order + [k];
    var groups' := groups[k := (if k in groups then groups[k] else []) + [m]];
    forall c ensures (if c in groups' then groups'[c] else []) == InCategory(markets + [m], c) {
      InCategorySnoc(markets, m, c);
    }
    assert forall x :: x in markets + [m] <==> x in markets || x == m;
    assert forall c :: c in order' <==> c in order || c == k;
  }

  /** Groups the markets by category, in first-seen order. */
  method GroupByCategory(markets: seq<Market>) returns (order: seq<string>, groups: map<string, seq<Market>>)
    ensures Grouping(markets, order, groups)
  {
    hide Grouping, InCategory;
    order, groups := [], map[];
    NoGrouping();
    assert markets[..0] == [];
    for i := 0 to |markets|
      invariant Grouping(markets[..i], order, groups)
    {
      GroupingSnoc(markets[..i], markets[i], order, groups);
      assert markets[..i + 1] == markets[..i] + [markets[i]];
      var c := markets[i].category;
      if c in groups {
        groups := groups[c := groups[c] + [markets[i]]];
      } else {
        order, groups := order + [c], groups[c := [] + [markets[i]]];
      }
    }
    assert markets[..|markets|] == markets;
  }

  lemma NoGrouping()
    ensures Grouping([], [], map[])
  {}

  /** The inner loop for one market of a category. */
  method SignalsInGroup(s: Store, ours: seq<real>, group: seq<Market>, id: string, histories: map<string, seq<real>>)
    returns (signals: seq<Signal>)
    requires forall m :: m in group ==> (m.id in histories <==> History(s, m.id).Some?)
    requires forall id :: id in histories ==> History(s, id) == Some(histories[id])
    ensures signals == CollectedSkipping(s, ours, group, id)
  {
    signals := [];
    for j := 0 to |group|
      invariant signals == CollectedSkipping(s, ours, group[..j], id)
    {
      assert group[..j + 1][..j] == group[..j] && group[j] in group;
      var other := group[j];
      if other.id == id || other.id !in histories {
        continue;
      }
      var theirs := histories[other.id];
      var n := if |ours| <= |theirs| then |ours| else |theirs|;
      if n < 5 {
        continue;
      }
      var c := s.correlate(Suffix(ours, n), Suffix(theirs, n));
      if c.None? {
        continue;
      }
      signals := signals + [Signal(other.id, DayChange(theirs), c.value)];
    }
    assert group[..|group|] == group;
  }

  /** The ids of the result are ids of markets. */
  ghost predicate OnlyMarkets(result: map<string, seq<Signal>>, markets: seq<Market>) {
    forall id :: id in result ==> exists m :: m in markets && m.id == id
  }

  ghost predicate AllOf(result: map<string, seq<Signal>>, group: seq<Market>) {
    forall m :: m in group ==> m.id in result
  }

  /** Whatever market has an entry has the right one. */
  ghost predicate Correct(result: map<string, seq<Signal>>, s: Store, markets: seq<Market>) {
    forall m :: m in markets && m.id in result ==> result[m.id] == Signals(s, markets, m)
  }

  method SignalsFromCache(s: Store, market: Market, markets: seq<Market>, group: seq<Market>,
                          histories: map<string, seq<real>>)
    returns (value: seq<Signal>)
    requires market in markets && group == InCategory(markets, market.category)
    requires forall m :: m in markets ==> (m.id in histories <==> History(s, m.id).Some?)
    requires forall id :: id in histories ==> History(s, id) == Some(histories[id])
    ensures value == Signals(s, markets, market)
  {
    hide Contribution, History;
    InCategoryMembers(markets, market.category);
    value := [];
    if market.id in histories {
      var signals := SignalsInGroup(s, histories[market.id], group, market.id, histories);
      GroupIsPeers(s, histories[market.id], markets, market);
      var sorted := Sort(signals, Strength());
      value := if |sorted| <= 5 then sorted else sorted[..5];
    }
  }

  /** All markets of one category. */
  method SignalsOfCategory(s: Store, category: string, markets: seq<Market>, group: seq<Market>,
                           histories: map<string, seq<real>>,
                           before: map<string, seq<Signal>>) returns (result: map<string, seq<Signal>>)
    requires group == InCategory(markets, category) && OnlyMarkets(before, markets)
    requires DistinctIds(markets) ==> Correct(before, s, markets)
    requires forall m :: m in markets ==> (m.id in histories <==> History(s, m.id).Some?)
    requires forall id :: id in histories ==> History(s, id) == Some(histories[id])
    ensures OnlyMarkets(result, markets) && (DistinctIds(markets) ==> Correct(result, s, markets))
    ensures before.Keys <= result.Keys && AllOf(result, group)
  {
    hide Signals, DistinctIds, History;
    InCategoryMembers(markets, category);
    result := before;
    for i := 0 to |group|
      invariant OnlyMarkets(result, markets) && (DistinctIds(markets) ==> Correct(result, s, markets))
      invariant before.Keys <= result.Keys && AllOf(result, group[..i])
    {
      var market := group[i];
      assert market in group;
      var value := SignalsFromCache(s, market, markets, group, histories);
      SameIdSameMarket(markets, market);
      assert forall m :: m in group[..i + 1] <==> m in group[..i] || m == market;
      result := result[market.id := value];
    }
    assert group[..|group|] == group;
  }

  /** `precompute_cross_signals`: for distinct market ids it maps each market to exactly what the
      per-market computation returns for it. */
  method PrecomputeCrossSignals(s: Store, markets: seq<Market>) returns (result: map<string, seq<Signal>>)
    ensures forall id :: id in result <==> exists m :: m in markets && m.id == id
    ensures DistinctIds(markets) ==>
              forall m :: m in markets ==> m.id in result && result[m.id] == Signals(s, markets, m)
  {
    hide Signals, DistinctIds, History;
    var histories := LoadHistories(s, markets);
    var order, groups := GroupByCategory(markets);
    result := map[];
    for k := 0 to |order|
      invariant OnlyMarkets(result, markets) && (DistinctIds(markets) ==> Correct(result, s, markets))
      invariant forall c :: c in order[..k] ==> AllOf(result, groups[c])
    {
      ghost var before := result;
      result := SignalsOfCategory(s, order[k], markets, groups[order[k]], histories, result);
      assert forall c :: c in order[..k + 1] <==> c in order[..k] || c == order[k];
    }
    assert order[..|order|] == order;
    forall m | m in markets ensures m.id in result {
      InCategoryMembers(markets, m.category);
      assert m in groups[m.category];
    }
  }

  lemma SameIdSameMarket(markets: seq<Market>, market: Market)
    requires market in markets
    ensures DistinctIds(markets) ==> forall m :: m in markets && m.id == market.id ==> m == market
  {}

  // ----- what the list holds --------------------------------------------------------------------

  /** Strongest first. */
  ghost predicate Descending(xs: seq<Signal>) {
    forall i, j :: 0 <= i < j < |xs| ==> Abs(xs[i].correlation) >= Abs(xs[j].correlation)
  }

  /** The result is a best five: no more than five, strongest first, the candidates split into those kept
      and those dropped, and no dropped one stronger than one kept. */
  lemma TopFiveIsBest(xs: seq<Signal>) returns (dropped: seq<Signal>)
    ensures var r := TopFive(xs);
            && |r| == (if |xs| <= 5 then |xs| else 5)
            && multiset(r) + multiset(dropped) == multiset(xs)
            && Descending(r)
            && (forall x, y :: x in dropped && y in r ==> Abs(x.correlation) <= Abs(y.correlation))
  {
    var sorted, k := Sort(xs, Strength()), if |xs| <= 5 then |xs| else 5;
    StrengthOrder(xs);
    assert TopFive(xs) == sorted[..k];
    hide Sort, Abs, TopFive;
    dropped := sorted[k..];
    assert sorted == sorted[..k] + dropped;
    BestPrefix(sorted, k);
  }

  lemma BestPrefix(sorted: seq<Signal>, k: nat)
    requires k <= |sorted| && Descending(sorted)
    ensures Descending(sorted[..k])
    ensures forall x, y :: x in sorted[k..] && y in sorted[..k] ==> Abs(x.correlation) <= Abs(y.correlation)
  {
    hide Abs;
    forall x, y | x in sorted[k..] && y in sorted[..k] ensures Abs(x.correlation) <= Abs(y.correlation) {
      AcrossTheCut(sorted, k, x, y);
    }
  }

  lemma AcrossTheCut(sorted: seq<Signal>, k: nat, x: Signal, y: Signal)
    requires k <= |sorted| && Descending(sorted) && x in sorted[k..] && y in sorted[..k]
    ensures Abs(x.correlation) <= Abs(y.correlation)
  {
    hide Abs;
    var j :| 0 <= j < |sorted| - k && sorted[k..][j] == x;
    var i :| 0 <= i < k && sorted[..k][i] == y;
    assert sorted[k + j] == x && sorted[i] == y;
  }

  lemma StrengthOrder(xs: seq<Signal>)
    ensures var sorted := Sort(xs, Strength());
            Descending(sorted)
  {
    var sorted := Sort(xs, Strength());
    SortSorted(xs, Strength());
    hide Sort;
    forall i, j | 0 <= i < j < |sorted| ensures Abs(sorted[i].correlation) >= Abs(sorted[j].correlation) {
      assert Strength()(sorted[i]) <= Strength()(sorted[j]);
    }
  }

  // ----- what a signal holds --------------------------------------------------------------------

  ghost predicate Peer(all: seq<Market>, m: Market, o: Market) {
    o in all && o.category == m.category && o.id != m.id
  }

  /** `x` is what market `o` has to tell `m`: how its price has moved over its last 24 points, or all it has, and the
      correlation over the longest stretch at the end that both histories have, which takes five points. */
  ghost predicate Tells(s: Store, m: Market, o: Market, x: Signal) {
    && s.load(m.id).Some? && s.load(o.id).Some?
    && var ours, h := s.load(m.id).value, s.load(o.id).value;
       var n := if |ours| <= |h| then |ours| else |h|;
       && n >= 5 && x.id == o.id
       && x.change == h[|h| - 1] - h[if |h| < 24 then 0 else |h| - 24]
       && s.correlate(ours[|ours| - n..], h[|h| - n..]) == Some(x.correlation)
  }

  lemma ContributionTells(s: Store, m: Market, o: Market, x: Signal)
    ensures Tells(s, m, o, x)
            <==> History(s, m.id).Some? && x in Contribution(s, History(s, m.id).value, o)
  {
    var ours, h := s.load(m.id), s.load(o.id);
    if ours.None? || h.None? || ours.value == [] || h.value == [] {
    } else {
      var n := if |ours.value| <= |h.value| then |ours.value| else |h.value|;
      assert History(s, m.id) == ours && History(s, o.id) == h;
      if n >= 5 {
        var a, b := ours.value[|ours.value| - n..], h.value[|h.value| - n..];
        assert Suffix(ours.value, n) == a && Suffix(h.value, n) == b;
        var c := s.correlate(a, b);
        hide Suffix, History;
        DayChangeMeans(h.value);
        hide DayChange;
        if c.Some? {
          assert Contribution(s, ours.value, o) == [Signal(o.id, DayChange(h.value), c.value)];
        }
      }
    }
  }

  lemma DayChangeMeans(h: seq<real>)
    requires |h| >= 5
    ensures DayChange(h) == h[|h| - 1] - h[if |h| < 24 then 0 else |h| - 24]
  {}

  lemma {:induction false} CollectedMembers(s: Store, ours: seq<real>, others: seq<Market>, x: Signal)
    ensures x in Collected(s, ours, others) <==> exists o :: o in others && x in Contribution(s, ours, o)
  {
    hide Contribution;
    if others == [] {
    } else {
      var init, last := others[..|others| - 1], others[|others| - 1];
      CollectedMembers(s, ours, init, x);
      assert forall o :: o in others <==> o in init || o == last;
    }
  }

  lemma {:induction false} PeersMembers(all: seq<Market>, m: Market)
    ensures forall o :: o in Peers(all, m) <==> Peer(all, m, o)
  {
    if all == [] {
    } else {
      var init, last := all[..|all| - 1], all[|all| - 1];
      PeersMembers(init, m);
      assert forall o :: o in all <==> o in init || o == last;
    }
  }

  /** The list a market gets: no more than five signals, strongest first, each told by a peer; and whatever a peer
      has to tell is listed, unless five at least as strong are. */
  lemma SignalsExactly(s: Store, all: seq<Market>, m: Market)
    ensures var r := Signals(s, all, m);
            && |r| <= 5 && Descending(r)
            && (forall x :: x in r ==> exists o :: Peer(all, m, o) && Tells(s, m, o, x))
            && (forall o, x :: Peer(all, m, o) && Tells(s, m, o, x) ==>
                  x in r || (|r| == 5 && forall y :: y in r ==> Abs(y.correlation) >= Abs(x.correlation)))
  {
    hide Collected, Contribution, Peers, TopFive, Abs, Tells, History;
    var r, h := Signals(s, all, m), History(s, m.id);
    PeersMembers(all, m);
    if h.Some? {
      var xs := Collected(s, h.value, Peers(all, m));
      var dropped := TopFiveIsBest(xs);
      assert forall x :: x in xs <==> x in multiset(xs);
      assert |multiset(r)| + |multiset(dropped)| == |multiset(xs)|;
      forall x | x in r ensures exists o :: Peer(all, m, o) && Tells(s, m, o, x) {
        assert x in multiset(r);
        CollectedMembers(s, h.value, Peers(all, m), x);
        var o :| o in Peers(all, m) && x in Contribution(s, h.value, o);
        ContributionTells(s, m, o, x);
      }
    }
    forall o, x | Peer(all, m, o) && Tells(s, m, o, x)
      ensures x in r || (|r| == 5 && forall y :: y in r ==> Abs(y.correlation) >= Abs(x.correlation))
    {
      ContributionTells(s, m, o, x);
      var xs := Collected(s, h.value, Peers(all, m));
      CollectedMembers(s, h.value, Peers(all, m), x);
      var dropped := TopFiveIsBest(xs);
      assert x in multiset(xs);
      if x !in r {
        assert x !in multiset(r);
        assert x in multiset(dropped);
        assert |multiset(r)| + |multiset(dropped)| == |multiset(xs)|;
        assert |dropped| >= 1;
      }
    }
  }
}
