/** Trailing stops: a SELL stop follows the high water mark up, a BUY stop follows the low water mark down. */
module TrailingStop {
  import opened Options
  import opened Rounding
  import opened Products

  datatype Mode = Amount | Percent

  /** `low` is None for the infinity it starts from. */
  datatype Stop = Stop(sell: bool, mode: Mode, trail: real, high: real, low: Option<real>, stop: real,
                       triggered: bool, triggerPrice: Option<real>, updates: nat)

  const TICKS := 10000.0

  function SellLevel(mode: Mode, trail: real, price: real): real {
    RoundTo(if mode == Percent then Mul(price, 1.0 - trail / 100.0) else price - trail, TICKS)
  }

  function BuyLevel(mode: Mode, trail: real, price: real): real {
    RoundTo(if mode == Percent then Mul(price, 1.0 + trail / 100.0) else price + trail, TICKS)
  }

  /** `__post_init__`. */
  function Init(sell: bool, mode: Mode, trail: real, price: real): Stop {
    if sell then Stop(true, mode, trail, price, None, SellLevel(mode, trail, price), false, None, 0)
    else Stop(false, mode, trail, 0.0, Some(price), BuyLevel(mode, trail, price), false, None, 0)
  }

  function Update(s: Stop, price: real): Stop {
    if s.triggered then s
    else if s.sell then
      var level := SellLevel(s.mode, s.trail, price);
      var s1 := s.(updates := s.updates + 1);
      var s2 := if price > s.high then s1.(high := price, stop := if level > s.stop then level else s.stop) else s1;
      if price <= s2.stop then s2.(triggered := true, triggerPrice := Some(price)) else s2
    else
      var level := BuyLevel(s.mode, s.trail, price);
      var s1 := s.(updates := s.updates + 1);
      var s2 := if s.low.None? || price < s.low.value
                then s1.(low := Some(price), stop := if level < s.stop then level else s.stop) else s1;
      if price >= s2.stop then s2.(triggered := true, triggerPrice := Some(price)) else s2
  }

  function Reset(s: Stop, price: real): Stop {
    var s1 := s.(triggered := false, triggerPrice := None, updates := 0);
    if s.sell then s1.(high := price, stop := SellLevel(s.mode, s.trail, price))
    else s1.(low := Some(price), stop := BuyLevel(s.mode, s.trail, price))
  }

  class TrailingStop {
    const sell: bool
    const mode: Mode
    const trail: real
    var highWater: real
    var lowWater: Option<real>
    var stopPrice: real
    var triggered: bool
    var triggerPrice: Option<real>
    var updateCount: nat

    ghost function View(): Stop
      reads this
    {
      Stop(sell, mode, trail, highWater, lowWater, stopPrice, triggered, triggerPrice, updateCount)
    }

    constructor (sell: bool, mode: Mode, trail: real, initialPrice: real)
      ensures View() == Init(sell, mode, trail, initialPrice)
    {
      this.sell, this.mode, this.trail := sell, mode, trail;
      highWater := if sell then initialPrice else 0.0;
      lowWater := if sell then None else Some(initialPrice);
      stopPrice := if sell then SellLevel(mode, trail, initialPrice) else BuyLevel(mode, trail, initialPrice);
      triggered, triggerPrice, updateCount := false, None, 0;
    }

    method UpdatePrice(price: real) returns (fired: bool)
      modifies this
      ensures View() == Update(old(View()), price) && fired == triggered
    {
      if triggered {
        return true;
      }
      updateCount := updateCount + 1;
      if sell {
        fired := UpdateSell(price);
      } else {
        fired := UpdateBuy(price);
      }
    }

    method UpdateSell(price: real) returns (fired: bool)
      requires sell && !triggered && updateCount > 0
      modifies this
      ensures View() == Update(old(View()).(updates := old(updateCount) - 1), price) && fired == triggered
    {
      if price > highWater {
        highWater := price;
        var newStop := SellLevel(mode, trail, price);
        if newStop > stopPrice {
          stopPrice := newStop;
        }
      }
      if price <= stopPrice {
        triggered, triggerPrice := true, Some(price);
      }
      fired := triggered;
    }

    method UpdateBuy(price: real) returns (fired: bool)
      requires !sell && !triggered && updateCount > 0
      modifies this
      ensures View() == Update(old(View()).(updates := old(updateCount) - 1), price) && fired == triggered
    {
      if lowWater.None? || price < lowWater.value {
        lowWater := Some(price);
        var newStop := BuyLevel(mode, trail, price);
        if newStop < stopPrice {
          stopPrice := newStop;
        }
      }
      if price >= stopPrice {
        triggered, triggerPrice := true, Some(price);
      }
      fired := triggered;
    }

    method ResetTo(price: real)
      modifies this
      ensures View() == Reset(old(View()), price)
    {
      triggered, triggerPrice, updateCount := false, None, 0;
      if sell {
        highWater := price;
        stopPrice := SellLevel(mode, trail, price);
      } else {
        lowWater := Some(price);
        stopPrice := BuyLevel(mode, trail, price);
      }
    }
  }

  // ----- streams --------------------------------------------------------------------------------

  function Feed(s: Stop, prices: seq<real>): Stop {
    if prices == [] then s else Update(Feed(s, prices[..|prices| - 1]), prices[|prices| - 1])
  }

  function Highest(first: real, prices: seq<real>): real {
    if prices == [] then first else Max(Highest(first, prices[..|prices| - 1]), prices[|prices| - 1])
  }

  /** Levels follow prices: always for amounts, for percentages up to one hundred. */
  ghost predicate Follows(mode: Mode, trail: real) {
    mode == Percent ==> trail <= 100.0
  }

  lemma SellLevelMonotone(mode: Mode, trail: real, x: real, y: real)
    requires Follows(mode, trail) && x <= y
    ensures SellLevel(mode, trail, x) <= SellLevel(mode, trail, y)
  {
    if mode == Percent {
      MulMonotone(x, y, 1.0 - trail / 100.0);
      RoundToMonotone(Mul(x, 1.0 - trail / 100.0), Mul(y, 1.0 - trail / 100.0), TICKS);
    } else {
      RoundToMonotone(x - trail, y - trail, TICKS);
    }
  }

  /** The price at `k` is at or below the level that belongs to the highest price so far. */
  ghost predicate Crosses(mode: Mode, trail: real, first: real, prices: seq<real>, k: nat) {
    k < |prices| && prices[k] <= SellLevel(mode, trail, Highest(first, prices[..k + 1]))
  }

  /** `k` is the first crossing. */
  ghost predicate FirstCross(mode: Mode, trail: real, first: real, prices: seq<real>, k: nat) {
    Crosses(mode, trail, first, prices, k) && forall j: nat :: j < k ==> !Crosses(mode, trail, first, prices, j)
  }

  lemma CrossPrefix(mode: Mode, trail: real, first: real, prices: seq<real>, n: nat)
    requires n <= |prices|
    ensures forall k: nat :: k < n ==>
              (Crosses(mode, trail, first, prices[..n], k) <==> Crosses(mode, trail, first, prices, k))
  {
    forall k: nat | k < n
      ensures Crosses(mode, trail, first, prices[..n], k) <==> Crosses(mode, trail, first, prices, k)
    {
      assert prices[..n][..k + 1] == prices[..k + 1];
    }
  }

  /** A SELL stop fires at exactly the first price at or below the level of the highest price so far; until
      then the stop is that level, and afterwards nothing changes. */
  lemma {:induction false} FiresAtFirstCross(mode: Mode, trail: real, first: real, prices: seq<real>)
    requires Follows(mode, trail)
    ensures var s := Feed(Init(true, mode, trail, first), prices);
            && s.sell && s.mode == mode && s.trail == trail
            && (!s.triggered ==>
                  && s.high == Highest(first, prices) && s.stop == SellLevel(mode, trail, s.high)
                  && forall k: nat :: !Crosses(mode, trail, first, prices, k))
            && (s.triggered ==>
                  exists k: nat :: FirstCross(mode, trail, first, prices, k) && s.triggerPrice == Some(prices[k])
                                   && s == Feed(Init(true, mode, trail, first), prices[..k + 1]))
  {
    hide SellLevel;
    if prices == [] {
    } else {
      var n := |prices| - 1;
      var init, price := prices[..n], prices[n];
      FiresAtFirstCross(mode, trail, first, init);
      CrossPrefix(mode, trail, first, prices, n);
      var s := Feed(Init(true, mode, trail, first), init);
      if s.triggered {
        var k: nat :| FirstCross(mode, trail, first, init, k) && s.triggerPrice == Some(init[k])
                      && s == Feed(Init(true, mode, trail, first), init[..k + 1]);
        assert init[..k + 1] == prices[..k + 1];
        assert FirstCross(mode, trail, first, prices, k);
      } else {
        NextPrice(s, mode, trail, first, prices);
        hide Highest, Update;
        if Update(s, price).triggered {
          assert prices[..n + 1] == prices;
          assert FirstCross(mode, trail, first, prices, n);
        }
      }
    }
  }

  /** One more price on an untriggered stop. */
  lemma NextPrice(s: Stop, mode: Mode, trail: real, first: real, prices: seq<real>)
    requires Follows(mode, trail) && prices != []
    requires s.sell && s.mode == mode && s.trail == trail && !s.triggered
    requires s.high == Highest(first, prices[..|prices| - 1]) && s.stop == SellLevel(mode, trail, s.high)
    ensures var s' := Update(s, prices[|prices| - 1]);
            && s'.sell && s'.mode == mode && s'.trail == trail
            && s'.high == Highest(first, prices) && s'.stop == SellLevel(mode, trail, s'.high)
            && (s'.triggered <==> Crosses(mode, trail, first, prices, |prices| - 1))
            && (s'.triggered ==> s'.triggerPrice == Some(prices[|prices| - 1]))
  {
    hide SellLevel;
    SellLevelMonotone(mode, trail, s.high, Max(s.high, prices[|prices| - 1]));
    assert prices[..|prices| - 1 + 1] == prices;
  }

  /** In amount mode with everything in 1e-4 ticks the level is the plain difference. */
  lemma AmountInTicks(price: real, trail: real)
    requires OnTick(price) && OnTick(trail)
    ensures SellLevel(Amount, trail, price) == price - trail && BuyLevel(Amount, trail, price) == price + trail
  {
    var m, n := (price * TICKS).Floor, (trail * TICKS).Floor;
    assert (price - trail) * TICKS == (m - n) as real && (price + trail) * TICKS == (m + n) as real;
    RoundOfInt(m - n);
    RoundOfInt(m + n);
  }

  ghost predicate OnTick(x: real) {
    (x * TICKS).Floor as real == x * TICKS
  }

  /** The price at `k` is `trail` or more below the highest price so far. */
  ghost predicate Drops(trail: real, first: real, prices: seq<real>, k: nat) {
    k < |prices| && prices[k] <= Highest(first, prices[..k + 1]) - trail
  }

  lemma {:induction false} HighestOnTick(first: real, prices: seq<real>)
    requires OnTick(first) && forall i :: 0 <= i < |prices| ==> OnTick(prices[i])
    ensures OnTick(Highest(first, prices))
  {
    hide OnTick;
    if prices == [] {
    } else {
      HighestOnTick(first, prices[..|prices| - 1]);
    }
  }

  lemma {:induction false} HighestIsHighest(first: real, prices: seq<real>)
    ensures Highest(first, prices) >= first && forall i :: 0 <= i < |prices| ==> Highest(first, prices) >= prices[i]
    ensures Highest(first, prices) == first || Highest(first, prices) in prices
  {
    if prices == [] {
    } else {
      var n := |prices| - 1;
      HighestIsHighest(first, prices[..n]);
      assert prices == prices[..n] + [prices[n]];
    }
  }

  /** In amount mode on ticks: the stop has fired if and only if some price has dropped by `trail` from the
      highest so far, and then it fired at the first one that did. */
  lemma FiresAtFirstDrop(trail: real, first: real, prices: seq<real>)
    requires OnTick(trail) && OnTick(first) && forall i :: 0 <= i < |prices| ==> OnTick(prices[i])
    ensures var s := Feed(Init(true, Amount, trail, first), prices);
            && (s.triggered <==> exists k: nat :: Drops(trail, first, prices, k))
            && (s.triggered ==>
                  exists k: nat :: && Drops(trail, first, prices, k) && s.triggerPrice == Some(prices[k])
                                   && (forall j: nat :: j < k ==> !Drops(trail, first, prices, j))
                                   && s == Feed(Init(true, Amount, trail, first), prices[..k + 1]))
  {
    forall k: nat ensures Drops(trail, first, prices, k) <==> Crosses(Amount, trail, first, prices, k) {
      if k < |prices| {
        HighestOnTick(first, prices[..k + 1]);
        AmountInTicks(Highest(first, prices[..k + 1]), trail);
      }
    }
    FiresAtFirstCross(Amount, trail, first, prices);
    hide Drops, Crosses, Feed, OnTick, SellLevel, Highest;
    var s := Feed(Init(true, Amount, trail, first), prices);
    if s.triggered {
      var k: nat :| FirstCross(Amount, trail, first, prices, k) && s.triggerPrice == Some(prices[k])
                    && s == Feed(Init(true, Amount, trail, first), prices[..k + 1]);
      assert Drops(trail, first, prices, k);
    }
  }

  /** Whatever the mode, a stop never moves away from the market: not down for a SELL, not up for a BUY. */
  lemma {:induction false} StopNeverRetreats(s: Stop, prices: seq<real>)
    ensures var s' := Feed(s, prices);
            s'.sell == s.sell && (if s.sell then s.stop <= s'.stop else s'.stop <= s.stop)
  {
    hide SellLevel, BuyLevel;
    if prices == [] {
    } else {
      StopNeverRetreats(s, prices[..|prices| - 1]);
    }
  }

  /** A triggered stop is frozen until it is reset. */
  lemma {:induction false} TriggeredIsFrozen(s: Stop, prices: seq<real>)
    requires s.triggered
    ensures Feed(s, prices) == s
  {
    if prices == [] {
    } else {
      TriggeredIsFrozen(s, prices[..|prices| - 1]);
    }
  }

  /** Everything an update reads: all but the mark of the other side. */
  ghost predicate Alike(s: Stop, o: Stop) {
    && s.sell == o.sell && s.mode == o.mode && s.trail == o.trail && s.stop == o.stop
    && s.triggered == o.triggered && s.triggerPrice == o.triggerPrice && s.updates == o.updates
    && (if s.sell then s.high == o.high else s.low == o.low)
  }

  /** After a reset a stop behaves as a new one at that price, whatever it has been through. */
  lemma {:induction false} ResetIsFresh(s: Stop, price: real, prices: seq<real>)
    ensures Alike(Feed(Reset(s, price), prices), Feed(Init(s.sell, s.mode, s.trail, price), prices))
  {
    hide SellLevel, BuyLevel;
    if prices == [] {
    } else {
      ResetIsFresh(s, price, prices[..|prices| - 1]);
      hide Reset, Init;
    }
  }

  // ----- the mirror -----------------------------------------------------------------------------

  /** The trail a SELL stop needs to mirror a BUY stop's. */
  function MirrorTrail(mode: Mode, trail: real): real {
    if mode == Percent then -trail else trail
  }

  function Negated(prices: seq<real>): seq<real> {
    seq(|prices|, i requires 0 <= i < |prices| => -prices[i])
  }

  ghost predicate Mirrors(buy: Stop, sell: Stop) {
    && !buy.sell && sell.sell && sell.mode == buy.mode && sell.trail == MirrorTrail(buy.mode, buy.trail)
    && buy.low == Some(-sell.high) && buy.stop == -sell.stop && buy.updates == sell.updates
    && buy.triggered == sell.triggered
    && buy.triggerPrice == (if sell.triggerPrice.Some? then Some(-sell.triggerPrice.value) else None)
  }

  lemma LevelsMirror(mode: Mode, trail: real, price: real)
    ensures SellLevel(mode, MirrorTrail(mode, trail), -price) == -BuyLevel(mode, trail, price)
  {
    if mode == Percent {
      var f := 1.0 + trail / 100.0;
      assert 1.0 - MirrorTrail(mode, trail) / 100.0 == f;
      MulNegative(price, f);
      RoundToOdd(Mul(price, f), TICKS);
    } else {
      assert -price - trail == -(price + trail);
      RoundToOdd(price + trail, TICKS);
    }
  }

  lemma UpdateMirrors(buy: Stop, sell: Stop, price: real)
    requires Mirrors(buy, sell)
    ensures Mirrors(Update(buy, price), Update(sell, -price))
  {
    hide SellLevel, BuyLevel, MirrorTrail;
    LevelsMirror(buy.mode, buy.trail, price);
  }

  /** A BUY stop on a stream of prices is the SELL stop on the mirrored stream, update for update. */
  lemma {:induction false} BuyMirrorsSell(mode: Mode, trail: real, first: real, prices: seq<real>)
    ensures Mirrors(Feed(Init(false, mode, trail, first), prices),
                    Feed(Init(true, mode, MirrorTrail(mode, trail), -first), Negated(prices)))
  {
    hide SellLevel, BuyLevel, MirrorTrail, Mirrors, Update;
    if prices == [] {
      InitMirrors(mode, trail, first);
    } else {
      var init, price := prices[..|prices| - 1], prices[|prices| - 1];
      BuyMirrorsSell(mode, trail, first, init);
      assert Negated(prices)[..|prices| - 1] == Negated(init);
      UpdateMirrors(Feed(Init(false, mode, trail, first), init),
                    Feed(Init(true, mode, MirrorTrail(mode, trail), -first), Negated(init)), price);
    }
  }

  lemma InitMirrors(mode: Mode, trail: real, first: real)
    ensures Mirrors(Init(false, mode, trail, first), Init(true, mode, MirrorTrail(mode, trail), -first))
  {
    hide SellLevel, BuyLevel, MirrorTrail;
    LevelsMirror(mode, trail, first);
  }

  function Lowest(first: real, prices: seq<real>): real {
    if prices == [] then first else Min(Lowest(first, prices[..|prices| - 1]), prices[|prices| - 1])
  }

  /** The price at `k` is at or above the level that belongs to the lowest price so far. */
  ghost predicate BuyCrosses(mode: Mode, trail: real, first: real, prices: seq<real>, k: nat) {
    k < |prices| && prices[k] >= BuyLevel(mode, trail, Lowest(first, prices[..k + 1]))
  }

  lemma {:induction false} LowestMirrors(first: real, prices: seq<real>)
    ensures Highest(-first, Negated(prices)) == -Lowest(first, prices)
  {
    if prices == [] {
    } else {
      LowestMirrors(first, prices[..|prices| - 1]);
      assert Negated(prices)[..|prices| - 1] == Negated(prices[..|prices| - 1]);
    }
  }

  lemma CrossMirrors(mode: Mode, trail: real, first: real, prices: seq<real>, k: nat)
    ensures Crosses(mode, MirrorTrail(mode, trail), -first, Negated(prices), k)
            <==> BuyCrosses(mode, trail, first, prices, k)
  {
    hide SellLevel, BuyLevel, MirrorTrail, Highest, Lowest;
    if k < |prices| {
      assert Negated(prices)[..k + 1] == Negated(prices[..k + 1]);
      LowestMirrors(first, prices[..k + 1]);
      LevelsMirror(mode, trail, Lowest(first, prices[..k + 1]));
    }
  }

  ghost predicate FirstBuyCross(mode: Mode, trail: real, first: real, prices: seq<real>, k: nat) {
    BuyCrosses(mode, trail, first, prices, k) && forall j: nat :: j < k ==> !BuyCrosses(mode, trail, first, prices, j)
  }

  lemma FirstCrossMirrors(mode: Mode, trail: real, first: real, prices: seq<real>, k: nat)
    requires FirstCross(mode, MirrorTrail(mode, trail), -first, Negated(prices), k)
    ensures FirstBuyCross(mode, trail, first, prices, k) && k < |prices| && Negated(prices)[k] == -prices[k]
  {
    forall j: nat
      ensures Crosses(mode, MirrorTrail(mode, trail), -first, Negated(prices), j)
              <==> BuyCrosses(mode, trail, first, prices, j)
    {
      CrossMirrors(mode, trail, first, prices, j);
    }
  }

  /** Hence a BUY stop fires at exactly the first price at or above the level of the lowest price so far. */
  lemma BuyFiresAtFirstCross(mode: Mode, trail: real, first: real, prices: seq<real>)
    requires Follows(mode, MirrorTrail(mode, trail))
    ensures var s := Feed(Init(false, mode, trail, first), prices);
            && (!s.triggered ==> forall k: nat :: !BuyCrosses(mode, trail, first, prices, k))
            && (s.triggered ==>
                  exists k: nat :: FirstBuyCross(mode, trail, first, prices, k) && s.triggerPrice == Some(prices[k]))
  {
    hide Crosses, BuyCrosses, FirstCross, FirstBuyCross, Feed, Init, Highest, SellLevel, MirrorTrail, Negated, Follows;
    BuyMirrorsSell(mode, trail, first, prices);
    var t, mirrored := MirrorTrail(mode, trail), Negated(prices);
    if Feed(Init(true, mode, t, -first), mirrored).triggered {
      var k := SellCross(mode, t, -first, mirrored);
      FirstCrossMirrors(mode, trail, first, prices, k);
    } else {
      FiresAtFirstCross(mode, t, -first, mirrored);
      forall k: nat ensures !BuyCrosses(mode, trail, first, prices, k) {
        CrossMirrors(mode, trail, first, prices, k);
      }
    }
  }

  lemma SellCross(mode: Mode, trail: real, first: real, prices: seq<real>) returns (k: nat)
    requires Follows(mode, trail) && Feed(Init(true, mode, trail, first), prices).triggered
    ensures FirstCross(mode, trail, first, prices, k) && k < |prices|
    ensures Feed(Init(true, mode, trail, first), prices).triggerPrice == Some(prices[k])
  {
    FiresAtFirstCross(mode, trail, first, prices);
    k :| FirstCross(mode, trail, first, prices, k)
        && Feed(Init(true, mode, trail, first), prices).triggerPrice == Some(prices[k]);
  }
}
