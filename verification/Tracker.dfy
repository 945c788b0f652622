/** Trades and their profit and loss. Orders and exits are priced in contract space; the trades table keeps
    everything in YES space. */
module Tracker {
  import opened Options
  import opened Rounding
  import opened Products

  datatype TradeStatus = OpenTrade | ClosedTrade

  /** One row of the trades table. `order` is the id of the entry order that opened it. */
  datatype Trade = Trade(order: nat, direction: string, entryPrice: Option<real>, average: Option<real>, size: real,
                         filled: Option<real>, fee: Option<real>, gas: Option<real>, status: TradeStatus,
                         exitPrice: Option<real>, pnl: Option<real>, roi: Option<real>)

  function Clamp01(x: real): real {
    Max(0.0, Min(1.0, x))
  }

  /** The entry price in YES space. */
  function EntryYes(t: Trade): real {
    if t.average.None? then OrElse(t.entryPrice, 0.0)
    else if t.direction == "NO" then Clamp01(1.0 - t.average.value)
    else t.average.value
  }

  /** A contract-space exit price in YES space. */
  function ExitYes(t: Trade, exit: real): real {
    if t.direction == "NO" then Clamp01(1.0 - exit) else exit
  }

  /** The filled size, or the ordered size when nothing is booked as filled. */
  function Stake(t: Trade): real {
    if t.filled.Some? && t.filled.value != 0.0 then t.filled.value else t.size
  }

  /** P&L in YES space before fees. */
  function Gross(t: Trade, yesPrice: real): real {
    var e := EntryYes(t);
    if t.direction == "YES" then (if e != 0.0 then Mul(yesPrice - e, Stake(t)) / e else 0.0)
    else (if 1.0 - e != 0.0 then Mul(e - yesPrice, Stake(t)) / (1.0 - e) else 0.0)
  }

  function Net(gross: real, t: Trade): real {
    gross - OrElse(t.fee, 0.0) - OrElse(t.gas, 0.0)
  }

  /** The row after closing at a contract-space exit price. */
  function ClosedAt(t: Trade, exit: real): Trade {
    var pnl := Net(Gross(t, ExitYes(t, exit)), t);
    t.(status := ClosedTrade, exitPrice := Some(ExitYes(t, exit)), pnl := Some(pnl),
       roi := Some(if Stake(t) != 0.0 then pnl / Stake(t) else 0.0))
  }

  function Charged(t: Trade, fee: real, gas: real): Trade {
    t.(fee := Some(OrElse(t.fee, 0.0) + fee), gas := Some(OrElse(t.gas, 0.0) + gas))
  }

  /** The first row opened by `order`. */
  function Find(ts: seq<Trade>, order: nat): (i: nat)
    ensures i <= |ts| && (forall j :: 0 <= j < i ==> ts[j].order != order) && (i < |ts| ==> ts[i].order == order)
  {
    if ts == [] then 0 else if ts[0].order == order then 0 else 1 + Find(ts[1..], order)
  }

  class PerformanceTracker {
    var trades: seq<Trade>

    constructor ()
      ensures trades == []
    {
      trades := [];
    }

    method Record(t: Trade) returns (id: nat)
      modifies this
      ensures trades == old(trades) + [t] && id == |old(trades)|
    {
      id := |trades|;
      trades := trades + [t];
    }

    /** `get_trade_id_for_order`. */
    method TradeIdFor(order: nat) returns (id: Option<nat>)
      ensures id == if Find(trades, order) < |trades| then Some(Find(trades, order)) else None
    {
      for i := 0 to |trades|
        invariant forall j :: 0 <= j < i ==> trades[j].order != order
      {
        if trades[i].order == order {
          assert Find(trades, order) == i;
          return Some(i);
        }
      }
      id := None;
    }

    /** `record_fee`. */
    method RecordFee(id: nat, fee: real, gas: real)
      requires id < |trades|
      modifies this
      ensures trades == old(trades)[id := Charged(old(trades)[id], fee, gas)]
    {
      var t := trades[id];
      trades := trades[id := t.(fee := Some(OrElse(t.fee, 0.0) + fee), gas := Some(OrElse(t.gas, 0.0) + gas))];
    }

    /** `update_position`: marks the row to a YES price; an unknown id changes nothing. */
    method UpdatePosition(id: nat, yesPrice: real)
      modifies this
      ensures trades == if id < |old(trades)|
                        then var t := old(trades)[id];
                             old(trades)[id := t.(pnl := Some(Net(Gross(t, yesPrice), t)))]
                        else old(trades)
    {
      if id < |trades| {
        var t := trades[id];
        trades := trades[id := t.(pnl := Some(Net(Gross(t, yesPrice), t)))];
      }
    }

    /** `close_position`: closes the row at a contract price and returns its net P&L. */
    method ClosePosition(id: nat, exit: real) returns (pnl: real)
      modifies this
      ensures trades == if id < |old(trades)| then old(trades)[id := ClosedAt(old(trades)[id], exit)] else old(trades)
      ensures pnl == if id < |old(trades)| then ClosedAt(old(trades)[id], exit).pnl.value else 0.0
    {
      if id >= |trades| {
        return 0.0;
      }
      var t := trades[id];
      var yes := ExitYes(t, exit);
      pnl := Net(Gross(t, yes), t);
      var roi := if Stake(t) != 0.0 then pnl / Stake(t) else 0.0;
      trades := trades[id := t.(status := ClosedTrade, exitPrice := Some(yes), pnl := Some(pnl), roi := Some(roi))];
    }

    /** `close_trade_for_order` with an exit price: negative prices count as zero, unknown orders as nothing. */
    method CloseTradeForOrder(order: nat, exit: real) returns (pnl: real)
      modifies this
      ensures var i := Find(old(trades), order);
              if i < |old(trades)|
              then trades == old(trades)[i := ClosedAt(old(trades)[i], Max(exit, 0.0))]
                   && pnl == ClosedAt(old(trades)[i], Max(exit, 0.0)).pnl.value
              else trades == old(trades) && pnl == 0.0
    {
      var price := if exit < 0.0 then 0.0 else exit;
      var id := TradeIdFor(order);
      if id.None? {
        return 0.0;
      }
      pnl := ClosePosition(id.value, price);
    }
  }

  // ----- what a closed trade has earned ---------------------------------------------------------

  /** The stake and average of an entry bought as a contract: for both directions the YES-space arithmetic
      comes down to (exit - average) * stake / average in contract prices. */
  lemma GrossInContractSpace(t: Trade, exit: real)
    requires t.direction == "YES" || t.direction == "NO"
    requires t.average.Some? && 0.0 < t.average.value <= 1.0 && 0.0 <= exit <= 1.0
    ensures Gross(t, ExitYes(t, exit)) == Mul(exit - t.average.value, Stake(t)) / t.average.value
  {
    if t.direction == "NO" {
      var a := t.average.value;
      assert EntryYes(t) == 1.0 - a && ExitYes(t, exit) == 1.0 - exit;
      assert EntryYes(t) - ExitYes(t, exit) == exit - a && 1.0 - EntryYes(t) == a;
    }
    hide Mul;
  }

  /** Net P&L of a closed trade, in contract prices. */
  lemma NetInContractSpace(t: Trade, exit: real)
    requires t.direction == "YES" || t.direction == "NO"
    requires t.average.Some? && 0.0 < t.average.value <= 1.0 && 0.0 <= exit <= 1.0
    ensures ClosedAt(t, exit).pnl
            == Some(Mul(exit - t.average.value, Stake(t)) / t.average.value - OrElse(t.fee, 0.0) - OrElse(t.gas, 0.0))
  {
    GrossInContractSpace(t, exit);
    hide Gross, Mul;
  }

  /** No closed trade loses more than its stake, fees and gas, whatever the exit price. */
  lemma LossIsBounded(t: Trade, exit: real)
    requires t.direction == "YES" || t.direction == "NO"
    requires t.average.Some? && 0.0 < t.average.value <= 1.0 && 0.0 <= exit && Stake(t) >= 0.0
    ensures ClosedAt(t, exit).pnl.value >= -Stake(t) - OrElse(t.fee, 0.0) - OrElse(t.gas, 0.0)
  {
    var a, s := t.average.value, Stake(t);
    var gain := if t.direction == "YES" then exit - a else EntryYes(t) - ExitYes(t, exit);
    assert t.direction == "NO" ==> EntryYes(t) == 1.0 - a;
    assert gain >= -a && Gross(t, ExitYes(t, exit)) == Mul(gain, s) / a;
    MulMonotone(-a, gain, s);
    var q := Mul(gain, s) / a;
    DivCancel(Mul(gain, s), a);
    MulStrict(q, -s, a);
    MulNegative(a, s);
    MulNegative(s, a);
    MulSymmetric(a, s);
    hide Mul, Stake, Gross, EntryYes, ExitYes;
  }

  /** The sign of the gross P&L is the sign of exit minus average, wherever the two prices lie; it is strict for exits
      below one. */
  lemma GrossSign(t: Trade, exit: real)
    requires t.direction == "YES" || t.direction == "NO"
    requires t.average.Some? && 0.0 < t.average.value && Stake(t) >= 0.0
    ensures exit >= t.average.value ==> Gross(t, ExitYes(t, exit)) >= 0.0
    ensures exit <= t.average.value ==> Gross(t, ExitYes(t, exit)) <= 0.0
    ensures exit < t.average.value && exit < 1.0 && Stake(t) > 0.0 ==> Gross(t, ExitYes(t, exit)) < 0.0
  {
    var a, s := t.average.value, Stake(t);
    var gain := if t.direction == "YES" then exit - a else EntryYes(t) - ExitYes(t, exit);
    var basis := if t.direction == "YES" then a else 1.0 - EntryYes(t);
    assert basis > 0.0 && Gross(t, ExitYes(t, exit)) == Mul(gain, s) / basis;
    assert exit >= a ==> gain >= 0.0;
    assert exit <= a ==> gain <= 0.0;
    assert exit < a && exit < 1.0 ==> gain < 0.0;
    hide Gross, EntryYes, ExitYes, Stake;
    MulSigns(gain, s);
    MulSigns(-gain, s);
    MulNegative(gain, s);
    var q := Mul(gain, s) / basis;
    DivCancel(Mul(gain, s), basis);
    MulStrict(0.0, q, basis);
    MulStrict(q, 0.0, basis);
    MulUnits(basis);
    hide Mul;
  }
}
