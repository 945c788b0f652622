/** The report and the desk agree: the total P&L of the report is what the passes have reported as realised. */
module Reports {
  import opened Tracker
  import opened Lifecycle
  import opened Desk
  import Metrics
  import Orders

  /** The report's view of the trades table: each row with its own status, direction and P&L. */
  ghost predicate SameRows(ms: seq<Metrics.Trade>, ts: seq<Trade>) {
    && |ms| == |ts|
    && forall i :: 0 <= i < |ts| ==> SameTrade(ms[i], ts[i])
  }

  ghost predicate SameTrade(m: Metrics.Trade, t: Trade) {
    (Metrics.IsClosed(m) <==> t.status == ClosedTrade) && m.pnl == t.pnl && m.direction == t.direction
  }

  /** The total of the report is the realised P&L of the same rows. */
  lemma {:induction false} TotalIsRealised(ms: seq<Metrics.Trade>, ts: seq<Trade>)
    requires SameRows(ms, ts)
    ensures Metrics.Total(Metrics.ClosedRows(ms)) == Realised(ts)
  {
    hide Metrics.Total, Metrics.IsClosed;
    if ts == [] {
      NoTotal();
    } else {
      var n := |ts| - 1;
      TotalIsRealised(ms[..n], ts[..n]);
      assert SameTrade(ms[n], ts[n]);
      LastTotal(ms);
    }
  }

  lemma NoTotal()
    ensures Metrics.Total(Metrics.ClosedRows([])) == 0.0
  {}

  lemma LastTotal(ms: seq<Metrics.Trade>)
    requires ms != []
    ensures var init, last := ms[..|ms| - 1], ms[|ms| - 1];
            Metrics.Total(Metrics.ClosedRows(ms))
            == Metrics.Total(Metrics.ClosedRows(init)) + if Metrics.IsClosed(last) then Metrics.Pnl(last) else 0.0
  {
    var init, last := ms[..|ms| - 1], ms[|ms| - 1];
    Metrics.TallySnoc(Metrics.ClosedRows(init), last, Metrics.IsClosed(last));
    assert Metrics.ClosedRows(ms) == Metrics.ClosedRows(init) + Metrics.Maybe(Metrics.IsClosed(last), last);
    hide Metrics.Total, Metrics.Wins, Metrics.Select;
  }

  /** After any run of the desk the report's total is what its passes reported. */
  lemma ReportAgrees(cfg: Orders.Config, rate: real, moves: seq<Move>, ms: seq<Metrics.Trade>)
    requires (forall m :: m in moves ==> Proper(m)) && SameRows(ms, After(cfg, rate, moves).trades)
    ensures Metrics.Total(Metrics.ClosedRows(ms)) == After(cfg, rate, moves).reported
  {
    DeskIsSound(cfg, rate, moves);
    hide After, Metrics.Total, Metrics.ClosedRows;
    TotalIsRealised(ms, After(cfg, rate, moves).trades);
  }
}
