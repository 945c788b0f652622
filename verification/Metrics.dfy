/** The loops behind the performance report: totals, groups by category and by regime, and streaks. */
module Metrics {
  import opened Options
  import opened Rounding
  import opened Sums
  import StableSort

  datatype Trade = Trade(status: string, direction: string, pnl: Option<real>, category: Option<string>,
                         regime: Option<string>, timestamp: real, closedAt: Option<real>)

  datatype Tally = Tally(count: nat, pnl: real, wins: nat)

  datatype Kind = Win | Loss | Flat

  datatype Streaks = Streaks(longestWin: nat, longestLoss: nat, current: Kind, currentCount: nat)

  datatype Report = Report(total: real, grossProfit: real, grossLoss: real,
                           categories: seq<string>, byCategory: map<string, Tally>,
                           regimes: seq<string>, byRegime: map<string, Tally>,
                           byDirection: map<string, Tally>, streaks: Streaks)

  /** `row.get("pnl") or 0.0` */
  function Pnl(t: Trade): real {
    OrElse(t.pnl, 0.0)
  }

  /** `row.get("category") or "unknown"`: a missing and an empty name read alike. */
  function Named(name: Option<string>): string {
    if name.None? || name.value == "" then "unknown" else name.value
  }

  function CategoryOf(t: Trade): string {
    Named(t.category)
  }

  function RegimeOf(t: Trade): string {
    Named(t.regime)
  }

  function DirectionOf(t: Trade): string {
    t.direction
  }

  function CloseTime(t: Trade): real {
    OrElse(t.closedAt, t.timestamp)
  }

  predicate IsClosed(t: Trade) {
    t.status == "closed" || t.status == "resolved"
  }

  function KindOf(t: Trade): Kind {
    if Won(t) then Win else if Lost(t) then Loss else Flat
  }

  predicate Won(t: Trade) {
    Pnl(t) > 0.0
  }

  predicate Lost(t: Trade) {
    Pnl(t) < 0.0
  }

  /** The elements that satisfy `p`, in order. */
  function Select(rows: seq<Trade>, p: Trade -> bool): (r: seq<Trade>)
    ensures forall t :: t in r <==> t in rows && p(t)
  {
    if rows == [] then []
    else
      var n := |rows| - 1;
      assert rows == rows[..n] + [rows[n]];
      Select(rows[..n], p) + Maybe(p(rows[n]), rows[n])
  }

  function Total(rows: seq<Trade>): real {
    if rows == [] then 0.0 else Total(rows[..|rows| - 1]) + Pnl(rows[|rows| - 1])
  }

  function Wins(rows: seq<Trade>): nat {
    if rows == [] then 0 else Wins(rows[..|rows| - 1]) + if Pnl(rows[|rows| - 1]) > 0.0 then 1 else 0
  }

  function TallyOf(rows: seq<Trade>): Tally {
    Tally(|rows|, Total(rows), Wins(rows))
  }

  function Plus(a: Tally, b: Tally): Tally {
    Tally(a.count + b.count, a.pnl + b.pnl, a.wins + b.wins)
  }

  lemma PlusSwaps(a: Tally, b: Tally, e: Tally)
    ensures Plus(Plus(a, e), b) == Plus(a, Plus(b, e)) == Plus(Plus(a, b), e)
  {}

  // ----- gross profit and loss ------------------------------------------------------------------

  function GrossProfit(rows: seq<Trade>): real {
    Total(Select(rows, Won))
  }

  function GrossLoss(rows: seq<Trade>): real {
    Abs(Total(Select(rows, Lost)))
  }

  /** What one row adds to a tally. */
  function Entry(t: Trade): Tally {
    Tally(1, Pnl(t), if Pnl(t) > 0.0 then 1 else 0)
  }

  function Maybe(present: bool, t: Trade): seq<Trade> {
    if present then [t] else []
  }

  lemma TallySnoc(rows: seq<Trade>, t: Trade, present: bool)
    ensures TallyOf(rows + Maybe(present, t)) == if present then Plus(TallyOf(rows), Entry(t)) else TallyOf(rows)
  {
    var all := rows + Maybe(present, t);
    if present {
      assert all[..|rows|] == rows;
    } else {
      assert all == rows;
    }
  }

  lemma {:induction false} SelectSign(rows: seq<Trade>)
    ensures var gains, losses := Total(Select(rows, Won)), Total(Select(rows, Lost));
            gains >= 0.0 && losses <= 0.0 && Total(rows) == gains + losses
  {
    if rows == [] {
    } else {
      var init, last := rows[..|rows| - 1], rows[|rows| - 1];
      SelectSign(init);
      TallySnoc(Select(init, Won), last, Won(last));
      TallySnoc(Select(init, Lost), last, Lost(last));
      assert Select(rows, Won) == Select(init, Won) + Maybe(Won(last), last);
      assert Select(rows, Lost) == Select(init, Lost) + Maybe(Lost(last), last);
    }
  }

  /** Total P&L is gross profit minus gross loss, and neither is negative. */
  lemma TotalSplits(rows: seq<Trade>)
    ensures Total(rows) == GrossProfit(rows) - GrossLoss(rows)
    ensures GrossProfit(rows) >= 0.0 && GrossLoss(rows) >= 0.0
  {
    SelectSign(rows);
  }

  // ----- groups -----------------------------------------------------------------------------------

  ghost predicate Distinct(keys: seq<string>) {
    forall i, j :: 0 <= i < j < |keys| ==> keys[i] != keys[j]
  }

  /** The rows with a given key, in order. */
  function Group(rows: seq<Trade>, key: Trade -> string, k: string): seq<Trade> {
    if rows == [] then []
    else Group(rows[..|rows| - 1], key, k) + Maybe(key(rows[|rows| - 1]) == k, rows[|rows| - 1])
  }

  /** What a row earned, where it belongs to `k`. */
  ghost function Share(t: Trade, key: Trade -> string, k: string): real {
    if key(t) == k && t.pnl.Some? then t.pnl.value else 0.0
  }

  ghost function Count(rows: seq<Trade>, p: Trade -> bool): nat {
    |set i | 0 <= i < |rows| && p(rows[i])|
  }

  lemma CountLast(rows: seq<Trade>, p: Trade -> bool)
    requires rows != []
    ensures Count(rows, p) == Count(rows[..|rows| - 1], p) + if p(rows[|rows| - 1]) then 1 else 0
  {
    CountSnoc(rows[..|rows| - 1], rows[|rows| - 1], p);
    assert rows == rows[..|rows| - 1] + [rows[|rows| - 1]];
  }

  lemma GroupLast(rows: seq<Trade>, key: Trade -> string, k: string)
    requires rows != []
    ensures var init, last := rows[..|rows| - 1], rows[|rows| - 1];
            TallyOf(Group(rows, key, k))
            == if key(last) == k then Plus(TallyOf(Group(init, key, k)), Entry(last)) else TallyOf(Group(init, key, k))
  {
    GroupSnoc(rows[..|rows| - 1], rows[|rows| - 1], key, k);
    assert rows == rows[..|rows| - 1] + [rows[|rows| - 1]];
  }

  ghost function Shares(rows: seq<Trade>, key: Trade -> string, k: string): seq<real> {
    seq(|rows|, i requires 0 <= i < |rows| => Share(rows[i], key, k))
  }

  lemma SharesLast(rows: seq<Trade>, key: Trade -> string, k: string)
    requires rows != []
    ensures Sum(Shares(rows, key, k)) == Sum(Shares(rows[..|rows| - 1], key, k)) + Share(rows[|rows| - 1], key, k)
  {
    assert Shares(rows, key, k)[..|rows| - 1] == Shares(rows[..|rows| - 1], key, k);
  }

  /** The tally of a key: how many rows have it, how many of those gained, and what they earned in all. */
  lemma {:induction false} TallyMeans(rows: seq<Trade>, key: Trade -> string, k: string)
    ensures var t := TallyOf(Group(rows, key, k));
            && t.count == Count(rows, (t: Trade) => key(t) == k)
            && t.wins == Count(rows, (t: Trade) => key(t) == k && IsKind(t, Win))
            && t.pnl == Sum(Shares(rows, key, k))
  {
    if rows == [] {
    } else {
      hide Group, Count, Shares, Sum, Total, Wins, TallyOf;
      TallyMeans(rows[..|rows| - 1], key, k);
      GroupLast(rows, key, k);
      CountLast(rows, (t: Trade) => key(t) == k);
      CountLast(rows, (t: Trade) => key(t) == k && IsKind(t, Win));
      SharesLast(rows, key, k);
    }
  }

  lemma CountSnoc(rows: seq<Trade>, t: Trade, p: Trade -> bool)
    ensures Count(rows + [t], p) == Count(rows, p) + if p(t) then 1 else 0
  {
    var all, n := rows + [t], |rows|;
    var before := set i | 0 <= i < n && p(rows[i]);
    assert forall i :: 0 <= i < n ==> all[i] == rows[i];
    assert (set i | 0 <= i < |all| && p(all[i])) == before + (if p(t) then {n} else {});
  }

  /** Rows without a category or a regime, or with an empty one, count as "unknown". */
  lemma NamedUnknown(t: Trade, k: string)
    ensures CategoryOf(t) == k
            <==> (t.category == Some(k) && k != "")
                 || (k == "unknown" && (t.category == None || t.category == Some("")))
    ensures RegimeOf(t) == k
            <==> (t.regime == Some(k) && k != "") || (k == "unknown" && (t.regime == None || t.regime == Some("")))
  {}

  /** `setdefault`: a missing entry counts as zero. */
  function At(stats: map<string, Tally>, k: string): Tally {
    if k in stats then stats[k] else Tally(0, 0.0, 0)
  }

  /** The sum of the entries of a dictionary, in the order of its keys. */
  ghost function SumOf(keys: seq<string>, stats: map<string, Tally>): Tally {
    if keys == [] then Tally(0, 0.0, 0)
    else Plus(SumOf(keys[..|keys| - 1], stats), At(stats, keys[|keys| - 1]))
  }

  /** `keys` lists the dictionary's keys once each. */
  ghost predicate Keyed(keys: seq<string>, stats: map<string, Tally>) {
    Distinct(keys) && forall k :: k in keys <==> k in stats
  }

  ghost predicate Occurs(rows: seq<Trade>, key: Trade -> string, k: string) {
    exists t :: t in rows && key(t) == k
  }

  /** The dictionary has exactly one entry for each key that occurs, the tally of that key's rows. */
  ghost predicate Grouped(rows: seq<Trade>, key: Trade -> string, keys: seq<string>, stats: map<string, Tally>) {
    && Keyed(keys, stats)
    && (forall k :: k in stats <==> Occurs(rows, key, k))
    && (forall k :: At(stats, k) == TallyOf(Group(rows, key, k)))
  }

  lemma OccursSnoc(rows: seq<Trade>, t: Trade, key: Trade -> string, k: string)
    ensures Occurs(rows + [t], key, k) <==> Occurs(rows, key, k) || key(t) == k
  {
    assert forall u :: u in rows + [t] <==> u in rows || u == t;
  }

  lemma GroupSnoc(rows: seq<Trade>, t: Trade, key: Trade -> string, k: string)
    ensures TallyOf(Group(rows + [t], key, k))
            == if key(t) == k then Plus(TallyOf(Group(rows, key, k)), Entry(t)) else TallyOf(Group(rows, key, k))
  {
    assert (rows + [t])[..|rows|] == rows;
    TallySnoc(Group(rows, key, k), t, key(t) == k);
  }

  /** The keys after a row with key `k`. */
  function Noted(keys: seq<string>, stats: map<string, Tally>, k: string): seq<string> {
    if k in stats then keys else keys + [k]
  }

  /** One more row adds its own tally to its key's entry and touches no other. */
  lemma GroupedSnoc(rows: seq<Trade>, t: Trade, key: Trade -> string, keys: seq<string>, stats: map<string, Tally>)
    requires Grouped(rows, key, keys, stats)
    ensures var k := key(t);
            Grouped(rows + [t], key, Noted(keys, stats, k), stats[k := Plus(At(stats, k), Entry(t))])
  {
    var k := key(t);
    var stats' := stats[k := Plus(At(stats, k), Entry(t))];
    forall c ensures At(stats', c) == TallyOf(Group(rows + [t], key, c)) {
      GroupSnoc(rows, t, key, c);
      hide TallyOf, Group, Entry, Plus;
      assert At(stats, c) == TallyOf(Group(rows, key, c));
    }
    hide TallyOf, Group, Entry, Plus, Occurs;
    forall c ensures c in stats' <==> Occurs(rows + [t], key, c) {
      OccursSnoc(rows, t, key, c);
    }
    assert forall c :: c in Noted(keys, stats, k) <==> c in keys || c == k;
  }

  lemma SumLast(keys: seq<string>, last: string, stats: map<string, Tally>)
    ensures SumOf(keys + [last], stats) == Plus(SumOf(keys, stats), At(stats, last))
  {
    hide At, Plus;
    assert (keys + [last])[..|keys|] == keys;
  }

  /** The sum does not look at keys it does not list. */
  lemma {:induction false} SumIgnores(keys: seq<string>, stats: map<string, Tally>, k: string, entry: Tally)
    requires k !in keys
    ensures SumOf(keys, stats[k := entry]) == SumOf(keys, stats)
  {
    hide Plus;
    if keys == [] {
    } else {
      var init, last := keys[..|keys| - 1], keys[|keys| - 1];
      assert keys == init + [last];
      SumIgnores(init, stats, k, entry);
      assert At(stats[k := entry], last) == At(stats, last);
    }
  }

  /** Raising one entry raises the sum by as much. */
  lemma {:induction false} SumRaised(keys: seq<string>, stats: map<string, Tally>, k: string, gain: Tally)
    requires Distinct(keys) && k in keys
    ensures SumOf(keys, stats[k := Plus(At(stats, k), gain)]) == Plus(SumOf(keys, stats), gain)
  {
    hide SumOf, Plus;
    var init, last := keys[..|keys| - 1], keys[|keys| - 1];
    var raised := stats[k := Plus(At(stats, k), gain)];
    assert keys == init + [last];
    SumLast(init, last, stats);
    SumLast(init, last, raised);
    if last == k {
      LastApart(keys);
      SumIgnores(init, stats, k, Plus(At(stats, k), gain));
      hide Distinct;
      PlusSwaps(SumOf(init, stats), At(stats, k), gain);
    } else {
      SumRaised(init, stats, k, gain);
      hide Distinct;
      assert At(raised, last) == At(stats, last);
      PlusSwaps(SumOf(init, stats), At(stats, last), gain);
    }
  }

  lemma LastApart(keys: seq<string>)
    requires Distinct(keys) && keys != []
    ensures keys[|keys| - 1] !in keys[..|keys| - 1]
  {}

  lemma SumSnoc(keys: seq<string>, stats: map<string, Tally>, k: string, gain: Tally)
    requires Keyed(keys, stats)
    ensures SumOf(Noted(keys, stats, k), stats[k := Plus(At(stats, k), gain)]) == Plus(SumOf(keys, stats), gain)
  {
    var entry := Plus(At(stats, k), gain);
    hide SumOf, Distinct;
    if k in stats {
      SumRaised(keys, stats, k, gain);
    } else {
      SumIgnores(keys, stats, k, entry);
      SumLast(keys, k, stats[k := entry]);
    }
  }

  /** The dictionary loop, used once with the category and once with the regime as key. */
  method GroupBy(rows: seq<Trade>, key: Trade -> string) returns (keys: seq<string>, stats: map<string, Tally>)
    ensures Grouped(rows, key, keys, stats)
    ensures SumOf(keys, stats) == TallyOf(rows)
  {
    hide Group, Occurs, Distinct;
    keys, stats := [], map[];
    NothingGrouped(key);
    hide Grouped, SumOf, TallyOf;
    for i := 0 to |rows|
      invariant Grouped(rows[..i], key, keys, stats) && Keyed(keys, stats)
      invariant SumOf(keys, stats) == TallyOf(rows[..i])
    {
      ghost var keys0, stats0 := keys, stats;
      var t, k := rows[i], key(rows[i]);
      if k !in stats {
        keys := keys + [k];
        stats := stats[k := Tally(0, 0.0, 0)];
      }
      stats := stats[k := stats[k].(count := stats[k].count + 1)];
      stats := stats[k := stats[k].(pnl := stats[k].pnl + Pnl(t))];
      if Pnl(t) > 0.0 {
        stats := stats[k := stats[k].(wins := stats[k].wins + 1)];
      }
      assert stats == stats0[k := Plus(At(stats0, k), Entry(t))];
      GroupedSnoc(rows[..i], t, key, keys0, stats0);
      SumSnoc(keys0, stats0, k, Entry(t));
      TallySnoc(rows[..i], t, true);
      assert rows[..i + 1] == rows[..i] + [t];
      KeyedFromGrouped(rows[..i + 1], key, keys, stats);
    }
    assert rows[..|rows|] == rows;
  }

  lemma NothingGrouped(key: Trade -> string)
    ensures Grouped([], key, [], map[]) && SumOf([], map[]) == TallyOf([])
  {}

  lemma KeyedFromGrouped(rows: seq<Trade>, key: Trade -> string, keys: seq<string>, stats: map<string, Tally>)
    requires Grouped(rows, key, keys, stats)
    ensures Keyed(keys, stats)
  {}

  // ----- streaks ----------------------------------------------------------------------------------

  /** What a row earned is a gain, a loss or nothing; a row without a P&L earned nothing. */
  ghost predicate IsKind(t: Trade, k: Kind) {
    match k
    case Win => t.pnl.Some? && t.pnl.value > 0.0
    case Loss => t.pnl.Some? && t.pnl.value < 0.0
    case Flat => t.pnl.None? || t.pnl.value == 0.0
  }

  /** Rows `i` up to `j` are all of kind `k`. */
  ghost predicate Run(rows: seq<Trade>, i: int, j: int, k: Kind) {
    0 <= i <= j <= |rows| && forall m :: i <= m < j ==> IsKind(rows[m], k)
  }

  /** `n` is the length of the longest contiguous segment of kind `k`. */
  ghost predicate Longest(rows: seq<Trade>, k: Kind, n: nat) {
    && (exists i, j :: Run(rows, i, j, k) && j - i == n)
    && (forall i, j :: Run(rows, i, j, k) ==> j - i <= n)
  }

  /** `n` is the length of the run of kind `k` that ends the list. */
  ghost predicate Trailing(rows: seq<Trade>, k: Kind, n: nat) {
    && n <= |rows| && Run(rows, |rows| - n, |rows|, k)
    && (n < |rows| ==> !IsKind(rows[|rows| - n - 1], k))
  }

  /** A trailing run grows or breaks with the next row, and only it can beat the longest one. */
  lemma StreakSnoc(rows: seq<Trade>, t: Trade, k: Kind, longest: nat, run: nat)
    requires Longest(rows, k, longest) && Trailing(rows, k, run)
    ensures var run' := if KindOf(t) == k then run + 1 else 0;
            Trailing(rows + [t], k, run') && Longest(rows + [t], k, if longest < run' then run' else longest)
  {
    var all := rows + [t];
    var run' := if KindOf(t) == k then run + 1 else 0;
    assert all[|rows|] == t && forall m :: 0 <= m < |rows| ==> all[m] == rows[m];
    forall i, j | Run(all, i, j, k) ensures j - i <= run' || j - i <= longest {
      if j <= |rows| {
        assert Run(rows, i, j, k);
      } else {
        assert KindOf(all[j - 1]) == k || i == j;
        assert i < |rows| - run ==> i <= |rows| - run - 1 < j;
      }
    }
    var i, j :| Run(rows, i, j, k) && j - i == longest;
    assert Run(all, i, j, k);
    assert Run(all, |all| - run', |all|, k);
  }

  lemma NoStreak(k: Kind)
    ensures Longest([], k, 0) && Trailing([], k, 0)
  {
    assert Run([], 0, 0, k);
  }

  /** What the four streak figures mean. */
  ghost predicate StreaksOf(ordered: seq<Trade>, s: Streaks) {
    && Longest(ordered, Win, s.longestWin) && Longest(ordered, Loss, s.longestLoss)
    && (if ordered == [] then s.current == Flat else IsKind(ordered[|ordered| - 1], s.current))
    && (if s.current == Flat then s.currentCount == 0 else Trailing(ordered, s.current, s.currentCount))
  }

  /** The counters of the loop after `rows`. */
  ghost predicate Counting(rows: seq<Trade>, s: Streaks, win: nat, loss: nat) {
    && Longest(rows, Win, s.longestWin) && Longest(rows, Loss, s.longestLoss)
    && Trailing(rows, Win, win) && Trailing(rows, Loss, loss)
    && s.current == (if rows == [] then Flat else KindOf(rows[|rows| - 1]))
    && s.currentCount == match s.current case Win => win case Loss => loss case Flat => 0
  }

  lemma CountNone()
    ensures Counting([], Streaks(0, 0, Flat, 0), 0, 0)
  {
    NoStreak(Win);
    NoStreak(Loss);
  }

  lemma CountNext(rows: seq<Trade>, t: Trade, s: Streaks, win: nat, loss: nat)
    requires Counting(rows, s, win, loss)
    ensures match KindOf(t)
      case Win =>
        var most := if s.longestWin < win + 1 then win + 1 else s.longestWin;
        Counting(rows + [t], Streaks(most, s.longestLoss, Win, win + 1), win + 1, 0)
      case Loss =>
        var most := if s.longestLoss < loss + 1 then loss + 1 else s.longestLoss;
        Counting(rows + [t], Streaks(s.longestWin, most, Loss, loss + 1), 0, loss + 1)
      case Flat => Counting(rows + [t], Streaks(s.longestWin, s.longestLoss, Flat, 0), 0, 0)
  {
    StreakSnoc(rows, t, Win, s.longestWin, win);
    StreakSnoc(rows, t, Loss, s.longestLoss, loss);
    hide Longest, Trailing;
  }

  method CountStreaks(ordered: seq<Trade>) returns (s: Streaks)
    ensures StreaksOf(ordered, s)
  {
    var longestWin, longestLoss, win, loss: nat := 0, 0, 0, 0;
    var current, count: nat := Flat, 0;
    CountNone();
    assert ordered[..0] == [];
    hide Longest, Trailing, Counting;
    for i := 0 to |ordered|
      invariant Counting(ordered[..i], Streaks(longestWin, longestLoss, current, count), win, loss)
    {
      CountNext(ordered[..i], ordered[i], Streaks(longestWin, longestLoss, current, count), win, loss);
      assert ordered[..i + 1] == ordered[..i] + [ordered[i]];
      var pnl := Pnl(ordered[i]);
      if pnl > 0.0 {
        win := win + 1;
        loss := 0;
        longestWin := if longestWin < win then win else longestWin;
        current, count := Win, win;
      } else if pnl < 0.0 {
        loss := loss + 1;
        win := 0;
        longestLoss := if longestLoss < loss then loss else longestLoss;
        current, count := Loss, loss;
      } else {
        win, loss := 0, 0;
        current, count := Flat, 0;
      }
    }
    assert ordered[..|ordered|] == ordered;
    s := Streaks(longestWin, longestLoss, current, count);
    CountedStreaks(ordered, s, win, loss);
  }

  lemma CountedStreaks(ordered: seq<Trade>, s: Streaks, win: nat, loss: nat)
    requires Counting(ordered, s, win, loss)
    ensures StreaksOf(ordered, s)
  {
    hide Longest, Trailing;
  }

  /** The streaks of a list are determined by it. */
  lemma StreaksAreDetermined(ordered: seq<Trade>, s: Streaks, s': Streaks)
    requires StreaksOf(ordered, s) && StreaksOf(ordered, s')
    ensures s == s'
  {
    LongestIsUnique(ordered, Win, s.longestWin, s'.longestWin);
    LongestIsUnique(ordered, Loss, s.longestLoss, s'.longestLoss);
    if s.current != Flat {
      TrailingIsUnique(ordered, s.current, s.currentCount, s'.currentCount);
    }
  }

  lemma LongestIsUnique(rows: seq<Trade>, k: Kind, m: nat, n: nat)
    requires Longest(rows, k, m) && Longest(rows, k, n)
    ensures m == n
  {
    var i, j :| Run(rows, i, j, k) && j - i == m;
    var p, q :| Run(rows, p, q, k) && q - p == n;
  }

  lemma TrailingIsUnique(rows: seq<Trade>, k: Kind, m: nat, n: nat)
    requires Trailing(rows, k, m) && Trailing(rows, k, n)
    ensures m == n
  {}

  // ----- the report -------------------------------------------------------------------------------

  ghost predicate OnSides(rows: seq<Trade>, yes: string, no: string) {
    forall t :: t in rows ==> t.direction == yes || t.direction == no
  }

  lemma OnSidesSnoc(rows: seq<Trade>, t: Trade, yes: string, no: string)
    ensures OnSides(rows + [t], yes, no) <==> OnSides(rows, yes, no) && (t.direction == yes || t.direction == no)
  {
    assert forall u :: u in rows + [t] <==> u in rows || u == t;
  }

  lemma {:induction false} SideCounts(rows: seq<Trade>, yes: string, no: string)
    requires yes != no
    ensures var count := |Group(rows, DirectionOf, yes)| + |Group(rows, DirectionOf, no)|;
            count <= |rows| && (count == |rows| <==> OnSides(rows, yes, no))
  {
    if rows == [] {
    } else {
      var init, last := rows[..|rows| - 1], rows[|rows| - 1];
      SideCounts(init, yes, no);
      OnSidesSnoc(init, last, yes, no);
      assert rows == init + [last];
      hide OnSides;
    }
  }

  lemma {:induction false} SideTallies(rows: seq<Trade>, yes: string, no: string)
    requires yes != no && OnSides(rows, yes, no)
    ensures Plus(TallyOf(Group(rows, DirectionOf, yes)), TallyOf(Group(rows, DirectionOf, no))) == TallyOf(rows)
  {
    if rows == [] {
    } else {
      hide TallyOf, Group, OnSides;
      var init, last := rows[..|rows| - 1], rows[|rows| - 1];
      assert rows == init + [last] == init + Maybe(true, last);
      OnSidesSnoc(init, last, yes, no);
      SideTallies(init, yes, no);
      var y, n := TallyOf(Group(init, DirectionOf, yes)), TallyOf(Group(init, DirectionOf, no));
      GroupSnoc(init, last, DirectionOf, yes);
      GroupSnoc(init, last, DirectionOf, no);
      TallySnoc(init, last, true);
      PlusSwaps(y, n, Entry(last));
      hide Plus, Entry;
    }
  }

  /** The two sides of the report add up to the whole exactly when every row is on one of them. */
  lemma SidesAddUp(rows: seq<Trade>, yes: string, no: string)
    requires yes != no
    ensures Plus(TallyOf(Group(rows, DirectionOf, yes)), TallyOf(Group(rows, DirectionOf, no))) == TallyOf(rows)
            <==> OnSides(rows, yes, no)
  {
    hide Group, OnSides, Total, Wins;
    SideCounts(rows, yes, no);
    if OnSides(rows, yes, no) {
      SideTallies(rows, yes, no);
    }
  }

  function ClosedRows(rows: seq<Trade>): seq<Trade> {
    Select(rows, IsClosed)
  }

  function CloseOrder(rows: seq<Trade>): seq<Trade> {
    StableSort.Sort(ClosedRows(rows), CloseTime)
  }

  /** The streaks are read off exactly the closed rows, in order of closing; rows closed at the same time
      stay in table order. */
  lemma CloseOrderIsStable(rows: seq<Trade>, time: real)
    ensures multiset(CloseOrder(rows)) == multiset(ClosedRows(rows))
    ensures StableSort.SortedBy(CloseOrder(rows), CloseTime)
    ensures StableSort.WithKey(CloseOrder(rows), CloseTime, time)
            == StableSort.WithKey(ClosedRows(rows), CloseTime, time)
    ensures forall t :: t in CloseOrder(rows) <==> t in rows && (t.status == "closed" || t.status == "resolved")
  {
    StableSort.SortSorted(ClosedRows(rows), CloseTime);
    StableSort.SortStable(ClosedRows(rows), CloseTime, time);
    StableSort.SortMembers(ClosedRows(rows), CloseTime);
  }

  method GetMetrics(rows: seq<Trade>) returns (r: Report)
    ensures var closed := ClosedRows(rows);
            && r.total == Total(closed) == r.grossProfit - r.grossLoss
            && r.grossProfit == GrossProfit(closed) >= 0.0 && r.grossLoss == GrossLoss(closed) >= 0.0
            && Grouped(closed, CategoryOf, r.categories, r.byCategory)
            && Grouped(closed, RegimeOf, r.regimes, r.byRegime)
            && SumOf(r.categories, r.byCategory) == SumOf(r.regimes, r.byRegime) == TallyOf(closed)
            && r.byDirection.Keys == {"YES", "NO"}
            && r.byDirection["YES"] == TallyOf(Group(closed, DirectionOf, "YES"))
            && r.byDirection["NO"] == TallyOf(Group(closed, DirectionOf, "NO"))
    ensures StreaksOf(CloseOrder(rows), r.streaks)
  {
    hide Grouped, SumOf, Group, Select, Total, Wins, StableSort.Sort, StreaksOf;
    var closed := ClosedRows(rows);
    TotalSplits(closed);
    var categories, byCategory := GroupBy(closed, CategoryOf);
    var byDirection := map["YES" := TallyOf(Group(closed, DirectionOf, "YES")),
                           "NO" := TallyOf(Group(closed, DirectionOf, "NO"))];
    var regimes, byRegime := GroupBy(closed, RegimeOf);
    var streaks := CountStreaks(CloseOrder(rows));
    r := Report(Total(closed), GrossProfit(closed), GrossLoss(closed),
                categories, byCategory, regimes, byRegime, byDirection, streaks);
  }
}
