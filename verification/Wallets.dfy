/** Multi-wallet routing: which wallet a strategy picks, and how evenly capital ends up spread. */
module Wallets {
  import opened Rounding
  import opened Products
  import opened Sums

  datatype Wallet = Wallet(address: string, allocation: real, utilization: real, tradeCount: nat)

  datatype Built = Ready(wallets: seq<Wallet>) | Rejected(reason: string)

  /** The 1e-9 that keeps ratios of unused wallets and of zero allocations defined. */
  const EPS: real := 0.000000001

  const NO_WALLET := "unknown strategy"

  // ----- construction ---------------------------------------------------------------------------

  function Scaled(xs: seq<real>, total: real): seq<real>
    requires total != 0.0
  {
    seq(|xs|, i requires 0 <= i < |xs| => xs[i] / total)
  }

  /** What `strip` takes for whitespace. */
  predicate Blank(c: char) {
    var code := c as int;
    || 0x09 <= code <= 0x0D || 0x1C <= code <= 0x20 || code == 0x85 || code == 0xA0 || code == 0x1680
    || 0x2000 <= code <= 0x200A || code == 0x2028 || code == 0x2029 || code == 0x202F || code == 0x205F
    || code == 0x3000
  }

  /** A key without the whitespace around it. */
  function Strip(key: string): (r: string)
    ensures r == "" || (!Blank(r[0]) && !Blank(r[|r| - 1]))
    ensures r == "" <==> forall c :: c in key ==> Blank(c)
  {
    if key == "" then key
    else if Blank(key[0]) then
      assert forall c :: c in key <==> c in key[1..] || c == key[0];
      Strip(key[1..])
    else if Blank(key[|key| - 1]) then
      assert key[0] in key && key[0] in key[..|key| - 1];
      Strip(key[..|key| - 1])
    else
      assert key[0] in key;
      key
  }

  /** The same, character by character: the ASCII separators, next line, the no-break spaces and the other Unicode
      spaces. */
  const BLANKS: string :=
    "\t\n\U{B}\U{C}\r\U{1C}\U{1D}\U{1E}\U{1F} \U{85}\U{A0}\U{1680}\U{2000}\U{2001}\U{2002}\U{2003}\U{2004}"
    + "\U{2005}\U{2006}\U{2007}\U{2008}\U{2009}\U{200A}\U{2028}\U{2029}\U{202F}\U{205F}\U{3000}"

  lemma BlankExactly(c: char)
    ensures Blank(c) <==> c in BLANKS
  {}

  lemma {:induction false} StripBefore(before: string, key: string)
    requires forall c :: c in before ==> Blank(c)
    ensures Strip(before + key) == Strip(key)
  {
    hide Blank;
    if before == "" {
      assert before + key == key;
    } else {
      assert (before + key)[0] == before[0] && before[0] in before && (before + key)[1..] == before[1..] + key;
      StripBefore(before[1..], key);
    }
  }

  lemma {:induction false} StripAfter(key: string, after: string)
    requires (forall c :: c in after ==> Blank(c)) && (key != "" ==> !Blank(key[0]) && !Blank(key[|key| - 1]))
    ensures Strip(key + after) == key
  {
    hide Blank;
    if key == "" {
      assert forall c :: c in key + after ==> c in after;
    } else if after == "" {
      assert key + after == key;
    } else {
      var all, n := key + after, |after| - 1;
      assert all[0] == key[0] && all[|all| - 1] == after[n] && after[n] in after;
      assert all[..|all| - 1] == key + after[..n];
      StripAfter(key, after[..n]);
    }
  }

  /** Stripping removes what is blank around a key, however much of it, and nothing of the key. */
  lemma StripsExactly(before: string, key: string, after: string)
    requires forall c :: c in before + after ==> c in BLANKS
    requires key != "" ==> key[0] !in BLANKS && key[|key| - 1] !in BLANKS
    ensures Strip(before + key + after) == key
  {
    forall c ensures Blank(c) <==> c in BLANKS {
      BlankExactly(c);
    }
    hide Blank;
    forall c | c in before || c in after ensures Blank(c) {
      assert c in before + after;
    }
    assert before + key + after == before + (key + after);
    StripBefore(before, key + after);
    StripAfter(key, after);
  }

  function Entries(keys: seq<string>, allocations: seq<real>, derive: string -> string): seq<Wallet>
    requires |keys| == |allocations|
  {
    if keys == [] then []
    else
      var n := |keys| - 1;
      Entries(keys[..n], allocations[..n], derive)
      + (if Strip(keys[n]) == "" then [] else [Wallet(derive(Strip(keys[n])), allocations[n], 0.0, 0)])
  }

  /** `WalletManager.__init__`: normalise, strip the keys, skip blank ones. */
  method Build(keys: seq<string>, allocations: seq<real>, defaulted: bool, derive: string -> string) returns (r: Built)
    ensures r.Ready? <==>
              && keys != [] && (defaulted || |allocations| == |keys|)
              && (!defaulted ==> Sum(allocations) > 0.0) && (exists k :: k in keys && Strip(k) != "")
    ensures r.Ready? ==>
              var weights := if defaulted then seq(|keys|, _ => 1.0 / |keys| as real) else allocations;
              && Sum(weights) > 0.0 && r.wallets != []
              && r.wallets == Entries(keys, Scaled(weights, Sum(weights)), derive)
  {
    if keys == [] {
      return Rejected("at least one private key required");
    }
    var weights := if defaulted then seq(|keys|, _ => 1.0 / |keys| as real) else allocations;
    if |weights| != |keys| {
      return Rejected("allocations length must match private_keys");
    }
    var total := Sum(weights);
    if defaulted {
      EqualWeights(|keys|, 1.0 / |keys| as real);
      DivCancel(1.0, |keys| as real);
      MulSymmetric(|keys| as real, 1.0 / |keys| as real);
    }
    if total <= 0.0 {
      return Rejected("total allocation must be > 0");
    }
    var scaled := Scaled(weights, total);
    var wallets: seq<Wallet> := [];
    for i := 0 to |keys|
      invariant wallets == Entries(keys[..i], scaled[..i], derive)
    {
      assert keys[..i + 1][..i] == keys[..i] && scaled[..i + 1][..i] == scaled[..i];
      var key := Strip(keys[i]);
      if key != "" {
        wallets := wallets + [Wallet(derive(key), scaled[i], 0.0, 0)];
      }
    }
    assert keys[..|keys|] == keys && scaled[..|keys|] == scaled;
    EntriesEmpty(keys, scaled, derive);
    if wallets == [] {
      return Rejected("no valid private keys after filtering");
    }
    r := Ready(wallets);
  }

  lemma {:induction false} EqualWeights(n: nat, w: real)
    ensures Sum(seq(n, _ => w)) == Mul(n as real, w)
  {
    if n == 0 {
    } else {
      EqualWeights(n - 1, w);
      assert seq(n, _ => w)[..n - 1] == seq(n - 1, _ => w);
      Distribute(w, (n - 1) as real, 1.0);
    }
  }

  lemma {:induction false} EntriesEmpty(keys: seq<string>, allocations: seq<real>, derive: string -> string)
    requires |keys| == |allocations|
    ensures Entries(keys, allocations, derive) == [] <==> forall k :: k in keys ==> Strip(k) == ""
  {
    hide Strip;
    if keys == [] {
    } else {
      var n := |keys| - 1;
      EntriesEmpty(keys[..n], allocations[..n], derive);
      assert keys[n] in keys;
      assert forall k :: k in keys <==> k in keys[..n] || k == keys[n];
    }
  }

  /** Normalised weights add up to one. */
  lemma {:induction false} ScaledSum(xs: seq<real>, total: real)
    requires total != 0.0
    ensures Sum(Scaled(xs, total)) == Sum(xs) / total
  {
    if xs == [] {
    } else {
      var n := |xs| - 1;
      ScaledSum(xs[..n], total);
      assert Scaled(xs, total)[..n] == Scaled(xs[..n], total);
    }
  }

  lemma ScaledLength(xs: seq<real>, total: real)
    requires total != 0.0
    ensures |Scaled(xs, total)| == |xs|
  {}

  function Allocations(ws: seq<Wallet>): seq<real> {
    seq(|ws|, i requires 0 <= i < |ws| => ws[i].allocation)
  }

  /** Without blank keys every key has its wallet, in order, and the allocations add up to exactly one. */
  lemma {:induction false} AllocationsAddToOne(keys: seq<string>, weights: seq<real>, derive: string -> string)
    requires |keys| == |weights| && Sum(weights) > 0.0 && forall k :: k in keys ==> Strip(k) != ""
    ensures var ws := Entries(keys, Scaled(weights, Sum(weights)), derive);
            Allocations(ws) == Scaled(weights, Sum(weights)) && Sum(Allocations(ws)) == 1.0
  {
    hide Entries, Scaled, Sum, Allocations, Strip;
    ScaledLength(weights, Sum(weights));
    EntriesInOrder(keys, Scaled(weights, Sum(weights)), derive);
    ScaledSum(weights, Sum(weights));
    assert Sum(weights) / Sum(weights) == 1.0;
  }

  lemma {:induction false} EntriesInOrder(keys: seq<string>, scaled: seq<real>, derive: string -> string)
    requires |keys| == |scaled| && forall k :: k in keys ==> Strip(k) != ""
    ensures Allocations(Entries(keys, scaled, derive)) == scaled
  {
    hide Strip;
    if keys == [] {
    } else {
      var n := |keys| - 1;
      assert forall k :: k in keys <==> k in keys[..n] || k == keys[n];
      EntriesInOrder(keys[..n], scaled[..n], derive);
      var init := Entries(keys[..n], scaled[..n], derive);
      var all := Entries(keys, scaled, derive);
      assert keys[n] in keys;
      assert all == init + [Wallet(derive(Strip(keys[n])), scaled[n], 0.0, 0)];
      assert Allocations(all) == Allocations(init) + [scaled[n]];
      assert scaled == scaled[..n] + [scaled[n]];
    }
  }

  // ----- selection ------------------------------------------------------------------------------

  /** What the weighted strategy divides by: the allocation, but at least 1e-9. */
  function Weight(w: Wallet): real {
    Max(w.allocation, EPS)
  }

  function Ratio(w: Wallet): real {
    (w.utilization + EPS) / Weight(w)
  }

  /** `i` is the first wallet with the least key. */
  ghost predicate FirstLeast(ws: seq<Wallet>, key: Wallet -> real, i: nat) {
    && i < |ws|
    && (forall j :: 0 <= j < |ws| ==> key(ws[i]) <= key(ws[j]))
    && (forall j :: 0 <= j < i ==> key(ws[i]) < key(ws[j]))
  }

  method PickLeast(ws: seq<Wallet>, key: Wallet -> real) returns (i: nat)
    requires ws != []
    ensures FirstLeast(ws, key, i)
  {
    i := 0;
    for j := 1 to |ws|
      invariant i < j
      invariant forall k :: 0 <= k < j ==> key(ws[i]) <= key(ws[k])
      invariant forall k :: 0 <= k < i ==> key(ws[i]) < key(ws[k])
    {
      if key(ws[j]) < key(ws[i]) {
        i := j;
      }
    }
  }

  /** Addresses are compared without regard to case. */
  function Lower(address: string): string {
    seq(|address|, i requires 0 <= i < |address| =>
      if 'A' <= address[i] <= 'Z' then (address[i] as int + 32) as char else address[i])
  }

  predicate SameAddress(a: string, b: string) {
    Lower(a) == Lower(b)
  }

  const UPPER := "ABCDEFGHIJKLMNOPQRSTUVWXYZ"
  const LOWER := "abcdefghijklmnopqrstuvwxyz"

  /** The same letter in upper and in lower case. */
  ghost predicate CasePair(x: char, y: char) {
    exists k :: 0 <= k < 26 && UPPER[k] == x && LOWER[k] == y
  }

  lemma CasePairCodes(x: char, y: char)
    ensures CasePair(x, y) <==> 'A' <= x <= 'Z' && y as int == x as int + 32
  {
    LetterCodes();
    if 'A' <= x <= 'Z' && y as int == x as int + 32 {
      var k := x as int - 'A' as int;
      assert UPPER[k] as int == x as int && LOWER[k] as int == y as int;
    }
    hide UPPER, LOWER;
  }

  lemma LetterCodes()
    ensures |UPPER| == |LOWER| == 26
    ensures forall k :: 0 <= k < 26 ==> UPPER[k] as int == 'A' as int + k && LOWER[k] as int == 'a' as int + k
  {}

  /** Two addresses are the same if they agree character by character but for the case of letters. */
  lemma SameAddressExactly(a: string, b: string)
    ensures SameAddress(a, b)
            <==> |a| == |b|
                 && forall i :: 0 <= i < |a| ==> a[i] == b[i] || CasePair(a[i], b[i]) || CasePair(b[i], a[i])
  {
    forall x: char, y: char ensures CasePair(x, y) <==> 'A' <= x <= 'Z' && y as int == x as int + 32 {
      CasePairCodes(x, y);
    }
    hide CasePair;
    assert |Lower(a)| == |a| && |Lower(b)| == |b|;
    if SameAddress(a, b) {
      forall i | 0 <= i < |a| ensures a[i] == b[i] || CasePair(a[i], b[i]) || CasePair(b[i], a[i]) {
        assert Lower(a)[i] == Lower(b)[i];
      }
    }
  }

  /** The wallet the records of `address` go to: the first with that address. */
  function Find(ws: seq<Wallet>, address: string): (i: nat)
    ensures i <= |ws| && (forall j :: 0 <= j < i ==> !SameAddress(ws[j].address, address))
    ensures i < |ws| ==> SameAddress(ws[i].address, address)
  {
    if ws == [] then 0 else if SameAddress(ws[0].address, address) then 0 else 1 + Find(ws[1..], address)
  }

  function Recorded(ws: seq<Wallet>, address: string, amount: real): seq<Wallet> {
    var i := Find(ws, address);
    if i == |ws| then ws
    else ws[i := ws[i].(utilization := ws[i].utilization + amount, tradeCount := ws[i].tradeCount + 1)]
  }

  datatype Strategy = RoundRobin | MinUtilization | Weighted | Other

  class WalletManager {
    var wallets: seq<Wallet>
    var rrIndex: nat

    constructor (ws: seq<Wallet>)
      ensures wallets == ws && rrIndex == 0
    {
      wallets, rrIndex := ws, 0;
    }

    /** `get_wallet`: the address and whether the strategy is known. */
    method GetWallet(strategy: Strategy) returns (address: string, known: bool)
      requires wallets != []
      modifies this`rrIndex
      ensures known == (strategy != Other)
      ensures strategy == RoundRobin
              ==> address == wallets[old(rrIndex) % |wallets|].address && rrIndex == old(rrIndex) + 1
      ensures strategy == MinUtilization ==>
                exists i: nat :: FirstLeast(wallets, (w: Wallet) => w.utilization, i) && address == wallets[i].address
      ensures strategy == Weighted ==> exists i: nat :: FirstLeast(wallets, Ratio, i) && address == wallets[i].address
      ensures strategy != RoundRobin ==> rrIndex == old(rrIndex)
    {
      match strategy
      case RoundRobin =>
        address := wallets[rrIndex % |wallets|].address;
        rrIndex := rrIndex + 1;
        known := true;
      case MinUtilization =>
        var i := PickLeast(wallets, (w: Wallet) => w.utilization);
        address, known := wallets[i].address, true;
      case Weighted =>
        var i := PickLeast(wallets, Ratio);
        address, known := wallets[i].address, true;
      case Other =>
        address, known := NO_WALLET, false;
    }

    /** `record_utilization`. */
    method RecordUtilization(address: string, amount: real)
      modifies this`wallets
      ensures wallets == Recorded(old(wallets), address, amount)
    {
      hide Lower;
      for i := 0 to |wallets|
        invariant wallets == old(wallets)
        invariant forall j :: 0 <= j < i ==> !SameAddress(wallets[j].address, address)
      {
        if SameAddress(wallets[i].address, address) {
          assert Find(wallets, address) == i;
          wallets := wallets[i := wallets[i].(utilization := wallets[i].utilization + amount,
                                              tradeCount := wallets[i].tradeCount + 1)];
          return;
        }
      }
      assert Find(wallets, address) == |wallets|;
    }

    /** `reset_utilization`. */
    method ResetUtilization()
      modifies this`wallets
      ensures Unused(wallets) && SameWallets(old(wallets), wallets)
    {
      var ws := wallets;
      wallets := seq(|ws|, i requires 0 <= i < |ws| => ws[i].(utilization := 0.0, tradeCount := 0));
    }
  }

  // ----- runs of pick-then-record ---------------------------------------------------------------

  ghost predicate DistinctAddresses(ws: seq<Wallet>) {
    forall i, j :: 0 <= i < j < |ws| ==> !SameAddress(ws[i].address, ws[j].address)
  }

  ghost predicate Unused(ws: seq<Wallet>) {
    forall w :: w in ws ==> w.utilization == 0.0 && w.tradeCount == 0
  }

  /** `states` is a history of the wallet list in which each step picks the least wallet by `key` and records
      an amount between 0 and `most` on it. */
  ghost predicate Routed(states: seq<seq<Wallet>>, key: Wallet -> real, most: real) {
    && states != [] && Unused(states[0]) && DistinctAddresses(states[0])
    && forall k :: 0 <= k < |states| - 1 ==> RoutedStep(states[k], states[k + 1], key, most)
  }

  ghost predicate RoutedStep(ws: seq<Wallet>, ws': seq<Wallet>, key: Wallet -> real, most: real) {
    exists i: nat, amount: real ::
        FirstLeast(ws, key, i) && 0.0 <= amount <= most && ws' == Recorded(ws, ws[i].address, amount)
  }

  function TotalUsed(ws: seq<Wallet>): real {
    if ws == [] then 0.0 else ws[0].utilization + TotalUsed(ws[1..])
  }

  function TotalWeight(ws: seq<Wallet>): real {
    if ws == [] then 0.0 else Weight(ws[0]) + TotalWeight(ws[1..])
  }

  /** The load bound for wallet `w`: (u + e) <= b (U + n e) / B + M, multiplied out. */
  ghost predicate Bounded(w: Wallet, ws: seq<Wallet>, most: real) {
    Mul(w.utilization + EPS - most, TotalWeight(ws)) <= Mul(TotalUsed(ws) + |ws| as real * EPS, Weight(w))
  }

  lemma {:induction false} LeastIsBelowMean(w: Wallet, ws: seq<Wallet>)
    requires forall j :: 0 <= j < |ws| ==> Ratio(w) <= Ratio(ws[j])
    ensures Mul(w.utilization + EPS, TotalWeight(ws)) <= Mul(TotalUsed(ws) + |ws| as real * EPS, Weight(w))
  {
    var x := w.utilization + EPS;
    if ws == [] {
    } else {
      var h := ws[0];
      LeastIsBelowMean(w, ws[1..]);
      RatioCross(w, h);
      hide Mul, Ratio;
      Distribute(x, Weight(h), TotalWeight(ws[1..]));
      Distribute(Weight(w), h.utilization + EPS, TotalUsed(ws[1..]) + |ws[1..]| as real * EPS);
      assert |ws| as real * EPS == EPS + |ws[1..]| as real * EPS;
    }
  }

  lemma RatioCross(w: Wallet, h: Wallet)
    requires Ratio(w) <= Ratio(h)
    ensures Mul(w.utilization + EPS, Weight(h)) <= Mul(h.utilization + EPS, Weight(w))
  {
    var x, y, b, c := w.utilization + EPS, h.utilization + EPS, Weight(w), Weight(h);
    DivCancel(x, b);
    DivCancel(y, c);
    MulMonotone(x / b, y / c, b * c);
    assert x / b * (b * c) == x / b * b * c;
    assert y / c * (b * c) == y / c * c * b;
  }

  lemma {:induction false} UpdateTotals(ws: seq<Wallet>, i: nat, w: Wallet)
    requires i < |ws| && w.allocation == ws[i].allocation
    ensures TotalUsed(ws[i := w]) == TotalUsed(ws) - ws[i].utilization + w.utilization
    ensures TotalWeight(ws[i := w]) == TotalWeight(ws)
  {
    if i == 0 {
      assert ws[i := w][1..] == ws[1..];
    } else {
      assert ws[i := w][1..] == ws[1..][i - 1 := w];
      UpdateTotals(ws[1..], i - 1, w);
    }
  }

  lemma {:induction false} TotalWeightPositive(ws: seq<Wallet>)
    ensures TotalWeight(ws) >= 0.0 && (ws != [] ==> TotalWeight(ws) > 0.0)
  {
    if ws == [] {
    } else {
      TotalWeightPositive(ws[1..]);
    }
  }

  /** With distinct addresses a record lands on the picked wallet. */
  lemma RecordLands(ws: seq<Wallet>, i: nat, amount: real)
    requires i < |ws| && DistinctAddresses(ws)
    ensures Recorded(ws, ws[i].address, amount)
            == ws[i := Charged(ws[i], amount)]
  {
    hide Lower;
    var k := Find(ws, ws[i].address);
    assert k == i;
  }

  /** What a run keeps: the wallets themselves, and unused wallets at zero. */
  ghost predicate SameWallets(ws: seq<Wallet>, ws': seq<Wallet>) {
    && |ws'| == |ws|
    && forall i :: 0 <= i < |ws| ==> ws'[i].address == ws[i].address && ws'[i].allocation == ws[i].allocation
  }

  ghost predicate Loads(ws: seq<Wallet>, most: real) {
    && (forall i :: 0 <= i < |ws| && ws[i].tradeCount > 0 ==> Bounded(ws[i], ws, most))
    && (forall i :: 0 <= i < |ws| && ws[i].tradeCount == 0 ==> ws[i].utilization == 0.0)
  }

  ghost function Share(ws: seq<Wallet>): real {
    TotalUsed(ws) + |ws| as real * EPS
  }

  lemma PickedBounded(ws: seq<Wallet>, i: nat, amount: real, most: real)
    requires FirstLeast(ws, Ratio, i) && 0.0 <= amount <= most
    ensures Mul(ws[i].utilization + amount + EPS - most, TotalWeight(ws)) <= Mul(Share(ws), Weight(ws[i]))
  {
    hide Mul, Ratio;
    LeastIsBelowMean(ws[i], ws);
    TotalWeightPositive(ws);
    MulMonotone(ws[i].utilization + amount + EPS - most, ws[i].utilization + EPS, TotalWeight(ws));
  }

  /** A record on the picked wallet keeps every bound: the picked one by the choice, the rest because the
      total only grows. */
  lemma WeightedStepBounds(ws: seq<Wallet>, i: nat, amount: real, most: real)
    requires FirstLeast(ws, Ratio, i) && 0.0 <= amount <= most && Loads(ws, most)
    ensures var ws' := ws[i := Charged(ws[i], amount)];
            Loads(ws', most) && TotalUsed(ws') == TotalUsed(ws) + amount && TotalWeight(ws') == TotalWeight(ws)
  {
    var w' := Charged(ws[i], amount);
    var ws' := ws[i := w'];
    UpdateTotals(ws, i, w');
    PickedBounded(ws, i, amount, most);
    hide Mul, Ratio, FirstLeast;
    forall j | 0 <= j < |ws'| && ws'[j].tradeCount > 0 ensures Bounded(ws'[j], ws', most) {
      MulMonotone(Share(ws), Share(ws'), Weight(ws'[j]));
      if j != i {
        assert Bounded(ws[j], ws, most);
      }
    }
  }

  function Charged(w: Wallet, amount: real): Wallet {
    w.(utilization := w.utilization + amount, tradeCount := w.tradeCount + 1)
  }

  ghost predicate AllBounded(ws: seq<Wallet>, most: real) {
    forall w :: w in ws ==> Bounded(w, ws, most)
  }

  lemma RoutedPrefix(states: seq<seq<Wallet>>, key: Wallet -> real, most: real)
    requires Routed(states, key, most) && |states| > 1
    ensures var n := |states| - 1;
            && Routed(states[..n], key, most) && states[..n][n - 1] == states[n - 1] && states[..n][0] == states[0]
            && RoutedStep(states[n - 1], states[n], key, most)
  {
    var n := |states| - 1;
    hide RoutedStep;
    assert RoutedStep(states[n - 1], states[n - 1 + 1], key, most);
  }

  /** Weighted routing tracks allocations: after any run from fresh wallets, every wallet that was ever
      picked holds at most its weight's share of the total, plus one amount. */
  lemma {:induction false} WeightedTracksAllocations(states: seq<seq<Wallet>>, most: real)
    requires Routed(states, Ratio, most)
    ensures var ws := states[|states| - 1];
            && DistinctAddresses(ws) && SameWallets(states[0], ws) && Loads(ws, most)
            && TotalUsed(ws) >= 0.0 && TotalWeight(ws) == TotalWeight(states[0])
  {
    var n := |states| - 1;
    if n == 0 {
      UnusedTotals(states[0]);
    } else {
      RoutedPrefix(states, Ratio, most);
      hide Routed, Loads, Ratio, RoutedStep, DistinctAddresses, SameWallets;
      WeightedTracksAllocations(states[..n], most);
      WeightedStep(states[n - 1], states[n], most);
      SameTransitive(states[0], states[n - 1], states[n]);
    }
  }

  lemma SameTransitive(a: seq<Wallet>, b: seq<Wallet>, c: seq<Wallet>)
    requires SameWallets(a, b) && SameWallets(b, c)
    ensures SameWallets(a, c)
  {}

  lemma WeightedStep(ws: seq<Wallet>, ws': seq<Wallet>, most: real)
    requires RoutedStep(ws, ws', Ratio, most) && DistinctAddresses(ws) && Loads(ws, most)
    ensures DistinctAddresses(ws') && SameWallets(ws, ws') && Loads(ws', most)
    ensures TotalUsed(ws') >= TotalUsed(ws) && TotalWeight(ws') == TotalWeight(ws)
  {
    hide Loads, Ratio, Recorded;
    var i: nat, amount: real :| FirstLeast(ws, Ratio, i) && 0.0 <= amount <= most
        && ws' == Recorded(ws, ws[i].address, amount);
    LeastInRange(ws, Ratio, i);
    RecordLands(ws, i, amount);
    WeightedStepBounds(ws, i, amount, most);
  }

  lemma LeastInRange(ws: seq<Wallet>, key: Wallet -> real, i: nat)
    requires FirstLeast(ws, key, i)
    ensures i < |ws|
  {}

  lemma {:induction false} UnusedTotals(ws: seq<Wallet>)
    requires Unused(ws)
    ensures TotalUsed(ws) == 0.0
  {
    if ws == [] {
    } else {
      assert ws[0] in ws;
      assert forall w :: w in ws[1..] ==> w in ws;
      UnusedTotals(ws[1..]);
    }
  }

  /** The bound over every wallet, picked or not, holds after every run exactly when it already holds of the
      fresh wallets: when M covers what the epsilon gives an unused wallet too much. */
  lemma EveryWalletExactly(start: seq<Wallet>, most: real)
    requires start != [] && Unused(start) && DistinctAddresses(start)
    ensures (forall states :: Routed(states, Ratio, most) && states[0] == start ==>
               AllBounded(states[|states| - 1], most))
            <==> forall w :: w in start ==> Mul(EPS - most, TotalWeight(start)) <= Mul(|start| as real * EPS, Weight(w))
  {
    UnusedTotals(start);
    assert Routed([start], Ratio, most) && [start][|[start]| - 1] == start;
    assert AllBounded(start, most)
           <==> forall w :: w in start ==>
                  Mul(EPS - most, TotalWeight(start)) <= Mul(|start| as real * EPS, Weight(w)) by {
      FreshBound(start, most);
    }
    hide Mul, Ratio, Unused, DistinctAddresses;
    if AllBounded(start, most) {
      forall states | Routed(states, Ratio, most) && states[0] == start ensures AllBounded(states[|states| - 1], most) {
        WeightedTracksAllocations(states, most);
        UnpickedBounded(start, states[|states| - 1], most);
      }
    }
  }

  /** The condition can fail: with allocations of 0.9 and 0.1 and amounts of nothing, the fresh wallets already exceed
      the bound. */
  lemma FreshCanExceed(x: string, y: string)
    requires !SameAddress(x, y)
    ensures var start := [Wallet(x, 0.9, 0.0, 0), Wallet(y, 0.1, 0.0, 0)];
            && Unused(start) && DistinctAddresses(start)
            && exists states :: Routed(states, Ratio, 0.0) && states[0] == start
                                && !AllBounded(states[|states| - 1], 0.0)
  {
    hide SameAddress, AllBounded, Ratio;
    var start := [Wallet(x, 0.9, 0.0, 0), Wallet(y, 0.1, 0.0, 0)];
    assert start[1] in start;
    assert [start[1]][1..] == [] && TotalWeight([start[1]]) == 0.1;
    assert start[1..] == [start[1]] && TotalWeight(start) == 0.9 + 0.1;
    EveryWalletExactly(start, 0.0);
  }

  lemma FreshBound(start: seq<Wallet>, most: real)
    requires Unused(start)
    ensures AllBounded(start, most)
            <==> forall w :: w in start ==> Mul(EPS - most, TotalWeight(start)) <= Mul(|start| as real * EPS, Weight(w))
  {
    hide Bounded, Mul, TotalUsed, TotalWeight, Weight, Unused;
    UnusedTotals(start);
    forall w | w in start
      ensures Bounded(w, start, most) <==> Mul(EPS - most, TotalWeight(start)) <= Mul(|start| as real * EPS, Weight(w))
    {
      UnusedOne(start, w);
      FreshOne(w, start, most);
    }
  }

  lemma UnusedOne(ws: seq<Wallet>, w: Wallet)
    requires Unused(ws) && w in ws
    ensures w.utilization == 0.0
  {}

  lemma FreshOne(w: Wallet, ws: seq<Wallet>, most: real)
    requires w.utilization == 0.0 && TotalUsed(ws) == 0.0
    ensures Bounded(w, ws, most) <==> Mul(EPS - most, TotalWeight(ws)) <= Mul(|ws| as real * EPS, Weight(w))
  {
    hide Mul, TotalUsed, TotalWeight, Weight;
    var share := |ws| as real * EPS;
    assert w.utilization + EPS - most == EPS - most && TotalUsed(ws) + share == share;
  }

  lemma UnpickedBounded(start: seq<Wallet>, ws: seq<Wallet>, most: real)
    requires SameWallets(start, ws) && Loads(ws, most) && TotalUsed(ws) >= 0.0 && TotalWeight(ws) == TotalWeight(start)
    requires forall w :: w in start ==> Mul(EPS - most, TotalWeight(start)) <= Mul(|start| as real * EPS, Weight(w))
    ensures AllBounded(ws, most)
  {
    hide Mul, TotalUsed, TotalWeight;
    forall i | 0 <= i < |ws| ensures Bounded(ws[i], ws, most) {
      if ws[i].tradeCount == 0 {
        assert start[i] in start && Weight(start[i]) == Weight(ws[i]);
        UnpickedOne(ws[i], ws, most);
      }
    }
  }

  lemma UnpickedOne(w: Wallet, ws: seq<Wallet>, most: real)
    requires w.utilization == 0.0 && TotalUsed(ws) >= 0.0
    requires Mul(EPS - most, TotalWeight(ws)) <= Mul(|ws| as real * EPS, Weight(w))
    ensures Bounded(w, ws, most)
  {
    hide Mul, TotalUsed, TotalWeight;
    var share := |ws| as real * EPS;
    MulMonotone(share, TotalUsed(ws) + share, Weight(w));
    assert w.utilization + EPS - most == EPS - most;
  }

  /** Under `min_utilization` no two wallets ever differ by more than one amount. */
  lemma {:induction false} MinUtilizationSpread(states: seq<seq<Wallet>>, most: real)
    requires Routed(states, (w: Wallet) => w.utilization, most) && most >= 0.0
    ensures var ws := states[|states| - 1];
            && DistinctAddresses(ws)
            && forall i, j :: 0 <= i < |ws| && 0 <= j < |ws| ==> ws[i].utilization - ws[j].utilization <= most
  {
    var n := |states| - 1;
    var key := (w: Wallet) => w.utilization;
    hide SameAddress, DistinctAddresses;
    if n == 0 {
      forall i | 0 <= i < |states[0]| ensures states[0][i].utilization == 0.0 {
        assert states[0][i] in states[0];
      }
    } else {
      RoutedPrefix(states, key, most);
      hide Routed;
      MinUtilizationSpread(states[..n], most);
      var ws := states[n - 1];
      hide Recorded, FirstLeast;
      var i: nat, amount: real :| FirstLeast(ws, key, i) && 0.0 <= amount <= most
          && states[n] == Recorded(ws, ws[i].address, amount);
      SpreadKept(ws, i, amount, most);
    }
  }

  lemma SpreadKept(ws: seq<Wallet>, i: nat, amount: real, most: real)
    requires FirstLeast(ws, (w: Wallet) => w.utilization, i) && 0.0 <= amount <= most && DistinctAddresses(ws)
    requires forall j, k :: 0 <= j < |ws| && 0 <= k < |ws| ==> ws[j].utilization - ws[k].utilization <= most
    ensures var ws' := Recorded(ws, ws[i].address, amount);
            && DistinctAddresses(ws')
            && forall j, k :: 0 <= j < |ws'| && 0 <= k < |ws'| ==> ws'[j].utilization - ws'[k].utilization <= most
  {
    hide SameAddress, Recorded;
    LeastUtilized(ws, i);
    RecordLands(ws, i, amount);
  }

  lemma LeastUtilized(ws: seq<Wallet>, i: nat)
    requires FirstLeast(ws, (w: Wallet) => w.utilization, i)
    ensures i < |ws| && forall j :: 0 <= j < |ws| ==> ws[i].utilization <= ws[j].utilization
  {
    var key := (w: Wallet) => w.utilization;
    forall j | 0 <= j < |ws| ensures ws[i].utilization <= ws[j].utilization {
      assert key(ws[i]) <= key(ws[j]);
    }
  }

  /** The wallet whose turn it is after `picks` picks among `n`. */
  function Seat(n: nat, picks: nat): nat
    requires n > 0
  {
    picks % n
  }

  /** How often round robin has picked wallet `i` of `n` in its first `picks` turns. */
  function Turns(n: nat, picks: nat, i: nat): nat
    requires n > 0
  {
    if picks == 0 then 0 else Turns(n, picks - 1, i) + (if Seat(n, picks - 1) == i then 1 else 0)
  }

  lemma {:induction false} TurnsCount(n: nat, picks: nat, i: nat)
    requires n > 0
    ensures Turns(n, picks, i) == |set t: nat | t < picks && t % n == i|
  {
    if picks == 0 {
      assert (set t: nat | t < picks && t % n == i) == {};
    } else {
      TurnsCount(n, picks - 1, i);
      var before := set t: nat | t < picks - 1 && t % n == i;
      assert (set t: nat | t < picks && t % n == i) == before + (if (picks - 1) % n == i then {picks - 1} else {});
    }
  }

  /** Round robin is fair: any two wallets differ by at most one turn, the earlier one never behind. */
  lemma RoundRobinIsFair(n: nat, picks: nat, i: nat, j: nat)
    requires i <= j < n
    ensures Turns(n, picks, j) <= Turns(n, picks, i) <= Turns(n, picks, j) + 1
  {
    TurnsApart(n, picks, i, j);
    hide Turns, Seat;
  }

  /** The earlier wallet is ahead exactly while the turn is between the two. */
  lemma {:induction false} TurnsApart(n: nat, picks: nat, i: nat, j: nat)
    requires i <= j < n
    ensures Turns(n, picks, i) == Turns(n, picks, j) + (if i < Seat(n, picks) <= j then 1 else 0)
  {
    hide Seat;
    FirstSeat(n);
    if picks == 0 {
    } else {
      TurnsApart(n, picks - 1, i, j);
      NextSeat(n, picks - 1);
    }
  }

  lemma FirstSeat(n: nat)
    requires n > 0
    ensures Seat(n, 0) == 0
  {}

  lemma NextSeat(n: nat, picks: nat)
    requires n > 0
    ensures Seat(n, picks) < n
    ensures Seat(n, picks + 1) == if Seat(n, picks) + 1 == n then 0 else Seat(n, picks) + 1
  {
    var q, r := picks / n, picks % n;
    assert picks + 1 == n * q + r + 1;
    if r + 1 < n {
      DivModUnique(picks + 1, n, q, r + 1);
    } else {
      assert picks + 1 == n * (q + 1);
      DivModUnique(picks + 1, n, q + 1, 0);
    }
  }

  lemma DivModUnique(x: int, n: int, q: int, r: int)
    requires n > 0 && 0 <= r < n && x == n * q + r
    ensures x / n == q && x % n == r
  {
    var d := x / n - q;
    assert n * d == r - x % n;
    assert d >= 1 ==> n * d >= n;
    assert d <= -1 ==> n * d <= -n;
  }
}
