/** The executor's cache of recent placements: it blocks a second entry for the same market and direction
    inside the window. The dictionary is a list of stamps in insertion order. */
module Dedup {
  import opened Orders
  import opened StableSort

  datatype Stamp = Stamp(market: string, direction: string, at: Time)

  predicate SameKey(s: Stamp, t: Stamp) {
    s.market == t.market && s.direction == t.direction
  }

  const CAP := 10000
  const DROP := 5000

  function Since(cache: seq<Stamp>, cutoff: Time): seq<Stamp> {
    if cache == [] then []
    else
      var last := cache[|cache| - 1];
      Since(cache[..|cache| - 1], cutoff) + (if last.at < cutoff then [] else [last])
  }

  function Without(cache: seq<Stamp>, gone: seq<Stamp>): seq<Stamp> {
    if cache == [] then []
    else
      var last := cache[|cache| - 1];
      Without(cache[..|cache| - 1], gone) + (if last in gone then [] else [last])
  }

  function Oldest(cache: seq<Stamp>): seq<Stamp>
    requires |cache| > CAP
  {
    Sort(cache, (s: Stamp) => s.at)[..DROP]
  }

  /** The hard cap: above 10000 stamps the 5000 oldest are dropped. */
  function Capped(cache: seq<Stamp>): seq<Stamp> {
    if |cache| > CAP then Without(cache, Oldest(cache)) else cache
  }

  /** `_cleanup_recent_placements` at time `now`. */
  function Cleanup(cache: seq<Stamp>, now: Time, window: real): seq<Stamp> {
    Capped(Since(cache, now - window))
  }

  predicate HasKey(cache: seq<Stamp>, market: string, direction: string) {
    exists s :: s in cache && s.market == market && s.direction == direction
  }

  /** One placement at the gate: the clock is read for the cleanup and again for the stamp. */
  datatype Attempt = Attempt(market: string, direction: string, checked: Time, stamped: Time)

  /** The cache after the gate, and whether the placement passed. */
  function Gate(cache: seq<Stamp>, a: Attempt, window: real): (seq<Stamp>, bool) {
    var c := Cleanup(cache, a.checked, window);
    if HasKey(c, a.market, a.direction) then (c, false)
    else (c + [Stamp(a.market, a.direction, a.stamped)], true)
  }

  /** The order table and the cache. */
  datatype Gated = Gated(book: Book, recent: seq<Stamp>)

  /** A placement: refused before the gate, stopped by it, or placed. `bookOk` is the answer of the book gate. */
  function TryPlace(cfg: Config, g: Gated, req: Request, killed: bool, bookOk: bool, checked: Time, now: Time): Gated {
    if !Acceptable(cfg, killed, req) || !bookOk then g
    else
      var (cache, ok) := Gate(g.recent, Attempt(req.market, req.direction, checked, now), cfg.dedupWindow);
      Gated(if ok then PlaceEntry(cfg, g.book, req, now) else g.book, cache)
  }

  // ----- the filters ----------------------------------------------------------------------------

  ghost predicate Distinct(cache: seq<Stamp>) {
    forall i, j :: 0 <= i < j < |cache| ==> !SameKey(cache[i], cache[j])
  }

  lemma DistinctAppend(cache: seq<Stamp>, last: Stamp)
    requires Distinct(cache) && forall s :: s in cache ==> !SameKey(s, last)
    ensures Distinct(cache + [last])
  {
    hide SameKey;
  }

  lemma DistinctSplit(cache: seq<Stamp>, last: Stamp)
    requires Distinct(cache + [last])
    ensures Distinct(cache) && forall s :: s in cache ==> !SameKey(s, last)
  {
    hide SameKey;
    var all := cache + [last];
    forall i, j | 0 <= i < j < |cache| ensures !SameKey(cache[i], cache[j]) {
      assert !SameKey(all[i], all[j]);
    }
    forall i | 0 <= i < |cache| ensures !SameKey(cache[i], last) {
      assert !SameKey(all[i], all[|cache|]);
    }
  }

  lemma {:induction false} SinceFacts(cache: seq<Stamp>, cutoff: Time)
    ensures forall s :: s in Since(cache, cutoff) <==> s in cache && s.at >= cutoff
    ensures |Since(cache, cutoff)| <= |cache|
    ensures Distinct(cache) ==> Distinct(Since(cache, cutoff))
  {
    hide Distinct, SameKey;
    if cache == [] {
      EmptyDistinct();
    } else {
      var init, last := cache[..|cache| - 1], cache[|cache| - 1];
      SinceFacts(init, cutoff);
      assert cache == init + [last];
      if Distinct(cache) {
        DistinctSplit(init, last);
        if last.at >= cutoff {
          DistinctAppend(Since(init, cutoff), last);
        } else {
          assert Since(cache, cutoff) == Since(init, cutoff);
        }
      }
    }
  }

  lemma EmptyDistinct()
    ensures Distinct([])
  {}

  lemma {:induction false} WithoutFacts(cache: seq<Stamp>, gone: seq<Stamp>)
    ensures forall s :: s in Without(cache, gone) <==> s in cache && s !in gone
    ensures |Without(cache, gone)| <= |cache|
    ensures Distinct(cache) ==> Distinct(Without(cache, gone))
  {
    hide Distinct, SameKey;
    if cache == [] {
      EmptyDistinct();
    } else {
      var init, last := cache[..|cache| - 1], cache[|cache| - 1];
      WithoutFacts(init, gone);
      assert cache == init + [last];
      if Distinct(cache) {
        DistinctSplit(init, last);
        if last !in gone {
          DistinctAppend(Without(init, gone), last);
        } else {
          assert Without(cache, gone) == Without(init, gone);
        }
      }
    }
  }

  ghost function Members(s: seq<Stamp>): set<Stamp> {
    set x | x in s
  }

  lemma {:induction false} DistinctCount(s: seq<Stamp>)
    requires forall i, j :: 0 <= i < j < |s| ==> s[i] != s[j]
    ensures |Members(s)| == |s|
  {
    if s == [] {
      assert Members(s) == {};
    } else {
      var init, last := s[..|s| - 1], s[|s| - 1];
      DistinctCount(init);
      assert Members(s) == Members(init) + {last};
      assert last !in Members(init);
    }
  }

  lemma DistinctElements(cache: seq<Stamp>)
    requires Distinct(cache)
    ensures forall i, j :: 0 <= i < j < |cache| ==> cache[i] != cache[j]
  {
    forall i, j | 0 <= i < j < |cache| ensures cache[i] != cache[j] {
      assert !SameKey(cache[i], cache[j]);
    }
  }

  lemma {:induction false} NoRepeats<T>(s: seq<T>, t: seq<T>)
    requires multiset(s) == multiset(t) && forall i, j :: 0 <= i < j < |t| ==> t[i] != t[j]
    ensures forall i, j :: 0 <= i < j < |s| ==> s[i] != s[j]
  {
    forall x ensures multiset(t)[x] <= 1 {
      OncePerElement(t, x);
    }
    forall i, j | 0 <= i < j < |s| ensures s[i] != s[j] {
      assert s == s[..i] + [s[i]] + s[i + 1..j] + [s[j]] + s[j + 1..];
      assert multiset(s)[s[i]] >= (if s[i] == s[j] then 2 else 1);
    }
  }

  lemma {:induction false} OncePerElement<T>(t: seq<T>, x: T)
    requires forall i, j :: 0 <= i < j < |t| ==> t[i] != t[j]
    ensures multiset(t)[x] <= 1 && (x !in t ==> multiset(t)[x] == 0)
  {
    if t == [] {
    } else {
      var init, last := t[..|t| - 1], t[|t| - 1];
      OncePerElement(init, x);
      assert t == init + [last];
    }
  }

  /** The cap drops exactly the 5000 oldest stamps: nothing kept is older than anything dropped. */
  lemma CapDropsOldest(cache: seq<Stamp>)
    requires Distinct(cache) && |cache| > CAP
    ensures Distinct(Capped(cache)) && |Capped(cache)| == |cache| - DROP
    ensures forall s, t :: s in cache && s !in Capped(cache) && t in Capped(cache) ==> s.at <= t.at
  {
    hide Distinct, Without;
    WithoutFacts(cache, Oldest(cache));
    CapCount(cache);
    forall s, t | s in cache && s !in Capped(cache) && t in Capped(cache) ensures s.at <= t.at {
      OldestAreOlder(cache, s, t);
    }
  }

  lemma CapCount(cache: seq<Stamp>)
    requires Distinct(cache) && |cache| > CAP
    ensures |Capped(cache)| == |cache| - DROP
  {
    var key := (s: Stamp) => s.at;
    var sorted, gone, kept := Sort(cache, key), Oldest(cache), Capped(cache);
    WithoutFacts(cache, gone);
    SortMembers(cache, key);
    DistinctElements(cache);
    DistinctElements(kept);
    hide Distinct, Without, Sort, SameKey;
    NoRepeats(sorted, cache);
    DistinctCount(cache);
    DistinctCount(kept);
    DistinctCount(gone);
    forall s | s in gone ensures s in cache {
      assert s in sorted;
    }
    assert Members(cache) == Members(kept) + Members(gone);
    assert Members(kept) !! Members(gone);
  }

  lemma OldestAreOlder(cache: seq<Stamp>, s: Stamp, t: Stamp)
    requires |cache| > CAP && s in Oldest(cache) && t in cache && t !in Oldest(cache)
    ensures s.at <= t.at
  {
    var key := (s: Stamp) => s.at;
    var sorted, gone := Sort(cache, key), Oldest(cache);
    SortSorted(cache, key);
    SortMembers(cache, key);
    hide Sort;
    assert forall k :: 0 <= k < DROP ==> sorted[k] in gone by {
      assert forall k :: 0 <= k < DROP ==> gone[k] == sorted[k];
    }
    var i :| 0 <= i < DROP && sorted[i] == s;
    var j :| 0 <= j < |sorted| && sorted[j] == t;
    assert key(sorted[i]) <= key(sorted[j]);
  }

  // ----- whole runs -----------------------------------------------------------------------------

  /** A run of the gate: the cache, every stamp that passed, and whether the cap has ever dropped any. */
  datatype History = History(cache: seq<Stamp>, passed: seq<Stamp>, capped: bool)

  function Play(attempts: seq<Attempt>, window: real): History {
    if attempts == [] then History([], [], false)
    else
      var h, a := Play(attempts[..|attempts| - 1], window), attempts[|attempts| - 1];
      var (cache, ok) := Gate(h.cache, a, window);
      History(cache, if ok then h.passed + [Stamp(a.market, a.direction, a.stamped)] else h.passed,
              h.capped || |Since(h.cache, a.checked - window)| > CAP)
  }

  /** The clock never goes back. */
  ghost predicate Clocked(attempts: seq<Attempt>) {
    && (forall i :: 0 <= i < |attempts| ==> attempts[i].checked <= attempts[i].stamped)
    && (forall i, j :: 0 <= i < j < |attempts| ==> attempts[i].stamped <= attempts[j].checked)
  }

  lemma CleanupFacts(cache: seq<Stamp>, now: Time, window: real)
    requires Distinct(cache) && |cache| <= CAP + 1
    ensures var c := Cleanup(cache, now, window); Distinct(c) && |c| <= CAP
  {
    hide Distinct, Since, Capped;
    SinceFacts(cache, now - window);
    var recent := Since(cache, now - window);
    if |recent| > CAP {
      CapDropsOldest(recent);
    } else {
      CappedSmall(recent);
    }
  }

  lemma CappedSmall(cache: seq<Stamp>)
    requires |cache| <= CAP
    ensures Capped(cache) == cache
  {}

  lemma NewKey(cache: seq<Stamp>, s: Stamp)
    requires Distinct(cache) && !HasKey(cache, s.market, s.direction)
    ensures Distinct(cache + [s])
  {}

  /** The cache never holds more than 10001 stamps, all for different keys. */
  lemma {:induction false} CacheStaysSmall(attempts: seq<Attempt>, window: real)
    ensures var h := Play(attempts, window); Distinct(h.cache) && |h.cache| <= CAP + 1
  {
    hide Distinct, Cleanup, HasKey;
    if attempts == [] {
      EmptyDistinct();
    } else {
      CacheStaysSmall(attempts[..|attempts| - 1], window);
      var h, a := Play(attempts[..|attempts| - 1], window), attempts[|attempts| - 1];
      CleanupFacts(h.cache, a.checked, window);
      var c := Cleanup(h.cache, a.checked, window);
      if !HasKey(c, a.market, a.direction) {
        NewKey(c, Stamp(a.market, a.direction, a.stamped));
      }
    }
  }

  lemma SnocMembers(cache: seq<Stamp>, x: Stamp)
    ensures forall s :: s in cache + [x] <==> s in cache || s == x
  {}

  lemma KeyMembers(cache: seq<Stamp>, a: Attempt)
    ensures HasKey(cache, a.market, a.direction)
            <==> exists s :: s in cache && s.market == a.market && s.direction == a.direction
  {}

  /** While the cap does not bite, the gate keeps what lies in the window and adds its own stamp. */
  lemma GateMembers(cache: seq<Stamp>, a: Attempt, window: real)
    requires |Since(cache, a.checked - window)| <= CAP
    ensures var (after, ok) := Gate(cache, a, window);
            && (forall s :: s in after <==> (s in cache && s.at >= a.checked - window)
                                            || (ok && s == Stamp(a.market, a.direction, a.stamped)))
            && (ok <==> forall s :: s in cache && s.market == a.market && s.direction == a.direction ==>
                          s.at < a.checked - window)
  {
    hide Since, Capped, HasKey;
    var c := Since(cache, a.checked - window);
    CappedSmall(c);
    SinceFacts(cache, a.checked - window);
    SnocMembers(c, Stamp(a.market, a.direction, a.stamped));
    KeyMembers(c, a);
  }

  /** While the cap has not run, every stamp that passed is still cached or has left the window. */
  lemma {:induction false} PassedIsCachedOrOld(attempts: seq<Attempt>, window: real, now: Time)
    requires Clocked(attempts) && !Play(attempts, window).capped
    requires forall i :: 0 <= i < |attempts| ==> attempts[i].stamped <= now
    ensures var h := Play(attempts, window);
            && (forall s :: s in h.passed ==> s.at <= now && (s in h.cache || s.at < now - window))
            && (forall s :: s in h.cache ==> s in h.passed)
  {
    if attempts == [] {
      hide Clocked;
    } else {
      hide Gate, Since, Play, Clocked;
      var init, a := attempts[..|attempts| - 1], attempts[|attempts| - 1];
      assert attempts == init + [a];
      ClockedPrefix(init, a);
      PlaySnoc(init, a, window);
      var h, p, x := Play(init, window), Play(attempts, window), Stamp(a.market, a.direction, a.stamped);
      PassedIsCachedOrOld(init, window, a.checked);
      GateMembers(h.cache, a, window);
      SnocMembers(h.passed, x);
      StillCachedOrOld(h, p, x, Gate(h.cache, a, window).1, a.checked, window, now);
    }
  }

  lemma PlaySnoc(attempts: seq<Attempt>, a: Attempt, window: real)
    ensures var h, p := Play(attempts, window), Play(attempts + [a], window);
            && p.cache == Gate(h.cache, a, window).0
            && p.passed == (if Gate(h.cache, a, window).1
                            then h.passed + [Stamp(a.market, a.direction, a.stamped)] else h.passed)
            && (p.capped <==> h.capped || |Since(h.cache, a.checked - window)| > CAP)
  {
    hide Gate, Since;
    assert (attempts + [a])[..|attempts|] == attempts;
  }

  lemma StillCachedOrOld(h: History, p: History, x: Stamp, ok: bool, checked: Time, window: real, now: Time)
    requires forall s :: s in h.passed ==> s.at <= checked && (s in h.cache || s.at < checked - window)
    requires forall s :: s in h.cache ==> s in h.passed
    requires checked <= x.at <= now
    requires forall s :: s in p.passed <==> s in h.passed || (ok && s == x)
    requires forall s :: s in p.cache <==> (s in h.cache && s.at >= checked - window) || (ok && s == x)
    ensures forall s :: s in p.passed ==> s.at <= now && (s in p.cache || s.at < now - window)
    ensures forall s :: s in p.cache ==> s in p.passed
  {}

  lemma ClockedPrefix(attempts: seq<Attempt>, a: Attempt)
    requires Clocked(attempts + [a])
    ensures Clocked(attempts) && forall i :: 0 <= i < |attempts| ==> attempts[i].stamped <= a.checked
    ensures a.checked <= a.stamped
  {
    var all := attempts + [a];
    assert forall i :: 0 <= i < |attempts| ==> all[i] == attempts[i];
    assert all[|attempts|] == a;
  }

  lemma GateExact(cache: seq<Stamp>, passed: seq<Stamp>, a: Attempt, window: real)
    requires forall s :: s in passed ==> s in cache || s.at < a.checked - window
    requires forall s :: s in cache ==> s in passed
    requires |Since(cache, a.checked - window)| <= CAP
    ensures Gate(cache, a, window).1
            <==> forall s :: s in passed && s.market == a.market && s.direction == a.direction ==>
                   s.at < a.checked - window
  {
    GateMembers(cache, a, window);
    hide Since, Gate;
  }

  /** The gate is exact until the cap drops something: a placement passes if and only if every one that
      passed before for the same market and direction has left the window. */
  lemma BlockedExactly(attempts: seq<Attempt>, a: Attempt, window: real)
    requires Clocked(attempts + [a]) && !Play(attempts + [a], window).capped
    ensures var h := Play(attempts, window);
            Gate(h.cache, a, window).1
            <==> forall s :: s in h.passed && s.market == a.market && s.direction == a.direction ==>
                   s.at < a.checked - window
  {
    hide Play, Gate, Since, Clocked;
    ClockedPrefix(attempts, a);
    PlaySnoc(attempts, a, window);
    PassedIsCachedOrOld(attempts, window, a.checked);
    var h := Play(attempts, window);
    GateExact(h.cache, h.passed, a, window);
  }

  /** Stamps of one key lie more than a window apart, in order. */
  ghost predicate Apart(p: seq<Stamp>, window: real) {
    forall i, j :: 0 <= i < j < |p| && SameKey(p[i], p[j]) ==> p[j].at - p[i].at > window
  }

  lemma ApartMore(p: seq<Stamp>, s: Stamp, window: real)
    requires Apart(p, window) && forall x :: x in p && SameKey(x, s) ==> s.at - x.at > window
    ensures Apart(p + [s], window)
  {
    hide SameKey;
    var all := p + [s];
    forall i, j | 0 <= i < j < |all| && SameKey(all[i], all[j]) ensures all[j].at - all[i].at > window {
      assert all[i] == p[i] && p[i] in p;
      assert j < |p| ==> all[j] == p[j];
    }
  }

  /** Hence any two entries for the same market and direction that pass are stamped more than a window apart. */
  lemma {:induction false} PassesAreApart(attempts: seq<Attempt>, window: real)
    requires Clocked(attempts) && !Play(attempts, window).capped
    ensures Apart(Play(attempts, window).passed, window)
  {
    if attempts == [] {
    } else {
      hide Play, Gate, Since, Clocked, Apart;
      var init, a := attempts[..|attempts| - 1], attempts[|attempts| - 1];
      assert attempts == init + [a];
      ClockedPrefix(init, a);
      PlaySnoc(init, a, window);
      PassesAreApart(init, window);
      BlockedExactly(init, a, window);
      var h := Play(init, window);
      if Gate(h.cache, a, window).1 {
        ApartMore(h.passed, Stamp(a.market, a.direction, a.stamped), window);
      }
    }
  }
}
