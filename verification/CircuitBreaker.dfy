/** The circuit breaker. Every reading of the clock is an argument; calls may overlap, so a run is any
    sequence of call beginnings, call ends and resets on a clock that does not go back. */
module CircuitBreaker {

  datatype State = Closed | Open | HalfOpen

  datatype Limits = Limits(failureThreshold: int, recoveryTimeout: real, successThreshold: int)

  datatype Breaker = Breaker(state: State, failures: int, successes: int, lastFailure: real)

  const FRESH := Breaker(Closed, 0, 0, 0.0)

  /** Reading the `state` property moves an open circuit whose timeout has passed to half-open. */
  function Peek(l: Limits, b: Breaker, now: real): Breaker {
    if b.state == Open && now - b.lastFailure >= l.recoveryTimeout then b.(state := HalfOpen, successes := 0) else b
  }

  /** `record_success` reads the state twice unless the first reading is half-open. */
  function Success(l: Limits, b: Breaker, t1: real, t2: real): Breaker {
    var b1 := Peek(l, b, t1);
    if b1.state == HalfOpen then
      if b1.successes + 1 >= l.successThreshold
      then b1.(successes := b1.successes + 1, state := Closed, failures := 0)
      else b1.(successes := b1.successes + 1)
    else
      var b2 := Peek(l, b1, t2);
      if b2.state == Closed then b2.(failures := if b2.failures - 1 > 0 then b2.failures - 1 else 0) else b2
  }

  function Failure(l: Limits, b: Breaker, now: real): Breaker {
    var b1 := b.(failures := b.failures + 1, lastFailure := now);
    if b1.failures >= l.failureThreshold then b1.(state := Open) else b1
  }

  class CircuitBreaker {
    const limits: Limits
    var state: State
    var failureCount: int
    var successCount: int
    var lastFailureTime: real

    ghost function View(): Breaker
      reads this
    {
      Breaker(state, failureCount, successCount, lastFailureTime)
    }

    constructor (limits: Limits)
      ensures View() == FRESH && this.limits == limits
    {
      this.limits := limits;
      state, failureCount, successCount, lastFailureTime := Closed, 0, 0, 0.0;
    }

    /** The `state` property. */
    method ReadState(now: real) returns (s: State)
      modifies this
      ensures View() == Peek(limits, old(View()), now) && s == state
    {
      if state == Open && now - lastFailureTime >= limits.recoveryTimeout {
        state := HalfOpen;
        successCount := 0;
      }
      s := state;
    }

    method RecordSuccess(t1: real, t2: real)
      modifies this
      ensures View() == Success(limits, old(View()), t1, t2)
    {
      var s := ReadState(t1);
      if s == HalfOpen {
        successCount := successCount + 1;
        if successCount >= limits.successThreshold {
          state := Closed;
          failureCount := 0;
        }
      } else {
        s := ReadState(t2);
        if s == Closed {
          failureCount := if failureCount - 1 > 0 then failureCount - 1 else 0;
        }
      }
    }

    method RecordFailure(now: real)
      modifies this
      ensures View() == Failure(limits, old(View()), now)
    {
      failureCount := failureCount + 1;
      lastFailureTime := now;
      if failureCount >= limits.failureThreshold {
        state := Open;
      }
    }

    /** The gate at the beginning of `call`. */
    method BeginCall(now: real) returns (admitted: bool)
      modifies this
      ensures View() == Peek(limits, old(View()), now) && admitted == (state != Open)
    {
      var s := ReadState(now);
      admitted := s != Open;
    }

    method Reset()
      modifies this
      ensures View() == FRESH
    {
      state, failureCount, successCount, lastFailureTime := Closed, 0, 0, 0.0;
    }
  }

  // ----- the failure count while closed ---------------------------------------------------------

  /** Failures minus successes in a stretch of outcomes; `true` is a failure. */
  function Net(os: seq<bool>): int {
    if os == [] then 0 else Net(os[..|os| - 1]) + (if os[|os| - 1] then 1 else -1)
  }

  /** `m` is the largest net of any suffix, the empty one included. */
  ghost predicate MaxSuffix(os: seq<bool>, m: int) {
    && (exists k :: 0 <= k <= |os| && Net(os[k..]) == m)
    && (forall k :: 0 <= k <= |os| ==> Net(os[k..]) <= m)
  }

  /** An outcome with the clock readings of its recording. */
  datatype Outcome = Outcome(failed: bool, t1: real, t2: real)

  function Flags(os: seq<Outcome>): seq<bool> {
    seq(|os|, i requires 0 <= i < |os| => os[i].failed)
  }

  /** The breaker after recording outcomes in order, from `start`: fresh, or just recovered or reset. */
  function Record(l: Limits, start: Breaker, os: seq<Outcome>): Breaker {
    if os == [] then start
    else
      var o := os[|os| - 1];
      var b := Record(l, start, os[..|os| - 1]);
      if o.failed then Failure(l, b, o.t1) else Success(l, b, o.t1, o.t2)
  }

  ghost predicate StaysClosed(l: Limits, start: Breaker, os: seq<Outcome>) {
    forall j :: 0 <= j <= |os| ==> Record(l, start, os[..j]).state == Closed
  }

  lemma NetSuffix(os: seq<bool>, o: bool, k: nat)
    requires k <= |os|
    ensures Net((os + [o])[k..]) == Net(os[k..]) + (if o then 1 else -1)
  {
    var s := (os + [o])[k..];
    assert s == os[k..] + [o];
    assert s[..|s| - 1] == os[k..];
  }

  lemma MaxSuffixStep(os: seq<bool>, o: bool, m: int)
    requires MaxSuffix(os, m) && m >= 0
    ensures MaxSuffix(os + [o], if o then m + 1 else if m - 1 > 0 then m - 1 else 0)
  {
    var all := os + [o];
    var m' := if o then m + 1 else if m - 1 > 0 then m - 1 else 0;
    forall k | 0 <= k <= |all| ensures Net(all[k..]) <= m' {
      if k <= |os| {
        NetSuffix(os, o, k);
      } else {
        assert all[k..] == [];
      }
    }
    var k :| 0 <= k <= |os| && Net(os[k..]) == m;
    NetSuffix(os, o, k);
    assert all[|all|..] == [];
  }

  lemma FlagsPrefix(os: seq<Outcome>)
    requires os != []
    ensures Flags(os) == Flags(os[..|os| - 1]) + [os[|os| - 1].failed]
  {}

  /** While the circuit stays closed the failure count is the maximum over all suffixes of the recorded
      outcomes of failures minus successes. */
  lemma {:induction false} CountIsMaxSuffix(l: Limits, start: Breaker, os: seq<Outcome>)
    requires start.failures == 0 && StaysClosed(l, start, os)
    ensures MaxSuffix(Flags(os), Record(l, start, os).failures) && Record(l, start, os).failures >= 0
  {
    if os == [] {
      assert Flags(os)[0..] == [] && Net(Flags(os)[0..]) == 0;
    } else {
      var init, o := os[..|os| - 1], os[|os| - 1];
      forall j | 0 <= j <= |init| ensures Record(l, start, init[..j]).state == Closed {
        assert init[..j] == os[..j];
      }
      CountIsMaxSuffix(l, start, init);
      assert init[..|init|] == init && Record(l, start, init).state == Closed;
      assert os[..|os|] == os && Record(l, start, os).state == Closed;
      MaxSuffixStep(Flags(init), o.failed, Record(l, start, init).failures);
      FlagsPrefix(os);
    }
  }

  /** No stretch of outcomes reaches `n` more failures than successes. */
  ghost predicate NoStretchReaches(os: seq<bool>, n: int) {
    forall i, j :: 0 <= i <= j <= |os| ==> Net(os[i..j]) < n
  }

  ghost predicate NoSuffixReaches(os: seq<bool>, n: int) {
    forall k :: 0 <= k <= |os| ==> Net(os[k..]) < n
  }

  lemma StretchSnoc(os: seq<bool>, o: bool, n: int)
    ensures NoStretchReaches(os + [o], n) <==> NoStretchReaches(os, n) && NoSuffixReaches(os + [o], n)
  {
    hide Net;
    var all := os + [o];
    assert forall i, j :: 0 <= i <= j <= |os| ==> all[i..j] == os[i..j];
    assert forall k :: 0 <= k <= |all| ==> all[k..|all|] == all[k..];
    if NoStretchReaches(all, n) {
      forall i, j | 0 <= i <= j <= |os| ensures Net(os[i..j]) < n {
        assert Net(all[i..j]) < n;
      }
      forall k | 0 <= k <= |all| ensures Net(all[k..]) < n {
        assert Net(all[k..|all|]) < n;
      }
    }
  }

  /** The circuit trips exactly at the first outcome at which some stretch ending there reaches the threshold:
      it has stayed closed if and only if no stretch of the outcomes has. */
  lemma {:induction false} TripsExactly(l: Limits, start: Breaker, os: seq<Outcome>)
    requires l.failureThreshold >= 1 && start.state == Closed && start.failures == 0
    ensures StaysClosed(l, start, os) <==> NoStretchReaches(Flags(os), l.failureThreshold)
  {
    if os == [] {
      assert os[..0] == [];
      assert forall i, j :: 0 <= i <= j <= |Flags(os)| ==> Flags(os)[i..j] == [];
    } else {
      var init, o := os[..|os| - 1], os[|os| - 1];
      TripsExactly(l, start, init);
      FlagsPrefix(os);
      ClosedPrefix(l, start, os);
      StretchSnoc(Flags(init), o.failed, l.failureThreshold);
      hide StaysClosed, NoStretchReaches, NoSuffixReaches, Record, Flags;
      if StaysClosed(l, start, init) {
        assert os == init + [o];
        LastOutcome(l, start, init, o);
      }
    }
  }

  lemma ClosedPrefix(l: Limits, start: Breaker, os: seq<Outcome>)
    requires os != []
    ensures StaysClosed(l, start, os) <==> StaysClosed(l, start, os[..|os| - 1]) && Record(l, start, os).state == Closed
  {
    hide Record;
    var init := os[..|os| - 1];
    assert os[..|os|] == os;
    if StaysClosed(l, start, init) && Record(l, start, os).state == Closed {
      forall j | 0 <= j <= |os| ensures Record(l, start, os[..j]).state == Closed {
        if j <= |init| {
          assert os[..j] == init[..j];
        }
      }
    }
    if StaysClosed(l, start, os) {
      forall j | 0 <= j <= |init| ensures Record(l, start, init[..j]).state == Closed {
        assert init[..j] == os[..j];
      }
    }
  }

  /** One more outcome on a closed circuit: closed again exactly when no suffix reaches the threshold. */
  lemma LastOutcome(l: Limits, start: Breaker, os: seq<Outcome>, o: Outcome)
    requires l.failureThreshold >= 1 && start.failures == 0 && StaysClosed(l, start, os)
             && NoStretchReaches(Flags(os), l.failureThreshold)
    ensures Record(l, start, os + [o]).state == Closed <==> NoSuffixReaches(Flags(os) + [o.failed], l.failureThreshold)
  {
    var b := Record(l, start, os);
    assert (os + [o])[..|os|] == os && os[..|os|] == os;
    assert b.state == Closed;
    CountIsMaxSuffix(l, start, os);
    MaxSuffixBelow(Flags(os), b.failures, l.failureThreshold);
    MaxSuffixStep(Flags(os), o.failed, b.failures);
    var m := if o.failed then b.failures + 1 else if b.failures - 1 > 0 then b.failures - 1 else 0;
    MaxSuffixBelow(Flags(os) + [o.failed], m, l.failureThreshold);
    StretchEnds(Flags(os), l.failureThreshold);
    hide StaysClosed, NoStretchReaches, NoSuffixReaches, MaxSuffix, Flags;
  }

  lemma MaxSuffixBelow(os: seq<bool>, m: int, n: int)
    requires MaxSuffix(os, m)
    ensures NoSuffixReaches(os, n) <==> m < n
  {
    hide Net;
  }

  lemma StretchEnds(os: seq<bool>, n: int)
    requires NoStretchReaches(os, n)
    ensures NoSuffixReaches(os, n)
  {
    hide Net;
    forall k | 0 <= k <= |os| ensures Net(os[k..]) < n {
      assert os[k..|os|] == os[k..];
    }
  }

  // ----- any run --------------------------------------------------------------------------------

  datatype Event =
    | Begin(now: real)
    | EndOk(t1: real, t2: real)
    | EndFail(now: real)
    | Reset

  function React(l: Limits, b: Breaker, e: Event): Breaker {
    match e
    case Begin(now) => Peek(l, b, now)
    case EndOk(t1, t2) => Success(l, b, t1, t2)
    case EndFail(now) => Failure(l, b, now)
    case Reset => FRESH
  }

  function Play(l: Limits, es: seq<Event>): Breaker {
    if es == [] then FRESH else React(l, Play(l, es[..|es| - 1]), es[|es| - 1])
  }

  /** The latest clock reading of an event, or the earlier one. */
  ghost function Reading(e: Event, clock: real): real {
    match e
    case Begin(now) => now
    case EndOk(_, t2) => t2
    case EndFail(now) => now
    case Reset => clock
  }

  ghost function Clock(es: seq<Event>): real {
    if es == [] then 0.0 else Reading(es[|es| - 1], Clock(es[..|es| - 1]))
  }

  /** Readings never decrease. */
  ghost predicate Clocked(es: seq<Event>) {
    es == [] ||
    (&& Clocked(es[..|es| - 1])
     && var c, e := Clock(es[..|es| - 1]), es[|es| - 1];
        match e
        case Begin(now) => c <= now
        case EndOk(t1, t2) => c <= t1 <= t2
        case EndFail(now) => c <= now
        case Reset => true)
  }

  /** The time of the last failure recorded since the last reset. */
  ghost function LastFailed(es: seq<Event>): real {
    if es == [] then 0.0
    else match es[|es| - 1]
         case EndFail(now) => now
         case Reset => 0.0
         case _ => LastFailed(es[..|es| - 1])
  }

  /** The circuit is closed exactly while its failure count is below the threshold. */
  ghost predicate CountTells(l: Limits, b: Breaker) {
    b.state == Closed <==> b.failures < l.failureThreshold
  }

  lemma {:induction false} CountAlwaysTells(l: Limits, es: seq<Event>)
    requires l.failureThreshold >= 1
    ensures CountTells(l, Play(l, es)) && Play(l, es).failures >= 0
  {
    if es == [] {
    } else {
      CountAlwaysTells(l, es[..|es| - 1]);
    }
  }

  /** In every run closed means below the threshold, exactly when the threshold is positive. */
  lemma CountTellsExactly(l: Limits)
    ensures (forall es :: CountTells(l, Play(l, es))) <==> l.failureThreshold >= 1
  {
    if l.failureThreshold >= 1 {
      forall es ensures CountTells(l, Play(l, es)) {
        CountAlwaysTells(l, es);
      }
    } else {
      assert !CountTells(l, Play(l, []));
    }
  }

  /** Whatever the threshold, a circuit that is not closed has reached it. */
  lemma {:induction false} TrippedHasReached(l: Limits, es: seq<Event>)
    ensures Play(l, es).failures >= 0
    ensures Play(l, es).state != Closed ==> Play(l, es).failures >= l.failureThreshold
  {
    if es == [] {
    } else {
      TrippedHasReached(l, es[..|es| - 1]);
    }
  }

  /** Hence a single failure of a half-open circuit reopens it. */
  lemma HalfOpenFailureReopens(l: Limits, es: seq<Event>, now: real)
    requires Play(l, es).state == HalfOpen
    ensures Play(l, es + [EndFail(now)]).state == Open
  {
    TrippedHasReached(l, es);
    assert (es + [EndFail(now)])[..|es|] == es;
  }

  lemma {:induction false} HalfOpenIsLate(l: Limits, es: seq<Event>)
    requires Clocked(es)
    ensures var b := Play(l, es);
            && b.lastFailure == LastFailed(es)
            && (b.state == HalfOpen ==> Clock(es) - b.lastFailure >= l.recoveryTimeout)
  {
    if es == [] {
    } else {
      TrippedHasReached(l, es[..|es| - 1]);
      HalfOpenIsLate(l, es[..|es| - 1]);
    }
  }

  lemma ClockedBegin(es: seq<Event>, now: real)
    requires Clocked(es + [Begin(now)])
    ensures Clocked(es) && Clock(es) <= now
  {
    assert (es + [Begin(now)])[..|es|] == es;
  }

  /** A call is admitted exactly when the circuit is closed, or the call begins at least `recovery_timeout`
      after the last failure recorded since the last reset. */
  lemma AdmittedExactly(l: Limits, es: seq<Event>, now: real)
    requires Clocked(es + [Begin(now)])
    ensures Play(l, es + [Begin(now)]).state != Open
            <==> Play(l, es).state == Closed || now - LastFailed(es) >= l.recoveryTimeout
  {
    ClockedBegin(es, now);
    assert (es + [Begin(now)])[..|es|] == es;
    HalfOpenIsLate(l, es);
  }

  /** Recovery takes exactly the configured number of successes in a row: after fewer the circuit is
      still half-open, at that many it closes with a clean count. */
  lemma {:induction false} RecoveryTakes(l: Limits, b: Breaker, oks: seq<(real, real)>)
    requires b.state == HalfOpen && b.successes == 0 && 1 <= |oks| <= l.successThreshold
    ensures var b' := Succeed(l, b, oks);
            if |oks| < l.successThreshold
            then b'.state == HalfOpen && b'.successes == |oks| && b'.failures == b.failures
            else b'.state == Closed && b'.failures == 0
  {
    if |oks| > 1 {
      RecoveryTakes(l, b, oks[..|oks| - 1]);
    } else {
      assert oks[..0] == [];
    }
  }

  function Succeed(l: Limits, b: Breaker, oks: seq<(real, real)>): Breaker {
    if oks == [] then b
    else Success(l, Succeed(l, b, oks[..|oks| - 1]), oks[|oks| - 1].0, oks[|oks| - 1].1)
  }

  /** Hence from an open circuit: the first reading of its state after the timeout starts the count of successes over,
      whatever was counted before, and exactly the configured number of them closes it. */
  lemma RecoveryStartsOver(l: Limits, b: Breaker, now: real, oks: seq<(real, real)>)
    requires b.state == Open && now >= b.lastFailure + l.recoveryTimeout && 1 <= |oks| <= l.successThreshold
    ensures Succeed(l, Peek(l, b, now), oks).state == if |oks| < l.successThreshold then HalfOpen else Closed
  {
    RecoveryTakes(l, Peek(l, b, now), oks);
  }
}
