/** The duplicate gate over runs of the executor: what it promises about the entries in the order table. */
module GatedRuns {
  import opened Rounding
  import opened Orders
  import opened OrderInvariants
  import opened OrderRuns
  import opened Dedup

  /** A placement through the gate, or any other action. */
  datatype Turn =
    | Try(req: Request, killed: bool, bookOk: bool, checked: Time, now: Time)
    | Do(action: Action)

  function Take(cfg: Config, g: Gated, t: Turn): Gated {
    match t
    case Try(req, killed, bookOk, checked, now) => TryPlace(cfg, g, req, killed, bookOk, checked, now)
    case Do(a) => if a.Place? then g else g.(book := Step(cfg, g.book, a).0)
  }

  function After(cfg: Config, turns: seq<Turn>): Gated {
    if turns == [] then Gated(EMPTY_BOOK, []) else Take(cfg, After(cfg, turns[..|turns| - 1]), turns[|turns| - 1])
  }

  /** The placements that reach the gate. */
  function AttemptOf(cfg: Config, t: Turn): seq<Attempt> {
    if t.Try? && Acceptable(cfg, t.killed, t.req) && t.bookOk
    then [Attempt(t.req.market, t.req.direction, t.checked, t.now)] else []
  }

  function Attempts(cfg: Config, turns: seq<Turn>): seq<Attempt> {
    if turns == [] then [] else Attempts(cfg, turns[..|turns| - 1]) + AttemptOf(cfg, turns[|turns| - 1])
  }

  function StampOf(r: Row): Stamp {
    Stamp(r.market, r.direction, r.timestamp)
  }

  /** The entries of the table are those that passed, in order. */
  ghost predicate Entered(b: Book, passed: seq<Stamp>, ids: seq<OrderId>) {
    && |ids| == |passed|
    && (forall k :: 0 <= k < |ids| ==>
          ids[k] in b.rows && b.rows[ids[k]].kind == Entry && StampOf(b.rows[ids[k]]) == passed[k])
    && (forall e :: e in b.rows && b.rows[e].kind == Entry ==> e in ids)
  }

  /** Whatever adds no entry keeps them. */
  lemma EnteredStays(b: Book, b': Book, passed: seq<Stamp>, ids: seq<OrderId>)
    requires Entered(b, passed, ids) && Moves(b, b') && OldEntries(b, b')
    ensures Entered(b', passed, ids)
  {
    forall k | 0 <= k < |ids| ensures ids[k] in b'.rows && b'.rows[ids[k]].kind == Entry
                                      && StampOf(b'.rows[ids[k]]) == passed[k] {
      assert RowMoves(b.rows[ids[k]], b'.rows[ids[k]]);
    }
    forall e | e in b'.rows && b'.rows[e].kind == Entry ensures e in ids {
      assert e in b.rows && RowMoves(b.rows[e], b'.rows[e]);
    }
  }

  lemma EnteredMore(cfg: Config, b: Book, req: Request, now: Time, passed: seq<Stamp>, ids: seq<OrderId>)
    requires Inv(b) && Entered(b, passed, ids) && req.size >= 0.5
    ensures var b' := PlaceEntry(cfg, b, req, now);
            Inv(b') && Entered(b', passed + [Stamp(req.market, req.direction, now)], ids + [b.next])
  {
    hide Inv, Covered, NoNewExit, PlaceEntry;
    PlaceKeeps(cfg, b, req, now);
    var b' := PlaceEntry(cfg, b, req, now);
    forall e | e in b.rows ensures RowMoves(b.rows[e], b'.rows[e]) {}
    hide RowMoves, Moves;
    forall e | e in b'.rows && b'.rows[e].kind == Entry ensures e in ids + [b.next] {
      OldOrNew(b, b', e);
    }
    forall k | 0 <= k < |ids| ensures ids[k] in b'.rows && b'.rows[ids[k]].kind == Entry
                                      && StampOf(b'.rows[ids[k]]) == passed[k] {
      MovedStamp(b.rows[ids[k]], b'.rows[ids[k]]);
    }
  }

  lemma OldOrNew(b: Book, b': Book, e: OrderId)
    requires e in b'.rows && (e in b.rows ==> RowMoves(b.rows[e], b'.rows[e]))
    ensures e in b.rows ==> b'.rows[e].kind == b.rows[e].kind
  {}

  lemma MovedStamp(r: Row, r': Row)
    requires RowMoves(r, r')
    ensures StampOf(r') == StampOf(r) && r'.kind == r.kind
  {}

  lemma NoneEntered()
    ensures Entered(EMPTY_BOOK, [], []) && Inv(EMPTY_BOOK)
  {}

  /** One turn of the run. */
  lemma TakeKeeps(cfg: Config, g: Gated, h: History, t: Turn, ids: seq<OrderId>) returns (ids': seq<OrderId>)
    requires Inv(g.book) && g.recent == h.cache && Entered(g.book, h.passed, ids)
    ensures var g' := Take(cfg, g, t);
            Inv(g'.book) && Entered(g'.book, Passed(h, AttemptOf(cfg, t), cfg.dedupWindow), ids')
            && g'.recent == Cached(h, AttemptOf(cfg, t), cfg.dedupWindow)
  {
    hide Inv, Entered, PlaceEntry, Gate, Step, Covered, Moves, NoNewExit, OldEntries, Regime, IsTrigger;
    ids' := ids;
    match t
    case Try(req, killed, bookOk, checked, now) =>
      if Acceptable(cfg, killed, req) && bookOk {
        if Gate(h.cache, Attempt(req.market, req.direction, checked, now), cfg.dedupWindow).1 {
          EnteredMore(cfg, g.book, req, now, h.passed, ids);
          ids' := ids + [g.book.next];
        }
      }
    case Do(a) =>
      if !a.Place? {
        StepKeeps(cfg, g.book, a);
        EnteredStays(g.book, Step(cfg, g.book, a).0, h.passed, ids);
      }
  }

  function Passed(h: History, attempts: seq<Attempt>, window: real): seq<Stamp>
    requires |attempts| <= 1
  {
    if attempts == [] || !Gate(h.cache, attempts[0], window).1 then h.passed
    else h.passed + [Stamp(attempts[0].market, attempts[0].direction, attempts[0].stamped)]
  }

  function Cached(h: History, attempts: seq<Attempt>, window: real): seq<Stamp>
    requires |attempts| <= 1
  {
    if attempts == [] then h.cache else Gate(h.cache, attempts[0], window).0
  }

  lemma PlayMore(attempts: seq<Attempt>, more: seq<Attempt>, window: real)
    requires |more| <= 1
    ensures var h, p := Play(attempts, window), Play(attempts + more, window);
            p.passed == Passed(h, more, window) && p.cache == Cached(h, more, window)
  {
    hide Gate, Since, Play;
    if more == [] {
      assert attempts + more == attempts;
    } else {
      assert more == [more[0]];
      PlaySnoc(attempts, more[0], window);
    }
  }

  /** In any run the cache and the entries of the table are those of the gate's own history. */
  lemma {:induction false} RunFollowsGate(cfg: Config, turns: seq<Turn>) returns (ids: seq<OrderId>)
    ensures var g, h := After(cfg, turns), Play(Attempts(cfg, turns), cfg.dedupWindow);
            Inv(g.book) && g.recent == h.cache && Entered(g.book, h.passed, ids)
  {
    hide Inv, Entered, Take, AttemptOf, Play, Gate;
    if turns == [] {
      ids := [];
      NoneEntered();
      NoPlay(cfg.dedupWindow);
    } else {
      var init, t := turns[..|turns| - 1], turns[|turns| - 1];
      ids := RunFollowsGate(cfg, init);
      var h := Play(Attempts(cfg, init), cfg.dedupWindow);
      OneAttempt(cfg, t);
      PlayMore(Attempts(cfg, init), AttemptOf(cfg, t), cfg.dedupWindow);
      ids := TakeKeeps(cfg, After(cfg, init), h, t, ids);
    }
  }

  lemma NoPlay(window: real)
    ensures Play([], window) == History([], [], false)
  {}

  lemma OneAttempt(cfg: Config, t: Turn)
    ensures |AttemptOf(cfg, t)| <= 1
  {}

  /** Two entries for one market and direction are stamped more than a window apart: over any run of the executor on
      a clock that never goes back, as long as the cap has not dropped a stamp. */
  lemma EntriesAreApart(cfg: Config, turns: seq<Turn>, i: OrderId, j: OrderId)
    requires Clocked(Attempts(cfg, turns)) && !Play(Attempts(cfg, turns), cfg.dedupWindow).capped
    requires var b := After(cfg, turns).book;
             && i in b.rows && j in b.rows && i != j && b.rows[i].kind == b.rows[j].kind == Entry
             && b.rows[i].market == b.rows[j].market && b.rows[i].direction == b.rows[j].direction
    ensures var b := After(cfg, turns).book;
            Abs(b.rows[i].timestamp - b.rows[j].timestamp) > cfg.dedupWindow
  {
    hide After, Attempts, Play, Clocked, Inv;
    var b, h := After(cfg, turns).book, Play(Attempts(cfg, turns), cfg.dedupWindow);
    var ids := RunFollowsGate(cfg, turns);
    PassesAreApart(Attempts(cfg, turns), cfg.dedupWindow);
    var k :| 0 <= k < |ids| && ids[k] == i;
    var l :| 0 <= l < |ids| && ids[l] == j;
    assert StampOf(b.rows[i]) == h.passed[k] && StampOf(b.rows[j]) == h.passed[l];
    ApartTwo(h.passed, cfg.dedupWindow, k, l);
    ApartTwo(h.passed, cfg.dedupWindow, l, k);
    hide Apart;
  }

  lemma ApartTwo(p: seq<Stamp>, window: real, i: nat, j: nat)
    requires Apart(p, window) && i < |p| && j < |p| && SameKey(p[i], p[j])
    ensures i < j ==> p[j].at - p[i].at > window
  {}
}
