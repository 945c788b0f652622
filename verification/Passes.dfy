/** The executor's loops over the table are sequences of actions: whatever is proved about all runs holds
    after every reconcile pass, with other tasks closing, cancelling and expiring orders inside it, and after
    every sweep. */
module Passes {
  import opened Orders
  import opened OrderInvariants
  import opened OrderRuns

  lemma {:induction false} RunAppend(cfg: Config, b: Book, first: seq<Action>, second: seq<Action>)
    ensures var (b1, e1) := Run(cfg, b, first);
            var (b2, e2) := Run(cfg, b1, second);
            Run(cfg, b, first + second) == (b2, e1 + e2)
  {
    hide Step;
    if second == [] {
      assert first + second == first;
      var e1 := Run(cfg, b, first).1;
      assert e1 + [] == e1;
    } else {
      var init := second[..|second| - 1];
      RunAppend(cfg, b, first, init);
      var all, last := first + second, second[|second| - 1];
      assert all[..|all| - 1] == first + init && all[|all| - 1] == last;
      var (b1, e1) := Run(cfg, b, first);
      var (b2, e2) := Run(cfg, b1, init);
      var es := Step(cfg, b2, last).1;
      assert e1 + e2 + es == e1 + (e2 + es);
    }
  }

  lemma RunOne(cfg: Config, b: Book, a: Action)
    ensures Run(cfg, b, [a]) == Step(cfg, b, a)
  {
    hide Step;
    assert [a][..0] == [];
    assert [] + Step(cfg, b, a).1 == Step(cfg, b, a).1;
  }

  /** What the interference does that other tasks can do at all. */
  ghost function Effective(others: Interference): seq<Action> {
    if others == [] then []
    else
      var last := others[|others| - 1];
      Effective(others[..|others| - 1]) + if Unlocked(last) then [last] else []
  }

  lemma {:induction false} InterferenceRuns(cfg: Config, b: Book, others: Interference)
    ensures Run(cfg, b, Effective(others)) == (Interfere(cfg, b, others), [])
  {
    if others == [] {
    } else {
      var init, last := others[..|others| - 1], others[|others| - 1];
      InterferenceRuns(cfg, b, init);
      var b1 := Interfere(cfg, b, init);
      if Unlocked(last) {
        UnlockedIsSilent(cfg, b1, last);
        hide Step;
        RunAppend(cfg, b, Effective(init), [last]);
        RunOne(cfg, b1, last);
      } else {
        assert Effective(init) + [] == Effective(init);
      }
    }
  }

  lemma UnlockedIsSilent(cfg: Config, b: Book, a: Action)
    requires Unlocked(a)
    ensures Step(cfg, b, a).1 == []
  {
    hide CancelOrder, ClosePosition;
  }

  ghost function VisitActions(cfg: Config, b: Book, id: OrderId, w: World): seq<Action> {
    if !Known(b, id) then []
    else
      var r := b.rows[id];
      if IsChild(r.kind) then [On(id, Visit(w.quotes, w.now))]
      else if r.kind == Entry && !Final(r.status) then
        if LiveManaged(cfg, r)
        then Effective(w.others(id)) + [On(id, Answer(w.answers(id), w.now)), On(id, Late(w.now))]
        else [On(id, Visit(w.quotes, w.now))]
      else []
  }

  lemma LiveVisitRuns(cfg: Config, b: Book, id: OrderId, w: World)
    requires Inv(b) && Known(b, id) && b.rows[id].kind == Entry && LiveManaged(cfg, b.rows[id])
    ensures Run(cfg, b, Effective(w.others(id)) + [On(id, Answer(w.answers(id), w.now)), On(id, Late(w.now))])
            == LiveVisit(cfg, b, id, w)
  {
    hide Inv, LiveEntry, Rearm, Interfere, Effective, Moves;
    var others := Effective(w.others(id));
    var answer, late := On(id, Answer(w.answers(id), w.now)), On(id, Late(w.now));
    InterferenceRuns(cfg, b, w.others(id));
    RunMoves(cfg, b, others);
    var b1 := Interfere(cfg, b, w.others(id));
    MovedRow(b, b1, id);
    LiveEntryKeeps(cfg, b1, id, w.answers(id), w.now);
    var b2 := LiveEntry(cfg, b1, id, w.answers(id), w.now).0;
    MovedRow(b1, b2, id);
    RunOne(cfg, b1, answer);
    RunOne(cfg, b2, late);
    hide Run;
    RunAppend(cfg, b1, [answer], [late]);
    assert [answer] + [late] == [answer, late];
    RunAppend(cfg, b, others, [answer, late]);
    var es := LiveVisit(cfg, b, id, w).1;
    assert [] + es == es;
  }

  lemma VisitRuns(cfg: Config, b: Book, id: OrderId, w: World)
    requires Inv(b)
    ensures Run(cfg, b, VisitActions(cfg, b, id, w)) == PassVisit(cfg, b, id, w)
  {
    hide Inv, VisitChild, VisitLocalEntry, LiveVisit, Effective;
    if Known(b, id) {
      var r := b.rows[id];
      RunOne(cfg, b, On(id, Visit(w.quotes, w.now)));
      if r.kind == Entry && LiveManaged(cfg, r) {
        LiveVisitRuns(cfg, b, id, w);
      }
    }
  }

  ghost function PassActions(cfg: Config, b: Book, ids: seq<OrderId>, w: World): seq<Action> {
    if ids == [] then []
    else
      var init := ids[..|ids| - 1];
      PassActions(cfg, b, init, w) + VisitActions(cfg, Pass(cfg, b, init, w).0, ids[|ids| - 1], w)
  }

  /** A reconcile pass over any snapshot is a run: same table, same events. */
  lemma {:induction false} PassIsRun(cfg: Config, b: Book, ids: seq<OrderId>, w: World)
    requires Inv(b)
    ensures Run(cfg, b, PassActions(cfg, b, ids, w)) == Pass(cfg, b, ids, w)
  {
    hide Inv, PassVisit, VisitActions, Step;
    if ids == [] {
    } else {
      var init, last := ids[..|ids| - 1], ids[|ids| - 1];
      PassIsRun(cfg, b, init, w);
      RunMoves(cfg, b, PassActions(cfg, b, init, w));
      var b1 := Pass(cfg, b, init, w).0;
      VisitRuns(cfg, b1, last, w);
      RunAppend(cfg, b, PassActions(cfg, b, init, w), VisitActions(cfg, b1, last, w));
    }
  }

  /** Passes over short tables, spelled out. */
  lemma PassOne(cfg: Config, b: Book, id: OrderId, w: World)
    ensures Pass(cfg, b, [id], w).0 == PassVisit(cfg, b, id, w).0
  {
    hide PassVisit;
    assert [id][..0] == [];
  }

  lemma PassThree(cfg: Config, b: Book, x: OrderId, y: OrderId, z: OrderId, w: World)
    ensures var (b1, e1) := PassVisit(cfg, b, x, w);
            var (b2, e2) := PassVisit(cfg, b1, y, w);
            var (b3, e3) := PassVisit(cfg, b2, z, w);
            Pass(cfg, b, [x, y, z], w) == (b3, e1 + e2 + e3)
  {
    hide PassVisit, Pass;
    assert [] + [x] == [x] && [x] + [y] == [x, y] && [x, y] + [z] == [x, y, z];
    NoPass(cfg, b, w);
    PassSnoc(cfg, b, [], x, w);
    PassSnoc(cfg, b, [x], y, w);
    PassSnoc(cfg, b, [x, y], z, w);
    var e1 := PassVisit(cfg, b, x, w).1;
    assert [] + e1 == e1;
  }

  lemma NoPass(cfg: Config, b: Book, w: World)
    ensures Pass(cfg, b, [], w) == (b, [])
  {}

  lemma PassSnoc(cfg: Config, b: Book, ids: seq<OrderId>, id: OrderId, w: World)
    ensures var (b1, e1) := Pass(cfg, b, ids, w);
            var (b2, e2) := PassVisit(cfg, b1, id, w);
            Pass(cfg, b, ids + [id], w) == (b2, e1 + e2)
  {
    hide PassVisit;
    assert (ids + [id])[..|ids|] == ids;
  }

  /** Cancelling all open orders is a run. */
  lemma {:induction false} CancelAllIsRun(cfg: Config, b: Book, ids: seq<OrderId>, ok: OrderId -> bool)
    returns (actions: seq<Action>)
    ensures Run(cfg, b, actions).0 == CancelAll(cfg, b, ids, ok).0
  {
    hide CancelOrder;
    actions := [];
    if ids == [] {
    } else {
      var init, id := ids[..|ids| - 1], ids[|ids| - 1];
      actions := CancelAllIsRun(cfg, b, init, ok);
      var b1 := CancelAll(cfg, b, init, ok).0;
      if id in b1.rows && Open(b1.rows[id].status) {
        RunOne(cfg, b1, Cancel(id, ok(id)));
        RunAppend(cfg, b, actions, [Cancel(id, ok(id))]);
        actions := actions + [Cancel(id, ok(id))];
      }
    }
  }

  /** The expiry sweep is a run. */
  lemma {:induction false} ExpireAllIsRun(cfg: Config, b: Book, ids: seq<OrderId>, now: Time, ok: OrderId -> bool)
    returns (actions: seq<Action>)
    requires Inv(b)
    ensures Run(cfg, b, actions).0 == ExpireAll(cfg, b, ids, now, ok).0
  {
    hide Inv, ExpireOne, Step;
    actions := [];
    if ids == [] {
    } else {
      var init, id := ids[..|ids| - 1], ids[|ids| - 1];
      actions := ExpireAllIsRun(cfg, b, init, now, ok);
      RunMoves(cfg, b, actions);
      var b1 := ExpireAll(cfg, b, init, now, ok).0;
      var more := ExpireOneActions(cfg, b1, id, now, ok(id));
      RunAppend(cfg, b, actions, more);
      actions := actions + more;
    }
  }

  lemma ExpireOneActions(cfg: Config, b: Book, id: OrderId, now: Time, ok: bool) returns (actions: seq<Action>)
    requires Inv(b)
    ensures Run(cfg, b, actions).0 == ExpireOne(cfg, b, id, now, ok).0
  {
    hide CancelOrder, ShapeOk, LinksOk, Groups, Exclusive, KeysOk;
    actions := [];
    if id in b.rows && Open(b.rows[id].status) {
      if b.rows[id].status == Armed {
        RunOne(cfg, b, On(id, Expire(now)));
        actions := [On(id, Expire(now))];
      } else if (now - b.rows[id].timestamp) / 60.0 > cfg.expiryMinutes {
        RunOne(cfg, b, Cancel(id, ok));
        actions := [Cancel(id, ok)];
      }
    }
  }

  /** What a caller sees across any pass from any reachable table: the invariant holds again, finished
      children are untouched, and no OCO group has a filled member next to an armed or filled one. */
  lemma PassFromReachable(cfg: Config, before: seq<Action>, ids: seq<OrderId>, w: World)
    ensures var b := Run(cfg, EMPTY_BOOK, before).0;
            var b' := Pass(cfg, b, ids, w).0;
            && Inv(b') && Moves(b, b')
            && (!DustConfig(cfg) ==> NoOversell(b'))
            && exists actions :: b' == Run(cfg, EMPTY_BOOK, before + actions).0
  {
    hide Inv, Moves, Step, NoOversell;
    RunKeeps(cfg, before);
    var b := Run(cfg, EMPTY_BOOK, before).0;
    PassIsRun(cfg, b, ids, w);
    var actions := PassActions(cfg, b, ids, w);
    RunMoves(cfg, b, actions);
    RunAppend(cfg, EMPTY_BOOK, before, actions);
    if !DustConfig(cfg) {
      BracketsNeverOversell(cfg, before + actions);
    }
  }
}
