/** What the expiry sweep ends: exactly the open orders that are too old and the armed children past their deadline. */
module Expiry {
  import opened Options
  import opened Orders
  import opened OrderInvariants
  import opened OrderRuns
  import opened Ages

  /** A resting order that is older than the configuration allows and is cancelled for it: at once if only local state
      is concerned, else if the exchange agrees. */
  ghost predicate TooOld(cfg: Config, r: Row, now: Time, ok: OrderId -> bool) {
    && (r.status == Placed || r.status == PartiallyFilled)
    && now > r.timestamp + 60.0 * cfg.expiryMinutes
    && (CancelsLocally(cfg, r) || ok(r.id))
  }

  /** The order is an entry whose children go with it. */
  ghost predicate TakesAlong(cfg: Config, b: Book, p: OrderId, now: Time, ok: OrderId -> bool) {
    p in b.rows && TooOld(cfg, b.rows[p], now, ok) && CancelsLocally(cfg, b.rows[p])
  }

  ghost predicate PastDeadline(r: Row, now: Time) {
    r.status == Armed && r.expiry.Some? && now > r.expiry.value
  }

  ghost predicate LosesParent(cfg: Config, b: Book, r: Row, seen: seq<OrderId>, now: Time, ok: OrderId -> bool) {
    r.status == Armed && r.parent.Some? && r.parent.value in seen && TakesAlong(cfg, b, r.parent.value, now, ok)
  }

  /** The status of an order of `b` once the sweep has been over the orders `seen`. */
  ghost function Swept(cfg: Config, b: Book, r: Row, seen: seq<OrderId>, now: Time, ok: OrderId -> bool): Status {
    if LosesParent(cfg, b, r, seen, now, ok) then Cancelled
    else if r.id in seen && PastDeadline(r, now) then Expired
    else if r.id in seen && TooOld(cfg, r, now, ok) then Cancelled
    else r.status
  }

  /** The order ended in its own turn. */
  ghost predicate EndsItself(cfg: Config, b: Book, r: Row, now: Time, ok: OrderId -> bool) {
    TooOld(cfg, r, now, ok) || (PastDeadline(r, now) && !LosesParent(cfg, b, r, b.keys, now, ok))
  }

  /** The sweep has been over `seen`: statuses have changed as they should, nothing else but bracket states has. */
  ghost predicate SweptTo(cfg: Config, b: Book, b1: Book, seen: seq<OrderId>, now: Time, ok: OrderId -> bool) {
    b1.rows.Keys == b.rows.Keys
    && forall id :: id in b.rows ==>
         var r, r1 := b.rows[id], b1.rows[id];
         r1 == r.(status := Swept(cfg, b, r, seen, now, ok), bracketState := r1.bracketState)
  }

  // ----- one turn ---------------------------------------------------------------------------------

  /** Cancelling a list of orders cancels those of them that are not final. */
  lemma {:induction false} CancelChildrenRows(b: Book, ids: seq<OrderId>)
    ensures var b' := CancelChildren(b, ids);
            && b'.rows.Keys == b.rows.Keys
            && forall x :: x in b.rows ==>
                 b'.rows[x] == b.rows[x].(status := if x in ids && !Final(b.rows[x].status) then Cancelled
                                                    else b.rows[x].status)
  {
    if ids == [] {
    } else {
      CancelChildrenRows(b, ids[..|ids| - 1]);
    }
  }

  /** The children of an entry that can still change are the armed ones that name it, and none has had its turn. */
  lemma ChildrenFollow(b: Book, p: OrderId, seen: seq<OrderId>)
    requires Inv(b) && Younger(b) && p in b.rows && b.rows[p].kind == Entry && forall k :: k in seen ==> k < p
    ensures forall c :: c in b.rows[p].bracketIds ==>
              c in b.rows && c !in seen && b.rows[c].parent == Some(p)
              && (b.rows[c].status == Armed || Final(b.rows[c].status))
    ensures forall c :: c in b.rows && b.rows[c].status == Armed && b.rows[c].parent == Some(p)
              ==> c in b.rows[p].bracketIds && c != p
  {
    forall c | c in b.rows[p].bracketIds
      ensures c in b.rows && c !in seen && b.rows[c].parent == Some(p)
              && (b.rows[c].status == Armed || Final(b.rows[c].status))
    {
      ListedChildren(b, p);
      ArmedOrFinal(b, c);
      ParentAt(b, c);
    }
    forall c | c in b.rows && b.rows[c].status == Armed && b.rows[c].parent == Some(p)
      ensures c in b.rows[p].bracketIds && c != p
    {
      ArmedIsChild(b, c);
      ChildIsListed(b, c);
    }
    hide Inv;
  }

  lemma ArmedOrFinal(b: Book, c: OrderId)
    requires Inv(b) && c in b.rows && IsChild(b.rows[c].kind)
    ensures b.rows[c].status == Armed || Final(b.rows[c].status)
  {
    hide LedgerOk;
    assert ShapeOk(b.rows[c]);
  }

  lemma ChildIsListed(b: Book, c: OrderId)
    requires Inv(b) && c in b.rows && IsChild(b.rows[c].kind)
    ensures b.rows[c].parent.Some? && b.rows[c].parent.value in b.rows
            && c in b.rows[b.rows[c].parent.value].bracketIds && c != b.rows[c].parent.value
  {
    hide ShapeOk, Groups, Exclusive, KeysOk;
    assert LinksOk(b, b.rows[c]);
    ParentAt(b, c);
  }

  /** How the turn of `id` changes what the sweep should have done by then. */
  lemma SweptSnoc(cfg: Config, b: Book, r: Row, seen: seq<OrderId>, id: OrderId, now: Time, ok: OrderId -> bool)
    requires id !in seen
    ensures var s, s' := Swept(cfg, b, r, seen, now, ok), Swept(cfg, b, r, seen + [id], now, ok);
            s' == if LosesParent(cfg, b, r, seen, now, ok) then s
                  else if r.status == Armed && r.parent == Some(id) && TakesAlong(cfg, b, id, now, ok) then Cancelled
                  else if r.id != id then s
                  else if PastDeadline(r, now) then Expired
                  else if TooOld(cfg, r, now, ok) then Cancelled else s
    ensures r.id !in seen ==> Swept(cfg, b, r, seen, now, ok)
                              == if LosesParent(cfg, b, r, seen, now, ok) then Cancelled else r.status
  {
    hide TakesAlong, TooOld, PastDeadline;
    assert forall k :: k in seen + [id] <==> k in seen || k == id;
  }

  lemma IdAt(b: Book, id: OrderId)
    requires Inv(b) && id in b.rows
    ensures b.rows[id].id == id
  {
    hide ShapeOk, LinksOk, Groups, Exclusive, KeysOk;
  }

  lemma SweptRow(cfg: Config, b: Book, b1: Book, seen: seq<OrderId>, now: Time, ok: OrderId -> bool, id: OrderId)
    requires SweptTo(cfg, b, b1, seen, now, ok) && id in b.rows
    ensures id in b1.rows
    ensures var r, r1 := b.rows[id], b1.rows[id];
            r1 == r.(status := Swept(cfg, b, r, seen, now, ok), bracketState := r1.bracketState)
  {}

  /** A turn after which only `id` itself may have another status. */
  lemma TurnAlone(cfg: Config, b: Book, b1: Book, b2: Book, seen: seq<OrderId>, id: OrderId, now: Time,
                  ok: OrderId -> bool)
    requires Inv(b) && SweptTo(cfg, b, b1, seen, now, ok) && id in b.rows && id !in seen
    requires forall c :: c in b.rows && b.rows[c].status == Armed && b.rows[c].parent == Some(id) ==>
               !TakesAlong(cfg, b, id, now, ok)
    requires b2.rows.Keys == b1.rows.Keys && forall k :: k in b1.rows && k != id ==> b2.rows[k] == b1.rows[k]
    requires var r, r1, r2 := b.rows[id], b1.rows[id], b2.rows[id];
             r2 == r1.(status := if LosesParent(cfg, b, r, seen, now, ok) then Cancelled
                                 else if PastDeadline(r, now) then Expired
                                 else if TooOld(cfg, r, now, ok) then Cancelled else r.status,
                       bracketState := r2.bracketState)
    ensures SweptTo(cfg, b, b2, seen + [id], now, ok)
  {
    hide TooOld, PastDeadline, LosesParent, TakesAlong, Swept, Inv;
    forall k | k in b.rows
      ensures b2.rows[k] == b.rows[k].(status := Swept(cfg, b, b.rows[k], seen + [id], now, ok),
                                       bracketState := b2.rows[k].bracketState)
    {
      IdAt(b, k);
      SweptRow(cfg, b, b1, seen, now, ok, k);
      SweptSnoc(cfg, b, b.rows[k], seen, id, now, ok);
    }
  }

  lemma TurnOfChild(cfg: Config, b: Book, b1: Book, seen: seq<OrderId>, id: OrderId, now: Time, ok: OrderId -> bool)
    requires Inv(b) && SweptTo(cfg, b, b1, seen, now, ok) && id in b.rows && id !in seen
    requires b.rows[id].status == Armed || Final(b.rows[id].status)
    ensures var (b2, ended) := ExpireOne(cfg, b1, id, now, ok(id));
            && SweptTo(cfg, b, b2, seen + [id], now, ok)
            && (ended <==> PastDeadline(b.rows[id], now) && !LosesParent(cfg, b, b.rows[id], seen, now, ok))
  {
    hide CancelOrder, CancelsLocally, Swept, Inv;
    IdAt(b, id);
    SweptRow(cfg, b, b1, seen, now, ok, id);
    SweptSnoc(cfg, b, b.rows[id], seen, id, now, ok);
    hide SweptTo;
    SweptTable(cfg, b, b1, seen, now, ok);
    TurnAlone(cfg, b, b1, ExpireOne(cfg, b1, id, now, ok(id)).0, seen, id, now, ok);
  }

  lemma SweptTable(cfg: Config, b: Book, b1: Book, seen: seq<OrderId>, now: Time, ok: OrderId -> bool)
    requires SweptTo(cfg, b, b1, seen, now, ok)
    ensures b1.rows.Keys == b.rows.Keys
  {}

  /** The turn of a resting order. */
  lemma TurnOfResting(cfg: Config, b: Book, b1: Book, seen: seq<OrderId>, id: OrderId, now: Time,
                      ok: OrderId -> bool)
    requires Inv(b) && Younger(b) && SweptTo(cfg, b, b1, seen, now, ok) && id in b.rows && id !in seen
    requires forall k :: k in seen ==> k < id
    requires b.rows[id].status == Placed || b.rows[id].status == PartiallyFilled
    ensures var (b2, ended) := ExpireOne(cfg, b1, id, now, ok(id));
            SweptTo(cfg, b, b2, seen + [id], now, ok) && (ended <==> TooOld(cfg, b.rows[id], now, ok))
  {
    hide Swept, Inv, CancelLocal, ExpireOne, Younger, CancelsLocally, LosesParent, PastDeadline;
    var r := b.rows[id];
    IdAt(b, id);
    SweptRow(cfg, b, b1, seen, now, ok, id);
    SweptSnoc(cfg, b, r, seen, id, now, ok);
    SweptTable(cfg, b, b1, seen, now, ok);
    RestingIsAlone(cfg, b, r, seen, now, ok);
    hide SweptTo;
    SameLocally(cfg, r, b1.rows[id]);
    RestingTurn(cfg, b1, id, now, ok);
    if r.kind == Entry && TooOld(cfg, r, now, ok) && CancelsLocally(cfg, r) {
      TurnOfEntry(cfg, b, b1, seen, id, now, ok);
    } else {
      ChildrenOfEntries(b, id);
      TurnAlone(cfg, b, b1, ExpireOne(cfg, b1, id, now, ok(id)).0, seen, id, now, ok);
    }
  }

  lemma RestingIsAlone(cfg: Config, b: Book, r: Row, seen: seq<OrderId>, now: Time, ok: OrderId -> bool)
    requires r.status == Placed || r.status == PartiallyFilled
    ensures !LosesParent(cfg, b, r, seen, now, ok) && !PastDeadline(r, now)
  {}

  lemma SameLocally(cfg: Config, r: Row, r1: Row)
    requires r1.isPaper == r.isPaper && r1.kind == r.kind
    ensures CancelsLocally(cfg, r1) <==> CancelsLocally(cfg, r)
  {}

  /** What the sweep does to a resting order: nothing, or it cancels it, and its children if it is a local entry. */
  lemma RestingTurn(cfg: Config, b: Book, id: OrderId, now: Time, ok: OrderId -> bool)
    requires Known(b, id) && (b.rows[id].status == Placed || b.rows[id].status == PartiallyFilled)
    ensures var r, (b', ended) := b.rows[id], ExpireOne(cfg, b, id, now, ok(id));
            && (ended <==> TooOld(cfg, r, now, ok))
            && (if ended && r.kind == Entry && CancelsLocally(cfg, r) then b' == CancelLocal(b, id)
                else && b'.rows.Keys == b.rows.Keys && (forall k :: k in b.rows && k != id ==> b'.rows[k] == b.rows[k])
                     && b'.rows[id] == r.(status := if ended then Cancelled else r.status,
                                          bracketState := b'.rows[id].bracketState))
  {
    hide CancelChildren;
  }

  lemma ChildrenOfEntries(b: Book, p: OrderId)
    requires Inv(b) && p in b.rows
    ensures forall c :: c in b.rows && b.rows[c].status == Armed && b.rows[c].parent == Some(p)
              ==> b.rows[p].kind == Entry
  {
    forall c | c in b.rows && b.rows[c].status == Armed && b.rows[c].parent == Some(p) ensures b.rows[p].kind == Entry {
      ArmedIsChild(b, c);
      ParentAt(b, c);
    }
    hide Inv;
  }

  /** An entry that takes its children along. */
  lemma TurnOfEntry(cfg: Config, b: Book, b1: Book, seen: seq<OrderId>, id: OrderId, now: Time, ok: OrderId -> bool)
    requires Inv(b) && Younger(b) && SweptTo(cfg, b, b1, seen, now, ok) && id in b.rows && id !in seen
    requires forall k :: k in seen ==> k < id
    requires b.rows[id].kind == Entry && TakesAlong(cfg, b, id, now, ok)
    ensures id in b1.rows && SweptTo(cfg, b, CancelLocal(b1, id), seen + [id], now, ok)
  {
    hide Inv, Swept, CancelChildren, Younger, TooOld, PastDeadline;
    var r := b.rows[id];
    IdAt(b, id);
    SweptRow(cfg, b, b1, seen, now, ok, id);
    SweptTable(cfg, b, b1, seen, now, ok);
    ChildrenFollow(b, id, seen);
    var mid := SetBracketState(SetStatus(b1, id, Cancelled), id, BracketCancelled);
    CancelChildrenRows(mid, r.bracketIds);
    var b2 := CancelLocal(b1, id);
    assert b2 == CancelChildren(mid, r.bracketIds);
    hide TakesAlong, LosesParent;
    forall k | k in b.rows
      ensures b2.rows[k] == b.rows[k].(status := Swept(cfg, b, b.rows[k], seen + [id], now, ok),
                                       bracketState := b2.rows[k].bracketState)
    {
      IdAt(b, k);
      SweptRow(cfg, b, b1, seen, now, ok, k);
      hide SweptTo;
      SweptSnoc(cfg, b, b.rows[k], seen, id, now, ok);
      TakenChild(cfg, b, seen, id, k, now, ok);
    }
  }

  /** What becomes of one order when an entry takes its children along. */
  lemma TakenChild(cfg: Config, b: Book, seen: seq<OrderId>, p: OrderId, k: OrderId, now: Time, ok: OrderId -> bool)
    requires Inv(b) && p in b.rows && p !in seen && k in b.rows && b.rows[p].kind == Entry
    requires TakesAlong(cfg, b, p, now, ok)
    requires forall c :: c in b.rows[p].bracketIds ==>
               c in b.rows && c !in seen && b.rows[c].parent == Some(p)
               && (b.rows[c].status == Armed || Final(b.rows[c].status))
    ensures var r := b.rows[p];
            TooOld(cfg, r, now, ok) && !PastDeadline(r, now) && !LosesParent(cfg, b, r, seen, now, ok)
    ensures k in b.rows[p].bracketIds ==> k != p && !LosesParent(cfg, b, b.rows[k], seen, now, ok)
                                          && Swept(cfg, b, b.rows[k], seen, now, ok) == b.rows[k].status
  {
    IdAt(b, k);
    if k in b.rows[p].bracketIds {
      ListedChildren(b, p);
      ParentAt(b, k);
    }
    hide Inv, CancelsLocally;
  }


  // ----- the sweep --------------------------------------------------------------------------------

  lemma NothingSwept(cfg: Config, b: Book, now: Time, ok: OrderId -> bool)
    ensures SweptTo(cfg, b, b, [], now, ok)
  {}

  /** A parent is seen by the end if it ever is: it has its turn before its children have theirs. */
  lemma ParentSeen(cfg: Config, b: Book, n: nat, id: OrderId, now: Time, ok: OrderId -> bool)
    requires Inv(b) && Younger(b) && ByAge(b.keys) && n < |b.keys| && b.keys[n] == id
    ensures id in b.rows && id !in b.keys[..n] && forall k :: k in b.keys[..n] ==> k < id
    ensures LosesParent(cfg, b, b.rows[id], b.keys[..n], now, ok) <==> LosesParent(cfg, b, b.rows[id], b.keys, now, ok)
  {
    assert id in b.keys;
    InKeys(b);
    if b.rows[id].status == Armed {
      ArmedIsChild(b, id);
      ParentAt(b, id);
      var p := b.rows[id].parent.value;
      assert p in b.keys && p < id;
      var i :| 0 <= i < |b.keys| && b.keys[i] == p;
      assert i < n;
      assert b.keys[..n][i] == p;
    }
    hide Inv, TakesAlong;
  }

  lemma InKeys(b: Book)
    requires Inv(b)
    ensures forall id :: id in b.keys <==> id in b.rows
  {
    hide ShapeOk, LinksOk, Groups, Exclusive;
  }

  lemma {:induction false} SweepPrefix(cfg: Config, b: Book, n: nat, now: Time, ok: OrderId -> bool)
    requires Inv(b) && Younger(b) && ByAge(b.keys) && n <= |b.keys|
    ensures var (b', done) := ExpireAll(cfg, b, b.keys[..n], now, ok);
            && SweptTo(cfg, b, b', b.keys[..n], now, ok)
            && forall id :: id in done <==>
                 id in b.keys[..n] && id in b.rows && EndsItself(cfg, b, b.rows[id], now, ok)
  {
    hide Inv, ExpireOne, SweptTo, Younger, ByAge, TooOld, PastDeadline, LosesParent;
    InKeys(b);
    NothingSwept(cfg, b, now, ok);
    if n == 0 {
    } else {
      SweepPrefix(cfg, b, n - 1, now, ok);
      var seen, id := b.keys[..n - 1], b.keys[n - 1];
      assert b.keys[..n][..n - 1] == seen && b.keys[..n] == seen + [id];
      ParentSeen(cfg, b, n - 1, id, now, ok);
      var b1 := ExpireAll(cfg, b, seen, now, ok).0;
      if b.rows[id].status == Armed || Final(b.rows[id].status) {
        TurnOfChild(cfg, b, b1, seen, id, now, ok);
        RestsOrNot(cfg, b.rows[id], now, ok);
      } else {
        TurnOfResting(cfg, b, b1, seen, id, now, ok);
        RestsOrNot(cfg, b.rows[id], now, ok);
      }
    }
  }

  lemma RestsOrNot(cfg: Config, r: Row, now: Time, ok: OrderId -> bool)
    ensures r.status == Armed || Final(r.status) ==> !TooOld(cfg, r, now, ok)
    ensures r.status != Armed ==> !PastDeadline(r, now)
  {}

  /** The sweep over a reachable table. It cancels the resting orders that are older than the configured minutes, live
      entries among them only if the exchange agrees; with an entry that it cancels locally go its armed children;
      it expires the other armed children that are past their deadline; and every other order keeps its status. It
      returns exactly the orders that ended in their own turn, and changes nothing else but bracket states. */
  lemma SweepExactly(cfg: Config, actions: seq<Action>, now: Time, ok: OrderId -> bool)
    ensures var b := Run(cfg, EMPTY_BOOK, actions).0;
            var (b', done) := ExpireAll(cfg, b, b.keys, now, ok);
            && SweptTo(cfg, b, b', b.keys, now, ok)
            && forall id :: id in done <==> id in b.rows && EndsItself(cfg, b, b.rows[id], now, ok)
  {
    hide Inv, ExpireAll, SweptTo, Run, EndsItself;
    var b := Run(cfg, EMPTY_BOOK, actions).0;
    RunKeeps(cfg, actions);
    OldestFirst(cfg, actions);
    InKeys(b);
    SweepPrefix(cfg, b, |b.keys|, now, ok);
    assert b.keys[..|b.keys|] == b.keys;
  }
}
