/** What cancelling all open orders comes to: which orders end, and how many are counted. */
module Cancelling {
  import opened Options
  import opened Orders
  import opened OrderInvariants
  import opened OrderRuns
  import opened Passes
  import opened Ages
  import opened Outcomes

  ghost predicate IsOpen(r: Row) {
    r.status == Placed || r.status == PartiallyFilled || r.status == Armed
  }

  /** The order can be cancelled: only live entries wait for the exchange to agree. */
  ghost predicate Yields(cfg: Config, r: Row, ok: OrderId -> bool) {
    r.kind != Entry || r.isPaper || !cfg.hasClob || ok(r.id)
  }

  /** An armed child that goes with its entry, if that has had its turn. */
  ghost predicate Along(cfg: Config, b: Book, r: Row, seen: seq<OrderId>) {
    && r.status == Armed && r.parent.Some? && r.parent.value in seen && r.parent.value in b.rows
    && var p := b.rows[r.parent.value];
       p.kind == Entry && IsOpen(p) && (p.isPaper || !cfg.hasClob)
  }

  ghost predicate Ended(cfg: Config, b: Book, r: Row, seen: seq<OrderId>, ok: OrderId -> bool) {
    Along(cfg, b, r, seen) || (r.id in seen && IsOpen(r) && Yields(cfg, r, ok))
  }

  /** The loop has been over `seen`: the orders that have ended are cancelled, and nothing else but bracket states has
      changed. */
  ghost predicate ClearedTo(cfg: Config, b: Book, b1: Book, seen: seq<OrderId>, ok: OrderId -> bool) {
    b1.rows.Keys == b.rows.Keys
    && forall x :: x in b.rows ==>
         var r, r1 := b.rows[x], b1.rows[x];
         r1 == r.(status := if Ended(cfg, b, r, seen, ok) then Cancelled else r.status,
                  bracketState := r1.bracketState)
  }

  lemma EndedSnoc(cfg: Config, b: Book, r: Row, seen: seq<OrderId>, id: OrderId, ok: OrderId -> bool)
    requires id in b.rows && b.rows[id].id == id
    ensures Ended(cfg, b, r, seen + [id], ok)
            <==> || Ended(cfg, b, r, seen, ok)
                 || (r.id == id && IsOpen(r) && Yields(cfg, r, ok))
                 || (r.status == Armed && r.parent == Some(id) && b.rows[id].kind == Entry && IsOpen(b.rows[id])
                     && (b.rows[id].isPaper || !cfg.hasClob))
  {
    hide IsOpen, Yields;
    assert forall k :: k in seen + [id] <==> k in seen || k == id;
  }

  lemma ClearedRow(cfg: Config, b: Book, b1: Book, seen: seq<OrderId>, ok: OrderId -> bool, x: OrderId)
    requires ClearedTo(cfg, b, b1, seen, ok) && x in b.rows
    ensures x in b1.rows
    ensures var r, r1 := b.rows[x], b1.rows[x];
            r1 == r.(status := if Ended(cfg, b, r, seen, ok) then Cancelled else r.status,
                     bracketState := r1.bracketState)
  {}

  /** The table after the turn of `id`. */
  ghost function Turned(cfg: Config, b: Book, id: OrderId, ok: OrderId -> bool): Book
    requires id in b.rows
  {
    if IsOpen(b.rows[id]) then CancelOrder(cfg, b, id, ok(id)).0 else b
  }

  /** What a turn does to one order, in terms of the table it finds. */
  lemma TurnedRow(cfg: Config, b: Book, id: OrderId, ok: OrderId -> bool, x: OrderId)
    requires Inv(b) && id in b.rows && x in b.rows
    ensures var r, b' := b.rows[id], Turned(cfg, b, id, ok);
            var ends := IsOpen(r) && Yields(cfg, r, ok);
            && b'.rows.Keys == b.rows.Keys
            && (IsOpen(r) ==> (CancelOrder(cfg, b, id, ok(id)).1 <==> Yields(cfg, r, ok)))
            && b'.rows[x] == b.rows[x].(status := if ends && (x == id || GoesAlong(cfg, b, id, x)) then Cancelled
                                                  else b.rows[x].status,
                                        bracketState := b'.rows[x].bracketState)
  {
    RowNamed(b, id);
    CancelledExactly(cfg, b, id, ok(id));
    hide Inv, CancelOrder, GoesAlong;
  }

  /** The turn of an order. */
  lemma TurnClears(cfg: Config, b: Book, b1: Book, seen: seq<OrderId>, id: OrderId, ok: OrderId -> bool)
    requires Inv(b) && Inv(b1) && ClearedTo(cfg, b, b1, seen, ok) && id in b.rows && id !in seen
    ensures id in b1.rows && ClearedTo(cfg, b, Turned(cfg, b1, id, ok), seen + [id], ok)
    ensures IsOpen(b1.rows[id]) <==> IsOpen(b.rows[id]) && !Along(cfg, b, b.rows[id], seen)
    ensures IsOpen(b1.rows[id]) ==> (CancelOrder(cfg, b1, id, ok(id)).1 <==> Yields(cfg, b.rows[id], ok))
  {
    hide Inv, CancelOrder, Turned, Ended, Along, GoesAlong, Yields;
    RowNamed(b, id);
    ClearedRow(cfg, b, b1, seen, ok, id);
    EndedAt(cfg, b, b.rows[id], seen, ok);
    TurnedRow(cfg, b1, id, ok, id);
    SameYield(cfg, b.rows[id], b1.rows[id], ok);
    if b.rows[id].status == Armed {
      ArmedIsChild(b, id);
    }
    var b2 := Turned(cfg, b1, id, ok);
    forall x | x in b.rows
      ensures b2.rows[x] == b.rows[x].(status := if Ended(cfg, b, b.rows[x], seen + [id], ok) then Cancelled
                                                 else b.rows[x].status,
                                       bracketState := b2.rows[x].bracketState)
    {
      RowNamed(b, x);
      ClearedRow(cfg, b, b1, seen, ok, x);
      TurnedRow(cfg, b1, id, ok, x);
      TurnEnds(cfg, b, b1, seen, id, ok, x);
      hide ClearedTo;
    }
    ClearedKeys(cfg, b, b1, seen, ok);
  }

  lemma ClearedKeys(cfg: Config, b: Book, b1: Book, seen: seq<OrderId>, ok: OrderId -> bool)
    requires ClearedTo(cfg, b, b1, seen, ok)
    ensures b1.rows.Keys == b.rows.Keys
  {}

  lemma SameYield(cfg: Config, r: Row, r1: Row, ok: OrderId -> bool)
    requires r1.kind == r.kind && r1.isPaper == r.isPaper && r1.id == r.id
    ensures Yields(cfg, r1, ok) <==> Yields(cfg, r, ok)
  {}

  /** Who has ended after the turn of `id`: who had before, and whom the turn ends. */
  lemma TurnEnds(cfg: Config, b: Book, b1: Book, seen: seq<OrderId>, id: OrderId, ok: OrderId -> bool, x: OrderId)
    requires id in b.rows && x in b.rows && id in b1.rows && x in b1.rows && id !in seen
    requires b.rows[id].id == id && b.rows[x].id == x && (b.rows[id].kind == Entry ==> b.rows[id].status != Armed)
    requires var r, r1 := b.rows[x], b1.rows[x];
             r1 == r.(status := if Ended(cfg, b, r, seen, ok) then Cancelled else r.status,
                      bracketState := r1.bracketState)
    requires var r, r1 := b.rows[id], b1.rows[id];
             r1 == r.(status := if Along(cfg, b, r, seen) then Cancelled else r.status,
                      bracketState := r1.bracketState)
    ensures Ended(cfg, b, b.rows[x], seen + [id], ok)
            <==> Ended(cfg, b, b.rows[x], seen, ok)
                 || (IsOpen(b1.rows[id]) && Yields(cfg, b1.rows[id], ok) && (x == id || GoesAlong(cfg, b1, id, x)))
  {
    hide Ended, Along;
    EndedSnoc(cfg, b, b.rows[x], seen, id, ok);
    AlongIsChild(cfg, b, b.rows[id], seen);
    EndedAt(cfg, b, b.rows[id], seen, ok);
  }

  lemma AlongIsChild(cfg: Config, b: Book, r: Row, seen: seq<OrderId>)
    ensures Along(cfg, b, r, seen) ==> r.status == Armed && r.parent.Some?
  {}

  lemma EndedAt(cfg: Config, b: Book, r: Row, seen: seq<OrderId>, ok: OrderId -> bool)
    requires r.id !in seen
    ensures Ended(cfg, b, r, seen, ok) <==> Along(cfg, b, r, seen)
  {}

  // ----- the loop ---------------------------------------------------------------------------------

  /** The order was cancelled in its own turn. */
  ghost predicate Counts(cfg: Config, b: Book, x: OrderId, ok: OrderId -> bool) {
    x in b.rows && IsOpen(b.rows[x]) && Yields(cfg, b.rows[x], ok) && !Along(cfg, b, b.rows[x], b.keys)
  }

  lemma ParentFirst(cfg: Config, b: Book, n: nat, id: OrderId)
    requires Inv(b) && Younger(b) && ByAge(b.keys) && n < |b.keys| && b.keys[n] == id
    ensures id in b.rows && id !in b.keys[..n]
    ensures Along(cfg, b, b.rows[id], b.keys[..n]) <==> Along(cfg, b, b.rows[id], b.keys)
  {
    DistinctKeys(b);
    assert id in b.keys;
    if b.rows[id].status == Armed {
      ArmedIsChild(b, id);
      ParentAt(b, id);
      var p := b.rows[id].parent.value;
      assert p in b.keys && p < id;
      var i :| 0 <= i < |b.keys| && b.keys[i] == p;
      assert i < n;
      assert b.keys[..n][i] == p;
    }
    hide Inv;
  }

  lemma {:induction false} ClearPrefix(cfg: Config, b: Book, n: nat, ok: OrderId -> bool)
    requires Inv(b) && Younger(b) && ByAge(b.keys) && n <= |b.keys|
    ensures var (b', count) := CancelAll(cfg, b, b.keys[..n], ok);
            && ClearedTo(cfg, b, b', b.keys[..n], ok)
            && count == |set x | x in b.keys[..n] && Counts(cfg, b, x, ok)|
  {
    hide Inv, CancelOrder, CancelAll, Younger, ByAge, Along, Yields, ClearedTo, Counts, IsOpen, Turned;
    if n == 0 {
      assert b.keys[..n] == [];
      NothingCleared(cfg, b, ok);
    } else {
      ClearPrefix(cfg, b, n - 1, ok);
      var seen, id := b.keys[..n - 1], b.keys[n - 1];
      assert b.keys[..n] == seen + [id];
      ParentFirst(cfg, b, n - 1, id);
      var actions := CancelAllIsRun(cfg, b, seen, ok);
      RunMoves(cfg, b, actions);
      var b1 := CancelAll(cfg, b, seen, ok).0;
      TurnClears(cfg, b, b1, seen, id, ok);
      OneMore(cfg, b, b1, seen, id, ok);
      CountMore(cfg, b, seen, id, ok);
      CountsMeans(cfg, b, id, ok);
    }
  }

  lemma CountsMeans(cfg: Config, b: Book, x: OrderId, ok: OrderId -> bool)
    ensures Counts(cfg, b, x, ok)
            <==> x in b.rows && IsOpen(b.rows[x]) && Yields(cfg, b.rows[x], ok) && !Along(cfg, b, b.rows[x], b.keys)
  {}

  lemma CountMore(cfg: Config, b: Book, seen: seq<OrderId>, id: OrderId, ok: OrderId -> bool)
    requires id !in seen
    ensures |set x | x in seen + [id] && Counts(cfg, b, x, ok)|
            == |set x | x in seen && Counts(cfg, b, x, ok)| + if Counts(cfg, b, id, ok) then 1 else 0
  {
    hide Counts;
    var before := set x | x in seen && Counts(cfg, b, x, ok);
    assert (set x | x in seen + [id] && Counts(cfg, b, x, ok))
           == before + (if Counts(cfg, b, id, ok) then {id} else {});
  }

  /** The loop over one more order. */
  lemma OneMore(cfg: Config, b: Book, b1: Book, seen: seq<OrderId>, id: OrderId, ok: OrderId -> bool)
    requires b1 == CancelAll(cfg, b, seen, ok).0 && id in b1.rows
    ensures CancelAll(cfg, b, seen + [id], ok)
            == (Turned(cfg, b1, id, ok),
                CancelAll(cfg, b, seen, ok).1
                + if IsOpen(b1.rows[id]) && CancelOrder(cfg, b1, id, ok(id)).1 then 1 else 0)
  {
    hide CancelOrder;
    assert (seen + [id])[..|seen|] == seen;
  }

  lemma NothingCleared(cfg: Config, b: Book, ok: OrderId -> bool)
    ensures ClearedTo(cfg, b, b, [], ok) && CancelAll(cfg, b, [], ok) == (b, 0)
    ensures |set x | x in [] && Counts(cfg, b, x, ok)| == 0
  {
    assert (set x | x in [] && Counts(cfg, b, x, ok)) == {};
  }

  /** Cancelling all open orders of a reachable table cancels every open order but the live entries the exchange refuses
      to cancel, changes nothing else but bracket states, and counts the orders it cancelled in their own turn: all of
      those but the armed children that went with their entry. */
  lemma CancelAllExactly(cfg: Config, actions: seq<Action>, ok: OrderId -> bool)
    ensures var b := Run(cfg, EMPTY_BOOK, actions).0;
            var (b', count) := CancelAll(cfg, b, b.keys, ok);
            && b'.rows.Keys == b.rows.Keys
            && (forall x :: x in b.rows ==>
                  var r, r' := b.rows[x], b'.rows[x];
                  r' == r.(status := if IsOpen(r) && Yields(cfg, r, ok) then Cancelled else r.status,
                           bracketState := r'.bracketState))
            && count == |set x | x in b.rows && Counts(cfg, b, x, ok)|
  {
    hide Inv, CancelAll, Run, Counts;
    var b := Run(cfg, EMPTY_BOOK, actions).0;
    RunKeeps(cfg, actions);
    OldestFirst(cfg, actions);
    DistinctKeys(b);
    ClearPrefix(cfg, b, |b.keys|, ok);
    assert b.keys[..|b.keys|] == b.keys;
    assert (set x | x in b.keys && Counts(cfg, b, x, ok)) == set x | x in b.rows && Counts(cfg, b, x, ok);
    AllEnded(cfg, b, ok);
    hide Ended, IsOpen, Yields;
  }

  /** By the end of the loop every open order that yields has ended. */
  lemma AllEnded(cfg: Config, b: Book, ok: OrderId -> bool)
    requires Inv(b)
    ensures forall x :: x in b.rows ==>
              (Ended(cfg, b, b.rows[x], b.keys, ok) <==> IsOpen(b.rows[x]) && Yields(cfg, b.rows[x], ok))
  {
    DistinctKeys(b);
    forall x | x in b.rows
      ensures Ended(cfg, b, b.rows[x], b.keys, ok) <==> IsOpen(b.rows[x]) && Yields(cfg, b.rows[x], ok)
    {
      RowNamed(b, x);
      if b.rows[x].status == Armed {
        ArmedIsChild(b, x);
      }
    }
    hide Inv;
  }
}
