/** What every action keeps, for every interleaving: the links between a parent, its bracket children and
    their OCO group, the ledger of each order, exclusivity inside a group, and the finality of children. */
module OrderInvariants {
  import opened Rounding
  import opened Options
  import opened Orders

  // ----- the invariant --------------------------------------------------------------------------

  /** The size ledger of one order: nothing filled yet, or the remainder is the rounded difference,
      or it was snapped to zero within one 1e-8 unit of complete. */
  ghost predicate LedgerOk(r: Row) {
    && r.size > 0.0
    && OnGrid(r.filled) && 0.0 <= r.filled <= r.size + UNIT / 2.0
    && (r.filled > 0.0 ==> r.average.Some?)
    && (|| (r.filled == 0.0 && r.remaining == r.size)
        || (r.remaining == 0.0 && Round8(Max(r.size - r.filled, 0.0)) <= UNIT)
        || (r.remaining > UNIT && r.remaining == Round8(Max(r.size - r.filled, 0.0))))
  }

  /** What each row satisfies on its own. A child is armed with nothing filled, or filled whole, or
      ended empty. */
  ghost predicate ShapeOk(r: Row) {
    && LedgerOk(r)
    && (r.kind == Entry ==>
          r.size >= 0.5 && r.status != Armed && r.parent == None && r.oco == None
          && (r.bracketIds == [] || (|r.bracketIds| == 2 && r.bracketIds[0] != r.bracketIds[1])))
    && (r.kind == Exit ==> r.status != Armed && r.parent == None && r.oco == None && r.bracketIds == [])
    && (IsChild(r.kind) ==>
          && r.bracketIds == [] && r.parent.Some? && r.oco.Some? && r.trigger.Some?
          && (r.status == Armed || Final(r.status))
          && (r.status == Armed ==> r.remaining == r.size && r.filled == 0.0)
          && (r.status == Cancelled || r.status == Expired ==> r.filled == 0.0)
          && (r.status == Filled ==> r.filled == Round8(r.size) && r.remaining == 0.0 && r.average.Some?))
  }

  /** `c` is listed as the child of kind `kind` of `p`. */
  ghost predicate Listed(b: Book, p: Row, c: OrderId, kind: Kind) {
    c in b.rows && b.rows[c].kind == kind && b.rows[c].parent == Some(p.id)
  }

  /** An entry and its children refer to each other. */
  ghost predicate LinksOk(b: Book, r: Row) {
    && (r.kind == Entry && r.bracketIds != [] ==>
          && |r.bracketIds| == 2
          && Listed(b, r, r.bracketIds[0], TakeProfit) && Listed(b, r, r.bracketIds[1], StopLoss)
          && b.rows[r.bracketIds[0]].oco == b.rows[r.bracketIds[1]].oco)
    && (IsChild(r.kind) ==>
          && r.parent.Some? && r.parent.value in b.rows && b.rows[r.parent.value].kind == Entry
          && r.id in b.rows[r.parent.value].bracketIds
          && r.oco.Some? && r.oco.value < b.next)
  }

  ghost predicate Groups(b: Book) {
    forall i, j :: i in b.rows && j in b.rows && b.rows[i].oco.Some? && b.rows[i].oco == b.rows[j].oco
      ==> b.rows[i].parent == b.rows[j].parent
  }

  /** A filled member of a group leaves no other member armed or filled. */
  ghost predicate Exclusive(b: Book) {
    forall i, j :: i in b.rows && j in b.rows && i != j
      && b.rows[i].oco.Some? && b.rows[i].oco == b.rows[j].oco && b.rows[i].status == Filled
      ==> b.rows[j].status == Cancelled || b.rows[j].status == Expired
  }

  ghost predicate KeysOk(b: Book) {
    && (forall id :: id in b.keys <==> id in b.rows)
    && (forall i, j :: 0 <= i < j < |b.keys| ==> b.keys[i] != b.keys[j])
  }

  ghost predicate Inv(b: Book) {
    && (forall id :: id in b.rows ==> b.rows[id].id == id && id < b.next)
    && (forall id :: id in b.rows ==> ShapeOk(b.rows[id]))
    && (forall id :: id in b.rows ==> LinksOk(b, b.rows[id]))
    && Groups(b) && Exclusive(b) && KeysOk(b)
  }

  ghost predicate RowMoves(r: Row, r': Row) {
    && SameOrder(r, r')
    && r.filled <= r'.filled
    && (r.bracketIds != [] ==> r'.bracketIds == r.bracketIds)
    && (IsChild(r.kind) && Final(r.status) ==> r' == r)
    && (!IsChild(r.kind) ==> r'.size == r.size)
    && (r.remaining == 0.0 ==> r'.remaining == 0.0 && r'.average == r.average && r'.filled == r.filled)
  }

  /** What any run does to the orders already in the table: none disappears or changes identity,
      filled sizes never shrink, a finished child is frozen, a complete order takes no more fills. */
  ghost predicate Moves(b: Book, b': Book) {
    b.next <= b'.next && forall id :: id in b.rows ==> id in b'.rows && RowMoves(b.rows[id], b'.rows[id])
  }

  /** Every child is no larger than what its parent has filled, and lies on the 1e-8 grid. */
  ghost predicate Covered(b: Book) {
    forall c :: c in b.rows && IsChild(b.rows[c].kind)
      ==> && OnGrid(b.rows[c].size)
          && b.rows[c].parent.Some? && b.rows[c].parent.value in b.rows
          && b.rows[c].size <= b.rows[b.rows[c].parent.value].filled
  }

  lemma MovesTransitive(a: Book, b: Book, c: Book)
    requires Moves(a, b) && Moves(b, c)
    ensures Moves(a, c)
  {
    forall id | id in a.rows ensures id in c.rows && RowMoves(a.rows[id], c.rows[id]) {
      assert RowMoves(a.rows[id], b.rows[id]) && RowMoves(b.rows[id], c.rows[id]);
    }
  }

  lemma MovedRow(b: Book, b': Book, id: OrderId)
    requires Moves(b, b') && id in b.rows
    ensures id in b'.rows && RowMoves(b.rows[id], b'.rows[id])
  {}

  // ----- the ledger of one order ----------------------------------------------------------------

  /** Rounding a non-negative excess over a grid point stays below the half-unit band above `size`. */
  lemma GridSum(x: real, y: real)
    requires OnGrid(x) && OnGrid(y)
    ensures OnGrid(x + y)
  {
    var m, n := (x * 100000000.0).Floor, (y * 100000000.0).Floor;
    assert (x + y) * 100000000.0 == (m + n) as real;
  }

  /** The new filled size: on the grid, no smaller than before, and at most half a unit above the order. */
  lemma FillLands(r: Row, taken: real)
    requires LedgerOk(r) && 0.0 < taken <= r.remaining
    ensures var filled := Round8(r.filled + taken);
            OnGrid(filled) && r.filled <= filled <= r.size + UNIT / 2.0
  {
    var total := r.filled + taken;
    Round8Facts(total);
    Round8KeepsGridBound(total, r.filled);
    if r.filled == 0.0 && r.remaining == r.size {
      Round8Facts(r.size);
      Round8Monotone(total, r.size);
    } else {
      Round8Facts(Max(r.size - r.filled, 0.0));
      GridSum(r.filled, r.remaining);
      Round8KeepsGridBound(total, r.filled + r.remaining);
    }
    hide Round8, OnGrid;
  }

  /** Every fill keeps the ledger, and does nothing at all to a complete order. */
  lemma FillKeepsLedger(r: Row, size: real, price: real, now: Time)
    requires LedgerOk(r)
    ensures var r' := Fill(r, size, price, now);
            && LedgerOk(r') && r'.size == r.size && r.filled <= r'.filled
            && (r.remaining == 0.0 ==> r' == r)
            && (r' != r ==> r'.status == if r'.remaining == 0.0 then Filled else PartiallyFilled)
  {
    var taken := TakenSize(r, size);
    if taken > 0.0 {
      FillLands(r, taken);
      Round8Facts(Max(r.size - Round8(r.filled + taken), 0.0));
    }
    hide Round8, OnGrid, NewAverage;
  }

  /** A child is filled in one piece: it is complete after its trigger, with its whole size rounded. */
  lemma FillWhole(r: Row, price: real, now: Time)
    requires r.filled == 0.0 && r.remaining == r.size > 0.0
    ensures var r' := Fill(r, r.size, price, now);
            && r'.status == Filled && r'.filled == Round8(r.size) && r'.remaining == 0.0
            && r'.average == Some(price)
  {
    Round8Facts(r.size);
    var left := Max(r.size - Round8(r.size), 0.0);
    Round8Facts(left);
    assert left <= UNIT / 2.0;
    assert Round8(left) <= UNIT;
  }

  lemma UntouchedLedger(r: Row)
    requires r.size > 0.0 && r.filled == 0.0 && r.remaining == r.size
    ensures LedgerOk(r)
  {}

  // ----- the primitive changes ------------------------------------------------------------------

  ghost predicate Keeps(b: Book, b': Book) {
    Inv(b') && Moves(b, b')
  }

  /** No child became filled. */
  ghost predicate NoNewExit(b: Book, b': Book) {
    forall c :: c in b'.rows && IsChild(b'.rows[c].kind) && b'.rows[c].status == Filled
      ==> c in b.rows && b.rows[c].status == Filled
  }

  /** No entry was added. */
  ghost predicate OldEntries(b: Book, b': Book) {
    forall e :: e in b'.rows && b'.rows[e].kind == Entry ==> e in b.rows
  }

  /** Keeps everything, fills no child and adds no entry: every operation but the trigger and the
      insertion of a new entry. */
  ghost predicate Quiet(b: Book, b': Book) {
    Inv(b') && Moves(b, b') && NoNewExit(b, b') && OldEntries(b, b')
  }

  lemma QuietTransitive(a: Book, b: Book, c: Book)
    requires Quiet(a, b) && Quiet(b, c)
    ensures Quiet(a, c)
  {
    hide Inv;
    MovesTransitive(a, b, c);
  }

  /** A change of rows in place keeps the links, whatever rows it touches. */
  lemma UpdateKeeps(b: Book, b': Book)
    requires Inv(b) && b'.rows.Keys == b.rows.Keys && b'.keys == b.keys && b'.next == b.next
    requires forall id :: id in b.rows ==>
               && RowMoves(b.rows[id], b'.rows[id]) && b'.rows[id].bracketIds == b.rows[id].bracketIds
               && ShapeOk(b'.rows[id])
    requires Exclusive(b')
    ensures Keeps(b, b')
  {
    hide ShapeOk, LedgerOk, LinksOk, Groups, Exclusive;
    forall id | id in b'.rows ensures LinksOk(b', b'.rows[id]) {
      UpdatedLinks(b, b', id);
    }
    UpdatedGroups(b, b');
  }

  lemma UpdatedLinks(b: Book, b': Book, id: OrderId)
    requires b'.rows.Keys == b.rows.Keys && b'.next == b.next && id in b.rows && LinksOk(b, b.rows[id])
    requires forall k :: k in b.rows ==>
               SameOrder(b.rows[k], b'.rows[k]) && b'.rows[k].bracketIds == b.rows[k].bracketIds
    ensures LinksOk(b', b'.rows[id])
  {}

  lemma UpdatedGroups(b: Book, b': Book)
    requires Groups(b) && b'.rows.Keys == b.rows.Keys
    requires forall k :: k in b.rows ==> SameOrder(b.rows[k], b'.rows[k])
    ensures Groups(b')
  {
    forall i, j | i in b'.rows && j in b'.rows && b'.rows[i].oco.Some? && b'.rows[i].oco == b'.rows[j].oco
      ensures b'.rows[i].parent == b'.rows[j].parent
    {
      assert SameOrder(b.rows[i], b'.rows[i]) && SameOrder(b.rows[j], b'.rows[j]);
    }
  }

  /** Coverage survives a change in place that resizes no child, since entries only fill up. */
  lemma UpdateCovers(b: Book, b': Book)
    requires Covered(b) && b'.rows.Keys == b.rows.Keys
    requires forall id :: id in b.rows ==>
               SameOrder(b.rows[id], b'.rows[id]) && b.rows[id].filled <= b'.rows[id].filled
    requires forall id :: id in b.rows && IsChild(b.rows[id].kind) ==> b'.rows[id].size == b.rows[id].size
    ensures Covered(b')
  {
    forall c | c in b'.rows && IsChild(b'.rows[c].kind)
      ensures OnGrid(b'.rows[c].size) && b'.rows[c].parent.Some? && b'.rows[c].parent.value in b'.rows
              && b'.rows[c].size <= b'.rows[b'.rows[c].parent.value].filled
    {
      assert SameOrder(b.rows[c], b'.rows[c]) && b.rows[c].parent.value in b.rows;
    }
  }

  /** The same for one row, when exclusivity inside its group is not at stake. */
  lemma UpdateOneKeeps(b: Book, id: OrderId, r': Row)
    requires Inv(b) && id in b.rows
    requires RowMoves(b.rows[id], r') && r'.bracketIds == b.rows[id].bracketIds && ShapeOk(r')
    requires || (!IsChild(r'.kind) && r'.oco == None)
             || r'.status == b.rows[id].status || r'.status == Cancelled || r'.status == Expired
    ensures var b' := b.(rows := b.rows[id := r']);
            Quiet(b, b') && (Covered(b) && (IsChild(r'.kind) ==> r'.size == b.rows[id].size) ==> Covered(b'))
  {
    hide ShapeOk, OnGrid, LinksOk, KeysOk, Groups, Moves, Exclusive, Covered;
    var b' := b.(rows := b.rows[id := r']);
    forall k | k in b.rows
      ensures RowMoves(b.rows[k], b'.rows[k]) && b'.rows[k].bracketIds == b.rows[k].bracketIds && ShapeOk(b'.rows[k])
    {}
    UpdateOneExclusive(b, id, r');
    UpdateKeeps(b, b');
    hide Inv;
    if Covered(b) && (IsChild(r'.kind) ==> r'.size == b.rows[id].size) {
      UpdateCovers(b, b');
    }
  }

  lemma UpdateOneExclusive(b: Book, id: OrderId, r': Row)
    requires Exclusive(b) && id in b.rows && r'.oco == b.rows[id].oco
    requires r'.oco == None || r'.status == b.rows[id].status || r'.status == Cancelled || r'.status == Expired
    ensures Exclusive(b.(rows := b.rows[id := r']))
  {}

  /** A change of an entry or exit order that leaves its links alone. */
  lemma TouchKeeps(b: Book, id: OrderId, r': Row)
    requires Inv(b) && id in b.rows && !IsChild(b.rows[id].kind)
    requires RowMoves(b.rows[id], r') && ShapeOk(r') && r'.bracketIds == b.rows[id].bracketIds
    ensures var b' := b.(rows := b.rows[id := r']);
            Quiet(b, b') && (Covered(b) ==> Covered(b'))
  {
    NoGroup(b, id);
    hide ShapeOk, Inv, Covered;
    UpdateOneKeeps(b, id, r');
  }

  /** Entries and exits are in no group. */
  lemma NoGroup(b: Book, id: OrderId)
    requires Inv(b) && id in b.rows && !IsChild(b.rows[id].kind)
    ensures b.rows[id].oco == None
  {
    hide LedgerOk;
    assert ShapeOk(b.rows[id]);
  }

  /** An armed child that ends without a fill. */
  lemma EndChildKeeps(b: Book, id: OrderId, s: Status)
    requires Inv(b) && id in b.rows && IsChild(b.rows[id].kind) && b.rows[id].status == Armed
    requires s == Cancelled || s == Expired
    ensures Quiet(b, SetStatus(b, id, s)) && (Covered(b) ==> Covered(SetStatus(b, id, s)))
  {
    EndedShape(b.rows[id], s);
    hide ShapeOk, Inv, Covered;
    UpdateOneKeeps(b, id, b.rows[id].(status := s));
  }

  lemma EndedShape(r: Row, s: Status)
    requires ShapeOk(r) && IsChild(r.kind) && r.status == Armed && (s == Cancelled || s == Expired)
    ensures ShapeOk(r.(status := s)) && RowMoves(r, r.(status := s))
  {
    hide Round8, OnGrid;
  }

  lemma SyncOneKeeps(b: Book, id: OrderId, size: real)
    requires Inv(b) && id in b.rows && IsChild(b.rows[id].kind) && size > 0.0
    ensures Quiet(b, SyncOne(b, id, size))
    ensures Covered(b) && OnGrid(size) && size <= b.rows[b.rows[id].parent.value].filled
            ==> Covered(SyncOne(b, id, size))
  {
    ChildFacts(b, id);
    ShapeAt(b, id);
    hide Inv, ShapeOk, Moves, NoNewExit, OldEntries, OnGrid;
    QuietReflexive(b);
    if b.rows[id].status == Armed {
      ResizedShape(b.rows[id], size);
      ResizeKeeps(b, id, b.rows[id].(size := size, remaining := size));
    }
  }

  lemma ShapeAt(b: Book, id: OrderId)
    requires Inv(b) && id in b.rows
    ensures ShapeOk(b.rows[id])
  {}

  lemma ResizeKeeps(b: Book, id: OrderId, r': Row)
    requires Inv(b) && id in b.rows && RowMoves(b.rows[id], r') && r'.bracketIds == b.rows[id].bracketIds && ShapeOk(r')
    requires r'.status == b.rows[id].status && r'.parent.Some? && r'.parent.value in b.rows && r'.parent.value != id
    requires r'.filled == b.rows[id].filled
    ensures var b' := b.(rows := b.rows[id := r']);
            && Quiet(b, b')
            && (Covered(b) && OnGrid(r'.size) && r'.size <= b.rows[r'.parent.value].filled ==> Covered(b'))
  {
    UpdateOneKeeps(b, id, r');
    hide Inv, ShapeOk, OnGrid, Quiet;
    assert SameOrder(b.rows[id], r');
    hide RowMoves;
    if Covered(b) && OnGrid(r'.size) && r'.size <= b.rows[r'.parent.value].filled {
      ResizeCovers(b, id, r');
    }
    hide Covered;
  }

  lemma ResizeCovers(b: Book, id: OrderId, r': Row)
    requires Covered(b) && id in b.rows && SameOrder(b.rows[id], r') && r'.filled == b.rows[id].filled
    requires r'.parent.Some? && r'.parent.value in b.rows && r'.parent.value != id
    requires OnGrid(r'.size) && r'.size <= b.rows[r'.parent.value].filled
    ensures Covered(b.(rows := b.rows[id := r']))
  {
    hide OnGrid;
  }

  lemma ResizedShape(r: Row, size: real)
    requires ShapeOk(r) && IsChild(r.kind) && r.status == Armed && size > 0.0
    ensures ShapeOk(r.(size := size, remaining := size)) && RowMoves(r, r.(size := size, remaining := size))
  {
    UntouchedLedger(r.(size := size, remaining := size));
    hide Round8;
  }

  lemma {:induction false} SyncChildrenKeeps(b: Book, ids: seq<OrderId>, size: real, p: OrderId)
    requires Inv(b) && size > 0.0 && p in b.rows
    requires forall i :: i in ids ==> i in b.rows && IsChild(b.rows[i].kind) && b.rows[i].parent == Some(p)
    ensures Quiet(b, SyncChildren(b, ids, size))
    ensures Covered(b) && OnGrid(size) && size <= b.rows[p].filled ==> Covered(SyncChildren(b, ids, size))
  {
    hide OnGrid, Inv;
    if ids == [] {
      QuietReflexive(b);
    } else {
      var init, last := ids[..|ids| - 1], ids[|ids| - 1];
      SyncChildrenKeeps(b, init, size, p);
      var mid := SyncChildren(b, init, size);
      assert RowMoves(b.rows[last], mid.rows[last]) && RowMoves(b.rows[p], mid.rows[p]);
      SyncOneKeeps(mid, last, size);
      QuietTransitive(b, mid, SyncChildren(b, ids, size));
    }
  }

  lemma QuietReflexive(b: Book)
    requires Inv(b)
    ensures Quiet(b, b)
  {
    hide Inv;
  }

  /** A new order that belongs to no bracket. */
  lemma InsertKeeps(b: Book, r: Row)
    requires Inv(b) && r.id == b.next && !IsChild(r.kind) && ShapeOk(r) && r.bracketIds == []
    ensures var b' := Insert(b.(next := b.next + 1), r);
            && Keeps(b, b') && NoNewExit(b, b') && (r.kind != Entry ==> Quiet(b, b'))
            && (Covered(b) ==> Covered(b'))
  {
    hide ShapeOk, OnGrid, Covered, Moves, NoNewExit, OldEntries, KeysOk, LinksOk, Groups, Exclusive;
    var b' := Insert(b.(next := b.next + 1), r);
    assert r.id !in b.rows;
    UngroupedShape(r);
    forall id | id in b'.rows ensures LinksOk(b', b'.rows[id]) {
      InsertLinks(b, r, id);
    }
    FreshKeys(b, [r.id], b');
    InsertMoves(b, r);
    InsertGroups(b, r);
  }

  lemma InsertLinks(b: Book, r: Row, id: OrderId)
    requires r.id !in b.rows && !IsChild(r.kind) && r.bracketIds == []
    requires id == r.id || (id in b.rows && LinksOk(b, b.rows[id]))
    ensures var b' := Insert(b.(next := b.next + 1), r); LinksOk(b', b'.rows[id])
  {}

  lemma InsertGroups(b: Book, r: Row)
    requires Groups(b) && Exclusive(b) && r.oco == None && r.id !in b.rows
    ensures var b' := Insert(b.(next := b.next + 1), r);
            Groups(b') && Exclusive(b')
  {}

  lemma UngroupedShape(r: Row)
    requires ShapeOk(r) && !IsChild(r.kind)
    ensures r.oco == None && r.parent == None
  {
    hide LedgerOk;
  }

  lemma InsertMoves(b: Book, r: Row)
    requires r.id !in b.rows && !IsChild(r.kind)
    ensures var b' := Insert(b.(next := b.next + 1), r);
            Moves(b, b') && NoNewExit(b, b') && (r.kind != Entry ==> OldEntries(b, b')) && (Covered(b) ==> Covered(b'))
  {
    hide OnGrid;
  }

  /** Appending fresh, distinct keys for the new rows keeps the key list in step. */
  lemma FreshKeys(b: Book, ids: seq<OrderId>, b': Book)
    requires KeysOk(b) && b'.keys == b.keys + ids
    requires forall id :: id in b'.rows <==> id in b.rows || id in ids
    requires forall i :: i in ids ==> i !in b.rows
    requires forall i, j :: 0 <= i < j < |ids| ==> ids[i] != ids[j]
    ensures KeysOk(b')
  {
    forall i, j | 0 <= i < j < |b'.keys| ensures b'.keys[i] != b'.keys[j] {
      if i < |b.keys| <= j {
        assert b.keys[i] in b.rows && ids[j - |b.keys|] in ids;
      }
    }
  }

  // ----- brackets -------------------------------------------------------------------------------

  lemma ChildShape(p: Row, kind: Kind, id: OrderId, group: nat, level: real, spec: BracketSpec, now: Time)
    requires ShapeOk(p) && IsChild(kind)
    ensures ShapeOk(Child(p, kind, id, group, level, spec, now))
    ensures p.filled > 0.0 ==> OnGrid(Child(p, kind, id, group, level, spec, now).size)
  {
    UntouchedLedger(Child(p, kind, id, group, level, spec, now));
    hide Round8;
  }

  lemma BracketedShape(p: Row, spec: BracketSpec, t: OrderId, s: OrderId)
    requires ShapeOk(p) && p.kind == Entry && p.bracketIds == [] && t != s
    ensures var p' := WithLevels(p, spec).(bracketIds := [t, s], bracketState := BracketArmed);
            ShapeOk(p') && RowMoves(p, p')
  {
    hide Round8, OnGrid;
  }

  lemma KnownBelowNext(b: Book, id: OrderId)
    requires Inv(b) && id in b.rows
    ensures id < b.next
  {}

  lemma CreateChildrenKeeps(b: Book, p: Row, spec: BracketSpec, now: Time)
    requires Inv(b) && p.id in b.rows && b.rows[p.id] == p && p.kind == Entry && p.bracketIds == []
    ensures var b' := CreateChildren(b, p, spec, now).0;
            Quiet(b, b') && (Covered(b) && p.filled > 0.0 ==> Covered(b'))
  {
    hide Inv, ShapeOk, RowMoves, NewPair, OnGrid, Covered, Quiet, CreateChildren;
    ShapeAt(b, p.id);
    KnownBelowNext(b, p.id);
    CreateChildrenShapes(b, p, spec, now);
    CreateChildrenPair(b, p, spec, now);
    NewPairKeeps(b, p, CreateChildren(b, p, spec, now).0);
  }

  /** The rows of the two children and of their parent. */
  lemma CreateChildrenShapes(b: Book, p: Row, spec: BracketSpec, now: Time)
    requires ShapeOk(p) && p.id in b.rows && b.rows[p.id] == p && p.kind == Entry && p.bracketIds == [] && p.id < b.next
    ensures var b' := CreateChildren(b, p, spec, now).0;
            && b.next + 1 in b'.rows && b.next + 2 in b'.rows && p.id in b'.rows
            && ShapeOk(b'.rows[b.next + 1]) && ShapeOk(b'.rows[b.next + 2]) && ShapeOk(b'.rows[p.id])
            && RowMoves(p, b'.rows[p.id]) && (p.filled > 0.0 ==> OnGrid(b'.rows[b.next + 1].size))
            && b'.keys == b.keys + [b.next + 1, b.next + 2]
  {
    var t, s := b.next + 1, b.next + 2;
    hide ShapeOk, RowMoves, OnGrid, TakeProfitLevel, StopLossLevel;
    ChildShape(p, TakeProfit, t, b.next, TakeProfitLevel(ActivePrice(p), spec), spec, now);
    ChildShape(p, StopLoss, s, b.next, StopLossLevel(ActivePrice(p), spec), spec, now);
    BracketedShape(p, spec, t, s);
  }

  lemma CreateChildrenPair(b: Book, p: Row, spec: BracketSpec, now: Time)
    requires Inv(b) && p.id in b.rows && b.rows[p.id] == p && p.kind == Entry && p.bracketIds == []
    ensures NewPair(b, p, CreateChildren(b, p, spec, now).0)
  {
    hide ShapeOk, KeysOk, LinksOk, Groups, Exclusive, TakeProfitLevel, StopLossLevel;
  }

  lemma NewPairKeeps(b: Book, p: Row, b': Book)
    requires NewPair(b, p, b')
    requires p.filled > 0.0 ==> OnGrid(b'.rows[b.next + 1].size)
    requires RowMoves(p, b'.rows[p.id]) && ShapeOk(b'.rows[p.id])
    requires ShapeOk(b'.rows[b.next + 1]) && ShapeOk(b'.rows[b.next + 2])
    requires Inv(b) && p.kind == Entry && p.bracketIds == [] && b'.keys == b.keys + [b.next + 1, b.next + 2]
    ensures Quiet(b, b') && (Covered(b) && p.filled > 0.0 ==> Covered(b'))
  {
    hide ShapeOk, OnGrid, KeysOk, LinksOk, Groups, Exclusive, Covered, Moves, NoNewExit, OldEntries;
    hide NewPair, RowMoves, SameOrder;
    Ungrouped(b);
    NewPairIds(b, p, b');
    NewPairRows(b, p, b');
    NewPairLinks(b, p, b');
    NewPairGroups(b, p, b');
    FreshKeys(b, [b.next + 1, b.next + 2], b');
    if Covered(b) && p.filled > 0.0 {
      NewPairCovered(b, p, b');
    }
  }

  lemma NewPairIds(b: Book, p: Row, b': Book)
    requires NewPair(b, p, b')
    ensures forall id :: id in b'.rows <==> id in b.rows || id in [b.next + 1, b.next + 2]
    ensures b.next + 1 !in b.rows && b.next + 2 !in b.rows && p.id in b.rows && b.rows[p.id] == p
    ensures b'.rows[b.next + 1].size == ActiveSize(p)
  {}

  lemma NewPairRows(b: Book, p: Row, b': Book)
    requires NewPair(b, p, b') && p.kind == Entry && RowMoves(p, b'.rows[p.id]) && ShapeOk(b'.rows[p.id])
    requires ShapeOk(b'.rows[b.next + 1]) && ShapeOk(b'.rows[b.next + 2])
    requires forall id :: id in b.rows ==> b.rows[id].id == id && id < b.next && ShapeOk(b.rows[id])
    ensures Moves(b, b') && NoNewExit(b, b') && OldEntries(b, b')
    ensures forall id :: id in b'.rows ==> b'.rows[id].id == id && id < b'.next && ShapeOk(b'.rows[id])
  {
    hide ShapeOk;
  }

  lemma Ungrouped(b: Book)
    requires Inv(b)
    ensures forall id :: id in b.rows && !IsChild(b.rows[id].kind) ==> b.rows[id].oco == None
  {
    hide Inv;
    forall id | id in b.rows && !IsChild(b.rows[id].kind) ensures b.rows[id].oco == None {
      NoGroup(b, id);
    }
  }

  /** `b'` is `b` with two fresh children of `p` in a fresh group. */
  ghost predicate NewPair(b: Book, p: Row, b': Book) {
    var g, t, s := b.next, b.next + 1, b.next + 2;
    && p.id in b.rows && b.rows[p.id] == p && t !in b.rows && s !in b.rows
    && b'.rows.Keys == b.rows.Keys + {t, s} && b'.next == b.next + 3
    && (forall k :: k in b.rows && k != p.id ==> b'.rows[k] == b.rows[k])
    && SameOrder(p, b'.rows[p.id]) && b'.rows[p.id].filled == p.filled && b'.rows[p.id].bracketIds == [t, s]
    && b'.rows[t].id == t && b'.rows[s].id == s
    && b'.rows[t].kind == TakeProfit && b'.rows[s].kind == StopLoss
    && b'.rows[t].parent == b'.rows[s].parent == Some(p.id) && b'.rows[t].oco == b'.rows[s].oco == Some(g)
    && b'.rows[t].status == b'.rows[s].status == Armed && b'.rows[t].bracketIds == b'.rows[s].bracketIds == []
    && b'.rows[t].size == b'.rows[s].size == ActiveSize(p)
  }

  lemma NewPairLinks(b: Book, p: Row, b': Book)
    requires NewPair(b, p, b') && p.kind == Entry && p.bracketIds == [] && p.id < b.next
    requires forall id :: id in b.rows ==> LinksOk(b, b.rows[id])
    ensures forall id :: id in b'.rows ==> LinksOk(b', b'.rows[id])
  {
    hide LinksOk, SameOrder;
    forall id | id in b'.rows ensures LinksOk(b', b'.rows[id]) {
      if id in b.rows && id != p.id {
        OldLinks(b, p, b', id);
      } else {
        PairLinks(b, p, b', id);
      }
    }
  }

  lemma OldLinks(b: Book, p: Row, b': Book, id: OrderId)
    requires NewPair(b, p, b') && p.kind == Entry && p.bracketIds == [] && p.id < b.next
    requires id in b.rows && id != p.id && LinksOk(b, b.rows[id])
    ensures LinksOk(b', b'.rows[id])
  {}

  lemma PairLinks(b: Book, p: Row, b': Book, id: OrderId)
    requires NewPair(b, p, b') && p.kind == Entry && p.bracketIds == [] && p.id < b.next
    requires id in [p.id, b.next + 1, b.next + 2]
    ensures id in b'.rows && LinksOk(b', b'.rows[id])
  {}

  lemma NewPairGroups(b: Book, p: Row, b': Book)
    requires NewPair(b, p, b') && p.oco == None && Groups(b) && Exclusive(b)
    requires forall id :: id in b.rows && IsChild(b.rows[id].kind) ==> LinksOk(b, b.rows[id])
    requires forall id :: id in b.rows && !IsChild(b.rows[id].kind) ==> b.rows[id].oco == None
    ensures Groups(b') && Exclusive(b')
  {
    forall k | k in b'.rows ensures PairMember(b, p, b', k) {
      NewPairMember(b, p, b', k);
    }
    hide NewPair, LinksOk;
    forall i, j | i in b'.rows && j in b'.rows && b'.rows[i].oco.Some? && b'.rows[i].oco == b'.rows[j].oco
      ensures b'.rows[i].parent == b'.rows[j].parent
    {
      assert PairMember(b, p, b', i) && PairMember(b, p, b', j);
    }
    forall i, j | i in b'.rows && j in b'.rows && i != j
      && b'.rows[i].oco.Some? && b'.rows[i].oco == b'.rows[j].oco && b'.rows[i].status == Filled
      ensures b'.rows[j].status == Cancelled || b'.rows[j].status == Expired
    {
      assert PairMember(b, p, b', i) && PairMember(b, p, b', j);
    }
  }

  /** Order `k` is either one of the new pair, alone in the fresh group, or as it was outside that group. */
  ghost predicate PairMember(b: Book, p: Row, b': Book, k: OrderId) {
    k in b'.rows &&
    if k in b.rows then
      && b'.rows[k].oco != Some(b.next) && b'.rows[k].oco == b.rows[k].oco && b'.rows[k].parent == b.rows[k].parent
      && (b.rows[k].oco.Some? ==> b'.rows[k] == b.rows[k])
    else b'.rows[k].oco == Some(b.next) && b'.rows[k].parent == Some(p.id) && b'.rows[k].status == Armed
  }

  lemma NewPairMember(b: Book, p: Row, b': Book, k: OrderId)
    requires NewPair(b, p, b') && p.oco == None && k in b'.rows
    requires k in b.rows && IsChild(b.rows[k].kind) ==> LinksOk(b, b.rows[k])
    requires k in b.rows && !IsChild(b.rows[k].kind) ==> b.rows[k].oco == None
    ensures PairMember(b, p, b', k)
  {
    if k !in b.rows {
      assert k == b.next + 1 || k == b.next + 2;
    }
  }

  lemma NewPairCovered(b: Book, p: Row, b': Book)
    requires NewPair(b, p, b') && p.kind == Entry && Covered(b) && OnGrid(ActiveSize(p)) && p.filled > 0.0
    ensures Covered(b')
  {
    hide OnGrid;
  }

  lemma LeveledShape(p: Row, spec: BracketSpec)
    requires ShapeOk(p) && p.kind == Entry
    ensures var p' := WithLevels(p, spec).(bracketState := BracketArmed); ShapeOk(p') && RowMoves(p, p')
  {
    hide Round8, OnGrid;
  }

  lemma PositiveSize(r: Row)
    requires LedgerOk(r)
    ensures ActiveSize(r) > 0.0 && (r.filled > 0.0 ==> ActiveSize(r) == r.filled && OnGrid(ActiveSize(r)))
  {}

  lemma BracketChildren(b: Book, p: OrderId)
    requires p in b.rows && LinksOk(b, b.rows[p]) && b.rows[p].id == p && b.rows[p].kind == Entry
    ensures forall i :: i in b.rows[p].bracketIds ==>
              i in b.rows && IsChild(b.rows[i].kind) && b.rows[i].parent == Some(p)
  {
    var ids := b.rows[p].bracketIds;
    forall i | i in ids ensures i in b.rows && IsChild(b.rows[i].kind) && b.rows[i].parent == Some(p) {
      assert i == ids[0] || i == ids[1];
    }
  }

  /** Arming, whether it creates the children or resizes them. It covers once the entry has a fill. */
  lemma ArmKeeps(b: Book, id: OrderId, spec: BracketSpec, now: Time)
    requires Inv(b) && id in b.rows
    ensures var b' := Arm(b, id, spec, now).0;
            Quiet(b, b') && (Covered(b) && b.rows[id].filled > 0.0 ==> Covered(b'))
  {
    var p := b.rows[id];
    if p.kind != Entry {
      QuietReflexive(b);
    } else if p.bracketIds == [] {
      CreateChildrenKeeps(b, p, spec, now);
    } else {
      var p' := WithLevels(p, spec).(bracketState := BracketArmed);
      LeveledShape(p, spec);
      RefreshKeeps(b, p, p');
    }
  }

  lemma RefreshKeeps(b: Book, p: Row, p': Row)
    requires Inv(b) && p.id in b.rows && b.rows[p.id] == p && p.kind == Entry && p'.bracketIds == p.bracketIds
    requires ShapeOk(p') && RowMoves(p, p')
    ensures var b' := SyncChildren(Put(b, p'), p.bracketIds, ActiveSize(p));
            Quiet(b, b') && (Covered(b) && p.filled > 0.0 ==> Covered(b'))
  {
    PositiveSize(p);
    hide ShapeOk, Covered, OnGrid, Groups, Exclusive, KeysOk;
    TouchKeeps(b, p.id, p');
    var b1 := Put(b, p');
    BracketChildren(b1, p.id);
    SyncChildrenKeeps(b1, p.bracketIds, ActiveSize(p), p.id);
    QuietTransitive(b, b1, SyncChildren(b1, p.bracketIds, ActiveSize(p)));
  }

  // ----- triggers and expiry --------------------------------------------------------------------

  lemma TriggeredShape(r: Row, price: real, now: Time)
    requires ShapeOk(r) && IsChild(r.kind) && r.status == Armed
    ensures var r' := Fill(r, if r.remaining != 0.0 then r.remaining else r.size, price, now);
            && r'.status == Filled && r'.average == Some(price)
            && ShapeOk(r') && RowMoves(r, r') && r'.bracketIds == r.bracketIds && r'.size == r.size
  {
    FillWhole(r, price, now);
    FillKeepsLedger(r, r.size, price, now);
    hide LedgerOk, Round8, OnGrid;
  }

  lemma ParentShape(r: Row, s: BracketState)
    requires ShapeOk(r)
    ensures ShapeOk(r.(bracketState := s)) && (r.kind == Entry ==> RowMoves(r, r.(bracketState := s)))
  {
    hide Round8, OnGrid;
  }

  /** The heart of OCO: a triggered child fills whole and no other member of its group stays armed. */
  lemma TriggerKeeps(b: Book, id: OrderId, price: real, now: Time)
    requires Inv(b) && id in b.rows && IsChild(b.rows[id].kind) && b.rows[id].status == Armed
    ensures var b' := TriggerChild(b, id, price, now).0;
            && Keeps(b, b') && OldEntries(b, b') && (Covered(b) ==> Covered(b'))
            && b'.rows[id].status == Filled && b'.rows[id].average == Some(price)
            && (forall k :: k in b'.rows && k != id && b'.rows[k].oco == b.rows[id].oco ==> b'.rows[k].status != Armed)
            && (forall k :: k in b'.rows && k != id && b'.rows[k].status == Filled ==>
                  k in b.rows && b.rows[k].status == Filled)
  {
    var r := b.rows[id];
    TriggeredShape(r, price, now);
    ChildFacts(b, id);
    var r' := Fill(r, if r.remaining != 0.0 then r.remaining else r.size, price, now);
    TriggerResult(b, id, r', price, now);
    var b' := TriggerChild(b, id, price, now).0;
    GroupedStatus(b);
    hide ShapeOk, LinksOk, Groups, Exclusive, KeysOk, OnGrid, Covered, Fill, TriggerChild;
    forall k | k in b.rows ensures RowEffect(b.rows[k], b'.rows[k], r, r') {
      TriggerRow(b.rows[k], r, r');
    }
    TriggerExclusive(b, r, r', b');
    UpdateKeeps(b, b');
    if Covered(b) {
      UpdateCovers(b, b');
    }
  }

  lemma ChildFacts(b: Book, id: OrderId)
    requires Inv(b) && id in b.rows && IsChild(b.rows[id].kind)
    ensures var r := b.rows[id];
            r.id == id && r.oco.Some? && r.parent.Some? && r.parent.value in b.rows && r.parent.value != id
            && b.rows[r.parent.value].kind == Entry
  {
    hide ShapeOk;
    assert LinksOk(b, b.rows[id]);
  }

  /** Only children are in groups, and a child is armed or final. */
  lemma GroupedStatus(b: Book)
    requires Inv(b)
    ensures forall k :: k in b.rows && b.rows[k].oco.Some? ==> b.rows[k].status == Armed || Final(b.rows[k].status)
  {
    hide LedgerOk;
    forall k | k in b.rows && b.rows[k].oco.Some? ensures b.rows[k].status == Armed || Final(b.rows[k].status) {
      assert ShapeOk(b.rows[k]);
    }
  }

  /** What the trigger of `r`, filled as `r'`, makes of row `k`. */
  ghost function AfterTrigger(k: Row, r: Row, r': Row): Row {
    if k.id == r.id then r'
    else
      var k1 := if r.parent == Some(k.id) then k.(bracketState := Closed) else k;
      if IsSibling(k1, r') then k1.(status := Cancelled) else k1
  }

  ghost predicate RowEffect(k: Row, k': Row, r: Row, r': Row) {
    && RowMoves(k, k') && k'.bracketIds == k.bracketIds && k'.size == k.size && ShapeOk(k')
    && (k.id == r.id ==> k' == r')
    && (k.id != r.id ==> k'.status == if IsSibling(k, r') then Cancelled else k.status)
  }

  lemma TriggerRow(k: Row, r: Row, r': Row)
    requires ShapeOk(k) && ShapeOk(r') && (k.id == r.id ==> k == r)
    requires RowMoves(r, r') && r'.bracketIds == r.bracketIds && r'.size == r.size
    requires r.parent == Some(k.id) ==> k.kind == Entry
    ensures RowEffect(k, AfterTrigger(k, r, r'), r, r')
  {
    hide LedgerOk, Round8;
    if IsSibling(k, r') {
      if IsChild(k.kind) {
        EndedShape(k, Cancelled);
      } else {
        UngroupedShape(k);
      }
    }
    ParentShape(k, Closed);
    if k.kind == Entry {
      UngroupedShape(k);
    }
  }

  lemma TriggerResult(b: Book, id: OrderId, r': Row, price: real, now: Time)
    requires Known(b, id) && b.rows[id].oco.Some? && b.rows[id].parent.Some? && b.rows[id].parent.value in b.rows
    requires b.rows[id].parent.value != id && forall k :: k in b.rows ==> b.rows[k].id == k
    requires var r := b.rows[id];
             r' == Fill(r, if r.remaining != 0.0 then r.remaining else r.size, price, now)
    ensures var b' := TriggerChild(b, id, price, now).0;
            && b'.rows.Keys == b.rows.Keys && b'.keys == b.keys && b'.next == b.next
            && forall k :: k in b.rows ==> b'.rows[k] == AfterTrigger(b.rows[k], b.rows[id], r')
  {
    var r := b.rows[id];
    assert r'.id == id && r'.oco == r.oco;
    hide Fill;
    var b1 := ParentState(Put(b, r'), r.parent, Closed);
    var b' := TriggerChild(b, id, price, now).0;
    assert b' == CancelSiblings(b1, r');
  }

  lemma TriggerExclusive(b: Book, r: Row, r': Row, b': Book)
    requires Exclusive(b) && r.id in b.rows && b.rows[r.id] == r && r.status == Armed && r.oco.Some?
    requires forall k :: k in b.rows ==> b.rows[k].id == k
    requires forall k :: k in b.rows && b.rows[k].oco.Some? ==> b.rows[k].status == Armed || Final(b.rows[k].status)
    requires b'.rows.Keys == b.rows.Keys && b'.rows[r.id] == r' && SameOrder(r, r') && r'.status == Filled
    requires forall k :: k in b.rows ==>
               && b'.rows[k].oco == b.rows[k].oco
               && (k != r.id ==> b'.rows[k].status == if IsSibling(b.rows[k], r') then Cancelled else b.rows[k].status)
    ensures Exclusive(b')
    ensures forall k :: k in b'.rows && k != r.id && b'.rows[k].oco == r.oco ==> b'.rows[k].status != Armed
  {
    forall i, j | i in b'.rows && j in b'.rows && i != j
      && b'.rows[i].oco.Some? && b'.rows[i].oco == b'.rows[j].oco && b'.rows[i].status == Filled
      ensures b'.rows[j].status == Cancelled || b'.rows[j].status == Expired
    {
      if i == r.id {
        assert IsSibling(b.rows[j], r') || b.rows[j].status != Armed;
        assert b.rows[j].status == Filled ==> r.status != Armed;
      } else if j != r.id {
        assert b.rows[i].status == Filled;
      }
    }
  }

  lemma ExpireKeeps(b: Book, id: OrderId)
    requires Inv(b) && id in b.rows && IsChild(b.rows[id].kind) && b.rows[id].status == Armed
    ensures var b' := ExpireChild(b, id).0; Quiet(b, b') && (Covered(b) ==> Covered(b'))
  {
    EndChildKeeps(b, id, Expired);
    var b1 := SetStatus(b, id, Expired);
    assert LinksOk(b1, b1.rows[id]);
    var p := b1.rows[id].parent.value;
    ParentShape(b1.rows[p], BracketExpired);
    hide Inv, ShapeOk, Covered;
    TouchKeeps(b1, p, b1.rows[p].(bracketState := BracketExpired));
    QuietTransitive(b, b1, ExpireChild(b, id).0);
  }

  // ----- entries --------------------------------------------------------------------------------

  lemma EntryShape(r: Row, s: Status, t: BracketState)
    requires ShapeOk(r) && !IsChild(r.kind) && s != Armed
    ensures var r' := r.(status := s, bracketState := t); ShapeOk(r') && RowMoves(r, r')
  {
    hide Round8, OnGrid;
  }

  lemma RestateKeeps(b: Book, id: OrderId, s: Status, t: BracketState)
    requires Inv(b) && id in b.rows && !IsChild(b.rows[id].kind) && s != Armed
    ensures var b' := b.(rows := b.rows[id := b.rows[id].(status := s, bracketState := t)]);
            Quiet(b, b') && (Covered(b) ==> Covered(b'))
  {
    EntryShape(b.rows[id], s, t);
    hide ShapeOk, LinksOk, Groups, Exclusive, KeysOk, Covered, Moves;
    TouchKeeps(b, id, b.rows[id].(status := s, bracketState := t));
  }

  lemma NotArmed(b: Book, id: OrderId)
    requires Inv(b) && id in b.rows && !IsChild(b.rows[id].kind)
    ensures b.rows[id].status != Armed && b.rows[id].id == id && ShapeOk(b.rows[id])
  {
    hide LedgerOk;
    assert ShapeOk(b.rows[id]);
  }

  lemma FilledShape(r: Row, size: real, price: real, now: Time)
    requires ShapeOk(r) && !IsChild(r.kind)
    ensures var r' := Fill(r, size, price, now); ShapeOk(r') && RowMoves(r, r') && r'.bracketIds == r.bracketIds
  {
    FillKeepsLedger(r, size, price, now);
    hide LedgerOk, Round8;
  }

  lemma FillKeeps(b: Book, id: OrderId, size: real, price: real, now: Time)
    requires Inv(b) && id in b.rows && !IsChild(b.rows[id].kind)
    ensures var b' := Put(b, Fill(b.rows[id], size, price, now));
            && Quiet(b, b') && (Covered(b) ==> Covered(b')) && id in b'.rows
            && b'.rows[id] == Fill(b.rows[id], size, price, now)
  {
    NotArmed(b, id);
    FilledShape(b.rows[id], size, price, now);
    hide ShapeOk, Inv, Covered, Moves;
    TouchKeeps(b, id, Fill(b.rows[id], size, price, now));
  }

  lemma Round8Positive(x: real)
    requires x > UNIT / 2.0
    ensures Round8(x) >= UNIT
  {
    assert x * 100000000.0 > 0.5;
    RoundNear(x * 100000000.0);
    assert RoundHalfEven(x * 100000000.0) >= 1;
  }

  /** The one configuration family in which a partial fill of a minimal order rounds to nothing. */
  predicate DustRatio(cfg: Config) {
    cfg.allowPartial && 0.0 < cfg.partialRatio <= UNIT
  }

  /** Outside that family, a paper fill either does nothing or leaves a positive filled size. */
  lemma PaperFillPositive(cfg: Config, r: Row, price: real, now: Time)
    requires LedgerOk(r) && r.size >= 0.5 && !DustRatio(cfg)
    ensures var r' := Fill(r, PaperFillSize(cfg, r), price, now); r' == r || r'.filled > 0.0
  {
    hide Round8, OnGrid, TakenSize, PaperFillSize, NewAverage;
    var taken := TakenSize(r, PaperFillSize(cfg, r));
    if r.filled > 0.0 {
      FillKeepsLedger(r, PaperFillSize(cfg, r), price, now);
    } else if taken > 0.0 {
      FirstTakes(cfg, r);
      Round8Positive(r.filled + taken);
    }
    hide LedgerOk;
  }

  /** Outside the dust ratios the first fill of an order takes more than half a unit. */
  lemma FirstTakes(cfg: Config, r: Row)
    requires LedgerOk(r) && r.size >= 0.5 && !DustRatio(cfg) && r.filled <= 0.0
    ensures var taken := TakenSize(r, PaperFillSize(cfg, r)); taken > 0.0 ==> r.filled + taken > UNIT / 2.0
  {
    Round8Facts(Max(r.size - r.filled, 0.0));
    if cfg.allowPartial {
      PartialStep(r.size, cfg.partialRatio);
    }
    hide Round8, OnGrid;
  }

  lemma PartialStep(size: real, ratio: real)
    requires size >= 0.5
    ensures ratio > UNIT ==> size * ratio > UNIT / 2.0
    ensures ratio <= 0.0 ==> size * ratio <= 0.0
  {}

  lemma ThenArm(b: Book, b1: Book, id: OrderId, spec: BracketSpec, now: Time)
    requires Quiet(b, b1) && id in b.rows && id in b1.rows
    ensures var b' := Arm(b1, id, spec, now).0;
            && Quiet(b, b') && id in b'.rows && b'.rows[id].kind == b.rows[id].kind
            && (Covered(b1) && b1.rows[id].filled > 0.0 ==> Covered(b'))
  {
    hide Inv, Covered, Arm;
    ArmKeeps(b1, id, spec, now);
    QuietTransitive(b, b1, Arm(b1, id, spec, now).0);
  }

  lemma PaperEntryFillKeeps(cfg: Config, b: Book, id: OrderId, q: Quote, now: Time)
    requires Inv(b) && id in b.rows && b.rows[id].kind == Entry && Known(b, id)
    ensures var b' := PaperEntryFill(cfg, b, id, q, now).0;
            && Quiet(b, b') && b'.rows[id].kind == Entry
            && (Covered(b) && (!DustRatio(cfg) || !cfg.brackets || b.rows[id].remaining == 0.0) ==> Covered(b'))
  {
    hide ShapeOk, Inv, Covered, Moves, NoNewExit, OldEntries, Fill, LedgerOk, Round8, Arm;
    var r := b.rows[id];
    NotArmed(b, id);
    QuietReflexive(b);
    var price := ContractPrice(r.direction, OrElse(q.midpoint, r.price));
    var r' := Fill(r, PaperFillSize(cfg, r), price, now);
    FillKeeps(b, id, PaperFillSize(cfg, r), price, now);
    EntryLedger(r);
    if !DustRatio(cfg) {
      PaperFillPositive(cfg, r, price, now);
    }
    FillKeepsLedger(r, PaperFillSize(cfg, r), price, now);
    SameKind(b, Put(b, r'), id);
    if price <= r.price + cfg.tolerance && r'.status != r.status && cfg.brackets {
      ThenArm(b, Put(b, r'), id, DefaultSpec(cfg).value, now);
    }
  }

  lemma SameKind(b: Book, b': Book, id: OrderId)
    requires Moves(b, b') && id in b.rows
    ensures id in b'.rows && b'.rows[id].kind == b.rows[id].kind
  {}

  lemma EntryLedger(r: Row)
    requires ShapeOk(r) && r.kind == Entry
    ensures LedgerOk(r) && r.size >= 0.5
  {
    hide LedgerOk;
  }

  lemma RearmKeeps(cfg: Config, b: Book, id: OrderId, now: Time)
    requires Inv(b) && id in b.rows && Known(b, id)
    ensures var b' := Rearm(cfg, b, id, now).0; Quiet(b, b') && (Covered(b) ==> Covered(b'))
  {
    hide Inv, Covered;
    QuietReflexive(b);
    if cfg.brackets {
      ArmKeeps(b, id, DefaultSpec(cfg).value, now);
    }
  }

  lemma VisitLocalKeeps(cfg: Config, b: Book, id: OrderId, quotes: map<string, Quote>, now: Time)
    requires Inv(b) && Known(b, id) && b.rows[id].kind == Entry
    ensures var b' := VisitLocalEntry(cfg, b, id, quotes, now).0;
            && Quiet(b, b')
            && (Covered(b)
                && (!DustRatio(cfg) || !cfg.brackets || (b.rows[id].isPaper ==> b.rows[id].remaining == 0.0))
                ==> Covered(b'))
  {
    hide Inv, Covered, PaperEntryFill, Rearm;
    QuietReflexive(b);
    var r := b.rows[id];
    if !Final(r.status) {
      if r.isPaper && (r.status == Placed || r.status == PartiallyFilled) {
        if r.market in quotes {
          PaperEntryFillKeeps(cfg, b, id, quotes[r.market], now);
          var b1 := PaperEntryFill(cfg, b, id, quotes[r.market], now).0;
          RearmKeeps(cfg, b1, id, now);
          QuietTransitive(b, b1, VisitLocalEntry(cfg, b, id, quotes, now).0);
        }
      } else {
        RearmKeeps(cfg, b, id, now);
      }
    }
  }

  lemma LiveFillKeeps(b: Book, id: OrderId, answers: seq<LiveRow>, now: Time)
    requires Inv(b) && Known(b, id) && b.rows[id].kind == Entry
    ensures var b' := LiveFill(b, id, answers, now).0;
            Quiet(b, b') && (Covered(b) ==> Covered(b')) && Known(b', id) && b'.rows[id].kind == Entry
  {
    var r := b.rows[id];
    hide Inv, Covered, Fill;
    QuietReflexive(b);
    FillKeeps(b, id, Max(TotalFilled(answers) - r.filled, 0.0), LastPrice(answers, ActivePrice(r)), now);
  }

  lemma LiveStatusKeeps(b: Book, id: OrderId, answers: seq<LiveRow>)
    requires Inv(b) && Known(b, id) && b.rows[id].kind == Entry
    ensures var b' := LiveStatus(b, id, answers).0; Quiet(b, b') && (Covered(b) ==> Covered(b'))
  {
    hide Inv, Covered;
    QuietReflexive(b);
    RestateKeeps(b, id, Cancelled, b.rows[id].bracketState);
    RestateKeeps(b, id, Expired, b.rows[id].bracketState);
  }

  lemma LiveEntryKeeps(cfg: Config, b: Book, id: OrderId, answers: seq<LiveRow>, now: Time)
    requires Inv(b) && Known(b, id) && b.rows[id].kind == Entry
    ensures var b' := LiveEntry(cfg, b, id, answers, now).0; Quiet(b, b') && (Covered(b) ==> Covered(b'))
  {
    hide Inv, Covered, LiveFill, LiveStatus;
    QuietReflexive(b);
    if answers != [] {
      LiveFillKeeps(b, id, answers, now);
      var b1 := LiveFill(b, id, answers, now).0;
      LiveStatusKeeps(b1, id, answers);
      var b2 := LiveStatus(b1, id, answers).0;
      QuietTransitive(b, b1, b2);
      if b2.rows[id].filled > 0.0 && cfg.brackets {
        ArmKeeps(b2, id, DefaultSpec(cfg).value, now);
        QuietTransitive(b, b2, LiveEntry(cfg, b, id, answers, now).0);
      }
    }
  }
}
