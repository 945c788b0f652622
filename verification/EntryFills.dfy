/** A paper entry in the executor's table fills as the schedule of its passes says: over any run of actions, and
    over reconcile passes of the whole table. */
module EntryFills {
  import opened Rounding
  import opened Options
  import opened Orders
  import opened OrderInvariants
  import opened OrderRuns
  import opened Passes
  import opened Touches
  import opened FillLedger
  import opened Schedules

  // ----- over any run -----------------------------------------------------------------------------

  /** The contract price at which a visit would fill the entry. */
  function Offer(r: Row, q: Quote): real {
    ContractPrice(r.direction, OrElse(q.midpoint, r.price))
  }

  /** What an action offers the entry: the price of a visit with an acceptable quote, or nothing. */
  function OfferOf(cfg: Config, r: Row, a: Action): seq<real> {
    if a.On? && a.id == r.id && a.touch.Visit? && r.market in a.touch.quotes
       && Offer(r, a.touch.quotes[r.market]) <= r.price + cfg.tolerance
    then [Offer(r, a.touch.quotes[r.market])] else []
  }

  function Offers(cfg: Config, r: Row, actions: seq<Action>): seq<real> {
    if actions == [] then []
    else Offers(cfg, r, actions[..|actions| - 1]) + OfferOf(cfg, r, actions[|actions| - 1])
  }

  /** A paper entry that is not cancelled: resting, partially filled, or complete. */
  ghost predicate Working(b: Book, p: OrderId) {
    && Known(b, p) && b.rows[p].kind == Entry && b.rows[p].isPaper
    && (b.rows[p].status == Placed || b.rows[p].status == PartiallyFilled || b.rows[p].status == Filled)
    && (b.rows[p].status == Filled ==> b.rows[p].remaining == 0.0)
  }

  ghost predicate Uncancelled(actions: seq<Action>, p: OrderId) {
    forall a :: a in actions ==> !(a.Cancel? && a.id == p)
  }

  lemma SameTaken(cfg: Config, o: Row, o': Row)
    requires o'.size == o.size && o'.filled == o.filled && o'.remaining == o.remaining
    ensures PaperFillSize(cfg, o') == PaperFillSize(cfg, o)
    ensures TakenSize(o', PaperFillSize(cfg, o)) == TakenSize(o, PaperFillSize(cfg, o))
  {
    hide PassSize;
  }

  lemma SameNewAverage(o: Row, o': Row, price: real, taken: real)
    requires o'.filled == o.filled && o'.average == o.average && taken > 0.0
    ensures NewAverage(o', price, taken) == NewAverage(o, price, taken)
  {}

  /** The fill of an order depends on nothing but its fill. */
  lemma FillCongruent(cfg: Config, o: Row, o': Row, price: real, now: Time)
    requires SameFill(o, o')
    ensures SameFill(Fill(o, PaperFillSize(cfg, o), price, now), Fill(o', PaperFillSize(cfg, o'), price, 0.0))
  {
    hide Round8, NewAverage, TakenSize, PaperFillSize;
    SameTaken(cfg, o, o');
    var x := TakenSize(o, PaperFillSize(cfg, o));
    if x > 0.0 {
      SameNewAverage(o, o', price, x);
    }
  }

  lemma WorkingRow(b: Book, p: OrderId)
    requires Working(b, p)
    ensures p in b.rows && b.rows[p].id == p
  {}

  lemma {:induction false} PassesCongruent(cfg: Config, o: Row, o': Row, prices: seq<real>)
    requires SameFill(o, o')
    ensures SameFill(AfterPasses(cfg, o, prices), AfterPasses(cfg, o', prices))
  {
    hide Fill, SameFill, PaperFillSize;
    if prices == [] {
    } else {
      var init := prices[..|prices| - 1];
      PassesCongruent(cfg, o, o', init);
      FillCongruent(cfg, AfterPasses(cfg, o, init), AfterPasses(cfg, o', init), prices[|prices| - 1], 0.0);
    }
  }

  lemma PassesSnoc(cfg: Config, o: Row, prices: seq<real>, more: seq<real>)
    requires |more| <= 1
    ensures AfterPasses(cfg, o, prices + more) == AfterPasses(cfg, AfterPasses(cfg, o, prices), more)
  {
    hide Fill, PaperFillSize;
    if more == [] {
      assert prices + more == prices;
    } else {
      assert (prices + more)[..|prices|] == prices && more[..0] == [];
    }
  }

  /** What one action does to a working entry. */
  lemma ActionFollows(cfg: Config, b: Book, a: Action, p: OrderId)
    requires Inv(b) && Working(b, p) && Uncancelled([a], p)
    ensures var b' := Step(cfg, b, a).0;
            && Working(b', p) && SameOrder(b.rows[p], b'.rows[p])
            && SameFill(b'.rows[p], AfterPasses(cfg, b.rows[p], OfferOf(cfg, b.rows[p], a)))
  {
    hide Inv, SameFill, AfterPasses;
    var r := b.rows[p];
    EntryFacts(b, p);
    assert a in [a];
    if !About(a, p) {
      OthersLeaveAlone(cfg, b, a, p);
      UntouchedWorks(cfg, b, Step(cfg, b, a).0, p);
      OthersOfferNothing(cfg, r, a);
    } else if a.touch.Visit? {
      VisitFollows(cfg, b, a.touch.quotes, a.touch.now, p);
      VisitIsLocal(cfg, b, a.touch.quotes, a.touch.now, p);
    } else {
      WorkingIgnores(cfg, b, a.touch, p);
      SameAsItself(cfg, r);
    }
  }

  lemma OthersOfferNothing(cfg: Config, r: Row, a: Action)
    requires !About(a, r.id)
    ensures OfferOf(cfg, r, a) == []
  {}

  lemma UntouchedWorks(cfg: Config, b: Book, b': Book, p: OrderId)
    requires Working(b, p) && Untouched(b, b', p)
    ensures Working(b', p) && SameFill(b'.rows[p], AfterPasses(cfg, b.rows[p], []))
  {}

  lemma VisitIsLocal(cfg: Config, b: Book, quotes: map<string, Quote>, now: Time, p: OrderId)
    requires Working(b, p)
    ensures Step(cfg, b, On(p, Visit(quotes, now))).0 == VisitLocalEntry(cfg, b, p, quotes, now).0
  {
    hide VisitLocalEntry;
  }

  /** Only visits do anything to a working paper entry. */
  lemma WorkingIgnores(cfg: Config, b: Book, t: Touch, p: OrderId)
    requires EntryOf(b, p) && Working(b, p) && !t.Visit?
    ensures Step(cfg, b, On(p, t)).0 == b && OfferOf(cfg, b.rows[p], On(p, t)) == []
  {}

  lemma VisitFollows(cfg: Config, b: Book, quotes: map<string, Quote>, now: Time, p: OrderId)
    requires EntryOf(b, p) && Working(b, p)
    ensures var b' := VisitLocalEntry(cfg, b, p, quotes, now).0;
            && Working(b', p) && SameOrder(b.rows[p], b'.rows[p])
            && SameFill(b'.rows[p], AfterPasses(cfg, b.rows[p], OfferOf(cfg, b.rows[p], On(p, Visit(quotes, now)))))
  {
    hide PaperEntryFill, Rearm, Fill;
    var r := b.rows[p];
    if r.market in quotes {
      var price := Offer(r, quotes[r.market]);
      assert [price][..0] == [];
      assert AfterPasses(cfg, r, [price]) == Fill(r, PaperFillSize(cfg, r), price, 0.0);
      PaperFillFollows(cfg, b, quotes[r.market], now, p);
      hide PaperFillSize, AfterPasses;
      var b1 := PaperEntryFill(cfg, b, p, quotes[r.market], now).0;
      RearmUntouched(cfg, b1, p, now, p);
    }
  }

  lemma PaperFillFollows(cfg: Config, b: Book, q: Quote, now: Time, p: OrderId)
    requires EntryOf(b, p) && Working(b, p)
    ensures var b', r := PaperEntryFill(cfg, b, p, q, now).0, b.rows[p];
            && EntryOf(b', p) && Working(b', p) && SameOrder(r, b'.rows[p])
            && SameFill(b'.rows[p], if Offer(r, q) <= r.price + cfg.tolerance
                                    then Fill(r, PaperFillSize(cfg, r), Offer(r, q), 0.0) else r)
    ensures var r := b.rows[p]; r.status == Filled ==> Fill(r, PaperFillSize(cfg, r), Offer(r, q), 0.0) == r
  {
    var r, price := b.rows[p], Offer(b.rows[p], q);
    var size := PaperFillSize(cfg, r);
    FillCongruent(cfg, r, r, price, now);
    FillKeepsOrder(r, size, price, now);
    FillWorks(r, size, price, now);
    if r.status == Filled {
      CompleteStays(cfg, r, price);
    }
    hide Fill, Arm, PaperFillSize;
    var b1 := Put(b, Fill(r, size, price, now));
    if cfg.brackets && price <= r.price + cfg.tolerance {
      ArmUntouched(b1, p, DefaultSpec(cfg).value, now, p);
    }
  }

  lemma FillWorks(r: Row, size: real, price: real, now: Time)
    requires r.status == Placed || r.status == PartiallyFilled || r.status == Filled
    requires r.status == Filled ==> r.remaining == 0.0
    ensures var r' := Fill(r, size, price, now);
            && (r'.status == Placed || r'.status == PartiallyFilled || r'.status == Filled)
            && (r'.status == Filled ==> r'.remaining == 0.0)
  {
    hide Round8;
  }

  /** Over any run that does not cancel it, whatever else happens in the table, a paper entry is exactly as full as
      the passes at the acceptable prices it was visited with make it. */
  lemma {:induction false} RunFollowsOffers(cfg: Config, b: Book, actions: seq<Action>, p: OrderId)
    requires Inv(b) && Working(b, p) && Uncancelled(actions, p)
    ensures var b', r := Run(cfg, b, actions).0, b.rows[p];
            && Working(b', p) && SameOrder(r, b'.rows[p])
            && SameFill(b'.rows[p], AfterPasses(cfg, r, Offers(cfg, r, actions)))
  {
    hide Inv, Step, Working, SameFill, SameOrder, OfferOf, AfterPasses;
    WorkingRow(b, p);
    var r := b.rows[p];
    if actions == [] {
      SameAsItself(cfg, r);
      SameRow(r);
    } else {
      var init, a := actions[..|actions| - 1], actions[|actions| - 1];
      assert actions == init + [a];
      RunFollowsOffers(cfg, b, init, p);
      RunMoves(cfg, b, init);
      var b1 := Run(cfg, b, init).0;
      WorkingRow(b1, p);
      ActionFollows(cfg, b1, a, p);
      WorkingRow(Run(cfg, b, actions).0, p);
      OfferKept(cfg, r, b1.rows[p], a);
      SameOrderTransitive(r, b1.rows[p], Run(cfg, b, actions).0.rows[p]);
      var more := OfferOf(cfg, r, a);
      PassesCongruent(cfg, b1.rows[p], AfterPasses(cfg, r, Offers(cfg, r, init)), more);
      PassesSnoc(cfg, r, Offers(cfg, r, init), more);
      SameFillTransitive(Run(cfg, b, actions).0.rows[p], AfterPasses(cfg, b1.rows[p], more),
                         AfterPasses(cfg, AfterPasses(cfg, r, Offers(cfg, r, init)), more));
    }
  }

  lemma SameAsItself(cfg: Config, r: Row)
    ensures SameFill(r, AfterPasses(cfg, r, []))
  {}

  lemma SameFillTransitive(o1: Row, o2: Row, o3: Row)
    requires SameFill(o1, o2) && SameFill(o2, o3)
    ensures SameFill(o1, o3)
  {}

  lemma SameOrderTransitive(r1: Row, r2: Row, r3: Row)
    requires SameOrder(r1, r2) && SameOrder(r2, r3)
    ensures SameOrder(r1, r3)
  {}

  lemma OfferKept(cfg: Config, r: Row, r': Row, a: Action)
    requires SameOrder(r, r')
    ensures OfferOf(cfg, r', a) == OfferOf(cfg, r, a) && |OfferOf(cfg, r, a)| <= 1
  {}

  // ----- over reconcile passes --------------------------------------------------------------------

  /** Consecutive passes over the whole table, each over the orders it then holds. */
  function Reconciled(cfg: Config, b: Book, ws: seq<World>): Book {
    if ws == [] then b
    else
      var b1 := Reconciled(cfg, b, ws[..|ws| - 1]);
      Pass(cfg, b1, b1.keys, ws[|ws| - 1]).0
  }

  /** A world with an acceptable quote for the entry, in which nobody cancels it. */
  ghost predicate Offering(cfg: Config, r: Row, w: World) {
    && r.market in w.quotes && Price(r, w) <= r.price + cfg.tolerance
    && forall k :: Uncancelled(w.others(k), r.id)
  }

  /** The price a world offers the entry. */
  function Price(r: Row, w: World): real {
    if r.market in w.quotes then Offer(r, w.quotes[r.market]) else r.price
  }

  function Prices(r: Row, ws: seq<World>): seq<real> {
    seq(|ws|, i requires 0 <= i < |ws| => Price(r, ws[i]))
  }

  /** The entry is as full as passes at these prices make it. */
  ghost predicate Follows(cfg: Config, r: Row, b': Book, p: OrderId, prices: seq<real>) {
    && Working(b', p) && SameOrder(r, b'.rows[p]) && SameFill(b'.rows[p], AfterPasses(cfg, r, prices))
  }

  lemma {:induction false} EffectiveOffersNothing(cfg: Config, r: Row, others: Interference)
    requires Uncancelled(others, r.id)
    ensures Offers(cfg, r, Effective(others)) == [] && Uncancelled(Effective(others), r.id)
  {
    hide OfferOf, Offers, Uncancelled, Unlocked;
    NoOffers(cfg, r);
    if others == [] {
    } else {
      var init, last := others[..|others| - 1], others[|others| - 1];
      assert others == init + [last];
      UncancelledSnoc(init, last, r.id);
      EffectiveOffersNothing(cfg, r, init);
      if Unlocked(last) {
        UncancelledSnoc(Effective(init), last, r.id);
        UnlockedOffersNothing(cfg, r, last);
        NoOffer(cfg, r, Effective(init), last);
      } else {
        assert Effective(init) + [] == Effective(init);
      }
    }
  }

  lemma NoOffers(cfg: Config, r: Row)
    ensures Offers(cfg, r, []) == [] && Uncancelled([], r.id)
  {}

  lemma UnlockedOffersNothing(cfg: Config, r: Row, a: Action)
    requires Unlocked(a)
    ensures OfferOf(cfg, r, a) == []
  {}

  /** A visit in a pass makes one offer to the entry it is about, if that is not complete, and none to any other. */
  lemma VisitOffers(cfg: Config, b: Book, id: OrderId, w: World, r: Row)
    requires Working(b, r.id) && SameOrder(b.rows[r.id], r) && Offering(cfg, r, w)
    ensures var actions := VisitActions(cfg, b, id, w);
            && Uncancelled(actions, r.id)
            && Offers(cfg, r, actions) == (if id == r.id && !Final(b.rows[id].status) then [Price(r, w)] else [])
  {
    hide Offer, Working;
    WorkingRow(b, r.id);
    var visit := On(id, Visit(w.quotes, w.now));
    OneOffer(cfg, r, visit);
    assert Uncancelled(w.others(id), r.id);
    LiveOffersNothing(cfg, b, id, w, r);
    PaperIsLocal(cfg, b, r.id);
    hide Offers, Effective;
  }

  lemma PaperIsLocal(cfg: Config, b: Book, p: OrderId)
    requires Working(b, p)
    ensures !LiveManaged(cfg, b.rows[p]) && b.rows[p].kind == Entry
  {}

  lemma LiveOffersNothing(cfg: Config, b: Book, id: OrderId, w: World, r: Row)
    requires Uncancelled(w.others(id), r.id)
    ensures var actions := Effective(w.others(id)) + [On(id, Answer(w.answers(id), w.now)), On(id, Late(w.now))];
            Uncancelled(actions, r.id) && Offers(cfg, r, actions) == []
  {
    hide Offers, Effective, Uncancelled;
    var others := Effective(w.others(id));
    var answer, late := On(id, Answer(w.answers(id), w.now)), On(id, Late(w.now));
    assert OfferOf(cfg, r, answer) == [] && OfferOf(cfg, r, late) == [];
    hide OfferOf;
    EffectiveOffersNothing(cfg, r, w.others(id));
    NoOffer(cfg, r, others, answer);
    NoOffer(cfg, r, others + [answer], late);
    UncancelledSnoc(others, answer, r.id);
    UncancelledSnoc(others + [answer], late, r.id);
    assert others + [answer] + [late] == others + [answer, late];
  }

  lemma UncancelledSnoc(actions: seq<Action>, a: Action, p: OrderId)
    ensures Uncancelled(actions + [a], p) <==> Uncancelled(actions, p) && !(a.Cancel? && a.id == p)
  {
    assert forall x :: x in actions + [a] <==> x in actions || x == a;
  }

  lemma OneOffer(cfg: Config, r: Row, a: Action)
    ensures Offers(cfg, r, [a]) == OfferOf(cfg, r, a)
  {
    hide OfferOf;
    assert [a][..0] == [];
  }

  lemma NoOffer(cfg: Config, r: Row, actions: seq<Action>, a: Action)
    requires OfferOf(cfg, r, a) == []
    ensures Offers(cfg, r, actions + [a]) == Offers(cfg, r, actions)
  {
    hide OfferOf;
    assert (actions + [a])[..|actions|] == actions;
  }

  /** One visit of a pass: a fill for the entry it is about, nothing for the others. */
  lemma PassVisitFollows(cfg: Config, b: Book, id: OrderId, w: World, r: Row)
    requires Inv(b) && Working(b, r.id) && SameOrder(b.rows[r.id], r) && Offering(cfg, r, w)
    ensures var b', o := PassVisit(cfg, b, id, w).0, b.rows[r.id];
            && Working(b', r.id) && SameOrder(b'.rows[r.id], r)
            && SameFill(b'.rows[r.id], if id == r.id then AfterPasses(cfg, o, [Price(r, w)]) else o)
  {
    var o, price := b.rows[r.id], Price(r, w);
    var actions := VisitActions(cfg, b, id, w);
    VisitRuns(cfg, b, id, w);
    VisitOffers(cfg, b, id, w, r);
    OffersKept(cfg, o, r, actions);
    RunFollowsOffers(cfg, b, actions, r.id);
    SameAsItself(cfg, o);
    if o.status == Filled {
      CompleteStays(cfg, o, price);
      assert [price][..0] == [];
      assert AfterPasses(cfg, o, [price]) == o;
    }
    hide Inv, AfterPasses, PassVisit, VisitActions, Run, Offers, Offer;
  }

  lemma {:induction false} OffersKept(cfg: Config, r: Row, r': Row, actions: seq<Action>)
    requires SameOrder(r, r')
    ensures Offers(cfg, r', actions) == Offers(cfg, r, actions)
  {
    if actions == [] {
    } else {
      OffersKept(cfg, r, r', actions[..|actions| - 1]);
      OfferKept(cfg, r, r', actions[|actions| - 1]);
      hide OfferOf;
    }
  }

  /** Over a snapshot without repetitions the entry is visited once if it is listed. */
  lemma {:induction false} SnapshotFollows(cfg: Config, b: Book, ids: seq<OrderId>, w: World, r: Row)
    requires Inv(b) && Working(b, r.id) && SameOrder(b.rows[r.id], r) && Offering(cfg, r, w)
    requires forall i, j :: 0 <= i < j < |ids| ==> ids[i] != ids[j]
    ensures var b', o := Pass(cfg, b, ids, w).0, b.rows[r.id];
            && Inv(b') && Working(b', r.id) && SameOrder(b'.rows[r.id], r)
            && SameFill(b'.rows[r.id], if r.id in ids then AfterPasses(cfg, o, [Price(r, w)]) else o)
  {
    var o := b.rows[r.id];
    var price := Price(r, w);
    hide Inv, Pass, PassVisit, Offering, Working, SameFill, SameOrder, AfterPasses, Offer;
    if ids == [] {
      NoPass(cfg, b, w);
      SameAsItself(cfg, o);
      SameRow(o);
    } else {
      var init, last := ids[..|ids| - 1], ids[|ids| - 1];
      assert ids == init + [last] && last !in init;
      SnapshotFollows(cfg, b, init, w, r);
      var b1 := Pass(cfg, b, init, w).0;
      WorkingRow(b1, r.id);
      PassVisitFollows(cfg, b1, last, w, r);
      PassSnoc(cfg, b, init, last, w);
      PassKeepsInv(cfg, b, ids, w);
      var b' := Pass(cfg, b, ids, w).0;
      WorkingRow(b', r.id);
      if last == r.id {
        PassesCongruent(cfg, b1.rows[r.id], o, [price]);
        SameFillTransitive(b'.rows[r.id], AfterPasses(cfg, b1.rows[r.id], [price]), AfterPasses(cfg, o, [price]));
      } else {
        SameFillTransitive(b'.rows[r.id], b1.rows[r.id], if r.id in init then AfterPasses(cfg, o, [price]) else o);
      }
    }
  }

  lemma PassKeepsInv(cfg: Config, b: Book, ids: seq<OrderId>, w: World)
    requires Inv(b)
    ensures Inv(Pass(cfg, b, ids, w).0)
  {
    hide Inv, Pass, Run, Moves;
    PassIsRun(cfg, b, ids, w);
    RunMoves(cfg, b, PassActions(cfg, b, ids, w));
  }

  lemma SameRow(r: Row)
    ensures SameFill(r, r) && SameOrder(r, r)
  {}

  /** Consecutive passes over the whole table fill a paper entry once each, whatever else the table holds and other
      tasks do. */
  lemma {:induction false} PassesFollow(cfg: Config, b: Book, p: OrderId, ws: seq<World>)
    requires Working(b, p) && Inv(b) && forall w :: w in ws ==> Offering(cfg, b.rows[p], w)
    ensures Inv(Reconciled(cfg, b, ws)) && Follows(cfg, b.rows[p], Reconciled(cfg, b, ws), p, Prices(b.rows[p], ws))
  {
    hide Inv, Pass, Price, AfterPasses, Working, Follows, Reconciled, Offering;
    WorkingRow(b, p);
    var r := b.rows[p];
    if ws == [] {
      FollowsNothing(cfg, b, p);
    } else {
      var init, w := ws[..|ws| - 1], ws[|ws| - 1];
      assert ws == init + [w] && w in ws;
      assert Prices(r, ws) == Prices(r, init) + [Price(r, w)];
      hide Prices;
      PassesFollow(cfg, b, p, init);
      ReconciledSnoc(cfg, b, init, w);
      PassFollowsOnce(cfg, Reconciled(cfg, b, init), r, p, Prices(r, init), w);
    }
  }

  lemma FollowsNothing(cfg: Config, b: Book, p: OrderId)
    requires Working(b, p)
    ensures Reconciled(cfg, b, []) == b && Follows(cfg, b.rows[p], b, p, Prices(b.rows[p], []))
  {
    assert Prices(b.rows[p], []) == [];
    SameAsItself(cfg, b.rows[p]);
    hide AfterPasses;
  }

  lemma ReconciledSnoc(cfg: Config, b: Book, ws: seq<World>, w: World)
    ensures var b1 := Reconciled(cfg, b, ws); Reconciled(cfg, b, ws + [w]) == Pass(cfg, b1, b1.keys, w).0
  {
    hide Pass;
    assert (ws + [w])[..|ws|] == ws;
  }

  lemma PassFollowsOnce(cfg: Config, b: Book, r: Row, p: OrderId, prices: seq<real>, w: World)
    requires Inv(b) && r.id == p && Follows(cfg, r, b, p, prices) && Offering(cfg, r, w)
    ensures var b' := Pass(cfg, b, b.keys, w).0;
            Inv(b') && Follows(cfg, r, b', p, prices + [Price(r, w)])
  {
    WorkingRow(b, p);
    KeysList(b, p);
    BackOrder(b.rows[p], r);
    SnapshotFollows(cfg, b, b.keys, w, r);
    hide Inv, Pass, Price, AfterPasses, Offering, Working, SameFill;
    var b', price := Pass(cfg, b, b.keys, w).0, Price(r, w);
    WorkingRow(b', p);
    BackOrder(b'.rows[p], r);
    hide SameOrder;
    PassesCongruent(cfg, b.rows[p], AfterPasses(cfg, r, prices), [price]);
    PassesSnoc(cfg, r, prices, [price]);
    SameFillTransitive(b'.rows[p], AfterPasses(cfg, b.rows[p], [price]),
                       AfterPasses(cfg, AfterPasses(cfg, r, prices), [price]));
  }

  lemma BackOrder(r: Row, r': Row)
    ensures SameOrder(r, r') <==> SameOrder(r', r)
  {}

  lemma KeysList(b: Book, p: OrderId)
    requires Inv(b) && p in b.rows
    ensures p in b.keys && forall i, j :: 0 <= i < j < |b.keys| ==> b.keys[i] != b.keys[j]
  {}

  /** What the schedule says of an entry after `k` passes. */
  ghost predicate OnSchedule(o: Row, size: real, step: real, k: nat) {
    && (o.status == Filled <==> CompletesBy(size, step, k))
    && (!CompletesBy(size, step, k) ==> Underway(o, size, step, k))
    && (CompletesBy(size, step, k) ==> exists j: nat :: 1 <= j <= k && CompletedAt(o, size, step, j))
  }

  lemma ScheduleOfFill(o: Row, o': Row, size: real, step: real, k: nat)
    requires OnSchedule(o, size, step, k) && SameFill(o', o)
    ensures OnSchedule(o', size, step, k)
  {
    hide CompletesBy, Landing, Left, Multiple;
    if CompletesBy(size, step, k) {
      var j: nat :| 1 <= j <= k && CompletedAt(o, size, step, j);
      assert CompletedAt(o', size, step, j);
    }
  }

  /** The schedule in the executor's own table. After k reconcile passes over it, all with acceptable quotes, an
      untouched paper entry has filled exactly k times the rounded step, or is complete; it is complete if and only
      if k rounded steps leave at most a unit; and its average price is within the tolerance. */
  lemma ReconciledFill(cfg: Config, b: Book, p: OrderId, ws: seq<World>)
    requires Inv(b) && p in b.rows && b.rows[p].kind == Entry && b.rows[p].isPaper && FillLedger.Fresh(b.rows[p])
    requires StepOf(cfg, b.rows[p].size) > 0.0 && forall w :: w in ws ==> Offering(cfg, b.rows[p], w)
    ensures var b', r, k := Reconciled(cfg, b, ws), b.rows[p], |ws|;
            p in b'.rows && OnSchedule(b'.rows[p], r.size, StepOf(cfg, r.size), k)
            && (b'.rows[p].average.Some? ==> b'.rows[p].average.value <= r.price + cfg.tolerance)
  {
    hide Inv, AfterPasses, Reconciled, StepOf, CompletesBy, Landing, Left, Multiple, Offering, Price, SameOrder;
    EntryFacts(b, p);
    var r := b.rows[p];
    var prices := Prices(r, ws);
    PassesFollow(cfg, b, p, ws);
    PassesFill(cfg, r, prices);
    PricesAccepted(cfg, r, ws);
    AverageWithinTolerance(cfg, r, prices);
    WorkingRow(Reconciled(cfg, b, ws), p);
    ScheduleOfFill(AfterPasses(cfg, r, prices), Reconciled(cfg, b, ws).rows[p], r.size, StepOf(cfg, r.size), |ws|);
  }

  lemma PricesAccepted(cfg: Config, r: Row, ws: seq<World>)
    requires forall w :: w in ws ==> Offering(cfg, r, w)
    ensures forall i :: 0 <= i < |ws| ==> Prices(r, ws)[i] <= r.price + cfg.tolerance
  {
    forall i | 0 <= i < |ws| ensures Prices(r, ws)[i] <= r.price + cfg.tolerance {
      assert ws[i] in ws && Offering(cfg, r, ws[i]);
    }
  }
}
