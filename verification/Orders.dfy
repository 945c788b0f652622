/** Values of the order executor: one row per order, the order table, and what each operation of
    `OrderExecutor` does to them. The class in Executor.dfy works on objects in place and is proved to
    follow these functions step by step. */
module Orders {
  import opened Options
  import opened Rounding

  type OrderId = nat

  /** Seconds on the wall clock. */
  type Time = real

  datatype Status = Placed | PartiallyFilled | Filled | Armed | Cancelled | Expired

  predicate Final(s: Status) {
    s == Filled || s == Cancelled || s == Expired
  }

  datatype Kind = Entry | TakeProfit | StopLoss | Exit

  predicate IsChild(k: Kind) {
    k == TakeProfit || k == StopLoss
  }

  datatype BracketState = Inactive | PendingFill | BracketArmed | Closed | BracketExpired | BracketCancelled

  /** Trigger conditions "gte" and "lte" together with the trigger price. */
  datatype Trigger = AtLeast(price: real) | AtMost(price: real)

  predicate Fires(t: Trigger, price: real) {
    match t
    case AtLeast(p) => price >= p
    case AtMost(p) => price <= p
  }

  datatype BracketSpec = BracketSpec(takeProfitPct: real, stopLossPct: real, ttlMinutes: int)

  datatype Row = Row(
    id: OrderId, market: string, direction: string, kind: Kind, isPaper: bool,
    size: real, price: real, status: Status, timestamp: Time,
    filled: real, remaining: real, average: Option<real>, lastFillAt: Option<Time>,
    parent: Option<OrderId>, oco: Option<nat>, trigger: Option<Trigger>, expiry: Option<Time>,
    takeProfit: Option<real>, stopLoss: Option<real>,
    bracketIds: seq<OrderId>, bracketState: BracketState)

  datatype Config = Config(
    dryRun: bool, hasClob: bool, brackets: bool, takeProfitPct: real, stopLossPct: real, ttlMinutes: int,
    fillOnPlace: bool, allowPartial: bool, partialRatio: real, tolerance: real, liveReconcile: bool,
    maxOrder: real, dedupWindow: real, expiryMinutes: real, maxSlippageBps: real)

  predicate PaperMode(cfg: Config) {
    cfg.dryRun || !cfg.hasClob
  }

  function DefaultSpec(cfg: Config): Option<BracketSpec> {
    if cfg.brackets then Some(BracketSpec(cfg.takeProfitPct, cfg.stopLossPct, cfg.ttlMinutes)) else None
  }

  /** The order table: a dictionary with its insertion order, and the source of fresh identifiers. */
  datatype Book = Book(rows: map<OrderId, Row>, keys: seq<OrderId>, next: nat)

  const EMPTY_BOOK := Book(map[], [], 0)

  predicate Known(b: Book, id: OrderId) {
    id in b.rows && b.rows[id].id == id
  }

  function Put(b: Book, r: Row): Book {
    b.(rows := b.rows[r.id := r])
  }

  function Insert(b: Book, r: Row): Book {
    b.(rows := b.rows[r.id := r], keys := b.keys + [r.id])
  }

  datatype EventKind = EntryFilled | EntryPartiallyFilled | EntryCancelled | EntryExpired
                     | BracketsArmed | GttCreated | GttExpired | OcoCancelled | ExitFilled

  /** A lifecycle event. Its `order_snapshot` is the live order object, hence only the id is kept. */
  datatype Event = Event(kind: EventKind, order: OrderId, fillPrice: Option<real>, fillSize: real,
                         parent: Option<OrderId>, sibling: Option<OrderId>)

  function Note(kind: EventKind, r: Row): Event {
    Event(kind, r.id, None, 0.0, r.parent, None)
  }

  // ----- prices ---------------------------------------------------------------------------------

  function ContractPrice(direction: string, market: real): real {
    if direction == "YES" then market else 1.0 - market
  }

  function ClampPrice(p: real): real {
    Clamp(p, 0.01, 0.99)
  }

  /** `average_fill_price or price`: a missing or zero average falls back to the limit. */
  function ActivePrice(r: Row): real {
    if r.average.Some? && r.average.value != 0.0 then r.average.value else r.price
  }

  /** `filled_size_usdc or size_usdc`. */
  function ActiveSize(r: Row): real {
    if r.filled != 0.0 then r.filled else r.size
  }

  function TakeProfitLevel(entry: real, spec: BracketSpec): real {
    ClampPrice(entry * (1.0 + spec.takeProfitPct))
  }

  function StopLossLevel(entry: real, spec: BracketSpec): real {
    ClampPrice(entry * (1.0 - spec.stopLossPct))
  }

  datatype Quote = Quote(midpoint: Option<real>, bestBid: Option<real>, bestAsk: Option<real>)

  /** The price a child is judged by: best bid for a take-profit, best ask for a stop-loss. */
  function EvalPrice(r: Row, q: Quote): real {
    var mid := OrElse(q.midpoint, r.price);
    ContractPrice(r.direction, if r.kind == TakeProfit then OrElse(q.bestBid, mid) else OrElse(q.bestAsk, mid))
  }

  // ----- fills ----------------------------------------------------------------------------------

  /** How much of a requested fill is taken. */
  function TakenSize(r: Row, size: real): real {
    Max(0.0, Min(size, r.remaining))
  }

  /** The average price after `taken > 0` more is filled at `price`. */
  function NewAverage(r: Row, price: real, taken: real): real
    requires taken > 0.0
  {
    if r.filled > 0.0 && r.average.Some?
    then (r.average.value * r.filled + price * taken) / (r.filled + taken)
    else price
  }

  function Fill(r: Row, size: real, price: real, now: Time): Row {
    var taken := TakenSize(r, size);
    if taken <= 0.0 then r
    else
      var filled := Round8(r.filled + taken);
      var left := Round8(Max(r.size - filled, 0.0));
      r.(average := Some(NewAverage(r, price, taken)), filled := filled, lastFillAt := Some(now),
         remaining := if left <= UNIT then 0.0 else left,
         status := if left <= UNIT then Filled else PartiallyFilled)
  }

  /** The fields an order is created with. */
  ghost predicate SameOrder(r: Row, r': Row) {
    && r'.id == r.id && r'.kind == r.kind && r'.market == r.market && r'.direction == r.direction
    && r'.isPaper == r.isPaper && r'.price == r.price && r'.parent == r.parent && r'.oco == r.oco
    && r'.trigger == r.trigger && r'.expiry == r.expiry && r'.timestamp == r.timestamp
  }

  /** A fill changes the fill of an order and nothing else. */
  lemma FillKeepsOrder(r: Row, size: real, price: real, now: Time)
    ensures var r' := Fill(r, size, price, now);
            && SameOrder(r, r') && r'.size == r.size
            && r'.bracketIds == r.bracketIds && r'.bracketState == r.bracketState
  {
    hide Round8;
  }

  // ----- brackets -------------------------------------------------------------------------------

  function Child(p: Row, kind: Kind, id: OrderId, group: nat, level: real, spec: BracketSpec, now: Time): Row {
    var size := ActiveSize(p);
    Row(id, p.market, p.direction, kind, p.isPaper, size, level, Armed, now, 0.0, size, None, None,
        Some(p.id), Some(group), Some(if kind == TakeProfit then AtLeast(level) else AtMost(level)),
        Some(now + 60.0 * spec.ttlMinutes as real), None, None, [], Inactive)
  }

  function SyncOne(b: Book, id: OrderId, size: real): (b': Book)
    ensures forall k :: Known(b, k) ==> Known(b', k)
  {
    if id in b.rows && b.rows[id].status == Armed
    then b.(rows := b.rows[id := b.rows[id].(size := size, remaining := size)])
    else b
  }

  function SyncChildren(b: Book, ids: seq<OrderId>, size: real): (b': Book)
    ensures forall k :: Known(b, k) ==> Known(b', k)
  {
    if ids == [] then b
    else SyncOne(SyncChildren(b, ids[..|ids| - 1], size), ids[|ids| - 1], size)
  }

  function WithLevels(p: Row, spec: BracketSpec): Row {
    p.(takeProfit := Some(TakeProfitLevel(ActivePrice(p), spec)),
       stopLoss := Some(StopLossLevel(ActivePrice(p), spec)))
  }

  /** First arming of a parent without children. */
  function CreateChildren(b: Book, p: Row, spec: BracketSpec, now: Time): (Book, seq<Event>) {
    var group, tpId, slId := b.next, b.next + 1, b.next + 2;
    var tp := Child(p, TakeProfit, tpId, group, TakeProfitLevel(ActivePrice(p), spec), spec, now);
    var sl := Child(p, StopLoss, slId, group, StopLossLevel(ActivePrice(p), spec), spec, now);
    var parent := WithLevels(p, spec).(bracketIds := [tpId, slId], bracketState := BracketArmed);
    (Put(Insert(Insert(b.(next := b.next + 3), tp), sl), parent),
     [Event(BracketsArmed, p.id, None, 0.0, Some(p.id), None), Note(GttCreated, tp), Note(GttCreated, sl)])
  }

  /** `_arm_bracket_orders` for the order `id`. */
  function Arm(b: Book, id: OrderId, spec: BracketSpec, now: Time): (r: (Book, seq<Event>))
    requires Known(b, id)
    ensures Known(r.0, id)
  {
    var p := b.rows[id];
    if p.kind != Entry then (b, [])
    else if p.bracketIds != [] then
      (SyncChildren(Put(b, WithLevels(p, spec).(bracketState := BracketArmed)), p.bracketIds, ActiveSize(p)),
       [Event(BracketsArmed, id, None, 0.0, Some(id), None)])
    else CreateChildren(b, p, spec, now)
  }

  // ----- placement ------------------------------------------------------------------------------

  datatype Request = Request(market: string, token: string, direction: string, size: real, price: real,
                             spec: Option<BracketSpec>)

  /** `_validate_order` returns no rejection. */
  predicate Acceptable(cfg: Config, killed: bool, req: Request) {
    && !killed
    && 0.01 <= req.price <= 0.99
    && 0.50 <= req.size <= cfg.maxOrder
    && (req.direction == "YES" || req.direction == "NO")
    && (req.token != "" || cfg.dryRun)
    && req.market != ""
  }

  function LimitPrice(req: Request): real {
    ClampPrice(ContractPrice(req.direction, req.price) - 0.001)
  }

  function EntryRow(cfg: Config, id: OrderId, req: Request, now: Time): Row {
    Row(id, req.market, req.direction, Entry, PaperMode(cfg), req.size, LimitPrice(req), Placed, now,
        0.0, req.size, None, None, None, None, None, None, None, None, [], Inactive)
  }

  /** `bracket_spec or self._default_bracket_spec()`. */
  function ChosenSpec(cfg: Config, req: Request): Option<BracketSpec> {
    if req.spec.Some? then req.spec else DefaultSpec(cfg)
  }

  /** What a placement that passed every gate does to the table, up to the first live submission. */
  function PlaceEntry(cfg: Config, b: Book, req: Request, now: Time): Book {
    var entry := EntryRow(cfg, b.next, req, now);
    var b1 := Insert(b.(next := b.next + 1), entry);
    if !PaperMode(cfg) || !cfg.fillOnPlace then b1
    else
      var b2 := Put(b1, Fill(entry, req.size, entry.price, now));
      var spec := ChosenSpec(cfg, req);
      if spec.Some? then Arm(b2, entry.id, spec.value, now).0 else b2
  }

  function SetStatus(b: Book, id: OrderId, s: Status): Book
    requires id in b.rows
  {
    b.(rows := b.rows[id := b.rows[id].(status := s)])
  }

  function SetBracketState(b: Book, id: OrderId, s: BracketState): Book
    requires id in b.rows
  {
    b.(rows := b.rows[id := b.rows[id].(bracketState := s)])
  }

  /** End of a live submission: brackets wait for the fill, or the order is cancelled on any error. */
  function SettlePlacement(b: Book, id: OrderId, ok: bool, bracketed: bool): Book
    requires id in b.rows
  {
    if !ok then SetStatus(b, id, Cancelled)
    else if bracketed then SetBracketState(b, id, PendingFill) else b
  }

  // ----- cancelling and expiry ------------------------------------------------------------------

  function CancelOpenChild(b: Book, id: OrderId): (b': Book)
    ensures forall k :: Known(b, k) ==> Known(b', k)
  {
    if id in b.rows && !Final(b.rows[id].status) then SetStatus(b, id, Cancelled) else b
  }

  function CancelChildren(b: Book, ids: seq<OrderId>): (b': Book)
    ensures forall k :: Known(b, k) ==> Known(b', k)
  {
    if ids == [] then b else CancelOpenChild(CancelChildren(b, ids[..|ids| - 1]), ids[|ids| - 1])
  }

  /** Whether cancelling touches only local state. */
  predicate CancelsLocally(cfg: Config, r: Row) {
    r.isPaper || !cfg.hasClob || r.kind != Entry
  }

  function CancelLocal(b: Book, id: OrderId): (b': Book)
    requires id in b.rows
    ensures forall k :: Known(b, k) ==> Known(b', k)
  {
    var r := b.rows[id];
    if r.kind != Entry then SetStatus(b, id, Cancelled)
    else CancelChildren(SetBracketState(SetStatus(b, id, Cancelled), id, BracketCancelled), r.bracketIds)
  }

  /** The exchange confirmed the cancellation. Nothing is re-checked after waiting for it. */
  function ConfirmLiveCancel(b: Book, id: OrderId): Book
    requires id in b.rows
  {
    SetBracketState(SetStatus(b, id, Cancelled), id, BracketCancelled)
  }

  /** `cancel_order`, with the exchange's answer for a live entry. */
  function CancelOrder(cfg: Config, b: Book, id: OrderId, exchangeOk: bool): (r: (Book, bool))
    ensures forall k :: Known(b, k) ==> Known(r.0, k)
  {
    if id !in b.rows then (b, false)
    else if Final(b.rows[id].status) then (b, true)
    else if CancelsLocally(cfg, b.rows[id]) then (CancelLocal(b, id), true)
    else if exchangeOk then (ConfirmLiveCancel(b, id), true)
    else (b, false)
  }

  predicate Open(s: Status) {
    s == Placed || s == PartiallyFilled || s == Armed
  }

  predicate Overdue(r: Row, now: Time) {
    r.expiry.Some? && now > r.expiry.value
  }

  // ----- reconciliation -------------------------------------------------------------------------

  /** How much a pass asks for of an order of that size with that much remaining. */
  function PassSize(cfg: Config, size: real, remaining: real): real {
    if cfg.allowPartial && remaining > 0.0 then Min(remaining, Max(size * cfg.partialRatio, 0.0)) else remaining
  }

  function PaperFillSize(cfg: Config, r: Row): real {
    PassSize(cfg, r.size, r.remaining)
  }

  function EntryEvent(r: Row, price: real, size: real): Event {
    Event(if r.status == Filled then EntryFilled else EntryPartiallyFilled, r.id, Some(price), size, None, None)
  }

  /** The fill part of a paper entry's visit. */
  function PaperEntryFill(cfg: Config, b: Book, id: OrderId, q: Quote, now: Time): (r: (Book, seq<Event>))
    requires Known(b, id)
    ensures Known(r.0, id)
  {
    var r := b.rows[id];
    var price := ContractPrice(r.direction, OrElse(q.midpoint, r.price));
    if price > r.price + cfg.tolerance then (b, [])
    else
      var size := PaperFillSize(cfg, r);
      var r' := Fill(r, size, price, now);
      var b' := Put(b, r');
      var e := [EntryEvent(r', price, size)];
      if r'.status != r.status && cfg.brackets then
        var (b'', es) := Arm(b', id, DefaultSpec(cfg).value, now);
        (b'', e + es)
      else (b', e)
  }

  /** The late arming at the end of an entry's visit. */
  function Rearm(cfg: Config, b: Book, id: OrderId, now: Time): (Book, seq<Event>)
    requires Known(b, id)
  {
    var r := b.rows[id];
    if (r.bracketState == PendingFill || r.bracketState == BracketArmed) && r.filled > 0.0 && cfg.brackets
       && r.bracketIds == []
    then Arm(b, id, DefaultSpec(cfg).value, now) else (b, [])
  }

  /** A parsed answer of the exchange about one of the order's chunks. */
  datatype LiveRow = LiveRow(cancelled: bool, expired: bool, filled: real, average: Option<real>)

  function TotalFilled(rows: seq<LiveRow>): real {
    if rows == [] then 0.0 else TotalFilled(rows[..|rows| - 1]) + rows[|rows| - 1].filled
  }

  /** The last answer that carries an average price, else `default`. */
  function LastPrice(rows: seq<LiveRow>, default: real): real {
    if rows == [] then default
    else if rows[|rows| - 1].average.Some? then rows[|rows| - 1].average.value
    else LastPrice(rows[..|rows| - 1], default)
  }

  function LiveFill(b: Book, id: OrderId, answers: seq<LiveRow>, now: Time): (res: (Book, seq<Event>))
    requires Known(b, id)
    ensures Known(res.0, id)
  {
    var r := b.rows[id];
    var price := LastPrice(answers, ActivePrice(r));
    var delta := Max(TotalFilled(answers) - r.filled, 0.0);
    if delta > 0.0 then
      var r' := Fill(r, delta, price, now);
      (Put(b, r'), [EntryEvent(r', price, delta)])
    else (b, [])
  }

  function LiveStatus(b: Book, id: OrderId, answers: seq<LiveRow>): (res: (Book, seq<Event>))
    requires Known(b, id)
    ensures Known(res.0, id)
  {
    var r := b.rows[id];
    if r.status == Filled || r.status == PartiallyFilled then (b, [])
    else if exists a :: a in answers && a.cancelled then (SetStatus(b, id, Cancelled), [Note(EntryCancelled, r)])
    else if exists a :: a in answers && a.expired then (SetStatus(b, id, Expired), [Note(EntryExpired, r)])
    else (b, [])
  }

  /** `_reconcile_live_entry` once the answers are in. The order's status is not re-checked here. */
  function LiveEntry(cfg: Config, b: Book, id: OrderId, answers: seq<LiveRow>, now: Time): (res: (Book, seq<Event>))
    requires Known(b, id)
    ensures Known(res.0, id)
  {
    if answers == [] then (b, [])
    else
      var (b1, e1) := LiveFill(b, id, answers, now);
      var (b2, e2) := LiveStatus(b1, id, answers);
      if b2.rows[id].filled > 0.0 && cfg.brackets then
        var (b3, e3) := Arm(b2, id, DefaultSpec(cfg).value, now);
        (b3, e1 + e2 + e3)
      else (b2, e1 + e2)
  }

  predicate IsSibling(r: Row, self: Row) {
    r.oco.Some? && r.oco == self.oco && r.id != self.id && r.status == Armed
  }

  function CancelSiblings(b: Book, self: Row): Book {
    b.(rows := map id | id in b.rows ::
        if IsSibling(b.rows[id], self) then b.rows[id].(status := Cancelled) else b.rows[id])
  }

  /** The armed members of `self`'s group among `keys`, in table order. */
  function Siblings(b: Book, keys: seq<OrderId>, self: Row): seq<OrderId> {
    if keys == [] then []
    else
      var k := keys[|keys| - 1];
      Siblings(b, keys[..|keys| - 1], self) + (if k in b.rows && IsSibling(b.rows[k], self) then [k] else [])
  }

  function OcoEvents(b: Book, ids: seq<OrderId>, self: OrderId): seq<Event> {
    if ids == [] then []
    else
      var k := ids[|ids| - 1];
      OcoEvents(b, ids[..|ids| - 1], self)
      + [Event(OcoCancelled, k, None, 0.0, if k in b.rows then b.rows[k].parent else None, Some(self))]
  }

  function ParentState(b: Book, parent: Option<OrderId>, s: BracketState): Book {
    if parent.Some? && parent.value in b.rows then SetBracketState(b, parent.value, s) else b
  }

  /** A triggered child fills, its parent closes and the armed rest of its group is cancelled. */
  function TriggerChild(b: Book, id: OrderId, price: real, now: Time): (Book, seq<Event>)
    requires Known(b, id)
  {
    var r := b.rows[id];
    var r' := Fill(r, if r.remaining != 0.0 then r.remaining else r.size, price, now);
    var b1 := ParentState(Put(b, r'), r.parent, Closed);
    var ids := if r.oco.Some? then Siblings(b1, b1.keys, r') else [];
    (if r.oco.Some? then CancelSiblings(b1, r') else b1,
     OcoEvents(b1, ids, id)
     + [Event(ExitFilled, id, Some(price), r'.filled, r.parent, if ids == [] then None else Some(ids[|ids| - 1]))])
  }

  function ExpireChild(b: Book, id: OrderId): (Book, seq<Event>)
    requires id in b.rows
  {
    (ParentState(SetStatus(b, id, Expired), b.rows[id].parent, BracketExpired), [Note(GttExpired, b.rows[id])])
  }

  /** One visit of a child in a reconcile pass. */
  function VisitChild(b: Book, id: OrderId, quotes: map<string, Quote>, now: Time): (Book, seq<Event>)
    requires Known(b, id) && IsChild(b.rows[id].kind)
  {
    var r := b.rows[id];
    if r.status != Armed || r.market !in quotes then (b, [])
    else if Overdue(r, now) then ExpireChild(b, id)
    else
      var price := EvalPrice(r, quotes[r.market]);
      if r.trigger.Some? && Fires(r.trigger.value, price) then TriggerChild(b, id, price, now) else (b, [])
  }

  predicate LiveManaged(cfg: Config, r: Row) {
    !r.isPaper && cfg.liveReconcile && cfg.hasClob
  }

  /** One visit of an entry that is not asked about on the exchange. */
  function VisitLocalEntry(cfg: Config, b: Book, id: OrderId, quotes: map<string, Quote>, now: Time): (Book, seq<Event>)
    requires Known(b, id)
  {
    var r := b.rows[id];
    if Final(r.status) then (b, [])
    else if r.isPaper && (r.status == Placed || r.status == PartiallyFilled) then
      if r.market !in quotes then (b, [])
      else
        var (b1, e1) := PaperEntryFill(cfg, b, id, quotes[r.market], now);
        var (b2, e2) := Rearm(cfg, b1, id, now);
        (b2, e1 + e2)
    else Rearm(cfg, b, id, now)
  }

  // ----- passes over the table ------------------------------------------------------------------

  /** What other tasks do meanwhile, in order. Only placing and reconciling hold the order lock, so orders can
      be closed, cancelled and expired while a pass awaits the exchange. */
  type Interference = seq<Action>

  predicate Unlocked(a: Action) {
    a.Close? || a.Cancel? || (a.On? && (a.touch.Confirm? || a.touch.Expire? || a.touch.CloseFailed?))
  }

  function Interfere(cfg: Config, b: Book, others: Interference): (b': Book)
    ensures forall k :: Known(b, k) ==> Known(b', k)
  {
    if others == [] then b
    else
      var last := others[|others| - 1];
      var b1 := Interfere(cfg, b, others[..|others| - 1]);
      if Unlocked(last) then Step(cfg, b1, last).0 else b1
  }

  /** The world outside one reconcile pass: quotes, the clock, the exchange's answers about each order, and
      what other tasks do while those answers are awaited. */
  datatype World = World(quotes: map<string, Quote>, now: Time,
                         answers: OrderId -> seq<LiveRow>, others: OrderId -> Interference)

  function LiveVisit(cfg: Config, b: Book, id: OrderId, w: World): (Book, seq<Event>)
    requires Known(b, id)
  {
    var b1 := Interfere(cfg, b, w.others(id));
    var (b2, e2) := LiveEntry(cfg, b1, id, w.answers(id), w.now);
    var (b3, e3) := Rearm(cfg, b2, id, w.now);
    (b3, e2 + e3)
  }

  function PassVisit(cfg: Config, b: Book, id: OrderId, w: World): (Book, seq<Event>) {
    if !Known(b, id) then (b, [])
    else
      var r := b.rows[id];
      if IsChild(r.kind) then VisitChild(b, id, w.quotes, w.now)
      else if r.kind == Entry && !Final(r.status) then
        if LiveManaged(cfg, r) then LiveVisit(cfg, b, id, w) else VisitLocalEntry(cfg, b, id, w.quotes, w.now)
      else (b, [])
  }

  /** `_reconcile_orders_unlocked` over the snapshot `ids` of the table. */
  function Pass(cfg: Config, b: Book, ids: seq<OrderId>, w: World): (Book, seq<Event>) {
    if ids == [] then (b, [])
    else
      var (b1, e1) := Pass(cfg, b, ids[..|ids| - 1], w);
      var (b2, e2) := PassVisit(cfg, b1, ids[|ids| - 1], w);
      (b2, e1 + e2)
  }

  /** `cancel_all_open_orders` over the snapshot `ids`: the table and how many were cancelled. */
  function CancelAll(cfg: Config, b: Book, ids: seq<OrderId>, ok: OrderId -> bool): (Book, nat) {
    if ids == [] then (b, 0)
    else
      var (b1, n) := CancelAll(cfg, b, ids[..|ids| - 1], ok);
      var id := ids[|ids| - 1];
      if id in b1.rows && Open(b1.rows[id].status) then
        var (b2, done) := CancelOrder(cfg, b1, id, ok(id));
        (b2, if done then n + 1 else n)
      else (b1, n)
  }

  function ExpireOne(cfg: Config, b: Book, id: OrderId, now: Time, ok: bool): (Book, bool) {
    if id !in b.rows || !Open(b.rows[id].status) then (b, false)
    else
      var r := b.rows[id];
      if r.status == Armed then
        if Overdue(r, now) then (SetStatus(b, id, Expired), true) else (b, false)
      else if (now - r.timestamp) / 60.0 > cfg.expiryMinutes then CancelOrder(cfg, b, id, ok)
      else (b, false)
  }

  /** `cancel_expired_orders` over the snapshot `ids`: the table and the ids that ended. */
  function ExpireAll(cfg: Config, b: Book, ids: seq<OrderId>, now: Time, ok: OrderId -> bool): (Book, seq<OrderId>) {
    if ids == [] then (b, [])
    else
      var (b1, done) := ExpireAll(cfg, b, ids[..|ids| - 1], now, ok);
      var id := ids[|ids| - 1];
      var (b2, ended) := ExpireOne(cfg, b1, id, now, ok(id));
      (b2, if ended then done + [id] else done)
  }

  // ----- closing orders -------------------------------------------------------------------------

  function CloseRow(cfg: Config, id: OrderId, market: string, direction: string,
                    size: real, price: real, now: Time): Row {
    Row(id, market, direction, Exit, PaperMode(cfg), size, ClampPrice(price), Placed, now, 0.0, size,
        None, None, None, None, None, None, None, None, [], Inactive)
  }

  /** `close_position`, up to the live submission. */
  function ClosePosition(cfg: Config, b: Book, market: string, direction: string,
                         size: real, price: real, now: Time): Book {
    if !(0.0 < price < 1.0) || size <= 0.0 then b
    else
      var r := CloseRow(cfg, b.next, market, direction, size, price, now);
      var b1 := Insert(b.(next := b.next + 1), r);
      if PaperMode(cfg) then Put(b1, Fill(r, size, r.price, now)) else b1
  }

  // ----- runs -----------------------------------------------------------------------------------

  /** Everything the executor does between two points where another task may run. A reconcile pass
      is a sequence of visits, so each interleaving of passes, placements, cancellations and expiry
      is a sequence of these actions. */
  datatype Action =
    | Place(req: Request, killed: bool, now: Time)
    | Close(market: string, direction: string, size: real, price: real, now: Time)
    | Cancel(id: OrderId, exchangeOk: bool)
    | On(id: OrderId, touch: Touch)

  /** Actions on one order that is already in the table. */
  datatype Touch =
    | Settle(ok: bool, bracketed: bool)
    | Visit(quotes: map<string, Quote>, now: Time)
    | Answer(answers: seq<LiveRow>, now: Time)
    | Late(now: Time)
    | Confirm
    | Expire(now: Time)
    | CloseFailed

  function StepOn(cfg: Config, b: Book, id: OrderId, t: Touch): (Book, seq<Event>)
    requires Known(b, id)
  {
    var r := b.rows[id];
    match t
    case Settle(ok, bracketed) =>
      (if r.kind == Entry && !r.isPaper then SettlePlacement(b, id, ok, bracketed) else b, [])
    case Visit(quotes, now) =>
      if IsChild(r.kind) then VisitChild(b, id, quotes, now)
      else if r.kind == Entry && !LiveManaged(cfg, r) then VisitLocalEntry(cfg, b, id, quotes, now) else (b, [])
    case Answer(answers, now) =>
      if r.kind == Entry && LiveManaged(cfg, r) then LiveEntry(cfg, b, id, answers, now) else (b, [])
    case Late(now) =>
      if r.kind == Entry && LiveManaged(cfg, r) then Rearm(cfg, b, id, now) else (b, [])
    case Confirm => (if CancelsLocally(cfg, r) then b else ConfirmLiveCancel(b, id), [])
    case Expire(now) => (if r.status == Armed && Overdue(r, now) then SetStatus(b, id, Expired) else b, [])
    case CloseFailed => (if r.kind == Exit && !r.isPaper then SetStatus(b, id, Cancelled) else b, [])
  }

  function Step(cfg: Config, b: Book, a: Action): (Book, seq<Event>) {
    match a
    case Place(req, killed, now) =>
      (if Acceptable(cfg, killed, req) then PlaceEntry(cfg, b, req, now) else b, [])
    case Close(market, direction, size, price, now) =>
      (ClosePosition(cfg, b, market, direction, size, price, now), [])
    case Cancel(id, exchangeOk) => (CancelOrder(cfg, b, id, exchangeOk).0, [])
    case On(id, touch) => if Known(b, id) then StepOn(cfg, b, id, touch) else (b, [])
  }

  function Run(cfg: Config, b: Book, actions: seq<Action>): (Book, seq<Event>) {
    if actions == [] then (b, [])
    else
      var (b1, e1) := Run(cfg, b, actions[..|actions| - 1]);
      var (b2, e2) := Step(cfg, b1, actions[|actions| - 1]);
      (b2, e1 + e2)
  }
}
