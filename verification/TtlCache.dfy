/** The in-memory TTL cache. It deletes expired entries lazily on a get and in bulk when it is full on a set;
    neither can be noticed by any later get. */
module TtlCache {
  import opened Options

  datatype Entry<V> = Entry(expiresAt: real, value: V)

  datatype Cache<V> = Cache(store: map<string, Entry<V>>, hits: nat, misses: nat)

  function EvictExpired<V>(store: map<string, Entry<V>>, now: real): map<string, Entry<V>> {
    map k | k in store && !(now > store[k].expiresAt) :: store[k]
  }

  function Get<V>(c: Cache<V>, key: string, now: real): (Cache<V>, Option<V>) {
    if key !in c.store then (c.(misses := c.misses + 1), None)
    else if now > c.store[key].expiresAt then (c.(store := c.store - {key}, misses := c.misses + 1), None)
    else (c.(hits := c.hits + 1), Some(c.store[key].value))
  }

  /** A set reads the clock at `t1` if it evicts, and at `t2` for the expiry. */
  function Set<V>(c: Cache<V>, maxSize: int, key: string, value: V, ttl: real, t1: real, t2: real): Cache<V> {
    var store := if |c.store| >= maxSize then EvictExpired(c.store, t1) else c.store;
    c.(store := store[key := Entry(t2 + ttl, value)])
  }

  class TTLCache<V> {
    const defaultTtl: real
    const maxSize: int
    var store: map<string, Entry<V>>
    var hits: nat
    var misses: nat

    ghost function View(): Cache<V>
      reads this
    {
      Cache(store, hits, misses)
    }

    constructor (defaultTtl: real, maxSize: int)
      ensures View() == Cache(map[], 0, 0) && this.defaultTtl == defaultTtl && this.maxSize == maxSize
    {
      this.defaultTtl, this.maxSize := defaultTtl, maxSize;
      store, hits, misses := map[], 0, 0;
    }

    method Lookup(key: string, now: real) returns (r: Option<V>)
      modifies this
      ensures (View(), r) == Get(old(View()), key, now)
    {
      if key !in store {
        misses := misses + 1;
        return None;
      }
      var e := store[key];
      if now > e.expiresAt {
        store := store - {key};
        misses := misses + 1;
        return None;
      }
      hits := hits + 1;
      r := Some(e.value);
    }

    method Store(key: string, value: V, ttl: Option<real>, t1: real, t2: real)
      modifies this
      ensures View() == Set(old(View()), maxSize, key, value, OrElse(ttl, defaultTtl), t1, t2)
    {
      if |store| >= maxSize {
        Evict(t1);
      }
      store := store[key := Entry(t2 + OrElse(ttl, defaultTtl), value)];
    }

    /** `_evict_expired`: collects the expired keys, then deletes them one by one. */
    method Evict(now: real)
      modifies this`store
      ensures store == EvictExpired(old(store), now)
    {
      var expired := set k | k in store && now > store[k].expiresAt;
      ghost var all := expired;
      while expired != {}
        invariant expired <= all
        invariant store == old(store) - (all - expired)
        decreases expired
      {
        var k :| k in expired;
        store := store - {k};
        expired := expired - {k};
      }
      assert store == old(store) - all;
    }

    method Invalidate(key: string)
      modifies this`store
      ensures store == old(store) - {key}
    {
      store := store - {key};
    }

    method Clear()
      modifies this`store
      ensures store == map[]
    {
      store := map[];
    }
  }

  // ----- runs, and the log they refine ----------------------------------------------------------

  datatype Op<V> =
    | DoGet(key: string, now: real)
    | DoSet(key: string, value: V, ttl: real, t1: real, t2: real)
    | DoInvalidate(key: string)
    | DoClear

  /** The cache after a run, and the answers of its gets in order. */
  function Play<V>(maxSize: int, ops: seq<Op<V>>): (Cache<V>, seq<Option<V>>) {
    if ops == [] then (Cache(map[], 0, 0), [])
    else
      var (c, answers) := Play(maxSize, ops[..|ops| - 1]);
      match ops[|ops| - 1]
      case DoGet(key, now) => var (c', r) := Get(c, key, now); (c', answers + [r])
      case DoSet(key, value, ttl, t1, t2) => (Set(c, maxSize, key, value, ttl, t1, t2), answers)
      case DoInvalidate(key) => (c.(store := c.store - {key}), answers)
      case DoClear => (c.(store := map[]), answers)
  }

  /** The last write of `key` in the log that was not invalidated or cleared. */
  function LastWrite<V>(ops: seq<Op<V>>, key: string): Option<Entry<V>> {
    if ops == [] then None
    else
      var init := ops[..|ops| - 1];
      match ops[|ops| - 1]
      case DoGet(_, _) => LastWrite(init, key)
      case DoSet(k, value, ttl, _, t2) => if k == key then Some(Entry(t2 + ttl, value)) else LastWrite(init, key)
      case DoInvalidate(k) => if k == key then None else LastWrite(init, key)
      case DoClear => None
  }

  /** What a get at `now` should answer by the log alone. */
  function Expected<V>(ops: seq<Op<V>>, key: string, now: real): Option<V> {
    var w := LastWrite(ops, key);
    if w.Some? && now <= w.value.expiresAt then Some(w.value.value) else None
  }

  function Answers<V>(ops: seq<Op<V>>): seq<Option<V>> {
    if ops == [] then []
    else
      var init := ops[..|ops| - 1];
      match ops[|ops| - 1]
      case DoGet(key, now) => Answers(init) + [Expected(init, key, now)]
      case _ => Answers(init)
  }

  ghost function Reading<V>(op: Op<V>, clock: real): real {
    match op
    case DoGet(_, now) => now
    case DoSet(_, _, _, _, t2) => t2
    case _ => clock
  }

  ghost function Clock<V>(ops: seq<Op<V>>): real {
    if ops == [] then 0.0 else Reading(ops[|ops| - 1], Clock(ops[..|ops| - 1]))
  }

  /** The clock never goes back. */
  ghost predicate Clocked<V>(ops: seq<Op<V>>) {
    ops == [] ||
    (&& Clocked(ops[..|ops| - 1])
     && match ops[|ops| - 1]
        case DoGet(_, now) => Clock(ops[..|ops| - 1]) <= now
        case DoSet(_, _, _, t1, t2) => Clock(ops[..|ops| - 1]) <= t1 <= t2
        case _ => true)
  }

  /** What is stored is the last write; what is not stored has no last write or an expired one. */
  ghost predicate Agrees<V>(store: map<string, Entry<V>>, ops: seq<Op<V>>, clock: real) {
    forall key :: if key in store then LastWrite(ops, key) == Some(store[key])
                  else LastWrite(ops, key) == None || clock > LastWrite(ops, key).value.expiresAt
  }

  lemma StepAgrees<V>(maxSize: int, ops: seq<Op<V>>)
    requires Clocked(ops) && ops != []
    requires Agrees(Play(maxSize, ops[..|ops| - 1]).0.store, ops[..|ops| - 1], Clock(ops[..|ops| - 1]))
    ensures Agrees(Play(maxSize, ops).0.store, ops, Clock(ops))
  {
    var init, op := ops[..|ops| - 1], ops[|ops| - 1];
    var before, after := Play(maxSize, init).0.store, Play(maxSize, ops).0.store;
    forall key
      ensures if key in after then LastWrite(ops, key) == Some(after[key])
              else LastWrite(ops, key) == None || Clock(ops) > LastWrite(ops, key).value.expiresAt
    {
      assert if key in before then LastWrite(init, key) == Some(before[key])
             else LastWrite(init, key) == None || Clock(init) > LastWrite(init, key).value.expiresAt;
    }
  }

  function Gets<V>(ops: seq<Op<V>>): nat {
    if ops == [] then 0 else Gets(ops[..|ops| - 1]) + (if ops[|ops| - 1].DoGet? then 1 else 0)
  }

  function Hits<V>(answers: seq<Option<V>>): nat {
    if answers == [] then 0 else Hits(answers[..|answers| - 1]) + (if answers[|answers| - 1].Some? then 1 else 0)
  }

  /** On a clock that does not go back, the cache answers every get as the plain log of writes would: a hit
      exactly when the last un-invalidated set has not expired, with that set's value. Hits and misses
      count the answers. */
  lemma {:induction false} RefinesLog<V>(maxSize: int, ops: seq<Op<V>>)
    requires Clocked(ops)
    ensures var (c, answers) := Play(maxSize, ops);
            && answers == Answers(ops) && Agrees(c.store, ops, Clock(ops))
            && c.hits + c.misses == Gets(ops) == |answers| && c.hits == Hits(answers)
  {
    if ops == [] {
    } else {
      var init, op := ops[..|ops| - 1], ops[|ops| - 1];
      RefinesLog(maxSize, init);
      StepAgrees(maxSize, ops);
      var (c, answers) := Play(maxSize, init);
      if op.DoGet? {
        assert if op.key in c.store then LastWrite(init, op.key) == Some(c.store[op.key])
               else LastWrite(init, op.key) == None || Clock(init) > LastWrite(init, op.key).value.expiresAt;
        var r := Get(c, op.key, op.now).1;
        assert (answers + [r])[..|answers|] == answers;
      }
    }
  }

  /** So the configured size, which decides when eviction runs, cannot be told from the answers. */
  lemma SizeIsInvisible<V>(m: int, n: int, ops: seq<Op<V>>)
    requires Clocked(ops)
    ensures Play(m, ops).1 == Play(n, ops).1
  {
    RefinesLog(m, ops);
    RefinesLog(n, ops);
  }

  /** Eviction: below the configured size a set deletes nothing, and a cache that has grown beyond it holds nothing but
      entries that were alive at its last set. */
  lemma SetEvicts<V>(c: Cache<V>, maxSize: int, key: string, value: V, ttl: real, t1: real, t2: real)
    requires maxSize >= 1
    ensures var store := Set(c, maxSize, key, value, ttl, t1, t2).store;
            && store.Keys <= c.store.Keys + {key}
            && (|c.store| < maxSize ==> store.Keys == c.store.Keys + {key})
            && (forall k :: k in c.store && k != key && t1 <= c.store[k].expiresAt ==> k in store)
            && (|store| > maxSize ==> forall k :: k in store && k != key ==> t1 <= store[k].expiresAt)
  {
    var store := Set(c, maxSize, key, value, ttl, t1, t2).store;
    if |c.store| < maxSize {
      assert store.Keys == c.store.Keys + {key};
      if key in c.store {
        assert store.Keys == c.store.Keys;
      } else {
        assert |c.store.Keys + {key}| == |c.store.Keys| + 1;
      }
      assert |store| == |store.Keys| && |c.store| == |c.store.Keys|;
    }
  }
}
