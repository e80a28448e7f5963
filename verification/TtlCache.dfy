/**
 The time-bounded, least-recently-used cache behind the decorator.

 The store is an ordered dictionary, least recently touched first. Threads meet only in its locked sections, so a run of
 the cache is a sequence of these sections in any order; the wrapped function runs between them.
 */
module TtlCache {

  import opened Wrappers

  type Key = int
  type Value = int

  datatype Entry = Entry(expiresAt: real, value: Value)

  /** An ordered dictionary: its entries, and its keys in order. */
  datatype Store = Store(order: seq<Key>, entries: map<Key, Entry>)

  const EMPTY := Store([], map[])

  /** The order without the key. */
  function Without(order: seq<Key>, k: Key): seq<Key> {
    if order == [] then [] else if order[0] == k then order[1..] else [order[0]] + Without(order[1..], k)
  }

  function Delete(s: Store, k: Key): Store {
    Store(Without(s.order, k), s.entries - {k})
  }

  /** Assign the key and move it to the end. */
  function Touch(s: Store, k: Key, e: Entry): Store {
    Store(Without(s.order, k) + [k], s.entries[k := e])
  }

  function DropOldest(s: Store): Store {
    if s.order == [] then s else Store(s.order[1..], s.entries - {s.order[0]})
  }

  /** Drop the oldest key until the store fits. */
  function Trim(s: Store, maxSize: nat): Store
    decreases |s.order|
  {
    if |s.order| > maxSize then Trim(DropOldest(s), maxSize) else s
  }

  datatype Cache = Cache(store: Store, hits: nat, misses: nat)

  function Get(c: Cache, k: Key, now: real): (Cache, Option<Value>) {
    if k !in c.store.entries then (c.(misses := c.misses + 1), None)
    else
      var e := c.store.entries[k];
      if e.expiresAt < now then (c.(store := Delete(c.store, k), misses := c.misses + 1), None)
      else (c.(store := Touch(c.store, k, e), hits := c.hits + 1), Some(e.value))
  }

  function Put(c: Cache, k: Key, e: Entry, maxSize: nat): Cache {
    c.(store := Trim(Touch(c.store, k, e), maxSize))
  }

  class CacheStore {
    var store: Store
    var hits: nat
    var misses: nat
    const ttl: real
    const maxSize: nat

    function View(): Cache
      reads this
    {
      Cache(store, hits, misses)
    }

    constructor (ttl: real, maxSize: nat)
      ensures this.ttl == ttl && this.maxSize == maxSize && View() == Cache(EMPTY, 0, 0)
    {
      this.ttl, this.maxSize := ttl, maxSize;
      store, hits, misses := EMPTY, 0, 0;
    }

    method GetEntry(k: Key, now: real) returns (r: Option<Value>)
      modifies this
      ensures (View(), r) == Get(old(View()), k, now)
    {
      if k !in store.entries {
        misses := misses + 1;
        return None;
      }
      var e := store.entries[k];
      if e.expiresAt < now {
        store := Delete(store, k);
        misses := misses + 1;
        return None;
      }
      store := Touch(store, k, e);
      hits := hits + 1;
      return Some(e.value);
    }

    method PutEntry(k: Key, v: Value, now: real)
      modifies this
      ensures View() == Put(old(View()), k, Entry(now + ttl, v), maxSize)
    {
      store := Touch(store, k, Entry(now + ttl, v));
      ghost var full := store;
      while |store.order| > maxSize
        invariant Trim(store, maxSize) == Trim(full, maxSize) && hits == old(hits) && misses == old(misses)
        decreases |store.order|
      {
        store := DropOldest(store);
      }
    }

    method Clear()
      modifies this
      ensures View() == old(View()).(store := EMPTY)
    {
      store := EMPTY;
    }

    /**
     The decorated function, with nothing interleaved: `result` is what the wrapped function returns if it is called,
     or nothing if it raises; the second time is read when the result is stored.
     */
    method Wrapped(k: Key, now: real, result: Option<Value>, later: real) returns (r: Option<Value>, called: bool)
      modifies this
      ensures var (c, hit) := Get(old(View()), k, now);
        && called == hit.None? && r == (if hit.Some? then hit else result)
        && View() == if hit.None? && result.Some? then Put(c, k, Entry(later + ttl, result.value), maxSize) else c
    {
      r := GetEntry(k, now);
      called := r.None?;
      if called {
        r := result;
        if result.Some? {
          PutEntry(k, result.value, later);
        }
      }
    }
  }

  // ---------------------------------------------------------------------------
  // Every sequence of locked sections
  // ---------------------------------------------------------------------------

  /** A put stores what the wrapped function has just returned for the key. */
  datatype Section = GetSection(key: Key, now: real) | PutSection(key: Key, value: Value, now: real) | ClearSection

  /** The cache, when each key was last touched, the last put of each key, and the number of gets. */
  datatype Tracked = Tracked(cache: Cache, clock: nat, touched: map<Key, nat>, lastPut: map<Key, Section>, gets: nat)

  function Step(ttl: real, maxSize: nat, t: Tracked, s: Section): Tracked {
    match s
    case GetSection(k, now) =>
      var (c, r) := Get(t.cache, k, now);
      Tracked(c, t.clock + 1, if r.Some? then t.touched[k := t.clock] else t.touched, t.lastPut, t.gets + 1)
    case PutSection(k, v, now) =>
      Tracked(Put(t.cache, k, Entry(now + ttl, v), maxSize), t.clock + 1,
              t.touched[k := t.clock], t.lastPut[k := s], t.gets)
    case ClearSection => t.(cache := t.cache.(store := EMPTY), clock := t.clock + 1)
  }

  function Run(ttl: real, maxSize: nat, sections: seq<Section>): Tracked {
    if sections == [] then Tracked(Cache(EMPTY, 0, 0), 0, map[], map[], 0)
    else Step(ttl, maxSize, Run(ttl, maxSize, sections[..|sections| - 1]), sections[|sections| - 1])
  }

  /** The order of the keys is the order in which they were last touched. */
  ghost predicate ByLastTouch(order: seq<Key>, touched: map<Key, nat>, clock: nat) {
    && (forall i :: 0 <= i < |order| ==> order[i] in touched && touched[order[i]] < clock)
    && (forall i, j :: 0 <= i < j < |order| ==> touched[order[i]] < touched[order[j]])
  }

  /** The entries are those of the listed keys. */
  ghost predicate Matches(s: Store) {
    forall k {:trigger k in s.entries} :: k in s.order <==> k in s.entries
  }

  lemma TailByLastTouch(order: seq<Key>, touched: map<Key, nat>, clock: nat)
    requires order != [] && ByLastTouch(order, touched, clock)
    ensures ByLastTouch(order[1..], touched, clock)
    ensures forall x :: x in order <==> x == order[0] || x in order[1..]
    ensures forall x :: x in order[1..] ==> x in touched && touched[order[0]] < touched[x]
  {
    assert order == [order[0]] + order[1..];
    forall x | x in order[1..] ensures x in touched && touched[order[0]] < touched[x] {
      var i :| 0 <= i < |order[1..]| && order[1..][i] == x;
      assert order[i + 1] == x;
    }
  }

  lemma {:induction false} WithoutMember(order: seq<Key>, k: Key, touched: map<Key, nat>, clock: nat, x: Key)
    requires ByLastTouch(order, touched, clock)
    ensures x in Without(order, k) <==> x in order && x != k
  {
    if order != [] {
      TailByLastTouch(order, touched, clock);
      WithoutMember(order[1..], k, touched, clock, x);
    }
  }

  lemma {:induction false} WithoutInOrder(order: seq<Key>, k: Key, touched: map<Key, nat>, clock: nat)
    requires ByLastTouch(order, touched, clock)
    ensures ByLastTouch(Without(order, k), touched, clock)
    ensures |Without(order, k)| == if k in order then |order| - 1 else |order|
  {
    if order != [] {
      TailByLastTouch(order, touched, clock);
      if order[0] != k {
        WithoutInOrder(order[1..], k, touched, clock);
        var w := Without(order[1..], k);
        forall i | 0 <= i < |w| ensures w[i] in touched && touched[order[0]] < touched[w[i]] {
          WithoutMember(order[1..], k, touched, clock, w[i]);
        }
      }
    }
  }

  lemma WithoutKeeps(order: seq<Key>, k: Key, touched: map<Key, nat>, clock: nat)
    requires ByLastTouch(order, touched, clock)
    ensures var r := Without(order, k);
      && ByLastTouch(r, touched, clock) && k !in r
      && (forall x :: x in r <==> x in order && x != k)
      && |r| == if k in order then |order| - 1 else |order|
  {
    WithoutInOrder(order, k, touched, clock);
    forall x ensures x in Without(order, k) <==> x in order && x != k {
      WithoutMember(order, k, touched, clock, x);
    }
  }

  lemma {:induction false} WithoutAbsent(order: seq<Key>, k: Key)
    requires k !in order
    ensures Without(order, k) == order
  {
    if order != [] {
      WithoutAbsent(order[1..], k);
      assert order == [order[0]] + order[1..];
    }
  }

  lemma DeleteKeeps(s: Store, k: Key, touched: map<Key, nat>, clock: nat)
    requires Matches(s) && ByLastTouch(s.order, touched, clock)
    ensures Matches(Delete(s, k)) && ByLastTouch(Delete(s, k).order, touched, clock)
    ensures |Delete(s, k).order| <= |s.order|
  {
    WithoutKeeps(s.order, k, touched, clock);
  }

  lemma TouchKeeps(s: Store, k: Key, e: Entry, touched: map<Key, nat>, clock: nat)
    requires Matches(s) && ByLastTouch(s.order, touched, clock)
    ensures var r := Touch(s, k, e);
      && Matches(r) && ByLastTouch(r.order, touched[k := clock], clock + 1)
      && |r.order| == if k in s.order then |s.order| else |s.order| + 1
  {
    WithoutKeeps(s.order, k, touched, clock);
    var w := Without(s.order, k);
    forall i | 0 <= i < |w| ensures w[i] != k {
      assert w[i] in w;
    }
  }

  lemma DropKeeps(s: Store, touched: map<Key, nat>, clock: nat)
    requires s.order != [] && Matches(s) && ByLastTouch(s.order, touched, clock)
    ensures var d := DropOldest(s);
      && Matches(d) && ByLastTouch(d.order, touched, clock) && d.order == s.order[1..]
      && (forall k :: k in d.entries ==> k in s.entries && d.entries[k] == s.entries[k])
  {
    TailByLastTouch(s.order, touched, clock);
  }

  /** Trimming drops the least recently touched keys and nothing else. */
  lemma {:induction false} TrimKeeps(s: Store, maxSize: nat, touched: map<Key, nat>, clock: nat)
    requires Matches(s) && ByLastTouch(s.order, touched, clock)
    ensures var r := Trim(s, maxSize);
      && Matches(r) && ByLastTouch(r.order, touched, clock)
      && |r.order| == (if |s.order| > maxSize then maxSize else |s.order|)
      && r.order == s.order[|s.order| - |r.order|..]
      && (forall k :: k in r.entries ==> k in s.entries && r.entries[k] == s.entries[k])
    decreases |s.order|
  {
    if |s.order| > maxSize {
      DropKeeps(s, touched, clock);
      TrimKeeps(DropOldest(s), maxSize, touched, clock);
    }
  }

  /** The entry is what the last put of its key stored. */
  predicate FromLastPut(ttl: real, lastPut: map<Key, Section>, k: Key, e: Entry) {
    k in lastPut && lastPut[k].PutSection? && lastPut[k].key == k
    && lastPut[k].value == e.value && e.expiresAt == lastPut[k].now + ttl
  }

  ghost predicate AllFromLastPut(ttl: real, lastPut: map<Key, Section>, entries: map<Key, Entry>) {
    forall k :: k in entries ==> FromLastPut(ttl, lastPut, k, entries[k])
  }

  ghost predicate Inv(ttl: real, maxSize: nat, t: Tracked) {
    && Matches(t.cache.store) && |t.cache.store.order| <= maxSize
    && ByLastTouch(t.cache.store.order, t.touched, t.clock)
    && AllFromLastPut(ttl, t.lastPut, t.cache.store.entries)
    && t.cache.hits + t.cache.misses == t.gets
  }

  lemma GetInv(ttl: real, maxSize: nat, t: Tracked, k: Key, now: real)
    requires Inv(ttl, maxSize, t)
    ensures Inv(ttl, maxSize, Step(ttl, maxSize, t, GetSection(k, now)))
  {
    DeleteKeeps(t.cache.store, k, t.touched, t.clock);
    if k in t.cache.store.entries {
      TouchKeeps(t.cache.store, k, t.cache.store.entries[k], t.touched, t.clock);
    }
  }

  /** The store after a put. */
  lemma PutKeeps(s: Store, k: Key, e: Entry, maxSize: nat, touched: map<Key, nat>, clock: nat) returns (r: Store)
    requires Matches(s) && ByLastTouch(s.order, touched, clock)
    ensures r == Trim(Touch(s, k, e), maxSize)
    ensures Matches(r) && ByLastTouch(r.order, touched[k := clock], clock + 1) && |r.order| <= maxSize
    ensures forall x :: x in r.entries ==>
      if x == k then r.entries[x] == e else x in s.entries && r.entries[x] == s.entries[x]
  {
    TouchKeeps(s, k, e, touched, clock);
    TrimKeeps(Touch(s, k, e), maxSize, touched[k := clock], clock + 1);
    r := Trim(Touch(s, k, e), maxSize);
  }

  lemma PutFromLastPut(ttl: real, lastPut: map<Key, Section>, before: map<Key, Entry>,
    k: Key, v: Value, now: real, r: map<Key, Entry>)
    requires AllFromLastPut(ttl, lastPut, before)
    requires forall x :: x in r ==> if x == k then r[x] == Entry(now + ttl, v) else x in before && r[x] == before[x]
    ensures AllFromLastPut(ttl, lastPut[k := PutSection(k, v, now)], r)
  {
    forall x | x in r ensures FromLastPut(ttl, lastPut[k := PutSection(k, v, now)], x, r[x]) {
      assert x == k || FromLastPut(ttl, lastPut, x, before[x]);
    }
  }

  lemma PutInvFrom(ttl: real, maxSize: nat, t: Tracked, k: Key, v: Value, now: real, r: Store)
    requires Inv(ttl, maxSize, t)
    requires Matches(r) && ByLastTouch(r.order, t.touched[k := t.clock], t.clock + 1) && |r.order| <= maxSize
    requires AllFromLastPut(ttl, t.lastPut[k := PutSection(k, v, now)], r.entries)
    ensures Inv(ttl, maxSize, Tracked(t.cache.(store := r), t.clock + 1, t.touched[k := t.clock],
                                      t.lastPut[k := PutSection(k, v, now)], t.gets))
  {
  }

  lemma PutInv(ttl: real, maxSize: nat, t: Tracked, k: Key, v: Value, now: real)
    requires Inv(ttl, maxSize, t)
    ensures Inv(ttl, maxSize, Step(ttl, maxSize, t, PutSection(k, v, now)))
  {
    var r := PutKeeps(t.cache.store, k, Entry(now + ttl, v), maxSize, t.touched, t.clock);
    PutFromLastPut(ttl, t.lastPut, t.cache.store.entries, k, v, now, r.entries);
    PutInvFrom(ttl, maxSize, t, k, v, now, r);
  }

  lemma {:induction false} RunInv(ttl: real, maxSize: nat, sections: seq<Section>)
    ensures Inv(ttl, maxSize, Run(ttl, maxSize, sections))
  {
    if sections != [] {
      var before, last := Run(ttl, maxSize, sections[..|sections| - 1]), sections[|sections| - 1];
      RunInv(ttl, maxSize, sections[..|sections| - 1]);
      match last
      case GetSection(k, now) => GetInv(ttl, maxSize, before, k, now);
      case PutSection(k, v, now) => PutInv(ttl, maxSize, before, k, v, now);
      case ClearSection =>
    }
  }

  lemma {:induction false} LastPutIsInRun(ttl: real, maxSize: nat, sections: seq<Section>, k: Key)
    requires k in Run(ttl, maxSize, sections).lastPut
    ensures Run(ttl, maxSize, sections).lastPut[k] in sections
  {
    var rest, last := sections[..|sections| - 1], sections[|sections| - 1];
    assert sections == rest + [last];
    if !(last.PutSection? && last.key == k) {
      LastPutIsInRun(ttl, maxSize, rest, k);
    }
  }

  /**
   A hit, at any point of any run, returns the value of the last put of that key, stored no longer than the time to live
   before: a value the wrapped function itself returned for the key.
   */
  lemma HitsAreRecent(ttl: real, maxSize: nat, sections: seq<Section>, k: Key, now: real)
    requires Get(Run(ttl, maxSize, sections).cache, k, now).1.Some?
    ensures k in Run(ttl, maxSize, sections).lastPut
    ensures var put := Run(ttl, maxSize, sections).lastPut[k];
      && put in sections && put.PutSection? && put.key == k
      && Get(Run(ttl, maxSize, sections).cache, k, now).1 == Some(put.value)
      && now - put.now <= ttl
  {
    RunInv(ttl, maxSize, sections);
    LastPutIsInRun(ttl, maxSize, sections, k);
  }

  // What the cache promises to answer.

  /** A key that is in the store is answered exactly as long as its last put is no older than the time to live. */
  lemma StoredIsAnsweredIff(ttl: real, maxSize: nat, sections: seq<Section>, k: Key, now: real)
    requires k in Run(ttl, maxSize, sections).cache.store.entries
    ensures k in Run(ttl, maxSize, sections).lastPut && Run(ttl, maxSize, sections).lastPut[k].PutSection?
    ensures var t := Run(ttl, maxSize, sections); var put := t.lastPut[k];
      Get(t.cache, k, now).1 == if now - put.now <= ttl then Some(put.value) else None
  {
    RunInv(ttl, maxSize, sections);
    var t := Run(ttl, maxSize, sections);
    assert FromLastPut(ttl, t.lastPut, k, t.cache.store.entries[k]);
  }

  /** The key has been put, and since its last put the store has not been cleared nor a get found the key expired. */
  predicate IsLive(ttl: real, maxSize: nat, sections: seq<Section>, k: Key) {
    sections != [] &&
    var rest, last := sections[..|sections| - 1], sections[|sections| - 1];
    match last
    case PutSection(x, _, _) => x == k || IsLive(ttl, maxSize, rest, k)
    case GetSection(x, now) =>
      IsLive(ttl, maxSize, rest, k) && (x == k ==> !IsExpired(ttl, Run(ttl, maxSize, rest), k, now))
    case ClearSection => false
  }

  predicate IsExpired(ttl: real, t: Tracked, k: Key, now: real) {
    k in t.lastPut && t.lastPut[k].PutSection? && now - t.lastPut[k].now > ttl
  }

  /** The keys touched since the key was. */
  function TouchedSince(t: Tracked, k: Key): set<Key> {
    set x | x in t.touched && k in t.touched && t.touched[x] > t.touched[k]
  }

  lemma PutStoresOnlyKey(ttl: real, maxSize: nat, t: Tracked, x: Key, v: Value, now: real, k: Key)
    requires Inv(ttl, maxSize, t) && k in Step(ttl, maxSize, t, PutSection(x, v, now)).cache.store.entries
    ensures x == k || k in t.cache.store.entries
  {
    var r := PutKeeps(t.cache.store, x, Entry(now + ttl, v), maxSize, t.touched, t.clock);
  }

  lemma GetKeepsFresh(ttl: real, maxSize: nat, t: Tracked, x: Key, now: real, k: Key)
    requires Inv(ttl, maxSize, t)
    ensures k in Step(ttl, maxSize, t, GetSection(x, now)).cache.store.entries
      <==> k in t.cache.store.entries && (x == k ==> !IsExpired(ttl, t, k, now))
  {
    assert k in t.cache.store.entries ==> FromLastPut(ttl, t.lastPut, k, t.cache.store.entries[k]);
  }

  lemma {:induction false} StoredIsLive(ttl: real, maxSize: nat, sections: seq<Section>, k: Key)
    requires k in Run(ttl, maxSize, sections).cache.store.entries
    ensures IsLive(ttl, maxSize, sections, k)
  {
    var rest, last := sections[..|sections| - 1], sections[|sections| - 1];
    var t := Run(ttl, maxSize, rest);
    RunInv(ttl, maxSize, rest);
    match last
    case PutSection(x, v, now) =>
      PutStoresOnlyKey(ttl, maxSize, t, x, v, now, k);
      if x != k {
        StoredIsLive(ttl, maxSize, rest, k);
      }
    case GetSection(x, now) =>
      GetKeepsFresh(ttl, maxSize, t, x, now, k);
      StoredIsLive(ttl, maxSize, rest, k);
    case ClearSection =>
  }

  /** A put that makes the store overflow drops a key only if enough others have been touched since. */
  lemma PutKeepsRecent(s: Store, x: Key, e: Entry, maxSize: nat, touched: map<Key, nat>, clock: nat, k: Key,
                       since: set<Key>)
    requires Matches(s) && ByLastTouch(s.order, touched, clock) && |s.order| <= maxSize && k in s.order && k != x
    requires forall y :: y in s.order && touched[y] > touched[k] ==> y in since
    requires x in since && |since| < maxSize
    ensures k in Trim(Touch(s, x, e), maxSize).entries
  {
    TouchKeeps(s, x, e, touched, clock);
    WithoutKeeps(s.order, x, touched, clock);
    SecondIsKept(Touch(s, x, e), maxSize, touched[x := clock], clock + 1, k, since, s.order, x, touched);
  }

  lemma SecondIsKept(r: Store, maxSize: nat, touched: map<Key, nat>, clock: nat, k: Key, since: set<Key>,
                     before: seq<Key>, x: Key, was: map<Key, nat>)
    requires Matches(r) && ByLastTouch(r.order, touched, clock) && |r.order| <= maxSize + 1 && k in r.order && k != x
    requires forall y :: y in r.order && y != x ==> y in before && y in was && touched[y] == was[y]
    requires forall y :: y in before && y in was && was[y] > was[k] ==> y in since
    requires x in since && |since| < maxSize
    ensures k in Trim(r, maxSize).entries
  {
    if |r.order| > maxSize {
      if k == r.order[0] {
        OthersAreSince(r.order, touched, clock, since, before, x, was);
        DistinctFits(r.order[1..], touched, clock, since);
      }
      assert k in r.order[1..];
      TrimKeeps(r, maxSize, touched, clock);
      assert Trim(r, maxSize).order == r.order[1..];
    }
  }

  /** What follows a key in the order was touched after it. */
  lemma OthersAreSince(order: seq<Key>, touched: map<Key, nat>, clock: nat, since: set<Key>, before: seq<Key>, x: Key,
                       was: map<Key, nat>)
    requires order != [] && order[0] != x && ByLastTouch(order, touched, clock)
    requires forall y :: y in order && y != x ==> y in before && y in was && touched[y] == was[y]
    requires forall y :: y in before && y in was && was[y] > was[order[0]] ==> y in since
    requires x in since
    ensures ByLastTouch(order[1..], touched, clock) && forall i :: 0 <= i < |order[1..]| ==> order[1..][i] in since
  {
    TailByLastTouch(order, touched, clock);
    forall i | 0 <= i < |order[1..]| ensures order[1..][i] in since {
      assert order[1..][i] == order[i + 1] && order[i + 1] in order;
      assert touched[order[i + 1]] > touched[order[0]];
    }
  }

  lemma {:induction false} DistinctFits(order: seq<Key>, touched: map<Key, nat>, clock: nat, keys: set<Key>)
    requires ByLastTouch(order, touched, clock) && forall i :: 0 <= i < |order| ==> order[i] in keys
    ensures |order| <= |keys|
  {
    if order != [] {
      TailByLastTouch(order, touched, clock);
      forall i | 0 <= i < |order[1..]| ensures order[1..][i] in keys - {order[0]} {
        assert order[1..][i] == order[i + 1];
      }
      DistinctFits(order[1..], touched, clock, keys - {order[0]});
    }
  }

  /**
   A key that is live and since whose last touch fewer other keys have been touched than fit is in the store, and so is
   answered as long as it is fresh.
   */
  lemma {:induction false} LiveIsStored(ttl: real, maxSize: nat, sections: seq<Section>, k: Key)
    requires IsLive(ttl, maxSize, sections, k) && |TouchedSince(Run(ttl, maxSize, sections), k)| < maxSize
    ensures k in Run(ttl, maxSize, sections).cache.store.entries
  {
    var rest, last := sections[..|sections| - 1], sections[|sections| - 1];
    var t := Run(ttl, maxSize, rest);
    RunInv(ttl, maxSize, rest);
    match last
    case PutSection(x, v, now) =>
      if x == k {
        NewestIsKept(t.cache.store, k, Entry(now + ttl, v), maxSize, t.touched, t.clock);
      } else {
        LiveWasTouched(ttl, maxSize, rest, k);
        TouchedByPut(ttl, maxSize, t, k, x, v, now);
        LiveIsStored(ttl, maxSize, rest, k);
        LiveStaysStored(ttl, maxSize, t, k, x, v, now);
      }
    case GetSection(x, now) =>
      LiveWasTouched(ttl, maxSize, rest, k);
      if !(x == k && Get(t.cache, k, now).1.Some?) {
        TouchedByGet(ttl, maxSize, t, k, x, now);
        LiveIsStored(ttl, maxSize, rest, k);
        GetKeepsFresh(ttl, maxSize, t, x, now, k);
      }
  }

  lemma LiveStaysStored(ttl: real, maxSize: nat, t: Tracked, k: Key, x: Key, v: Value, now: real)
    requires Inv(ttl, maxSize, t) && k in t.cache.store.entries && x != k
    requires |TouchedSince(t, k) + {x}| < maxSize
    ensures k in Step(ttl, maxSize, t, PutSection(x, v, now)).cache.store.entries
  {
    PutKeepsRecent(t.cache.store, x, Entry(now + ttl, v), maxSize, t.touched, t.clock, k, TouchedSince(t, k) + {x});
  }

  lemma TouchedByPut(ttl: real, maxSize: nat, t: Tracked, k: Key, x: Key, v: Value, now: real)
    requires k in t.touched && x != k && TouchedBefore(t)
    ensures TouchedSince(Step(ttl, maxSize, t, PutSection(x, v, now)), k) == TouchedSince(t, k) + {x}
    ensures |TouchedSince(t, k)| <= |TouchedSince(t, k) + {x}|
  {
    SizeOfSubset(TouchedSince(t, k), TouchedSince(t, k) + {x});
  }

  lemma TouchedByGet(ttl: real, maxSize: nat, t: Tracked, k: Key, x: Key, now: real)
    requires k in t.touched && TouchedBefore(t)
    requires x == k ==> Get(t.cache, k, now).1.None?
    ensures |TouchedSince(t, k)| <= |TouchedSince(Step(ttl, maxSize, t, GetSection(x, now)), k)|
  {
    SizeOfSubset(TouchedSince(t, k), TouchedSince(Step(ttl, maxSize, t, GetSection(x, now)), k));
  }

  lemma SizeOfSubset(a: set<Key>, b: set<Key>)
    requires a <= b
    ensures |a| <= |b|
  {
    assert b == a + (b - a);
  }

  lemma NewestIsKept(s: Store, k: Key, e: Entry, maxSize: nat, touched: map<Key, nat>, clock: nat)
    requires Matches(s) && ByLastTouch(s.order, touched, clock) && maxSize > 0
    ensures k in Trim(Touch(s, k, e), maxSize).entries
  {
    TouchKeeps(s, k, e, touched, clock);
    var r := Touch(s, k, e);
    TrimKeeps(r, maxSize, touched[k := clock], clock + 1);
    var o := Trim(r, maxSize).order;
    assert o[|o| - 1] == r.order[|r.order| - 1] == k;
    assert k in o;
  }

  ghost predicate TouchedBefore(t: Tracked) {
    forall x :: x in t.touched ==> t.touched[x] < t.clock
  }

  lemma TouchedStep(ttl: real, maxSize: nat, t: Tracked, s: Section)
    requires TouchedBefore(t)
    ensures TouchedBefore(Step(ttl, maxSize, t, s)) && t.touched.Keys <= Step(ttl, maxSize, t, s).touched.Keys
    ensures s.PutSection? ==> s.key in Step(ttl, maxSize, t, s).touched
  {
  }

  /** A live key has been touched, and every touch is before the present. */
  lemma {:induction false} LiveWasTouched(ttl: real, maxSize: nat, sections: seq<Section>, k: Key)
    ensures IsLive(ttl, maxSize, sections, k) ==> k in Run(ttl, maxSize, sections).touched
    ensures TouchedBefore(Run(ttl, maxSize, sections))
  {
    if sections != [] {
      var rest, last := sections[..|sections| - 1], sections[|sections| - 1];
      LiveWasTouched(ttl, maxSize, rest, k);
      TouchedStep(ttl, maxSize, Run(ttl, maxSize, rest), last);
    }
  }

  /** The gets that were answered. */
  function Answered(ttl: real, maxSize: nat, sections: seq<Section>): nat {
    if sections == [] then 0
    else
      var rest, last := sections[..|sections| - 1], sections[|sections| - 1];
      Answered(ttl, maxSize, rest) +
      if last.GetSection? && Get(Run(ttl, maxSize, rest).cache, last.key, last.now).1.Some? then 1 else 0
  }

  lemma AnswerIsHit(ttl: real, maxSize: nat, t: Tracked, s: Section)
    ensures Step(ttl, maxSize, t, s).cache.hits
      == t.cache.hits + if s.GetSection? && Get(t.cache, s.key, s.now).1.Some? then 1 else 0
  {
  }

  /** The hits are the gets that were answered. */
  lemma {:induction false} HitsAreAnswers(ttl: real, maxSize: nat, sections: seq<Section>)
    ensures Run(ttl, maxSize, sections).cache.hits == Answered(ttl, maxSize, sections)
  {
    if sections != [] {
      var rest, last := sections[..|sections| - 1], sections[|sections| - 1];
      HitsAreAnswers(ttl, maxSize, rest);
      AnswerIsHit(ttl, maxSize, Run(ttl, maxSize, rest), last);
    }
  }

  /** A put drops at most one key, and only the one touched least recently: the first in the order. */
  lemma PutEvictsLeastRecent(ttl: real, maxSize: nat, sections: seq<Section>, k: Key, v: Value, now: real)
    ensures var s := Run(ttl, maxSize, sections).cache.store;
      var s' := Put(Run(ttl, maxSize, sections).cache, k, Entry(now + ttl, v), maxSize).store;
      s'.order == if maxSize == 0 then []
                  else if k !in s.order && |s.order| == maxSize then s.order[1..] + [k] else Without(s.order, k) + [k]
  {
    RunInv(ttl, maxSize, sections);
    var t := Run(ttl, maxSize, sections);
    PutOrder(t.cache.store, k, Entry(now + ttl, v), maxSize, t.touched, t.clock);
  }

  lemma PutOrder(s: Store, k: Key, e: Entry, maxSize: nat, touched: map<Key, nat>, clock: nat)
    requires Matches(s) && ByLastTouch(s.order, touched, clock) && |s.order| <= maxSize
    ensures Trim(Touch(s, k, e), maxSize).order ==
      if maxSize == 0 then []
      else if k !in s.order && |s.order| == maxSize then s.order[1..] + [k] else Without(s.order, k) + [k]
  {
    TouchKeeps(s, k, e, touched, clock);
    TrimKeeps(Touch(s, k, e), maxSize, touched[k := clock], clock + 1);
    if k !in s.order {
      WithoutAbsent(s.order, k);
    }
  }

  /** The size bound, the order of last touch, and the hit count, after any run. */
  lemma StoreAlwaysOrdered(ttl: real, maxSize: nat, sections: seq<Section>)
    ensures var t := Run(ttl, maxSize, sections);
      && |t.cache.store.order| <= maxSize && Matches(t.cache.store)
      && ByLastTouch(t.cache.store.order, t.touched, t.clock)
      && t.cache.hits + t.cache.misses == t.gets
  {
    RunInv(ttl, maxSize, sections);
  }

  // ---------------------------------------------------------------------------
  // Any number of threads calling the decorated function
  // ---------------------------------------------------------------------------

  type CallId = nat

  /** A call that missed and invokes the function, has its result, has returned, or has raised what it raised. */
  datatype Call = Calling(key: Key) | Holding(key: Key, value: Value) | Returned(key: Key, value: Value) | Raised

  /** The locked sections so far, the calls, and what the function was invoked for and returned, in order. */
  datatype World = World(sections: seq<Section>, calls: map<CallId, Call>, log: seq<(Key, Value)>)

  datatype Move =
    | Begin(call: CallId, key: Key, now: real)
    | Invoke(call: CallId)
    | Raise(call: CallId)
    | Finish(call: CallId, now: real)
    | Forget

  /** The settings of the decorator, and the function: what it returns may depend on how often it has been invoked. */
  datatype Decorated = Decorated(ttl: real, maxSize: nat, f: (Key, nat) -> Value)

  /** What the store would answer. */
  function Ask(d: Decorated, w: World, k: Key, now: real): Option<Value> {
    Get(Run(d.ttl, d.maxSize, w.sections).cache, k, now).1
  }

  function Act(d: Decorated, w: World, m: Move): World {
    match m
    case Begin(c, k, now) =>
      if c in w.calls then w
      else
        var r := Ask(d, w, k, now);
        w.(sections := w.sections + [GetSection(k, now)],
           calls := w.calls[c := if r.Some? then Returned(k, r.value) else Calling(k)])
    case Invoke(c) =>
      if c in w.calls && w.calls[c].Calling? then
        var k := w.calls[c].key;
        w.(calls := w.calls[c := Holding(k, d.f(k, |w.log|))], log := w.log + [(k, d.f(k, |w.log|))])
      else w
    case Raise(c) => if c in w.calls && w.calls[c].Calling? then w.(calls := w.calls[c := Raised]) else w
    case Finish(c, now) =>
      if c in w.calls && w.calls[c].Holding? then
        var q := w.calls[c];
        w.(sections := w.sections + [PutSection(q.key, q.value, now)], calls := w.calls[c := Returned(q.key, q.value)])
      else w
    case Forget => w.(sections := w.sections + [ClearSection])
  }

  function After(d: Decorated, moves: seq<Move>): World {
    if moves == [] then World([], map[], []) else Act(d, After(d, moves[..|moves| - 1]), moves[|moves| - 1])
  }

  /** Everything stored, held or returned for a key is what the function returned when it was invoked for that key. */
  ghost predicate FromFunction(d: Decorated, w: World) {
    && (forall s :: s in w.sections && s.PutSection? ==> (s.key, s.value) in w.log)
    && (forall c :: c in w.calls && (w.calls[c].Holding? || w.calls[c].Returned?) ==>
         (w.calls[c].key, w.calls[c].value) in w.log)
    && (forall i :: 0 <= i < |w.log| ==> w.log[i].1 == d.f(w.log[i].0, i))
  }

  /** A hit answers what the function returned for the key, stored no longer than the time to live before. */
  lemma HitIsFromFunction(d: Decorated, w: World, k: Key, now: real) returns (stored: real)
    requires FromFunction(d, w) && Ask(d, w, k, now).Some?
    ensures (k, Ask(d, w, k, now).value) in w.log && now - stored <= d.ttl
    ensures PutSection(k, Ask(d, w, k, now).value, stored) in w.sections
  {
    HitsAreRecent(d.ttl, d.maxSize, w.sections, k, now);
    stored := Run(d.ttl, d.maxSize, w.sections).lastPut[k].now;
  }

  lemma ActFromFunction(d: Decorated, w: World, m: Move)
    requires FromFunction(d, w)
    ensures FromFunction(d, Act(d, w, m))
  {
    if m.Begin? && Ask(d, w, m.key, m.now).Some? {
      var stored := HitIsFromFunction(d, w, m.key, m.now);
    }
  }

  lemma {:induction false} AlwaysFromFunction(d: Decorated, moves: seq<Move>)
    ensures FromFunction(d, After(d, moves))
  {
    if moves != [] {
      AlwaysFromFunction(d, moves[..|moves| - 1]);
      ActFromFunction(d, After(d, moves[..|moves| - 1]), moves[|moves| - 1]);
    }
  }

  /** In every interleaving, what a call returns is what some invocation for its key returned. */
  lemma CallsReturnFunctionValues(d: Decorated, moves: seq<Move>, c: CallId)
    requires c in After(d, moves).calls && After(d, moves).calls[c].Returned?
    ensures var w := After(d, moves);
      exists i :: 0 <= i < |w.log| && w.log[i].0 == w.calls[c].key && w.calls[c].value == d.f(w.log[i].0, i)
  {
    AlwaysFromFunction(d, moves);
    var w := After(d, moves);
    var i :| 0 <= i < |w.log| && w.log[i] == (w.calls[c].key, w.calls[c].value);
  }

  /** In every interleaving, what a call is answered from the store was returned for its key and is not too old. */
  lemma HitsAreFresh(d: Decorated, moves: seq<Move>, k: Key, now: real) returns (stored: real)
    requires Ask(d, After(d, moves), k, now).Some?
    ensures var v := Ask(d, After(d, moves), k, now).value;
      (k, v) in After(d, moves).log && PutSection(k, v, stored) in After(d, moves).sections && now - stored <= d.ttl
  {
    AlwaysFromFunction(d, moves);
    stored := HitIsFromFunction(d, After(d, moves), k, now);
  }

  /** For a function of its arguments alone the cache cannot be seen: every call that returns, returns f of its key. */
  lemma RefinesPureFunction(d: Decorated, f: Key -> Value, moves: seq<Move>, c: CallId)
    requires forall k, i :: d.f(k, i) == f(k)
    requires c in After(d, moves).calls && After(d, moves).calls[c].Returned?
    ensures After(d, moves).calls[c].value == f(After(d, moves).calls[c].key)
  {
    CallsReturnFunctionValues(d, moves, c);
  }

  predicate IsOf(m: Move, c: CallId) {
    (m.Begin? || m.Invoke? || m.Raise? || m.Finish?) && m.call == c
  }

  lemma AfterOneMore(d: Decorated, moves: seq<Move>, n: nat)
    requires n < |moves|
    ensures After(d, moves[..n + 1]) == Act(d, After(d, moves[..n]), moves[n])
  {
    assert moves[..n + 1][..n] == moves[..n];
  }

  lemma ActKeepsOthers(d: Decorated, w: World, m: Move, c: CallId)
    requires c in w.calls && !IsOf(m, c)
    ensures c in Act(d, w, m).calls && Act(d, w, m).calls[c] == w.calls[c]
  {
  }

  lemma ActKeepsReturned(d: Decorated, w: World, m: Move, c: CallId)
    requires c in w.calls && w.calls[c].Returned? && IsOf(m, c)
    ensures Act(d, w, m) == w
  {
  }

  lemma ActInvokes(d: Decorated, w: World, c: CallId)
    requires c in w.calls && w.calls[c].Calling?
    ensures var k, w' := w.calls[c].key, Act(d, w, Invoke(c)); var v := d.f(k, |w.log|);
      c in w'.calls && w'.calls[c] == Holding(k, v) && w'.log == w.log + [(k, v)]
  {
  }

  lemma ActFinishes(d: Decorated, w: World, c: CallId, end: real)
    requires c in w.calls && w.calls[c].Holding?
    ensures var q, w' := w.calls[c], Act(d, w, Finish(c, end));
      && c in w'.calls && w'.calls[c] == Returned(q.key, q.value)
      && w'.sections == w.sections + [PutSection(q.key, q.value, end)]
  {
  }

  lemma OneMoreKeeps(d: Decorated, moves: seq<Move>, n: nat, c: CallId)
    requires n < |moves| && c in After(d, moves[..n]).calls && !IsOf(moves[n], c)
    ensures c in After(d, moves[..n + 1]).calls
    ensures After(d, moves[..n + 1]).calls[c] == After(d, moves[..n]).calls[c]
  {
    AfterOneMore(d, moves, n);
    ActKeepsOthers(d, After(d, moves[..n]), moves[n], c);
  }

  /** Nothing that others do changes a call. */
  lemma {:induction false} CallStays(d: Decorated, moves: seq<Move>, m: nat, n: nat, c: CallId)
    requires m <= n <= |moves| && c in After(d, moves[..m]).calls && forall i :: m <= i < n ==> !IsOf(moves[i], c)
    ensures c in After(d, moves[..n]).calls && After(d, moves[..n]).calls[c] == After(d, moves[..m]).calls[c]
    decreases n
  {
    if m < n {
      CallStays(d, moves, m, n - 1, c);
      OneMoreKeeps(d, moves, n - 1, c);
    }
  }

  /** The n-th move begins the call. */
  ghost predicate BeginsAt(d: Decorated, moves: seq<Move>, n: nat, c: CallId, k: Key, now: real) {
    n < |moves| && moves[n] == Begin(c, k, now) && c !in After(d, moves[..n]).calls
  }

  /**
   In every interleaving a call whose key the store answers returns that answer at once, and stays so; any other is
   about to invoke the function, and stays so until it does or raises.
   */
  lemma CallIsAnsweredOrInvokes(d: Decorated, moves: seq<Move>, b: nat, n: nat, c: CallId, k: Key, now: real)
    requires BeginsAt(d, moves, b, c, k, now) && b < n <= |moves| && forall i :: b < i < n ==> !IsOf(moves[i], c)
    ensures c in After(d, moves[..n]).calls
    ensures var r := Ask(d, After(d, moves[..b]), k, now);
      After(d, moves[..n]).calls[c] == if r.Some? then Returned(k, r.value) else Calling(k)
    ensures After(d, moves[..b + 1]).sections == After(d, moves[..b]).sections + [GetSection(k, now)]
  {
    AfterOneMore(d, moves, b);
    CallStays(d, moves, b + 1, n, c);
  }

  /** What a call does that invokes the function and then finishes: it returns and stores what the function returned. */
  lemma MissRunsThrough(d: Decorated, moves: seq<Move>, i: nat, f: nat, c: CallId, k: Key, end: real)
    requires i < f < |moves| && moves[i] == Invoke(c) && moves[f] == Finish(c, end)
    requires c in After(d, moves[..i]).calls && After(d, moves[..i]).calls[c] == Calling(k)
    requires forall j :: i < j < f ==> !IsOf(moves[j], c)
    ensures var v := d.f(k, |After(d, moves[..i]).log|);
      && After(d, moves[..i + 1]).log == After(d, moves[..i]).log + [(k, v)]
      && c in After(d, moves[..f + 1]).calls && After(d, moves[..f + 1]).calls[c] == Returned(k, v)
      && After(d, moves[..f + 1]).sections == After(d, moves[..f]).sections + [PutSection(k, v, end)]
  {
    AfterOneMore(d, moves, i);
    AfterOneMore(d, moves, f);
    ActInvokes(d, After(d, moves[..i]), c);
    CallStays(d, moves, i + 1, f, c);
    ActFinishes(d, After(d, moves[..f]), c, end);
  }

  /** A call that has returned invokes nothing and stores nothing more. */
  lemma ReturnedDoesNothing(d: Decorated, moves: seq<Move>, n: nat, c: CallId)
    requires n < |moves| && c in After(d, moves[..n]).calls && After(d, moves[..n]).calls[c].Returned?
    ensures c in After(d, moves[..n + 1]).calls
    ensures After(d, moves[..n + 1]).calls[c] == After(d, moves[..n]).calls[c]
    ensures IsOf(moves[n], c) ==> After(d, moves[..n + 1]) == After(d, moves[..n])
  {
    if IsOf(moves[n], c) {
      AfterOneMore(d, moves, n);
      ActKeepsReturned(d, After(d, moves[..n]), moves[n], c);
    } else {
      OneMoreKeeps(d, moves, n, c);
    }
  }

  lemma ActRaises(d: Decorated, w: World, c: CallId)
    requires c in w.calls && w.calls[c].Calling?
    ensures Act(d, w, Raise(c)) == w.(calls := w.calls[c := Raised])
  {
  }

  /** A call whose invocation raises has raised, for good; nothing is stored. */
  lemma MissRaises(d: Decorated, moves: seq<Move>, i: nat, n: nat, c: CallId, k: Key)
    requires i < n <= |moves| && moves[i] == Raise(c) && forall j :: i < j < n ==> !IsOf(moves[j], c)
    requires c in After(d, moves[..i]).calls && After(d, moves[..i]).calls[c] == Calling(k)
    ensures c in After(d, moves[..n]).calls && After(d, moves[..n]).calls[c] == Raised
    ensures After(d, moves[..i + 1]).sections == After(d, moves[..i]).sections
  {
    AfterOneMore(d, moves, i);
    ActRaises(d, After(d, moves[..i]), c);
    CallStays(d, moves, i + 1, n, c);
  }

  /** After a clear nothing is answered. */
  lemma ForgottenIsUnanswered(d: Decorated, moves: seq<Move>, k: Key, now: real)
    ensures Ask(d, After(d, moves + [Forget]), k, now).None?
  {
    var w := After(d, moves);
    assert (moves + [Forget])[..|moves|] == moves;
    assert (w.sections + [ClearSection])[..|w.sections|] == w.sections;
  }

  /** What a call has just stored is answered to the next, for as long as it is fresh and if anything is kept at all. */
  lemma FinishedIsAnswered(d: Decorated, moves: seq<Move>, c: CallId, now: real, later: real)
    requires d.maxSize > 0 && c in After(d, moves).calls && After(d, moves).calls[c].Holding?
    ensures var q := After(d, moves).calls[c];
      Ask(d, After(d, moves + [Finish(c, now)]), q.key, later) == if later - now <= d.ttl then Some(q.value) else None
  {
    var w := After(d, moves);
    var q := w.calls[c];
    assert (moves + [Finish(c, now)])[..|moves|] == moves;
    PutIsAnswered(d.ttl, d.maxSize, w.sections, q.key, q.value, now, later);
  }

  lemma PutIsAnswered(ttl: real, maxSize: nat, sections: seq<Section>, k: Key, v: Value, now: real, later: real)
    requires maxSize > 0
    ensures var r := Run(ttl, maxSize, sections + [PutSection(k, v, now)]);
      Get(r.cache, k, later).1 == if later - now <= ttl then Some(v) else None
  {
    var all := sections + [PutSection(k, v, now)];
    assert all[..|sections|] == sections;
    RunInv(ttl, maxSize, sections);
    var t := Run(ttl, maxSize, sections);
    NewestIsKept(t.cache.store, k, Entry(now + ttl, v), maxSize, t.touched, t.clock);
    StoredIsAnsweredIff(ttl, maxSize, all, k, later);
  }
}
