/**
 The TTL and LRU cache of src/lib/response-cache.ts.  A lookup that misses is split at its loader call:
 other lookups, purges and clears may run before the load finishes.
 */
module ResponseCache {
  import opened Options

  datatype Item<T> = Item(key: string, value: T, expiresAt: int)

  // ----- a map that remembers insertion order -----

  ghost predicate DistinctKeys<T>(es: seq<Item<T>>) {
    forall i, j :: 0 <= i < j < |es| ==> es[i].key != es[j].key
  }

  predicate Has<T>(es: seq<Item<T>>, key: string) {
    exists i :: 0 <= i < |es| && es[i].key == key
  }

  function Find<T>(es: seq<Item<T>>, key: string): (r: Option<Item<T>>)
    ensures r.Some? ==> r.value in es && r.value.key == key
    ensures r.None? <==> !Has(es, key)
  {
    if es == [] then None
    else if es[0].key == key then Some(es[0])
    else
      var rest := Find(es[1..], key);
      assert forall i :: 0 <= i < |es[1..]| ==> es[1..][i] == es[i + 1];
      rest
  }

  /** Map.delete */
  function Without<T>(es: seq<Item<T>>, key: string): (r: seq<Item<T>>)
    ensures !Has(r, key) && |r| <= |es|
    ensures forall e :: e in r ==> e in es
    ensures forall e :: e in es && e.key != key ==> e in r
    ensures Has(es, key) ==> |r| < |es|
  {
    if es == [] then []
    else if es[0].key == key then Without(es[1..], key)
    else [es[0]] + Without(es[1..], key)
  }

  /** Map.set: a known key keeps its place, a new one goes to the end. */
  function Put<T>(es: seq<Item<T>>, item: Item<T>): seq<Item<T>> {
    if Has(es, item.key) then seq(|es|, i requires 0 <= i < |es| => if es[i].key == item.key then item else es[i])
    else es + [item]
  }

  function Evicted<T>(es: seq<Item<T>>, maxSize: nat): seq<Item<T>> {
    if |es| > maxSize then es[|es| - maxSize..] else es
  }

  function Purged<T>(es: seq<Item<T>>, now: int): (r: seq<Item<T>>)
    ensures |r| <= |es| && forall e :: e in r ==> e in es
  {
    if es == [] then []
    else if es[|es| - 1].expiresAt <= now then Purged(es[..|es| - 1], now)
    else Purged(es[..|es| - 1], now) + [es[|es| - 1]]
  }

  /** The lookup before any load: a live entry moves to the end, an expired one is dropped. */
  function LookedUp<T>(es: seq<Item<T>>, key: string, now: int): seq<Item<T>> {
    match Find(es, key)
    case Some(item) => if item.expiresAt > now then Without(es, key) + [item] else Without(es, key)
    case None => es
  }

  predicate Hits<T>(es: seq<Item<T>>, key: string, now: int) {
    Find(es, key).Some? && Find(es, key).value.expiresAt > now
  }

  function Loaded<T>(es: seq<Item<T>>, key: string, value: T, started: int, ttlMs: int, maxSize: nat): seq<Item<T>> {
    Evicted(Put(es, Item(key, value, started + ttlMs)), maxSize)
  }

  class Cache<T(!new)> {
    const ttlMs: int
    const maxSize: nat
    var entries: seq<Item<T>>

    constructor (ttlMs: int, maxSize: nat)
      ensures this.ttlMs == ttlMs && this.maxSize == maxSize && entries == []
    {
      this.ttlMs, this.maxSize, entries := ttlMs, maxSize, [];
    }

    /** getOrSet up to the loader call. */
    method Begin(key: string, now: int) returns (hit: Option<T>)
      modifies this
      ensures entries == LookedUp(old(entries), key, now)
      ensures hit.Some? <==> Hits(old(entries), key, now)
      ensures hit.Some? ==> hit.value == Find(old(entries), key).value.value
      ensures DistinctKeys(old(entries)) ==>
                && HoldsLookup(old(entries), entries, key, now)
                && (hit.Some? <==> exists e :: e in old(entries) && e.key == key && e.expiresAt > now)
                && (hit.Some? ==> exists e :: e in old(entries) && e.key == key && e.value == hit.value)
    {
      if DistinctKeys(entries) { LookedUpHolds(entries, key, now); }
      hide Without, DistinctKeys, HoldsLookup;
      var cached := Find(entries, key);
      if cached.Some? && cached.value.expiresAt > now {
        entries := Without(entries, key);
        entries := entries + [cached.value];
        return Some(cached.value.value);
      }
      if cached.Some? { entries := Without(entries, key); }
      hit := None;
    }

    /** getOrSet after the loader call that began at started. */
    method Finish(key: string, value: T, started: int)
      modifies this
      ensures entries == Loaded(old(entries), key, value, started, ttlMs, maxSize)
      ensures DistinctKeys(old(entries)) && 1 <= maxSize && |old(entries)| <= maxSize ==>
                HoldsLoad(old(entries), entries, Item(key, value, started + ttlMs), maxSize)
    {
      if DistinctKeys(entries) && 1 <= maxSize && |entries| <= maxSize { LoadedHolds(entries, key, value, started, ttlMs, maxSize); }
      hide DistinctKeys, HoldsLoad, Put;
      entries := Put(entries, Item(key, value, started + ttlMs));
      EvictIfNeeded();
    }

    method EvictIfNeeded()
      modifies this
      ensures entries == Evicted(old(entries), maxSize)
      ensures |entries| == (if |old(entries)| < maxSize then |old(entries)| else maxSize)
      ensures entries == old(entries)[|old(entries)| - |entries|..]
    {
      ghost var all, dropped := entries, 0;
      while |entries| > maxSize
        invariant dropped <= |all| && entries == all[dropped..]
        invariant dropped > 0 ==> |entries| >= maxSize
        decreases |entries|
      {
        entries := entries[1..];
        dropped := dropped + 1;
      }
    }

    method PurgeExpired(now: int)
      modifies this
      ensures entries == Purged(old(entries), now)
      ensures forall e :: e in entries <==> e in old(entries) && e.expiresAt > now
    {
      PurgedHolds(entries, now);
      var all := entries;
      var kept := [];
      for i := 0 to |all|
        invariant kept == Purged(all[..i], now)
      {
        assert all[..i + 1][..i] == all[..i];
        if all[i].expiresAt > now { kept := kept + [all[i]]; }
      }
      assert all[..|all|] == all;
      entries := kept;
    }

    method Clear()
      modifies this
      ensures entries == []
    {
      entries := [];
    }
  }

  // ----- what the operations leave -----

  lemma WithoutNone<T>(es: seq<Item<T>>, key: string)
    ensures forall e :: e in Without(es, key) <==> e in es && e.key != key
  {
    var r := Without(es, key);
    forall e | e in r ensures e.key != key {
      var i :| 0 <= i < |r| && r[i] == e;
      assert !Has(r, key);
    }
  }

  /** Every entry but an expired one of the key is kept, and a live one of the key stands last. */
  ghost predicate HoldsLookup<T(!new)>(before: seq<Item<T>>, after: seq<Item<T>>, key: string, now: int) {
    && (forall e :: e in after <==> e in before && (e.key != key || e.expiresAt > now))
    && ((exists e :: e in before && e.key == key && e.expiresAt > now) ==> after != [] && after[|after| - 1].key == key)
  }

  /** The load is stored, and of the others at most the first entry goes, if there is no room and the key is new. */
  ghost predicate HoldsLoad<T(!new)>(before: seq<Item<T>>, after: seq<Item<T>>, item: Item<T>, maxSize: nat) {
    && item in after && (forall e :: e in after ==> e.key != item.key || e == item)
    && (forall e: Item<T> :: e.key != item.key ==>
          (e in after <==> e in before && (Has(before, item.key) || |before| < maxSize || e != before[0])))
  }

  lemma LookedUpHolds<T(!new)>(es: seq<Item<T>>, key: string, now: int)
    requires DistinctKeys(es)
    ensures HoldsLookup(es, LookedUp(es, key, now), key, now)
    ensures Hits(es, key, now) <==> exists e :: e in es && e.key == key && e.expiresAt > now
  {
    WithoutNone(es, key);
    match Find(es, key)
    case Some(item) =>
      forall e | e in es && e.key == key ensures e == item {
        var i :| 0 <= i < |es| && es[i] == e;
        var j :| 0 <= j < |es| && es[j] == item;
      }
    case None =>
      assert forall e :: e in es ==> e.key != key;
  }

  lemma LoadedHolds<T(!new)>(es: seq<Item<T>>, key: string, value: T, started: int, ttlMs: int, maxSize: nat)
    requires DistinctKeys(es) && 1 <= maxSize && |es| <= maxSize
    ensures HoldsLoad(es, Loaded(es, key, value, started, ttlMs, maxSize), Item(key, value, started + ttlMs), maxSize)
  {
    var item := Item(key, value, started + ttlMs);
    if Has(es, key) { KnownKeyHolds(es, item, maxSize); } else { NewKeyHolds(es, item, maxSize); }
  }

  lemma KnownKeyHolds<T(!new)>(es: seq<Item<T>>, item: Item<T>, maxSize: nat)
    requires DistinctKeys(es) && |es| <= maxSize && Has(es, item.key)
    ensures HoldsLoad(es, Evicted(Put(es, item), maxSize), item, maxSize)
  {
    var r := Put(es, item);
    var i :| 0 <= i < |es| && es[i].key == item.key;
    assert r[i] == item;
    forall e | e in es && e.key != item.key ensures e in r {
      var j :| 0 <= j < |es| && es[j] == e;
      assert r[j] == e;
    }
  }

  lemma NewKeyHolds<T(!new)>(es: seq<Item<T>>, item: Item<T>, maxSize: nat)
    requires DistinctKeys(es) && 1 <= maxSize && |es| <= maxSize && !Has(es, item.key)
    ensures HoldsLoad(es, Evicted(Put(es, item), maxSize), item, maxSize)
  {
    var kept := if |es| == maxSize then es[1..] else es;
    assert Evicted(Put(es, item), maxSize) == kept + [item];
    FirstIsNotLater(es);
    NoneWithKey(es, item.key);
    hide DistinctKeys, Has, Put, Evicted;
    assert es != [] ==> es == [es[0]] + es[1..];
  }

  lemma NoneWithKey<T(!new)>(es: seq<Item<T>>, key: string)
    requires !Has(es, key)
    ensures forall e :: e in es ==> e.key != key
  {
  }

  lemma FirstIsNotLater<T>(es: seq<Item<T>>)
    requires DistinctKeys(es)
    ensures es != [] ==> es[0] !in es[1..]
  {
    if es != [] {
      forall i | 0 <= i < |es[1..]| ensures es[1..][i] != es[0] { assert es[1..][i] == es[i + 1]; }
    }
  }

  /** A purge keeps exactly the entries that have not expired, in their order. */
  lemma {:induction false} PurgedHolds<T>(es: seq<Item<T>>, now: int)
    ensures forall e :: e in Purged(es, now) <==> e in es && e.expiresAt > now
  {
    if es != [] {
      var n := |es| - 1;
      PurgedHolds(es[..n], now);
      assert es == es[..n] + [es[n]];
    }
  }

  lemma {:induction false} PurgedInParts<T>(a: seq<Item<T>>, b: seq<Item<T>>, now: int)
    ensures Purged(a + b, now) == Purged(a, now) + Purged(b, now)
    decreases |b|
  {
    if b == [] {
      assert a + b == a;
    } else {
      PurgedInParts(a, b[..|b| - 1], now);
      assert (a + b)[..|a + b| - 1] == a + b[..|b| - 1];
    }
  }

  /** A finished load is found again, with its value, until its time to live runs out. */
  lemma LoadedIsFound<T>(es: seq<Item<T>>, key: string, value: T, started: int, ttlMs: int, maxSize: nat, now: int)
    requires DistinctKeys(es) && |es| <= maxSize && maxSize >= 1
    ensures Hits(Loaded(es, key, value, started, ttlMs, maxSize), key, now) <==> now < started + ttlMs
    ensures Find(Loaded(es, key, value, started, ttlMs, maxSize), key) == Some(Item(key, value, started + ttlMs))
  {
    hide Find;
    var item := Item(key, value, started + ttlMs);
    var put := Put(es, item);
    assert Has(es, key) ==> |put| == |es|;
    assert !Has(es, key) ==> put[|es|] == item;
    var r := Evicted(put, maxSize);
    assert forall i :: 0 <= i < |put| && put[i].key == key ==> put[i] == item;
    assert forall e :: e in r && e.key == key ==> e == item by {
      forall e | e in r && e.key == key ensures e == item { assert e in put; }
    }
    assert Has(r, key) by {
      if Has(es, key) {
        var i :| 0 <= i < |es| && es[i].key == key;
        assert r == put && r[i].key == key;
      } else {
        assert r[|r| - 1] == item;
      }
    }
  }

  // ----- any interleaving -----

  /** A load that finished: for which key, when it began, what it gave. */
  datatype Load<T> = Load(key: string, began: int, value: T)

  /** pending: loads begun by a miss and not finished; done: loads finished so far. */
  datatype State<T> = State(entries: seq<Item<T>>, pending: multiset<(string, int)>, done: seq<Load<T>>)

  datatype Op<T> = LookUp(key: string, now: int) | FinishLoad(load: Load<T>) | Purge(now: int) | Wipe

  ghost predicate Step<T>(s: State<T>, op: Op<T>, s': State<T>, ttlMs: int, maxSize: nat) {
    match op
    case LookUp(key, now) =>
      s' == State(LookedUp(s.entries, key, now),
                  if Hits(s.entries, key, now) then s.pending else s.pending + multiset{(key, now)}, s.done)
    case FinishLoad(load) =>
      && (load.key, load.began) in s.pending
      && s' == State(Loaded(s.entries, load.key, load.value, load.began, ttlMs, maxSize),
                     s.pending - multiset{(load.key, load.began)}, s.done + [load])
    case Purge(now) => s' == s.(entries := Purged(s.entries, now))
    case Wipe => s' == s.(entries := [])
  }

  ghost predicate IsRun<T>(states: seq<State<T>>, ops: seq<Op<T>>, ttlMs: int, maxSize: nat) {
    && |states| == |ops| + 1 && states[0].entries == []
    && (forall i :: 0 <= i < |ops| ==> Step(states[i], ops[i], states[i + 1], ttlMs, maxSize))
  }

  /** Never too large, one entry per key, and every entry is what some finished load for its key gave. */
  ghost predicate Sound<T>(s: State<T>, ttlMs: int, maxSize: nat) {
    && |s.entries| <= maxSize && DistinctKeys(s.entries)
    && (forall e :: e in s.entries ==> Provided(s.done, e, ttlMs))
  }

  ghost predicate Provided<T>(done: seq<Load<T>>, e: Item<T>, ttlMs: int) {
    exists i :: 0 <= i < |done| && done[i] == Load(e.key, e.expiresAt - ttlMs, e.value)
  }

  lemma {:induction false} WithoutIsDistinct<T>(es: seq<Item<T>>, key: string)
    requires DistinctKeys(es)
    ensures DistinctKeys(Without(es, key))
  {
    if es != [] {
      WithoutIsDistinct(es[1..], key);
      var rest := Without(es[1..], key);
      forall i | 0 <= i < |rest| ensures rest[i].key != es[0].key { assert rest[i] in es[1..]; }
    }
  }

  lemma {:induction false} PurgedIsDistinct<T>(es: seq<Item<T>>, now: int)
    requires DistinctKeys(es)
    ensures DistinctKeys(Purged(es, now))
  {
    if es != [] {
      var init := es[..|es| - 1];
      PurgedIsDistinct(init, now);
      var rest := Purged(init, now);
      forall i | 0 <= i < |rest| ensures rest[i].key != es[|es| - 1].key { assert rest[i] in init; }
    }
  }

  lemma LookUpKeeps<T>(es: seq<Item<T>>, key: string, now: int)
    requires DistinctKeys(es)
    ensures DistinctKeys(LookedUp(es, key, now)) && |LookedUp(es, key, now)| <= |es|
    ensures forall e :: e in LookedUp(es, key, now) ==> e in es
  {
    WithoutIsDistinct(es, key);
    var rest := Without(es, key);
    forall i | 0 <= i < |rest| ensures rest[i].key != key { assert !Has(rest, key); }
  }

  lemma LoadKeeps<T>(es: seq<Item<T>>, item: Item<T>, maxSize: nat)
    requires DistinctKeys(es)
    ensures var r := Evicted(Put(es, item), maxSize);
            && DistinctKeys(r) && |r| <= maxSize && forall e :: e in r ==> e == item || e in es
  {
    var put := Put(es, item);
    forall i, j | 0 <= i < j < |put| ensures put[i].key != put[j].key {
      if !Has(es, item.key) && j == |es| { assert es[i].key != item.key; }
    }
  }

  lemma StepKeepsSound<T>(s: State<T>, op: Op<T>, s': State<T>, ttlMs: int, maxSize: nat)
    requires Sound(s, ttlMs, maxSize) && Step(s, op, s', ttlMs, maxSize)
    ensures Sound(s', ttlMs, maxSize)
  {
    hide LookedUp, Evicted, Put, Purged, DistinctKeys, Hits, Find;
    match op
    case LookUp(key, now) => LookUpKeeps(s.entries, key, now);
    case FinishLoad(load) =>
      var item := Item(load.key, load.value, load.began + ttlMs);
      LoadKeeps(s.entries, item, maxSize);
      forall e | e in s'.entries ensures Provided(s'.done, e, ttlMs) {
        if e == item {
          assert s'.done[|s.done|] == Load(e.key, e.expiresAt - ttlMs, e.value);
        } else {
          var i :| 0 <= i < |s.done| && s.done[i] == Load(e.key, e.expiresAt - ttlMs, e.value);
          assert s'.done[i] == s.done[i];
        }
      }
    case Purge(now) => PurgedIsDistinct(s.entries, now);
    case Wipe => NoEntries<T>();
  }

  lemma {:induction false} EveryRunStaysSound<T>(states: seq<State<T>>, ops: seq<Op<T>>, ttlMs: int, maxSize: nat, k: nat)
    requires IsRun(states, ops, ttlMs, maxSize) && k < |states|
    ensures Sound(states[k], ttlMs, maxSize)
  {
    if k > 0 {
      hide Step, Sound;
      EveryRunStaysSound(states, ops, ttlMs, maxSize, k - 1);
      StepKeepsSound(states[k - 1], ops[k - 1], states[k - 1 + 1], ttlMs, maxSize);
    }
  }

  /** A hit returns what a load for that very key gave, and that load began less than the time to live before. */
  lemma HitsAreFresh<T>(states: seq<State<T>>, ops: seq<Op<T>>, ttlMs: int, maxSize: nat, k: nat)
    requires IsRun(states, ops, ttlMs, maxSize) && k < |ops|
    requires ops[k].LookUp? && Hits(states[k].entries, ops[k].key, ops[k].now)
    ensures exists i :: 0 <= i < |states[k].done| && states[k].done[i].key == ops[k].key
              && states[k].done[i].value == Find(states[k].entries, ops[k].key).value.value
              && ops[k].now - states[k].done[i].began < ttlMs
  {
    EveryRunStaysSound(states, ops, ttlMs, maxSize, k);
    var e := Find(states[k].entries, ops[k].key).value;
    assert Provided(states[k].done, e, ttlMs);
  }

  // ----- one lookup at a time: least recently used goes first -----

  /** A whole lookup: a hit, or a miss, its load and the insertion with nothing in between. */
  function Served<T>(es: seq<Item<T>>, key: string, value: T, now: int, ttlMs: int, maxSize: nat): seq<Item<T>> {
    if Hits(es, key, now) then LookedUp(es, key, now) else Loaded(LookedUp(es, key, now), key, value, now, ttlMs, maxSize)
  }

  /** Position of the latest use of a key in the uses so far. */
  ghost function LastUse(uses: seq<string>, key: string): int {
    if uses == [] then -1 else if uses[|uses| - 1] == key then |uses| - 1 else LastUse(uses[..|uses| - 1], key)
  }

  /** The order of the entries is the order of their latest use. */
  ghost predicate InUseOrder<T>(es: seq<Item<T>>, uses: seq<string>) {
    && (forall i :: 0 <= i < |es| ==> LastUse(uses, es[i].key) >= 0)
    && (forall i, j :: 0 <= i < j < |es| ==> LastUse(uses, es[i].key) < LastUse(uses, es[j].key))
  }

  lemma {:induction false} WithoutKeepsOrder<T>(es: seq<Item<T>>, key: string, uses: seq<string>)
    requires InUseOrder(es, uses)
    ensures InUseOrder(Without(es, key), uses)
  {
    hide LastUse, InUseOrder, Has;
    if es != [] {
      HeadComesFirst(es, uses);
      WithoutKeepsOrder(es[1..], key, uses);
      if es[0].key != key { ConsKeepsOrder(es[0], Without(es[1..], key), uses); }
    }
  }

  lemma HeadComesFirst<T>(es: seq<Item<T>>, uses: seq<string>)
    requires InUseOrder(es, uses) && es != []
    ensures InUseOrder(es[1..], uses) && LastUse(uses, es[0].key) >= 0
    ensures forall e :: e in es[1..] ==> LastUse(uses, es[0].key) < LastUse(uses, e.key)
  {
  }

  lemma ConsKeepsOrder<T>(x: Item<T>, rest: seq<Item<T>>, uses: seq<string>)
    requires InUseOrder(rest, uses) && LastUse(uses, x.key) >= 0
    requires forall e :: e in rest ==> LastUse(uses, x.key) < LastUse(uses, e.key)
    ensures InUseOrder([x] + rest, uses)
  {
  }

  lemma {:induction false} PurgeKeepsUseOrder<T>(es: seq<Item<T>>, uses: seq<string>, now: int)
    requires InUseOrder(es, uses)
    ensures InUseOrder(Purged(es, now), uses)
  {
    hide LastUse;
    if es != [] {
      var n := |es| - 1;
      PurgeKeepsUseOrder(es[..n], uses, now);
      var rest := Purged(es[..n], now);
      forall i | 0 <= i < |rest| ensures LastUse(uses, rest[i].key) < LastUse(uses, es[n].key) {
        assert rest[i] in es[..n];
      }
    }
  }

  lemma UseIsRemembered(uses: seq<string>, key: string, other: string)
    ensures LastUse(uses + [key], other) == if other == key then |uses| else LastUse(uses, other)
  {
    assert (uses + [key])[..|uses|] == uses;
  }

  /** Using a key that is not stored leaves the order of the others. */
  lemma OtherUseKeepsOrder<T>(es: seq<Item<T>>, uses: seq<string>, key: string)
    requires InUseOrder(es, uses) && !Has(es, key)
    ensures InUseOrder(es, uses + [key])
    ensures forall i :: 0 <= i < |es| ==> LastUse(uses + [key], es[i].key) < |uses|
  {
    hide LastUse;
    var longer := uses + [key];
    forall i | 0 <= i < |es| ensures LastUse(longer, es[i].key) == LastUse(uses, es[i].key) < |uses| {
      assert es[i].key != key;
      UseIsRemembered(uses, key, es[i].key);
      LastUseIsPast(uses, es[i].key);
    }
  }

  /** One more entry at the end keeps the order exactly when it was used after the one before it. */
  lemma AppendKeepsOrder<T>(es: seq<Item<T>>, uses: seq<string>, item: Item<T>)
    requires InUseOrder(es, uses) && LastUse(uses, item.key) >= 0
    ensures InUseOrder(es + [item], uses) <==> es == [] || LastUse(uses, es[|es| - 1].key) < LastUse(uses, item.key)
  {
    hide LastUse;
    var r, n := es + [item], |es| - 1;
    if es != [] {
      assert r[n] == es[n] && r[n + 1] == item;
      if LastUse(uses, es[n].key) < LastUse(uses, item.key) {
        forall i, j | 0 <= i < j < |r| ensures LastUse(uses, r[i].key) < LastUse(uses, r[j].key) {
          if j == n + 1 && i < n { assert LastUse(uses, es[i].key) < LastUse(uses, es[n].key); }
        }
      }
    }
  }

  lemma UseKeepsOrder<T>(es: seq<Item<T>>, uses: seq<string>, item: Item<T>)
    requires InUseOrder(es, uses) && !Has(es, item.key)
    ensures InUseOrder(es + [item], uses + [item.key])
  {
    hide LastUse, InUseOrder;
    OtherUseKeepsOrder(es, uses, item.key);
    UseIsRemembered(uses, item.key, item.key);
    AppendKeepsOrder(es, uses + [item.key], item);
  }

  lemma {:induction false} LastUseIsPast(uses: seq<string>, key: string)
    ensures -1 <= LastUse(uses, key) < |uses|
  {
    if uses != [] { LastUseIsPast(uses[..|uses| - 1], key); }
  }

  /** What a whole lookup leaves: the other entries in their order, then the key just used, cut from the front to size. */
  lemma ServedShape<T>(es: seq<Item<T>>, key: string, value: T, now: int, ttlMs: int, maxSize: nat) returns (item: Item<T>)
    requires DistinctKeys(es) && |es| <= maxSize
    ensures item.key == key
    ensures Served(es, key, value, now, ttlMs, maxSize) == Evicted(Without(es, key) + [item], maxSize)
  {
    if Hits(es, key, now) {
      item := Find(es, key).value;
    } else {
      item := Item(key, value, now + ttlMs);
      if Find(es, key).None? { WithoutNothing(es, key); }
      assert LookedUp(es, key, now) == Without(es, key);
    }
  }

  lemma {:induction false} WithoutNothing<T>(es: seq<Item<T>>, key: string)
    requires !Has(es, key)
    ensures Without(es, key) == es
  {
    if es != [] {
      assert es[0].key != key;
      forall i | 0 <= i < |es[1..]| ensures es[1..][i].key != key { assert es[1..][i] == es[i + 1]; }
      WithoutNothing(es[1..], key);
    }
  }

  /** With lookups one at a time the entries stay in order of latest use. */
  lemma LookupKeepsUseOrder<T>(es: seq<Item<T>>, uses: seq<string>, key: string, value: T, now: int, ttlMs: int, maxSize: nat)
    requires DistinctKeys(es) && |es| <= maxSize && InUseOrder(es, uses)
    ensures InUseOrder(Served(es, key, value, now, ttlMs, maxSize), uses + [key])
    ensures DistinctKeys(Served(es, key, value, now, ttlMs, maxSize)) && |Served(es, key, value, now, ttlMs, maxSize)| <= maxSize
  {
    hide Served, LastUse;
    var item := ServedShape(es, key, value, now, ttlMs, maxSize);
    var rest := Without(es, key);
    WithoutKeepsOrder(es, key, uses);
    UseKeepsOrder(rest, uses, item);
    SuffixKeepsOrder(rest + [item], uses + [key], maxSize);
    WithoutIsDistinct(es, key);
    LoadKeeps(rest, item, maxSize);
    assert Put(rest, item) == rest + [item];
  }

  lemma SuffixKeepsOrder<T>(es: seq<Item<T>>, uses: seq<string>, maxSize: nat)
    requires InUseOrder(es, uses)
    ensures InUseOrder(Evicted(es, maxSize), uses)
  {
  }

  /** What a lookup throws out for size was used before everything it keeps. */
  lemma EvictsLeastRecentlyUsed<T>(es: seq<Item<T>>, uses: seq<string>, key: string, value: T, now: int, ttlMs: int, maxSize: nat,
                                   out: Item<T>, kept: Item<T>)
    requires DistinctKeys(es) && |es| <= maxSize && InUseOrder(es, uses)
    requires out in es && out.key != key && !Has(Served(es, key, value, now, ttlMs, maxSize), out.key)
    requires kept in Served(es, key, value, now, ttlMs, maxSize)
    ensures LastUse(uses + [key], out.key) < LastUse(uses + [key], kept.key)
  {
    hide Served, LastUse;
    var item := ServedShape(es, key, value, now, ttlMs, maxSize);
    var rest := Without(es, key);
    WithoutKeepsOrder(es, key, uses);
    UseKeepsOrder(rest, uses, item);
    CutIsOlder(rest + [item], uses + [key], maxSize, out, kept);
  }

  lemma CutIsOlder<T>(all: seq<Item<T>>, uses: seq<string>, maxSize: nat, out: Item<T>, kept: Item<T>)
    requires InUseOrder(all, uses) && out in all && kept in Evicted(all, maxSize) && !Has(Evicted(all, maxSize), out.key)
    ensures LastUse(uses, out.key) < LastUse(uses, kept.key)
  {
  }

  /** Lookups in order, whole or not, purges and clears: the use order over a whole run. */
  datatype Turn<T> = Use(key: string, value: T, now: int) | PurgeTurn(now: int) | ClearTurn

  ghost function After<T>(turns: seq<Turn<T>>, ttlMs: int, maxSize: nat): seq<Item<T>> {
    if turns == [] then []
    else
      var es := After(turns[..|turns| - 1], ttlMs, maxSize);
      match turns[|turns| - 1]
      case Use(key, value, now) => Served(es, key, value, now, ttlMs, maxSize)
      case PurgeTurn(now) => Purged(es, now)
      case ClearTurn => []
  }

  ghost function Uses<T>(turns: seq<Turn<T>>): seq<string> {
    if turns == [] then []
    else Uses(turns[..|turns| - 1]) + (if turns[|turns| - 1].Use? then [turns[|turns| - 1].key] else [])
  }

  /** One at a time, the entries are always ordered by latest use. */
  lemma {:induction false} SequentialRunIsInUseOrder<T>(turns: seq<Turn<T>>, ttlMs: int, maxSize: nat)
    ensures InUseOrder(After(turns, ttlMs, maxSize), Uses(turns))
    ensures DistinctKeys(After(turns, ttlMs, maxSize)) && |After(turns, ttlMs, maxSize)| <= maxSize
  {
    hide Served, LastUse, InUseOrder, DistinctKeys;
    if turns == [] {
      NoEntries<T>();
    } else {
      var init := turns[..|turns| - 1];
      SequentialRunIsInUseOrder(init, ttlMs, maxSize);
      var es := After(init, ttlMs, maxSize);
      match turns[|turns| - 1]
      case Use(key, value, now) => LookupKeepsUseOrder(es, Uses(init), key, value, now, ttlMs, maxSize);
      case PurgeTurn(now) =>
        PurgeKeepsUseOrder(es, Uses(init), now);
        PurgedIsDistinct(es, now);
        assert Uses(turns) == Uses(init);
      case ClearTurn =>
        NoEntries<T>();
    }
  }

  lemma NoEntries<T>()
    ensures forall uses :: InUseOrder<T>([], uses)
    ensures DistinctKeys<T>([])
  {
  }

  // ----- any interleaving: exactly when the order is that of latest use -----

  /** The keys looked up so far, in order. */
  ghost function Lookups<T>(ops: seq<Op<T>>): seq<string> {
    if ops == [] then []
    else Lookups(ops[..|ops| - 1]) + (if ops[|ops| - 1].LookUp? then [ops[|ops| - 1].key] else [])
  }

  /** A load finishes in turn: its key is already stored, nothing stays beside it, or the newest entry was used before its key. */
  ghost predicate InTurn<T>(es: seq<Item<T>>, uses: seq<string>, key: string, maxSize: nat) {
    Has(es, key) || es == [] || maxSize == 1 || LastUse(uses, es[|es| - 1].key) < LastUse(uses, key)
  }

  ghost predicate LoadsInTurn<T>(states: seq<State<T>>, ops: seq<Op<T>>, maxSize: nat)
    requires |states| == |ops| + 1
  {
    forall i :: 0 <= i < |ops| && ops[i].FinishLoad? ==> InTurn(states[i].entries, Lookups(ops[..i]), ops[i].load.key, maxSize)
  }

  ghost predicate AlwaysInUseOrder<T>(states: seq<State<T>>, ops: seq<Op<T>>)
    requires |states| == |ops| + 1
  {
    forall i :: 0 <= i < |states| ==> InUseOrder(states[i].entries, Lookups(ops[..i]))
  }

  lemma SameKeysSameOrder<T>(es: seq<Item<T>>, r: seq<Item<T>>, uses: seq<string>)
    requires InUseOrder(es, uses) && |r| == |es| && forall i :: 0 <= i < |es| ==> r[i].key == es[i].key
    ensures InUseOrder(r, uses)
  {
  }

  lemma FrontDropped<T>(es: seq<Item<T>>, uses: seq<string>, k: nat)
    requires InUseOrder(es, uses) && k <= |es|
    ensures InUseOrder(es[k..], uses)
  {
  }

  /** A finishing load keeps the use order exactly when it finishes in turn. */
  lemma FinishKeepsUseOrder<T>(es: seq<Item<T>>, uses: seq<string>, item: Item<T>, maxSize: nat)
    requires |es| <= maxSize && InUseOrder(es, uses) && LastUse(uses, item.key) >= 0
    ensures InUseOrder(Evicted(Put(es, item), maxSize), uses) <==> InTurn(es, uses, item.key, maxSize)
  {
    hide LastUse, InUseOrder, Has;
    var r := Evicted(Put(es, item), maxSize);
    if Has(es, item.key) {
      SameKeysSameOrder(es, r, uses);
    } else if maxSize == 0 {
      assert r == [];
      NoEntries<T>();
    } else {
      var kept := if |es| == maxSize then es[1..] else es;
      assert r == kept + [item];
      FrontDropped(es, uses, |es| - |kept|);
      assert es[|es| - |kept|..] == kept;
      AppendKeepsOrder(kept, uses, item);
    }
  }

  lemma LookUpKeepsUseOrder<T>(es: seq<Item<T>>, uses: seq<string>, key: string, now: int)
    requires InUseOrder(es, uses)
    ensures InUseOrder(LookedUp(es, key, now), uses + [key])
  {
    hide LastUse, InUseOrder;
    WithoutKeepsOrder(es, key, uses);
    OtherUseKeepsOrder(Without(es, key), uses, key);
    if Find(es, key).Some? {
      UseKeepsOrder(Without(es, key), uses, Find(es, key).value);
    } else {
      WithoutNothing(es, key);
    }
  }

  /** Loads that are under way were looked up. */
  ghost predicate PendingWasUsed<T>(s: State<T>, uses: seq<string>) {
    forall key, began :: (key, began) in s.pending ==> LastUse(uses, key) >= 0
  }

  lemma StepAndUseOrder<T>(s: State<T>, op: Op<T>, s': State<T>, uses: seq<string>, ttlMs: int, maxSize: nat)
    requires Step(s, op, s', ttlMs, maxSize) && |s.entries| <= maxSize && InUseOrder(s.entries, uses) && PendingWasUsed(s, uses)
    ensures InUseOrder(s'.entries, if op.LookUp? then uses + [op.key] else uses)
            <==> (op.FinishLoad? ==> InTurn(s.entries, uses, op.load.key, maxSize))
  {
    hide LastUse, InUseOrder, InTurn, LookedUp, Evicted, Put, Purged, Hits;
    match op
    case LookUp(key, now) => LookUpKeepsUseOrder(s.entries, uses, key, now);
    case FinishLoad(load) => FinishKeepsUseOrder(s.entries, uses, Item(load.key, load.value, load.began + ttlMs), maxSize);
    case Purge(now) => PurgeKeepsUseOrder(s.entries, uses, now);
    case Wipe => NoEntries<T>();
  }

  lemma StepKeepsPendingUsed<T>(s: State<T>, op: Op<T>, s': State<T>, uses: seq<string>, ttlMs: int, maxSize: nat)
    requires Step(s, op, s', ttlMs, maxSize) && PendingWasUsed(s, uses)
    ensures PendingWasUsed(s', if op.LookUp? then uses + [op.key] else uses)
  {
    hide LastUse, LookedUp, Evicted, Put, Purged, Hits;
    if op.LookUp? {
      forall key, began | (key, began) in s'.pending ensures LastUse(uses + [op.key], key) >= 0 {
        UseIsRemembered(uses, op.key, key);
        if key != op.key { assert (key, began) in s.pending; }
      }
    } else {
      assert forall p :: p in s'.pending ==> p in s.pending;
    }
  }

  lemma LookupsSoFar<T>(ops: seq<Op<T>>, i: nat)
    requires i < |ops|
    ensures Lookups(ops[..i + 1]) == if ops[i].LookUp? then Lookups(ops[..i]) + [ops[i].key] else Lookups(ops[..i])
  {
    assert ops[..i + 1][..i] == ops[..i];
  }

  lemma NothingIsPending<T>(s: State<T>, uses: seq<string>)
    requires s.pending == multiset{}
    ensures PendingWasUsed(s, uses)
  {
  }

  lemma {:induction false} PendingIsAlwaysUsed<T>(states: seq<State<T>>, ops: seq<Op<T>>, ttlMs: int, maxSize: nat, k: nat)
    requires IsRun(states, ops, ttlMs, maxSize) && states[0].pending == multiset{} && k < |states|
    ensures PendingWasUsed(states[k], Lookups(ops[..k]))
  {
    hide Step, PendingWasUsed, Lookups;
    if k == 0 {
      NothingIsPending(states[0], Lookups(ops[..0]));
    } else {
      PendingIsAlwaysUsed(states, ops, ttlMs, maxSize, k - 1);
      LookupsSoFar(ops, k - 1);
      StepKeepsPendingUsed(states[k - 1], ops[k - 1], states[k - 1 + 1], Lookups(ops[..k - 1]), ttlMs, maxSize);
    }
  }

  lemma RunStepAndUseOrder<T>(states: seq<State<T>>, ops: seq<Op<T>>, ttlMs: int, maxSize: nat, k: nat)
    requires IsRun(states, ops, ttlMs, maxSize) && states[0].pending == multiset{} && k < |ops|
    requires InUseOrder(states[k].entries, Lookups(ops[..k]))
    ensures InUseOrder(states[k + 1].entries, Lookups(ops[..k + 1]))
            <==> (ops[k].FinishLoad? ==> InTurn(states[k].entries, Lookups(ops[..k]), ops[k].load.key, maxSize))
  {
    hide Step, InUseOrder, InTurn, Lookups, PendingWasUsed;
    EveryRunStaysSound(states, ops, ttlMs, maxSize, k);
    PendingIsAlwaysUsed(states, ops, ttlMs, maxSize, k);
    LookupsSoFar(ops, k);
    StepAndUseOrder(states[k], ops[k], states[k + 1], Lookups(ops[..k]), ttlMs, maxSize);
  }

  lemma {:induction false} InTurnIsInOrder<T>(states: seq<State<T>>, ops: seq<Op<T>>, ttlMs: int, maxSize: nat, k: nat)
    requires IsRun(states, ops, ttlMs, maxSize) && states[0].pending == multiset{} && k < |states|
    requires LoadsInTurn(states, ops, maxSize)
    ensures InUseOrder(states[k].entries, Lookups(ops[..k]))
  {
    hide Step, InUseOrder, InTurn, Lookups;
    if k == 0 {
      NoEntries<T>();
    } else {
      InTurnIsInOrder(states, ops, ttlMs, maxSize, k - 1);
      RunStepAndUseOrder(states, ops, ttlMs, maxSize, k - 1);
    }
  }

  /**
   Under any interleaving of lookups, loads, purges and clears, from a new cache on, the entries stand in the
   order of their latest lookup in every state exactly when every load finishes in turn.
   */
  lemma UseOrderIsExact<T>(states: seq<State<T>>, ops: seq<Op<T>>, ttlMs: int, maxSize: nat)
    requires IsRun(states, ops, ttlMs, maxSize) && states[0].pending == multiset{}
    ensures AlwaysInUseOrder(states, ops) <==> LoadsInTurn(states, ops, maxSize)
  {
    hide Step, InUseOrder, InTurn, Lookups;
    if LoadsInTurn(states, ops, maxSize) {
      forall k | 0 <= k < |states| ensures InUseOrder(states[k].entries, Lookups(ops[..k])) {
        InTurnIsInOrder(states, ops, ttlMs, maxSize, k);
      }
    } else {
      var k :| 0 <= k < |ops| && ops[k].FinishLoad? && !InTurn(states[k].entries, Lookups(ops[..k]), ops[k].load.key, maxSize);
      if InUseOrder(states[k].entries, Lookups(ops[..k])) {
        RunStepAndUseOrder(states, ops, ttlMs, maxSize, k);
        assert !InUseOrder(states[k + 1].entries, Lookups(ops[..k + 1]));
      }
    }
  }

  /**
   A history that breaks the order: a and then b are looked up, b's load is back before a's.  The entries then
   stand as b, a, and room for c is made by throwing out b, which was used after a.
   */
  lemma OverlappingLoadsBreakUseOrder() returns (states: seq<State<int>>, ops: seq<Op<int>>, states': seq<State<int>>, ops': seq<Op<int>>)
    ensures IsRun(states, ops, 100, 2) && states[0].pending == multiset{} && !InUseOrder(states[|ops|].entries, Lookups(ops))
    ensures IsRun(states', ops', 100, 2) && states <= states' && ops <= ops'
    ensures Has(states[|ops|].entries, "b") && !Has(states'[|ops'|].entries, "b") && Has(states'[|ops'|].entries, "a")
    ensures LastUse(Lookups(ops'), "a") < LastUse(Lookups(ops'), "b")
  {
    var s4;
    states, ops, s4 := BrokenOrder();
    hide IsRun, LastUse, Lookups, InUseOrder, Has, Step, Missed, Finished, Evicted;
    UsesOfThree();
    OutOfOrder(s4.entries, ["a", "b"]);
    Stored(s4.entries, 0);
    MissSteps(s4, "c", 2);
    var s5 := Missed(s4, "c", 2);
    OneMoreStep(states, ops, LookUp("c", 2), s5);
    var lc := Load("c", 2, 30);
    FinishSteps(s5, lc);
    var s6 := Finished(s5, lc);
    OneMoreStep(states + [s5], ops + [LookUp("c", 2)], FinishLoad(lc), s6);
    states', ops' := states + [s5] + [s6], ops + [LookUp("c", 2)] + [FinishLoad(lc)];
    assert Lookups(ops') == ["a", "b", "c"];
    FrontGoes(Item("b", 20, 101), Item("a", 10, 100), Item("c", 30, 102));
    Stored(s6.entries, 0);
    NotStored(s6.entries, "b");
  }

  lemma FrontGoes<T>(x: Item<T>, y: Item<T>, z: Item<T>)
    ensures Evicted([x, y] + [z], 2) == [y, z] && Evicted([] + [x], 2) == [x] && Evicted([x] + [y], 2) == [x, y]
  {
  }

  lemma BrokenOrder() returns (states: seq<State<int>>, ops: seq<Op<int>>, s4: State<int>)
    ensures IsRun(states, ops, 100, 2) && states[0].pending == multiset{} && s4 == states[|ops|]
    ensures s4.entries == [Item("b", 20, 101), Item("a", 10, 100)] && Lookups(ops) == ["a", "b"]
  {
    var s2;
    states, ops, s2 := TwoMisses("a", "b");
    hide IsRun, Lookups, Step, Missed, Finished, Evicted;
    var la, lb := Load("a", 0, 10), Load("b", 1, 20);
    var s3 := Finished(s2, lb);
    FinishSteps(s2, lb);
    FrontGoes(Item("b", 20, 101), Item("a", 10, 100), Item("b", 20, 101));
    OneMoreStep(states, ops, FinishLoad(lb), s3);
    s4 := Finished(s3, la);
    FinishSteps(s3, la);
    OneMoreStep(states + [s3], ops + [FinishLoad(lb)], FinishLoad(la), s4);
    states, ops := states + [s3] + [s4], ops + [FinishLoad(lb)] + [FinishLoad(la)];
  }

  lemma NewCache(s: State<int>)
    requires s.entries == []
    ensures IsRun([s], [], 100, 2) && Lookups<int>([]) == []
  {
  }

  lemma TwoMisses(x: string, y: string) returns (states: seq<State<int>>, ops: seq<Op<int>>, s2: State<int>)
    ensures IsRun(states, ops, 100, 2) && states[0].pending == multiset{} && s2 == states[|ops|] && s2.entries == []
    ensures (x, 0) in s2.pending && (y, 1) in s2.pending && Lookups(ops) == [x, y]
  {
    hide IsRun, Lookups, Step, Missed;
    var s0: State<int> := State([], multiset{}, []);
    NewCache(s0);
    var s1 := Missed(s0, x, 0);
    MissSteps(s0, x, 0);
    OneMoreStep([s0], [], LookUp(x, 0), s1);
    s2 := Missed(s1, y, 1);
    MissSteps(s1, y, 1);
    OneMoreStep([s0] + [s1], [] + [LookUp(x, 0)], LookUp(y, 1), s2);
    states, ops := [s0] + [s1] + [s2], [] + [LookUp(x, 0)] + [LookUp(y, 1)];
    assert Lookups(ops) == [] + [x] + [y];
  }

  lemma OneMoreStep(states: seq<State<int>>, ops: seq<Op<int>>, op: Op<int>, s: State<int>)
    requires IsRun(states, ops, 100, 2) && Step(states[|ops|], op, s, 100, 2)
    ensures IsRun(states + [s], ops + [op], 100, 2) && (states + [s])[|ops + [op]|] == s && (states + [s])[0] == states[0]
    ensures Lookups(ops + [op]) == Lookups(ops) + if op.LookUp? then [op.key] else []
  {
    hide Step;
    assert (ops + [op])[..|ops|] == ops;
  }

  ghost function Missed(s: State<int>, key: string, now: int): State<int> {
    s.(pending := s.pending + multiset{(key, now)})
  }

  ghost function Finished(s: State<int>, load: Load<int>): State<int> {
    State(Evicted(s.entries + [Item(load.key, load.value, load.began + 100)], 2), s.pending - multiset{(load.key, load.began)},
          s.done + [load])
  }

  lemma Stored<T>(es: seq<Item<T>>, i: nat)
    requires i < |es|
    ensures Has(es, es[i].key)
  {
  }

  lemma NotStored<T>(es: seq<Item<T>>, key: string)
    requires forall i :: 0 <= i < |es| ==> es[i].key != key
    ensures !Has(es, key)
  {
  }

  lemma MissSteps(s: State<int>, key: string, now: int)
    requires forall i :: 0 <= i < |s.entries| ==> s.entries[i].key != key
    ensures Step(s, LookUp(key, now), Missed(s, key, now), 100, 2)
    ensures Missed(s, key, now).entries == s.entries && (key, now) in Missed(s, key, now).pending
    ensures forall p :: p in s.pending ==> p in Missed(s, key, now).pending
  {
    NotStored(s.entries, key);
  }

  lemma FinishSteps(s: State<int>, load: Load<int>)
    requires (load.key, load.began) in s.pending && forall i :: 0 <= i < |s.entries| ==> s.entries[i].key != load.key
    ensures Step(s, FinishLoad(load), Finished(s, load), 100, 2)
    ensures Finished(s, load).entries == Evicted(s.entries + [Item(load.key, load.value, load.began + 100)], 2)
    ensures forall p :: p in s.pending && p != (load.key, load.began) ==> p in Finished(s, load).pending
  {
    NotStored(s.entries, load.key);
  }

  lemma OutOfOrder<T>(es: seq<Item<T>>, uses: seq<string>)
    requires |es| == 2 && LastUse(uses, es[1].key) < LastUse(uses, es[0].key)
    ensures !InUseOrder(es, uses)
  {
  }

  lemma UsesOfThree()
    ensures LastUse(["a", "b"], "a") == 0 && LastUse(["a", "b"], "b") == 1
    ensures LastUse(["a", "b", "c"], "a") == 0 && LastUse(["a", "b", "c"], "b") == 1
  {
    assert [] + ["a"] == ["a"] && ["a"] + ["b"] == ["a", "b"] && ["a", "b"] + ["c"] == ["a", "b", "c"];
    UseIsRemembered([], "a", "a");
    UseIsRemembered(["a"], "b", "a");
    UseIsRemembered(["a"], "b", "b");
    UseIsRemembered(["a", "b"], "c", "a");
    UseIsRemembered(["a", "b"], "c", "b");
  }
}
