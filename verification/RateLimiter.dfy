/**
 The in-memory fixed-window limiter of src/middleware/rate-limiter.ts and its cleanup sweep.
 */
module RateLimiter {

  datatype Entry = Entry(count: nat, resetAt: int)
  datatype Limits = Limits(maxRequests: nat, windowMs: int)
  datatype Action = Hit(ip: string, now: int) | Sweep(now: int)

  predicate Expired(e: Entry, now: int) {
    now > e.resetAt
  }

  predicate OpensWindow(store: map<string, Entry>, ip: string, now: int) {
    ip !in store || Expired(store[ip], now)
  }

  /** The entry of the address after a request. */
  function EntryAfter(l: Limits, store: map<string, Entry>, ip: string, now: int): Entry {
    if OpensWindow(store, ip, now) then Entry(1, now + l.windowMs) else store[ip].(count := store[ip].count + 1)
  }

  predicate Admits(l: Limits, store: map<string, Entry>, ip: string, now: int) {
    OpensWindow(store, ip, now) || store[ip].count + 1 <= l.maxRequests
  }

  function Swept(store: map<string, Entry>, now: int): map<string, Entry> {
    map ip | ip in store && !Expired(store[ip], now) :: store[ip]
  }

  class Limiter {
    const limits: Limits
    var store: map<string, Entry>

    constructor (limits: Limits)
      ensures this.limits == limits && store == map[]
    {
      this.limits := limits;
      store := map[];
    }

    method InMemoryCheck(ip: string, now: int) returns (admitted: bool)
      modifies this
      ensures store == old(store)[ip := EntryAfter(limits, old(store), ip, now)]
      ensures admitted == Admits(limits, old(store), ip, now)
      ensures ip !in old(store) || now > old(store)[ip].resetAt ==> admitted && store[ip].count == 1 && store[ip].resetAt == now + limits.windowMs
      ensures ip in old(store) && now <= old(store)[ip].resetAt ==>
                && store[ip].count == old(store)[ip].count + 1 && store[ip].resetAt == old(store)[ip].resetAt
                && (admitted <==> store[ip].count <= limits.maxRequests)
      ensures store.Keys == old(store).Keys + {ip} && forall other :: other in old(store) && other != ip ==> store[other] == old(store)[other]
    {
      if ip !in store || now > store[ip].resetAt {
        store := store[ip := Entry(1, now + limits.windowMs)];
        return true;
      }
      var entry := store[ip].(count := store[ip].count + 1);
      store := store[ip := entry];
      admitted := entry.count <= limits.maxRequests;
    }

    method Cleanup(now: int)
      modifies this
      ensures store == Swept(old(store), now)
      ensures forall ip :: ip in store ==> ip in old(store) && store[ip] == old(store)[ip]
      ensures forall ip :: ip in old(store) ==> (ip in store <==> now <= old(store)[ip].resetAt)
    {
      var todo := store.Keys;
      while todo != {}
        invariant store == map ip | ip in old(store) && (ip in todo || !Expired(old(store)[ip], now)) :: old(store)[ip]
        invariant todo <= old(store).Keys
        decreases todo
      {
        var ip :| ip in todo;
        todo := todo - {ip};
        if now > store[ip].resetAt { store := store - {ip}; }
      }
    }
  }

  // ----- traces -----

  /** The store before action k. */
  ghost function StoreAt(l: Limits, actions: seq<Action>, k: nat): map<string, Entry>
    requires k <= |actions|
  {
    if k == 0 then map[]
    else
      var store := StoreAt(l, actions, k - 1);
      match actions[k - 1]
      case Hit(ip, now) => store[ip := EntryAfter(l, store, ip, now)]
      case Sweep(now) => Swept(store, now)
  }

  ghost predicate ClockRuns(actions: seq<Action>) {
    forall i, j :: 0 <= i < j < |actions| ==> actions[i].now <= actions[j].now
  }

  ghost predicate Admitted(l: Limits, actions: seq<Action>, k: nat, ip: string)
    requires k < |actions|
  {
    actions[k].Hit? && actions[k].ip == ip && Admits(l, StoreAt(l, actions, k), ip, actions[k].now)
  }

  // ----- the cleanup changes nothing -----

  /** The stores answer alike from time now on: they differ only in entries already expired. */
  ghost predicate Alike(a: map<string, Entry>, b: map<string, Entry>, now: int) {
    forall ip :: (ip in a && !Expired(a[ip], now) ==> ip in b && b[ip] == a[ip]) && (ip in b && !Expired(b[ip], now) ==> ip in a && a[ip] == b[ip])
  }

  ghost function HitsOnly(actions: seq<Action>): seq<Action> {
    if actions == [] then []
    else HitsOnly(actions[..|actions| - 1]) + (if actions[|actions| - 1].Hit? then [actions[|actions| - 1]] else [])
  }

  lemma HitKeepsAlike(l: Limits, a: map<string, Entry>, b: map<string, Entry>, ip: string, now: int)
    requires Alike(a, b, now)
    ensures Admits(l, a, ip, now) == Admits(l, b, ip, now)
    ensures Alike(a[ip := EntryAfter(l, a, ip, now)], b[ip := EntryAfter(l, b, ip, now)], now)
  {
  }

  lemma {:induction false} StoreWithoutSweeps(l: Limits, actions: seq<Action>, now: int)
    requires ClockRuns(actions) && forall i :: 0 <= i < |actions| ==> actions[i].now <= now
    ensures Alike(StoreAt(l, actions, |actions|), StoreAt(l, HitsOnly(actions), |HitsOnly(actions)|), now)
    decreases |actions|
  {
    if actions != [] {
      var n := |actions| - 1;
      var init, last := actions[..n], actions[n];
      StoreWithoutSweeps(l, init, last.now);
      PrefixStore(l, actions, init, n);
      var a, b := StoreAt(l, init, n), StoreAt(l, HitsOnly(init), |HitsOnly(init)|);
      if last.Hit? {
        PrefixStore(l, HitsOnly(actions), HitsOnly(init), |HitsOnly(init)|);
        HitKeepsAlike(l, a, b, last.ip, last.now);
      } else {
        assert HitsOnly(actions) == HitsOnly(init);
        assert Alike(Swept(a, last.now), b, last.now);
      }
      AlikeFromThenOn(StoreAt(l, actions, n + 1), StoreAt(l, HitsOnly(actions), |HitsOnly(actions)|), last.now, now);
    }
  }

  lemma AlikeFromThenOn(a: map<string, Entry>, b: map<string, Entry>, now: int, later: int)
    requires Alike(a, b, now) && now <= later
    ensures Alike(a, b, later)
  {
  }

  lemma {:induction false} PrefixStore(l: Limits, actions: seq<Action>, prefix: seq<Action>, k: nat)
    requires k <= |prefix| <= |actions| && forall i :: 0 <= i < k ==> prefix[i] == actions[i]
    ensures StoreAt(l, prefix, k) == StoreAt(l, actions, k)
  {
    if k > 0 { PrefixStore(l, actions, prefix, k - 1); }
  }

  /** A request is decided the same way whether or not sweeps ran before it. */
  lemma SweepsChangeNoDecision(l: Limits, actions: seq<Action>, ip: string, now: int)
    requires ClockRuns(actions) && forall i :: 0 <= i < |actions| ==> actions[i].now <= now
    ensures Admits(l, StoreAt(l, actions, |actions|), ip, now)
            == Admits(l, StoreAt(l, HitsOnly(actions), |HitsOnly(actions)|), ip, now)
  {
    StoreWithoutSweeps(l, actions, now);
    HitKeepsAlike(l, StoreAt(l, actions, |actions|), StoreAt(l, HitsOnly(actions), |HitsOnly(actions)|), ip, now);
  }

  // ----- at most twice the limit in any window -----

  /** Requests of the address admitted among actions[i..k]. */
  ghost function Count(l: Limits, actions: seq<Action>, i: nat, k: nat, ip: string): nat
    requires i <= k <= |actions|
    decreases k
  {
    if i == k then 0 else Count(l, actions, i, k - 1, ip) + (if Admitted(l, actions, k - 1, ip) then 1 else 0)
  }

  /** The first request of a window passes whatever the limit is. */
  function Cap(l: Limits): nat {
    if l.maxRequests >= 1 then l.maxRequests else 1
  }

  ghost predicate OpensAt(l: Limits, actions: seq<Action>, m: nat, ip: string)
    requires m < |actions|
  {
    actions[m].Hit? && actions[m].ip == ip && OpensWindow(StoreAt(l, actions, m), ip, actions[m].now)
  }

  lemma {:induction false} CountSplits(l: Limits, actions: seq<Action>, i: nat, m: nat, k: nat, ip: string)
    requires i <= m <= k <= |actions|
    ensures Count(l, actions, i, k, ip) == Count(l, actions, i, m, ip) + Count(l, actions, m, k, ip)
    decreases k
  {
    if m < k { CountSplits(l, actions, i, m, k - 1, ip); }
  }

  lemma {:induction false} CountsArePositive(l: Limits, actions: seq<Action>, k: nat, ip: string)
    requires k <= |actions|
    ensures ip in StoreAt(l, actions, k) ==> StoreAt(l, actions, k)[ip].count >= 1
  {
    if k > 0 { CountsArePositive(l, actions, k - 1, ip); }
  }

  /** While no window opens, the open one lets through less than the limit: its first request came before. */
  lemma {:induction false} WithinOneWindow(l: Limits, actions: seq<Action>, i: nat, k: nat, ip: string)
    requires i <= k <= |actions| && forall m :: i <= m < k ==> !OpensAt(l, actions, m, ip)
    ensures Count(l, actions, i, k, ip) <= Cap(l) - 1
    ensures ip in StoreAt(l, actions, k) ==> Count(l, actions, i, k, ip) <= StoreAt(l, actions, k)[ip].count - 1
    decreases k
  {
    if i == k {
      CountsArePositive(l, actions, k, ip);
    } else {
      WithinOneWindow(l, actions, i, k - 1, ip);
      assert !OpensAt(l, actions, k - 1, ip);
    }
  }

  function Lesser(a: int, b: int): int { if a <= b then a else b }

  /** A window that opened at m stays in the store and lets through its first requests up to the limit, no more and no fewer. */
  lemma {:induction false} FromOpening(l: Limits, actions: seq<Action>, m: nat, k: nat, ip: string)
    requires m < k <= |actions| && OpensAt(l, actions, m, ip)
    requires forall j :: m < j < k ==> actions[j].now <= actions[m].now + l.windowMs
    ensures ip in StoreAt(l, actions, k) && StoreAt(l, actions, k)[ip].resetAt == actions[m].now + l.windowMs
    ensures StoreAt(l, actions, k)[ip].count >= 1
    ensures Count(l, actions, m, k, ip) == Lesser(StoreAt(l, actions, k)[ip].count, Cap(l))
    decreases k
  {
    if m + 1 < k {
      FromOpening(l, actions, m, k - 1, ip);
    } else {
      assert Count(l, actions, m, m, ip) == 0;
    }
  }

  lemma {:induction false} FirstOpening(l: Limits, actions: seq<Action>, i: nat, k: nat, ip: string) returns (m: nat)
    requires i <= k <= |actions|
    ensures i <= m <= k && (m < k ==> OpensAt(l, actions, m, ip))
    ensures forall j :: i <= j < m ==> !OpensAt(l, actions, j, ip)
    decreases k - i
  {
    if i == k || OpensAt(l, actions, i, ip) {
      m := i;
    } else {
      m := FirstOpening(l, actions, i + 1, k, ip);
    }
  }

  /** Every stored entry goes back to the request that opened its window. */
  lemma {:induction false} EntryHasOpening(l: Limits, actions: seq<Action>, k: nat, ip: string) returns (m: nat)
    requires k <= |actions| && ip in StoreAt(l, actions, k)
    ensures m < k && OpensAt(l, actions, m, ip) && StoreAt(l, actions, k)[ip].resetAt == actions[m].now + l.windowMs
  {
    if OpensAt(l, actions, k - 1, ip) {
      m := k - 1;
    } else {
      m := EntryHasOpening(l, actions, k - 1, ip);
    }
  }

  /** A request is refused only inside a window that has already let the limit through. */
  lemma RefusedOnlyAtTheLimit(l: Limits, actions: seq<Action>, k: nat, ip: string) returns (m: nat)
    requires ClockRuns(actions) && k < |actions| && actions[k] == Hit(ip, actions[k].now) && !Admitted(l, actions, k, ip)
    ensures m < k && OpensAt(l, actions, m, ip) && actions[k].now <= actions[m].now + l.windowMs
    ensures Count(l, actions, m, k, ip) == Cap(l)
  {
    m := EntryHasOpening(l, actions, k, ip);
    FromOpening(l, actions, m, k, ip);
  }

  /** In any interval as long as the window, one address gets fewer than twice the limit through. */
  lemma AdmissionsAreBounded(l: Limits, actions: seq<Action>, i: nat, j: nat, ip: string)
    requires ClockRuns(actions) && i <= j < |actions| && actions[j].now - actions[i].now <= l.windowMs
    ensures Count(l, actions, i, j + 1, ip) <= 2 * Cap(l) - 1
  {
    var m := FirstOpening(l, actions, i, j + 1, ip);
    WithinOneWindow(l, actions, i, m, ip);
    if m < j + 1 {
      FromOpening(l, actions, m, j + 1, ip);
      CountSplits(l, actions, i, m, j + 1, ip);
    }
  }
}
