/**
 The in-memory fixed-window rate limiter of backend/app/rate_limit.py, compared with a counter that
 never forgets. Times are real numbers.
 */
module RateLimiter {
  import opened Dicts
  import opened Lists

  datatype Policy = Policy(requests: int, windowSeconds: real)

  datatype Bucket = Bucket(window: int, count: nat)

  type Buckets<K> = Dict<K, Bucket>

  // ---------------------------------------------------------------- windows

  function WindowOf(now: real, w: real): int
    requires w > 0.0
  {
    (now / w).Floor
  }

  /** The time at which a window starts. */
  function Start(f: int, w: real): real {
    f as real * w
  }

  function Ceil(x: real): int {
    -((-x).Floor)
  }

  function RetryAfter(now: real, w: real): int
    requires w > 0.0
  {
    var left := Ceil(Start(WindowOf(now, w) + 1, w) - now);
    if left < 0 then 0 else left
  }

  lemma {:induction false} TimesPositive(a: real, b: real, w: real)
    requires w > 0.0
    ensures a <= b ==> a * w <= b * w
    ensures a < b ==> a * w < b * w
  {
  }

  lemma {:induction false} NextWindow(f: int, w: real)
    ensures Start(f + 1, w) == Start(f, w) + w
  {
    assert (f + 1) as real == f as real + 1.0;
    assert (f as real + 1.0) * w == f as real * w + w;
  }

  lemma {:induction false} WindowBounds(now: real, w: real)
    requires w > 0.0
    ensures Start(WindowOf(now, w), w) <= now < Start(WindowOf(now, w), w) + w
  {
    var x := now / w;
    assert x * w == now;
    var f := x.Floor as real;
    assert f <= x;
    assert x < f + 1.0;
    TimesPositive(f, x, w);
    TimesPositive(x, f + 1.0, w);
    assert x * w < (f + 1.0) * w;
    assert (f + 1.0) * w == f * w + w;
    assert now < f * w + w;
    assert f == WindowOf(now, w) as real;
  }

  /** An earlier window ends before a later one starts. */
  lemma {:induction false} WindowsApart(a: int, b: int, w: real)
    requires w > 0.0 && a < b
    ensures Start(a, w) + w <= Start(b, w)
  {
    NextWindow(a, w);
    assert (a + 1) as real <= b as real;
    TimesPositive((a + 1) as real, b as real, w);
  }

  lemma {:induction false} WindowMonotone(a: real, b: real, w: real)
    requires w > 0.0 && a <= b
    ensures WindowOf(a, w) <= WindowOf(b, w)
  {
    WindowBounds(a, w);
    WindowBounds(b, w);
    if WindowOf(a, w) > WindowOf(b, w) {
      WindowsApart(WindowOf(b, w), WindowOf(a, w), w);
      hide Start;
    }
  }

  /** Waiting as told always lands in a later window, and takes at least a second and at most a window. */
  lemma {:induction false} WaitingIsEnough(now: real, later: real, w: real)
    requires w > 0.0 && later >= now + RetryAfter(now, w) as real
    ensures 1 <= RetryAfter(now, w) <= Ceil(w)
    ensures WindowOf(later, w) > WindowOf(now, w)
  {
    var f, g := WindowOf(now, w), WindowOf(later, w);
    WindowBounds(now, w);
    WindowBounds(later, w);
    NextWindow(f, w);
    hide Start;
    assert later >= Start(f, w) + w;
    if g < f {
      WindowsApart(g, f, w);
    }
  }

  /** An interval as long as a window meets two windows at most. */
  lemma {:induction false} TwoWindows(start: real, t: real, w: real)
    requires w > 0.0 && start <= t < start + w
    ensures WindowOf(t, w) == WindowOf(start, w) || WindowOf(t, w) == WindowOf(start, w) + 1
  {
    var f := WindowOf(start, w);
    WindowMonotone(start, t, w);
    WindowBounds(start, w);
    WindowBounds(t, w);
    NextWindow(f, w);
    hide Start;
    if WindowOf(t, w) >= f + 2 {
      WindowsApart(f + 1, WindowOf(t, w), w);
    }
  }

  // ---------------------------------------------------------------- one hit on the buckets

  function PopAll<K(==)>(b: Buckets<K>, ks: seq<K>): Buckets<K>
    decreases |ks|
  {
    if ks == [] then b else PopAll(b.Pop(ks[0]), ks[1..])
  }

  /** The keys whose bucket is of another window, oldest first. */
  function Expired<K(==)>(b: Buckets<K>, ks: seq<K>, window: int): seq<K> {
    if ks == [] then []
    else (if ks[0] in b.m && b.m[ks[0]].window != window then [ks[0]] else []) + Expired(b, ks[1..], window)
  }

  function DropOldest<K(==)>(b: Buckets<K>, maxKeys: nat): Buckets<K>
    requires maxKeys > 0
    decreases |b.keys|
  {
    if |b.keys| < maxKeys then b
    else
      WithoutShrinks(b.keys, b.keys[0]);
      DropOldest(b.Pop(b.keys[0]), maxKeys)
  }

  function Evict<K(==)>(b: Buckets<K>, maxKeys: nat, key: K, window: int): Buckets<K>
    requires maxKeys > 0
  {
    if key in b.m || |b.keys| < maxKeys then b
    else DropOldest(PopAll(b, Expired(b, b.keys, window)), maxKeys)
  }

  function NextCount<K(==)>(b: Buckets<K>, key: K, window: int): nat {
    if key in b.m && b.m[key].window == window then b.m[key].count + 1 else 1
  }

  /** The buckets after a hit. */
  function AfterHit<K(==)>(b: Buckets<K>, maxKeys: nat, key: K, window: int): Buckets<K>
    requires maxKeys > 0
  {
    var kept := Evict(b, maxKeys, key, window);
    kept.Pop(key).Put(key, Bucket(window, NextCount(kept, key, window)))
  }

  lemma {:induction false} WithoutShrinks<K>(ks: seq<K>, k: K)
    ensures |Without(ks, k)| <= |ks|
    ensures k in ks ==> |Without(ks, k)| < |ks|
    ensures forall x :: x in Without(ks, k) <==> x in ks && x != k
  {
    if ks != [] {
      WithoutShrinks(ks[1..], k);
      assert ks == [ks[0]] + ks[1..];
    }
  }

  lemma {:induction false} WithoutStep<K>(ks: seq<K>, k: K)
    requires ks != []
    ensures Without(ks, k) == if ks[0] == k then Without(ks[1..], k) else [ks[0]] + Without(ks[1..], k)
  {
  }

  lemma {:induction false} WithoutDistinct<K>(ks: seq<K>, k: K)
    requires Distinct(ks)
    ensures Distinct(Without(ks, k))
    ensures k in ks ==> |Without(ks, k)| == |ks| - 1
    ensures k !in ks ==> Without(ks, k) == ks
  {
    if ks != [] {
      WithoutDistinct(ks[1..], k);
      WithoutShrinks(ks[1..], k);
      assert ks[0] !in ks[1..] && ks == [ks[0]] + ks[1..];
      hide Without;
      var rest := Without(ks[1..], k);
      assert Without(ks, k) == if ks[0] == k then rest else [ks[0]] + rest by { WithoutStep(ks, k); }
    }
  }

  lemma {:induction false} PopValid<K(!new)>(b: Buckets<K>, k: K)
    requires b.Valid()
    ensures b.Pop(k).Valid()
    ensures |b.Pop(k).keys| == |b.keys| - (if k in b.m then 1 else 0)
  {
    WithoutDistinct(b.keys, k);
    WithoutShrinks(b.keys, k);
  }

  /** Evicting only takes entries away. */
  ghost predicate Part<K(!new)>(a: Buckets<K>, b: Buckets<K>) {
    forall k :: k in a.m ==> k in b.m && a.m[k] == b.m[k]
  }

  lemma {:induction false} PopAllMeaning<K(!new)>(b: Buckets<K>, ks: seq<K>)
    requires b.Valid()
    ensures PopAll(b, ks).Valid()
    ensures forall k :: k in PopAll(b, ks).m <==> k in b.m && k !in ks
    ensures Part(PopAll(b, ks), b)
    decreases |ks|
  {
    if ks != [] {
      PopValid(b, ks[0]);
      PopAllMeaning(b.Pop(ks[0]), ks[1..]);
      assert ks == [ks[0]] + ks[1..];
    }
  }

  lemma {:induction false} ExpiredMeaning<K(!new)>(b: Buckets<K>, ks: seq<K>, window: int)
    ensures forall k :: k in Expired(b, ks, window) <==> k in ks && k in b.m && b.m[k].window != window
  {
    if ks != [] {
      ExpiredMeaning(b, ks[1..], window);
      assert ks == [ks[0]] + ks[1..];
    }
  }

  lemma {:induction false} DropOldestMeaning<K(!new)>(b: Buckets<K>, maxKeys: nat)
    requires b.Valid() && maxKeys > 0
    ensures DropOldest(b, maxKeys).Valid() && |DropOldest(b, maxKeys).keys| < maxKeys
    ensures Part(DropOldest(b, maxKeys), b)
    decreases |b.keys|
  {
    if |b.keys| >= maxKeys {
      assert b.keys[0] in b.keys;
      PopValid(b, b.keys[0]);
      DropOldestMeaning(b.Pop(b.keys[0]), maxKeys);
    }
  }

  /** The keys with a bucket of the given window. */
  ghost function KeysIn<K>(b: Buckets<K>, window: int): set<K> {
    set k | k in b.m && b.m[k].window == window
  }

  lemma {:induction false} KeyCount<K(!new)>(b: Buckets<K>)
    requires b.Valid()
    ensures |b.m| == |b.keys|
  {
    DistinctSize(b.keys);
  }

  lemma {:induction false} DistinctSize<K(!new)>(ks: seq<K>)
    requires Distinct(ks)
    ensures |set k | k in ks| == |ks|
  {
    if ks != [] {
      DistinctSize(ks[1..]);
      assert ks == [ks[0]] + ks[1..];
      assert (set k | k in ks) == {ks[0]} + set k | k in ks[1..];
    }
  }

  lemma {:induction false} EvictMeaning<K(!new)>(b: Buckets<K>, maxKeys: nat, key: K, window: int)
    requires b.Valid() && maxKeys > 0 && |b.keys| <= maxKeys
    ensures var e := Evict(b, maxKeys, key, window);
      && e.Valid() && Part(e, b) && |e.keys| <= maxKeys && (key in e.m <==> key in b.m)
      && (key !in b.m ==> |e.keys| < maxKeys)
      && (key in b.m || |KeysIn(b, window)| < maxKeys ==> KeysIn(b, window) <= e.m.Keys)
  {
    if key !in b.m && |b.keys| >= maxKeys {
      var dead := Expired(b, b.keys, window);
      var live := PopAll(b, dead);
      ExpiredMeaning(b, b.keys, window);
      PopAllMeaning(b, dead);
      DropOldestMeaning(live, maxKeys);
      assert live.m.Keys == KeysIn(b, window);
      KeyCount(live);
    }
  }

  lemma {:induction false} AfterHitMeaning<K(!new)>(b: Buckets<K>, maxKeys: nat, key: K, window: int)
    requires b.Valid() && maxKeys > 0 && |b.keys| <= maxKeys
    ensures var a := AfterHit(b, maxKeys, key, window);
      && a.Valid() && |a.keys| <= maxKeys
      && key in a.m && a.m[key] == Bucket(window, NextCount(b, key, window))
      && (forall k :: k in a.m && k != key ==> k in b.m && a.m[k] == b.m[k])
      && (key in b.m || |KeysIn(b, window)| < maxKeys ==> KeysIn(b, window) <= a.m.Keys)
  {
    var e := Evict(b, maxKeys, key, window);
    EvictMeaning(b, maxKeys, key, window);
    PopValid(e, key);
    hide Evict;
  }

  // ---------------------------------------------------------------- the limiter object

  class InMemoryFixedWindowRateLimiter<K(==, !new)> {
    const maxKeys: nat
    var buckets: Buckets<K>

    ghost predicate Valid()
      reads this
    {
      maxKeys > 0 && buckets.Valid() && |buckets.keys| <= maxKeys
    }

    constructor (maxKeys: nat)
      requires maxKeys > 0
      ensures Valid() && this.maxKeys == maxKeys && buckets == Dict([], map[])
    {
      this.maxKeys := maxKeys;
      buckets := Dict([], map[]);
    }

    method Hit(key: K, policy: Policy, now: real) returns (allowed: bool, retryAfter: int)
      requires Valid()
      modifies this`buckets
      ensures Valid()
      ensures policy.windowSeconds <= 0.0 ==> buckets == old(buckets) && allowed && retryAfter == 0
      ensures policy.windowSeconds > 0.0 && policy.requests <= 0 ==>
        buckets == old(buckets) && !allowed && retryAfter == Ceil(policy.windowSeconds)
      ensures policy.windowSeconds > 0.0 && policy.requests > 0 ==>
        var window := WindowOf(now, policy.windowSeconds);
        && buckets == AfterHit(old(buckets), maxKeys, key, window)
        && (allowed <==> buckets.m[key].count <= policy.requests)
        && retryAfter == RetryAfter(now, policy.windowSeconds)
    {
      if policy.windowSeconds <= 0.0 {
        return true, 0;
      }
      if policy.requests <= 0 {
        return false, Ceil(policy.windowSeconds);
      }
      var window := WindowOf(now, policy.windowSeconds);
      retryAfter := RetryAfter(now, policy.windowSeconds);
      AfterHitMeaning(buckets, maxKeys, key, window);
      if key !in buckets.m && |buckets.keys| >= maxKeys {
        var expired := Expired(buckets, buckets.keys, window);
        ExpiredMeaning(buckets, buckets.keys, window);
        PopAllMeaning(buckets, expired);
        var i := 0;
        while i < |expired|
          invariant i <= |expired| && PopAll(buckets, expired[i..]) == PopAll(old(buckets), expired)
        {
          buckets := buckets.Pop(expired[i]);
          i := i + 1;
        }
        assert expired[i..] == [];
        DropOldestMeaning(buckets, maxKeys);
        while key !in buckets.m && |buckets.keys| >= maxKeys
          invariant buckets.Valid() && key !in buckets.m
          invariant DropOldest(buckets, maxKeys) == DropOldest(PopAll(old(buckets), expired), maxKeys)
          decreases |buckets.keys|
        {
          var oldest := buckets.keys[0];
          assert oldest in buckets.keys;
          PopValid(buckets, oldest);
          buckets := buckets.Pop(oldest);
        }
      }
      assert buckets == Evict(old(buckets), maxKeys, key, window);
      var count := NextCount(buckets, key, window);
      buckets := buckets.Pop(key);
      buckets := buckets.Put(key, Bucket(window, count));
      allowed := count <= policy.requests;
    }
  }

  // ---------------------------------------------------------------- histories of hits

  datatype Event<K> = Event(key: K, now: real)

  /** The buckets after a history of hits under one policy. */
  ghost function Run<K(!new)>(hits: seq<Event<K>>, maxKeys: nat, w: real): Buckets<K>
    requires maxKeys > 0 && w > 0.0
  {
    if hits == [] then Dict([], map[])
    else
      var last := hits[|hits| - 1];
      AfterHit(Run(hits[..|hits| - 1], maxKeys, w), maxKeys, last.key, WindowOf(last.now, w))
  }

  /** The count that the limiter compares with the limit at the last hit. */
  ghost function BoundedCount<K(!new)>(hits: seq<Event<K>>, maxKeys: nat, w: real): nat
    requires maxKeys > 0 && w > 0.0 && hits != []
  {
    var last := hits[|hits| - 1];
    NextCount(Run(hits[..|hits| - 1], maxKeys, w), last.key, WindowOf(last.now, w))
  }

  /** How often a key was hit in a window: what a counter that never forgets would say. */
  ghost function Exact<K>(hits: seq<Event<K>>, w: real, key: K, window: int): nat
    requires w > 0.0
  {
    if hits == [] then 0
    else
      var last := hits[|hits| - 1];
      Exact(hits[..|hits| - 1], w, key, window) + (if last.key == key && WindowOf(last.now, w) == window then 1 else 0)
  }

  ghost function ExactCount<K>(hits: seq<Event<K>>, w: real): nat
    requires w > 0.0 && hits != []
  {
    Exact(hits, w, hits[|hits| - 1].key, WindowOf(hits[|hits| - 1].now, w))
  }

  ghost predicate NonDecreasing<K>(hits: seq<Event<K>>) {
    forall i, j :: 0 <= i < j < |hits| ==> hits[i].now <= hits[j].now
  }

  /** The different keys hit in a window. */
  ghost function KeysHit<K>(hits: seq<Event<K>>, w: real, window: int): set<K>
    requires w > 0.0
  {
    set h | h in hits && WindowOf(h.now, w) == window :: h.key
  }

  /** The memory bound holds at all times. */
  lemma {:induction false} SizeBounded<K(!new)>(hits: seq<Event<K>>, maxKeys: nat, w: real)
    requires maxKeys > 0 && w > 0.0
    ensures Run(hits, maxKeys, w).Valid() && |Run(hits, maxKeys, w).keys| <= maxKeys
  {
    if hits != [] {
      var init, last := hits[..|hits| - 1], hits[|hits| - 1];
      SizeBounded(init, maxKeys, w);
      AfterHitMeaning(Run(init, maxKeys, w), maxKeys, last.key, WindowOf(last.now, w));
    }
  }

  ghost predicate Covered<K(!new)>(b: Buckets<K>, hits: seq<Event<K>>, w: real, k: K)
    requires w > 0.0
  {
    k in b.m ==> 1 <= b.m[k].count <= Exact(hits, w, k, b.m[k].window)
  }

  lemma {:induction false} NeverCountsMore<K(!new)>(hits: seq<Event<K>>, maxKeys: nat, w: real, k: K)
    requires maxKeys > 0 && w > 0.0
    ensures Covered(Run(hits, maxKeys, w), hits, w, k)
  {
    if hits != [] {
      var init, last := hits[..|hits| - 1], hits[|hits| - 1];
      SizeBounded(init, maxKeys, w);
      NeverCountsMore(init, maxKeys, w, k);
      AfterHitMeaning(Run(init, maxKeys, w), maxKeys, last.key, WindowOf(last.now, w));
      hide AfterHit, WindowOf;
    }
  }

  /** The limiter never rejects a hit that the exact counter would allow, whatever the clock does. */
  lemma {:induction false} NeverStricter<K(!new)>(hits: seq<Event<K>>, maxKeys: nat, w: real)
    requires maxKeys > 0 && w > 0.0 && hits != []
    ensures 1 <= BoundedCount(hits, maxKeys, w) <= ExactCount(hits, w)
  {
    var init, last := hits[..|hits| - 1], hits[|hits| - 1];
    NeverCountsMore(init, maxKeys, w, last.key);
    hide Run, WindowOf;
  }

  lemma {:induction false} ExactIsHit<K>(hits: seq<Event<K>>, w: real, k: K, window: int)
    requires w > 0.0
    ensures Exact(hits, w, k, window) > 0 <==> k in KeysHit(hits, w, window)
  {
    hide WindowOf;
    if hits != [] {
      var init, last := hits[..|hits| - 1], hits[|hits| - 1];
      ExactIsHit(init, w, k, window);
      assert hits == init + [last];
    }
  }

  /** While a window sees at most `maxKeys` keys, the limiter holds its exact counts. */
  ghost predicate HoldsExact<K(!new)>(b: Buckets<K>, hits: seq<Event<K>>, w: real, window: int)
    requires w > 0.0
  {
    && KeysIn(b, window) == KeysHit(hits, w, window)
    && forall k :: k in KeysIn(b, window) ==> b.m[k].count == Exact(hits, w, k, window)
  }

  lemma {:induction false} KeysHitStep<K>(init: seq<Event<K>>, last: Event<K>, w: real, window: int)
    requires w > 0.0
    ensures KeysHit(init + [last], w, window) ==
      KeysHit(init, w, window) + (if WindowOf(last.now, w) == window then {last.key} else {})
  {
    hide WindowOf;
    var hits := init + [last];
    forall k ensures k in KeysHit(hits, w, window) <==>
      k in KeysHit(init, w, window) || (k == last.key && WindowOf(last.now, w) == window)
    {
      if k in KeysHit(init, w, window) {
        var h :| h in init && WindowOf(h.now, w) == window && h.key == k;
        assert h in hits;
      }
      if k == last.key && WindowOf(last.now, w) == window {
        assert last in hits;
      }
    }
  }

  lemma {:induction false} EarlierHits<K>(hits: seq<Event<K>>, w: real, window: int)
    requires w > 0.0 && NonDecreasing(hits) && hits != [] && WindowOf(hits[|hits| - 1].now, w) < window
    ensures KeysHit(hits, w, window) == {}
  {
    forall h | h in hits ensures WindowOf(h.now, w) < window {
      var i :| 0 <= i < |hits| && hits[i] == h;
      WindowMonotone(h.now, hits[|hits| - 1].now, w);
    }
  }

  /** What a hit does to the buckets of its window when nothing live is evicted. */
  ghost predicate Counted<K(!new)>(a: Buckets<K>, b: Buckets<K>, key: K, window: int) {
    && KeysIn(a, window) == KeysIn(b, window) + {key}
    && a.m[key].count == NextCount(b, key, window)
    && forall k :: k in KeysIn(b, window) && k != key ==> a.m[k].count == b.m[k].count
  }

  lemma {:induction false} HitCounts<K(!new)>(b: Buckets<K>, maxKeys: nat, key: K, window: int)
    requires maxKeys > 0 && b.Valid() && |b.keys| <= maxKeys
    requires key in b.m || |KeysIn(b, window)| < maxKeys
    ensures Counted(AfterHit(b, maxKeys, key, window), b, key, window)
  {
    var a := AfterHit(b, maxKeys, key, window);
    AfterHitMeaning(b, maxKeys, key, window);
    hide AfterHit;
    assert KeysIn(a, window) == KeysIn(b, window) + {key};
  }

  lemma {:induction false} ExactStep<K>(init: seq<Event<K>>, last: Event<K>, w: real, k: K, window: int)
    requires w > 0.0
    ensures Exact(init + [last], w, k, window) ==
      Exact(init, w, k, window) + (if last.key == k && WindowOf(last.now, w) == window then 1 else 0)
  {
    assert (init + [last])[..|init|] == init;
  }

  lemma {:induction false} CountedKeepsExact<K(!new)>(a: Buckets<K>, b: Buckets<K>, init: seq<Event<K>>,
    last: Event<K>, w: real)
    requires w > 0.0 && HoldsExact(b, init, w, WindowOf(last.now, w))
    requires Counted(a, b, last.key, WindowOf(last.now, w))
    ensures HoldsExact(a, init + [last], w, WindowOf(last.now, w))
  {
    var window := WindowOf(last.now, w);
    KeysHitStep(init, last, w, window);
    ExactIsHit(init, w, last.key, window);
    hide KeysHit, WindowOf;
    forall k | k in KeysIn(a, window) ensures a.m[k].count == Exact(init + [last], w, k, window) {
      ExactStep(init, last, w, k, window);
      hide Exact;
    }
  }

  /** A hit in a window that it does not overflow. */
  lemma {:induction false} HitKeepsExact<K(!new)>(b: Buckets<K>, init: seq<Event<K>>, last: Event<K>, maxKeys: nat,
    w: real)
    requires w > 0.0 && maxKeys > 0 && b.Valid() && |b.keys| <= maxKeys
    requires HoldsExact(b, init, w, WindowOf(last.now, w))
    requires |KeysHit(init + [last], w, WindowOf(last.now, w))| <= maxKeys
    ensures HoldsExact(AfterHit(b, maxKeys, last.key, WindowOf(last.now, w)), init + [last], w, WindowOf(last.now, w))
  {
    var window := WindowOf(last.now, w);
    KeysHitStep(init, last, w, window);
    hide AfterHit, KeysHit, WindowOf, Exact;
    if last.key !in KeysIn(b, window) {
      assert |KeysIn(b, window) + {last.key}| == |KeysIn(b, window)| + 1;
    }
    HitCounts(b, maxKeys, last.key, window);
    CountedKeepsExact(AfterHit(b, maxKeys, last.key, window), b, init, last, w);
  }

  lemma {:induction false} EarlierPart<K>(init: seq<Event<K>>, last: Event<K>, w: real)
    requires w > 0.0 && NonDecreasing(init + [last])
    ensures NonDecreasing(init)
    ensures init != [] ==> WindowOf(init[|init| - 1].now, w) <= WindowOf(last.now, w)
  {
    var hits := init + [last];
    assert forall i :: 0 <= i < |init| ==> hits[i] == init[i];
    assert hits[|init|] == last;
    if init != [] {
      WindowMonotone(init[|init| - 1].now, last.now, w);
    }
    hide WindowOf;
  }

  lemma {:induction false} RunStep<K(!new)>(init: seq<Event<K>>, last: Event<K>, maxKeys: nat, w: real)
    requires maxKeys > 0 && w > 0.0
    ensures Run(init + [last], maxKeys, w) ==
      AfterHit(Run(init, maxKeys, w), maxKeys, last.key, WindowOf(last.now, w))
  {
    hide AfterHit, WindowOf;
    assert (init + [last])[..|init|] == init;
  }

  lemma {:induction false} NoHits<K(!new)>(maxKeys: nat, w: real, window: int)
    requires maxKeys > 0 && w > 0.0
    ensures HoldsExact<K>(Run([], maxKeys, w), [], w, window)
  {
    assert KeysHit<K>([], w, window) == {};
    assert KeysIn(Run<K>([], maxKeys, w), window) == {};
  }

  lemma {:induction false} CountsAreExact<K(!new)>(hits: seq<Event<K>>, maxKeys: nat, w: real, window: int)
    requires maxKeys > 0 && w > 0.0 && NonDecreasing(hits)
    requires hits != [] ==> WindowOf(hits[|hits| - 1].now, w) <= window
    requires |KeysHit(hits, w, window)| <= maxKeys
    ensures HoldsExact(Run(hits, maxKeys, w), hits, w, window)
  {
    hide Run, KeysHit, WindowOf, NonDecreasing, HoldsExact, AfterHit;
    if hits == [] {
      NoHits<K>(maxKeys, w, window);
    } else {
      var init, last := hits[..|hits| - 1], hits[|hits| - 1];
      assert hits == init + [last];
      if WindowOf(last.now, w) == window {
        EarlierPart(init, last, w);
        KeysHitStep(init, last, w, window);
        SubsetSize(KeysHit(init, w, window), KeysHit(hits, w, window));
        SizeBounded(init, maxKeys, w);
        CountsAreExact(init, maxKeys, w, window);
        HitKeepsExact(Run(init, maxKeys, w), init, last, maxKeys, w);
        RunStep(init, last, maxKeys, w);
      } else {
        EarlierHits(hits, w, window);
        NothingYet(hits, maxKeys, w, window);
      }
    }
  }

  /** A window in which nothing was hit has no buckets. */
  lemma {:induction false} NothingYet<K(!new)>(hits: seq<Event<K>>, maxKeys: nat, w: real, window: int)
    requires maxKeys > 0 && w > 0.0 && KeysHit(hits, w, window) == {}
    ensures HoldsExact(Run(hits, maxKeys, w), hits, w, window)
  {
    var b := Run(hits, maxKeys, w);
    hide WindowOf, KeysHit, Run;
    forall k ensures k !in KeysIn(b, window) {
      NeverCountsMore(hits, maxKeys, w, k);
      ExactIsHit(hits, w, k, window);
    }
  }

  lemma {:induction false} NextIsExact<K(!new)>(b: Buckets<K>, init: seq<Event<K>>, last: Event<K>, w: real,
    window: int)
    requires w > 0.0 && HoldsExact(b, init, w, window) && window == WindowOf(last.now, w)
    ensures NextCount(b, last.key, window) == Exact(init + [last], w, last.key, window)
  {
    ExactStep(init, last, w, last.key, window);
    ExactIsHit(init, w, last.key, window);
    hide Exact, KeysHit, WindowOf;
  }

  lemma {:induction false} HeldBefore<K(!new)>(init: seq<Event<K>>, last: Event<K>, maxKeys: nat, w: real, window: int)
    requires maxKeys > 0 && w > 0.0 && NonDecreasing(init + [last]) && window == WindowOf(last.now, w)
    requires |KeysHit(init + [last], w, window)| <= maxKeys
    ensures HoldsExact(Run(init, maxKeys, w), init, w, window)
  {
    hide Run, KeysHit, WindowOf, NonDecreasing, HoldsExact;
    EarlierPart(init, last, w);
    KeysHitStep(init, last, w, window);
    SubsetSize(KeysHit(init, w, window), KeysHit(init + [last], w, window));
    CountsAreExact(init, maxKeys, w, window);
  }

  /** In a window with at most `maxKeys` keys, the limiter decides as the exact counter does. */
  lemma {:induction false} SameDecision<K(!new)>(hits: seq<Event<K>>, maxKeys: nat, w: real)
    requires maxKeys > 0 && w > 0.0 && NonDecreasing(hits) && hits != []
    requires |KeysHit(hits, w, WindowOf(hits[|hits| - 1].now, w))| <= maxKeys
    ensures BoundedCount(hits, maxKeys, w) == ExactCount(hits, w)
  {
    hide Run, KeysHit, WindowOf, NonDecreasing, HoldsExact, Exact, NextCount;
    var init, last := hits[..|hits| - 1], hits[|hits| - 1];
    assert hits == init + [last];
    HeldBefore(init, last, maxKeys, w, WindowOf(last.now, w));
    NextIsExact(Run(init, maxKeys, w), init, last, w, WindowOf(last.now, w));
  }

  // ---------------------------------------------------------------- what callers get

  /** The hits of a key in a window that were let through. */
  ghost function AllowedIn<K(!new)>(hits: seq<Event<K>>, maxKeys: nat, policy: Policy, key: K, window: int): nat
    requires maxKeys > 0 && policy.windowSeconds > 0.0
  {
    if hits == [] then 0
    else
      var last := hits[|hits| - 1];
      AllowedIn(hits[..|hits| - 1], maxKeys, policy, key, window)
      + (if last.key == key && WindowOf(last.now, policy.windowSeconds) == window
            && BoundedCount(hits, maxKeys, policy.windowSeconds) <= policy.requests then 1 else 0)
  }

  /** The hits of a key within one window's length from a start that were let through. */
  ghost function AllowedFrom<K(!new)>(hits: seq<Event<K>>, maxKeys: nat, policy: Policy, key: K, start: real): nat
    requires maxKeys > 0 && policy.windowSeconds > 0.0
  {
    if hits == [] then 0
    else
      var last := hits[|hits| - 1];
      AllowedFrom(hits[..|hits| - 1], maxKeys, policy, key, start)
      + (if last.key == key && start <= last.now < start + policy.windowSeconds
            && BoundedCount(hits, maxKeys, policy.windowSeconds) <= policy.requests then 1 else 0)
  }

  /** The window sees no more keys than the limiter has room for, so none of its buckets is evicted. */
  ghost predicate RoomIn<K(!new)>(hits: seq<Event<K>>, maxKeys: nat, w: real, window: int)
    requires w > 0.0
  {
    |KeysHit(hits, w, window)| <= maxKeys
  }

  lemma {:induction false} RoomBefore<K(!new)>(init: seq<Event<K>>, last: Event<K>, maxKeys: nat, w: real, window: int)
    requires w > 0.0 && RoomIn(init + [last], maxKeys, w, window) && NonDecreasing(init + [last])
    ensures RoomIn(init, maxKeys, w, window) && NonDecreasing(init)
  {
    var hits := init + [last];
    assert forall i :: 0 <= i < |init| ==> hits[i] == init[i];
    KeysHitStep(init, last, w, window);
    SubsetSize(KeysHit(init, w, window), KeysHit(hits, w, window));
    hide WindowOf, KeysHit;
  }

  lemma {:induction false} AllowedInBound<K(!new)>(
    hits: seq<Event<K>>, maxKeys: nat, policy: Policy, key: K, window: int)
    requires maxKeys > 0 && policy.windowSeconds > 0.0 && policy.requests > 0
    requires NonDecreasing(hits) && RoomIn(hits, maxKeys, policy.windowSeconds, window)
    ensures AllowedIn(hits, maxKeys, policy, key, window) <= policy.requests
    ensures AllowedIn(hits, maxKeys, policy, key, window) <= Exact(hits, policy.windowSeconds, key, window)
  {
    if hits != [] {
      var init, last := hits[..|hits| - 1], hits[|hits| - 1];
      assert hits == init + [last];
      RoomBefore(init, last, maxKeys, policy.windowSeconds, window);
      AllowedInBound(init, maxKeys, policy, key, window);
      if WindowOf(last.now, policy.windowSeconds) == window {
        SameDecision(hits, maxKeys, policy.windowSeconds);
      }
      hide WindowOf, BoundedCount, NonDecreasing;
    }
  }

  lemma {:induction false} AllowedFromSplits<K(!new)>(hits: seq<Event<K>>, maxKeys: nat, policy: Policy, key: K,
    start: real)
    requires maxKeys > 0 && policy.windowSeconds > 0.0
    ensures var first := WindowOf(start, policy.windowSeconds);
      AllowedFrom(hits, maxKeys, policy, key, start) <=
        AllowedIn(hits, maxKeys, policy, key, first) + AllowedIn(hits, maxKeys, policy, key, first + 1)
  {
    if hits != [] {
      var init, last := hits[..|hits| - 1], hits[|hits| - 1];
      AllowedFromSplits(init, maxKeys, policy, key, start);
      if start <= last.now < start + policy.windowSeconds {
        TwoWindows(start, last.now, policy.windowSeconds);
      }
      hide WindowOf, BoundedCount;
    }
  }

  /** Any stretch of one window's length lets at most twice the limit through, given room in the windows it meets. */
  lemma {:induction false} AtMostTwiceTheLimit<K(!new)>(hits: seq<Event<K>>, maxKeys: nat, policy: Policy, key: K,
    start: real)
    requires maxKeys > 0 && policy.windowSeconds > 0.0 && policy.requests > 0 && NonDecreasing(hits)
    requires RoomIn(hits, maxKeys, policy.windowSeconds, WindowOf(start, policy.windowSeconds))
    requires RoomIn(hits, maxKeys, policy.windowSeconds, WindowOf(start, policy.windowSeconds) + 1)
    ensures AllowedFrom(hits, maxKeys, policy, key, start) <= 2 * policy.requests
  {
    hide WindowOf, RoomIn, AllowedIn, AllowedFrom, NonDecreasing, Exact;
    var first := WindowOf(start, policy.windowSeconds);
    AllowedFromSplits(hits, maxKeys, policy, key, start);
    AllowedInBound(hits, maxKeys, policy, key, first);
    AllowedInBound(hits, maxKeys, policy, key, first + 1);
  }

  /** A hit is let through when its window has seen fewer than the limit of its key, whatever was evicted. */
  lemma {:induction false} RoomForKey<K(!new)>(hits: seq<Event<K>>, maxKeys: nat, policy: Policy, hit: Event<K>)
    requires maxKeys > 0 && policy.windowSeconds > 0.0
    requires Exact(hits, policy.windowSeconds, hit.key, WindowOf(hit.now, policy.windowSeconds)) < policy.requests
    ensures BoundedCount(hits + [hit], maxKeys, policy.windowSeconds) <= policy.requests
  {
    hide WindowOf, BoundedCount, Exact;
    var w := policy.windowSeconds;
    NeverStricter(hits + [hit], maxKeys, w);
    ExactStep(hits, hit, w, hit.key, WindowOf(hit.now, w));
  }

  lemma {:induction false} ExactWithout<K>(
    before: seq<Event<K>>, e: Event<K>, after: seq<Event<K>>, w: real, k: K, window: int)
    requires w > 0.0 && WindowOf(e.now, w) != window
    ensures Exact(before + [e] + after, w, k, window) == Exact(before + after, w, k, window)
  {
    hide WindowOf, Exact;
    if after == [] {
      assert before + [e] + after == before + [e] && before + after == before;
      ExactStep(before, e, w, k, window);
    } else {
      var init, last := after[..|after| - 1], after[|after| - 1];
      ExactWithout(before, e, init, w, k, window);
      ExactStep(before + [e] + init, last, w, k, window);
      ExactStep(before + init, last, w, k, window);
      assert before + [e] + after == before + [e] + init + [last] && before + after == before + init + [last];
    }
  }

  /**
   A rejected caller who waits as told is let through, whatever other keys were hit in between, unless its key
   has used up the limit of the new window with other hits.
   */
  lemma {:induction false} WaitingHelps<K(!new)>(before: seq<Event<K>>, rejected: Event<K>, between: seq<Event<K>>,
    retry: Event<K>, maxKeys: nat, policy: Policy)
    requires maxKeys > 0 && policy.windowSeconds > 0.0
    requires retry.key == rejected.key
      && retry.now >= rejected.now + RetryAfter(rejected.now, policy.windowSeconds) as real
    requires Exact(before + between, policy.windowSeconds, retry.key, WindowOf(retry.now, policy.windowSeconds))
      < policy.requests
    ensures BoundedCount(before + [rejected] + between + [retry], maxKeys, policy.windowSeconds) <= policy.requests
  {
    hide WindowOf, BoundedCount, Exact, RetryAfter;
    var w := policy.windowSeconds;
    WaitingIsEnough(rejected.now, retry.now, w);
    ExactWithout(before, rejected, between, w, retry.key, WindowOf(retry.now, w));
    RoomForKey(before + [rejected] + between, maxKeys, policy, retry);
  }
}
