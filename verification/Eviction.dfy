/** Which buckets the rate limiter of backend/app/rate_limit.py gives up when its map is full. */
module Eviction {
  import opened Dicts
  import opened Lists
  import opened RateLimiter

  // ---------------------------------------------------------------- orders that removals keep

  ghost predicate SortedBy<K(!new)>(before: (K, K) -> bool, ks: seq<K>) {
    forall i, j :: 0 <= i < j < |ks| ==> before(ks[i], ks[j])
  }

  lemma {:induction false} WithoutSorted<K(!new)>(before: (K, K) -> bool, ks: seq<K>, k: K)
    requires SortedBy(before, ks)
    ensures SortedBy(before, Without(ks, k))
  {
    if ks != [] {
      WithoutSorted(before, ks[1..], k);
      WithoutShrinks(ks[1..], k);
      var rest := Without(ks[1..], k);
      forall j | 0 <= j < |rest| ensures before(ks[0], rest[j]) {
        assert rest[j] in ks[1..];
      }
    }
  }

  lemma {:induction false} PopAllSorted<K(!new)>(before: (K, K) -> bool, b: Buckets<K>, ks: seq<K>)
    requires SortedBy(before, b.keys)
    ensures SortedBy(before, PopAll(b, ks).keys)
    decreases |ks|
  {
    if ks != [] {
      WithoutSorted(before, b.keys, ks[0]);
      PopAllSorted(before, b.Pop(ks[0]), ks[1..]);
    }
  }

  /** Without its first key. */
  lemma {:induction false} WithoutFirst<K>(ks: seq<K>)
    requires ks != [] && Distinct(ks)
    ensures Without(ks, ks[0]) == ks[1..]
  {
    WithoutDistinct(ks[1..], ks[0]);
    assert ks[0] !in ks[1..];
  }

  /** What has to go from the front goes, and no more. */
  lemma {:induction false} DropOldestIsSuffix<K(!new)>(b: Buckets<K>, maxKeys: nat)
    requires b.Valid() && maxKeys > 0
    ensures DropOldest(b, maxKeys).keys == if |b.keys| < maxKeys then b.keys else b.keys[|b.keys| + 1 - maxKeys..]
    decreases |b.keys|
  {
    if |b.keys| >= maxKeys {
      WithoutFirst(b.keys);
      PopValid(b, b.keys[0]);
      DropOldestIsSuffix(b.Pop(b.keys[0]), maxKeys);
    }
  }

  lemma {:induction false} EvictSorted<K(!new)>(before: (K, K) -> bool, b: Buckets<K>, maxKeys: nat, key: K,
    window: int)
    requires b.Valid() && maxKeys > 0 && SortedBy(before, b.keys)
    ensures SortedBy(before, Evict(b, maxKeys, key, window).keys)
  {
    if key !in b.m && |b.keys| >= maxKeys {
      var live := PopAll(b, Expired(b, b.keys, window));
      PopAllMeaning(b, Expired(b, b.keys, window));
      PopAllSorted(before, b, Expired(b, b.keys, window));
      DropOldestIsSuffix(live, maxKeys);
    }
  }

  // ---------------------------------------------------------------- the last hit of a key

  /** The n-th hit is the last one of the key. */
  ghost predicate LastHit<K>(hits: seq<Event<K>>, k: K, n: nat) {
    n < |hits| && hits[n].key == k && forall m :: n < m < |hits| ==> hits[m].key != k
  }

  /** The one key was last hit before the other. */
  ghost predicate HitEarlier<K>(hits: seq<Event<K>>, x: K, y: K) {
    exists n: nat, m: nat :: n < m && LastHit(hits, x, n) && LastHit(hits, y, m)
  }

  ghost predicate KeysByLastHit<K(!new)>(hits: seq<Event<K>>, ks: seq<K>) {
    forall i, j :: 0 <= i < j < |ks| ==> HitEarlier(hits, ks[i], ks[j])
  }

  lemma {:induction false} LastHitStays<K>(hits: seq<Event<K>>, last: Event<K>, k: K, n: nat)
    requires k != last.key
    ensures LastHit(hits + [last], k, n) <==> LastHit(hits, k, n)
  {
    var all := hits + [last];
    assert all[|hits|] == last;
    assert forall m :: 0 <= m < |hits| ==> all[m] == hits[m];
  }

  lemma {:induction false} EarlierStays<K>(hits: seq<Event<K>>, last: Event<K>, x: K, y: K)
    requires HitEarlier(hits, x, y) && x != last.key && y != last.key
    ensures HitEarlier(hits + [last], x, y)
  {
    hide LastHit;
    var n: nat, m: nat :| n < m && LastHit(hits, x, n) && LastHit(hits, y, m);
    LastHitStays(hits, last, x, n);
    LastHitStays(hits, last, y, m);
  }

  /** The buckets keep their order, and the bucket hit now goes to the end. */
  lemma {:induction false} HitOrders<K(!new)>(hits: seq<Event<K>>, last: Event<K>, b: Buckets<K>, maxKeys: nat,
    window: int)
    requires b.Valid() && maxKeys > 0 && |b.keys| <= maxKeys && KeysByLastHit(hits, b.keys)
    requires forall k :: k in b.keys ==> exists n: nat :: LastHit(hits, k, n)
    ensures var after := AfterHit(b, maxKeys, last.key, window);
      && KeysByLastHit(hits + [last], after.keys)
      && forall k :: k in after.keys ==> exists n: nat :: LastHit(hits + [last], k, n)
  {
    hide LastHit, HitEarlier, Evict, NextCount;
    var e := Evict(b, maxKeys, last.key, window);
    var before := (x: K, y: K) => HitEarlier(hits, x, y);
    EvictMeaning(b, maxKeys, last.key, window);
    EvictSorted(before, b, maxKeys, last.key, window);
    WithoutSorted(before, e.keys, last.key);
    WithoutShrinks(e.keys, last.key);
    PopValid(e, last.key);
    var kept := Without(e.keys, last.key);
    assert AfterHit(b, maxKeys, last.key, window).keys == kept + [last.key];
    LastIsLast(hits, last);
    forall k | k in kept ensures k != last.key && exists n: nat :: LastHit(hits, k, n) {
      assert k in b.m;
    }
    forall i, j | 0 <= i < j < |kept + [last.key]|
      ensures HitEarlier(hits + [last], (kept + [last.key])[i], (kept + [last.key])[j])
    {
      if j < |kept| {
        assert before(kept[i], kept[j]);
        EarlierStays(hits, last, kept[i], kept[j]);
      } else {
        assert kept[i] in kept;
        var n: nat :| LastHit(hits, kept[i], n);
        EarlierThanNow(hits, last, kept[i], n);
      }
    }
    forall k | k in kept ensures exists n: nat :: LastHit(hits + [last], k, n) {
      var n: nat :| LastHit(hits, k, n);
      LastHitStays(hits, last, k, n);
    }
  }

  lemma {:induction false} LastIsLast<K>(hits: seq<Event<K>>, last: Event<K>)
    ensures LastHit(hits + [last], last.key, |hits|)
  {
  }

  lemma {:induction false} EarlierThanNow<K>(hits: seq<Event<K>>, last: Event<K>, x: K, n: nat)
    requires LastHit(hits, x, n) && x != last.key
    ensures HitEarlier(hits + [last], x, last.key)
  {
    LastHitStays(hits, last, x, n);
    LastIsLast(hits, last);
  }

  /** After any history the buckets stand in the order in which their keys were last hit. */
  lemma {:induction false} OrderedByLastHit<K(!new)>(hits: seq<Event<K>>, maxKeys: nat, w: real)
    requires maxKeys > 0 && w > 0.0
    ensures var b := Run(hits, maxKeys, w);
      && b.Valid() && |b.keys| <= maxKeys && KeysByLastHit(hits, b.keys)
      && forall k :: k in b.keys ==> exists n: nat :: LastHit(hits, k, n)
  {
    hide LastHit, HitEarlier, AfterHit, KeysByLastHit;
    if hits == [] {
      NoKeys(hits);
    } else {
      var init, last := hits[..|hits| - 1], hits[|hits| - 1];
      OrderedByLastHit(init, maxKeys, w);
      HitOrders(init, last, Run(init, maxKeys, w), maxKeys, WindowOf(last.now, w));
      AfterHitMeaning(Run(init, maxKeys, w), maxKeys, last.key, WindowOf(last.now, w));
      assert hits == init + [last];
    }
  }

  lemma {:induction false} NoKeys<K(!new)>(hits: seq<Event<K>>)
    ensures KeysByLastHit(hits, [])
  {
  }

  // ---------------------------------------------------------------- what a hit evicts

  /** Of a list in order, what is cut off from the front comes before what stays. */
  lemma {:induction false} FrontBefore<K(!new)>(before: (K, K) -> bool, ks: seq<K>, cut: nat, x: K, y: K)
    requires SortedBy(before, ks) && cut <= |ks| && x in ks && x !in ks[cut..] && y in ks[cut..]
    ensures before(x, y)
  {
    var i :| 0 <= i < |ks| && ks[i] == x;
    var j :| 0 <= j < |ks[cut..]| && ks[cut..][j] == y;
    assert ks[cut + j] == y;
    forall k | cut <= k < |ks| ensures ks[k] in ks[cut..] {
      assert ks[cut..][k - cut] == ks[k];
    }
  }

  /** Dropping the oldest drops from the front. */
  lemma {:induction false} DroppedBefore<K(!new)>(before: (K, K) -> bool, b: Buckets<K>, maxKeys: nat, x: K, y: K)
    requires b.Valid() && maxKeys > 0 && SortedBy(before, b.keys)
    requires x in b.keys && x !in DropOldest(b, maxKeys).keys && y in DropOldest(b, maxKeys).keys
    ensures before(x, y) && |DropOldest(b, maxKeys).keys| == maxKeys - 1
  {
    hide SortedBy;
    DropOldestIsSuffix(b, maxKeys);
    FrontBefore(before, b.keys, |b.keys| + 1 - maxKeys, x, y);
  }

  /** With a full map, the buckets of other windows are popped and then the oldest. */
  lemma {:induction false} EvictedInTwoStages<K(!new)>(b: Buckets<K>, maxKeys: nat, key: K, window: int)
    requires b.Valid() && maxKeys > 0 && key !in b.m && |b.keys| >= maxKeys
    ensures var live := PopAll(b, Expired(b, b.keys, window));
      && live.Valid() && (forall k :: k in live.m <==> k in b.m && b.m[k].window == window)
      && Evict(b, maxKeys, key, window) == DropOldest(live, maxKeys)
      && DropOldest(live, maxKeys).Valid() && Part(DropOldest(live, maxKeys), live)
  {
    var dead := Expired(b, b.keys, window);
    ExpiredMeaning(b, b.keys, window);
    PopAllMeaning(b, dead);
    DropOldestMeaning(PopAll(b, dead), maxKeys);
    hide DropOldest, PopAll, Expired;
  }

  lemma {:induction false} NothingEvicted<K(!new)>(b: Buckets<K>, maxKeys: nat, key: K, window: int)
    requires maxKeys > 0 && (key in b.m || |b.keys| < maxKeys)
    ensures Evict(b, maxKeys, key, window) == b
  {
  }

  /** A bucket of the running window is evicted from a full map only, with those of other windows, from the front. */
  lemma {:induction false} EvictedFront<K(!new)>(
    before: (K, K) -> bool, b: Buckets<K>, maxKeys: nat, key: K, window: int, x: K, y: K)
    requires b.Valid() && maxKeys > 0 && SortedBy(before, b.keys) && x in b.m && b.m[x].window == window
    requires x !in Evict(b, maxKeys, key, window).m && y in Evict(b, maxKeys, key, window).m
    ensures key !in b.m && |b.keys| >= maxKeys && y in b.m && b.m[y].window == window && before(x, y)
    ensures |Evict(b, maxKeys, key, window).keys| == maxKeys - 1
  {
    hide Evict, DropOldest, PopAll, Expired, SortedBy;
    if key in b.m || |b.keys| < maxKeys {
      NothingEvicted(b, maxKeys, key, window);
    } else {
      var dead := Expired(b, b.keys, window);
      EvictedInTwoStages(b, maxKeys, key, window);
      PopAllSorted(before, b, dead);
      DroppedBefore(before, PopAll(b, dead), maxKeys, x, y);
    }
  }

  /**
   A bucket of the running window is given up only when the map is full, no bucket of another window is left, and
   every bucket that stays was hit later. One bucket is enough.
   */
  lemma {:induction false} LeastRecentGoes<K(!new)>(hits: seq<Event<K>>, maxKeys: nat, w: real, key: K, window: int,
    x: K, y: K)
    requires maxKeys > 0 && w > 0.0
    requires var b, e := Run(hits, maxKeys, w), Evict(Run(hits, maxKeys, w), maxKeys, key, window);
      x in b.m && b.m[x].window == window && x !in e.m && y in e.m
    ensures var b := Run(hits, maxKeys, w);
      && key !in b.m && |b.keys| == maxKeys && y in b.m && b.m[y].window == window
      && HitEarlier(hits, x, y) && |Evict(b, maxKeys, key, window).keys| == maxKeys - 1
  {
    hide HitEarlier, Evict, Run, LastHit;
    var b := Run(hits, maxKeys, w);
    var before := (u: K, v: K) => HitEarlier(hits, u, v);
    OrderedByLastHit(hits, maxKeys, w);
    assert SortedBy(before, b.keys);
    EvictedFront(before, b, maxKeys, key, window, x, y);
  }
}
