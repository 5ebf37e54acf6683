/** LRU inclusion: two caches of different capacities driven by the same timed trace.

    Plain LRU caches include one another as suffixes of the recency order. Here a get of a
    key that only the larger cache holds reorders the larger cache alone, and an expired
    entry disappears only when it is looked up, so the relation that survives is weaker:
    a subsequence, together with a bound on how far the sizes can drift apart. */
module CacheInclusion {
  import opened Common
  import opened ResponseCache
  import opened CacheTrace

  ghost predicate Subsequence<T>(s: seq<T>, l: seq<T>) {
    if s == [] then true
    else if l == [] then false
    else if s[0] == l[0] then Subsequence(s[1..], l[1..])
    else Subsequence(s, l[1..])
  }

  lemma {:induction false} DropFront<T>(s: seq<T>, l: seq<T>)
    requires s != [] && Subsequence(s, l)
    ensures l != [] && Subsequence(s[1..], l[1..])
    decreases |l|
  {
    if s[0] != l[0] {
      DropFront(s, l[1..]);
      WeakenRight(s[1..], l[1..]);
    }
  }

  /** Putting back the front of the larger sequence keeps the relation. */
  lemma {:induction false} WeakenRight<T>(s: seq<T>, l: seq<T>)
    requires l != [] && Subsequence(s, l[1..])
    ensures Subsequence(s, l)
    decreases |l|
  {
    if s != [] && s[0] == l[0] {
      DropFront(s, l[1..]);
      WeakenRight(s[1..], l[1..]);
    }
  }

  lemma {:induction false} AppendBoth<T>(s: seq<T>, l: seq<T>, x: T)
    requires Subsequence(s, l)
    ensures Subsequence(s + [x], l + [x])
    decreases |l|
  {
    if l == [] {
      assert s + [x] == [x] && l + [x] == [x];
      assert [x][1..] == [];
    } else {
      assert (l + [x])[1..] == l[1..] + [x];
      if s == [] {
        AppendBoth(s, l[1..], x);
        WeakenRight(s + [x], l + [x]);
      } else {
        assert (s + [x])[1..] == s[1..] + [x];
        if s[0] == l[0] {
          AppendBoth(s[1..], l[1..], x);
        } else {
          AppendBoth(s, l[1..], x);
        }
      }
    }
  }

  lemma {:induction false} Members<T>(s: seq<T>, l: seq<T>, x: T)
    requires Subsequence(s, l) && x in s
    ensures x in l
    decreases |l|
  {
    if s[0] == l[0] {
      if x != s[0] {
        Members(s[1..], l[1..], x);
      }
    } else {
      Members(s, l[1..], x);
    }
  }

  lemma {:induction false} RemoveBoth<V>(s: seq<Entry<V>>, l: seq<Entry<V>>, key: string)
    requires Subsequence(s, l)
    ensures Subsequence(Remove(s, key), Remove(l, key))
    decreases |l|
  {
    if s != [] {
      if s[0] == l[0] {
        RemoveBoth(s[1..], l[1..], key);
      } else {
        RemoveBoth(s, l[1..], key);
        if l[0].key != key {
          WeakenRight(Remove(s, key), Remove(l, key));
        }
      }
    }
  }

  /** A key held by the smaller cache is held by the larger one, in the very same entry. */
  lemma FindBoth<V>(s: seq<Entry<V>>, l: seq<Entry<V>>, key: string)
    requires Subsequence(s, l) && DistinctKeys(l) && HasKey(s, key)
    ensures Find(l, key) == Find(s, key)
  {
    var e := Find(s, key).value;
    Members(s, l, e);
    var i :| 0 <= i < |l| && l[i] == e;
    FindAt(l, i);
  }

  /** The relation between the smaller and the larger cache. */
  ghost predicate Included<V>(small: Cache<V>, n: nat, large: Cache<V>, m: nat) {
    && Valid(small, n)
    && Valid(large, m)
    && Subsequence(small.entries, large.entries)
    && |large.entries| - |small.entries| <= m - n
  }

  lemma IncludedAfterGet<V>(small: Cache<V>, n: nat, large: Cache<V>, m: nat, key: string, now: real)
    requires 1 <= n <= m && Included(small, n, large, m)
    ensures Included(Lookup(small, key, now).0, n, Lookup(large, key, now).0, m)
    ensures Lookup(small, key, now).1.Some? ==> Lookup(large, key, now).1 == Lookup(small, key, now).1
  {
    var s, l := small.entries, large.entries;
    LookupKeepsValid(small, n, key, now);
    LookupKeepsValid(large, m, key, now);
    RemoveDistinct(s, key);
    RemoveDistinct(l, key);
    RemoveBoth(s, l, key);
    if HasKey(s, key) {
      FindBoth(s, l, key);
      AppendBoth(Remove(s, key), Remove(l, key), Find(s, key).value);
    } else {
      RemoveAbsent(s, key);
      if HasKey(l, key) {
        AppendRight(s, Remove(l, key), Find(l, key).value);
      }
    }
  }

  lemma {:induction false} AppendRight<T>(s: seq<T>, l: seq<T>, x: T)
    requires Subsequence(s, l)
    ensures Subsequence(s, l + [x])
    decreases |l|
  {
    if s != [] {
      assert (l + [x])[1..] == l[1..] + [x];
      if s[0] == l[0] {
        AppendRight(s[1..], l[1..], x);
      } else {
        AppendRight(s, l[1..], x);
      }
    }
  }

  lemma IncludedAfterSet<V>(small: Cache<V>, n: nat, large: Cache<V>, m: nat,
                            key: string, value: V, expiresAt: real)
    requires 1 <= n <= m && Included(small, n, large, m)
    ensures var small' := Store(small, n, key, value, expiresAt);
            var large' := Store(large, m, key, value, expiresAt);
            && Included(small', n, large', m)
            && large'.stats.evictions - large.stats.evictions
                 <= small'.stats.evictions - small.stats.evictions
  {
    var s, l := small.entries, large.entries;
    var e := Entry(key, value, expiresAt);
    StoreEvictsAtMostOne(small, n, key, value, expiresAt);
    StoreEvictsAtMostOne(large, m, key, value, expiresAt);
    RemoveDistinct(s, key);
    RemoveDistinct(l, key);
    RemoveBoth(s, l, key);
    if HasKey(s, key) {
      FindBoth(s, l, key);
      AppendBoth(Remove(s, key), Remove(l, key), e);
    } else {
      RemoveAbsent(s, key);
      if !HasKey(l, key) {
        RemoveAbsent(l, key);
      }
      if |s| == n {
        DropFront(s, Remove(l, key));
        if HasKey(l, key) || |l| < m {
          WeakenRight(s[1..], Remove(l, key));
        }
      }
      AppendBoth(if |s| == n then s[1..] else s,
                 if !HasKey(l, key) && |l| == m then l[1..] else Remove(l, key), e);
    }
  }

  ghost predicate CountersOrdered(small: CacheStats, large: CacheStats) {
    && small.hits <= large.hits
    && small.misses >= large.misses
    && small.evictions >= large.evictions
    && small.stores == large.stores
  }

  lemma StepInclusion<V>(n: nat, m: nat, ttl: real, small: Cache<V>, large: Cache<V>, op: Op<V>)
    requires 1 <= n <= m && Included(small, n, large, m)
    requires CountersOrdered(small.stats, large.stats)
    ensures var small', large' := Apply(Config(n, ttl), small, op), Apply(Config(m, ttl), large, op);
            Included(small', n, large', m) && CountersOrdered(small'.stats, large'.stats)
  {
    match op
    case GetOp(key, now) => IncludedAfterGet(small, n, large, m, key, now);
    case SetOp(key, value, now, t) =>
      IncludedAfterSet(small, n, large, m, key, value, now + EffectiveTtl(t, ttl));
    case ClearOp =>
  }

  /** The inclusion theorem: over every trace the smaller cache's recency order is a
      subsequence of the larger one's (same values, same expiries), the sizes differ by at
      most the difference of the capacities, and the larger cache has at least as many hits,
      no more misses, no more evictions and the same number of stores. */
  lemma {:induction false} LruInclusion<V>(n: nat, m: nat, ttl: real, ops: seq<Op<V>>)
    requires 1 <= n <= m
    ensures var small, large := Run(Config(n, ttl), ops), Run(Config(m, ttl), ops);
            Included(small, n, large, m) && CountersOrdered(small.stats, large.stats)
  {
    if ops != [] {
      var before := ops[..|ops| - 1];
      LruInclusion(n, m, ttl, before);
      StepInclusion(n, m, ttl, Run(Config(n, ttl), before), Run(Config(m, ttl), before), ops[|ops| - 1]);
    }
  }

  /** Raising max_entries never loses a hit, and never changes the value returned. */
  lemma LargerCacheNeverLosesAHit<V>(n: nat, m: nat, ttl: real, ops: seq<Op<V>>, key: string, now: real)
    requires 1 <= n <= m
    ensures var r := Lookup(Run(Config(n, ttl), ops), key, now).1;
            r.Some? ==> Lookup(Run(Config(m, ttl), ops), key, now).1 == r
  {
    LruInclusion(n, m, ttl, ops);
    IncludedAfterGet(Run(Config(n, ttl), ops), n, Run(Config(m, ttl), ops), m, key, now);
  }
}
