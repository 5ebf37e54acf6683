/** The bounded cache against the history of operations that produced it: an unbounded
    timed map says what a lookup may return, and the set of keys touched since a key's
    own last touch says when the bound may have cost a lookup its entry. */
module CacheHistory {
  import opened Common
  import opened ResponseCache
  import opened CacheTrace

  // ----- the unbounded timed map -----

  /** What a map without bound or lazy expiry would hold: the last entry set per key since
      the last clear. */
  function LastSet<V>(cfg: Config, ops: seq<Op<V>>): map<string, Entry<V>> {
    if ops == [] then map[]
    else
      var m := LastSet(cfg, ops[..|ops| - 1]);
      match ops[|ops| - 1]
      case GetOp(_, _) => m
      case SetOp(key, value, now, ttl) => m[key := Entry(key, value, now + EffectiveTtl(ttl, cfg.ttl))]
      case ClearOp => map[]
  }

  ghost predicate Agrees<V>(es: seq<Entry<V>>, m: map<string, Entry<V>>) {
    forall i :: 0 <= i < |es| ==> es[i].key in m && m[es[i].key] == es[i]
  }

  lemma {:induction false} RemoveSubset<V>(es: seq<Entry<V>>, key: string)
    ensures forall i :: 0 <= i < |Remove(es, key)| ==> Remove(es, key)[i] in es && Remove(es, key)[i].key != key
  {
    if es != [] {
      RemoveSubset(es[1..], key);
    }
  }

  lemma {:induction false} CacheAgrees<V>(cfg: Config, ops: seq<Op<V>>)
    requires cfg.maxEntries >= 1
    ensures Agrees(Run(cfg, ops).entries, LastSet(cfg, ops))
  {
    if ops != [] {
      var before := ops[..|ops| - 1];
      CacheAgrees(cfg, before);
      var c := Run(cfg, before);
      RunIsValid(cfg, before);
      match ops[|ops| - 1]
      case GetOp(key, now) => RemoveSubset(c.entries, key);
      case SetOp(key, value, now, ttl) =>
        RemoveSubset(c.entries, key);
      case ClearOp =>
    }
  }

  /** A hit returns the value most recently set for that key since the last clear, and that
      value has not expired. */
  lemma {:induction false} HitIsTheLastSetValue<V>(cfg: Config, ops: seq<Op<V>>, key: string, now: real)
    requires cfg.maxEntries >= 1
    ensures var r := Lookup(Run(cfg, ops), key, now).1;
            r.Some? ==> key in LastSet(cfg, ops)
                        && LastSet(cfg, ops)[key].value == r.value
                        && now < LastSet(cfg, ops)[key].expiresAt
  {
    CacheAgrees(cfg, ops);
    if HasKey(Run(cfg, ops).entries, key) {
      var _ := FindPosition(Run(cfg, ops).entries, key);
    }
  }

  /** Operation i is the last one that set the key, and nothing was cleared since. */
  ghost predicate SetLastAt<V>(ops: seq<Op<V>>, key: string, i: nat) {
    && i < |ops| && ops[i].SetOp? && ops[i].key == key
    && forall j :: i < j < |ops| ==> !ops[j].ClearOp? && !(ops[j].SetOp? && ops[j].key == key)
  }

  /** The time an operation gave its value: its own, or the configured one without it. */
  ghost predicate StillFresh<V>(cfg: Config, op: Op<V>, now: real)
    requires op.SetOp?
  {
    match op.ttl
    case None => now - op.now < cfg.ttl
    case Some(own) => now - op.now < if own == 0.0 then cfg.ttl else own
  }

  /** The unbounded map holds exactly what the operations set last. */
  lemma {:induction false} LastSetWasSet<V>(cfg: Config, ops: seq<Op<V>>, key: string) returns (i: nat)
    requires key in LastSet(cfg, ops)
    ensures SetLastAt(ops, key, i) && LastSet(cfg, ops)[key].value == ops[i].value
    ensures forall now :: now < LastSet(cfg, ops)[key].expiresAt <==> StillFresh(cfg, ops[i], now)
  {
    var n := |ops| - 1;
    if ops[n].SetOp? && ops[n].key == key {
      i := n;
    } else {
      i := LastSetWasSet(cfg, ops[..n], key);
    }
  }

  lemma {:induction false} SetIsInLastSet<V>(cfg: Config, ops: seq<Op<V>>, key: string, i: nat)
    requires SetLastAt(ops, key, i)
    ensures key in LastSet(cfg, ops)
  {
    var n := |ops| - 1;
    if i < n {
      SetIsInLastSet(cfg, ops[..n], key, i);
    }
  }

  /** A hit has its set: the last one of the key, with that value, after which nothing was
      cleared, and whose time is not up. */
  lemma {:induction false} HitHasItsSet<V>(cfg: Config, ops: seq<Op<V>>, key: string, now: real) returns (i: nat)
    requires cfg.maxEntries >= 1 && Lookup(Run(cfg, ops), key, now).1.Some?
    ensures SetLastAt(ops, key, i) && StillFresh(cfg, ops[i], now)
    ensures Lookup(Run(cfg, ops), key, now).1 == Some(ops[i].value)
  {
    HitIsTheLastSetValue(cfg, ops, key, now);
    i := LastSetWasSet(cfg, ops, key);
  }

  // ----- pressure on a key -----

  /** The key an operation moves to the recent end: the key set, or the key of a hit. */
  function Touched<V>(c: Cache<V>, op: Op<V>): Option<string> {
    match op
    case GetOp(key, now) => if Lookup(c, key, now).1.Some? then Some(key) else None
    case SetOp(key, _, _, _) => Some(key)
    case ClearOp => None
  }

  /** The keys touched since `key` was last touched itself. */
  function Since<V>(cfg: Config, ops: seq<Op<V>>, key: string): set<string> {
    if ops == [] then {}
    else
      var before := ops[..|ops| - 1];
      var t := Touched(Run(cfg, before), ops[|ops| - 1]);
      if t == Some(key) then {}
      else Since(cfg, before, key) + (if t.Some? then {t.value} else {})
  }

  ghost predicate Ordered<V>(cfg: Config, ops: seq<Op<V>>, es: seq<Entry<V>>) {
    forall i, j :: 0 <= i < j < |es| ==> es[j].key in Since(cfg, ops, es[i].key)
  }

  lemma {:induction false} OrderedWithout<V>(cfg: Config, ops: seq<Op<V>>, es: seq<Entry<V>>, key: string)
    requires DistinctKeys(es) && Ordered(cfg, ops, es)
    ensures Ordered(cfg, ops, Remove(es, key))
  {
    if HasKey(es, key) {
      var i := FindPosition(es, key);
      RemoveAt(es, i);
    } else {
      RemoveAbsent(es, key);
    }
  }

  /** One more operation that touches `e.key` and appends it at the recent end. */
  lemma {:induction false} OrderedAfterTouch<V>(cfg: Config, ops: seq<Op<V>>, rest: seq<Entry<V>>, e: Entry<V>)
    requires ops != []
    requires Touched(Run(cfg, ops[..|ops| - 1]), ops[|ops| - 1]) == Some(e.key)
    requires Ordered(cfg, ops[..|ops| - 1], rest)
    requires forall i :: 0 <= i < |rest| ==> rest[i].key != e.key
    ensures Ordered(cfg, ops, rest + [e])
  {
  }

  lemma {:induction false} OrderedAfterNoTouch<V>(cfg: Config, ops: seq<Op<V>>, es: seq<Entry<V>>)
    requires ops != []
    requires Touched(Run(cfg, ops[..|ops| - 1]), ops[|ops| - 1]) == None
    requires Ordered(cfg, ops[..|ops| - 1], es)
    ensures Ordered(cfg, ops, es)
  {
    forall i, j | 0 <= i < j < |es|
      ensures es[j].key in Since(cfg, ops, es[i].key)
    {
      assert es[j].key in Since(cfg, ops[..|ops| - 1], es[i].key);
    }
  }

  /** Entries further towards the recent end were touched after the ones before them. */
  lemma {:induction false} RunIsOrdered<V>(cfg: Config, ops: seq<Op<V>>)
    requires cfg.maxEntries >= 1
    ensures Ordered(cfg, ops, Run(cfg, ops).entries)
  {
    if ops != [] {
      var before, op := ops[..|ops| - 1], ops[|ops| - 1];
      RunIsOrdered(cfg, before);
      RunIsValid(cfg, before);
      var es := Run(cfg, before).entries;
      match op
      case GetOp(key, now) =>
        OrderedWithout(cfg, before, es, key);
        RemoveDistinct(es, key);
        if Touched(Run(cfg, before), op).Some? {
          OrderedAfterTouch(cfg, ops, Remove(es, key), Find(es, key).value);
        } else {
          OrderedAfterNoTouch(cfg, ops, Run(cfg, ops).entries);
        }
      case SetOp(key, value, now, ttl) =>
        OrderedWithout(cfg, before, es, key);
        RemoveDistinct(es, key);
        OrderedAfterTouch(cfg, ops, Remove(es, key), Entry(key, value, now + EffectiveTtl(ttl, cfg.ttl)));
      case ClearOp =>
    }
  }

  /** Every operation of the trace happened at or before `now`. */
  ghost predicate NoLaterThan<V>(ops: seq<Op<V>>, now: real) {
    forall i :: 0 <= i < |ops| && !ops[i].ClearOp? ==> ops[i].now <= now
  }

  ghost predicate Excused<V>(cfg: Config, ops: seq<Op<V>>, key: string, now: real)
    requires key in LastSet(cfg, ops)
  {
    |Since(cfg, ops, key)| >= cfg.maxEntries || LastSet(cfg, ops)[key].expiresAt <= now
  }

  /** The entry a store evicts has seen maxEntries other keys since its own last touch. */
  lemma {:induction false} EvictedUnderPressure<V>(cfg: Config, ops: seq<Op<V>>, grown: seq<Entry<V>>)
    requires Ordered(cfg, ops, grown) && DistinctKeys(grown)
    requires |grown| == cfg.maxEntries + 1
    ensures |Since(cfg, ops, grown[0].key)| >= cfg.maxEntries
  {
    var later := seq(|grown| - 1, i requires 0 <= i < |grown| - 1 => grown[i + 1].key);
    DistinctSeqFitsInSet(later, Since(cfg, ops, grown[0].key));
  }

  lemma {:induction false} SinceGrows<V>(cfg: Config, ops: seq<Op<V>>, key: string)
    requires ops != [] && Touched(Run(cfg, ops[..|ops| - 1]), ops[|ops| - 1]) != Some(key)
    ensures |Since(cfg, ops[..|ops| - 1], key)| <= |Since(cfg, ops, key)|
  {
    SubsetSize(Since(cfg, ops[..|ops| - 1], key), Since(cfg, ops, key));
  }

  lemma {:induction false} RemoveOther<V>(es: seq<Entry<V>>, other: string, key: string)
    requires key != other
    ensures Find(Remove(es, other), key) == Find(es, key)
  {
    if es != [] {
      RemoveOther(es[1..], other, key);
    }
  }

  lemma {:induction false} FindInAppend<V>(es: seq<Entry<V>>, e: Entry<V>, key: string)
    ensures Find(es + [e], key) == if HasKey(es, key) then Find(es, key)
                                   else if e.key == key then Some(e) else None
  {
    if es == [] {
      assert es + [e] == [e];
      assert [e][1..] == [];
    } else {
      assert (es + [e])[1..] == es[1..] + [e];
      FindInAppend(es[1..], e, key);
    }
  }

  /** A key that was set and is not held any more either was under pressure or has expired. */
  lemma {:induction false} MissingIsExcused<V>(cfg: Config, ops: seq<Op<V>>, key: string, now: real)
    requires cfg.maxEntries >= 1 && NoLaterThan(ops, now)
    requires key in LastSet(cfg, ops) && !HasKey(Run(cfg, ops).entries, key)
    ensures Excused(cfg, ops, key, now)
  {
    var before, op := ops[..|ops| - 1], ops[|ops| - 1];
    var c := Run(cfg, before);
    RunIsValid(cfg, before);
    match op
    case GetOp(k, t) =>
      if k != key {
        RemoveOther(c.entries, k, key);
        if HasKey(c.entries, k) {
          FindInAppend(Remove(c.entries, k), Find(c.entries, k).value, key);
        }
        MissingIsExcused(cfg, before, key, now);
        SinceGrows(cfg, ops, key);
      } else if HasKey(c.entries, key) {
        MissingAfterExpiredGet(cfg, ops, key, now);
      } else {
        MissingIsExcused(cfg, before, key, now);
        SinceGrows(cfg, ops, key);
      }
    case SetOp(k, value, t, ttl) =>
      MissingAfterSet(cfg, ops, key);
      if !HasKey(c.entries, key) && k != key {
        MissingIsExcused(cfg, before, key, now);
        SinceGrows(cfg, ops, key);
      }
    case ClearOp =>
  }

  lemma {:induction false} MissingAfterExpiredGet<V>(cfg: Config, ops: seq<Op<V>>, key: string, now: real)
    requires cfg.maxEntries >= 1 && NoLaterThan(ops, now)
    requires ops != [] && ops[|ops| - 1].GetOp? && ops[|ops| - 1].key == key
    requires key in LastSet(cfg, ops) && !HasKey(Run(cfg, ops).entries, key)
    requires HasKey(Run(cfg, ops[..|ops| - 1]).entries, key)
    ensures LastSet(cfg, ops)[key].expiresAt <= now
  {
    var before := ops[..|ops| - 1];
    var es := Run(cfg, before).entries;
    CacheAgrees(cfg, before);
    var e := Find(es, key).value;
    FindInAppend(Remove(es, key), e, key);
    var i := FindPosition(es, key);
    assert e.expiresAt <= ops[|ops| - 1].now;
  }

  lemma {:induction false} StoredKeyIsHeld<V>(c: Cache<V>, capacity: nat, key: string, value: V, expiresAt: real)
    requires capacity >= 1 && Valid(c, capacity)
    ensures HasKey(Store(c, capacity, key, value, expiresAt).entries, key)
  {
    StoreEvictsAtMostOne(c, capacity, key, value, expiresAt);
    var kept := Store(c, capacity, key, value, expiresAt).entries;
    FindInAppend(kept[..|kept| - 1], kept[|kept| - 1], key);
    assert kept == kept[..|kept| - 1] + [kept[|kept| - 1]];
  }

  /** A key that a store makes disappear was the oldest entry of a full cache. */
  lemma {:induction false} LostByStore<V>(c: Cache<V>, capacity: nat, k: string, value: V, expiresAt: real, key: string)
    requires capacity >= 1 && Valid(c, capacity)
    requires HasKey(c.entries, key) && !HasKey(Store(c, capacity, k, value, expiresAt).entries, key)
    ensures key != k && !HasKey(c.entries, k)
    ensures |c.entries| == capacity && c.entries[0].key == key
  {
    StoredKeyIsHeld(c, capacity, k, value, expiresAt);
    StoreEvictsAtMostOne(c, capacity, k, value, expiresAt);
    RemoveOther(c.entries, k, key);
    var e := Entry(k, value, expiresAt);
    if HasKey(c.entries, k) || |c.entries| < capacity {
      FindInAppend(Remove(c.entries, k), e, key);
      RemoveLeavesAbsent(c.entries, k);
    } else {
      FindInAppend(c.entries[1..], e, key);
    }
  }

  lemma {:induction false} RemoveLeavesAbsent<V>(es: seq<Entry<V>>, key: string)
    ensures !HasKey(es, key) ==> Remove(es, key) == es
  {
    if !HasKey(es, key) {
      RemoveAbsent(es, key);
    }
  }

  /** After a store, a key that is gone was gone before, or was the entry evicted. */
  lemma {:induction false} MissingAfterSet<V>(cfg: Config, ops: seq<Op<V>>, key: string)
    requires cfg.maxEntries >= 1
    requires ops != [] && ops[|ops| - 1].SetOp?
    requires !HasKey(Run(cfg, ops).entries, key)
    ensures key != ops[|ops| - 1].key
    ensures HasKey(Run(cfg, ops[..|ops| - 1]).entries, key) ==> |Since(cfg, ops, key)| >= cfg.maxEntries
  {
    var before, op := ops[..|ops| - 1], ops[|ops| - 1];
    var c := Run(cfg, before);
    var e := Entry(op.key, op.value, op.now + EffectiveTtl(op.ttl, cfg.ttl));
    RunIsValid(cfg, before);
    StoredKeyIsHeld(c, cfg.maxEntries, op.key, op.value, e.expiresAt);
    if HasKey(c.entries, key) {
      LostByStore(c, cfg.maxEntries, op.key, op.value, e.expiresAt, key);
      RunIsOrdered(cfg, before);
      OrderedAfterTouch(cfg, ops, c.entries, e);
      EvictedUnderPressure(cfg, ops, c.entries + [e]);
    }
  }

  /** A lookup that misses although the key was set, has not expired and was not cleared
      means that at least maxEntries other keys were touched since that key's last touch. */
  lemma {:induction false} UnexpiredMissMeansPressure<V>(cfg: Config, ops: seq<Op<V>>, key: string, now: real)
    requires cfg.maxEntries >= 1 && NoLaterThan(ops, now)
    requires key in LastSet(cfg, ops) && now < LastSet(cfg, ops)[key].expiresAt
    requires Lookup(Run(cfg, ops), key, now).1 == None
    ensures |Since(cfg, ops, key)| >= cfg.maxEntries
    ensures key !in Since(cfg, ops, key)
  {
    CacheAgrees(cfg, ops);
    SinceExcludesSelf(cfg, ops, key);
    if HasKey(Run(cfg, ops).entries, key) {
      var _ := FindPosition(Run(cfg, ops).entries, key);
    } else {
      MissingIsExcused(cfg, ops, key, now);
    }
  }

  /** The same of the operations: if the last set of a key was not cleared and its time is not
      up, only pressure can make a lookup miss. */
  lemma {:induction false} MissOfAFreshKeyMeansPressure<V>(cfg: Config, ops: seq<Op<V>>, key: string, now: real, i: nat)
    requires cfg.maxEntries >= 1 && NoLaterThan(ops, now)
    requires SetLastAt(ops, key, i) && StillFresh(cfg, ops[i], now)
    requires Lookup(Run(cfg, ops), key, now).1 == None
    ensures |Since(cfg, ops, key)| >= cfg.maxEntries
  {
    SetIsInLastSet(cfg, ops, key, i);
    var j := LastSetWasSet(cfg, ops, key);
    assert i == j;
    UnexpiredMissMeansPressure(cfg, ops, key, now);
  }

  lemma {:induction false} SinceExcludesSelf<V>(cfg: Config, ops: seq<Op<V>>, key: string)
    ensures key !in Since(cfg, ops, key)
  {
    if ops != [] {
      SinceExcludesSelf(cfg, ops[..|ops| - 1], key);
    }
  }

  // ----- exactly when, if no entry was removed as expired -----

  /** The operation looks up an entry that has expired, and so removes it. */
  ghost predicate RemovesExpired<V>(c: Cache<V>, op: Op<V>) {
    op.GetOp? && HasKey(c.entries, op.key) && Lookup(c, op.key, op.now).1.None?
  }

  ghost predicate NothingExpired<V>(cfg: Config, ops: seq<Op<V>>) {
    forall i :: 0 <= i < |ops| ==> !RemovesExpired(Run(cfg, ops[..i]), ops[i])
  }

  function KeySet<V>(es: seq<Entry<V>>): set<string> {
    set i | 0 <= i < |es| :: es[i].key
  }

  lemma {:induction false} KeySetSize<V>(es: seq<Entry<V>>)
    ensures |KeySet(es)| <= |es|
  {
    if es != [] {
      KeySetSize(es[1..]);
      forall k | k in KeySet(es) && k != es[0].key
        ensures k in KeySet(es[1..])
      {
        var i :| 0 <= i < |es| && es[i].key == k;
        assert es[1..][i - 1].key == k;
      }
      SubsetSize(KeySet(es) - {es[0].key}, KeySet(es[1..]));
    }
  }

  ghost predicate ComesLater<V>(es: seq<Entry<V>>, i: nat, key: string) {
    exists j :: i < j < |es| && es[j].key == key
  }

  /** Nothing but the entries after position i was touched since entry i was. */
  ghost predicate Tight<V>(cfg: Config, ops: seq<Op<V>>, es: seq<Entry<V>>) {
    forall i, k :: 0 <= i < |es| && k in Since(cfg, ops, es[i].key) ==> ComesLater(es, i, k)
  }

  /** Moving a key to the recent end: `p` is where it was, or the length if it was absent. */
  lemma {:induction false} LaterAfterMove<V>(es: seq<Entry<V>>, p: nat, e: Entry<V>, i: nat, k: string) returns (i0: nat)
    requires p <= |es| && (p < |es| ==> es[p].key == e.key)
    requires i < |es| - (if p < |es| then 1 else 0)
    ensures var moved := es[..p] + (if p < |es| then es[p + 1..] else []) + [e];
            && i < |moved| - 1 && i0 < |es| && moved[i] == es[i0]
            && ComesLater(moved, i, e.key)
            && (ComesLater(es, i0, k) ==> ComesLater(moved, i, k))
  {
    var moved := es[..p] + (if p < |es| then es[p + 1..] else []) + [e];
    i0 := if i < p then i else i + 1;
    assert moved[|moved| - 1].key == e.key;
    if ComesLater(es, i0, k) && k != e.key {
      var j :| i0 < j < |es| && es[j].key == k;
      var j' := if j < p then j else j - 1;
      assert moved[j'].key == k;
    }
  }

  /** Appending the touched key keeps tightness. */
  lemma {:induction false} TightAfterTouch<V>(cfg: Config, ops: seq<Op<V>>, es: seq<Entry<V>>, e: Entry<V>)
    requires ops != [] && DistinctKeys(es)
    requires Touched(Run(cfg, ops[..|ops| - 1]), ops[|ops| - 1]) == Some(e.key)
    requires Tight(cfg, ops[..|ops| - 1], es)
    ensures Tight(cfg, ops, Remove(es, e.key) + [e])
  {
    var p := |es|;
    if HasKey(es, e.key) {
      p := FindPosition(es, e.key);
      RemoveAt(es, p);
    } else {
      RemoveAbsent(es, e.key);
    }
    var es' := Remove(es, e.key) + [e];
    assert es' == es[..p] + (if p < |es| then es[p + 1..] else []) + [e];
    forall i, k | 0 <= i < |es'| && k in Since(cfg, ops, es'[i].key)
      ensures ComesLater(es', i, k)
    {
      assert i < |es'| - 1;
      var i0 := LaterAfterMove(es, p, e, i, k);
      TightStep(cfg, ops, es, e, i0, k);
    }
  }

  lemma {:induction false} TightStep<V>(cfg: Config, ops: seq<Op<V>>, es: seq<Entry<V>>, e: Entry<V>, i: nat, k: string)
    requires ops != [] && i < |es| && k in Since(cfg, ops, es[i].key)
    requires Touched(Run(cfg, ops[..|ops| - 1]), ops[|ops| - 1]) == Some(e.key)
    requires Tight(cfg, ops[..|ops| - 1], es)
    ensures k == e.key || ComesLater(es, i, k)
  {
  }

  lemma {:induction false} TightWithoutOldest<V>(cfg: Config, ops: seq<Op<V>>, es: seq<Entry<V>>)
    requires es != [] && Tight(cfg, ops, es)
    ensures Tight(cfg, ops, es[1..])
  {
    var rest := es[1..];
    forall i, k | 0 <= i < |rest| && k in Since(cfg, ops, rest[i].key)
      ensures ComesLater(rest, i, k)
    {
      assert es[i + 1] == rest[i];
      assert ComesLater(es, i + 1, k);
      var j :| i + 1 < j < |es| && es[j].key == k;
      assert rest[j - 1].key == k;
    }
  }

  lemma {:induction false} StoreKeeps<V>(c: Cache<V>, capacity: nat, e: Entry<V>)
    requires capacity >= 1 && Valid(c, capacity)
    ensures var grown := Remove(c.entries, e.key) + [e];
            Store(c, capacity, e.key, e.value, e.expiresAt).entries
              == if |grown| > capacity then grown[1..] else grown
  {
    RemoveDistinct(c.entries, e.key);
  }

  lemma {:induction false} EntriesAfterSet<V>(cfg: Config, ops: seq<Op<V>>) returns (e: Entry<V>, grown: seq<Entry<V>>)
    requires cfg.maxEntries >= 1
    requires ops != [] && ops[|ops| - 1].SetOp?
    ensures e.key == ops[|ops| - 1].key
    ensures grown == Remove(Run(cfg, ops[..|ops| - 1]).entries, e.key) + [e]
    ensures Run(cfg, ops).entries == if |grown| > cfg.maxEntries then grown[1..] else grown
  {
    var op := ops[|ops| - 1];
    var c := Run(cfg, ops[..|ops| - 1]);
    RunIsValid(cfg, ops[..|ops| - 1]);
    e := Entry(op.key, op.value, op.now + EffectiveTtl(op.ttl, cfg.ttl));
    grown := Remove(c.entries, op.key) + [e];
    StoreKeeps(c, cfg.maxEntries, e);
  }

  lemma {:induction false} TightAfterSet<V>(cfg: Config, ops: seq<Op<V>>)
    requires cfg.maxEntries >= 1
    requires ops != [] && ops[|ops| - 1].SetOp?
    requires Tight(cfg, ops[..|ops| - 1], Run(cfg, ops[..|ops| - 1]).entries)
    ensures Tight(cfg, ops, Run(cfg, ops).entries)
  {
    var before := ops[..|ops| - 1];
    RunIsValid(cfg, before);
    var e, grown := EntriesAfterSet(cfg, ops);
    TightAfterTouch(cfg, ops, Run(cfg, before).entries, e);
    if |grown| > cfg.maxEntries {
      TightWithoutOldest(cfg, ops, grown);
    }
  }

  lemma {:induction false} TightAfterGet<V>(cfg: Config, ops: seq<Op<V>>)
    requires cfg.maxEntries >= 1
    requires ops != [] && ops[|ops| - 1].GetOp?
    requires !RemovesExpired(Run(cfg, ops[..|ops| - 1]), ops[|ops| - 1])
    requires Tight(cfg, ops[..|ops| - 1], Run(cfg, ops[..|ops| - 1]).entries)
    ensures Tight(cfg, ops, Run(cfg, ops).entries)
  {
    var before, op := ops[..|ops| - 1], ops[|ops| - 1];
    var es := Run(cfg, before).entries;
    RunIsValid(cfg, before);
    if HasKey(es, op.key) {
      TightAfterTouch(cfg, ops, es, Find(es, op.key).value);
    } else {
      forall i, k | 0 <= i < |es| && k in Since(cfg, ops, es[i].key)
        ensures ComesLater(es, i, k)
      {
        assert k in Since(cfg, before, es[i].key);
      }
    }
  }

  lemma {:induction false} RunIsTight<V>(cfg: Config, ops: seq<Op<V>>)
    requires cfg.maxEntries >= 1 && NothingExpired(cfg, ops)
    ensures Tight(cfg, ops, Run(cfg, ops).entries)
  {
    if ops != [] {
      var before := ops[..|ops| - 1];
      assert forall i :: 0 <= i < |before| ==> before[..i] == ops[..i];
      RunIsTight(cfg, before);
      match ops[|ops| - 1]
      case GetOp(_, _) => TightAfterGet(cfg, ops);
      case SetOp(_, _, _, _) => TightAfterSet(cfg, ops);
      case ClearOp =>
    }
  }

  lemma {:induction false} HeldMeansLittlePressure<V>(cfg: Config, ops: seq<Op<V>>, key: string)
    requires cfg.maxEntries >= 1 && NothingExpired(cfg, ops)
    requires HasKey(Run(cfg, ops).entries, key)
    ensures |Since(cfg, ops, key)| < cfg.maxEntries
  {
    var es := Run(cfg, ops).entries;
    RunIsTight(cfg, ops);
    RunIsValid(cfg, ops);
    var i := FindPosition(es, key);
    var later := es[i + 1..];
    forall k | k in Since(cfg, ops, key)
      ensures k in KeySet(later)
    {
      assert ComesLater(es, i, k);
      var j :| i < j < |es| && es[j].key == k;
      assert later[j - i - 1].key == k;
    }
    SubsetSize(Since(cfg, ops, key), KeySet(later));
    KeySetSize(later);
  }

  lemma {:induction false} MissingUnderPressure<V>(cfg: Config, ops: seq<Op<V>>, key: string)
    requires cfg.maxEntries >= 1 && NothingExpired(cfg, ops)
    requires key in LastSet(cfg, ops) && !HasKey(Run(cfg, ops).entries, key)
    ensures |Since(cfg, ops, key)| >= cfg.maxEntries
  {
    var before, op := ops[..|ops| - 1], ops[|ops| - 1];
    var c := Run(cfg, before);
    assert forall i :: 0 <= i < |before| ==> before[..i] == ops[..i];
    RunIsValid(cfg, before);
    match op
    case GetOp(k, t) =>
      if HasKey(c.entries, key) {
        GetKeepsOthers(c, k, t, key);
      }
      MissingUnderPressure(cfg, before, key);
      GetOfMissing(c, k, t, key);
      SinceGrows(cfg, ops, key);
    case SetOp(k, value, t, ttl) =>
      MissingAfterSet(cfg, ops, key);
      if !HasKey(c.entries, key) {
        MissingUnderPressure(cfg, before, key);
        SinceGrows(cfg, ops, key);
      }
    case ClearOp =>
  }

  lemma {:induction false} GetKeepsOthers<V>(c: Cache<V>, k: string, now: real, key: string)
    requires HasKey(c.entries, key) && !RemovesExpired(c, GetOp(k, now))
    ensures HasKey(Lookup(c, k, now).0.entries, key)
  {
    if HasKey(c.entries, k) {
      FindInAppend(Remove(c.entries, k), Find(c.entries, k).value, key);
      if k != key {
        RemoveOther(c.entries, k, key);
      }
    }
  }

  lemma {:induction false} GetOfMissing<V>(c: Cache<V>, k: string, now: real, key: string)
    requires !HasKey(c.entries, key)
    ensures Touched(c, GetOp(k, now)) != Some(key)
  {
  }

  /** As long as no lookup has removed an expired entry, a key set since the last clear is
      held exactly when fewer than maxEntries other keys were touched since its own last
      touch. */
  lemma {:induction false} HeldExactlyWhenRecent<V>(cfg: Config, ops: seq<Op<V>>, key: string)
    requires cfg.maxEntries >= 1 && NothingExpired(cfg, ops)
    requires key in LastSet(cfg, ops)
    ensures HasKey(Run(cfg, ops).entries, key) <==> |Since(cfg, ops, key)| < cfg.maxEntries
  {
    if HasKey(Run(cfg, ops).entries, key) {
      HeldMeansLittlePressure(cfg, ops, key);
    } else {
      MissingUnderPressure(cfg, ops, key);
    }
  }

  function Example(): seq<Op<int>> {
    [SetOp("a", 0, 0.0, None), SetOp("b", 0, 0.0, Some(1.0)), GetOp("b", 5.0), SetOp("c", 0, 6.0, None)]
  }

  lemma {:induction false} ExampleEntries()
    ensures var cfg, ops := Config(2, 10.0), Example();
            && Run(cfg, ops[..1]).entries == [Entry("a", 0, 10.0)]
            && Run(cfg, ops[..2]).entries == [Entry("a", 0, 10.0), Entry("b", 0, 1.0)]
            && Run(cfg, ops[..3]).entries == [Entry("a", 0, 10.0)]
  {
    var cfg, ops := Config(2, 10.0), Example();
    var a, b := Entry("a", 0, 10.0), Entry("b", 0, 1.0);
    assert ops[..3][..2] == ops[..2] && ops[..2][..1] == ops[..1] && ops[..1][..0] == [];
    assert Remove<int>([], "a") == [] && Remove([a], "b") == [a] + Remove<int>([], "b");
    assert [a, b][1..] == [b] && [b][1..] == [];
    assert Find([a, b], "b") == Some(b);
    assert Remove([a, b], "b") == [a] + Remove([b], "b");
  }

  lemma {:induction false} ExampleEnds()
    ensures Run(Config(2, 10.0), Example()).entries[..1] == [Entry("a", 0, 10.0)]
  {
    ExampleEntries();
    var a := Entry("a", 0, 10.0);
    assert Remove([a], "c") == [a] + Remove<int>([], "c");
  }

  lemma {:induction false} ExampleTouches()
    ensures Since(Config(2, 10.0), Example(), "a") == {"b", "c"}
  {
    var cfg, ops := Config(2, 10.0), Example();
    ExampleEntries();
    assert ops[..3][..2] == ops[..2] && ops[..2][..1] == ops[..1] && ops[..1][..0] == [];
    assert Since(cfg, ops[..1], "a") == {};
    assert Since(cfg, ops[..2], "a") == {"b"};
    assert Since(cfg, ops[..3], "a") == {"b"};
  }

  /** Lazy removal breaks the equivalence in one direction: an expired entry that is looked
      up makes room, so a key can outlive maxEntries other keys. */
  lemma {:induction false} ExpiryKeepsAKeyLonger()
    ensures var cfg, ops := Config(2, 10.0), Example();
            && HasKey(Run(cfg, ops).entries, "a")
            && |Since(cfg, ops, "a")| >= cfg.maxEntries
  {
    ExampleEnds();
    ExampleTouches();
    assert Run(Config(2, 10.0), Example()).entries[0] == Entry("a", 0, 10.0);
  }

  // ----- conservation -----

  /** Entries that a store overwrote, a lookup removed as expired, or a clear dropped. */
  function Displaced<V>(cfg: Config, ops: seq<Op<V>>): nat {
    if ops == [] then 0
    else
      var c := Run(cfg, ops[..|ops| - 1]);
      Displaced(cfg, ops[..|ops| - 1]) +
      match ops[|ops| - 1]
      case GetOp(key, now) => if HasKey(c.entries, key) && Lookup(c, key, now).1.None? then 1 else 0
      case SetOp(key, _, _, _) => if HasKey(c.entries, key) then 1 else 0
      case ClearOp => |c.entries|
  }

  function Gets<V>(ops: seq<Op<V>>): nat {
    if ops == [] then 0
    else Gets(ops[..|ops| - 1]) + if ops[|ops| - 1].GetOp? then 1 else 0
  }

  /** Nothing stored is lost unaccounted for, and every lookup is a hit or a miss. */
  lemma {:induction false} StoresAreConserved<V>(cfg: Config, ops: seq<Op<V>>)
    requires cfg.maxEntries >= 1
    ensures var c := Run(cfg, ops);
            && c.stats.stores == |c.entries| + c.stats.evictions + Displaced(cfg, ops)
            && c.stats.hits + c.stats.misses == Gets(ops)
  {
    if ops != [] {
      var before := ops[..|ops| - 1];
      StoresAreConserved(cfg, before);
      RunIsValid(cfg, before);
      var c := Run(cfg, before);
      match ops[|ops| - 1]
      case GetOp(key, now) => RemoveDistinct(c.entries, key);
      case SetOp(key, value, now, ttl) => RemoveDistinct(c.entries, key);
      case ClearOp =>
    }
  }
}
