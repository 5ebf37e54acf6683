/** Deduplication, ranking and budget fit of retrieved context. */
module ContextSelection {
  import opened Common

  datatype SourceKind = Knowledge | Memory | Project | Repository | Documentation | Decision | Task

  /** `key` is the stripped, case-folded content; `id` stands for the place of the item's id
      in the order of id texts. Metadata that selection never looks at is left out. */
  datatype Item = Item(
    id: nat,
    content: string,
    key: string,
    kind: SourceKind,
    authority: real,
    relevance: real,
    freshness: real,
    score: real)

  // ----- scoring and ranking -----

  function SourcePriority(k: SourceKind): real {
    match k
    case Knowledge => 1.0
    case Decision => 0.98
    case Documentation => 0.92
    case Repository => 0.88
    case Project => 0.82
    case Task => 0.68
    case Memory => 0.55
  }

  function Score(i: Item): real {
    i.relevance * 0.55 + i.authority * 0.25 + i.freshness * 0.10 + SourcePriority(i.kind) * 0.10
  }

  function Rescored(items: seq<Item>): seq<Item> {
    if items == [] then [] else [items[0].(score := Score(items[0]))] + Rescored(items[1..])
  }

  /** The sort key (-score, -authority, id). */
  predicate Precedes(a: Item, b: Item) {
    || a.score > b.score
    || (a.score == b.score && (a.authority > b.authority || (a.authority == b.authority && a.id < b.id)))
  }

  function Insert(x: Item, sorted: seq<Item>): seq<Item> {
    if sorted == [] then [x]
    else if Precedes(sorted[0], x) then [sorted[0]] + Insert(x, sorted[1..])
    else [x] + sorted
  }

  /** A stable sort. */
  function Sort(items: seq<Item>): seq<Item> {
    if items == [] then [] else Insert(items[0], Sort(items[1..]))
  }

  function Rank(items: seq<Item>): seq<Item> {
    Sort(Rescored(items))
  }

  ghost predicate Sorted(items: seq<Item>) {
    forall i, j :: 0 <= i < j < |items| ==> !Precedes(items[j], items[i])
  }

  lemma {:induction false} InsertMembers(x: Item, s: seq<Item>)
    ensures multiset(Insert(x, s)) == multiset(s) + multiset{x}
  {
    if s != [] {
      assert s == [s[0]] + s[1..];
      if Precedes(s[0], x) {
        InsertMembers(x, s[1..]);
      }
    }
  }

  lemma {:induction false} InsertSorted(x: Item, s: seq<Item>)
    requires Sorted(s)
    ensures Sorted(Insert(x, s))
  {
    if s != [] && Precedes(s[0], x) {
      InsertSorted(x, s[1..]);
      InsertMembers(x, s[1..]);
      var rest := Insert(x, s[1..]);
      forall j | 0 <= j < |rest|
        ensures !Precedes(rest[j], s[0])
      {
        assert rest[j] in multiset(rest);
        if rest[j] != x {
          assert rest[j] in s[1..];
        }
      }
    }
  }

  /** Ranking permutes the rescored items and puts them in order. */
  lemma {:induction false} SortSorts(items: seq<Item>)
    ensures Sorted(Sort(items))
    ensures multiset(Sort(items)) == multiset(items)
  {
    if items != [] {
      SortSorts(items[1..]);
      InsertSorted(items[0], Sort(items[1..]));
      InsertMembers(items[0], Sort(items[1..]));
      assert items == [items[0]] + items[1..];
    }
  }

  /** Descending score, then descending authority, then ascending id. */
  ghost predicate Descending(items: seq<Item>) {
    forall i, j :: 0 <= i < j < |items| ==>
      || items[i].score > items[j].score
      || (items[i].score == items[j].score
          && (items[i].authority > items[j].authority
              || (items[i].authority == items[j].authority && items[i].id <= items[j].id)))
  }

  /** The items with this score, authority and id, in order. */
  function Tied(items: seq<Item>, x: Item): seq<Item> {
    if items == [] then []
    else if (items[0].score, items[0].authority, items[0].id) == (x.score, x.authority, x.id)
    then [items[0]] + Tied(items[1..], x)
    else Tied(items[1..], x)
  }

  lemma {:induction false} TiedAfterInsert(y: Item, s: seq<Item>, x: Item)
    ensures Tied(Insert(y, s), x) == Tied([y] + s, x)
  {
    assert ([y] + s)[1..] == s;
    if s != [] && Precedes(s[0], y) {
      TiedAfterInsert(y, s[1..], x);
      assert ([y] + s[1..])[1..] == s[1..];
      assert ([s[0]] + Insert(y, s[1..]))[1..] == Insert(y, s[1..]);
    }
  }

  /** The order is by score, authority and id, and items that agree on all three keep the order
      they came in. */
  lemma {:induction false} SortIsDescendingAndStable(items: seq<Item>, x: Item)
    ensures Descending(Sort(items))
    ensures Tied(Sort(items), x) == Tied(items, x)
  {
    SortSorts(items);
    if items != [] {
      SortIsDescendingAndStable(items[1..], x);
      TiedAfterInsert(items[0], Sort(items[1..]), x);
      assert items == [items[0]] + items[1..];
      assert ([items[0]] + Sort(items[1..]))[1..] == Sort(items[1..]);
    }
  }

  lemma {:induction false} SortOfSorted(items: seq<Item>)
    requires Sorted(items)
    ensures Sort(items) == items
  {
    if items != [] {
      SortOfSorted(items[1..]);
    }
  }

  // ----- deduplication -----

  /** Higher (authority, score). */
  predicate Beats(a: Item, b: Item) {
    a.authority > b.authority || (a.authority == b.authority && a.score > b.score)
  }

  /** One turn of the loop: `best` lists the values of the dictionary in insertion order. */
  function Keep(best: seq<Item>, item: Item): seq<Item> {
    if best == [] then [item]
    else if best[0].key == item.key then [if Beats(item, best[0]) then item else best[0]] + best[1..]
    else [best[0]] + Keep(best[1..], item)
  }

  function Deduplicated(items: seq<Item>): seq<Item> {
    if items == [] then [] else Keep(Deduplicated(items[..|items| - 1]), items[|items| - 1])
  }

  ghost predicate DistinctKeys(items: seq<Item>) {
    forall i, j :: 0 <= i < j < |items| ==> items[i].key != items[j].key
  }

  function Keys(items: seq<Item>): (keys: seq<string>)
    ensures |keys| == |items|
    ensures forall i :: 0 <= i < |items| ==> keys[i] == items[i].key
  {
    if items == [] then [] else [items[0].key] + Keys(items[1..])
  }

  /** Each text once, in the order of first occurrence. */
  function Firsts(keys: seq<string>): seq<string> {
    if keys == [] then []
    else
      var before := Firsts(keys[..|keys| - 1]);
      if keys[|keys| - 1] in before then before else before + [keys[|keys| - 1]]
  }

  lemma {:induction false} KeepKeys(best: seq<Item>, item: Item)
    ensures Keys(Keep(best, item)) == if item.key in Keys(best) then Keys(best) else Keys(best) + [item.key]
  {
    if best != [] && best[0].key != item.key {
      KeepKeys(best[1..], item);
    }
  }

  lemma {:induction false} KeepStaysDistinct(best: seq<Item>, item: Item)
    requires DistinctKeys(best)
    ensures DistinctKeys(Keep(best, item))
  {
    KeepKeys(best, item);
    var kept := Keep(best, item);
    forall i, j | 0 <= i < j < |kept|
      ensures kept[i].key != kept[j].key
    {
      assert Keys(kept)[i] == kept[i].key && Keys(kept)[j] == kept[j].key;
    }
  }

  /** Exactly the content keys of the input remain, once each, in order of first occurrence. */
  lemma {:induction false} OneItemPerKey(items: seq<Item>)
    ensures Keys(Deduplicated(items)) == Firsts(Keys(items))
    ensures DistinctKeys(Deduplicated(items))
  {
    if items != [] {
      var n := |items| - 1;
      OneItemPerKey(items[..n]);
      assert Keys(items)[..n] == Keys(items[..n]);
      KeepKeys(Deduplicated(items[..n]), items[n]);
      KeepStaysDistinct(Deduplicated(items[..n]), items[n]);
    }
  }

  /** Item `i` has a higher authority, or the same and a higher score, than every earlier item
      with its content, and no later one has. */
  ghost predicate FirstMaximal(items: seq<Item>, i: nat)
    requires i < |items|
  {
    forall j :: 0 <= j < |items| && items[j].key == items[i].key ==>
      if items[j].authority == items[i].authority
      then (j < i ==> items[j].score < items[i].score) && (i < j ==> items[j].score <= items[i].score)
      else j != i ==> items[j].authority < items[i].authority
  }

  /** The value the dictionary holds for a key. */
  function Find(best: seq<Item>, key: string): (found: Option<Item>)
    ensures found.Some? ==> found.value in best && found.value.key == key
    ensures found.None? ==> forall i :: 0 <= i < |best| ==> best[i].key != key
  {
    if best == [] then None
    else if best[0].key == key then Some(best[0])
    else Find(best[1..], key)
  }

  lemma {:induction false} FindKept(best: seq<Item>, item: Item, key: string)
    ensures Find(Keep(best, item), key) ==
            if key != item.key then Find(best, key)
            else match Find(best, key)
                 case None => Some(item)
                 case Some(y) => Some(if Beats(item, y) then item else y)
  {
    if best != [] && best[0].key != item.key {
      FindKept(best[1..], item, key);
    }
  }

  lemma {:induction false} FindMember(best: seq<Item>, x: Item)
    requires DistinctKeys(best)
    ensures x in best <==> Find(best, x.key) == Some(x)
  {
    if best != [] {
      FindMember(best[1..], x);
      assert x in best <==> x == best[0] || x in best[1..];
    }
  }

  lemma {:induction false} KnownKey(items: seq<Item>, i: nat)
    requires i < |items|
    ensures Find(Deduplicated(items), items[i].key).Some?
  {
    var n := |items| - 1;
    FindKept(Deduplicated(items[..n]), items[n], items[i].key);
    if i < n {
      KnownKey(items[..n], i);
      assert items[..n][i] == items[i];
    }
  }

  lemma {:induction false} FoundKey(items: seq<Item>, key: string) returns (i: nat)
    requires Find(Deduplicated(items), key).Some?
    ensures i < |items| && items[i].key == key
  {
    var n := |items| - 1;
    FindKept(Deduplicated(items[..n]), items[n], key);
    i := n;
    if items[n].key != key {
      i := FoundKey(items[..n], key);
    }
  }

  lemma {:induction false} UnknownKey(items: seq<Item>, key: string)
    ensures Find(Deduplicated(items), key).None? <==> forall i :: 0 <= i < |items| ==> items[i].key != key
  {
    if Find(Deduplicated(items), key).Some? {
      var i := FoundKey(items, key);
    } else {
      forall i | 0 <= i < |items|
        ensures items[i].key != key
      {
        KnownKey(items, i);
      }
    }
  }

  lemma {:induction false} FoundIsFirstMaximal(items: seq<Item>, key: string) returns (i: nat)
    requires Find(Deduplicated(items), key).Some?
    ensures i < |items| && items[i].key == key
    ensures items[i] == Find(Deduplicated(items), key).value
    ensures FirstMaximal(items, i)
  {
    var front, item := items[..|items| - 1], items[|items| - 1];
    assert items == front + [item];
    FindKept(Deduplicated(front), item, key);
    if Find(Deduplicated(front), key).None? {
      UnknownKey(front, key);
      i := |front|;
    } else {
      var k := FoundIsFirstMaximal(front, key);
      FirstMaximalGrows(front, k, item);
      i := if item.key == key && Beats(item, front[k]) then |front| else k;
    }
  }

  lemma FirstMaximalGrows(items: seq<Item>, i: nat, item: Item)
    requires i < |items| && FirstMaximal(items, i)
    ensures FirstMaximal(items + [item], i) <==> !(item.key == items[i].key && Beats(item, items[i]))
    ensures item.key == items[i].key && Beats(item, items[i]) ==> FirstMaximal(items + [item], |items|)
  {
    var more := items + [item];
    assert forall j :: 0 <= j < |items| ==> more[j] == items[j];
    assert more[|items|] == item;
  }

  lemma OneFirstMaximal(items: seq<Item>, i: nat, j: nat)
    requires i < |items| && j < |items| && items[i].key == items[j].key
    requires FirstMaximal(items, i) && FirstMaximal(items, j)
    ensures i == j
  {
  }

  /** Deduplication keeps exactly the first maximal item of every content key. */
  lemma {:induction false} KeepsFirstMaximal(items: seq<Item>, x: Item)
    ensures x in Deduplicated(items) <==> exists i :: 0 <= i < |items| && items[i] == x && FirstMaximal(items, i)
  {
    OneItemPerKey(items);
    FindMember(Deduplicated(items), x);
    UnknownKey(items, x.key);
    if Find(Deduplicated(items), x.key).Some? {
      var i := FoundIsFirstMaximal(items, x.key);
      forall j | 0 <= j < |items| && items[j] == x && FirstMaximal(items, j)
        ensures j == i
      {
        OneFirstMaximal(items, i, j);
      }
    }
  }

  lemma {:induction false} DeduplicatedOfDistinct(items: seq<Item>)
    requires DistinctKeys(items)
    ensures Deduplicated(items) == items
  {
    if items != [] {
      var n := |items| - 1;
      DeduplicatedOfDistinct(items[..n]);
      KeepNew(items[..n], items[n]);
    }
  }

  lemma {:induction false} KeepNew(best: seq<Item>, item: Item)
    requires forall i :: 0 <= i < |best| ==> best[i].key != item.key
    ensures Keep(best, item) == best + [item]
  {
    if best != [] {
      KeepNew(best[1..], item);
    }
  }

  // ----- the loop over the dictionary -----

  /** The values of a dictionary whose keys were first inserted in the given order. */
  function Listed(order: seq<string>, best: map<string, Item>): seq<Item>
    requires forall k :: k in order ==> k in best
  {
    if order == [] then [] else [best[order[0]]] + Listed(order[1..], best)
  }

  lemma {:induction false} ListedAfterAssignment(order: seq<string>, best: map<string, Item>, item: Item)
    requires forall i, j :: 0 <= i < j < |order| ==> order[i] != order[j]
    requires forall k :: k in order ==> k in best && best[k].key == k
    ensures item.key in order && Beats(item, best[item.key]) ==>
              Listed(order, best[item.key := item]) == Keep(Listed(order, best), item)
    ensures item.key in order && !Beats(item, best[item.key]) ==>
              Listed(order, best) == Keep(Listed(order, best), item)
    ensures item.key !in order ==>
              Listed(order + [item.key], best[item.key := item]) == Keep(Listed(order, best), item)
  {
    if order != [] {
      ListedAfterAssignment(order[1..], best, item);
      assert (order + [item.key])[1..] == order[1..] + [item.key];
      if order[0] == item.key {
        ListedUnchanged(order[1..], best, item);
      }
    }
  }

  lemma {:induction false} ListedUnchanged(order: seq<string>, best: map<string, Item>, item: Item)
    requires forall k :: k in order ==> k in best
    requires item.key !in order
    ensures Listed(order, best[item.key := item]) == Listed(order, best)
  {
    if order != [] {
      ListedUnchanged(order[1..], best, item);
    }
  }

  method Deduplicate(items: seq<Item>) returns (kept: seq<Item>)
    ensures kept == Deduplicated(items)
  {
    var order: seq<string> := [];
    var best: map<string, Item> := map[];
    var i := 0;
    while i < |items|
      invariant 0 <= i <= |items|
      invariant forall k :: k in best <==> k in order
      invariant forall k :: k in order ==> k in best && best[k].key == k
      invariant forall j, k :: 0 <= j < k < |order| ==> order[j] != order[k]
      invariant Listed(order, best) == Deduplicated(items[..i])
    {
      ListedAfterAssignment(order, best, items[i]);
      assert items[..i + 1][..i] == items[..i];
      if items[i].key !in best {
        order := order + [items[i].key];
        best := best[items[i].key := items[i]];
      } else if Beats(items[i], best[items[i].key]) {
        best := best[items[i].key := items[i]];
      }
      i := i + 1;
    }
    assert items[..i] == items;
    kept := Listed(order, best);
  }
}
