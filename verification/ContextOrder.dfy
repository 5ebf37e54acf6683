/** When the order of the input decides what context is selected. */
module ContextOrder {
  import opened Common
  import opened ContextSelection
  import opened ContextFit

  ghost predicate DistinctIds(items: seq<Item>) {
    forall i, j :: 0 <= i < j < |items| ==> items[i].id != items[j].id
  }

  // ----- what is kept, without mentioning the order -----

  /** No item with the same content beats x. */
  ghost predicate Maximal(items: seq<Item>, x: Item) {
    x in items && forall y :: y in items && y.key == x.key ==> !Beats(y, x)
  }

  /** No two maximal items with the same content tie on (authority, score). */
  ghost predicate NoTiedMaxima(items: seq<Item>) {
    forall x, y :: Maximal(items, x) && Maximal(items, y) && x.key == y.key ==> x == y
  }

  lemma KeptIsMaximal(items: seq<Item>, x: Item)
    requires x in Deduplicated(items)
    ensures Maximal(items, x)
  {
    KeepsFirstMaximal(items, x);
    var i :| 0 <= i < |items| && items[i] == x && FirstMaximal(items, i);
    forall y | y in items && y.key == x.key
      ensures !Beats(y, x)
    {
      var j :| 0 <= j < |items| && items[j] == y;
      assert items[j].key == items[i].key;
    }
  }

  lemma MaximalIsKept(items: seq<Item>, x: Item)
    requires NoTiedMaxima(items) && Maximal(items, x)
    ensures x in Deduplicated(items)
  {
    UnknownKey(items, x.key);
    var i :| 0 <= i < |items| && items[i] == x;
    var kept := Find(Deduplicated(items), x.key).value;
    KeptIsMaximal(items, kept);
  }

  lemma SameMembers(a: seq<Item>, b: seq<Item>, x: Item)
    requires multiset(a) == multiset(b)
    ensures x in a <==> x in b
  {
    assert x in a <==> x in multiset(a);
    assert x in b <==> x in multiset(b);
  }

  lemma MaximaIgnoreOrder(a: seq<Item>, b: seq<Item>)
    requires multiset(a) == multiset(b)
    ensures forall x :: Maximal(a, x) <==> Maximal(b, x)
    ensures NoTiedMaxima(a) ==> NoTiedMaxima(b)
  {
    forall x
      ensures x in a <==> x in b
    {
      SameMembers(a, b, x);
    }
  }

  lemma DeduplicatedIgnoresOrder(a: seq<Item>, b: seq<Item>, x: Item)
    requires multiset(a) == multiset(b) && NoTiedMaxima(a)
    ensures x in Deduplicated(a) <==> x in Deduplicated(b)
  {
    MaximaIgnoreOrder(a, b);
    if x in Deduplicated(a) {
      KeptIsMaximal(a, x);
      MaximalIsKept(b, x);
    }
    if x in Deduplicated(b) {
      KeptIsMaximal(b, x);
      MaximalIsKept(a, x);
    }
  }

  // ----- ranking is determined by the members -----

  lemma {:induction false} IdsOccurOnce(a: seq<Item>, x: Item)
    requires DistinctIds(a)
    ensures multiset(a)[x] <= 1
  {
    if a != [] {
      IdsOccurOnce(a[1..], x);
      assert a == [a[0]] + a[1..];
      assert x == a[0] ==> x !in a[1..];
    }
  }

  lemma PermutationKeepsIds(a: seq<Item>, b: seq<Item>)
    requires multiset(a) == multiset(b) && DistinctIds(a)
    ensures DistinctIds(b)
  {
    forall i, j | 0 <= i < j < |b|
      ensures b[i].id != b[j].id
    {
      SameMembers(a, b, b[i]);
      SameMembers(a, b, b[j]);
      IdsOccurOnce(a, b[i]);
      assert b == b[..j] + [b[j]] + b[j + 1..];
      assert b[i] in b[..j];
      assert multiset(b) == multiset(b[..j]) + multiset{b[j]} + multiset(b[j + 1..]);
    }
  }

  /** Sorted without equals is determined by the members. */
  lemma {:induction false} SortedIsUnique(s: seq<Item>, t: seq<Item>)
    requires Sorted(s) && Sorted(t) && DistinctIds(s) && DistinctIds(t)
    requires forall x :: x in s <==> x in t
    ensures s == t
  {
    EmptyTogether(s, t);
    if s != [] {
      assert s[0] in t;
      assert t[0] in s;
      SameHead(s, t);
      forall x
        ensures x in s[1..] <==> x in t[1..]
      {
        assert x in s[1..] <==> x in s && x != s[0];
        assert x in t[1..] <==> x in t && x != t[0];
      }
      SortedIsUnique(s[1..], t[1..]);
      assert s == [s[0]] + s[1..] && t == [t[0]] + t[1..];
    }
  }

  lemma EmptyTogether(s: seq<Item>, t: seq<Item>)
    requires forall x :: x in s <==> x in t
    ensures s == [] <==> t == []
  {
    assert s != [] ==> s[0] in s;
    assert t != [] ==> t[0] in t;
  }

  lemma SameHead(s: seq<Item>, t: seq<Item>)
    requires Sorted(s) && Sorted(t) && s != [] && t != []
    requires DistinctIds(s)
    requires s[0] in t && t[0] in s
    ensures s[0] == t[0]
  {
    var i :| 0 <= i < |t| && t[i] == s[0];
    var j :| 0 <= j < |s| && s[j] == t[0];
    assert i > 0 ==> !Precedes(s[0], t[0]);
    assert j > 0 ==> !Precedes(t[0], s[0]);
  }

  lemma RankedMembers(items: seq<Item>, x: Item)
    ensures x in Rank(items) <==> exists y :: y in items && x == y.(score := Score(y))
  {
    SortMembers(Rescored(items));
    RescoredFields(items);
    if x in Rank(items) {
      var i :| 0 <= i < |Rescored(items)| && Rescored(items)[i] == x;
      assert items[i] in items;
    }
    if y :| y in items && x == y.(score := Score(y)) {
      var i :| 0 <= i < |items| && items[i] == y;
      assert Rescored(items)[i] == x;
    }
  }

  lemma {:induction false} InsertKeepsIds(x: Item, s: seq<Item>)
    requires DistinctIds(s)
    requires forall y :: y in s ==> y.id != x.id
    ensures DistinctIds(Insert(x, s))
  {
    if s != [] && Precedes(s[0], x) {
      InsertKeepsIds(x, s[1..]);
      InsertMembers(x, s[1..]);
      var rest := Insert(x, s[1..]);
      forall j | 0 <= j < |rest|
        ensures rest[j].id != s[0].id
      {
        assert rest[j] in multiset(rest);
      }
    }
  }

  lemma {:induction false} SortKeepsIds(items: seq<Item>)
    requires DistinctIds(items)
    ensures DistinctIds(Sort(items))
  {
    if items != [] {
      SortKeepsIds(items[1..]);
      SortMembers(items[1..]);
      InsertKeepsIds(items[0], Sort(items[1..]));
    }
  }

  lemma DeduplicatedKeepsIds(items: seq<Item>)
    requires DistinctIds(items)
    ensures DistinctIds(Deduplicated(items))
  {
    OneItemPerKey(items);
    var kept := Deduplicated(items);
    forall i, j | 0 <= i < j < |kept|
      ensures kept[i].id != kept[j].id
    {
      KeepsFirstMaximal(items, kept[i]);
      KeepsFirstMaximal(items, kept[j]);
      assert kept[i] in kept && kept[j] in kept;
      assert kept[i] in items && kept[j] in items;
      assert kept[i].key != kept[j].key;
    }
  }

  lemma RankKeepsIds(items: seq<Item>)
    requires DistinctIds(items)
    ensures DistinctIds(Rank(items)) && Sorted(Rank(items))
  {
    RescoredFields(items);
    SortKeepsIds(Rescored(items));
    SortSorts(Rescored(items));
  }

  /** The order in which context was retrieved does not change what is selected. */
  lemma OptimizeIgnoresOrder(a: seq<Item>, b: seq<Item>, budget: ContextBudget)
    requires budget.Valid()
    requires multiset(a) == multiset(b) && DistinctIds(a) && NoTiedMaxima(a)
    ensures Optimized(a, budget) == Optimized(b, budget)
  {
    PermutationKeepsIds(a, b);
    DeduplicatedKeepsIds(a);
    DeduplicatedKeepsIds(b);
    RankKeepsIds(Deduplicated(a));
    RankKeepsIds(Deduplicated(b));
    forall x
      ensures x in Rank(Deduplicated(a)) <==> x in Rank(Deduplicated(b))
    {
      RankedMembers(Deduplicated(a), x);
      RankedMembers(Deduplicated(b), x);
      forall y
        ensures y in Deduplicated(a) <==> y in Deduplicated(b)
      {
        DeduplicatedIgnoresOrder(a, b, y);
      }
    }
    SortedIsUnique(Rank(Deduplicated(a)), Rank(Deduplicated(b)));
  }

  // ----- a tie at the top lets the order decide -----

  /** The input with one item moved to the front. */
  function Fronted(items: seq<Item>, i: nat): seq<Item>
    requires i < |items|
  {
    [items[i]] + items[..i] + items[i + 1..]
  }

  lemma FrontedIsPermutation(items: seq<Item>, i: nat)
    requires i < |items|
    ensures multiset(Fronted(items, i)) == multiset(items)
  {
    assert items == items[..i] + [items[i]] + items[i + 1..];
  }

  lemma FrontMaximumIsKept(items: seq<Item>, i: nat)
    requires i < |items| && Maximal(items, items[i])
    ensures items[i] in Deduplicated(Fronted(items, i))
  {
    var b := Fronted(items, i);
    FrontedIsPermutation(items, i);
    MaximaIgnoreOrder(items, b);
    forall j | 0 <= j < |b| && b[j].key == b[0].key
      ensures 0 < j ==> !Beats(b[j], b[0])
    {
      assert b[j] in b;
    }
    assert FirstMaximal(b, 0);
    KeepsFirstMaximal(b, b[0]);
  }

  /** A budget into which both lists fit. */
  function Roomy(r1: seq<Item>, r2: seq<Item>): ContextBudget {
    ContextBudget(|r1| + |r2| + 1, TotalSize(r1) + TotalSize(r2) + 1, 0)
  }

  lemma RoomyKeepsAll(r1: seq<Item>, r2: seq<Item>)
    ensures Roomy(r1, r2).Valid()
    ensures Fit(r1, Roomy(r1, r2).maxItems, Roomy(r1, r2).Limit()) == r1
    ensures Fit(r2, Roomy(r1, r2).maxItems, Roomy(r1, r2).Limit()) == r2
  {
    FitKeepsAll(r1, Roomy(r1, r2).maxItems, Roomy(r1, r2).Limit());
    FitKeepsAll(r2, Roomy(r1, r2).maxItems, Roomy(r1, r2).Limit());
  }

  lemma KeptInOneOnly(items: seq<Item>, i: nat, j: nat)
    requires i < |items| && j < |items| && DistinctIds(items)
    requires Maximal(items, items[i]) && Maximal(items, items[j])
    requires items[i].key == items[j].key && items[i] != items[j]
    ensures Rank(Deduplicated(Fronted(items, i))) != Rank(Deduplicated(Fronted(items, j)))
  {
    var x, y := items[i], items[j];
    var b, c := Fronted(items, i), Fronted(items, j);
    FrontMaximumIsKept(items, i);
    FrontMaximumIsKept(items, j);
    OneItemPerKey(b);
    OnlyOne(Deduplicated(b), x);
    var y' := y.(score := Score(y));
    RankedMembers(Deduplicated(c), y');
    RankedMembers(Deduplicated(b), y');
    forall z | z in Deduplicated(b)
      ensures z.id != y.id
    {
      KeptIsMaximal(b, z);
      FrontedIsPermutation(items, i);
      SameMembers(items, b, z);
      assert z != y;
    }
  }

  lemma OnlyOne(items: seq<Item>, x: Item)
    requires DistinctKeys(items) && x in items
    ensures forall y :: y in items && y.key == x.key ==> y == x
  {
  }

  ghost predicate OrderIrrelevant(a: seq<Item>) {
    forall b: seq<Item>, budget: ContextBudget :: multiset(b) == multiset(a) && budget.Valid() ==>
      Optimized(b, budget) == Optimized(a, budget)
  }

  /** For items with distinct ids, the input order never decides, under any budget, exactly
      when no two maximal items with one content tie on (authority, score). */
  lemma OrderIrrelevantIffNoTiedMaxima(a: seq<Item>)
    requires DistinctIds(a)
    ensures OrderIrrelevant(a) <==> NoTiedMaxima(a)
  {
    if NoTiedMaxima(a) {
      forall b: seq<Item>, budget: ContextBudget | multiset(b) == multiset(a) && budget.Valid()
        ensures Optimized(b, budget) == Optimized(a, budget)
      {
        OptimizeIgnoresOrder(a, b, budget);
      }
    } else {
      var x, y :| Maximal(a, x) && Maximal(a, y) && x.key == y.key && x != y;
      var i :| 0 <= i < |a| && a[i] == x;
      var j :| 0 <= j < |a| && a[j] == y;
      var b, c := Fronted(a, i), Fronted(a, j);
      FrontedIsPermutation(a, i);
      FrontedIsPermutation(a, j);
      KeptInOneOnly(a, i, j);
      var r1, r2 := Rank(Deduplicated(b)), Rank(Deduplicated(c));
      RoomyKeepsAll(r1, r2);
      assert Optimized(b, Roomy(r1, r2)) == r1 && Optimized(c, Roomy(r1, r2)) == r2;
    }
  }
}
