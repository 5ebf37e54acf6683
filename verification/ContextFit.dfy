/** Fitting ranked context into a budget: context optimisation and the context builder. */
module ContextFit {
  import opened Common
  import opened ContextSelection

  function Size(item: Item): nat {
    |item.content|
  }

  // ----- the greedy fit -----

  /** What the loop keeps of the ranked list, with room for `count` items and `limit` characters. */
  function Fit(ranked: seq<Item>, count: nat, limit: int): seq<Item> {
    if ranked == [] || count == 0 then []
    else if Size(ranked[0]) > limit then Fit(ranked[1..], count, limit)
    else [ranked[0]] + Fit(ranked[1..], count - 1, limit - Size(ranked[0]))
  }

  /** A subset of the ranked list is a mask over its positions. */
  function Chosen(ranked: seq<Item>, mask: seq<bool>): seq<Item>
    requires |mask| == |ranked|
  {
    if ranked == [] then []
    else if mask[0] then [ranked[0]] + Chosen(ranked[1..], mask[1..])
    else Chosen(ranked[1..], mask[1..])
  }

  function TotalSize(items: seq<Item>): nat {
    if items == [] then 0 else Size(items[0]) + TotalSize(items[1..])
  }

  ghost predicate Feasible(ranked: seq<Item>, mask: seq<bool>, count: nat, limit: int) {
    && |mask| == |ranked|
    && |Chosen(ranked, mask)| <= count
    && TotalSize(Chosen(ranked, mask)) <= limit
  }

  /** Equal, or the first difference is an item that only `a` takes. */
  ghost predicate AtLeast(a: seq<bool>, b: seq<bool>)
    requires |a| == |b|
  {
    a == [] || (a[0] && !b[0]) || (a[0] == b[0] && AtLeast(a[1..], b[1..]))
  }

  /** The positions the loop takes. */
  function Taken(ranked: seq<Item>, count: nat, limit: int): (mask: seq<bool>)
    ensures |mask| == |ranked|
  {
    if ranked == [] then []
    else if count == 0 || Size(ranked[0]) > limit then [false] + Taken(ranked[1..], count, limit)
    else [true] + Taken(ranked[1..], count - 1, limit - Size(ranked[0]))
  }

  lemma {:induction false} FitIsChosen(ranked: seq<Item>, count: nat, limit: int)
    ensures Fit(ranked, count, limit) == Chosen(ranked, Taken(ranked, count, limit))
  {
    if ranked != [] {
      if count == 0 || Size(ranked[0]) > limit {
        FitIsChosen(ranked[1..], count, limit);
      } else {
        FitIsChosen(ranked[1..], count - 1, limit - Size(ranked[0]));
      }
    }
  }

  lemma {:induction false} TakenIsFeasible(ranked: seq<Item>, count: nat, limit: nat)
    ensures Feasible(ranked, Taken(ranked, count, limit), count, limit)
  {
    if ranked != [] {
      if count == 0 || Size(ranked[0]) > limit {
        TakenIsFeasible(ranked[1..], count, limit);
      } else {
        TakenIsFeasible(ranked[1..], count - 1, limit - Size(ranked[0]));
        var rest := Chosen(ranked[1..], Taken(ranked[1..], count - 1, limit - Size(ranked[0])));
        assert ([ranked[0]] + rest)[1..] == rest;
      }
    }
  }

  lemma {:induction false} TakenBeatsFeasible(ranked: seq<Item>, mask: seq<bool>, count: nat, limit: nat)
    requires Feasible(ranked, mask, count, limit)
    ensures AtLeast(Taken(ranked, count, limit), mask)
  {
    if ranked != [] {
      var rest := Chosen(ranked[1..], mask[1..]);
      if mask[0] {
        assert ([ranked[0]] + rest)[1..] == rest;
        TakenBeatsFeasible(ranked[1..], mask[1..], count - 1, limit - Size(ranked[0]));
      } else if count == 0 || Size(ranked[0]) > limit {
        TakenBeatsFeasible(ranked[1..], mask[1..], count, limit);
      }
    }
  }

  lemma {:induction false} AtLeastIsAntisymmetric(a: seq<bool>, b: seq<bool>)
    requires |a| == |b| && AtLeast(a, b) && AtLeast(b, a)
    ensures a == b
  {
    if a != [] {
      AtLeastIsAntisymmetric(a[1..], b[1..]);
      assert a == [a[0]] + a[1..] && b == [b[0]] + b[1..];
    }
  }

  /** Among all subsets within both budgets, the selection is the greatest in rank order:
      a mask is the one the loop takes exactly when it is feasible and no feasible one is above it. */
  lemma FitIsLexicographicallyFirst(ranked: seq<Item>, count: nat, limit: nat, mask: seq<bool>)
    requires |mask| == |ranked|
    ensures mask == Taken(ranked, count, limit) <==>
            && Feasible(ranked, mask, count, limit)
            && forall other :: Feasible(ranked, other, count, limit) ==> AtLeast(mask, other)
    ensures mask == Taken(ranked, count, limit) ==> Chosen(ranked, mask) == Fit(ranked, count, limit)
  {
    var taken := Taken(ranked, count, limit);
    TakenIsFeasible(ranked, count, limit);
    FitIsChosen(ranked, count, limit);
    forall other | Feasible(ranked, other, count, limit)
      ensures AtLeast(taken, other)
    {
      TakenBeatsFeasible(ranked, other, count, limit);
    }
    if mask != taken && AtLeast(mask, taken) && AtLeast(taken, mask) {
      AtLeastIsAntisymmetric(mask, taken);
    }
  }

  // ----- facts about the greedy fit that the callers' laws need -----

  /** Fitting what was fitted changes nothing. */
  lemma {:induction false} FitOfFit(ranked: seq<Item>, count: nat, limit: nat)
    ensures Fit(Fit(ranked, count, limit), count, limit) == Fit(ranked, count, limit)
  {
    if ranked != [] && count > 0 {
      if Size(ranked[0]) > limit {
        FitOfFit(ranked[1..], count, limit);
      } else {
        FitOfFit(ranked[1..], count - 1, limit - Size(ranked[0]));
        var rest := Fit(ranked[1..], count - 1, limit - Size(ranked[0]));
        assert ([ranked[0]] + rest)[1..] == rest;
      }
    }
  }

  lemma {:induction false} FitMembers(ranked: seq<Item>, count: nat, limit: int)
    ensures forall x :: x in Fit(ranked, count, limit) ==> x in ranked
    ensures |Fit(ranked, count, limit)| <= |ranked|
  {
    if ranked != [] && count > 0 {
      if Size(ranked[0]) > limit {
        FitMembers(ranked[1..], count, limit);
      } else {
        FitMembers(ranked[1..], count - 1, limit - Size(ranked[0]));
      }
    }
  }

  lemma {:induction false} FitKeepsOrder(ranked: seq<Item>, count: nat, limit: int)
    requires Sorted(ranked) && DistinctKeys(ranked)
    ensures Sorted(Fit(ranked, count, limit)) && DistinctKeys(Fit(ranked, count, limit))
  {
    if ranked != [] && count > 0 {
      if Size(ranked[0]) > limit {
        FitKeepsOrder(ranked[1..], count, limit);
      } else {
        var rest := Fit(ranked[1..], count - 1, limit - Size(ranked[0]));
        FitKeepsOrder(ranked[1..], count - 1, limit - Size(ranked[0]));
        FitMembers(ranked[1..], count - 1, limit - Size(ranked[0]));
        forall j | 0 <= j < |rest|
          ensures !Precedes(rest[j], ranked[0]) && rest[j].key != ranked[0].key
        {
          assert rest[j] in ranked[1..];
        }
      }
    }
  }

  /** Something is dropped exactly when the whole list does not fit. */
  lemma {:induction false} FitKeepsAll(ranked: seq<Item>, count: nat, limit: nat)
    ensures |Fit(ranked, count, limit)| == |ranked| <==> |ranked| <= count && TotalSize(ranked) <= limit
    ensures |Fit(ranked, count, limit)| == |ranked| <==> Fit(ranked, count, limit) == ranked
  {
    if ranked != [] && count > 0 {
      if Size(ranked[0]) > limit {
        FitMembers(ranked[1..], count, limit);
      } else {
        FitKeepsAll(ranked[1..], count - 1, limit - Size(ranked[0]));
        assert ranked == [ranked[0]] + ranked[1..];
      }
    }
  }

  // ----- optimising context -----

  datatype ContextBudget = ContextBudget(maxItems: int, maxCharacters: int, reserveCharacters: int) {
    predicate Valid() {
      maxItems >= 1 && maxCharacters > reserveCharacters
    }

    function Limit(): int {
      maxCharacters - reserveCharacters
    }
  }

  /** A budget can be had exactly with room for an item and for characters beyond the reserve. */
  method MakeBudget(maxItems: int, maxCharacters: int, reserveCharacters: int)
    returns (r: Result<ContextBudget, ValueError>)
    ensures r.Err? <==> maxItems < 1 || maxCharacters <= reserveCharacters
    ensures r.Ok? ==> r.value == ContextBudget(maxItems, maxCharacters, reserveCharacters) && r.value.Valid()
  {
    if maxItems < 1 || maxCharacters <= reserveCharacters {
      return Err(ValueError.ValueError);
    }
    return Ok(ContextBudget(maxItems, maxCharacters, reserveCharacters));
  }

  const DEFAULT_BUDGET := ContextBudget(12, 24000, 2000)

  function Optimized(items: seq<Item>, budget: ContextBudget): seq<Item>
    requires budget.Valid()
  {
    Fit(Rank(Deduplicated(items)), budget.maxItems, budget.Limit())
  }

  lemma Regroup(a: seq<Item>, x: Item, b: seq<Item>)
    ensures (a + [x]) + b == a + ([x] + b)
  {
  }

  method OptimizeContext(items: seq<Item>, budget: Option<ContextBudget>) returns (output: seq<Item>)
    requires budget.Some? ==> budget.value.Valid()
    ensures output == Optimized(items, if budget.Some? then budget.value else DEFAULT_BUDGET)
  {
    var selectedBudget := if budget.Some? then budget.value else DEFAULT_BUDGET;
    var unique := Deduplicate(items);
    var ranked := Rank(unique);
    output := [];
    var used := 0;
    var limit := selectedBudget.maxCharacters - selectedBudget.reserveCharacters;
    var i := 0;
    while i < |ranked|
      invariant 0 <= i <= |ranked|
      invariant |output| <= selectedBudget.maxItems
      invariant output + Fit(ranked[i..], selectedBudget.maxItems - |output|, limit - used)
             == Fit(ranked, selectedBudget.maxItems, limit)
    {
      if |output| >= selectedBudget.maxItems {
        break;
      }
      assert ranked[i..][1..] == ranked[i + 1..];
      var size := Size(ranked[i]);
      if used + size > limit {
        i := i + 1;
        continue;
      }
      Regroup(output, ranked[i], Fit(ranked[i + 1..], selectedBudget.maxItems - |output| - 1, limit - used - size));
      output := output + [ranked[i]];
      used := used + size;
      i := i + 1;
    }
  }

  // ----- laws of optimisation -----

  lemma {:induction false} RescoredFields(items: seq<Item>)
    ensures |Rescored(items)| == |items|
    ensures forall i :: 0 <= i < |items| ==> Rescored(items)[i] == items[i].(score := Score(items[i]))
  {
    if items != [] {
      RescoredFields(items[1..]);
    }
  }

  lemma {:induction false} RescoredFixed(items: seq<Item>)
    requires forall x :: x in items ==> x.score == Score(x)
    ensures Rescored(items) == items
  {
    if items != [] {
      assert items[0] in items;
      RescoredFixed(items[1..]);
    }
  }

  ghost predicate Scored(items: seq<Item>) {
    forall x :: x in items ==> x.score == Score(x)
  }

  lemma RescoredIsScored(items: seq<Item>)
    ensures Scored(Rescored(items))
  {
    RescoredFields(items);
  }

  lemma {:induction false} InsertKeepsDistinct(x: Item, s: seq<Item>)
    requires DistinctKeys(s)
    requires forall y :: y in s ==> y.key != x.key
    ensures DistinctKeys(Insert(x, s))
  {
    if s != [] && Precedes(s[0], x) {
      InsertKeepsDistinct(x, s[1..]);
      InsertMembers(x, s[1..]);
      var rest := Insert(x, s[1..]);
      forall j | 0 <= j < |rest|
        ensures rest[j].key != s[0].key
      {
        assert rest[j] in multiset(rest);
      }
    }
  }

  lemma {:induction false} SortKeepsDistinct(items: seq<Item>)
    requires DistinctKeys(items)
    ensures DistinctKeys(Sort(items))
  {
    if items != [] {
      SortKeepsDistinct(items[1..]);
      SortSorts(items[1..]);
      forall y | y in Sort(items[1..])
        ensures y.key != items[0].key
      {
        assert y in multiset(Sort(items[1..]));
      }
      InsertKeepsDistinct(items[0], Sort(items[1..]));
    }
  }

  lemma SortMembers(items: seq<Item>)
    ensures forall x :: x in Sort(items) <==> x in items
  {
    SortSorts(items);
    forall x
      ensures x in Sort(items) <==> x in items
    {
      assert x in Sort(items) <==> x in multiset(Sort(items));
      assert x in items <==> x in multiset(items);
    }
  }

  /** Ranking sorts, keeps one item per key, and leaves every item with its blended score. */
  lemma RankedShape(items: seq<Item>)
    requires DistinctKeys(items)
    ensures Sorted(Rank(items)) && DistinctKeys(Rank(items)) && Scored(Rank(items))
  {
    RescoredFields(items);
    SortSorts(Rescored(items));
    SortKeepsDistinct(Rescored(items));
    RescoredIsScored(items);
    SortMembers(Rescored(items));
  }

  lemma RankOfRanked(items: seq<Item>)
    requires Sorted(items) && DistinctKeys(items) && Scored(items)
    ensures Rank(Deduplicated(items)) == items
  {
    DeduplicatedOfDistinct(items);
    RescoredFixed(items);
    SortOfSorted(items);
  }

  /** Optimising optimised context changes nothing. */
  lemma OptimizeIsIdempotent(items: seq<Item>, budget: ContextBudget)
    requires budget.Valid()
    ensures Optimized(Optimized(items, budget), budget) == Optimized(items, budget)
  {
    OneItemPerKey(items);
    RankedShape(Deduplicated(items));
    var ranked := Rank(Deduplicated(items));
    FitKeepsOrder(ranked, budget.maxItems, budget.Limit());
    FitMembers(ranked, budget.maxItems, budget.Limit());
    RankOfRanked(Optimized(items, budget));
    FitOfFit(ranked, budget.maxItems, budget.Limit());
  }

  // ----- the context builder -----

  datatype ContextRequest = ContextRequest(
    limit: int,
    maxCharacters: int,
    sourceKinds: seq<SourceKind>,
    minScore: real)
  {
    predicate Valid() {
      limit >= 1 && maxCharacters >= 1 && 0.0 <= minScore <= 1.0
    }
  }

  method MakeRequest(limit: int, maxCharacters: int, sourceKinds: seq<SourceKind>, minScore: real)
    returns (r: Result<ContextRequest, ValueError>)
    ensures r.Err? <==> limit < 1 || maxCharacters < 1 || minScore < 0.0 || minScore > 1.0
    ensures r.Ok? ==> r.value == ContextRequest(limit, maxCharacters, sourceKinds, minScore) && r.value.Valid()
  {
    if limit < 1 || maxCharacters < 1 {
      return Err(ValueError.ValueError);
    }
    if !(0.0 <= minScore <= 1.0) {
      return Err(ValueError.ValueError);
    }
    return Ok(ContextRequest(limit, maxCharacters, sourceKinds, minScore));
  }

  function Flattened(results: seq<seq<Item>>): seq<Item> {
    if results == [] then [] else results[0] + Flattened(results[1..])
  }

  predicate Eligible(request: ContextRequest, item: Item) {
    item.score >= request.minScore && (request.sourceKinds == [] || item.kind in request.sourceKinds)
  }

  function Filtered(request: ContextRequest, items: seq<Item>): seq<Item> {
    if items == [] then []
    else if Eligible(request, items[0]) then [items[0]] + Filtered(request, items[1..])
    else Filtered(request, items[1..])
  }

  /** The list the builder fits into the request. */
  function Candidates(request: ContextRequest, results: seq<seq<Item>>): seq<Item> {
    Filtered(request, Deduplicated(Flattened(results)))
  }

  method Build(results: seq<seq<Item>>, request: ContextRequest) returns (selected: seq<Item>, truncated: bool)
    requires request.Valid()
    ensures selected == Fit(Rank(Candidates(request, results)), request.limit, request.maxCharacters)
    ensures truncated <==> |selected| < |Rank(Candidates(request, results))|
  {
    var unique := Deduplicate(Flattened(results));
    var ranked := Rank(Filtered(request, unique));
    selected := [];
    var used := 0;
    truncated := false;
    var i := 0;
    while i < |ranked|
      invariant 0 <= i <= |ranked|
      invariant |selected| <= request.limit
      invariant |selected| <= i
      invariant truncated <==> |selected| < i
      invariant selected + Fit(ranked[i..], request.limit - |selected|, request.maxCharacters - used)
             == Fit(ranked, request.limit, request.maxCharacters)
    {
      if |selected| >= request.limit {
        truncated := true;
        break;
      }
      assert ranked[i..][1..] == ranked[i + 1..];
      var size := Size(ranked[i]);
      if used + size > request.maxCharacters {
        truncated := true;
        i := i + 1;
        continue;
      }
      var room := request.maxCharacters - used - size;
      Regroup(selected, ranked[i], Fit(ranked[i + 1..], request.limit - |selected| - 1, room));
      selected := selected + [ranked[i]];
      used := used + size;
      i := i + 1;
    }
  }

  lemma {:induction false} FilteredMembers(request: ContextRequest, items: seq<Item>)
    ensures forall x :: x in Filtered(request, items) <==> x in items && Eligible(request, x)
  {
    if items != [] {
      FilteredMembers(request, items[1..]);
    }
  }

  lemma {:induction false} FilteredKeepsDistinct(request: ContextRequest, items: seq<Item>)
    requires DistinctKeys(items)
    ensures DistinctKeys(Filtered(request, items))
  {
    if items != [] {
      var rest := Filtered(request, items[1..]);
      FilteredKeepsDistinct(request, items[1..]);
      FilteredMembers(request, items[1..]);
      forall j | 0 <= j < |rest|
        ensures rest[j].key != items[0].key
      {
        assert rest[j] in items[1..];
      }
    }
  }

  /** On the same candidates and matching budgets, the builder and the optimiser select the same. */
  lemma BuildMatchesOptimize(results: seq<seq<Item>>, request: ContextRequest, budget: ContextBudget)
    requires request.Valid() && budget.Valid()
    requires request.limit == budget.maxItems && request.maxCharacters == budget.Limit()
    ensures Fit(Rank(Candidates(request, results)), request.limit, request.maxCharacters)
         == Optimized(Candidates(request, results), budget)
  {
    OneItemPerKey(Flattened(results));
    FilteredKeepsDistinct(request, Deduplicated(Flattened(results)));
    DeduplicatedOfDistinct(Candidates(request, results));
  }
}
