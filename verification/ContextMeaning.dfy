/** What ends up in the context, in terms of the items that were retrieved. */
module ContextMeaning {
  import opened Common
  import opened ContextSelection
  import opened ContextFit

  // ----- the blended score -----

  /** The score is a weighted mean of relevance, authority, freshness and the kind of source, by
      weights 55, 25, 10 and 10 of a hundred. */
  lemma ScoreWeighs(a: Item, b: Item)
    ensures 100.0 * (Score(a) - Score(b)) ==
            55.0 * (a.relevance - b.relevance) + 25.0 * (a.authority - b.authority)
            + 10.0 * (a.freshness - b.freshness) + 10.0 * (SourcePriority(a.kind) - SourcePriority(b.kind))
  {
  }

  /** Kinds of source from the strongest to the weakest, and what each is worth less than the
      strongest, in hundredths. */
  const KINDS := [Knowledge, Decision, Documentation, Repository, Project, Task, Memory]
  const WORTH_LESS := [0.0, 2.0, 8.0, 12.0, 18.0, 32.0, 45.0]

  /** Items that differ only in the kind of their source are ranked by it: the score of the
      weaker kind is lower by a tenth of the difference, 0.045 at most. */
  lemma KindsAreRanked(item: Item, i: nat, j: nat)
    requires i <= j < |KINDS|
    ensures 1000.0 * (Score(item.(kind := KINDS[i])) - Score(item.(kind := KINDS[j]))) == WORTH_LESS[j] - WORTH_LESS[i]
    ensures 0.0 <= WORTH_LESS[j] - WORTH_LESS[i] <= 45.0
  {
  }

  /** Inputs between 0 and 1 give a score between 0.055 and 1, and both are reached. */
  lemma ScoreStaysInRange(item: Item)
    requires 0.0 <= item.relevance <= 1.0 && 0.0 <= item.authority <= 1.0 && 0.0 <= item.freshness <= 1.0
    ensures 0.055 <= Score(item) <= 1.0
    ensures item.relevance == item.authority == item.freshness == 1.0 && item.kind.Knowledge? ==> Score(item) == 1.0
    ensures item.relevance == item.authority == item.freshness == 0.0 && item.kind.Memory? ==> Score(item) == 0.055
  {
  }

  // ----- what the builder selects -----

  lemma {:induction false} FlattenedMembers(results: seq<seq<Item>>, y: Item)
    ensures y in Flattened(results) <==> exists a :: 0 <= a < |results| && y in results[a]
  {
    if results != [] {
      FlattenedMembers(results[1..], y);
      if y in Flattened(results[1..]) {
        var a :| 0 <= a < |results[1..]| && y in results[1..][a];
        assert y in results[a + 1];
      }
      if exists a :: 0 <= a < |results| && y in results[a] {
        var a :| 0 <= a < |results| && y in results[a];
        assert a > 0 ==> y in results[1..][a - 1];
      }
    }
  }

  /** A retrieved item the request wants: of its content it is the first with the highest
      authority and, among those, score; its own score is high enough; and its kind is one of
      those asked for, if any are. */
  ghost predicate Wanted(results: seq<seq<Item>>, request: ContextRequest, y: Item) {
    && (exists i :: 0 <= i < |Flattened(results)| && Flattened(results)[i] == y && FirstMaximal(Flattened(results), i))
    && y.score >= request.minScore
    && (|request.sourceKinds| == 0 || exists k :: 0 <= k < |request.sourceKinds| && request.sourceKinds[k] == y.kind)
  }

  lemma {:induction false} CandidateIffWanted(results: seq<seq<Item>>, request: ContextRequest, y: Item)
    ensures y in Candidates(request, results) <==> Wanted(results, request, y)
  {
    FilteredMembers(request, Deduplicated(Flattened(results)));
    KeepsFirstMaximal(Flattened(results), y);
  }

  /** An item as it is ranked, with its blended score. */
  ghost predicate Ranked(y: Item, x: Item) {
    x == y.(score := x.score) && 100.0 * x.score
      == 55.0 * y.relevance + 25.0 * y.authority + 10.0 * y.freshness + 10.0 * SourcePriority(y.kind)
  }

  ghost predicate IsRankedOf(items: seq<Item>, x: Item) {
    exists i :: 0 <= i < |items| && Ranked(items[i], x)
  }

  lemma {:induction false} RankMembers(items: seq<Item>, x: Item)
    ensures x in Rank(items) <==> IsRankedOf(items, x)
  {
    SortMembers(Rescored(items));
    RescoredFields(items);
    if IsRankedOf(items, x) {
      var i :| 0 <= i < |items| && Ranked(items[i], x);
      assert Rescored(items)[i] == x;
    }
    if x in Rescored(items) {
      var i :| 0 <= i < |items| && Rescored(items)[i] == x;
      assert Ranked(items[i], x);
    }
  }

  ghost predicate Selectable(results: seq<seq<Item>>, request: ContextRequest, x: Item) {
    exists y :: Wanted(results, request, y) && Ranked(y, x)
  }

  /** What is selected was retrieved and wanted, and keeps within both budgets; and if nothing
      was cut off, everything wanted is selected. */
  lemma {:induction false} BuildSelectsWhatIsWanted(results: seq<seq<Item>>, request: ContextRequest, x: Item)
    requires request.Valid()
    ensures var ranked := Rank(Candidates(request, results));
            var selected := Fit(ranked, request.limit, request.maxCharacters);
            && (x in selected ==> Selectable(results, request, x))
            && (|selected| == |ranked| ==> (x in selected <==> Selectable(results, request, x)))
            && |selected| <= request.limit && TotalSize(selected) <= request.maxCharacters
  {
    var candidates := Candidates(request, results);
    var ranked := Rank(candidates);
    FitMembers(ranked, request.limit, request.maxCharacters);
    FitKeepsAll(ranked, request.limit, request.maxCharacters);
    FitIsChosen(ranked, request.limit, request.maxCharacters);
    TakenIsFeasible(ranked, request.limit, request.maxCharacters);
    RankMembers(candidates, x);
    if IsRankedOf(candidates, x) {
      var i :| 0 <= i < |candidates| && Ranked(candidates[i], x);
      CandidateIffWanted(results, request, candidates[i]);
    }
    if Selectable(results, request, x) {
      var y :| Wanted(results, request, y) && Ranked(y, x);
      CandidateIffWanted(results, request, y);
      var i :| 0 <= i < |candidates| && candidates[i] == y;
      assert Ranked(candidates[i], x);
    }
  }

  /** Without a budget the optimiser keeps at most 12 items of at most 22000 characters, and with
      one at most its items, within its characters less the reserve; it drops something only if
      the ranked list is more than that. */
  lemma OptimizedKeepsItsBudget(items: seq<Item>, budget: Option<ContextBudget>)
    requires budget.Some? ==> budget.value.Valid()
    ensures var output := Optimized(items, if budget.Some? then budget.value else DEFAULT_BUDGET);
            var ranked := Rank(Deduplicated(items));
            var count := if budget.Some? then budget.value.maxItems else 12;
            var room := if budget.Some? then budget.value.maxCharacters - budget.value.reserveCharacters else 22000;
            && |output| <= count && TotalSize(output) <= room
            && (output == ranked <==> |ranked| <= count && TotalSize(ranked) <= room)
  {
    var used := if budget.Some? then budget.value else DEFAULT_BUDGET;
    var ranked := Rank(Deduplicated(items));
    FitIsChosen(ranked, used.maxItems, used.Limit());
    TakenIsFeasible(ranked, used.maxItems, used.Limit());
    FitKeepsAll(ranked, used.maxItems, used.Limit());
  }
}
