/** Contradiction detection and claim validation of the integrity engine. */
module Contradictions {
  import opened Common

  /** Evidence as the checks look at it; `source` stands for the id of its source. */
  datatype Evidence = Evidence(key: Option<string>, polarity: Option<bool>, expires: Option<int>, source: nat)

  predicate Fresh(e: Evidence, now: int) {
    e.expires.None? || now <= e.expires.value
  }

  // ----- the detector -----

  /** Fresh evidence that takes a side on a key. */
  predicate TakesSide(e: Evidence, now: int) {
    e.key.Some? && e.polarity.Some? && Fresh(e, now)
  }

  predicate Conflict(a: Evidence, b: Evidence, now: int) {
    TakesSide(a, now) && TakesSide(b, now) && a.key == b.key && a.polarity != b.polarity
  }

  /** The conflicts of item `i` with later items below `n`, by position. */
  function Row(evidence: seq<Evidence>, now: int, i: nat, n: nat): seq<(nat, nat)>
    requires i < n <= |evidence|
    decreases n
  {
    if n == i + 1 then []
    else
      var before := Row(evidence, now, i, n - 1);
      if Conflict(evidence[i], evidence[n - 1], now) then before + [(i, n - 1)] else before
  }

  /** The rows of the first `i` items. */
  function Rows(evidence: seq<Evidence>, now: int, i: nat): seq<(nat, nat)>
    requires i <= |evidence|
  {
    if i == 0 then [] else Rows(evidence, now, i - 1) + Row(evidence, now, i - 1, |evidence|)
  }

  lemma {:induction false} RowPlaces(evidence: seq<Evidence>, now: int, i: nat, n: nat, p: (nat, nat))
    requires i < n <= |evidence|
    ensures p in Row(evidence, now, i, n) <==>
            p.0 == i && i < p.1 < n && Conflict(evidence[p.0], evidence[p.1], now)
    decreases n
  {
    if n > i + 1 {
      RowPlaces(evidence, now, i, n - 1, p);
    }
  }

  /** The detector reports exactly the conflicting pairs of positions. */
  lemma {:induction false} ExactlyTheConflicts(evidence: seq<Evidence>, now: int, i: nat, p: (nat, nat))
    requires i <= |evidence|
    ensures p in Rows(evidence, now, i) <==>
            p.0 < i && p.0 < p.1 < |evidence| && Conflict(evidence[p.0], evidence[p.1], now)
  {
    if i > 0 {
      ExactlyTheConflicts(evidence, now, i - 1, p);
      RowPlaces(evidence, now, i - 1, |evidence|, p);
    }
  }

  predicate Expired(e: Evidence, now: int) {
    match e.expires
    case None => false
    case Some(time) => time < now
  }

  /** Which pairs those are: both on one key, with opposite polarities, and neither expired. */
  lemma ReportedIffOpposed(evidence: seq<Evidence>, now: int, p: (nat, nat))
    requires p.0 < p.1 < |evidence|
    ensures var a, b := evidence[p.0], evidence[p.1];
            p in Rows(evidence, now, |evidence|) <==>
            && a.key.Some? && b.key == a.key
            && a.polarity.Some? && b.polarity.Some? && a.polarity.value != b.polarity.value
            && !Expired(a, now) && !Expired(b, now)
  {
    ExactlyTheConflicts(evidence, now, |evidence|, p);
  }

  predicate Earlier(p: (nat, nat), q: (nat, nat)) {
    p.0 < q.0 || (p.0 == q.0 && p.1 < q.1)
  }

  lemma {:induction false} RowOrdered(evidence: seq<Evidence>, now: int, i: nat, n: nat)
    requires i < n <= |evidence|
    ensures forall x, y :: 0 <= x < y < |Row(evidence, now, i, n)| ==>
              Earlier(Row(evidence, now, i, n)[x], Row(evidence, now, i, n)[y])
    decreases n
  {
    if n > i + 1 {
      RowOrdered(evidence, now, i, n - 1);
      var before := Row(evidence, now, i, n - 1);
      forall x | 0 <= x < |before|
        ensures Earlier(before[x], (i, n - 1))
      {
        RowPlaces(evidence, now, i, n - 1, before[x]);
      }
    }
  }

  /** It reports them in order, so none twice. */
  lemma {:induction false} ReportedInOrder(evidence: seq<Evidence>, now: int, i: nat)
    requires i <= |evidence|
    ensures forall x, y :: 0 <= x < y < |Rows(evidence, now, i)| ==>
              var p, q := Rows(evidence, now, i)[x], Rows(evidence, now, i)[y];
              if p.0 == q.0 then p.1 < q.1 else p.0 < q.0
  {
    if i > 0 {
      ReportedInOrder(evidence, now, i - 1);
      RowOrdered(evidence, now, i - 1, |evidence|);
      var before, row := Rows(evidence, now, i - 1), Row(evidence, now, i - 1, |evidence|);
      forall x, y | 0 <= x < |before| && 0 <= y < |row|
        ensures Earlier(before[x], row[y])
      {
        ExactlyTheConflicts(evidence, now, i - 1, before[x]);
        RowPlaces(evidence, now, i - 1, |evidence|, row[y]);
      }
    }
  }

  /** The pairs are the items at the given positions. */
  ghost predicate AreItemsAt(evidence: seq<Evidence>, pairs: seq<(Evidence, Evidence)>, places: seq<(nat, nat)>) {
    && |pairs| == |places|
    && forall n :: 0 <= n < |pairs| ==>
         && places[n].0 < |evidence| && places[n].1 < |evidence|
         && pairs[n] == (evidence[places[n].0], evidence[places[n].1])
  }

  /** The nested loops report the items at exactly the conflicting positions, row by row. */
  method FindContradictions(evidence: seq<Evidence>, now: int) returns (pairs: seq<(Evidence, Evidence)>)
    ensures AreItemsAt(evidence, pairs, Rows(evidence, now, |evidence|))
  {
    pairs := [];
    ghost var places: seq<(nat, nat)> := [];
    var index := 0;
    while index < |evidence|
      invariant 0 <= index <= |evidence|
      invariant places == Rows(evidence, now, index)
      invariant AreItemsAt(evidence, pairs, places)
    {
      var first := evidence[index];
      if first.key.None? || first.polarity.None? || !Fresh(first, now) {
        EmptyRow(evidence, now, index, |evidence|);
        index := index + 1;
        continue;
      }
      ghost var before := places;
      var j := index + 1;
      while j < |evidence|
        invariant index < j <= |evidence|
        invariant places == before + Row(evidence, now, index, j)
        invariant AreItemsAt(evidence, pairs, places)
      {
        var second := evidence[j];
        if second.key == first.key && second.polarity.Some? && second.polarity != first.polarity && Fresh(second, now) {
          pairs := pairs + [(first, second)];
          places := places + [(index, j)];
        }
        j := j + 1;
      }
      index := index + 1;
    }
  }

  lemma {:induction false} EmptyRow(evidence: seq<Evidence>, now: int, i: nat, n: nat)
    requires i < n <= |evidence| && !TakesSide(evidence[i], now)
    ensures Row(evidence, now, i, n) == []
    decreases n
  {
    if n > i + 1 {
      EmptyRow(evidence, now, i, n - 1);
    }
  }

  // ----- how many pairs there are -----

  /** Fresh items on a key with a given polarity. */
  function Count(evidence: seq<Evidence>, now: int, key: string, side: bool): nat {
    if evidence == [] then 0
    else
      var last := evidence[|evidence| - 1];
      Count(evidence[..|evidence| - 1], now, key, side)
      + if Fresh(last, now) && last.key == Some(key) && last.polarity == Some(side) then 1 else 0
  }

  function SumOfProducts(keys: seq<string>, evidence: seq<Evidence>, now: int): nat {
    if keys == [] then 0
    else Count(evidence, now, keys[0], true) * Count(evidence, now, keys[0], false)
         + SumOfProducts(keys[1..], evidence, now)
  }

  ghost predicate Covers(keys: seq<string>, evidence: seq<Evidence>, now: int) {
    && (forall i, j :: 0 <= i < j < |keys| ==> keys[i] != keys[j])
    && (forall e :: e in evidence && TakesSide(e, now) ==> e.key.value in keys)
  }

  /** Items that conflict with `x`. */
  function Against(evidence: seq<Evidence>, now: int, x: Evidence): nat {
    if TakesSide(x, now) then Count(evidence, now, x.key.value, !x.polarity.value) else 0
  }

  lemma RowOfLonger(evidence: seq<Evidence>, now: int, x: Evidence, i: nat, n: nat)
    requires i < n <= |evidence|
    ensures Row(evidence + [x], now, i, n) == Row(evidence, now, i, n)
    decreases n
  {
    if n > i + 1 {
      RowOfLonger(evidence, now, x, i, n - 1);
    }
  }

  lemma CountOfLonger(evidence: seq<Evidence>, now: int, x: Evidence, key: string, side: bool)
    ensures Count(evidence + [x], now, key, side) == Count(evidence, now, key, side)
            + if Fresh(x, now) && x.key == Some(key) && x.polarity == Some(side) then 1 else 0
  {
    assert (evidence + [x])[..|evidence|] == evidence;
  }

  lemma AgainstOfLonger(evidence: seq<Evidence>, now: int, y: Evidence, x: Evidence)
    ensures Against(evidence + [y], now, x) == Against(evidence, now, x) + if Conflict(y, x, now) then 1 else 0
  {
    if TakesSide(x, now) {
      assert y.polarity.Some? ==> (y.polarity.value != x.polarity.value <==> y.polarity == Some(!x.polarity.value));
      CountOfLonger(evidence, now, y, x.key.value, !x.polarity.value);
    }
  }

  /** A new last item adds its conflicts with the earlier items. */
  lemma {:induction false} RowsOfLonger(evidence: seq<Evidence>, now: int, x: Evidence, i: nat)
    requires i <= |evidence|
    ensures |Rows(evidence + [x], now, i)| == |Rows(evidence, now, i)| + Against(evidence[..i], now, x)
  {
    if i > 0 {
      RowsOfLonger(evidence, now, x, i - 1);
      RowOfLonger(evidence, now, x, i - 1, |evidence|);
      AgainstOfLonger(evidence[..i - 1], now, evidence[i - 1], x);
      assert evidence[..i] == evidence[..i - 1] + [evidence[i - 1]];
      var more := evidence + [x];
      assert more[i - 1] == evidence[i - 1] && more[|more| - 1] == x;
      assert |Row(more, now, i - 1, |more|)| ==
             |Row(more, now, i - 1, |evidence|)| + if Conflict(evidence[i - 1], x, now) then 1 else 0;
    }
  }

  lemma OneMoreOnASide(p: nat, n: nat)
    ensures (p + 1) * n == p * n + n
    ensures p * (n + 1) == p * n + p
  {
  }

  lemma ProductOfLonger(evidence: seq<Evidence>, now: int, x: Evidence, key: string)
    ensures Count(evidence + [x], now, key, true) * Count(evidence + [x], now, key, false)
            == Count(evidence, now, key, true) * Count(evidence, now, key, false)
            + if TakesSide(x, now) && x.key.value == key then Against(evidence, now, x) else 0
  {
    CountOfLonger(evidence, now, x, key, true);
    CountOfLonger(evidence, now, x, key, false);
    OneMoreOnASide(Count(evidence, now, key, true), Count(evidence, now, key, false));
  }

  lemma {:induction false} SumOfLonger(keys: seq<string>, evidence: seq<Evidence>, now: int, x: Evidence)
    requires forall i, j :: 0 <= i < j < |keys| ==> keys[i] != keys[j]
    ensures SumOfProducts(keys, evidence + [x], now) == SumOfProducts(keys, evidence, now)
            + if TakesSide(x, now) && x.key.value in keys then Against(evidence, now, x) else 0
  {
    if keys != [] {
      SumOfLonger(keys[1..], evidence, now, x);
      ProductOfLonger(evidence, now, x, keys[0]);
    }
  }

  /** The number of pairs is the sum over the keys of (fresh positive) * (fresh negative). */
  lemma {:induction false} PairCount(evidence: seq<Evidence>, now: int, keys: seq<string>)
    requires Covers(keys, evidence, now)
    ensures |Rows(evidence, now, |evidence|)| == SumOfProducts(keys, evidence, now)
  {
    if evidence == [] {
      NothingToSum(keys, now);
    } else {
      var n := |evidence| - 1;
      var front, x := evidence[..n], evidence[n];
      assert evidence == front + [x];
      assert Covers(keys, front, now);
      PairCount(front, now, keys);
      RowsOfLonger(front, now, x, n);
      assert front[..n] == front;
      assert x in evidence;
      SumOfLonger(keys, front, now, x);
    }
  }

  lemma {:induction false} NothingToSum(keys: seq<string>, now: int)
    ensures SumOfProducts(keys, [], now) == 0
  {
    if keys != [] {
      NothingToSum(keys[1..], now);
    }
  }

  lemma Cancel(p: multiset<Evidence>, q: multiset<Evidence>, x: Evidence)
    requires p + multiset{x} == q + multiset{x}
    ensures p == q
  {
    forall e
      ensures p[e] == q[e]
    {
      assert (p + multiset{x})[e] == (q + multiset{x})[e];
    }
  }

  lemma {:induction false} CountIsOfMembers(a: seq<Evidence>, b: seq<Evidence>, now: int, key: string, side: bool)
    requires multiset(a) == multiset(b)
    ensures Count(a, now, key, side) == Count(b, now, key, side)
  {
    if a == [] {
      assert |multiset(b)| == 0;
      assert b == [];
    } else {
      var n, x := |a| - 1, a[|a| - 1];
      assert x in multiset(b);
      var i :| 0 <= i < |b| && b[i] == x;
      assert a == a[..n] + [x];
      assert b == b[..i] + [x] + b[i + 1..];
      assert multiset(a) == multiset(a[..n]) + multiset{x};
      assert multiset(b) == multiset(b[..i] + b[i + 1..]) + multiset{x};
      Cancel(multiset(a[..n]), multiset(b[..i] + b[i + 1..]), x);
      CountIsOfMembers(a[..n], b[..i] + b[i + 1..], now, key, side);
      CountSkips(b, now, key, side, i);
    }
  }

  lemma {:induction false} CountSkips(b: seq<Evidence>, now: int, key: string, side: bool, i: nat)
    requires i < |b|
    ensures Count(b, now, key, side) == Count(b[..i] + b[i + 1..], now, key, side)
            + if Fresh(b[i], now) && b[i].key == Some(key) && b[i].polarity == Some(side) then 1 else 0
  {
    var n := |b| - 1;
    var rest := b[..i] + b[i + 1..];
    if i == n {
      assert rest == b[..n];
    } else {
      CountSkips(b[..n], now, key, side, i);
      assert rest[..n - 1] == b[..n][..i] + b[..n][i + 1..];
      assert rest[n - 1] == b[n];
    }
  }

  lemma {:induction false} SumIsOfMembers(keys: seq<string>, a: seq<Evidence>, b: seq<Evidence>, now: int)
    requires multiset(a) == multiset(b)
    ensures SumOfProducts(keys, a, now) == SumOfProducts(keys, b, now)
  {
    if keys != [] {
      SumIsOfMembers(keys[1..], a, b, now);
      CountIsOfMembers(a, b, now, keys[0], true);
      CountIsOfMembers(a, b, now, keys[0], false);
    }
  }

  /** Reordering the evidence does not change how many pairs are reported. */
  lemma PairCountIgnoresOrder(a: seq<Evidence>, b: seq<Evidence>, now: int, keys: seq<string>)
    requires multiset(a) == multiset(b)
    requires Covers(keys, a, now)
    ensures |Rows(a, now, |a|)| == |Rows(b, now, |b|)|
  {
    forall e | e in b
      ensures e in a
    {
      assert e in multiset(b);
    }
    PairCount(a, now, keys);
    PairCount(b, now, keys);
    SumIsOfMembers(keys, a, b, now);
  }

  // ----- validating a claim -----

  /** What a claim's metadata expects: a truth value, or something that is none, which no
      polarity matches. */
  datatype Expected = Truth(value: bool) | Other

  datatype Claim = Claim(key: Option<string>, expected: Expected, verifiedFact: bool, technicalRisk: bool)

  datatype Status = Supported | Unsupported | Questionable | Insufficient | Risky

  datatype Doubt = Stale | Contradicted | OneSource

  datatype Assessment = Assessment(
    status: Status,
    supporting: seq<Evidence>,
    contradicting: seq<Evidence>,
    doubts: seq<Doubt>)

  predicate Matches(c: Claim, e: Evidence) {
    c.key.None? || e.key == c.key
  }

  predicate Supports(c: Claim, e: Evidence) {
    e.polarity.None? || c.expected == Truth(e.polarity.value)
  }

  predicate Contradicts(c: Claim, e: Evidence) {
    e.polarity.Some? && c.expected != Truth(e.polarity.value)
  }

  function Supporting(c: Claim, evidence: seq<Evidence>, now: int): (kept: seq<Evidence>)
    ensures forall e :: e in kept <==> e in evidence && Matches(c, e) && Fresh(e, now) && Supports(c, e)
  {
    if evidence == [] then []
    else
      var e := evidence[0];
      if Matches(c, e) && Fresh(e, now) && Supports(c, e)
      then [e] + Supporting(c, evidence[1..], now)
      else Supporting(c, evidence[1..], now)
  }

  function Contradicting(c: Claim, evidence: seq<Evidence>, now: int): (kept: seq<Evidence>)
    ensures forall e :: e in kept <==> e in evidence && Matches(c, e) && Fresh(e, now) && Contradicts(c, e)
  {
    if evidence == [] then []
    else
      var e := evidence[0];
      if Matches(c, e) && Fresh(e, now) && Contradicts(c, e)
      then [e] + Contradicting(c, evidence[1..], now)
      else Contradicting(c, evidence[1..], now)
  }

  ghost predicate SomeStale(c: Claim, evidence: seq<Evidence>, now: int) {
    exists e :: e in evidence && Matches(c, e) && !Fresh(e, now)
  }

  ghost predicate SomeMatch(c: Claim, evidence: seq<Evidence>) {
    exists e :: e in evidence && Matches(c, e)
  }

  ghost predicate SomeSupport(c: Claim, evidence: seq<Evidence>, now: int) {
    exists e :: e in evidence && Matches(c, e) && Fresh(e, now) && Supports(c, e)
  }

  ghost predicate SomeContradiction(c: Claim, evidence: seq<Evidence>, now: int) {
    exists e :: e in evidence && Matches(c, e) && Fresh(e, now) && Contradicts(c, e)
  }

  /** Two supporting items from different sources. */
  ghost predicate Corroborated(c: Claim, evidence: seq<Evidence>, now: int) {
    exists e, f ::
      && e in Supporting(c, evidence, now) && f in Supporting(c, evidence, now)
      && e.source != f.source
  }

  ghost function StatusOf(c: Claim, evidence: seq<Evidence>, now: int): Status {
    if SomeContradiction(c, evidence, now) then Questionable
    else if !SomeSupport(c, evidence, now) then
      if SomeMatch(c, evidence) && !SomeStale(c, evidence, now) then Unsupported else Insufficient
    else if c.verifiedFact && !Corroborated(c, evidence, now) then Questionable
    else if c.technicalRisk then Risky
    else Supported
  }

  function Sources(items: seq<Evidence>): (ids: set<nat>)
    ensures forall e :: e in items ==> e.source in ids
    ensures forall id :: id in ids ==> exists e :: e in items && e.source == id
  {
    if items == [] then {} else {items[0].source} + Sources(items[1..])
  }

  lemma TwoSources(items: seq<Evidence>)
    ensures |Sources(items)| >= 2 <==> exists e, f :: e in items && f in items && e.source != f.source
  {
    var ids := Sources(items);
    if |ids| >= 2 {
      var a :| a in ids;
      assert |ids - {a}| >= 1;
      var b :| b in ids - {a};
      var e :| e in items && e.source == a;
      var f :| f in items && f.source == b;
      assert e.source != f.source;
    }
    if e, f :| e in items && f in items && e.source != f.source {
      assert {e.source, f.source} <= ids;
      SubsetSize({e.source, f.source}, ids);
    }
  }

  /** Whether anything matches, and whether anything that matches is stale. */
  method LookForMatches(c: Claim, evidence: seq<Evidence>, now: int) returns (matching: bool, stale: bool)
    ensures matching <==> SomeMatch(c, evidence)
    ensures stale <==> SomeStale(c, evidence, now)
  {
    matching, stale := false, false;
    var i := 0;
    while i < |evidence|
      invariant 0 <= i <= |evidence|
      invariant matching <==> exists j :: 0 <= j < i && Matches(c, evidence[j])
      invariant stale <==> exists j :: 0 <= j < i && Matches(c, evidence[j]) && !Fresh(evidence[j], now)
    {
      if Matches(c, evidence[i]) {
        matching := true;
        if !Fresh(evidence[i], now) {
          stale := true;
        }
      }
      i := i + 1;
    }
    if matching {
      var j :| 0 <= j < |evidence| && Matches(c, evidence[j]);
      assert evidence[j] in evidence;
    }
    if stale {
      var j :| 0 <= j < |evidence| && Matches(c, evidence[j]) && !Fresh(evidence[j], now);
      assert evidence[j] in evidence;
    }
  }

  /** The branches of validation, with what they mean for the evidence as a whole. */
  method ValidateClaim(c: Claim, evidence: seq<Evidence>, now: int) returns (a: Assessment)
    ensures a.status == StatusOf(c, evidence, now)
    ensures a.supporting == Supporting(c, evidence, now) && a.contradicting == Contradicting(c, evidence, now)
    ensures Stale in a.doubts <==> SomeStale(c, evidence, now)
    ensures Contradicted in a.doubts <==> SomeContradiction(c, evidence, now)
    ensures a.status == Questionable <==> Contradicted in a.doubts || OneSource in a.doubts
  {
    var matching, stale := LookForMatches(c, evidence, now);
    var supporting := Supporting(c, evidence, now);
    var contradicting := Contradicting(c, evidence, now);
    assert supporting != [] ==> supporting[0] in supporting;
    assert contradicting != [] ==> contradicting[0] in contradicting;
    TwoSources(supporting);
    var doubts: seq<Doubt> := if stale then [Stale] else [];
    var status;
    if contradicting != [] {
      doubts := doubts + [Contradicted];
      status := Questionable;
    } else if supporting == [] {
      status := if matching && !stale then Unsupported else Insufficient;
    } else if c.verifiedFact && |Sources(supporting)| < 2 {
      doubts := doubts + [OneSource];
      status := Questionable;
    } else if c.technicalRisk {
      status := Risky;
    } else {
      status := Supported;
    }
    a := Assessment(status, supporting, contradicting, doubts);
  }

  /** Evidence that bears on the claim: on its key, if it names one. */
  predicate BearsOn(c: Claim, e: Evidence) {
    c.key == None || c.key == e.key
  }

  /** Evidence without a polarity speaks for any claim, other evidence for the claims that
      expect its truth value; what does not speak for a claim speaks against it. */
  predicate SpeaksFor(c: Claim, e: Evidence) {
    match e.polarity
    case None => true
    case Some(side) => c.expected.Truth? && c.expected.value == side
  }

  /** Both lists hold exactly the unexpired evidence that bears on the claim, on either side. */
  lemma SidesOfAClaim(c: Claim, evidence: seq<Evidence>, now: int, e: Evidence)
    ensures e in Supporting(c, evidence, now) <==>
            e in evidence && BearsOn(c, e) && !Expired(e, now) && SpeaksFor(c, e)
    ensures e in Contradicting(c, evidence, now) <==>
            e in evidence && BearsOn(c, e) && !Expired(e, now) && !SpeaksFor(c, e)
    ensures SomeStale(c, evidence, now) <==> exists x :: x in evidence && BearsOn(c, x) && Expired(x, now)
  {
    if x :| x in evidence && BearsOn(c, x) && Expired(x, now) {
      assert Matches(c, x) && !Fresh(x, now);
    }
    if SomeStale(c, evidence, now) {
      var x :| x in evidence && Matches(c, x) && !Fresh(x, now);
      assert BearsOn(c, x) && Expired(x, now);
    }
  }

  /** Both lists keep the order of the evidence, and every item of it once. */
  lemma {:induction false} SupportInOrder(c: Claim, a: seq<Evidence>, b: seq<Evidence>, now: int)
    ensures Supporting(c, a + b, now) == Supporting(c, a, now) + Supporting(c, b, now)
    ensures |a| == 1 ==> |Supporting(c, a, now)| <= 1
  {
    if a == [] {
      assert a + b == b;
    } else {
      assert (a + b)[1..] == a[1..] + b;
      SupportInOrder(c, a[1..], b, now);
    }
  }

  lemma {:induction false} ObjectionsInOrder(c: Claim, a: seq<Evidence>, b: seq<Evidence>, now: int)
    ensures Contradicting(c, a + b, now) == Contradicting(c, a, now) + Contradicting(c, b, now)
    ensures |a| == 1 ==> |Contradicting(c, a, now)| <= 1
  {
    if a == [] {
      assert a + b == b;
    } else {
      assert (a + b)[1..] == a[1..] + b;
      ObjectionsInOrder(c, a[1..], b, now);
    }
  }

  /** How the two sides decide: an objection makes the claim questionable; without one, support
      makes it supported, unless a verified fact has a single source or there is a technical
      risk; with neither, unexpired evidence alone makes it unsupported. */
  lemma SidesDecideTheStatus(c: Claim, evidence: seq<Evidence>, now: int)
    ensures var supporting, contradicting := Supporting(c, evidence, now), Contradicting(c, evidence, now);
            var oneSource := forall e, f :: e in supporting && f in supporting ==> e.source == f.source;
            var status := StatusOf(c, evidence, now);
            && (status.Questionable? <==>
                  contradicting != [] || (supporting != [] && c.verifiedFact && oneSource))
            && (status.Risky? <==>
                  contradicting == [] && supporting != [] && !(c.verifiedFact && oneSource) && c.technicalRisk)
            && (status.Supported? <==>
                  contradicting == [] && supporting != [] && !(c.verifiedFact && oneSource) && !c.technicalRisk)
            && (status.Unsupported? <==>
                  contradicting == [] && supporting == []
                  && (exists e :: e in evidence && BearsOn(c, e))
                  && (forall e :: e in evidence && BearsOn(c, e) ==> !Expired(e, now)))
            && (status.Insufficient? <==>
                  contradicting == [] && supporting == []
                  && ((forall e :: e in evidence ==> !BearsOn(c, e))
                      || (exists e :: e in evidence && BearsOn(c, e) && Expired(e, now))))
  {
    var supporting, contradicting := Supporting(c, evidence, now), Contradicting(c, evidence, now);
    assert supporting != [] ==> supporting[0] in supporting;
    assert contradicting != [] ==> contradicting[0] in contradicting;
    forall e | e in evidence
      ensures Matches(c, e) <==> BearsOn(c, e)
      ensures Fresh(e, now) <==> !Expired(e, now)
    {
    }
    SupportIsSome(c, evidence, now);
  }

  lemma SupportIsSome(c: Claim, evidence: seq<Evidence>, now: int)
    ensures Supporting(c, evidence, now) != [] <==> SomeSupport(c, evidence, now)
    ensures Contradicting(c, evidence, now) != [] <==> SomeContradiction(c, evidence, now)
  {
    var supporting, contradicting := Supporting(c, evidence, now), Contradicting(c, evidence, now);
    assert supporting != [] ==> supporting[0] in supporting;
    assert contradicting != [] ==> contradicting[0] in contradicting;
  }

  // ----- detector and validation agree -----

  /** A pair on a key contradicts every claim on that key, and every claim on no key, whatever
      truth value it expects and in whatever order the evidence comes. */
  lemma PairForcesQuestionable(c: Claim, evidence: seq<Evidence>, now: int, p: (nat, nat))
    requires p in Rows(evidence, now, |evidence|)
    requires p.0 < |evidence| && (c.key.None? || evidence[p.0].key == c.key)
    ensures StatusOf(c, evidence, now) == Questionable
  {
    ExactlyTheConflicts(evidence, now, |evidence|, p);
    var a, b := evidence[p.0], evidence[p.1];
    assert a in evidence && b in evidence;
    assert Contradicts(c, a) || Contradicts(c, b);
  }

  /** The detector finds a pair on a key exactly when the two opposite claims on that key are
      both contradicted. */
  lemma PairIffBothClaimsContradicted(evidence: seq<Evidence>, now: int, key: string, verified: bool, risk: bool)
    ensures (exists p :: p in Rows(evidence, now, |evidence|) && p.0 < |evidence| && evidence[p.0].key == Some(key))
            <==>
            && SomeContradiction(Claim(Some(key), Truth(true), verified, risk), evidence, now)
            && SomeContradiction(Claim(Some(key), Truth(false), verified, risk), evidence, now)
  {
    var yes, no := Claim(Some(key), Truth(true), verified, risk), Claim(Some(key), Truth(false), verified, risk);
    if p :| p in Rows(evidence, now, |evidence|) && p.0 < |evidence| && evidence[p.0].key == Some(key) {
      ExactlyTheConflicts(evidence, now, |evidence|, p);
      var a, b := evidence[p.0], evidence[p.1];
      assert a in evidence && b in evidence;
      assert if a.polarity == Some(true) then Contradicts(no, a) && Contradicts(yes, b)
             else Contradicts(yes, a) && Contradicts(no, b);
    }
    if SomeContradiction(yes, evidence, now) && SomeContradiction(no, evidence, now) {
      var e :| e in evidence && Matches(yes, e) && Fresh(e, now) && Contradicts(yes, e);
      var f :| f in evidence && Matches(no, f) && Fresh(f, now) && Contradicts(no, f);
      var i :| 0 <= i < |evidence| && evidence[i] == e;
      var j :| 0 <= j < |evidence| && evidence[j] == f;
      var p := if i < j then (i, j) else (j, i);
      ExactlyTheConflicts(evidence, now, |evidence|, p);
    }
  }

  /** Reordering the evidence does not change what is decided about a claim. */
  lemma StatusIgnoresOrder(c: Claim, a: seq<Evidence>, b: seq<Evidence>, now: int)
    requires multiset(a) == multiset(b)
    ensures StatusOf(c, a, now) == StatusOf(c, b, now)
  {
    forall e
      ensures e in a <==> e in b
    {
      assert e in a <==> e in multiset(a);
      assert e in b <==> e in multiset(b);
    }
  }
}
