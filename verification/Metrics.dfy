/** Ranking quality metrics.  The logarithmic discount is any positive non-increasing sequence. */
module Metrics {
  import opened Wrappers

  const MAX_GRADE := 4

  /** relevance.items(): keys with their grades. */
  type Relevance = seq<(string, int)>

  datatype Measures = Measures(returned: nat, hits: nat, support: nat, recall: Option<real>, ndcg: Option<real>)

  datatype Error = BadRanking | BadGrades

  predicate Distinct(ids: seq<string>) {
    forall i, j :: 0 <= i < j < |ids| ==> ids[i] != ids[j]
  }

  predicate ValidGrades(rel: Relevance) {
    forall i :: 0 <= i < |rel| ==> 0 <= rel[i].1 <= MAX_GRADE
  }

  ghost predicate Discounts(d: nat -> real) {
    (forall i: nat :: d(i) > 0.0) && forall i: nat, j: nat :: i <= j ==> d(i) >= d(j)
  }

  function Grade(rel: Relevance, key: string): int {
    if rel == [] then 0 else if rel[0].0 == key then rel[0].1 else Grade(rel[1..], key)
  }

  /** 2 ** grade - 1 */
  function Gain(grade: int): int {
    if grade <= 0 then 0 else 2 * Gain(grade - 1) + 1
  }

  function Grades(rel: Relevance): seq<int> {
    seq(|rel|, i requires 0 <= i < |rel| => rel[i].1)
  }

  function InsertDescending(x: int, xs: seq<int>): seq<int> {
    if xs == [] then [x]
    else if x >= xs[0] then [x] + xs
    else [xs[0]] + InsertDescending(x, xs[1..])
  }

  function SortDescending(xs: seq<int>): seq<int> {
    if xs == [] then [] else InsertDescending(xs[0], SortDescending(xs[1..]))
  }

  /** Gain at a position, zero past the end. */
  function GainAt(grades: seq<int>, i: nat): int {
    if i < |grades| then Gain(grades[i]) else 0
  }

  function Discounted(grades: seq<int>, d: nat -> real, n: nat): real {
    if n == 0 then 0.0 else Discounted(grades, d, n - 1) + GainAt(grades, n - 1) as real * d(n - 1)
  }

  function Selected(ids: seq<string>, k: nat): seq<string> {
    if |ids| <= k then ids else ids[..k]
  }

  function GradesOf(rel: Relevance, ids: seq<string>): seq<int> {
    seq(|ids|, i requires 0 <= i < |ids| => Grade(rel, ids[i]))
  }

  function Top(grades: seq<int>, k: nat): seq<int> {
    if |grades| <= k then grades else grades[..k]
  }

  function Rate(numerator: real, denominator: real): Option<real> {
    if denominator == 0.0 then None else Some(numerator / denominator)
  }

  function Members(ids: seq<string>): set<string> {
    set i | i in ids
  }

  function Relevant(rel: Relevance): set<string> {
    set p | p in rel && p.1 > 0 :: p.0
  }

  function RankingMetrics(ids: seq<string>, rel: Relevance, k: nat, d: nat -> real): Result<Measures, Error> {
    if k < 1 || !Distinct(ids) then Failure(BadRanking)
    else if !ValidGrades(rel) then Failure(BadGrades)
    else
      var selected := Selected(ids, k);
      var hits := |Members(selected) * Relevant(rel)|;
      var dcg := Discounted(GradesOf(rel, selected), d, |selected|);
      var best := Top(SortDescending(Grades(rel)), k);
      var ideal := Discounted(best, d, |best|);
      Success(Measures(|selected|, hits, |Relevant(rel)|, Rate(hits as real, |Relevant(rel)| as real), Rate(dcg, ideal)))
  }

  // ----- what is measured

  function PowerOfTwo(n: nat): nat {
    if n == 0 then 1 else 2 * PowerOfTwo(n - 1)
  }

  lemma {:induction false} GainIsPower(grade: nat)
    ensures Gain(grade) + 1 == PowerOfTwo(grade)
  {
    if grade > 0 {
      GainIsPower(grade - 1);
    }
  }

  /** A position adds the power of two of its grade less one, discounted by its rank. */
  lemma DiscountedAdds(grades: seq<int>, d: nat -> real, n: nat)
    requires n < |grades| && grades[n] >= 0
    ensures Discounted(grades, d, 0) == 0.0
    ensures Discounted(grades, d, n + 1) == Discounted(grades, d, n) + (PowerOfTwo(grades[n]) - 1) as real * d(n)
  {
    GainIsPower(grades[n]);
  }

  /** A cutoff of zero or a repeated key is refused first, then a grade that is not from zero to four. */
  lemma MetricsFailIff(ids: seq<string>, rel: Relevance, k: nat, d: nat -> real)
    ensures RankingMetrics(ids, rel, k, d) == Failure(BadRanking)
            <==> k == 0 || exists i, j :: 0 <= i < j < |ids| && ids[i] == ids[j]
    ensures RankingMetrics(ids, rel, k, d) == Failure(BadGrades)
            <==> k >= 1 && (forall i, j :: 0 <= i < j < |ids| ==> ids[i] != ids[j])
                 && exists i :: 0 <= i < |rel| && (rel[i].1 < 0 || rel[i].1 > 4)
  {
  }

  ghost predicate IsRelevant(rel: Relevance, key: string) {
    exists i :: 0 <= i < |rel| && rel[i].0 == key && rel[i].1 > 0
  }

  ghost predicate IsReturned(ids: seq<string>, k: nat, key: string) {
    exists i :: 0 <= i < |ids| && i < k && ids[i] == key
  }

  /** What counts is a positive grade, and a place among the first k. */
  lemma HitsAreCounted(ids: seq<string>, rel: Relevance, k: nat, d: nat -> real, m: Measures,
                       relevant: set<string>, found: set<string>)
    requires RankingMetrics(ids, rel, k, d) == Success(m)
    requires forall x :: x in relevant <==> IsRelevant(rel, x)
    requires forall x :: x in found <==> IsRelevant(rel, x) && IsReturned(ids, k, x)
    ensures m.returned == (if |ids| < k then |ids| else k) && m.support == |relevant| && m.hits == |found|
    ensures m.recall == if relevant == {} then None else Some(|found| as real / |relevant| as real)
  {
    forall x ensures x in Relevant(rel) <==> x in relevant { RelevantIff(rel, x); }
    forall x ensures x in Members(Selected(ids, k)) <==> IsReturned(ids, k, x) { ReturnedIff(ids, k, x); }
    assert Relevant(rel) == relevant;
    assert Members(Selected(ids, k)) * Relevant(rel) == found;
  }

  lemma RelevantIff(rel: Relevance, x: string)
    ensures x in Relevant(rel) <==> IsRelevant(rel, x)
  {
    if i :| 0 <= i < |rel| && rel[i].0 == x && rel[i].1 > 0 { assert rel[i] in rel; }
  }

  lemma ReturnedIff(ids: seq<string>, k: nat, x: string)
    ensures x in Members(Selected(ids, k)) <==> IsReturned(ids, k, x)
  {
    var selected := Selected(ids, k);
    if i :| 0 <= i < |ids| && i < k && ids[i] == x { assert selected[i] == x; }
  }

  // ----- prefix domination

  function SumGains(grades: seq<int>, n: nat): int {
    if n == 0 then 0 else SumGains(grades, n - 1) + GainAt(grades, n - 1)
  }

  ghost predicate Descending(xs: seq<int>) {
    forall i, j :: 0 <= i < j < |xs| ==> xs[i] >= xs[j]
  }

  lemma {:induction false} GainMonotone(a: int, b: int)
    requires a <= b
    ensures 0 <= Gain(a) <= Gain(b)
  {
    if b > 0 {
      GainMonotone(if a > 0 then a - 1 else a, b - 1);
    }
  }

  lemma {:induction false} SumShift(x: int, xs: seq<int>, n: nat)
    requires n >= 1
    ensures SumGains([x] + xs, n) == Gain(x) + SumGains(xs, n - 1)
  {
    if n > 1 {
      SumShift(x, xs, n - 1);
      assert GainAt([x] + xs, n - 1) == GainAt(xs, n - 2);
    }
  }

  /** Inserting a grade into a sorted list raises every prefix sum at least to what taking that grade gives,
      and never lowers one. */
  lemma {:induction false} InsertRaisesPrefix(x: int, xs: seq<int>, n: nat)
    requires Descending(xs)
    ensures SumGains(InsertDescending(x, xs), n) >= SumGains(xs, n)
    ensures n >= 1 ==> SumGains(InsertDescending(x, xs), n) >= Gain(x) + SumGains(xs, n - 1)
    decreases |xs|
  {
    if n >= 1 {
      if xs == [] || x >= xs[0] {
        assert InsertDescending(x, xs) == [x] + xs;
        SumShift(x, xs, n);
        PrefixStep(x, xs, n - 1);
      } else {
        InsertRaisesPrefix(x, xs[1..], n - 1);
        RaisedBehind(x, xs, n);
      }
    }
  }

  lemma RaisedBehind(x: int, xs: seq<int>, n: nat)
    requires xs != [] && x < xs[0] && n >= 1
    requires SumGains(InsertDescending(x, xs[1..]), n - 1) >= SumGains(xs[1..], n - 1)
    requires n >= 2 ==> SumGains(InsertDescending(x, xs[1..]), n - 1) >= Gain(x) + SumGains(xs[1..], n - 2)
    ensures SumGains(InsertDescending(x, xs), n) >= SumGains(xs, n)
    ensures SumGains(InsertDescending(x, xs), n) >= Gain(x) + SumGains(xs, n - 1)
  {
    var rest := InsertDescending(x, xs[1..]);
    assert xs == [xs[0]] + xs[1..];
    SumShift(xs[0], rest, n);
    SumShift(xs[0], xs[1..], n);
    GainMonotone(x, xs[0]);
    if n >= 2 { SumShift(xs[0], xs[1..], n - 1); }
  }

  lemma PrefixStep(x: int, xs: seq<int>, n: nat)
    requires forall i :: 0 <= i < |xs| ==> xs[i] <= x
    ensures GainAt(xs, n) <= Gain(x)
  {
    GainMonotone(if n < |xs| then xs[n] else x, x);
  }

  lemma {:induction false} InsertKeepsDescending(x: int, xs: seq<int>)
    requires Descending(xs)
    ensures Descending(InsertDescending(x, xs))
    ensures forall y :: y in InsertDescending(x, xs) ==> y == x || y in xs
  {
    if xs != [] {
      if x >= xs[0] {
        PrependDescending(x, xs);
      } else {
        InsertKeepsDescending(x, xs[1..]);
        var rest := InsertDescending(x, xs[1..]);
        forall j | 0 <= j < |rest| ensures rest[j] <= xs[0] { assert rest[j] in rest; }
        PrependDescending(xs[0], rest);
      }
    }
  }

  lemma PrependDescending(x: int, xs: seq<int>)
    requires Descending(xs) && forall i :: 0 <= i < |xs| ==> xs[i] <= x
    ensures Descending([x] + xs)
  {
  }

  lemma {:induction false} SortIsDescending(xs: seq<int>)
    ensures Descending(SortDescending(xs))
  {
    if xs != [] {
      SortIsDescending(xs[1..]);
      InsertKeepsDescending(xs[0], SortDescending(xs[1..]));
    }
  }

  function Without(ids: seq<string>, key: string): seq<string> {
    if ids == [] then []
    else if ids[0] == key then ids[1..]
    else [ids[0]] + Without(ids[1..], key)
  }

  /** Total gain of the listed keys. */
  function TotalGain(rel: Relevance, ids: seq<string>): int {
    if ids == [] then 0 else Gain(Grade(rel, ids[0])) + TotalGain(rel, ids[1..])
  }

  lemma {:induction false} WithoutFacts(rel: Relevance, ids: seq<string>, key: string)
    requires Distinct(ids) && key in ids
    ensures |Without(ids, key)| == |ids| - 1
    ensures forall i :: i in Without(ids, key) <==> i in ids && i != key
    ensures Distinct(Without(ids, key))
    ensures TotalGain(rel, ids) == Gain(Grade(rel, key)) + TotalGain(rel, Without(ids, key))
  {
    if ids[0] != key {
      WithoutFacts(rel, ids[1..], key);
      var rest := Without(ids[1..], key);
      forall j | 0 <= j < |rest| ensures rest[j] != ids[0] { assert rest[j] in rest; }
    }
  }

  lemma {:induction false} TailGain(rel: Relevance, ids: seq<string>)
    requires rel != [] && rel[0].0 !in ids
    ensures TotalGain(rel, ids) == TotalGain(rel[1..], ids)
  {
    if ids != [] {
      TailGain(rel, ids[1..]);
    }
  }

  lemma {:induction false} NothingRelevant(ids: seq<string>)
    ensures TotalGain([], ids) == 0
  {
    if ids != [] {
      NothingRelevant(ids[1..]);
    }
  }

  lemma {:induction false} SumOfNothing(n: nat)
    ensures SumGains([], n) == 0
  {
    if n > 0 {
      SumOfNothing(n - 1);
    }
  }

  /** No choice of distinct keys gains more than the best grades of that number. */
  lemma {:induction false} DistinctKeysGainAtMostTop(rel: Relevance, ids: seq<string>)
    requires Distinct(ids)
    ensures TotalGain(rel, ids) <= SumGains(SortDescending(Grades(rel)), |ids|)
    decreases |rel|
  {
    if rel == [] {
      NothingRelevant(ids);
      SumOfNothing(|ids|);
    } else {
      var key, rest := rel[0].0, SortDescending(Grades(rel[1..]));
      assert Grades(rel)[1..] == Grades(rel[1..]);
      SortIsDescending(Grades(rel[1..]));
      InsertRaisesPrefix(rel[0].1, rest, |ids|);
      if key in ids {
        WithoutFacts(rel, ids, key);
        TailGain(rel, Without(ids, key));
        DistinctKeysGainAtMostTop(rel[1..], Without(ids, key));
      } else {
        TailGain(rel, ids);
        DistinctKeysGainAtMostTop(rel[1..], ids);
      }
    }
  }

  lemma {:induction false} SumOfSelection(rel: Relevance, ids: seq<string>, n: nat)
    requires n <= |ids|
    ensures SumGains(GradesOf(rel, ids), n) == TotalGain(rel, ids[..n])
  {
    if n > 0 {
      SumOfSelection(rel, ids, n - 1);
      TotalGainAppend(rel, ids[..n - 1], ids[n - 1]);
      assert ids[..n] == ids[..n - 1] + [ids[n - 1]];
    }
  }

  lemma {:induction false} TotalGainAppend(rel: Relevance, ids: seq<string>, key: string)
    ensures TotalGain(rel, ids + [key]) == TotalGain(rel, ids) + Gain(Grade(rel, key))
  {
    if ids != [] {
      assert (ids + [key])[1..] == ids[1..] + [key];
      TotalGainAppend(rel, ids[1..], key);
    }
  }

  // ----- summation by parts

  lemma ProductMonotone(x: real, a: real, b: real)
    requires x >= 0.0 && a >= b
    ensures x * a >= x * b
  {
  }

  lemma DominanceStep(mine: real, theirs: real, surplus: real, before: real, x: real, g: real, h: real, total: real)
    requires theirs - mine >= surplus * before && surplus >= 0.0 && before >= x && total == surplus + g - h
    ensures (theirs + g * x) - (mine + h * x) >= total * x
  {
    ProductMonotone(surplus, before, x);
    assert (surplus + g - h) * x == surplus * x + g * x - h * x;
  }

  ghost predicate DominatedUpTo(a: seq<int>, b: seq<int>, n: nat) {
    forall m: nat :: m <= n ==> SumGains(a, m) <= SumGains(b, m)
  }

  /** If every prefix sum of one list is at most that of another, so is the sum under any non-increasing
      discount: the surplus is at least the final surplus of prefix sums times the last discount. */
  lemma {:induction false} PrefixDominance(a: seq<int>, b: seq<int>, d: nat -> real, n: nat)
    requires Discounts(d) && n >= 1 && DominatedUpTo(a, b, n)
    ensures Discounted(b, d, n) - Discounted(a, d, n) >= (SumGains(b, n) - SumGains(a, n)) as real * d(n - 1)
  {
    var surplus := SumGains(b, n - 1) - SumGains(a, n - 1);
    var before := if n > 1 then d(n - 2) else d(n - 1);
    if n > 1 {
      PrefixDominance(a, b, d, n - 1);
    }
    var total := SumGains(b, n) - SumGains(a, n);
    assert total == surplus + GainAt(b, n - 1) - GainAt(a, n - 1) && surplus >= 0 && before >= d(n - 1);
    DominanceStep(Discounted(a, d, n - 1), Discounted(b, d, n - 1), surplus as real, before, d(n - 1),
                  GainAt(b, n - 1) as real, GainAt(a, n - 1) as real, total as real);
  }

  lemma {:induction false} MoreTermsNotLess(grades: seq<int>, d: nat -> real, m: nat, n: nat)
    requires Discounts(d) && m <= n
    ensures 0.0 <= Discounted(grades, d, m) <= Discounted(grades, d, n)
    decreases n
  {
    if n > 0 {
      if n - 1 < |grades| { GainMonotone(grades[n - 1], grades[n - 1]); }
      assert GainAt(grades, n - 1) as real * d(n - 1) >= 0.0;
      MoreTermsNotLess(grades, d, if m == n then m - 1 else m, n - 1);
    }
  }

  lemma {:induction false} DiscountedPrefix(grades: seq<int>, d: nat -> real, k: nat, n: nat)
    requires n <= |Top(grades, k)|
    ensures Discounted(Top(grades, k), d, n) == Discounted(grades, d, n)
  {
    if n > 0 {
      DiscountedPrefix(grades, d, k, n - 1);
    }
  }

  lemma {:induction false} NoTermsPastEnd(grades: seq<int>, d: nat -> real, n: nat)
    requires n >= |grades|
    ensures Discounted(grades, d, n) == Discounted(grades, d, |grades|)
    decreases n
  {
    if n > |grades| {
      NoTermsPastEnd(grades, d, n - 1);
    }
  }

  lemma DominatedSum(a: seq<int>, b: seq<int>, d: nat -> real, n: nat)
    requires Discounts(d) && n >= 1 && DominatedUpTo(a, b, n)
    ensures Discounted(a, d, n) <= Discounted(b, d, n)
  {
    PrefixDominance(a, b, d, n);
    ProductMonotone(d(n - 1), (SumGains(b, n) - SumGains(a, n)) as real, 0.0);
  }

  lemma SelectionIsDominated(rel: Relevance, selected: seq<string>)
    requires Distinct(selected)
    ensures DominatedUpTo(GradesOf(rel, selected), SortDescending(Grades(rel)), |selected|)
  {
    forall m: nat | m <= |selected|
      ensures SumGains(GradesOf(rel, selected), m) <= SumGains(SortDescending(Grades(rel)), m)
    {
      SumOfSelection(rel, selected, m);
      DistinctKeysGainAtMostTop(rel, selected[..m]);
    }
  }

  // ----- main results

  lemma DcgAtMostIdeal(ids: seq<string>, rel: Relevance, k: nat, d: nat -> real)
    requires k >= 1 && Distinct(ids) && Discounts(d)
    ensures var selected := Selected(ids, k);
            var best := Top(SortDescending(Grades(rel)), k);
            0.0 <= Discounted(GradesOf(rel, selected), d, |selected|) <= Discounted(best, d, |best|)
  {
    var selected := Selected(ids, k);
    var sorted := SortDescending(Grades(rel));
    var best := Top(sorted, k);
    var mine := GradesOf(rel, selected);
    SelectionIsDominated(rel, selected);
    MoreTermsNotLess(mine, d, 0, |selected|);
    MoreTermsNotLess(sorted, d, 0, |best|);
    DiscountedPrefix(sorted, d, k, |best|);
    if selected != [] {
      DominatedSum(mine, sorted, d, |selected|);
      if |selected| <= |best| {
        MoreTermsNotLess(sorted, d, |selected|, |best|);
      } else {
        NoTermsPastEnd(sorted, d, |selected|);
      }
    }
  }

  lemma SubsetSize<T>(a: set<T>, b: set<T>)
    requires a <= b
    ensures |a| <= |b|
  {
    assert b == a + (b - a);
  }

  lemma RatioInUnit(x: real, y: real)
    requires 0.0 <= x <= y
    ensures Rate(x, y).Some? ==> 0.0 <= Rate(x, y).value <= 1.0
  {
    if y != 0.0 {
      assert x / y * y == x;
    }
  }

  /** nDCG and recall never leave [0, 1] for a ranking without duplicates, at any cutoff. */
  lemma MetricsInUnitInterval(ids: seq<string>, rel: Relevance, k: nat, d: nat -> real)
    requires Discounts(d) && RankingMetrics(ids, rel, k, d).Success?
    ensures var m := RankingMetrics(ids, rel, k, d).value;
            && (m.ndcg.Some? ==> 0.0 <= m.ndcg.value <= 1.0)
            && (m.recall.Some? ==> 0.0 <= m.recall.value <= 1.0)
            && m.hits <= m.support
  {
    var selected := Selected(ids, k);
    var best := Top(SortDescending(Grades(rel)), k);
    DcgAtMostIdeal(ids, rel, k, d);
    RatioInUnit(Discounted(GradesOf(rel, selected), d, |selected|), Discounted(best, d, |best|));
    SubsetSize(Members(selected) * Relevant(rel), Relevant(rel));
    RatioInUnit(|Members(selected) * Relevant(rel)| as real, |Relevant(rel)| as real);
  }

  // ----- when the ideal is attained

  ghost predicate StrictDiscounts(d: nat -> real) {
    Discounts(d) && forall i: nat, j: nat :: i < j ==> d(i) > d(j)
  }

  predicate SameGains(a: seq<int>, b: seq<int>, n: nat) {
    forall i: nat :: i < n ==> GainAt(a, i) == GainAt(b, i)
  }

  predicate SameSums(a: seq<int>, b: seq<int>, n: nat) {
    forall m: nat :: m <= n ==> SumGains(a, m) == SumGains(b, m)
  }

  function Surplus(a: seq<int>, b: seq<int>, n: nat): real {
    (SumGains(b, n) - SumGains(a, n)) as real
  }

  /** By how much summation by parts exceeds its last term. */
  function Slack(a: seq<int>, b: seq<int>, d: nat -> real, n: nat): real
    requires n >= 1
  {
    Discounted(b, d, n) - Discounted(a, d, n) - Surplus(a, b, n) * d(n - 1)
  }

  lemma SlackStep(a: seq<int>, b: seq<int>, d: nat -> real, n: nat)
    requires n >= 2
    ensures Slack(a, b, d, n) == Slack(a, b, d, n - 1) + Surplus(a, b, n - 1) * (d(n - 2) - d(n - 1))
  {
    var g, h, x := GainAt(b, n - 1) as real, GainAt(a, n - 1) as real, d(n - 1);
    assert Surplus(a, b, n) == Surplus(a, b, n - 1) + g - h;
    Expand(Surplus(a, b, n - 1), g, h, x, d(n - 2));
  }

  lemma Expand(surplus: real, g: real, h: real, x: real, y: real)
    ensures (surplus + g - h) * x == surplus * x + g * x - h * x
    ensures surplus * (y - x) == surplus * y - surplus * x
  {
  }

  lemma PositiveFactor(n: int, x: real)
    requires n >= 0 && x > 0.0
    ensures n as real * x >= 0.0
    ensures n as real * x <= 0.0 ==> n == 0
  {
    if n > 0 { ProductMonotone(x, n as real, 1.0); }
  }

  /** Under strictly decreasing discounts there is no slack only if no prefix has a surplus. */
  lemma {:induction false} NoSlack(a: seq<int>, b: seq<int>, d: nat -> real, n: nat)
    requires StrictDiscounts(d) && n >= 1 && DominatedUpTo(a, b, n)
    requires Slack(a, b, d, n) <= 0.0
    ensures SameSums(a, b, n - 1)
  {
    if n > 1 {
      PrefixDominance(a, b, d, n - 1);
      SlackStep(a, b, d, n);
      assert SumGains(a, n - 1) <= SumGains(b, n - 1);
      PositiveFactor(SumGains(b, n - 1) - SumGains(a, n - 1), d(n - 2) - d(n - 1));
      NoSlack(a, b, d, n - 1);
    }
  }

  lemma {:induction false} SameGainsSameSum(a: seq<int>, b: seq<int>, d: nat -> real, n: nat)
    requires SameGains(a, b, n)
    ensures Discounted(a, d, n) == Discounted(b, d, n)
  {
    if n > 0 {
      SameGainsSameSum(a, b, d, n - 1);
      assert GainAt(a, n - 1) == GainAt(b, n - 1);
    }
  }

  /** A dominated list attains the sum of the other exactly when it has the same gains. */
  lemma AttainsIff(a: seq<int>, b: seq<int>, d: nat -> real, n: nat)
    requires StrictDiscounts(d) && n >= 1 && DominatedUpTo(a, b, n)
    ensures Discounted(a, d, n) == Discounted(b, d, n) <==> SameGains(a, b, n)
  {
    if SameGains(a, b, n) {
      SameGainsSameSum(a, b, d, n);
    }
    if Discounted(a, d, n) == Discounted(b, d, n) {
      PrefixDominance(a, b, d, n);
      assert SumGains(a, n) <= SumGains(b, n);
      PositiveFactor(SumGains(b, n) - SumGains(a, n), d(n - 1));
      NoSlack(a, b, d, n);
      forall i: nat | i < n ensures GainAt(a, i) == GainAt(b, i) {
        assert SumGains(a, i) == SumGains(b, i) && SumGains(a, i + 1) == SumGains(b, i + 1);
      }
    }
  }

  lemma {:induction false} SumsMonotone(a: seq<int>, m: nat, n: nat)
    requires m <= n
    ensures SumGains(a, m) <= SumGains(a, n)
    ensures m >= |a| ==> SumGains(a, m) == SumGains(a, n)
    decreases n
  {
    if m < n {
      SumsMonotone(a, m, n - 1);
      if n - 1 < |a| { GainMonotone(a[n - 1], a[n - 1]); }
    }
  }

  lemma {:induction false} TopSums(a: seq<int>, k: nat, m: nat)
    requires m <= k
    ensures SumGains(Top(a, k), m) == SumGains(a, m)
  {
    if m > 0 {
      TopSums(a, k, m - 1);
    }
  }

  /** The selection stays dominated past its own end, up to the cutoff. */
  lemma DominatedByBest(rel: Relevance, selected: seq<string>, k: nat)
    requires Distinct(selected) && |selected| <= k
    ensures DominatedUpTo(GradesOf(rel, selected), Top(SortDescending(Grades(rel)), k), k)
  {
    var mine, sorted := GradesOf(rel, selected), SortDescending(Grades(rel));
    SelectionIsDominated(rel, selected);
    forall m: nat | m <= k ensures SumGains(mine, m) <= SumGains(Top(sorted, k), m) {
      TopSums(sorted, k, m);
      if m > |selected| {
        SumsMonotone(mine, |selected|, m);
        SumsMonotone(sorted, |selected|, m);
      }
    }
  }

  lemma UnitRatio(x: real, y: real)
    requires y != 0.0
    ensures Rate(x, y) == Some(1.0) <==> x == y
  {
    var q := x / y;
    assert q * y == x;
    if q == 1.0 { assert x == y; }
    if x == y { assert y / y == 1.0; }
  }

  /** Under strictly decreasing discounts nDCG is one exactly when the gains of the ranking, position by
      position up to the cutoff, are those of the ideal order. */
  lemma IdealOrderScoresOneIff(ids: seq<string>, rel: Relevance, k: nat, d: nat -> real)
    requires StrictDiscounts(d) && RankingMetrics(ids, rel, k, d).Success?
    requires RankingMetrics(ids, rel, k, d).value.ndcg.Some?
    ensures RankingMetrics(ids, rel, k, d).value.ndcg == Some(1.0)
            <==> SameGains(GradesOf(rel, Selected(ids, k)), Top(SortDescending(Grades(rel)), k), k)
  {
    var selected, best := Selected(ids, k), Top(SortDescending(Grades(rel)), k);
    var mine := GradesOf(rel, selected);
    DominatedByBest(rel, selected, k);
    AttainsIff(mine, best, d, k);
    NoTermsPastEnd(mine, d, k);
    NoTermsPastEnd(best, d, k);
    UnitRatio(Discounted(mine, d, |selected|), Discounted(best, d, |best|));
  }

  // ----- percentiles

  predicate Ascending(xs: seq<real>) {
    forall i, j :: 0 <= i < j < |xs| ==> xs[i] <= xs[j]
  }

  function InsertAscending(x: real, xs: seq<real>): seq<real> {
    if xs == [] then [x] else if x <= xs[0] then [x] + xs else [xs[0]] + InsertAscending(x, xs[1..])
  }

  function SortAscending(xs: seq<real>): seq<real> {
    if xs == [] then [] else InsertAscending(xs[0], SortAscending(xs[1..]))
  }

  /** Linear interpolation between the two samples around a position. */
  function Interpolate(xs: seq<real>, position: real): real
    requires xs != [] && 0.0 <= position <= (|xs| - 1) as real
  {
    var lo := position.Floor;
    var hi := if lo as real == position then lo else lo + 1;
    Between(xs[lo], xs[hi], position - lo as real)
  }

  function Between(a: real, b: real, part: real): real {
    a + (b - a) * part
  }

  lemma BetweenBounds(a: real, b: real, part: real)
    requires a <= b && 0.0 <= part <= 1.0
    ensures a <= Between(a, b, part) <= b
  {
    ProductMonotone(b - a, 1.0, part);
  }

  lemma BetweenMonotone(a: real, b: real, p: real, q: real)
    requires a <= b && p <= q
    ensures Between(a, b, p) <= Between(a, b, q)
  {
    ProductMonotone(b - a, q, p);
  }

  function Percentile(values: seq<real>, percent: real): Option<real>
    requires 0.0 <= percent <= 100.0
  {
    SortedSamples(values);
    if values == [] then None
    else
      Some(Interpolate(SortAscending(values), Position(|values|, percent)))
  }

  function Position(n: nat, percent: real): (position: real)
    requires n >= 1 && 0.0 <= percent <= 100.0
    ensures 0.0 <= position <= (n - 1) as real
  {
    var scaled := (n - 1) as real * percent;
    ProductMonotone((n - 1) as real, 100.0, percent);
    ProductMonotone((n - 1) as real, percent, 0.0);
    assert 0.0 <= scaled;
    assert scaled <= (n - 1) as real * 100.0;
    HundredthBounds(scaled, (n - 1) as real);
    scaled / 100.0
  }

  lemma HundredthBounds(x: real, top: real)
    requires 0.0 <= x <= top * 100.0
    ensures 0.0 <= x / 100.0 <= top
  {
  }

  lemma {:induction false} SortedSamples(xs: seq<real>)
    ensures Ascending(SortAscending(xs)) && |SortAscending(xs)| == |xs|
    ensures forall x :: x in SortAscending(xs) <==> x in xs
  {
    if xs != [] {
      SortedSamples(xs[1..]);
      InsertedSamples(xs[0], SortAscending(xs[1..]));
    }
  }

  lemma {:induction false} InsertedSamples(x: real, xs: seq<real>)
    requires Ascending(xs)
    ensures Ascending(InsertAscending(x, xs)) && |InsertAscending(x, xs)| == |xs| + 1
    ensures forall y :: y in InsertAscending(x, xs) <==> y == x || y in xs
  {
    if xs != [] && x > xs[0] {
      InsertedSamples(x, xs[1..]);
      var rest := InsertAscending(x, xs[1..]);
      forall j | 0 <= j < |rest| ensures xs[0] <= rest[j] { assert rest[j] in rest; }
      assert InsertAscending(x, xs) == [xs[0]] + rest;
    }
  }

  lemma PositionMonotone(n: nat, p: real, q: real)
    requires n >= 1 && 0.0 <= p <= q <= 100.0
    ensures Position(n, p) <= Position(n, q)
  {
    ProductMonotone((n - 1) as real, q, p);
    HundredthMonotone((n - 1) as real * p, (n - 1) as real * q);
  }

  lemma HundredthMonotone(a: real, b: real)
    requires a <= b
    ensures a / 100.0 <= b / 100.0
  {
  }

  lemma InterpolateBetween(xs: seq<real>, position: real)
    requires Ascending(xs) && xs != [] && 0.0 <= position <= (|xs| - 1) as real
    ensures var lo := position.Floor;
            && 0 <= lo < |xs| && xs[lo] <= Interpolate(xs, position)
            && (lo as real == position ==> Interpolate(xs, position) == xs[lo])
            && (lo as real < position ==> lo + 1 < |xs| && Interpolate(xs, position) <= xs[lo + 1])
  {
    var lo := position.Floor;
    if lo as real < position {
      BetweenBounds(xs[lo], xs[lo + 1], position - lo as real);
    } else {
      BetweenBounds(xs[lo], xs[lo], 0.0);
    }
  }

  lemma InterpolateMonotone(xs: seq<real>, p: real, q: real)
    requires Ascending(xs) && xs != [] && 0.0 <= p <= q <= (|xs| - 1) as real
    ensures Interpolate(xs, p) <= Interpolate(xs, q)
  {
    InterpolateBetween(xs, p);
    InterpolateBetween(xs, q);
    var lo := p.Floor;
    if lo == q.Floor && lo as real < p {
      BetweenMonotone(xs[lo], xs[lo + 1], p - lo as real, q - lo as real);
    } else if lo < q.Floor {
      assert xs[lo] <= xs[q.Floor] && (lo + 1 < q.Floor ==> xs[lo + 1] <= xs[q.Floor]);
    }
  }

  /** Percentiles never fall as the percentage rises. */
  lemma PercentilesAreMonotone(values: seq<real>, p: real, q: real)
    requires values != [] && 0.0 <= p <= q <= 100.0
    ensures Percentile(values, p).value <= Percentile(values, q).value
  {
    SortedSamples(values);
    PositionMonotone(|values|, p, q);
    InterpolateMonotone(SortAscending(values), Position(|values|, p), Position(|values|, q));
  }

  /** They run from the smallest sample to the largest. */
  lemma PercentilesSpanSamples(values: seq<real>, v: real)
    requires v in values
    ensures Percentile(values, 0.0).value <= v <= Percentile(values, 100.0).value
    ensures Percentile(values, 0.0).value in values && Percentile(values, 100.0).value in values
  {
    ExtremePercentiles(values);
    SortedSamples(values);
    var xs := SortAscending(values);
    var i :| 0 <= i < |xs| && xs[i] == v;
  }

  lemma ExtremePercentiles(values: seq<real>)
    requires values != []
    ensures |SortAscending(values)| == |values|
    ensures Percentile(values, 0.0) == Some(SortAscending(values)[0])
    ensures Percentile(values, 100.0) == Some(SortAscending(values)[|values| - 1])
    ensures SortAscending(values)[0] in values && SortAscending(values)[|values| - 1] in values
  {
    var xs, n := SortAscending(values), |values|;
    SortedSamples(values);
    assert Position(n, 0.0) == 0.0 && Position(n, 100.0) == (n - 1) as real;
    InterpolateBetween(xs, 0.0);
    InterpolateBetween(xs, (n - 1) as real);
    assert xs[0] in xs && xs[n - 1] in xs;
  }
}
