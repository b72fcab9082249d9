/** The one parent each stage of the linker can choose, in terms of the records alone. */
module LinkerExact {
  import opened Wrappers
  import opened Sorting
  import opened Linker

  const STAGES := ["pre-specification", "tender", "amendment", "award", "contract"]

  /** The parent is another opportunity at an earlier stage of the lifecycle. */
  ghost predicate Earlier(parent: Candidate, child: Candidate) {
    parent.id != child.id && exists i, j :: 0 <= i < j < 5 && STAGES[i] == parent.stage && STAGES[j] == child.stage
  }

  lemma RankIff(stage: string, i: nat)
    requires i < 5
    ensures Rank(stage) == Some(i) <==> STAGES[i] == stage
  {
  }

  lemma ForwardIff(parent: Candidate, child: Candidate)
    ensures Forward(parent, child) <==> Earlier(parent, child)
  {
    forall stage, i | 0 <= i < 5 ensures Rank(stage) == Some(i) <==> STAGES[i] == stage { RankIff(stage, i); }
    if Forward(parent, child) {
      var i, j := Rank(parent.stage).value, Rank(child.stage).value;
      assert STAGES[i] == parent.stage && STAGES[j] == child.stage;
    }
  }

  /** Of the matches of one kind, the candidate is the only one that comes earlier. */
  ghost predicate OnlyEarlier(candidates: seq<Candidate>, matches: Candidate -> bool, record: Candidate, c: Candidate) {
    && c in candidates && matches(c) && Earlier(c, record)
    && forall d :: d in candidates && matches(d) && Earlier(d, record) ==> d == c
  }

  ghost predicate NoneEarlier(candidates: seq<Candidate>, matches: Candidate -> bool, record: Candidate) {
    forall d :: d in candidates && matches(d) ==> !Earlier(d, record)
  }

  /** What one kind of match leads to when there is any: the only earlier match, no link when none comes
      earlier, and an ambiguity when several do. */
  lemma KindDecides(candidates: seq<Candidate>, keep: Candidate -> bool, record: Candidate, m: Method, confidence: real,
                    ambiguous: Reason)
    requires DistinctIds(candidates) && ambiguous != IncompatibleStage
    ensures var d := SelectUnique(Filter(candidates, keep), record, m, confidence, ambiguous);
            && (forall c :: c in candidates && keep(c) ==>
                  (d == Resolved(c.id, m, confidence) <==> OnlyEarlier(candidates, keep, record, c)))
            && (d.Resolved? ==> exists c :: OnlyEarlier(candidates, keep, record, c) && d == Resolved(c.id, m, confidence))
            && (d == Unresolved(IncompatibleStage) <==> NoneEarlier(candidates, keep, record))
            && (d.Unresolved? ==> d.reason == IncompatibleStage || d.reason == ambiguous)
  {
    var matches := Filter(candidates, keep);
    FilterIsExact(candidates, keep);
    FilterKeepsDistinct(candidates, keep);
    forall d ensures Forward(d, record) <==> Earlier(d, record) { ForwardIff(d, record); }
    forall c | c in candidates && keep(c)
      ensures SelectUnique(matches, record, m, confidence, ambiguous) == Resolved(c.id, m, confidence)
              <==> OnlyEarlier(candidates, keep, record, c)
    {
      SelectedIff(matches, record, m, confidence, ambiguous, c);
    }
    FilterIsExact(matches, ForwardTo(record));
    var compatible := Filter(matches, ForwardTo(record));
    if compatible != [] {
      assert compatible[0] in compatible;
    }
    if |compatible| == 1 {
      SelectedIff(matches, record, m, confidence, ambiguous, compatible[0]);
    }
  }

  // ----- the kinds of match, strongest first

  /** One of the official references names the candidate by source, record and stage. */
  ghost predicate IsReferenced(record: Candidate, c: Candidate) {
    exists i :: 0 <= i < |record.references| && record.references[i] == (c.source, c.record, c.stage)
  }

  ghost predicate SharesId(record: Candidate, c: Candidate) {
    c.source == record.source && exists x :: x in record.identifiers && x in c.identifiers
  }

  /** Same source, similar title, same buyer, the same known amount, and published within thirty days. */
  predicate LooksAlike(cmp: Comparators, record: Candidate, c: Candidate) {
    && c.source == record.source && cmp.similar(c.title, record.title) && cmp.sameBuyer(c.buyer, record.buyer)
    && record.amount.Some? && c.amount == record.amount
    && record.published.Some? && c.published.Some?
    && -30 * 86_400_000_000 <= c.published.value - record.published.value <= 30 * 86_400_000_000
  }

  lemma KindsAreKept(cmp: Comparators, record: Candidate, c: Candidate)
    ensures ByReference(record)(c) <==> IsReferenced(record, c)
    ensures ByIdentifier(record)(c) <==> SharesId(record, c)
    ensures ByFingerprint(cmp, record)(c) <==> LooksAlike(cmp, record, c)
  {
    if Referenced(record, c) {
      var r :| r in record.references && c.source == r.0 && c.record == r.1 && c.stage == r.2;
      var i :| 0 <= i < |record.references| && record.references[i] == r;
    }
    if i :| 0 <= i < |record.references| && record.references[i] == (c.source, c.record, c.stage) {
      assert record.references[i] in record.references;
    }
    if x :| x in record.identifiers && x in c.identifiers {
      assert x in record.identifiers * c.identifiers;
    }
    if record.identifiers * c.identifiers != {} {
      var x :| x in record.identifiers * c.identifiers;
    }
  }

  lemma NothingKept(candidates: seq<Candidate>, keep: Candidate -> bool)
    ensures Filter(candidates, keep) == [] <==> forall c :: c in candidates ==> !keep(c)
  {
    FilterIsExact(candidates, keep);
    if Filter(candidates, keep) != [] { assert Filter(candidates, keep)[0] in Filter(candidates, keep); }
  }

  /** With official references nothing else is consulted: there must be one reference and one match, and the
      match must come earlier. */
  lemma ReferencesDecide(cmp: Comparators, record: Candidate, candidates: seq<Candidate>, c: Candidate)
    requires DistinctIds(candidates) && record.references != [] && c in candidates
    ensures var d := LinkCandidate(cmp, record, candidates);
            && (d == Resolved(c.id, OfficialReference, 1.0) <==>
                  && |record.references| == 1 && IsReferenced(record, c) && Earlier(c, record)
                  && forall e :: e in candidates && IsReferenced(record, e) ==> e == c)
            && (d.Resolved? ==> d.via == OfficialReference)
            && (d == Unresolved(ReferenceNotFound) <==>
                  |record.references| == 1 && forall e :: e in candidates ==> !IsReferenced(record, e))
            && (|record.references| > 1 ==> d == Unresolved(AmbiguousReference))
  {
    forall e ensures Referenced(record, e) <==> IsReferenced(record, e) { KindsAreKept(cmp, record, e); }
    ForwardIff(c, record);
    var keep := ByReference(record);
    NothingKept(candidates, keep);
    FilterIsExact(candidates, keep);
    FilterKeepsDistinct(candidates, keep);
    if IsReferenced(record, c) {
      ReferenceDecides(cmp, record, candidates, c);
    } else {
      NotKeptIsNotChosen(candidates, keep, record, OfficialReference, 1.0, AmbiguousReference, c);
    }
  }

  lemma NotKeptIsNotChosen(candidates: seq<Candidate>, keep: Candidate -> bool, record: Candidate, m: Method, confidence: real,
                           ambiguous: Reason, c: Candidate)
    requires DistinctIds(candidates) && c in candidates && !keep(c)
    ensures SelectUnique(Filter(candidates, keep), record, m, confidence, ambiguous) != Resolved(c.id, m, confidence)
  {
    var matches := Filter(candidates, keep);
    FilterIsExact(candidates, keep);
    if SelectUnique(matches, record, m, confidence, ambiguous).Resolved? {
      SelectedIsForward(matches, record, m, confidence, ambiguous);
      var x :| x in matches && x.id == SelectUnique(matches, record, m, confidence, ambiguous).parent && Forward(x, record)
               && forall d :: d in matches && Forward(d, record) ==> d == x;
      assert x in candidates && x != c;
      SameIdSame(candidates, x, c);
    }
  }

  lemma SameIdSame(candidates: seq<Candidate>, x: Candidate, y: Candidate)
    requires DistinctIds(candidates) && x in candidates && y in candidates && x != y
    ensures x.id != y.id
  {
    var i :| 0 <= i < |candidates| && candidates[i] == x;
    var j :| 0 <= j < |candidates| && candidates[j] == y;
  }

  /** Without references a shared identifier decides. */
  lemma IdentifiersDecide(cmp: Comparators, record: Candidate, candidates: seq<Candidate>, c: Candidate)
    requires DistinctIds(candidates) && record.references == []
    requires c in candidates && SharesId(record, c)
    ensures var d := LinkCandidate(cmp, record, candidates);
            && (d == Resolved(c.id, NormalizedIdentifier, 0.99) <==> OnlyEarlier(candidates, ByIdentifier(record), record, c))
            && (d.Resolved? ==> d.via == NormalizedIdentifier)
            && (d == Unresolved(IncompatibleStage) <==> NoneEarlier(candidates, ByIdentifier(record), record))
  {
    KindsAreKept(cmp, record, c);
    NothingKept(candidates, ByIdentifier(record));
    KindDecides(candidates, ByIdentifier(record), record, NormalizedIdentifier, 0.99, AmbiguousIdentifier);
  }

  /** Without references and shared identifiers a fingerprint decides. */
  lemma FingerprintsDecide(cmp: Comparators, record: Candidate, candidates: seq<Candidate>, c: Candidate)
    requires DistinctIds(candidates) && record.references == []
    requires forall e :: e in candidates ==> !SharesId(record, e)
    requires c in candidates && LooksAlike(cmp, record, c)
    ensures var d := LinkCandidate(cmp, record, candidates);
            && (d == Resolved(c.id, Fingerprint, 0.85) <==> OnlyEarlier(candidates, ByFingerprint(cmp, record), record, c))
            && (d.Resolved? ==> d.via == Fingerprint)
            && (d == Unresolved(IncompatibleStage) <==> NoneEarlier(candidates, ByFingerprint(cmp, record), record))
  {
    KindsAreKept(cmp, record, c);
    forall e | e in candidates ensures !ByIdentifier(record)(e) { KindsAreKept(cmp, record, e); }
    NothingKept(candidates, ByIdentifier(record));
    NothingKept(candidates, ByFingerprint(cmp, record));
    KindDecides(candidates, ByFingerprint(cmp, record), record, Fingerprint, 0.85, AmbiguousFingerprint);
  }

  // ----- the semantic stage

  /** No stronger evidence matches any candidate. */
  ghost predicate OnlySemantic(cmp: Comparators, record: Candidate, candidates: seq<Candidate>) {
    record.references == [] && forall e :: e in candidates ==> !SharesId(record, e) && !LooksAlike(cmp, record, e)
  }

  ghost predicate Comparable(record: Candidate, c: Candidate) {
    c.source == record.source && Earlier(c, record)
  }

  /** Fewer than twenty comparable candidates have a smaller identifier. */
  ghost predicate AmongFirst(record: Candidate, candidates: seq<Candidate>, c: Candidate) {
    && c in candidates && Comparable(record, c)
    && |Smaller(record, candidates, c)| < 20
  }

  ghost function Smaller(record: Candidate, candidates: seq<Candidate>, c: Candidate): set<Candidate> {
    set d | d in candidates && Comparable(record, d) && d.id < c.id
  }

  predicate InUnitRange(score: Option<real>) {
    score.Some? && 0.0 <= score.value <= 1.0
  }

  /** The candidate scores at least 0.95, and more than every other that is compared. */
  ghost predicate ScoresBest(score: (Candidate, Candidate) -> Option<real>, record: Candidate, candidates: seq<Candidate>, c: Candidate) {
    && AmongFirst(record, candidates, c)
    && InUnitRange(score(record, c)) && score(record, c).value >= 0.95
    && forall d :: AmongFirst(record, candidates, d) && InUnitRange(score(record, d)) && d != c ==>
         score(record, d).value < score(record, c).value
  }

  /** In a sorted list of distinct members, as many members are smaller as come before. */
  lemma {:induction false} SmallerCount(xs: seq<Candidate>, k: nat)
    requires StrictlySorted(ById(), xs) && k < |xs|
    ensures |set d | d in xs && d.id < xs[k].id| == k
  {
    var smaller := set d | d in xs && d.id < xs[k].id;
    forall i | 0 <= i < |xs| ensures xs[i].id < xs[k].id <==> i < k {
      if i < k { assert ById()(xs[i], xs[k]); }
      if k < i { assert ById()(xs[k], xs[i]); }
    }
    if k > 0 {
      SmallerCount(xs, k - 1);
      var before := set d | d in xs && d.id < xs[k - 1].id;
      forall i | 0 <= i < |xs| ensures xs[i].id < xs[k - 1].id <==> i < k - 1 {
        if i < k - 1 { assert ById()(xs[i], xs[k - 1]); }
        if k - 1 < i { assert ById()(xs[k - 1], xs[i]); }
      }
      assert smaller == before + {xs[k - 1]};
    } else {
      assert smaller == {};
    }
  }

  function Bounded(record: Candidate, candidates: seq<Candidate>): seq<Candidate> {
    var eligible := Sort(ById(), Filter(candidates, SemanticEligible(record)));
    if |eligible| > MAX_SEMANTIC then eligible[..MAX_SEMANTIC] else eligible
  }

  lemma EligibleSorted(record: Candidate, candidates: seq<Candidate>)
    requires DistinctIds(candidates)
    ensures var eligible := Sort(ById(), Filter(candidates, SemanticEligible(record)));
            StrictlySorted(ById(), eligible) && forall d :: d in eligible <==> d in candidates && Comparable(record, d)
  {
    var keep := SemanticEligible(record);
    FilterIsExact(candidates, keep);
    FilterKeepsDistinct(candidates, keep);
    forall d ensures keep(d) <==> Comparable(record, d) { ForwardIff(d, record); }
    SortSorts(ById(), Filter(candidates, keep));
  }

  lemma BoundedIff(record: Candidate, candidates: seq<Candidate>, c: Candidate)
    requires DistinctIds(candidates)
    ensures c in Bounded(record, candidates) <==> AmongFirst(record, candidates, c)
  {
    var eligible := Sort(ById(), Filter(candidates, SemanticEligible(record)));
    EligibleSorted(record, candidates);
    if c in eligible {
      var k :| 0 <= k < |eligible| && eligible[k] == c;
      SmallerCount(eligible, k);
      assert Smaller(record, candidates, c) == set d | d in eligible && d.id < eligible[k].id;
      FoundBefore(eligible, k, 20);
    }
  }

  lemma FoundBefore(xs: seq<Candidate>, k: nat, n: nat)
    requires StrictlySorted(ById(), xs) && k < |xs|
    ensures xs[k] in (if |xs| > n then xs[..n] else xs) <==> k < n || |xs| <= n
  {
    if |xs| > n && xs[k] in xs[..n] {
      var i :| 0 <= i < n && xs[..n][i] == xs[k];
      OnePlace(xs, i, k);
    }
    if |xs| > n && k < n { assert xs[..n][k] == xs[k]; }
  }

  lemma OnePlace(xs: seq<Candidate>, i: nat, k: nat)
    requires StrictlySorted(ById(), xs) && i < |xs| && k < |xs| && xs[i] == xs[k]
    ensures i == k
  {
  }

  lemma BoundedDistinct(record: Candidate, candidates: seq<Candidate>)
    requires DistinctIds(candidates)
    ensures DistinctIds(Bounded(record, candidates))
  {
    var eligible := Sort(ById(), Filter(candidates, SemanticEligible(record)));
    EligibleSorted(record, candidates);
    var bounded := Bounded(record, candidates);
    forall i, j | 0 <= i < j < |bounded| ensures bounded[i].id != bounded[j].id {
      assert ById()(eligible[i], eligible[j]);
    }
  }

  lemma {:induction false} BestIsMaximal(score: (Candidate, Candidate) -> Option<real>, record: Candidate, cs: seq<Candidate>)
    ensures match BestScore(score, record, cs)
            case None => forall c :: c in cs ==> !InUnitRange(score(record, c))
            case Some(best) =>
              && (exists c :: c in cs && InUnitRange(score(record, c)) && score(record, c) == Some(best))
              && forall c :: c in cs && InUnitRange(score(record, c)) ==> score(record, c).value <= best
  {
    if cs != [] {
      BestIsMaximal(score, record, cs[1..]);
      assert forall c :: c in cs <==> c == cs[0] || c in cs[1..];
    }
  }

  /** Without stronger evidence, and with a comparator, the link goes to the best of the first twenty comparable
      candidates, if it scores at least 0.95 and no other scores as much. */
  lemma SemanticDecides(cmp: Comparators, record: Candidate, candidates: seq<Candidate>, c: Candidate)
    requires DistinctIds(candidates) && OnlySemantic(cmp, record, candidates) && cmp.semantic.Some? && c in candidates
    ensures var d := LinkCandidate(cmp, record, candidates);
            && (d.Resolved? && d.parent == c.id <==> ScoresBest(cmp.semantic.value, record, candidates, c))
            && (d.Resolved? && d.parent == c.id ==> d == Resolved(c.id, Semantic, cmp.semantic.value(record, c).value))
  {
    ReachesSemantic(cmp, record, candidates);
    BestIsChosen(cmp.semantic.value, record, candidates, c);
  }

  /** Two candidates with the same best score, if it is good enough, make the link ambiguous, and nothing else
      does; otherwise there is no match. */
  lemma SemanticRefusals(cmp: Comparators, record: Candidate, candidates: seq<Candidate>)
    requires DistinctIds(candidates) && OnlySemantic(cmp, record, candidates) && cmp.semantic.Some?
    ensures var d := LinkCandidate(cmp, record, candidates);
            && (d == Unresolved(AmbiguousSemantic) <==> exists x, y :: TieForBest(cmp.semantic.value, record, candidates, x, y))
            && (d.Unresolved? ==> d.reason == AmbiguousSemantic || d.reason == NoConservativeMatch)
  {
    ReachesSemantic(cmp, record, candidates);
    TiesAreAmbiguous(cmp.semantic.value, record, candidates);
  }

  /** Two candidates score the same, at least 0.95, and nobody scores more. */
  ghost predicate TieForBest(score: (Candidate, Candidate) -> Option<real>, record: Candidate, candidates: seq<Candidate>,
                             x: Candidate, y: Candidate) {
    && x != y && AmongFirst(record, candidates, x) && AmongFirst(record, candidates, y)
    && InUnitRange(score(record, x)) && score(record, x).value >= 0.95 && score(record, y) == score(record, x)
    && forall d :: AmongFirst(record, candidates, d) && InUnitRange(score(record, d)) ==>
         score(record, d).value <= score(record, x).value
  }

  lemma TiesAreAmbiguous(score: (Candidate, Candidate) -> Option<real>, record: Candidate, candidates: seq<Candidate>)
    requires DistinctIds(candidates)
    ensures SemanticDecision(score, record, candidates) == Unresolved(AmbiguousSemantic)
            <==> exists x, y :: TieForBest(score, record, candidates, x, y)
  {
    var bounded := Bounded(record, candidates);
    BoundedDistinct(record, candidates);
    forall e ensures e in bounded <==> AmongFirst(record, candidates, e) { BoundedIff(record, candidates, e); }
    BoundedTies(score, record, candidates, bounded);
    SameTies(score, record, candidates, bounded);
  }

  lemma BoundedTies(score: (Candidate, Candidate) -> Option<real>, record: Candidate, candidates: seq<Candidate>, bounded: seq<Candidate>)
    requires bounded == Bounded(record, candidates) && DistinctIds(bounded)
    ensures SemanticDecision(score, record, candidates) == Unresolved(AmbiguousSemantic)
            <==> exists x, y :: TieOf(score, record, bounded, x, y)
  {
    BestIsMaximal(score, record, bounded);
    var top := BestScore(score, record, bounded);
    if top.Some? {
      TiesOfBounded(score, record, bounded, top.value);
    }
  }

  lemma SameTies(score: (Candidate, Candidate) -> Option<real>, record: Candidate, candidates: seq<Candidate>, bounded: seq<Candidate>)
    requires forall e :: e in bounded <==> AmongFirst(record, candidates, e)
    ensures forall x, y :: TieForBest(score, record, candidates, x, y) <==> TieOf(score, record, bounded, x, y)
  {
  }

  ghost predicate TieOf(score: (Candidate, Candidate) -> Option<real>, record: Candidate, bounded: seq<Candidate>, x: Candidate, y: Candidate) {
    && x != y && x in bounded && y in bounded
    && InUnitRange(score(record, x)) && score(record, x).value >= 0.95 && score(record, y) == score(record, x)
    && forall d :: d in bounded && InUnitRange(score(record, d)) ==> score(record, d).value <= score(record, x).value
  }

  lemma TiesOfBounded(score: (Candidate, Candidate) -> Option<real>, record: Candidate, bounded: seq<Candidate>, top: real)
    requires DistinctIds(bounded)
    requires forall e :: e in bounded && InUnitRange(score(record, e)) ==> score(record, e).value <= top
    requires exists e :: e in bounded && InUnitRange(score(record, e)) && score(record, e) == Some(top)
    ensures |Filter(bounded, HasScore(score, record, top))| > 1 <==> exists x, y :: TieOf(score, record, bounded, x, y)
  {
    if x, y :| TieOf(score, record, bounded, x, y) {
      TieIsKept(score, record, bounded, top, x, y);
    }
    if |Filter(bounded, HasScore(score, record, top))| > 1 {
      KeptIsTie(score, record, bounded, top);
    }
  }

  lemma TieIsKept(score: (Candidate, Candidate) -> Option<real>, record: Candidate, bounded: seq<Candidate>, top: real,
                  x: Candidate, y: Candidate)
    requires TieOf(score, record, bounded, x, y)
    requires forall e :: e in bounded && InUnitRange(score(record, e)) ==> score(record, e).value <= top
    requires exists e :: e in bounded && InUnitRange(score(record, e)) && score(record, e) == Some(top)
    ensures |Filter(bounded, HasScore(score, record, top))| > 1
  {
    var keep := HasScore(score, record, top);
    FilterIsExact(bounded, keep);
    assert score(record, x) == Some(top) && keep(x) && keep(y);
    TwoMembers(Filter(bounded, keep), x, y);
  }

  lemma KeptIsTie(score: (Candidate, Candidate) -> Option<real>, record: Candidate, bounded: seq<Candidate>, top: real)
    requires DistinctIds(bounded) && |Filter(bounded, HasScore(score, record, top))| > 1
    requires forall e :: e in bounded && InUnitRange(score(record, e)) ==> score(record, e).value <= top
    ensures exists x, y :: TieOf(score, record, bounded, x, y)
  {
    var keep := HasScore(score, record, top);
    var best := Filter(bounded, keep);
    FilterKeepsDistinct(bounded, keep);
    var x, y := best[0], best[1];
    assert x in best && y in best && x.id != y.id;
    assert keep(x) && keep(y) && x in bounded && y in bounded;
    assert TieOf(score, record, bounded, x, y);
  }

  lemma TwoMembers(xs: seq<Candidate>, x: Candidate, y: Candidate)
    requires x in xs && y in xs && x != y
    ensures |xs| > 1
  {
  }

  /** Without any evidence and without a comparator there is no link. */
  lemma NothingDecides(cmp: Comparators, record: Candidate, candidates: seq<Candidate>)
    requires OnlySemantic(cmp, record, candidates) && cmp.semantic == None
    ensures LinkCandidate(cmp, record, candidates) == Unresolved(NoConservativeMatch)
  {
    ReachesSemantic(cmp, record, candidates);
  }

  lemma ReachesSemantic(cmp: Comparators, record: Candidate, candidates: seq<Candidate>)
    requires OnlySemantic(cmp, record, candidates)
    ensures LinkCandidate(cmp, record, candidates)
         == if cmp.semantic.Some? then SemanticDecision(cmp.semantic.value, record, candidates) else Unresolved(NoConservativeMatch)
  {
    forall e | e in candidates ensures !ByIdentifier(record)(e) && !ByFingerprint(cmp, record)(e) { KindsAreKept(cmp, record, e); }
    NothingKept(candidates, ByIdentifier(record));
    NothingKept(candidates, ByFingerprint(cmp, record));
  }

  lemma BestIsChosen(score: (Candidate, Candidate) -> Option<real>, record: Candidate, candidates: seq<Candidate>, c: Candidate)
    requires DistinctIds(candidates) && c in candidates
    ensures var d := SemanticDecision(score, record, candidates);
            && (d.Resolved? && d.parent == c.id <==> ScoresBest(score, record, candidates, c))
            && (d.Resolved? && d.parent == c.id ==> d == Resolved(c.id, Semantic, score(record, c).value))
  {
    var bounded := Bounded(record, candidates);
    BoundedDistinct(record, candidates);
    forall e ensures e in bounded <==> AmongFirst(record, candidates, e) { BoundedIff(record, candidates, e); }
    BestIsMaximal(score, record, bounded);
    var bestScore := BestScore(score, record, bounded);
    if bestScore.Some? {
      ChosenOfBounded(score, record, candidates, bounded, bestScore.value, c);
    }
  }

  /** The candidate is the best of a list, and good enough. */
  ghost predicate BestOf(score: (Candidate, Candidate) -> Option<real>, record: Candidate, bounded: seq<Candidate>, c: Candidate) {
    && c in bounded && InUnitRange(score(record, c)) && score(record, c).value >= 0.95
    && forall d :: d in bounded && InUnitRange(score(record, d)) && d != c ==> score(record, d).value < score(record, c).value
  }

  lemma ChosenOfBounded(score: (Candidate, Candidate) -> Option<real>, record: Candidate, candidates: seq<Candidate>,
                        bounded: seq<Candidate>, top: real, c: Candidate)
    requires DistinctIds(candidates) && DistinctIds(bounded) && c in candidates
    requires forall e :: e in bounded <==> AmongFirst(record, candidates, e)
    requires forall e :: e in bounded && InUnitRange(score(record, e)) ==> score(record, e).value <= top
    requires exists e :: e in bounded && InUnitRange(score(record, e)) && score(record, e) == Some(top)
    ensures var best := Filter(bounded, HasScore(score, record, top));
            && (|best| == 1 && best[0].id == c.id <==> ScoresBest(score, record, candidates, c))
            && (|best| == 1 && best[0].id == c.id ==> score(record, c) == Some(top))
  {
    var best := Filter(bounded, HasScore(score, record, top));
    assert ScoresBest(score, record, candidates, c) <==> BestOf(score, record, bounded, c);
    if BestOf(score, record, bounded, c) {
      BestIsAlone(score, record, bounded, top, c);
    }
    if |best| == 1 {
      AloneIsBest(score, record, bounded, top);
      assert best[0] in candidates;
      if best[0] != c { SameIdSame(candidates, best[0], c); }
    }
  }

  lemma BestIsAlone(score: (Candidate, Candidate) -> Option<real>, record: Candidate, bounded: seq<Candidate>, top: real, c: Candidate)
    requires DistinctIds(bounded) && BestOf(score, record, bounded, c)
    requires forall e :: e in bounded && InUnitRange(score(record, e)) ==> score(record, e).value <= top
    requires exists e :: e in bounded && InUnitRange(score(record, e)) && score(record, e) == Some(top)
    ensures Filter(bounded, HasScore(score, record, top)) == [c] && score(record, c) == Some(top)
  {
    var keep := HasScore(score, record, top);
    assert score(record, c).value == top;
    forall d | d in bounded && keep(d) ensures d == c { assert InUnitRange(score(record, d)) && score(record, d).value == top; }
    FilterSingle(bounded, keep, c);
  }

  lemma AloneIsBest(score: (Candidate, Candidate) -> Option<real>, record: Candidate, bounded: seq<Candidate>, top: real)
    requires |Filter(bounded, HasScore(score, record, top))| == 1
    requires forall e :: e in bounded && InUnitRange(score(record, e)) ==> score(record, e).value <= top
    ensures var c := Filter(bounded, HasScore(score, record, top))[0];
            BestOf(score, record, bounded, c) && score(record, c) == Some(top)
  {
    var keep := HasScore(score, record, top);
    var best := Filter(bounded, keep);
    FilterIsExact(bounded, keep);
    assert best[0] in best;
    forall d | d in bounded && InUnitRange(score(record, d)) && d != best[0] ensures score(record, d).value < top {
      assert d !in best;
    }
  }
}
