/** Choosing one lifecycle parent for an opportunity, or none when the choice is not clear. */
module Linker {
  import opened Wrappers
  import opened Sorting

  datatype Candidate = Candidate(
    id: nat, source: nat, record: string, stage: string, title: string, buyer: string,
    amount: Option<int>, published: Option<int>,
    references: seq<(nat, string, string)>, identifiers: set<(string, string)>)

  datatype Method = OfficialReference | NormalizedIdentifier | Fingerprint | Semantic

  datatype Reason =
    | AmbiguousReference | ReferenceNotFound | AmbiguousIdentifier | AmbiguousFingerprint | AmbiguousSemantic
    | IncompatibleStage | NoConservativeMatch

  datatype Decision = Resolved(parent: nat, via: Method, confidence: real) | Unresolved(reason: Reason)

  /** Text comparison, and the optional semantic comparator whose scores may be non-finite (None). */
  datatype Comparators = Comparators(
    similar: (string, string) -> bool,
    sameBuyer: (string, string) -> bool,
    semantic: Option<(Candidate, Candidate) -> Option<real>>)

  const DAYS_30 := 2_592_000_000_000     // in microseconds, the resolution of publication instants
  const MAX_SEMANTIC := 20

  function Rank(stage: string): Option<nat> {
    if stage == "pre-specification" then Some(0)
    else if stage == "tender" then Some(1)
    else if stage == "amendment" then Some(2)
    else if stage == "award" then Some(3)
    else if stage == "contract" then Some(4)
    else None
  }

  predicate Forward(parent: Candidate, child: Candidate) {
    && parent.id != child.id
    && Rank(parent.stage).Some? && Rank(child.stage).Some?
    && Rank(parent.stage).value < Rank(child.stage).value
  }

  function Filter(cs: seq<Candidate>, keep: Candidate -> bool): (kept: seq<Candidate>)
    ensures forall c :: c in kept ==> c in cs && keep(c)
  {
    if cs == [] then []
    else (if keep(cs[0]) then [cs[0]] else []) + Filter(cs[1..], keep)
  }

  function ForwardTo(record: Candidate): Candidate -> bool {
    c => Forward(c, record)
  }

  function ByReference(record: Candidate): Candidate -> bool {
    c => Referenced(record, c)
  }

  function ByIdentifier(record: Candidate): Candidate -> bool {
    c => SharesIdentifier(record, c)
  }

  function ByFingerprint(cmp: Comparators, record: Candidate): Candidate -> bool {
    c => SameFingerprint(cmp, record, c)
  }

  function SemanticEligible(record: Candidate): Candidate -> bool {
    (c: Candidate) => c.source == record.source && Forward(c, record)
  }

  function HasScore(cmp: (Candidate, Candidate) -> Option<real>, record: Candidate, best: real): Candidate -> bool {
    c => Score(cmp, record, c) == Some(best) && best >= 0.95
  }

  function SelectUnique(matches: seq<Candidate>, record: Candidate, m: Method, confidence: real, ambiguous: Reason): Decision {
    var compatible := Filter(matches, ForwardTo(record));
    if compatible == [] then Unresolved(IncompatibleStage)
    else if |compatible| != 1 then Unresolved(ambiguous)
    else Resolved(compatible[0].id, m, confidence)
  }

  predicate Referenced(record: Candidate, c: Candidate) {
    exists r :: r in record.references && c.source == r.0 && c.record == r.1 && c.stage == r.2
  }

  predicate SharesIdentifier(record: Candidate, c: Candidate) {
    c.source == record.source && record.identifiers * c.identifiers != {}
  }

  function Distance(a: int, b: int): int {
    if a < b then b - a else a - b
  }

  predicate SameFingerprint(cmp: Comparators, record: Candidate, c: Candidate) {
    && c.source == record.source
    && cmp.similar(c.title, record.title)
    && cmp.sameBuyer(c.buyer, record.buyer)
    && c.amount.Some? && record.amount.Some? && c.amount == record.amount
    && c.published.Some? && record.published.Some?
    && Distance(c.published.value, record.published.value) <= DAYS_30
  }

  // ----- the opt-in semantic stage

  function ById(): (Candidate, Candidate) -> bool {
    (a: Candidate, b: Candidate) => a.id < b.id
  }

  function Score(cmp: (Candidate, Candidate) -> Option<real>, record: Candidate, c: Candidate): Option<real> {
    var score := cmp(record, c);
    if score.Some? && 0.0 <= score.value <= 1.0 then score else None
  }

  function BestScore(cmp: (Candidate, Candidate) -> Option<real>, record: Candidate, cs: seq<Candidate>): Option<real> {
    if cs == [] then None
    else
      var first, rest := Score(cmp, record, cs[0]), BestScore(cmp, record, cs[1..]);
      if first == None then rest
      else if rest == None || first.value >= rest.value then first
      else rest
  }

  function SemanticDecision(cmp: (Candidate, Candidate) -> Option<real>, record: Candidate, candidates: seq<Candidate>): Decision {
    var eligible := Sort(ById(), Filter(candidates, SemanticEligible(record)));
    var bounded := if |eligible| > MAX_SEMANTIC then eligible[..MAX_SEMANTIC] else eligible;
    var bestScore := BestScore(cmp, record, bounded);
    if bestScore == None then Unresolved(NoConservativeMatch)
    else
      var best := Filter(bounded, HasScore(cmp, record, bestScore.value));
      if |best| == 1 then Resolved(best[0].id, Semantic, bestScore.value)
      else if |best| > 1 then Unresolved(AmbiguousSemantic)
      else Unresolved(NoConservativeMatch)
  }

  // ----- the decision

  function LinkCandidate(cmp: Comparators, record: Candidate, candidates: seq<Candidate>): Decision {
    if record.references != [] then
      var matches := Filter(candidates, ByReference(record));
      if |record.references| > 1 || |matches| > 1 then Unresolved(AmbiguousReference)
      else if matches == [] then Unresolved(ReferenceNotFound)
      else SelectUnique(matches, record, OfficialReference, 1.0, AmbiguousReference)
    else
      var exact := Filter(candidates, ByIdentifier(record));
      if exact != [] then SelectUnique(exact, record, NormalizedIdentifier, 0.99, AmbiguousIdentifier)
      else
        var similar := Filter(candidates, ByFingerprint(cmp, record));
        if similar != [] then SelectUnique(similar, record, Fingerprint, 0.85, AmbiguousFingerprint)
        else if cmp.semantic.Some? then SemanticDecision(cmp.semantic.value, record, candidates)
        else Unresolved(NoConservativeMatch)
  }

  // ----- what the decision does not depend on

  lemma {:induction false} FilterCounts(cs: seq<Candidate>, keep: Candidate -> bool, c: Candidate)
    ensures multiset(Filter(cs, keep))[c] == if keep(c) then multiset(cs)[c] else 0
  {
    if cs != [] {
      FilterCounts(cs[1..], keep, c);
      assert cs == [cs[0]] + cs[1..];
      assert multiset(cs) == multiset([cs[0]]) + multiset(cs[1..]);
    }
  }

  lemma FilterPermuted(a: seq<Candidate>, b: seq<Candidate>, keep: Candidate -> bool)
    requires multiset(a) == multiset(b)
    ensures multiset(Filter(a, keep)) == multiset(Filter(b, keep))
  {
    forall c ensures multiset(Filter(a, keep))[c] == multiset(Filter(b, keep))[c] {
      FilterCounts(a, keep, c);
      FilterCounts(b, keep, c);
    }
  }

  /** Two permutations have the same size, and are equal when they have one element. */
  lemma PermutedShape(a: seq<Candidate>, b: seq<Candidate>)
    requires multiset(a) == multiset(b)
    ensures |a| == |b|
    ensures |a| == 1 ==> a == b
  {
    assert |multiset(a)| == |a| && |multiset(b)| == |b|;
    if |a| == 1 {
      assert a[0] in multiset(b);
    }
  }

  lemma SelectPermuted(a: seq<Candidate>, b: seq<Candidate>, record: Candidate, m: Method, confidence: real, ambiguous: Reason)
    requires multiset(a) == multiset(b)
    ensures SelectUnique(a, record, m, confidence, ambiguous) == SelectUnique(b, record, m, confidence, ambiguous)
  {
    var keep := ForwardTo(record);
    FilterPermuted(a, b, keep);
    PermutedShape(Filter(a, keep), Filter(b, keep));
  }

  ghost predicate DistinctIds(cs: seq<Candidate>) {
    forall i, j :: 0 <= i < j < |cs| ==> cs[i].id != cs[j].id
  }

  lemma {:induction false} FilterKeepsDistinct(cs: seq<Candidate>, keep: Candidate -> bool)
    requires DistinctIds(cs)
    ensures DistinctIds(Filter(cs, keep))
  {
    if cs != [] {
      FilterKeepsDistinct(cs[1..], keep);
      var rest := Filter(cs[1..], keep);
      forall i | 0 <= i < |rest| ensures rest[i].id != cs[0].id {
        assert rest[i] in rest;
        assert rest[i] in cs[1..];
      }
    }
  }

  lemma DistinctPermuted(a: seq<Candidate>, b: seq<Candidate>)
    requires multiset(a) == multiset(b) && DistinctIds(a)
    ensures DistinctIds(b)
  {
    forall i, j | 0 <= i < j < |b| ensures b[i].id != b[j].id {
      assert b[i] in multiset(a) && b[j] in multiset(a);
      if b[i] == b[j] {
        TwiceCounts(b, i, j);
        OnceInDistinct(a, b[i]);
      }
    }
  }

  lemma TwiceCounts(b: seq<Candidate>, i: nat, j: nat)
    requires i < j < |b| && b[i] == b[j]
    ensures multiset(b)[b[i]] >= 2
  {
    assert b == b[..j] + b[j..];
    assert b[i] in b[..j] && b[j] in b[j..];
    assert multiset(b) == multiset(b[..j]) + multiset(b[j..]);
  }

  lemma {:induction false} OnceInDistinct(a: seq<Candidate>, c: Candidate)
    requires DistinctIds(a)
    ensures multiset(a)[c] <= 1
  {
    if a != [] {
      OnceInDistinct(a[1..], c);
      assert a == [a[0]] + a[1..];
      assert a[0] in a[1..] <==> a[0] in multiset(a[1..]);
    }
  }

  lemma SemanticPermuted(cmp: (Candidate, Candidate) -> Option<real>, record: Candidate, a: seq<Candidate>, b: seq<Candidate>)
    requires multiset(a) == multiset(b) && DistinctIds(a)
    ensures SemanticDecision(cmp, record, a) == SemanticDecision(cmp, record, b)
  {
    var keep := SemanticEligible(record);
    var fa, fb := Filter(a, keep), Filter(b, keep);
    DistinctPermuted(a, b);
    FilterKeepsDistinct(a, keep);
    FilterKeepsDistinct(b, keep);
    FilterIsExact(a, keep);
    FilterIsExact(b, keep);
    forall x ensures x in a <==> x in b {
      assert x in a <==> x in multiset(a);
      assert x in b <==> x in multiset(b);
    }
    SortIsCanonical(ById(), fa, fb);
  }

  /** The decision depends on which candidates there are, not on the order they are read in. */
  lemma DecisionIgnoresOrder(cmp: Comparators, record: Candidate, a: seq<Candidate>, b: seq<Candidate>)
    requires multiset(a) == multiset(b) && DistinctIds(a)
    ensures LinkCandidate(cmp, record, a) == LinkCandidate(cmp, record, b)
  {
    var reference := ByReference(record);
    var identifier := ByIdentifier(record);
    var fingerprint := ByFingerprint(cmp, record);
    if record.references != [] {
      FilterPermuted(a, b, reference);
      PermutedShape(Filter(a, reference), Filter(b, reference));
      SelectPermuted(Filter(a, reference), Filter(b, reference), record, OfficialReference, 1.0, AmbiguousReference);
    } else {
      FilterPermuted(a, b, identifier);
      PermutedShape(Filter(a, identifier), Filter(b, identifier));
      SelectPermuted(Filter(a, identifier), Filter(b, identifier), record, NormalizedIdentifier, 0.99, AmbiguousIdentifier);
      FilterPermuted(a, b, fingerprint);
      PermutedShape(Filter(a, fingerprint), Filter(b, fingerprint));
      SelectPermuted(Filter(a, fingerprint), Filter(b, fingerprint), record, Fingerprint, 0.85, AmbiguousFingerprint);
      if cmp.semantic.Some? {
        SemanticPermuted(cmp.semantic.value, record, a, b);
      }
    }
  }

  lemma SelectedIsForward(matches: seq<Candidate>, record: Candidate, m: Method, confidence: real, ambiguous: Reason)
    requires SelectUnique(matches, record, m, confidence, ambiguous).Resolved?
    ensures exists c :: c in matches && c.id == SelectUnique(matches, record, m, confidence, ambiguous).parent
                        && Forward(c, record)
                        && forall d :: d in matches && Forward(d, record) ==> d == c
  {
    var compatible := Filter(matches, ForwardTo(record));
    var c := compatible[0];
    FilterIsExact(matches, ForwardTo(record));
    assert c in compatible;
    assert |compatible| == 1;
    forall d | d in matches && Forward(d, record) ensures d == c {
      assert d in compatible;
    }
  }

  lemma {:induction false} FilterSingle(cs: seq<Candidate>, keep: Candidate -> bool, c: Candidate)
    requires DistinctIds(cs) && c in cs && keep(c)
    requires forall d :: d in cs && keep(d) ==> d == c
    ensures Filter(cs, keep) == [c]
  {
    FilterIsExact(cs, keep);
    FilterKeepsDistinct(cs, keep);
    var kept := Filter(cs, keep);
    assert c in kept;
    forall i | 0 <= i < |kept| ensures kept[i] == c { assert kept[i] in kept; }
    assert |kept| >= 2 ==> kept[0].id != kept[1].id;
  }

  /** A stage of the linker resolves to a candidate exactly when it is the only compatible match. */
  lemma SelectedIff(matches: seq<Candidate>, record: Candidate, m: Method, confidence: real, ambiguous: Reason, c: Candidate)
    requires DistinctIds(matches) && c in matches
    ensures SelectUnique(matches, record, m, confidence, ambiguous) == Resolved(c.id, m, confidence)
            <==> Forward(c, record) && forall d :: d in matches && Forward(d, record) ==> d == c
  {
    if SelectUnique(matches, record, m, confidence, ambiguous) == Resolved(c.id, m, confidence) {
      SelectedIsForward(matches, record, m, confidence, ambiguous);
      var x :| x in matches && x.id == c.id && Forward(x, record) && forall d :: d in matches && Forward(d, record) ==> d == x;
      assert x == c;
    }
    if Forward(c, record) && forall d :: d in matches && Forward(d, record) ==> d == c {
      FilterSingle(matches, ForwardTo(record), c);
    }
  }

  /** Without official references, a shared identifier decides: a candidate is linked by it exactly when no
      other compatible candidate shares one, and no weaker evidence is consulted once any candidate does. */
  lemma IdentifierDecides(cmp: Comparators, record: Candidate, candidates: seq<Candidate>, c: Candidate)
    requires DistinctIds(candidates) && record.references == []
    requires c in candidates && SharesIdentifier(record, c)
    ensures LinkCandidate(cmp, record, candidates) == Resolved(c.id, NormalizedIdentifier, 0.99)
            <==> Forward(c, record) && forall d :: d in candidates && SharesIdentifier(record, d) && Forward(d, record) ==> d == c
    ensures LinkCandidate(cmp, record, candidates).Resolved? ==>
              LinkCandidate(cmp, record, candidates).via == NormalizedIdentifier
  {
    var keep := ByIdentifier(record);
    FilterIsExact(candidates, keep);
    FilterKeepsDistinct(candidates, keep);
    SelectedIff(Filter(candidates, keep), record, NormalizedIdentifier, 0.99, AmbiguousIdentifier, c);
  }

  /** One official reference that one candidate matches decides, if it goes forward; several references or
      several matches never do. */
  lemma ReferenceDecides(cmp: Comparators, record: Candidate, candidates: seq<Candidate>, c: Candidate)
    requires DistinctIds(candidates) && record.references != []
    requires c in candidates && Referenced(record, c)
    ensures LinkCandidate(cmp, record, candidates) == Resolved(c.id, OfficialReference, 1.0)
            <==> |record.references| == 1 && Forward(c, record) && forall d :: d in candidates && Referenced(record, d) ==> d == c
  {
    var keep := ByReference(record);
    var matches := Filter(candidates, keep);
    FilterIsExact(candidates, keep);
    FilterKeepsDistinct(candidates, keep);
    if LinkCandidate(cmp, record, candidates) == Resolved(c.id, OfficialReference, 1.0) {
      assert |matches| == 1 && c in matches;
      forall d | d in candidates && Referenced(record, d) ensures d == c { assert d in matches; }
    }
    if forall d :: d in candidates && Referenced(record, d) ==> d == c {
      FilterSingle(candidates, keep, c);
    }
    SelectedIff(matches, record, OfficialReference, 1.0, AmbiguousReference, c);
  }

  ghost predicate OnlyMatch(candidates: seq<Candidate>, matches: Candidate -> bool, record: Candidate, c: Candidate) {
    matches(c) && forall x :: x in candidates && matches(x) && Forward(x, record) ==> x == c
  }

  /** A resolved parent is one of the candidates, strictly earlier in the lifecycle, and when it is found
      by reference, identifier or fingerprint it is the only compatible match of that kind. */
  lemma ResolvedParentIsForward(cmp: Comparators, record: Candidate, candidates: seq<Candidate>)
    requires LinkCandidate(cmp, record, candidates).Resolved?
    ensures var d := LinkCandidate(cmp, record, candidates);
            exists c :: c in candidates && c.id == d.parent && Forward(c, record)
                        && (d.via == OfficialReference ==> OnlyMatch(candidates, ByReference(record), record, c))
                        && (d.via == NormalizedIdentifier ==> OnlyMatch(candidates, ByIdentifier(record), record, c))
                        && (d.via == Fingerprint ==> OnlyMatch(candidates, ByFingerprint(cmp, record), record, c))
  {
    var d := LinkCandidate(cmp, record, candidates);
    match d.via
    case OfficialReference =>
      var keep := ByReference(record);
      SelectedIsForward(Filter(candidates, keep), record, OfficialReference, 1.0, AmbiguousReference);
      FilterIsExact(candidates, keep);
    case NormalizedIdentifier =>
      var keep := ByIdentifier(record);
      SelectedIsForward(Filter(candidates, keep), record, NormalizedIdentifier, 0.99, AmbiguousIdentifier);
      FilterIsExact(candidates, keep);
    case Fingerprint =>
      var keep := ByFingerprint(cmp, record);
      SelectedIsForward(Filter(candidates, keep), record, Fingerprint, 0.85, AmbiguousFingerprint);
      FilterIsExact(candidates, keep);
    case Semantic =>
      SemanticParent(cmp.semantic.value, record, candidates);
  }

  lemma FilterIsExact(cs: seq<Candidate>, keep: Candidate -> bool)
    ensures forall c :: c in Filter(cs, keep) <==> c in cs && keep(c)
  {
    forall c ensures c in Filter(cs, keep) <==> c in cs && keep(c) {
      FilterCounts(cs, keep, c);
      assert c in cs <==> c in multiset(cs);
      assert c in Filter(cs, keep) <==> c in multiset(Filter(cs, keep));
    }
  }

  lemma SemanticParent(cmp: (Candidate, Candidate) -> Option<real>, record: Candidate, candidates: seq<Candidate>)
    requires SemanticDecision(cmp, record, candidates).Resolved?
    ensures exists c :: c in candidates && c.id == SemanticDecision(cmp, record, candidates).parent && Forward(c, record)
  {
    var keep := SemanticEligible(record);
    var eligible := Sort(ById(), Filter(candidates, keep));
    SortKeepsMembers(ById(), Filter(candidates, keep));
    var bounded := if |eligible| > MAX_SEMANTIC then eligible[..MAX_SEMANTIC] else eligible;
    var bestScore := BestScore(cmp, record, bounded);
    var best := Filter(bounded, HasScore(cmp, record, bestScore.value));
    assert best[0] in best;
    assert best[0] in eligible;
    assert best[0] in Filter(candidates, keep);
  }
}
