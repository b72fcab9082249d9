/** The version chain of one opportunity, built from inputs that arrive in any order. */
module Versioning {
  import opened Wrappers
  import opened Linker

  /** What is compared by content hash: the linking facts and the rest of the normalized record. */
  datatype Content = Content(
    source: nat, record: string, stage: string, title: string, buyer: string, amount: Option<int>,
    published: Option<int>, references: seq<(nat, string, string)>, identifiers: set<(string, string)>, rest: string)

  datatype Kind = Initial | Current | Historical

  datatype Version = Version(number: nat, content: Content, effectiveAt: int, previous: Option<nat>, kind: Kind, raw: nat)

  datatype Opportunity = Opportunity(versions: seq<Version>, current: Option<nat>, watermark: Option<int>)

  datatype Input = Input(raw: nat, content: Content, effectiveAt: int)

  datatype Outcome = Outcome(created: bool, number: nat)

  function LatestNumber(versions: seq<Version>): nat {
    if versions == [] then 0
    else
      var rest := LatestNumber(versions[..|versions| - 1]);
      if versions[|versions| - 1].number > rest then versions[|versions| - 1].number else rest
  }

  function Find(versions: seq<Version>, number: nat): Option<Version> {
    if versions == [] then None
    else if versions[0].number == number then Some(versions[0])
    else Find(versions[1..], number)
  }

  /** The current version when it has the same content as the input. */
  function SameCurrent(o: Opportunity, input: Input): Option<Version> {
    if o.current == None then None
    else
      var v := Find(o.versions, o.current.value);
      if v.Some? && v.value.content == input.content then v else None
  }

  predicate BecomesCurrent(o: Opportunity, input: Input) {
    o.watermark == None || input.effectiveAt >= o.watermark.value
  }

  /** The row that is inserted for a canonical key seen for the first time. */
  function NewOpportunity(input: Input): Opportunity {
    Opportunity([], None, Some(input.effectiveAt))
  }

  function NextVersion(o: Opportunity, input: Input): Version {
    Version(
      LatestNumber(o.versions) + 1, input.content, input.effectiveAt, o.current,
      if BecomesCurrent(o, input) then (if o.current == None then Initial else Current) else Historical, input.raw)
  }

  function Upsert(o: Opportunity, input: Input): (Opportunity, Outcome) {
    var same := SameCurrent(o, input);
    if same.Some? then
      (o.(watermark := if o.watermark == None || input.effectiveAt > o.watermark.value
                       then Some(input.effectiveAt) else o.watermark),
       Outcome(false, same.value.number))
    else
      var v := NextVersion(o, input);
      var added := o.(versions := o.versions + [v]);
      (if BecomesCurrent(o, input) then added.(current := Some(v.number), watermark := Some(input.effectiveAt)) else added,
       Outcome(true, v.number))
  }

  /** All inputs of one canonical key, in the order they arrive. */
  function Fold(inputs: seq<Input>): Opportunity {
    if inputs == [] then Opportunity([], None, None)
    else
      var last := inputs[|inputs| - 1];
      if |inputs| == 1 then Upsert(NewOpportunity(last), last).0
      else Upsert(Fold(inputs[..|inputs| - 1]), last).0
  }

  // ----- the invariant of a chain

  /** Number of the last version that became current. */
  function LastCurrent(versions: seq<Version>): nat {
    if versions == [] then 0
    else
      var last := versions[|versions| - 1];
      if last.kind != Historical then last.number else LastCurrent(versions[..|versions| - 1])
  }

  ghost predicate VersionOk(versions: seq<Version>, i: nat)
    requires i < |versions|
  {
    var v := versions[i];
    && v.number == i + 1
    && (v.kind == Initial <==> i == 0)
    && v.previous == (if i == 0 then None else Some(LastCurrent(versions[..i])))
    && (i > 0 ==> 1 <= LastCurrent(versions[..i]) <= i
                  && versions[LastCurrent(versions[..i]) - 1].content != v.content
                  && versions[LastCurrent(versions[..i]) - 1].kind != Historical)
  }

  ghost predicate Valid(o: Opportunity) {
    && (forall i :: 0 <= i < |o.versions| ==> VersionOk(o.versions, i))
    && (if o.versions == [] then o.current == None
        else o.current == Some(LastCurrent(o.versions)) && o.watermark.Some?)
  }

  function CurrentContent(o: Opportunity): Option<Content> {
    if o.current == None then None
    else match Find(o.versions, o.current.value) { case None => None case Some(v) => Some(v.content) }
  }

  lemma {:induction false} NumbersContiguous(versions: seq<Version>)
    requires forall i :: 0 <= i < |versions| ==> versions[i].number == i + 1
    ensures LatestNumber(versions) == |versions|
  {
    if versions != [] {
      NumbersContiguous(versions[..|versions| - 1]);
    }
  }

  lemma Numbered(versions: seq<Version>)
    requires forall i :: 0 <= i < |versions| ==> VersionOk(versions, i)
    ensures forall i :: 0 <= i < |versions| ==> versions[i].number == i + 1
  {
    forall i | 0 <= i < |versions| ensures versions[i].number == i + 1 { assert VersionOk(versions, i); }
  }

  lemma {:induction false} FindByNumber(versions: seq<Version>, first: nat, n: nat)
    requires forall i :: 0 <= i < |versions| ==> versions[i].number == i + first
    requires first <= n < first + |versions|
    ensures Find(versions, n) == Some(versions[n - first])
  {
    if versions[0].number != n {
      FindByNumber(versions[1..], first + 1, n);
    }
  }

  lemma {:induction false} LastCurrentOk(versions: seq<Version>)
    requires versions != [] && forall i :: 0 <= i < |versions| ==> VersionOk(versions, i)
    ensures 1 <= LastCurrent(versions) <= |versions|
    ensures versions[LastCurrent(versions) - 1].kind != Historical
    ensures forall i :: LastCurrent(versions) <= i < |versions| ==> versions[i].kind == Historical
  {
    var n := |versions| - 1;
    assert VersionOk(versions, n);
    if versions[n].kind == Historical {
      VersionsPrefix(versions, n);
      LastCurrentOk(versions[..n]);
    }
  }

  lemma VersionsPrefix(versions: seq<Version>, n: nat)
    requires n <= |versions| && forall i :: 0 <= i < |versions| ==> VersionOk(versions, i)
    ensures forall i :: 0 <= i < n ==> VersionOk(versions[..n], i)
  {
    forall i | 0 <= i < n ensures VersionOk(versions[..n], i) {
      assert VersionOk(versions, i);
      assert versions[..n][..i] == versions[..i];
    }
  }

  lemma CurrentIsLast(o: Opportunity)
    requires Valid(o) && o.versions != []
    ensures 1 <= LastCurrent(o.versions) <= |o.versions|
    ensures Find(o.versions, o.current.value) == Some(o.versions[LastCurrent(o.versions) - 1])
    ensures CurrentContent(o) == Some(o.versions[LastCurrent(o.versions) - 1].content)
  {
    LastCurrentOk(o.versions);
    Numbered(o.versions);
    FindByNumber(o.versions, 1, o.current.value);
  }

  lemma UpsertKeepsValid(o: Opportunity, input: Input)
    requires Valid(o) && (o.versions == [] ==> BecomesCurrent(o, input))
    ensures Valid(Upsert(o, input).0)
    ensures Upsert(o, input).0.versions != []
  {
    if o.versions != [] { CurrentIsLast(o); }
    if SameCurrent(o, input) == None {
      var v := NextVersion(o, input);
      Numbered(o.versions);
      NumbersContiguous(o.versions);
      if o.versions != [] { LastCurrentOk(o.versions); }
      AppendKeepsVersions(o.versions, v);
      assert (o.versions + [v])[..|o.versions|] == o.versions;
    }
  }

  lemma AppendKeepsVersions(versions: seq<Version>, v: Version)
    requires forall i :: 0 <= i < |versions| ==> VersionOk(versions, i)
    requires v.number == |versions| + 1 && (v.kind == Initial <==> versions == [])
    requires v.previous == (if versions == [] then None else Some(LastCurrent(versions)))
    requires versions != [] ==>
               && 1 <= LastCurrent(versions) <= |versions|
               && versions[LastCurrent(versions) - 1].content != v.content
               && versions[LastCurrent(versions) - 1].kind != Historical
    ensures forall i :: 0 <= i <= |versions| ==> VersionOk(versions + [v], i)
  {
    var all := versions + [v];
    forall i | 0 <= i <= |versions| ensures VersionOk(all, i) {
      if i < |versions| {
        assert VersionOk(versions, i);
        assert all[..i] == versions[..i];
      } else {
        assert all[..i] == versions;
      }
    }
  }

  lemma {:induction false} FoldIsValid(inputs: seq<Input>)
    ensures Valid(Fold(inputs))
    ensures inputs != [] ==> Fold(inputs).versions != []
  {
    if inputs != [] {
      var last := inputs[|inputs| - 1];
      if |inputs| == 1 {
        UpsertKeepsValid(NewOpportunity(last), last);
      } else {
        FoldIsValid(inputs[..|inputs| - 1]);
        UpsertKeepsValid(Fold(inputs[..|inputs| - 1]), last);
      }
    }
  }

  // ----- the current state is the latest input

  /** Input `i` has the greatest effective time, and is the last to arrive among those that have it. */
  ghost predicate IsLatest(inputs: seq<Input>, i: nat) {
    && i < |inputs|
    && forall j :: 0 <= j < |inputs| ==>
         inputs[j].effectiveAt < inputs[i].effectiveAt || (inputs[j].effectiveAt == inputs[i].effectiveAt && j <= i)
  }

  lemma UpsertTracks(o: Opportunity, input: Input)
    requires Valid(o) && (o.versions == [] ==> BecomesCurrent(o, input))
    ensures var p := Upsert(o, input).0;
            if BecomesCurrent(o, input)
            then p.watermark == Some(input.effectiveAt) && CurrentContent(p) == Some(input.content)
            else p.watermark == o.watermark && (o.versions != [] ==> CurrentContent(p) == CurrentContent(o))
  {
    var p := Upsert(o, input).0;
    UpsertKeepsValid(o, input);
    CurrentIsLast(p);
    assert VersionOk(p.versions, |p.versions| - 1);
    if o.versions != [] { CurrentIsLast(o); }
    if SameCurrent(o, input) == None {
      assert p.versions[..|o.versions|] == o.versions;
    }
  }

  /** After any arrivals the watermark is the greatest effective time seen, and the current content is that
      of the lexicographic maximum of (effective time, arrival). */
  lemma {:induction false} CurrentIsLatestInput(inputs: seq<Input>, i: nat)
    requires IsLatest(inputs, i)
    ensures Fold(inputs).watermark == Some(inputs[i].effectiveAt)
    ensures CurrentContent(Fold(inputs)) == Some(inputs[i].content)
  {
    var n := |inputs| - 1;
    var front, last := inputs[..n], inputs[n];
    var before := if n == 0 then NewOpportunity(last) else Fold(front);
    FoldIsValid(front);
    UpsertTracks(before, last);
    if n > 0 {
      var j := LatestOf(front);
      CurrentIsLatestInput(front, j);
      assert inputs[j] == front[j];
      if i == n {
        assert inputs[j].effectiveAt <= last.effectiveAt;
      } else {
        assert last.effectiveAt < inputs[i].effectiveAt;
        assert inputs[i] == front[i];
        assert i == j;
      }
    }
  }

  lemma {:induction false} LatestOf(inputs: seq<Input>) returns (i: nat)
    requires inputs != []
    ensures IsLatest(inputs, i)
  {
    var n := |inputs| - 1;
    if n == 0 {
      i := 0;
    } else {
      var j := LatestOf(inputs[..n]);
      i := if inputs[n].effectiveAt >= inputs[j].effectiveAt then n else j;
      assert forall k :: 0 <= k < n ==> inputs[k] == inputs[..n][k];
    }
  }

  /** Input `x` has the greatest effective time of all. */
  ghost predicate IsTop(inputs: seq<Input>, x: Input) {
    x in inputs && forall y :: y in inputs ==> y.effectiveAt <= x.effectiveAt
  }

  ghost predicate TopsAgree(inputs: seq<Input>) {
    forall x, y :: IsTop(inputs, x) && IsTop(inputs, y) ==> x.content == y.content
  }

  ghost predicate OrderIsIrrelevant(inputs: seq<Input>) {
    forall b: seq<Input> :: multiset(b) == multiset(inputs) ==> CurrentContent(Fold(b)) == CurrentContent(Fold(inputs))
  }

  lemma SameMembers(a: seq<Input>, b: seq<Input>)
    requires multiset(a) == multiset(b)
    ensures forall x :: x in a <==> x in b
    ensures forall x :: IsTop(a, x) <==> IsTop(b, x)
    ensures |a| == |b|
  {
    assert |multiset(a)| == |a| && |multiset(b)| == |b|;
    forall x ensures x in a <==> x in b {
      assert x in a <==> x in multiset(a);
      assert x in b <==> x in multiset(b);
    }
  }

  /** The fold always ends with the content and time of a greatest input. */
  lemma FoldHoldsTop(inputs: seq<Input>) returns (x: Input)
    requires inputs != []
    ensures IsTop(inputs, x)
    ensures CurrentContent(Fold(inputs)) == Some(x.content) && Fold(inputs).watermark == Some(x.effectiveAt)
  {
    var i := LatestOf(inputs);
    CurrentIsLatestInput(inputs, i);
    x := inputs[i];
  }

  /** A greatest input that arrives last is the one that stays. */
  lemma TopCanWin(inputs: seq<Input>, x: Input) returns (b: seq<Input>)
    requires IsTop(inputs, x)
    ensures multiset(b) == multiset(inputs) && CurrentContent(Fold(b)) == Some(x.content)
  {
    var i :| 0 <= i < |inputs| && inputs[i] == x;
    b := inputs[..i] + inputs[i + 1..] + [x];
    assert inputs == inputs[..i] + [x] + inputs[i + 1..];
    SameMembers(inputs, b);
    var n := |b| - 1;
    forall j | 0 <= j < |b| ensures b[j].effectiveAt <= b[n].effectiveAt { assert b[j] in b; }
    CurrentIsLatestInput(b, n);
  }

  /** The watermark never depends on the order of arrival, and the current content is independent of it
      exactly when all inputs with the greatest effective time have the same content. */
  lemma ArrivalOrderIsIrrelevantIff(inputs: seq<Input>)
    ensures OrderIsIrrelevant(inputs) <==> TopsAgree(inputs)
    ensures forall b: seq<Input> :: multiset(b) == multiset(inputs) ==> Fold(b).watermark == Fold(inputs).watermark
  {
    forall b: seq<Input> | multiset(b) == multiset(inputs)
      ensures Fold(b).watermark == Fold(inputs).watermark
      ensures TopsAgree(inputs) ==> CurrentContent(Fold(b)) == CurrentContent(Fold(inputs))
    {
      SameMembers(inputs, b);
      if inputs != [] {
        var x := FoldHoldsTop(inputs);
        var y := FoldHoldsTop(b);
        assert x.effectiveAt <= y.effectiveAt <= x.effectiveAt;
      } else {
        assert b == [];
      }
    }
    if OrderIsIrrelevant(inputs) {
      forall x, y | IsTop(inputs, x) && IsTop(inputs, y) ensures x.content == y.content {
        var b := TopCanWin(inputs, x);
        var c := TopCanWin(inputs, y);
      }
    }
  }

  /** With distinct effective times every arrival order ends with the same current content. */
  lemma DistinctTimesAgree(inputs: seq<Input>)
    requires forall x, y :: x in inputs && y in inputs && x.effectiveAt == y.effectiveAt ==> x == y
    ensures OrderIsIrrelevant(inputs)
  {
    ArrivalOrderIsIrrelevantIff(inputs);
  }

  // ----- versions record inputs

  /** The version has the content, effective time and raw record of the input. */
  predicate Records(v: Version, input: Input) {
    v.content == input.content && v.effectiveAt == input.effectiveAt && v.raw == input.raw
  }

  /** Every version is one input, as it arrived; later versions are later inputs. */
  ghost predicate RecordsInputs(versions: seq<Version>, inputs: seq<Input>, at: seq<nat>) {
    && |at| == |versions|
    && (forall i :: 0 <= i < |at| ==> at[i] < |inputs| && Records(versions[i], inputs[at[i]]))
    && forall i, j :: 0 <= i < j < |at| ==> at[i] < at[j]
  }

  lemma {:induction false} VersionsAreInputs(inputs: seq<Input>) returns (at: seq<nat>)
    ensures RecordsInputs(Fold(inputs).versions, inputs, at)
  {
    if inputs == [] {
      at := [];
    } else {
      var n := |inputs| - 1;
      var front, last := inputs[..n], inputs[n];
      var before := if n == 0 then NewOpportunity(last) else Fold(front);
      at := [];
      if n > 0 { at := VersionsAreInputs(front); }
      assert inputs == front + [last];
      if SameCurrent(before, last) == None {
        assert Fold(inputs).versions == before.versions + [NextVersion(before, last)];
        at := at + [n];
      }
    }
  }

  /** An input is recorded as a version of its own unless its content is that of the version current when it
      arrives; and what it is answered names a version with its content. */
  lemma AnsweredVersionHasContent(o: Opportunity, input: Input)
    requires Valid(o) && (o.versions == [] ==> BecomesCurrent(o, input))
    ensures var (p, outcome) := Upsert(o, input);
            && 1 <= outcome.number <= |p.versions| && p.versions[outcome.number - 1].content == input.content
            && (outcome.created <==> CurrentContent(o) != Some(input.content))
            && (outcome.created ==> |p.versions| == |o.versions| + 1 && p.versions[..|o.versions|] == o.versions
                                    && Records(p.versions[|o.versions|], input) && outcome.number == |p.versions|
                                    && (p.versions[|o.versions|].kind == Historical <==>
                                          o.watermark.Some? && input.effectiveAt < o.watermark.value))
            && (!outcome.created ==> p.versions == o.versions && p.current == o.current)
  {
    if o.versions != [] {
      CurrentIsLast(o);
      Numbered(o.versions);
    }
    Numbered(o.versions);
    NumbersContiguous(o.versions);
  }

  // ----- the chain of current versions

  /** Version numbers met when following previous_current_version_id. */
  function Chain(versions: seq<Version>, n: Option<nat>): seq<nat>
    decreases if n.Some? then n.value + 1 else 0
  {
    if n == None || Find(versions, n.value) == None then []
    else
      var v := Find(versions, n.value).value;
      if v.previous.Some? && v.previous.value >= n.value then [n.value]
      else [n.value] + Chain(versions, v.previous)
  }

  /** The chain below version `n` descends strictly, visits every version that became current and no other,
      and each step changes the content. */
  ghost predicate ChainOk(versions: seq<Version>, n: nat, chain: seq<nat>) {
    Descends(versions, chain) && Visits(versions, n, chain)
  }

  ghost predicate Descends(versions: seq<Version>, chain: seq<nat>) {
    && (forall i :: 0 <= i < |chain| ==> 1 <= chain[i] <= |versions|)
    && forall i :: 0 <= i < |chain| - 1 ==> LowerAndDifferent(versions, chain[i + 1], chain[i])
  }

  predicate LowerAndDifferent(versions: seq<Version>, m: nat, n: nat)
    requires 1 <= m <= |versions| && 1 <= n <= |versions|
  {
    m < n && versions[m - 1].content != versions[n - 1].content
  }

  ghost predicate Visits(versions: seq<Version>, n: nat, chain: seq<nat>) {
    forall m :: 1 <= m <= |versions| ==> (m in chain <==> m <= n && versions[m - 1].kind != Historical)
  }

  lemma ChainExtends(versions: seq<Version>, n: nat, m: nat, rest: seq<nat>)
    requires 1 <= m < n <= |versions| && versions[n - 1].kind != Historical
    requires versions[m - 1].content != versions[n - 1].content
    requires forall k :: m <= k < n - 1 ==> versions[k].kind == Historical
    requires ChainOk(versions, m, rest) && rest != [] && rest[0] == m
    ensures ChainOk(versions, n, [n] + rest)
  {
    DescentExtends(versions, n, rest);
    forall k | 1 <= k <= |versions|
      ensures k in [n] + rest <==> k <= n && versions[k - 1].kind != Historical
    {
      assert k in [n] + rest <==> k == n || k in rest;
    }
  }

  lemma DescentExtends(versions: seq<Version>, n: nat, rest: seq<nat>)
    requires Descends(versions, rest) && rest != []
    requires 1 <= n <= |versions| && LowerAndDifferent(versions, rest[0], n)
    ensures Descends(versions, [n] + rest)
  {
    var chain := [n] + rest;
    forall i | 0 <= i < |chain| - 1 ensures LowerAndDifferent(versions, chain[i + 1], chain[i]) {
      if i > 0 { assert LowerAndDifferent(versions, rest[i - 1 + 1], rest[i - 1]); }
    }
  }

  lemma {:induction false} ChainVisitsCurrents(versions: seq<Version>, n: nat)
    requires forall i :: 0 <= i < |versions| ==> VersionOk(versions, i)
    requires 1 <= n <= |versions| && versions[n - 1].kind != Historical
    ensures Chain(versions, Some(n)) != [] && Chain(versions, Some(n))[0] == n
    ensures ChainOk(versions, n, Chain(versions, Some(n)))
  {
    assert VersionOk(versions, n - 1);
    FindVersion(versions, n);
    if n > 1 {
      var m := LastCurrent(versions[..n - 1]);
      LastCurrentBelow(versions, n - 1);
      ChainVisitsCurrents(versions, m);
      assert Chain(versions, Some(n)) == [n] + Chain(versions, Some(m));
      ChainExtends(versions, n, m, Chain(versions, Some(m)));
    } else {
      assert Chain(versions, Some(n)) == [1] + Chain(versions, None) == [1];
    }
  }

  lemma FindVersion(versions: seq<Version>, n: nat)
    requires forall i :: 0 <= i < |versions| ==> VersionOk(versions, i)
    requires 1 <= n <= |versions|
    ensures Find(versions, n) == Some(versions[n - 1])
  {
    Numbered(versions);
    FindByNumber(versions, 1, n);
  }

  lemma LastCurrentBelow(versions: seq<Version>, n: nat)
    requires 1 <= n <= |versions| && forall i :: 0 <= i < |versions| ==> VersionOk(versions, i)
    ensures var m := LastCurrent(versions[..n]);
            && 1 <= m <= n && versions[m - 1].kind != Historical
            && forall k :: m <= k < n ==> versions[k].kind == Historical
  {
    VersionsPrefix(versions, n);
    LastCurrentOk(versions[..n]);
    assert forall k :: 0 <= k < n ==> versions[k] == versions[..n][k];
  }

  /** Numbers are contiguous from 1, exactly the first version is initial, and the chain from the current
      version visits exactly the versions that became current, newest first, never repeating content. */
  lemma ChainOfReachable(inputs: seq<Input>)
    requires inputs != []
    ensures var o := Fold(inputs);
            && (forall i :: 0 <= i < |o.versions| ==>
                  o.versions[i].number == i + 1 && (o.versions[i].kind == Initial <==> i == 0))
            && ChainOk(o.versions, |o.versions|, Chain(o.versions, o.current))
  {
    FoldIsValid(inputs);
    var o := Fold(inputs);
    CurrentIsLast(o);
    LastCurrentOk(o.versions);
    forall i | 0 <= i < |o.versions|
      ensures o.versions[i].number == i + 1 && (o.versions[i].kind == Initial <==> i == 0)
    {
      assert VersionOk(o.versions, i);
    }
    ChainVisitsCurrents(o.versions, LastCurrent(o.versions));
  }

  // ----- the predecessor a delta compares with

  /** Predecessor selection of persist_delta; None when there is nothing to compare with. */
  function Predecessor(versions: seq<Version>, target: Version): Option<nat> {
    if target.kind == Initial then None
    else if target.kind == Current then target.previous
    else HighestBelow(versions, target.number)
  }

  function HighestBelow(versions: seq<Version>, n: nat): Option<nat> {
    if versions == [] then None
    else
      var last, rest := versions[|versions| - 1], HighestBelow(versions[..|versions| - 1], n);
      if last.number < n && (rest == None || last.number > rest.value) then Some(last.number) else rest
  }

  lemma {:induction false} HighestBelowExact(versions: seq<Version>, n: nat)
    ensures match HighestBelow(versions, n)
            case None => forall i :: 0 <= i < |versions| ==> versions[i].number >= n
            case Some(m) => m < n && (exists i :: 0 <= i < |versions| && versions[i].number == m)
                            && forall i :: 0 <= i < |versions| && versions[i].number < n ==> versions[i].number <= m
  {
    if versions != [] {
      var k := |versions| - 1;
      HighestBelowExact(versions[..k], n);
      assert forall i :: 0 <= i < k ==> versions[i] == versions[..k][i];
    }
  }

  /** Every predecessor that is picked passes the ascending-order check of the comparison, and only the
      initial version has none. */
  lemma PredecessorAscends(inputs: seq<Input>, i: nat)
    requires i < |Fold(inputs).versions|
    ensures var versions := Fold(inputs).versions;
            match Predecessor(versions, versions[i])
            case None => versions[i].kind == Initial
            case Some(m) => 1 <= m <= |versions| && m < versions[i].number && versions[m - 1].number == m
                            && (versions[i].kind == Current ==> versions[m - 1].content != versions[i].content)
  {
    FoldIsValid(inputs);
    var versions := Fold(inputs).versions;
    Numbered(versions);
    if versions[i].kind == Historical {
      HistoricalPredecessor(versions, i);
    } else {
      CurrentPredecessor(versions, i);
    }
  }

  lemma CurrentPredecessor(versions: seq<Version>, i: nat)
    requires i < |versions| && VersionOk(versions, i) && versions[i].kind != Historical
    ensures match Predecessor(versions, versions[i])
            case None => versions[i].kind == Initial
            case Some(m) => 1 <= m <= i && (versions[i].kind == Current ==> versions[m - 1].content != versions[i].content)
  {
  }

  lemma HistoricalPredecessor(versions: seq<Version>, i: nat)
    requires i < |versions| && versions[i].kind == Historical
    requires forall k :: 0 <= k < |versions| ==> VersionOk(versions, k)
    ensures Predecessor(versions, versions[i]).Some? && 1 <= Predecessor(versions, versions[i]).value <= i
  {
    Numbered(versions);
    assert VersionOk(versions, i) && VersionOk(versions, 0);
    HighestBelowExact(versions, versions[i].number);
  }
}
