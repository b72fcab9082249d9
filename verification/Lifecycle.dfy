/** Normalization and linking as transactions under the graph lock, and the ancestor walk over their links. */
module Lifecycle {
  import opened Wrappers
  import opened Linker
  import opened Versioning

  datatype Link = Link(parent: nat, child: nat, parentVersion: nat, childVersion: nat, active: bool)

  datatype State = State(
    opportunities: map<nat, Opportunity>,   // by canonical key
    raws: map<nat, (nat, nat)>,             // raw record -> opportunity and version it was normalized into
    links: seq<Link>)

  /** `order` is the order in which the table of opportunities happens to be read. */
  datatype Action = Normalize(key: nat, input: Input) | Relink(child: nat, order: seq<nat>)

  // ----- transactions

  predicate Touches(l: Link, key: nat) {
    l.parent == key || l.child == key
  }

  function RetractTouching(links: seq<Link>, key: nat): seq<Link> {
    seq(|links|, i requires 0 <= i < |links| => if Touches(links[i], key) then links[i].(active := false) else links[i])
  }

  function RetractChild(links: seq<Link>, child: nat): seq<Link> {
    seq(|links|, i requires 0 <= i < |links| => if links[i].child == child then links[i].(active := false) else links[i])
  }

  function DoNormalize(s: State, key: nat, input: Input): (State, Outcome) {
    if input.raw in s.raws then (s, Outcome(false, s.raws[input.raw].1))
    else
      var o := if key in s.opportunities then s.opportunities[key] else NewOpportunity(input);
      var (p, outcome) := Upsert(o, input);
      var supersedes := outcome.created && BecomesCurrent(o, input) && o.current.Some?;
      (State(s.opportunities[key := p], s.raws[input.raw := (key, outcome.number)],
             if supersedes then RetractTouching(s.links, key) else s.links), outcome)
  }

  predicate HasCurrent(s: State, key: nat) {
    key in s.opportunities && CurrentContent(s.opportunities[key]).Some?
  }

  function CandidateAt(s: State, key: nat): Candidate
    requires HasCurrent(s, key)
  {
    var c := CurrentContent(s.opportunities[key]).value;
    Candidate(key, c.source, c.record, c.stage, c.title, c.buyer, c.amount, c.published, c.references, c.identifiers)
  }

  ghost predicate IsListing(s: State, child: nat, order: seq<nat>) {
    && (forall k :: k in order <==> HasCurrent(s, k) && k != child)
    && forall i, j :: 0 <= i < j < |order| ==> order[i] != order[j]
  }

  function Candidates(s: State, order: seq<nat>): seq<Candidate>
    requires forall k :: k in order ==> HasCurrent(s, k)
  {
    seq(|order|, i requires 0 <= i < |order| => CandidateAt(s, order[i]))
  }

  function NewLink(s: State, parent: nat, child: nat): Link
    requires HasCurrent(s, parent) && HasCurrent(s, child)
  {
    Link(parent, child, s.opportunities[parent].current.value, s.opportunities[child].current.value, true)
  }

  ghost function DoRelink(cmp: Comparators, s: State, child: nat, order: seq<nat>): State {
    if !HasCurrent(s, child) || !IsListing(s, child, order) then s
    else
      var d := LinkCandidate(cmp, CandidateAt(s, child), Candidates(s, order));
      if d.Unresolved? || !HasCurrent(s, d.parent) then s.(links := RetractChild(s.links, child))
      else if NewLink(s, d.parent, child) in s.links then s
      else s.(links := RetractChild(s.links, child) + [NewLink(s, d.parent, child)])
  }

  ghost function Step(cmp: Comparators, s: State, a: Action): State {
    match a
    case Normalize(key, input) => DoNormalize(s, key, input).0
    case Relink(child, order) => DoRelink(cmp, s, child, order)
  }

  ghost function Run(cmp: Comparators, actions: seq<Action>): State {
    if actions == [] then State(map[], map[], [])
    else Step(cmp, Run(cmp, actions[..|actions| - 1]), actions[|actions| - 1])
  }

  // ----- the invariant

  function StageRank(s: State, key: nat): Option<nat> {
    if HasCurrent(s, key) then Rank(CurrentContent(s.opportunities[key]).value.stage) else None
  }

  predicate LinkOk(s: State, l: Link) {
    && HasCurrent(s, l.parent) && HasCurrent(s, l.child)
    && s.opportunities[l.parent].current == Some(l.parentVersion)
    && s.opportunities[l.child].current == Some(l.childVersion)
    && StageRank(s, l.parent).Some? && StageRank(s, l.child).Some?
    && StageRank(s, l.parent).value < StageRank(s, l.child).value
  }

  ghost predicate LinksOk(s: State) {
    && (forall i :: 0 <= i < |s.links| && s.links[i].active ==> LinkOk(s, s.links[i]))
    && forall i, j :: 0 <= i < j < |s.links| && s.links[i].active && s.links[j].active ==> s.links[i].child != s.links[j].child
  }

  ghost predicate ChainsOk(s: State) {
    forall k :: k in s.opportunities ==> Valid(s.opportunities[k]) && s.opportunities[k].versions != []
  }

  ghost predicate Inv(s: State) {
    ChainsOk(s) && LinksOk(s)
  }

  /** A link survives any step that leaves the current versions of its two ends alone. */
  lemma SameCurrentsKeepLink(s: State, t: State, l: Link)
    requires LinkOk(s, l)
    requires forall k :: Touches(l, k) ==>
               && k in t.opportunities
               && CurrentContent(t.opportunities[k]) == CurrentContent(s.opportunities[k])
               && t.opportunities[k].current == s.opportunities[k].current
    ensures LinkOk(t, l)
  {
    assert Touches(l, l.parent) && Touches(l, l.child);
  }

  lemma NormalizeKeepsChains(s: State, key: nat, input: Input)
    requires ChainsOk(s)
    ensures ChainsOk(DoNormalize(s, key, input).0)
  {
    var o := if key in s.opportunities then s.opportunities[key] else NewOpportunity(input);
    UpsertKeepsValid(o, input);
  }

  /** One opportunity changes its current version at most, and then its links are retracted. */
  ghost predicate ChangesOne(s: State, t: State, key: nat) {
    && (forall k :: k in s.opportunities && k != key ==> k in t.opportunities && t.opportunities[k] == s.opportunities[k])
    && (key in s.opportunities ==> key in t.opportunities)
    && (t.links == RetractTouching(s.links, key)
        || (t.links == s.links
            && (key in s.opportunities ==>
                  && t.opportunities[key].current == s.opportunities[key].current
                  && CurrentContent(t.opportunities[key]) == CurrentContent(s.opportunities[key]))))
  }

  lemma NormalizeEffect(s: State, key: nat, input: Input)
    requires ChainsOk(s)
    ensures ChangesOne(s, DoNormalize(s, key, input).0, key)
  {
    if key in s.opportunities {
      var o := s.opportunities[key];
      UpsertTracks(o, input);
      CurrentIsLast(o);
    }
  }

  lemma ChangeKeepsLinks(s: State, t: State, key: nat)
    requires LinksOk(s) && ChangesOne(s, t, key)
    ensures LinksOk(t)
  {
    forall i | 0 <= i < |t.links| && t.links[i].active ensures LinkOk(t, t.links[i]) {
      assert t.links[i] == s.links[i] && LinkOk(s, s.links[i]);
      SameCurrentsKeepLink(s, t, s.links[i]);
    }
  }

  lemma NormalizeKeepsInv(s: State, key: nat, input: Input)
    requires Inv(s)
    ensures Inv(DoNormalize(s, key, input).0)
  {
    NormalizeKeepsChains(s, key, input);
    NormalizeEffect(s, key, input);
    ChangeKeepsLinks(s, DoNormalize(s, key, input).0, key);
  }

  lemma ResolvedLinkOk(cmp: Comparators, s: State, child: nat, order: seq<nat>)
    requires HasCurrent(s, child) && IsListing(s, child, order)
    requires LinkCandidate(cmp, CandidateAt(s, child), Candidates(s, order)).Resolved?
    ensures var d := LinkCandidate(cmp, CandidateAt(s, child), Candidates(s, order));
            && HasCurrent(s, d.parent)
            && StageRank(s, d.parent).Some? && StageRank(s, child).Some?
            && StageRank(s, d.parent).value < StageRank(s, child).value
  {
    var record, candidates := CandidateAt(s, child), Candidates(s, order);
    ResolvedParentIsForward(cmp, record, candidates);
    var d := LinkCandidate(cmp, record, candidates);
    var c :| c in candidates && c.id == d.parent && Forward(c, record);
    var i :| 0 <= i < |candidates| && candidates[i] == c;
    assert order[i] in order;
  }

  lemma RelinkKeepsInv(cmp: Comparators, s: State, child: nat, order: seq<nat>)
    requires Inv(s)
    ensures Inv(DoRelink(cmp, s, child, order))
  {
    if HasCurrent(s, child) && IsListing(s, child, order) {
      RetractKeepsLinks(s, child);
      var d := LinkCandidate(cmp, CandidateAt(s, child), Candidates(s, order));
      if d.Resolved? {
        ResolvedLinkOk(cmp, s, child, order);
        AddKeepsLinks(s.(links := RetractChild(s.links, child)), NewLink(s, d.parent, child));
      }
    }
  }

  lemma RetractKeepsLinks(s: State, child: nat)
    requires LinksOk(s)
    ensures LinksOk(s.(links := RetractChild(s.links, child)))
  {
    var t := s.(links := RetractChild(s.links, child));
    forall i | 0 <= i < |t.links| && t.links[i].active ensures LinkOk(t, t.links[i]) {
      assert t.links[i] == s.links[i] && LinkOk(s, s.links[i]);
    }
  }

  lemma AddKeepsLinks(s: State, l: Link)
    requires LinksOk(s) && LinkOk(s, l)
    requires forall i :: 0 <= i < |s.links| && s.links[i].active ==> s.links[i].child != l.child
    ensures LinksOk(s.(links := s.links + [l]))
  {
    var t := s.(links := s.links + [l]);
    forall i | 0 <= i < |t.links| && t.links[i].active ensures LinkOk(t, t.links[i]) {
      assert i < |s.links| ==> LinkOk(s, s.links[i]);
    }
  }

  lemma {:induction false} RunKeepsInv(cmp: Comparators, actions: seq<Action>)
    ensures Inv(Run(cmp, actions))
  {
    if actions != [] {
      var front, a := actions[..|actions| - 1], actions[|actions| - 1];
      RunKeepsInv(cmp, front);
      match a
      case Normalize(key, input) => NormalizeKeepsInv(Run(cmp, front), key, input);
      case Relink(child, order) => RelinkKeepsInv(cmp, Run(cmp, front), child, order);
    }
  }

  // ----- main results

  /** In every interleaving of normalization and linking, every active link joins the current versions of
      its two ends and goes strictly forward, and a child has at most one. */
  lemma ActiveLinksAreCurrent(cmp: Comparators, actions: seq<Action>)
    ensures LinksOk(Run(cmp, actions))
  {
    RunKeepsInv(cmp, actions);
  }

  /** A linking step makes the child's active link exactly what was decided, and leaves all others alone. */
  lemma RelinkMatchesDecision(cmp: Comparators, s: State, child: nat, order: seq<nat>)
    requires Inv(s) && HasCurrent(s, child) && IsListing(s, child, order)
    ensures var d := LinkCandidate(cmp, CandidateAt(s, child), Candidates(s, order));
            var t := DoRelink(cmp, s, child, order);
            && t.opportunities == s.opportunities
            && (d.Resolved? ==> HasCurrent(s, d.parent) && NewLink(s, d.parent, child) in t.links)
            && (forall i :: 0 <= i < |t.links| && t.links[i].active && t.links[i].child == child ==>
                  d.Resolved? && t.links[i] == NewLink(s, d.parent, child))
            && (forall i :: 0 <= i < |s.links| && s.links[i].child != child ==> i < |t.links| && t.links[i] == s.links[i])
  {
    var d := LinkCandidate(cmp, CandidateAt(s, child), Candidates(s, order));
    RetractedChild(s.links, child);
    if d.Resolved? {
      ResolvedLinkOk(cmp, s, child, order);
      var l := NewLink(s, d.parent, child);
      if l in s.links {
        OnlyLinkOf(s, l);
      } else {
        AddedLink(RetractChild(s.links, child), l);
      }
    }
  }

  lemma RetractedChild(links: seq<Link>, child: nat)
    ensures var after := RetractChild(links, child);
            && |after| == |links|
            && (forall i :: 0 <= i < |after| && after[i].active ==> after[i].child != child)
            && forall i :: 0 <= i < |links| && links[i].child != child ==> after[i] == links[i]
  {
  }

  lemma AddedLink(links: seq<Link>, l: Link)
    requires forall i :: 0 <= i < |links| && links[i].active ==> links[i].child != l.child
    ensures l in links + [l]
    ensures forall i :: 0 <= i <= |links| && (links + [l])[i].active && (links + [l])[i].child == l.child ==> (links + [l])[i] == l
    ensures forall i :: 0 <= i < |links| ==> (links + [l])[i] == links[i]
  {
  }

  lemma OnlyLinkOf(s: State, l: Link)
    requires LinksOk(s) && l in s.links && l.active
    ensures forall i :: 0 <= i < |s.links| && s.links[i].active && s.links[i].child == l.child ==> s.links[i] == l
  {
    var k :| 0 <= k < |s.links| && s.links[k] == l;
    assert forall i :: 0 <= i < |s.links| && s.links[i].active && s.links[i].child == l.child ==> i == k;
  }

  /** Normalization retracts the links of an opportunity exactly when its current version is superseded. */
  lemma SupersededLinksAreRetracted(s: State, key: nat, input: Input, i: nat)
    requires Inv(s) && i < |s.links| && s.links[i].active
    ensures var t := DoNormalize(s, key, input).0;
            && |t.links| == |s.links|
            && (t.links[i].active <==> t.opportunities[s.links[i].parent].current == s.opportunities[s.links[i].parent].current
                                       && t.opportunities[s.links[i].child].current == s.opportunities[s.links[i].child].current)
            && (t.links[i].active ==> t.links[i] == s.links[i])
  {
    assert LinkOk(s, s.links[i]);
    if key in s.opportunities {
      var o := s.opportunities[key];
      CurrentIsLast(o);
      Numbered(o.versions);
      NumbersContiguous(o.versions);
    }
  }

  ghost predicate IsDescent(s: State, nodes: seq<nat>) {
    forall i :: 0 <= i < |nodes| - 1 ==> Linked(s, nodes[i], nodes[i + 1])
  }

  ghost predicate Linked(s: State, parent: nat, child: nat) {
    exists i :: 0 <= i < |s.links| && s.links[i].active && s.links[i].parent == parent && s.links[i].child == child
  }

  lemma {:induction false} DescentRanks(s: State, nodes: seq<nat>, i: nat, j: nat)
    requires LinksOk(s) && IsDescent(s, nodes) && i < j < |nodes|
    ensures StageRank(s, nodes[i]).Some? && StageRank(s, nodes[j]).Some?
    ensures StageRank(s, nodes[i]).value + (j - i) <= StageRank(s, nodes[j]).value <= 4
  {
    assert Linked(s, nodes[j - 1], nodes[j - 1 + 1]);
    var k :| 0 <= k < |s.links| && s.links[k].active && s.links[k].parent == nodes[j - 1] && s.links[k].child == nodes[j];
    assert LinkOk(s, s.links[k]);
    if i < j - 1 {
      DescentRanks(s, nodes, i, j - 1);
    }
  }

  /** The active links form an acyclic forest: a path along them visits at most five opportunities, all
      different. */
  lemma ActiveLinksFormForest(cmp: Comparators, actions: seq<Action>, nodes: seq<nat>)
    requires IsDescent(Run(cmp, actions), nodes)
    ensures |nodes| <= 5
    ensures forall i, j :: 0 <= i < j < |nodes| ==> nodes[i] != nodes[j]
  {
    var s := Run(cmp, actions);
    RunKeepsInv(cmp, actions);
    forall i, j | 0 <= i < j < |nodes| ensures nodes[i] != nodes[j] {
      DescentRanks(s, nodes, i, j);
    }
    if |nodes| > 1 {
      DescentRanks(s, nodes, 0, |nodes| - 1);
    }
  }

  /** The order in which opportunities are read does not change what a linking step does. */
  lemma RelinkIgnoresOrder(cmp: Comparators, s: State, child: nat, a: seq<nat>, b: seq<nat>)
    requires IsListing(s, child, a) && IsListing(s, child, b)
    ensures DoRelink(cmp, s, child, a) == DoRelink(cmp, s, child, b)
  {
    if HasCurrent(s, child) {
      ListingsPermute(s, a, b);
      DecisionIgnoresOrder(cmp, CandidateAt(s, child), Candidates(s, a), Candidates(s, b));
    }
  }

  lemma ListingsPermute(s: State, a: seq<nat>, b: seq<nat>)
    requires forall k :: k in a <==> k in b
    requires forall k :: k in a ==> HasCurrent(s, k)
    requires forall i, j :: 0 <= i < j < |a| ==> a[i] != a[j]
    requires forall i, j :: 0 <= i < j < |b| ==> b[i] != b[j]
    ensures multiset(Candidates(s, a)) == multiset(Candidates(s, b))
    ensures DistinctIds(Candidates(s, a))
  {
    forall c ensures multiset(Candidates(s, a))[c] == multiset(Candidates(s, b))[c] {
      CandidateCount(s, a, c);
      CandidateCount(s, b, c);
    }
  }

  /** A listing without repetitions holds the candidate of each of its keys once. */
  lemma {:induction false} CandidateCount(s: State, order: seq<nat>, c: Candidate)
    requires forall k :: k in order ==> HasCurrent(s, k)
    requires forall i, j :: 0 <= i < j < |order| ==> order[i] != order[j]
    ensures multiset(Candidates(s, order))[c] == if c.id in order && c == CandidateAt(s, c.id) then 1 else 0
  {
    if order != [] {
      CandidateCount(s, order[1..], c);
      assert Candidates(s, order) == [CandidateAt(s, order[0])] + Candidates(s, order[1..]);
      assert c.id in order <==> c.id == order[0] || c.id in order[1..];
    }
  }

  // ----- each opportunity of a run is the fold of its own inputs

  function RawsOf(actions: seq<Action>): set<nat> {
    set a | a in actions && a.Normalize? :: a.input.raw
  }

  /** Inputs for one key whose raw record had not been normalized before. */
  function InputsFor(actions: seq<Action>, key: nat): seq<Input> {
    if actions == [] then []
    else
      var front, a := actions[..|actions| - 1], actions[|actions| - 1];
      InputsFor(front, key) + if a.Normalize? && a.key == key && a.input.raw !in RawsOf(front) then [a.input] else []
  }

  ghost predicate FoldsInputs(s: State, key: nat, inputs: seq<Input>) {
    && (key in s.opportunities <==> inputs != [])
    && (inputs != [] ==> s.opportunities[key] == Fold(inputs))
  }

  lemma NormalizeFolds(s: State, key: nat, input: Input, other: nat, inputs: seq<Input>)
    requires FoldsInputs(s, other, inputs)
    ensures FoldsInputs(DoNormalize(s, key, input).0, other, if key == other && input.raw !in s.raws then inputs + [input] else inputs)
    ensures DoNormalize(s, key, input).0.raws.Keys == s.raws.Keys + {input.raw}
  {
    assert (inputs + [input])[..|inputs|] == inputs;
  }

  lemma {:induction false} RunFoldsInputs(cmp: Comparators, actions: seq<Action>, key: nat)
    ensures Run(cmp, actions).raws.Keys == RawsOf(actions)
    ensures FoldsInputs(Run(cmp, actions), key, InputsFor(actions, key))
  {
    if actions != [] {
      var front, a := actions[..|actions| - 1], actions[|actions| - 1];
      RunFoldsInputs(cmp, front, key);
      assert actions == front + [a];
      FoldStep(cmp, Run(cmp, front), front, a, key);
    }
  }

  lemma FoldStep(cmp: Comparators, s: State, front: seq<Action>, a: Action, key: nat)
    requires s.raws.Keys == RawsOf(front) && FoldsInputs(s, key, InputsFor(front, key))
    ensures Step(cmp, s, a).raws.Keys == RawsOf(front + [a])
    ensures FoldsInputs(Step(cmp, s, a), key, InputsFor(front + [a], key))
  {
    LastRaw(front, a);
    LastInput(front, a, key);
    match a
    case Normalize(k, input) => NormalizeFolds(s, k, input, key, InputsFor(front, key));
    case Relink(child, order) => RelinkLeavesRecords(cmp, s, child, order);
  }

  lemma LastInput(front: seq<Action>, a: Action, key: nat)
    ensures InputsFor(front + [a], key)
         == if a.Normalize? && a.key == key && a.input.raw !in RawsOf(front) then InputsFor(front, key) + [a.input]
            else InputsFor(front, key)
  {
    assert (front + [a])[..|front|] == front;
  }

  lemma LastRaw(front: seq<Action>, a: Action)
    ensures RawsOf(front + [a]) == RawsOf(front) + if a.Normalize? then {a.input.raw} else {}
  {
  }

  lemma RelinkLeavesRecords(cmp: Comparators, s: State, child: nat, order: seq<nat>)
    ensures DoRelink(cmp, s, child, order) == s.(links := DoRelink(cmp, s, child, order).links)
  {
  }

  /** Whatever other keys and linking steps are interleaved, the current content of an opportunity is that
      of the latest of its own inputs, and repeated raw records change nothing. */
  lemma RunCurrentIsLatest(cmp: Comparators, actions: seq<Action>, key: nat, i: nat)
    requires IsLatest(InputsFor(actions, key), i)
    ensures key in Run(cmp, actions).opportunities
    ensures CurrentContent(Run(cmp, actions).opportunities[key]) == Some(InputsFor(actions, key)[i].content)
    ensures Run(cmp, actions).opportunities[key].watermark == Some(InputsFor(actions, key)[i].effectiveAt)
  {
    RunFoldsInputs(cmp, actions, key);
    CurrentIsLatestInput(InputsFor(actions, key), i);
  }

  // ----- the ancestor walk of outcome notifications

  /** Active edges whose recorded versions are still current, by child. */
  method CurrentParents(s: State) returns (parents: map<nat, Link>)
    requires LinksOk(s)
    ensures forall c :: c in parents ==> parents[c] in s.links && parents[c].active && parents[c].child == c
    ensures forall i :: 0 <= i < |s.links| && s.links[i].active ==> s.links[i].child in parents
  {
    parents := map[];
    for k := 0 to |s.links|
      invariant forall c :: c in parents ==> parents[c] in s.links && parents[c].active && parents[c].child == c
      invariant forall i :: 0 <= i < k && s.links[i].active ==> s.links[i].child in parents
    {
      var l := s.links[k];
      if l.active && l.parent in s.opportunities && l.child in s.opportunities
         && s.opportunities[l.parent].current == Some(l.parentVersion)
         && s.opportunities[l.child].current == Some(l.childVersion) {
        parents := parents[l.child := l];
      }
    }
  }

  /** `path` leads from `nodes[0]` up to `ancestor` over active links, one per node. */
  ghost predicate Climbs(s: State, nodes: seq<nat>, path: seq<Link>, ancestor: nat) {
    && |path| == |nodes|
    && (forall i :: 0 <= i < |path| ==> path[i] in s.links && path[i].active && path[i].child == nodes[i])
    && (forall i :: 0 <= i < |path| ==> path[i].parent == if i + 1 < |nodes| then nodes[i + 1] else ancestor)
  }

  /** Every node below the ancestor has a higher rank, and there is one rank for each of them. */
  ghost predicate RanksFall(s: State, nodes: seq<nat>, ancestor: nat) {
    nodes != [] ==>
      && StageRank(s, ancestor).Some?
      && StageRank(s, ancestor).value + |nodes| <= 4
      && forall n :: n in nodes ==> StageRank(s, n).Some? && StageRank(s, ancestor).value < StageRank(s, n).value
  }

  lemma ClimbOne(s: State, nodes: seq<nat>, path: seq<Link>, ancestor: nat, l: Link)
    requires LinksOk(s) && Climbs(s, nodes, path, ancestor) && RanksFall(s, nodes, ancestor)
    requires l in s.links && l.active && l.child == ancestor
    ensures Climbs(s, nodes + [ancestor], path + [l], l.parent)
    ensures RanksFall(s, nodes + [ancestor], l.parent)
  {
    assert LinkOk(s, l);
    assert forall n :: n in nodes + [ancestor] <==> n in nodes || n == ancestor;
    var more := path + [l];
    forall i | 0 <= i < |more| ensures more[i].parent == if i + 1 <= |nodes| then (nodes + [ancestor])[i + 1] else l.parent {
      if i < |path| { assert more[i] == path[i]; }
    }
  }

  /** A watch on an opportunity, and what its owner is told: the links from the outcome up to it. */
  datatype Watch = Watch(user: nat, opportunity: nat)

  datatype Notice = Notice(user: nat, watched: nat, outcome: nat, path: seq<Link>)

  /** Notices of one node of the walk, in the order of the watches. */
  function NoticesAt(watches: seq<Watch>, observed: Watch -> bool, outcome: nat, node: nat, path: seq<Link>): seq<Notice> {
    if watches == [] then []
    else
      var last := watches[|watches| - 1];
      NoticesAt(watches[..|watches| - 1], observed, outcome, node, path)
      + if last.opportunity == node && observed(last) then [Notice(last.user, node, outcome, path)] else []
  }

  method NoticeWatchers(watches: seq<Watch>, observed: Watch -> bool, outcome: nat, node: nat, path: seq<Link>)
    returns (notices: seq<Notice>)
    ensures notices == NoticesAt(watches, observed, outcome, node, path)
  {
    notices := [];
    for k := 0 to |watches|
      invariant notices == NoticesAt(watches[..k], observed, outcome, node, path)
    {
      assert watches[..k + 1][..k] == watches[..k];
      var watch := watches[k];
      if watch.opportunity != node || !observed(watch) {
        continue;
      }
      notices := notices + [Notice(watch.user, node, outcome, path)];
    }
    assert watches[..|watches|] == watches;
  }

  lemma {:induction false} NoticesAtExact(watches: seq<Watch>, observed: Watch -> bool, outcome: nat, node: nat, path: seq<Link>, n: Notice)
    ensures n in NoticesAt(watches, observed, outcome, node, path)
            <==> n == Notice(n.user, node, outcome, path) && Watch(n.user, node) in watches && observed(Watch(n.user, node))
  {
    if watches != [] {
      var front, last := watches[..|watches| - 1], watches[|watches| - 1];
      NoticesAtExact(front, observed, outcome, node, path, n);
      assert forall w :: w in watches <==> w in front || w == last;
    }
  }

  /** The notice tells a watcher of a node on the walk about the outcome, with the links walked so far. */
  predicate Due(watches: seq<Watch>, observed: Watch -> bool, outcome: nat, nodes: seq<nat>, path: seq<Link>, n: Notice)
    requires |path| + 1 >= |nodes|
  {
    && n.outcome == outcome && Watch(n.user, n.watched) in watches && observed(Watch(n.user, n.watched))
    && exists i :: 0 <= i < |nodes| && nodes[i] == n.watched && n.path == path[..i]
  }

  lemma DueAtNext(watches: seq<Watch>, observed: Watch -> bool, outcome: nat, nodes: seq<nat>, path: seq<Link>, node: nat, n: Notice)
    requires |path| == |nodes|
    ensures Due(watches, observed, outcome, nodes + [node], path, n)
            <==> Due(watches, observed, outcome, nodes, path, n) || n in NoticesAt(watches, observed, outcome, node, path)
  {
    NoticesAtExact(watches, observed, outcome, node, path, n);
    var all := nodes + [node];
    assert path[..|nodes|] == path;
    if i :| 0 <= i < |nodes| && nodes[i] == n.watched && n.path == path[..i] {
      assert all[i] == n.watched;
    }
    if n in NoticesAt(watches, observed, outcome, node, path) {
      assert all[|nodes|] == n.watched && n.path == path[..|nodes|];
    }
  }

  lemma DueAlong(watches: seq<Watch>, observed: Watch -> bool, outcome: nat, nodes: seq<nat>, path: seq<Link>, l: Link, n: Notice)
    requires |path| + 1 == |nodes|
    ensures Due(watches, observed, outcome, nodes, path + [l], n) <==> Due(watches, observed, outcome, nodes, path, n)
  {
    assert forall i :: 0 <= i < |nodes| ==> (path + [l])[..i] == path[..i];
  }

  ghost predicate AllDue(watches: seq<Watch>, observed: Watch -> bool, outcome: nat, nodes: seq<nat>, path: seq<Link>, notices: seq<Notice>)
    requires |path| + 1 >= |nodes|
  {
    forall n :: n in notices <==> Due(watches, observed, outcome, nodes, path, n)
  }

  lemma NoticesNext(watches: seq<Watch>, observed: Watch -> bool, outcome: nat, nodes: seq<nat>, path: seq<Link>, node: nat,
                    notices: seq<Notice>)
    requires |path| == |nodes| && AllDue(watches, observed, outcome, nodes, path, notices)
    ensures AllDue(watches, observed, outcome, nodes + [node], path,
                   notices + NoticesAt(watches, observed, outcome, node, path))
    ensures forall l: Link :: AllDue(watches, observed, outcome, nodes + [node], path + [l],
                                     notices + NoticesAt(watches, observed, outcome, node, path))
  {
    var more := NoticesAt(watches, observed, outcome, node, path);
    forall n ensures n in notices + more <==> Due(watches, observed, outcome, nodes + [node], path, n) {
      DueAtNext(watches, observed, outcome, nodes, path, node, n);
    }
    forall l: Link, n
      ensures Due(watches, observed, outcome, nodes + [node], path + [l], n) <==> Due(watches, observed, outcome, nodes + [node], path, n)
    {
      DueAlong(watches, observed, outcome, nodes + [node], path, l, n);
    }
  }

  /** Where the walk from `outcome` stands: `nodes` are behind it, `ancestor` is next. */
  ghost predicate Walking(s: State, outcome: nat, nodes: seq<nat>, path: seq<Link>, ancestor: nat) {
    && Climbs(s, nodes, path, ancestor) && RanksFall(s, nodes, ancestor)
    && (forall i, j :: 0 <= i < j < |nodes| ==> nodes[i] != nodes[j])
    && (nodes + [ancestor])[0] == outcome
  }

  lemma WalkOn(s: State, outcome: nat, nodes: seq<nat>, path: seq<Link>, ancestor: nat, l: Link)
    requires LinksOk(s) && Walking(s, outcome, nodes, path, ancestor)
    requires l in s.links && l.active && l.child == ancestor
    ensures Walking(s, outcome, nodes + [ancestor], path + [l], l.parent)
    ensures |nodes| < 4
  {
    ClimbOne(s, nodes, path, ancestor, l);
    NotBehind(s, nodes, ancestor);
  }

  lemma NotBehind(s: State, nodes: seq<nat>, ancestor: nat)
    requires RanksFall(s, nodes, ancestor)
    ensures ancestor !in nodes && |nodes| <= 4
  {
  }

  lemma WalkEnds(s: State, outcome: nat, nodes: seq<nat>, path: seq<Link>, ancestor: nat)
    requires Walking(s, outcome, nodes, path, ancestor)
    requires forall i :: 0 <= i < |s.links| && s.links[i].active ==> s.links[i].child != ancestor
    ensures var all := nodes + [ancestor];
            && |all| <= 5 && IsWalk(s, outcome, all, path)
            && forall i, j :: 0 <= i < j < |all| ==> all[i] != all[j]
  {
    NotBehind(s, nodes, ancestor);
    assert (nodes + [ancestor])[..|path|] == nodes;
  }

  /** Walks from an outcome to its ancestors and tells everybody who watches one of them.  The walk always
      ends at an opportunity without an active parent, never because an opportunity is met again, and visits
      at most five of them, all different. */
  method WalkAncestors(s: State, outcome: nat, watches: seq<Watch>, observed: Watch -> bool)
    returns (nodes: seq<nat>, path: seq<Link>, notices: seq<Notice>, revisited: bool)
    requires LinksOk(s)
    ensures !revisited
    ensures 1 <= |nodes| <= 5 && IsWalk(s, outcome, nodes, path)
    ensures forall i, j :: 0 <= i < j < |nodes| ==> nodes[i] != nodes[j]
    ensures AllDue(watches, observed, outcome, nodes, path, notices)
  {
    var parents := CurrentParents(s);
    var ancestor, seen := outcome, {};
    nodes, path, notices := [], [], [];
    while ancestor !in seen
      invariant Walking(s, outcome, nodes, path, ancestor)
      invariant forall n :: n in seen <==> n in nodes
      invariant AllDue(watches, observed, outcome, nodes, path, notices)
      decreases 5 - |nodes|
    {
      seen := seen + {ancestor};
      var more := NoticeWatchers(watches, observed, outcome, ancestor, path);
      NoticesNext(watches, observed, outcome, nodes, path, ancestor, notices);
      notices := notices + more;
      if ancestor !in parents {
        WalkEnds(s, outcome, nodes, path, ancestor);
        return nodes + [ancestor], path, notices, false;
      }
      WalkOn(s, outcome, nodes, path, ancestor, parents[ancestor]);
      nodes, path := nodes + [ancestor], path + [parents[ancestor]];
      ancestor := parents[ancestor].parent;
    }
    NotBehind(s, nodes, ancestor);
    assert false;
  }

  /** The walk from `outcome` up to an opportunity without an active parent. */
  ghost predicate IsWalk(s: State, outcome: nat, nodes: seq<nat>, path: seq<Link>) {
    && |path| + 1 == |nodes| && nodes[0] == outcome
    && Climbs(s, nodes[..|path|], path, nodes[|path|])
    && forall i :: 0 <= i < |s.links| && s.links[i].active ==> s.links[i].child != nodes[|path|]
  }

  /** Every opportunity from which active links lead down to the outcome is on its walk, as far up as the
      links are long: so the watchers told are exactly those of the outcome and its ancestors. */
  lemma {:induction false} AncestorsAreWalked(s: State, nodes: seq<nat>, path: seq<Link>, descent: seq<nat>, k: nat)
    requires LinksOk(s) && descent != [] && IsDescent(s, descent)
    requires IsWalk(s, descent[|descent| - 1], nodes, path) && k < |descent|
    ensures k < |nodes| && descent[|descent| - 1 - k] == nodes[k]
  {
    if k > 0 {
      AncestorsAreWalked(s, nodes, path, descent, k - 1);
      var at := |descent| - 1 - k;
      assert Linked(s, descent[at], descent[at + 1]);
      OneUp(s, descent[|descent| - 1], nodes, path, descent[at], k - 1);
    }
  }

  lemma OneUp(s: State, outcome: nat, nodes: seq<nat>, path: seq<Link>, parent: nat, k: nat)
    requires LinksOk(s) && IsWalk(s, outcome, nodes, path) && k < |nodes| && Linked(s, parent, nodes[k])
    ensures k + 1 < |nodes| && nodes[k + 1] == parent
  {
    var i :| 0 <= i < |s.links| && s.links[i].active && s.links[i].parent == parent && s.links[i].child == nodes[k];
    if k < |path| {
      WalkedLink(s, nodes, path, k);
      var j :| 0 <= j < |s.links| && s.links[j] == path[k];
      assert i == j;
    }
  }

  lemma WalkedLink(s: State, nodes: seq<nat>, path: seq<Link>, k: nat)
    requires |path| + 1 == |nodes| && Climbs(s, nodes[..|path|], path, nodes[|path|]) && k < |path|
    ensures path[k] in s.links && path[k].active && path[k].child == nodes[k] && path[k].parent == nodes[k + 1]
  {
    assert nodes[..|path|][k] == nodes[k];
  }

  // ----- the repository, updating its tables in place

  datatype RawRow = RawRow(id: Option<nat>, source: nat, record: string)

  datatype IdentityError = NotPersisted | ForeignRecord

  class Repository {
    var opportunities: map<nat, Opportunity>
    var raws: map<nat, (nat, nat)>
    var links: seq<Link>

    ghost function View(): State
      reads this
    {
      State(opportunities, raws, links)
    }

    constructor ()
      ensures View() == State(map[], map[], [])
    {
      opportunities, raws, links := map[], map[], [];
    }

    /** `raw` is the immutable record the input was normalized from. */
    method UpsertVersion(key: nat, raw: RawRow, input: Input) returns (result: Result<Outcome, IdentityError>)
      requires raw.id.Some? ==> input.raw == raw.id.value
      modifies this
      ensures result == Failure(NotPersisted) <==> raw.id == None
      ensures result == Failure(ForeignRecord) <==>
                raw.id.Some? && (raw.source, raw.record) != (input.content.source, input.content.record)
      ensures result.Failure? ==> View() == old(View())
      ensures result.Success? ==> (View(), result.value) == DoNormalize(old(View()), key, input)
    {
      if raw.id == None {
        return Failure(NotPersisted);
      }
      if raw.source != input.content.source || raw.record != input.content.record {
        return Failure(ForeignRecord);
      }
      if input.raw in raws {
        return Success(Outcome(false, raws[input.raw].1));
      }
      var o := if key in opportunities then opportunities[key] else NewOpportunity(input);
      var existing: Option<Version> := if o.current.Some? then Find(o.versions, o.current.value) else None;
      if existing.Some? && existing.value.content == input.content {
        if o.watermark == None || input.effectiveAt > o.watermark.value {
          o := o.(watermark := Some(input.effectiveAt));
        }
        opportunities := opportunities[key := o];
        raws := raws[input.raw := (key, existing.value.number)];
        return Success(Outcome(false, existing.value.number));
      }
      var becomesCurrent := o.watermark == None || input.effectiveAt >= o.watermark.value;
      var v := NextVersion(o, input);
      if becomesCurrent && o.current.Some? {
        links := RetractTouching(links, key);
      }
      o := o.(versions := o.versions + [v]);
      if becomesCurrent {
        o := o.(current := Some(v.number), watermark := Some(input.effectiveAt));
      }
      opportunities := opportunities[key := o];
      raws := raws[input.raw := (key, v.number)];
      return Success(Outcome(true, v.number));
    }
  }
}
