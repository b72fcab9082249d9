/** The timeline of an opportunity: its connected component over active links, found breadth first, and the
    decisions about it that were retracted. */
module Timeline {
  import opened Wrappers
  import opened Sorting

  const DISPLAY_LIMIT := 1000

  datatype Edge = Edge(id: nat, parent: nat, child: nat, created: int, active: bool)

  datatype View = View(opportunities: seq<nat>, active: seq<Edge>, historical: seq<Edge>)

  /** Identifiers are those of table rows. */
  ghost predicate UniqueIds(links: set<Edge>) {
    forall e, f :: e in links && f in links && e.id == f.id ==> e == f
  }

  function ByCreation(): (Edge, Edge) -> bool {
    (e: Edge, f: Edge) => e.created < f.created || (e.created == f.created && e.id < f.id)
  }

  function Less(): (nat, nat) -> bool {
    (a: nat, b: nat) => a < b
  }

  predicate Meets(e: Edge, nodes: set<nat>) {
    e.parent in nodes || e.child in nodes
  }

  function Ends(edges: set<Edge>): set<nat> {
    (set e | e in edges :: e.parent) + (set e | e in edges :: e.child)
  }

  /** No active link leaves the set. */
  ghost predicate Closed(links: set<Edge>, nodes: set<nat>) {
    forall e :: e in links && e.active && Meets(e, nodes) ==> e.parent in nodes && e.child in nodes
  }

  /** The least closed set of opportunities that contains `start`: there is only one. */
  ghost predicate IsComponent(links: set<Edge>, start: nat, nodes: set<nat>) {
    && start in nodes && Closed(links, nodes)
    && forall s :: start in s && Closed(links, s) ==> nodes <= s
  }

  /** The links of one status that touch the nodes. */
  function Touching(links: set<Edge>, nodes: set<nat>, active: bool): set<Edge> {
    set e | e in links && e.active == active && Meets(e, nodes)
  }

  lemma {:induction false} SubsetSize(a: set<nat>, b: set<nat>)
    requires a <= b
    ensures |a| <= |b|
  {
    if a != {} {
      var x :| x in a;
      SubsetSize(a - {x}, b - {x});
    }
  }

  /** The nodes reached from `start` and the active links met, or None past the display limit. */
  method Component(links: set<Edge>, start: nat) returns (found: Option<(set<nat>, set<Edge>)>)
    ensures found.Some? ==>
              && IsComponent(links, start, found.value.0)
              && |found.value.0| <= DISPLAY_LIMIT
              && found.value.1 == Touching(links, found.value.0, true)
    ensures found == None ==> forall nodes :: start in nodes && Closed(links, nodes) ==> |nodes| > DISPLAY_LIMIT
  {
    var visited: set<nat> := {start};
    var frontier: set<nat> := {start};
    var active: set<Edge> := {};
    ghost var universe := {start} + Ends(links);
    while frontier != {}
      invariant start in visited && frontier <= visited <= universe
      invariant |visited| <= DISPLAY_LIMIT
      invariant forall s :: start in s && Closed(links, s) ==> visited <= s
      invariant active == Touching(links, visited - frontier, true)
      invariant Ends(active) <= visited
      decreases universe - visited, frontier
    {
      var found := set e | e in links && e.active && Meets(e, frontier);
      ghost var before, expanded := visited, frontier;
      Expand(links, start, before, expanded, found);
      active := active + found;
      frontier := Ends(found) - visited;
      visited := visited + frontier;
      assert visited - frontier == before;
      if |visited| > DISPLAY_LIMIT {
        forall nodes | start in nodes && Closed(links, nodes) ensures |nodes| > DISPLAY_LIMIT {
          SubsetSize(visited, nodes);
        }
        return None;
      }
    }
    assert visited - frontier == visited;
    return Some((visited, active));
  }

  /** Every closed set that contains the visited nodes contains their neighbours. */
  lemma Expand(links: set<Edge>, start: nat, visited: set<nat>, frontier: set<nat>, found: set<Edge>)
    requires frontier <= visited
    requires forall s :: start in s && Closed(links, s) ==> visited <= s
    requires found == Touching(links, frontier, true)
    ensures forall s :: start in s && Closed(links, s) ==> Ends(found) <= s
    ensures Ends(found) <= Ends(links)
    ensures Touching(links, visited - frontier, true) + found == Touching(links, visited, true)
    ensures Ends(Touching(links, visited - frontier, true) + found) == Ends(Touching(links, visited - frontier, true)) + Ends(found)
  {
    forall s | start in s && Closed(links, s) ensures Ends(found) <= s {
      forall n | n in Ends(found) ensures n in s {
        var e :| e in found && (e.parent == n || e.child == n);
        assert Meets(e, s);
      }
    }
  }

  lemma CreationOrders(links: set<Edge>, some: set<Edge>)
    requires UniqueIds(links) && some <= links
    ensures OrdersSet(ByCreation(), some)
  {
  }

  /** The component in ascending order, its active links and the retracted links that touch it, each by
      creation and identifier; or None exactly for a component past the display limit. */
  method TimelineFor(links: set<Edge>, start: nat) returns (found: Option<View>)
    requires UniqueIds(links)
    ensures found.Some? ==>
              var v := found.value;
              && IsComponent(links, start, set n | n in v.opportunities)
              && StrictlySorted(Less(), v.opportunities)
              && StrictlySorted(ByCreation(), v.active) && StrictlySorted(ByCreation(), v.historical)
              && (forall e :: e in v.active <==> e in links && e.active && e.parent in v.opportunities && e.child in v.opportunities)
              && (forall e :: e in v.historical <==> e in links && !e.active && (e.parent in v.opportunities || e.child in v.opportunities))
    ensures found == None <==> forall nodes :: start in nodes && Closed(links, nodes) ==> |nodes| > DISPLAY_LIMIT
  {
    var component := Component(links, start);
    if component == None {
      return None;
    }
    var (nodes, active) := component.value;
    var historical := Touching(links, nodes, false);
    CreationOrders(links, active);
    CreationOrders(links, historical);
    var opportunities := SortSet(Less(), nodes);
    var first := SortSet(ByCreation(), active);
    var second := SortSet(ByCreation(), historical);
    assert (set n | n in opportunities) == nodes;
    return Some(View(opportunities, first, second));
  }
}
