/** Splits are assigned to whole components, so no duplicate edge crosses from dev to test. */
module SplitLeak {
  import opened Options
  import opened UnionFind
  import opened Components

  datatype Split = Dev | Test

  type Assignment = map<nat, Split>

  predicate Crosses(assignment: Assignment, e: Edge) {
    e.0 in assignment && e.1 in assignment && assignment[e.0] != assignment[e.1]
  }

  /** The first edge that crosses, if any; a group without a split never makes an edge cross. */
  method FirstLeak(assignment: Assignment, edges: seq<Edge>) returns (leak: Option<Edge>)
    ensures leak.None? <==> forall e :: e in edges ==> !Crosses(assignment, e)
    ensures leak.Some? ==> exists i :: 0 <= i < |edges| && edges[i] == leak.value && Crosses(assignment, edges[i])
                                       && forall k :: 0 <= k < i ==> !Crosses(assignment, edges[k])
  {
    for i := 0 to |edges|
      invariant forall k :: 0 <= k < i ==> !Crosses(assignment, edges[k])
    {
      if Crosses(assignment, edges[i]) {
        return Some(edges[i]);
      }
    }
    leak := None;
  }

  /** Every group of a component takes the split of its component. */
  ghost predicate Inherits(assignment: Assignment, components: seq<seq<nat>>, dev: seq<bool>)
    requires |dev| == |components|
  {
    && (forall g :: g in assignment ==> Covered(components, g))
    && (forall i, g :: 0 <= i < |components| && g in components[i] ==>
                         g in assignment && assignment[g] == if dev[i] then Dev else Test)
  }

  ghost predicate Disjoint(components: seq<seq<nat>>) {
    forall i, j, g :: 0 <= i < |components| && 0 <= j < |components| && g in components[i] && g in components[j] ==> i == j
  }

  lemma GroupingDisjoint(components: seq<seq<nat>>, groups: seq<nat>, edges: seq<Edge>)
    requires Grouping(components, groups, edges)
    ensures Disjoint(components)
  {
    hide Connected, Grouping;
    forall i, j, g | 0 <= i < |components| && 0 <= j < |components| && g in components[i] && g in components[j] ensures i == j {
      ConnectedSelf(edges, g);
      SameBlockIffConnected(components, groups, edges, i, j, g, g);
    }
  }

  method AssignGroups(components: seq<seq<nat>>, dev: seq<bool>) returns (assignment: Assignment)
    requires |dev| == |components| && Disjoint(components)
    ensures Inherits(assignment, components, dev)
  {
    assignment := map[];
    for i := 0 to |components|
      invariant forall g :: g in assignment ==> Covered(components, g)
      invariant forall k, g :: 0 <= k < i && g in components[k] ==>
                                 g in assignment && assignment[g] == if dev[k] then Dev else Test
    {
      for j := 0 to |components[i]|
        invariant forall g :: g in assignment ==> Covered(components, g)
        invariant forall k, g :: 0 <= k < i && g in components[k] ==>
                                   g in assignment && assignment[g] == if dev[k] then Dev else Test
        invariant forall m :: 0 <= m < j ==>
                                components[i][m] in assignment && assignment[components[i][m]] == if dev[i] then Dev else Test
      {
        var g := components[i][j];
        assert g in components[i];
        assignment := assignment[g := if dev[i] then Dev else Test];
      }
    }
  }

  // ---------------------------------------------------------------- no leak

  ghost predicate NoneCrosses(assignment: Assignment, edges: seq<Edge>) {
    forall e :: e in edges ==> !Crosses(assignment, e)
  }

  ghost predicate ConstantOn(assignment: Assignment, component: seq<nat>) {
    forall g, h :: g in component && h in component && g in assignment && h in assignment ==> assignment[g] == assignment[h]
  }

  lemma {:induction false} ConstantAlong(assignment: Assignment, edges: seq<Edge>, p: seq<nat>)
    requires NoneCrosses(assignment, edges) && IsPath(edges, p) && p[0] in assignment
    requires forall e :: e in edges ==> e.0 in assignment && e.1 in assignment
    ensures p[|p| - 1] in assignment && assignment[p[0]] == assignment[p[|p| - 1]]
    decreases |p|
  {
    if |p| > 1 {
      assert Adjacent(edges, p[0], p[0 + 1]);
      assert !Crosses(assignment, (p[0], p[1])) || !Crosses(assignment, (p[1], p[0]));
      var q := p[1..];
      forall i | 0 <= i < |q| - 1 ensures Adjacent(edges, q[i], q[i + 1]) {
        assert Adjacent(edges, p[i + 1], p[i + 1 + 1]);
      }
      ConstantAlong(assignment, edges, q);
    }
  }

  /** Components are exactly the right unit: a split of all the groups leaks over no edge if and
      only if it never cuts a component. */
  lemma NoLeakIffWholeComponents(assignment: Assignment, components: seq<seq<nat>>, groups: seq<nat>, edges: seq<Edge>)
    requires Grouping(components, groups, Kept(edges, groups)) && (forall g :: g in assignment <==> g in groups)
    ensures NoneCrosses(assignment, edges) <==> forall i :: 0 <= i < |components| ==> ConstantOn(assignment, components[i])
  {
    if NoneCrosses(assignment, edges) {
      forall i | 0 <= i < |components| ensures ConstantOn(assignment, components[i]) {
        WholeIfNoneCrosses(assignment, components[i], groups, edges);
      }
    }
    if forall i :: 0 <= i < |components| ==> ConstantOn(assignment, components[i]) {
      forall e | e in edges ensures !Crosses(assignment, e) {
        EdgeInside(assignment, components, groups, edges, e);
      }
    }
  }

  lemma WholeIfNoneCrosses(assignment: Assignment, component: seq<nat>, groups: seq<nat>, edges: seq<Edge>)
    requires Block(component, groups, Kept(edges, groups)) && (forall g :: g in assignment <==> g in groups)
    requires NoneCrosses(assignment, edges)
    ensures ConstantOn(assignment, component)
  {
    hide Connected;
    var kept := Kept(edges, groups);
    forall g | g in component ensures g in assignment && component[0] in assignment && assignment[g] == assignment[component[0]] {
      assert Connected(kept, component[0], g) && component[0] in component;
      SameAcross(assignment, kept, component[0], g);
    }
  }

  lemma SameAcross(assignment: Assignment, edges: seq<Edge>, x: nat, y: nat)
    requires NoneCrosses(assignment, edges) && Connected(edges, x, y) && x in assignment
    requires forall e :: e in edges ==> e.0 in assignment && e.1 in assignment
    ensures y in assignment && assignment[x] == assignment[y]
  {
    var p :| PathBetween(edges, p, x, y);
    ConstantAlong(assignment, edges, p);
  }

  lemma EdgeInside(assignment: Assignment, components: seq<seq<nat>>, groups: seq<nat>, edges: seq<Edge>, e: Edge)
    requires Grouping(components, groups, Kept(edges, groups)) && (forall g :: g in assignment ==> g in groups)
    requires forall i :: 0 <= i < |components| ==> ConstantOn(assignment, components[i])
    requires e in edges
    ensures !Crosses(assignment, e)
  {
    hide Connected;
    if e.0 in assignment && e.1 in assignment {
      var kept := Kept(edges, groups);
      assert Covered(components, e.0) && Covered(components, e.1);
      var i :| 0 <= i < |components| && e.0 in components[i];
      var j :| 0 <= j < |components| && e.1 in components[j];
      ConnectedEdge(kept, e.0, e.1);
      SameBlockIffConnected(components, groups, kept, i, j, e.0, e.1);
      assert ConstantOn(assignment, components[i]);
    }
  }

  /** Whichever components go to dev, no duplicate edge crosses, including the edges that were not
      applied because a group has no rows. */
  lemma ComponentSplitNeverLeaks(assignment: Assignment, components: seq<seq<nat>>, dev: seq<bool>, groups: seq<nat>, edges: seq<Edge>)
    requires |dev| == |components| && Grouping(components, groups, Kept(edges, groups))
    requires Inherits(assignment, components, dev)
    ensures NoneCrosses(assignment, edges) && forall g :: g in assignment <==> g in groups
  {
    hide Connected;
    forall g ensures g in assignment <==> g in groups {
      if g in assignment {
        var i :| 0 <= i < |components| && g in components[i];
        assert Block(components[i], groups, Kept(edges, groups));
      }
      if g in groups {
        assert Covered(components, g);
        var i :| 0 <= i < |components| && g in components[i];
      }
    }
    forall e | e in edges ensures !Crosses(assignment, e) {
      EdgeInside(assignment, components, groups, edges, e);
    }
  }

  // ---------------------------------------------------------------- edges out of clusters

  /** Every pair of a cluster's groups, in order; a cluster of one or of more than ten gives none. */
  method ClusterEdges(clusters: seq<seq<nat>>) returns (edges: seq<Edge>)
    ensures forall e :: e in edges <==> exists c :: 0 <= c < |clusters| && PairOf(clusters[c], e)
  {
    edges := [];
    for c := 0 to |clusters|
      invariant forall e :: e in edges <==> exists k :: 0 <= k < c && PairOf(clusters[k], e)
    {
      ghost var before := edges;
      var members := clusters[c];
      if 1 < |members| <= 10 {
        for i := 0 to |members|
          invariant forall e :: e in edges <==> e in before || exists a, b :: 0 <= a < i && a < b < |members| && e == (members[a], members[b])
        {
          ghost var row := edges;
          for j := i + 1 to |members|
            invariant forall e :: e in edges <==> e in row || exists b :: i < b < j && e == (members[i], members[b])
          {
            edges := edges + [(members[i], members[j])];
          }
        }
      }
    }
  }

  ghost predicate PairOf(members: seq<nat>, e: Edge) {
    1 < |members| <= 10 && exists a, b :: 0 <= a < b < |members| && e == (members[a], members[b])
  }

  /** The groups of a small cluster that have rows end up in one component. */
  lemma ClusterStaysTogether(clusters: seq<seq<nat>>, edges: seq<Edge>, components: seq<seq<nat>>, groups: seq<nat>, c: nat, i: nat, j: nat, g: nat, h: nat)
    requires forall e :: e in edges <==> exists k :: 0 <= k < |clusters| && PairOf(clusters[k], e)
    requires Grouping(components, groups, Kept(edges, groups)) && c < |clusters| && |clusters[c]| <= 10
    requires g in clusters[c] && h in clusters[c] && i < |components| && j < |components| && g in components[i] && h in components[j]
    ensures i == j
  {
    hide Connected;
    var kept := Kept(edges, groups);
    var a :| 0 <= a < |clusters[c]| && clusters[c][a] == g;
    var b :| 0 <= b < |clusters[c]| && clusters[c][b] == h;
    assert Block(components[i], groups, kept) && Block(components[j], groups, kept);
    if a == b {
      ConnectedSelf(kept, g);
    } else {
      var e := if a < b then (g, h) else (h, g);
      assert PairOf(clusters[c], e);
      ConnectedEdge(kept, g, h);
    }
    SameBlockIffConnected(components, groups, kept, i, j, g, h);
  }
}
