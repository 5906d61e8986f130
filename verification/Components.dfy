/** The split builder's components: groups of rows joined by near-duplicate edges. */
module Components {
  import opened UnionFind

  datatype Row = Row(group: nat, stratum: string)

  function GroupIds(rows: seq<Row>): seq<nat> {
    seq(|rows|, i requires 0 <= i < |rows| => rows[i].group)
  }

  // ---------------------------------------------------------------- sorted ids

  ghost predicate Ascending(s: seq<nat>) {
    forall i, j :: 0 <= i < j < |s| ==> s[i] < s[j]
  }

  function Insert(x: nat, s: seq<nat>): (r: seq<nat>)
    requires Ascending(s)
    ensures Ascending(r) && forall y :: y in r <==> y == x || y in s
  {
    if s == [] || x < s[0] then [x] + s
    else if x == s[0] then s
    else
      var tail := Insert(x, s[1..]);
      assert forall y :: y in s <==> y == s[0] || y in s[1..];
      assert Ascending([s[0]] + tail) by {
        forall i | 0 <= i < |tail| ensures s[0] < tail[i] {
          assert tail[i] in tail;
        }
      }
      [s[0]] + tail
  }

  /** The distinct elements in ascending order. */
  function SortedSet(s: seq<nat>): (r: seq<nat>)
    ensures Ascending(r) && forall y :: y in r <==> y in s
  {
    if s == [] then [] else Insert(s[0], SortedSet(s[1..]))
  }

  lemma {:induction false} AscendingUnique(a: seq<nat>, b: seq<nat>)
    requires Ascending(a) && Ascending(b) && forall y :: y in a <==> y in b
    ensures a == b
  {
    assert a != [] ==> a[0] in b;
    assert b != [] ==> b[0] in a;
    if a != [] && b != [] {
      assert a[0] == b[0];
      forall y ensures y in a[1..] <==> y in b[1..] {
        assert y in a[1..] <==> y in a && y != a[0];
        assert y in b[1..] <==> y in b && y != b[0];
      }
      AscendingUnique(a[1..], b[1..]);
      assert a == [a[0]] + a[1..] && b == [b[0]] + b[1..];
    }
  }

  // ---------------------------------------------------------------- what a grouping is

  /** One component: the groups connected to its least member, in ascending order. */
  ghost predicate Block(c: seq<nat>, groups: seq<nat>, edges: seq<Edge>) {
    && c != []
    && Ascending(c)
    && forall g :: g in c <==> g in groups && Connected(edges, c[0], g)
  }

  ghost predicate Covered(components: seq<seq<nat>>, g: nat) {
    exists i :: 0 <= i < |components| && g in components[i]
  }

  ghost predicate HeadsAscend(components: seq<seq<nat>>)
    requires forall i :: 0 <= i < |components| ==> components[i] != []
  {
    forall i, j :: 0 <= i < j < |components| ==> components[i][0] < components[j][0]
  }

  /** The connected components of `groups`, ordered by least member. */
  ghost predicate Grouping(components: seq<seq<nat>>, groups: seq<nat>, edges: seq<Edge>) {
    && (forall i :: 0 <= i < |components| ==> Block(components[i], groups, edges))
    && (forall g :: g in groups ==> Covered(components, g))
    && HeadsAscend(components)
  }

  lemma SameBlockIffConnected(components: seq<seq<nat>>, groups: seq<nat>, edges: seq<Edge>, i: nat, j: nat, g: nat, h: nat)
    requires Grouping(components, groups, edges) && i < |components| && j < |components|
    requires g in components[i] && h in components[j]
    ensures i == j <==> Connected(edges, g, h)
  {
    hide Connected;
    var a, b := components[i][0], components[j][0];
    assert Block(components[i], groups, edges) && Block(components[j], groups, edges);
    ConnectedSym(edges, a, g);
    if i == j {
      ConnectedTrans(edges, g, a, h);
    }
    if Connected(edges, g, h) {
      ConnectedSym(edges, b, h);
      ConnectedTrans(edges, a, g, h);
      ConnectedTrans(edges, a, h, b);
      ConnectedSym(edges, a, b);
      assert b in components[j] && a in components[i];
      assert b in components[i] && a in components[j];
      HeadIsLeast(components[i], b);
      HeadIsLeast(components[j], a);
    }
  }

  lemma HeadIsLeast(c: seq<nat>, x: nat)
    requires c != [] && Ascending(c) && x in c
    ensures c[0] <= x
  {
  }

  /** A block is determined by any of its members, whatever order the edges come in. */
  lemma BlockUnique(c: seq<nat>, groups: seq<nat>, edges: seq<Edge>, c': seq<nat>, groups': seq<nat>, edges': seq<Edge>, g: nat)
    requires Block(c, groups, edges) && Block(c', groups', edges')
    requires SameEdges(edges, edges') && (forall x :: x in groups <==> x in groups')
    requires g in c && g in c'
    ensures c == c'
  {
    hide Connected;
    forall x ensures x in c <==> x in c' {
      if x in c {
        Reaches(c, groups, edges, g, x);
        ConnectedMonotone(edges, edges', g, x);
        ConnectedTrans(edges', c'[0], g, x);
      }
      if x in c' {
        Reaches(c', groups', edges', g, x);
        ConnectedMonotone(edges', edges, g, x);
        ConnectedTrans(edges, c[0], g, x);
      }
    }
    AscendingUnique(c, c');
  }

  lemma Reaches(c: seq<nat>, groups: seq<nat>, edges: seq<Edge>, g: nat, x: nat)
    requires Block(c, groups, edges) && g in c && x in c
    ensures Connected(edges, g, x)
  {
    hide Connected;
    ConnectedSym(edges, c[0], g);
    ConnectedTrans(edges, g, c[0], x);
  }

  function Heads(components: seq<seq<nat>>): (r: seq<nat>)
    requires forall i :: 0 <= i < |components| ==> components[i] != []
    ensures |r| == |components| && forall i :: 0 <= i < |r| ==> r[i] == components[i][0]
  {
    seq(|components|, i requires 0 <= i < |components| => components[i][0])
  }

  lemma HeadsIncluded(components: seq<seq<nat>>, groups: seq<nat>, edges: seq<Edge>, components': seq<seq<nat>>, groups': seq<nat>, edges': seq<Edge>)
    requires Grouping(components, groups, edges) && Grouping(components', groups', edges')
    requires SameEdges(edges, edges') && (forall x :: x in groups <==> x in groups')
    ensures forall x :: x in Heads(components) ==> x in Heads(components')
  {
    hide Connected, SameEdges;
    forall x | x in Heads(components) ensures x in Heads(components') {
      var i :| 0 <= i < |components| && components[i][0] == x;
      assert Block(components[i], groups, edges);
      assert x in components[i] && Covered(components', x);
      var j :| 0 <= j < |components'| && x in components'[j];
      BlockUnique(components[i], groups, edges, components'[j], groups', edges', x);
      assert Heads(components')[j] == x;
    }
  }

  /** The order of rows and edges, repeated edges and their direction do not matter: there is one
      grouping. */
  lemma GroupingUnique(components: seq<seq<nat>>, groups: seq<nat>, edges: seq<Edge>, components': seq<seq<nat>>, groups': seq<nat>, edges': seq<Edge>)
    requires Grouping(components, groups, edges) && Grouping(components', groups', edges')
    requires SameEdges(edges, edges') && (forall x :: x in groups <==> x in groups')
    ensures components == components'
  {
    hide Connected;
    HeadsIncluded(components, groups, edges, components', groups', edges');
    HeadsIncluded(components', groups', edges', components, groups, edges);
    AscendingUnique(Heads(components), Heads(components'));
    forall i | 0 <= i < |components| ensures components[i] == components'[i] {
      assert Heads(components)[i] == Heads(components')[i];
      assert Block(components[i], groups, edges) && Block(components'[i], groups', edges');
      assert components[i][0] in components[i] && components'[i][0] in components'[i];
      BlockUnique(components[i], groups, edges, components'[i], groups', edges', components[i][0]);
    }
  }

  // ---------------------------------------------------------------- building the components

  /** The edges that are applied: those between two groups that have rows. */
  function Kept(edges: seq<Edge>, groups: seq<nat>): (r: seq<Edge>)
    ensures forall e :: e in r <==> e in edges && e.0 in groups && e.1 in groups
  {
    if edges == [] then [] else
      var e := edges[|edges| - 1];
      Kept(edges[..|edges| - 1], groups) + if e.0 in groups && e.1 in groups then [e] else []
  }

  /** The elements of `ids` whose root is r, in order. */
  function Members(parent: Parents, ids: seq<nat>, r: nat): (m: seq<nat>)
    requires Ok(parent) && forall x :: x in ids ==> x in parent
    ensures forall x {:trigger x in m} {:trigger Rep(parent, x)} :: x in m <==> x in ids && Rep(parent, x) == r
  {
    if ids == [] then [] else
      var last := ids[|ids| - 1];
      assert ids == ids[..|ids| - 1] + [last];
      Members(parent, ids[..|ids| - 1], r) + if Rep(parent, last) == r then [last] else []
  }

  lemma {:induction false} MembersAscend(parent: Parents, ids: seq<nat>, r: nat)
    requires Ok(parent) && Ascending(ids) && forall x :: x in ids ==> x in parent
    ensures Ascending(Members(parent, ids, r))
  {
    if ids != [] {
      MembersAscend(parent, ids[..|ids| - 1], r);
      var m := Members(parent, ids[..|ids| - 1], r);
      forall i | 0 <= i < |m| ensures m[i] < ids[|ids| - 1] {
        assert m[i] in m && m[i] in ids[..|ids| - 1];
      }
    }
  }

  lemma {:induction false} MembersSame(parent: Parents, parent': Parents, ids: seq<nat>, r: nat)
    requires Ok(parent) && Ok(parent') && SameSets(parent, parent') && forall x :: x in ids ==> x in parent
    ensures forall x :: x in ids ==> x in parent'
    ensures Members(parent, ids, r) == Members(parent', ids, r)
  {
    hide Ok, Rep;
    if ids != [] {
      MembersSame(parent, parent', ids[..|ids| - 1], r);
      assert ids[|ids| - 1] in ids;
      assert Rep(parent, ids[|ids| - 1]) == Rep(parent', ids[|ids| - 1]);
    }
  }

  function Roots(parent: Parents, ids: seq<nat>): (r: seq<nat>)
    requires Ok(parent) && forall x :: x in ids ==> x in parent
    ensures |r| == |ids| && forall i {:trigger r[i]} :: 0 <= i < |r| ==> r[i] == Rep(parent, ids[i])
  {
    seq(|ids|, i requires 0 <= i < |ids| => Rep(parent, ids[i]))
  }

  function Grouped(parent: Parents, ids: seq<nat>): (c: seq<seq<nat>>)
    requires Ok(parent) && forall x :: x in ids ==> x in parent
    ensures var roots := SortedSet(Roots(parent, ids));
            |c| == |roots| && forall i :: 0 <= i < |c| ==> c[i] == Members(parent, ids, roots[i])
  {
    var roots := SortedSet(Roots(parent, ids));
    seq(|roots|, i requires 0 <= i < |roots| => Members(parent, ids, roots[i]))
  }

  lemma RootLeads(parent: Parents, ids: seq<nat>, g: nat)
    requires Ok(parent) && Ascending(ids) && (forall x :: x in ids <==> x in parent) && g in ids
    ensures var r := Rep(parent, g);
            var c := Members(parent, ids, r);
            g in c && r in c && Ascending(c) && c[0] == r
  {
    var r := Rep(parent, g);
    var c := Members(parent, ids, r);
    RepOfRep(parent, g);
    hide Ok, Rep;
    MembersAscend(parent, ids, r);
    assert g in c && r in c;
    hide Members;
    HeadIsLeast(c, r);
    assert c[0] in c;
    assert Rep(parent, c[0]) == r;
  }

  lemma MemberIff(parent: Parents, ids: seq<nat>, edges: seq<Edge>, r: nat, h: nat)
    requires Applied(parent, edges) && Ok(parent) && (forall x :: x in ids <==> x in parent)
    requires r in parent && Rep(parent, r) == r
    ensures h in Members(parent, ids, r) <==> h in ids && Connected(edges, r, h)
  {
    hide Ok, Rep, Connected, Applied;
    if h in ids {
      SameRepIffConnected(parent, edges, r, h);
    }
  }

  lemma GroupedBlock(parent: Parents, ids: seq<nat>, edges: seq<Edge>, g: nat)
    requires Applied(parent, edges) && Ok(parent) && Ascending(ids) && (forall x :: x in ids <==> x in parent)
    requires g in ids
    ensures var c := Members(parent, ids, Rep(parent, g));
            Block(c, ids, edges) && g in c && c[0] == Rep(parent, g)
  {
    hide Ok, Rep, Connected, Applied, Members;
    var r := Rep(parent, g);
    var c := Members(parent, ids, r);
    RepOfRep(parent, g);
    RootLeads(parent, ids, g);
    forall h ensures h in c <==> h in ids && Connected(edges, r, h) {
      MemberIff(parent, ids, edges, r, h);
    }
  }

  lemma AppliedOk(parent: Parents, edges: seq<Edge>)
    requires Applied(parent, edges)
    ensures Ok(parent)
  {
  }

  lemma RepOfRep(parent: Parents, x: nat)
    requires Ok(parent) && x in parent
    ensures Rep(parent, Rep(parent, x)) == Rep(parent, x)
  {
  }

  lemma GroupedAt(parent: Parents, ids: seq<nat>, edges: seq<Edge>, i: nat)
    requires Applied(parent, edges) && Ok(parent) && Ascending(ids) && (forall x :: x in ids <==> x in parent)
    requires i < |Grouped(parent, ids)|
    ensures var c := Grouped(parent, ids)[i];
            Block(c, ids, edges) && c != [] && c[0] == SortedSet(Roots(parent, ids))[i]
  {
    hide Ok, Rep, Connected, Applied;
    var rs := Roots(parent, ids);
    var r := SortedSet(rs)[i];
    assert r in SortedSet(rs);
    var k :| 0 <= k < |rs| && rs[k] == r;
    GroupedBlock(parent, ids, edges, ids[k]);
  }

  lemma GroupedCovers(parent: Parents, ids: seq<nat>, edges: seq<Edge>, g: nat)
    requires Applied(parent, edges) && Ok(parent) && Ascending(ids) && (forall x :: x in ids <==> x in parent)
    requires g in ids
    ensures Covered(Grouped(parent, ids), g)
  {
    hide Ok, Rep, Connected, Applied, Block;
    var rs := Roots(parent, ids);
    var k :| 0 <= k < |ids| && ids[k] == g;
    assert rs[k] in SortedSet(rs);
    var i :| 0 <= i < |SortedSet(rs)| && SortedSet(rs)[i] == rs[k];
    GroupedBlock(parent, ids, edges, g);
    assert g in Grouped(parent, ids)[i];
  }

  lemma GroupedIsGrouping(parent: Parents, ids: seq<nat>, edges: seq<Edge>)
    requires Applied(parent, edges) && Ok(parent) && Ascending(ids) && (forall x :: x in ids <==> x in parent)
    ensures Grouping(Grouped(parent, ids), ids, edges)
  {
    hide Ok, Rep, Connected, Applied, Block, Covered;
    var c := Grouped(parent, ids);
    var heads := SortedSet(Roots(parent, ids));
    assert |c| == |heads|;
    forall i | 0 <= i < |c| ensures Block(c[i], ids, edges) && c[i] != [] && c[i][0] == heads[i] {
      GroupedAt(parent, ids, edges, i);
    }
    forall g | g in ids ensures Covered(c, g) {
      GroupedCovers(parent, ids, edges, g);
    }
    assert Ascending(heads);
    hide Grouped, Roots, SortedSet;
  }

  lemma KeptStep(edges: seq<Edge>, groups: seq<nat>, i: nat)
    requires i < |edges|
    ensures Kept(edges[..i + 1], groups) == if edges[i].0 in groups && edges[i].1 in groups then Kept(edges[..i], groups) + [edges[i]] else Kept(edges[..i], groups)
  {
    assert edges[..i + 1][..i] == edges[..i];
  }

  lemma GroupStep(parent: Parents, ids: seq<nat>, g: nat)
    requires Ok(parent) && (forall x :: x in ids + [g] ==> x in parent)
    ensures forall x :: x in ids ==> x in parent
    ensures g in parent && Roots(parent, ids + [g]) == Roots(parent, ids) + [Rep(parent, g)]
    ensures forall r :: Members(parent, ids + [g], r) == if Rep(parent, g) == r then Members(parent, ids, r) + [g] else Members(parent, ids, r)
  {
    hide Ok, Rep;
    var all := ids + [g];
    assert g in all && forall x :: x in ids ==> x in all;
    assert all[..|all| - 1] == ids;
    assert Roots(parent, all) == Roots(parent, ids) + [Rep(parent, g)];
    forall r ensures Members(parent, all, r) == if Rep(parent, g) == r then Members(parent, ids, r) + [g] else Members(parent, ids, r) {
    }
  }

  lemma NoMembers(parent: Parents, ids: seq<nat>, r: nat)
    requires Ok(parent) && (forall x :: x in ids ==> x in parent) && r !in Roots(parent, ids)
    ensures Members(parent, ids, r) == []
  {
    hide Ok, Rep;
    var m := Members(parent, ids, r);
    assert m != [] ==> m[0] in m;
    forall x ensures x !in m {
      if x in ids {
        var k :| 0 <= k < |ids| && ids[k] == x;
        assert Roots(parent, ids)[k] in Roots(parent, ids);
      }
    }
  }

  /** The first i edges have been applied to the groups. */
  ghost predicate AppliedUpTo(parent0: Parents, parent: Parents, edges: seq<Edge>, groups: seq<nat>, i: nat)
    requires i <= |edges|
  {
    SameKeys(parent0, parent) && Applied(parent, Kept(edges[..i], groups))
  }

  lemma NoneApplied(parent: Parents, edges: seq<Edge>, groups: seq<nat>)
    requires Ok(parent) && forall x :: x in parent ==> Rep(parent, x) == x
    ensures AppliedUpTo(parent, parent, edges, groups, 0)
  {
    AppliedNone(parent);
    hide Ok, Rep, Applied;
    assert edges[..0] == [];
  }

  lemma SkipOne(parent0: Parents, parent: Parents, edges: seq<Edge>, groups: seq<nat>, i: nat)
    requires i < |edges| && AppliedUpTo(parent0, parent, edges, groups, i)
    requires (forall x :: x in parent0 <==> x in groups) && !(edges[i].0 in parent && edges[i].1 in parent)
    ensures AppliedUpTo(parent0, parent, edges, groups, i + 1)
  {
    hide Applied, Kept;
    KeptStep(edges, groups, i);
  }

  lemma UnionOne(parent0: Parents, parent: Parents, parent': Parents, edges: seq<Edge>, groups: seq<nat>, i: nat)
    requires i < |edges| && Ok(parent) && Ok(parent') && AppliedUpTo(parent0, parent, edges, groups, i)
    requires (forall x :: x in parent0 <==> x in groups) && edges[i].0 in parent && edges[i].1 in parent
    requires Merged(parent, parent', edges[i].0, edges[i].1)
    ensures AppliedUpTo(parent0, parent', edges, groups, i + 1)
  {
    hide Ok, Rep, Applied, Kept, Merged;
    KeptStep(edges, groups, i);
    AppliedMore(parent, parent', Kept(edges[..i], groups), edges[i]);
    MergedKeys(parent, parent', edges[i].0, edges[i].1);
    SameKeysTrans(parent0, parent, parent');
  }

  method ApplyEdges(uf: DisjointSets, edges: seq<Edge>, groups: seq<nat>)
    requires Ok(uf.parent) && (forall x :: x in uf.parent <==> x in groups)
    requires forall x :: x in uf.parent ==> Rep(uf.parent, x) == x
    modifies uf
    ensures Applied(uf.parent, Kept(edges, groups)) && SameKeys(old(uf.parent), uf.parent)
  {
    hide Ok, Rep, Merged, AppliedUpTo, Kept;
    NoneApplied(uf.parent, edges, groups);
    var i := 0;
    while i < |edges|
      invariant 0 <= i <= |edges|
      invariant Ok(uf.parent) && AppliedUpTo(old(uf.parent), uf.parent, edges, groups, i)
    {
      var e := edges[i];
      if e.0 in uf.parent && e.1 in uf.parent {
        ghost var before := uf.parent;
        uf.Union(e.0, e.1);
        UnionOne(old(uf.parent), before, uf.parent, edges, groups, i);
      } else {
        SkipOne(old(uf.parent), uf.parent, edges, groups, i);
      }
      i := i + 1;
    }
    AllApplied(old(uf.parent), uf.parent, edges, groups);
  }

  lemma AllApplied(parent0: Parents, parent: Parents, edges: seq<Edge>, groups: seq<nat>)
    requires AppliedUpTo(parent0, parent, edges, groups, |edges|)
    ensures SameKeys(parent0, parent) && Applied(parent, Kept(edges, groups))
  {
    hide Applied;
    assert edges[..|edges|] == edges;
  }

  lemma MergedKeys(parent: Parents, parent': Parents, x: nat, y: nat)
    requires Ok(parent) && Ok(parent') && x in parent && y in parent && Merged(parent, parent', x, y)
    ensures SameKeys(parent, parent')
  {
  }

  method InOrder(byRoot: map<nat, seq<nat>>, roots: seq<nat>) returns (components: seq<seq<nat>>)
    requires forall r :: r in roots ==> r in byRoot
    ensures |components| == |roots| && forall k :: 0 <= k < |roots| ==> components[k] == byRoot[roots[k]]
  {
    components := [];
    var i := 0;
    while i < |roots|
      invariant 0 <= i <= |roots| && |components| == i
      invariant forall k :: 0 <= k < i ==> components[k] == byRoot[roots[k]]
    {
      components := components + [byRoot[roots[i]]];
      i := i + 1;
    }
  }

  /** The dictionary holds, for each root met so far, its members so far; `order` lists its keys. */
  ghost predicate Collected(parent: Parents, ids: seq<nat>, byRoot: map<nat, seq<nat>>, order: seq<nat>)
    requires Ok(parent) && forall x :: x in ids ==> x in parent
  {
    && (forall r :: r in order <==> r in byRoot)
    && (forall r :: r in order <==> r in Roots(parent, ids))
    && (forall r {:trigger byRoot[r]} :: r in byRoot ==> byRoot[r] == Members(parent, ids, r))
  }

  lemma CollectOne(parent: Parents, ids: seq<nat>, g: nat, byRoot: map<nat, seq<nat>>, order: seq<nat>, more: seq<nat>)
    requires Ok(parent) && (forall x :: x in more ==> x in parent) && (forall x :: x in ids ==> x in parent)
    requires more == ids + [g] && g in parent && Collected(parent, ids, byRoot, order)
    ensures var root := Rep(parent, g);
            Collected(parent, more, byRoot[root := (if root in byRoot then byRoot[root] else []) + [g]],
                      if root in byRoot then order else order + [root])
  {
    hide Ok, Rep, Members;
    GroupStep(parent, ids, g);
    var root := Rep(parent, g);
    var byRoot' := byRoot[root := (if root in byRoot then byRoot[root] else []) + [g]];
    var order' := if root in byRoot then order else order + [root];
    KeysCollected(Roots(parent, ids), root, byRoot, byRoot', order, order');
    hide Roots;
    forall r | r in byRoot' ensures byRoot'[r] == Members(parent, more, r) {
      ValueCollected(parent, ids, g, byRoot, order, more, r);
    }
  }

  lemma ValueCollected(parent: Parents, ids: seq<nat>, g: nat, byRoot: map<nat, seq<nat>>, order: seq<nat>, more: seq<nat>, r: nat)
    requires Ok(parent) && (forall x :: x in more ==> x in parent) && (forall x :: x in ids ==> x in parent)
    requires more == ids + [g] && g in parent && Collected(parent, ids, byRoot, order)
    requires r in byRoot || r == Rep(parent, g)
    ensures var root := Rep(parent, g);
            byRoot[root := (if root in byRoot then byRoot[root] else []) + [g]][r] == Members(parent, more, r)
  {
    GroupStep(parent, ids, g);
    MemberCollected(parent, ids, byRoot, order, r);
    hide Ok, Rep, Members, Roots, Collected;
  }

  lemma MemberCollected(parent: Parents, ids: seq<nat>, byRoot: map<nat, seq<nat>>, order: seq<nat>, r: nat)
    requires Ok(parent) && (forall x :: x in ids ==> x in parent) && Collected(parent, ids, byRoot, order)
    ensures Members(parent, ids, r) == if r in byRoot then byRoot[r] else []
  {
    hide Ok, Rep, Members;
    if r !in byRoot {
      NoMembers(parent, ids, r);
    } else {
      assert byRoot[r] == Members(parent, ids, r);
    }
  }

  lemma KeysCollected(roots: seq<nat>, root: nat, byRoot: map<nat, seq<nat>>, byRoot': map<nat, seq<nat>>, order: seq<nat>, order': seq<nat>)
    requires forall r :: (r in order <==> r in byRoot) && (r in order <==> r in roots)
    requires forall r :: r in byRoot' <==> r in byRoot || r == root
    requires order' == if root in byRoot then order else order + [root]
    ensures forall r :: (r in order' <==> r in byRoot') && (r in order' <==> r in roots + [root])
  {
    forall r ensures (r in order' <==> r in byRoot') && (r in order' <==> r in roots + [root]) {
      assert r in order' <==> r in order || r == root;
      assert r in roots + [root] <==> r in roots || r == root;
    }
  }

  lemma CollectedInOrder(parent: Parents, ids: seq<nat>, byRoot: map<nat, seq<nat>>, order: seq<nat>)
    requires Ok(parent) && (forall x :: x in ids ==> x in parent) && Collected(parent, ids, byRoot, order)
    ensures var roots := SortedSet(order);
            && (forall r :: r in roots ==> r in byRoot)
            && |Grouped(parent, ids)| == |roots|
            && forall k :: 0 <= k < |roots| ==> Grouped(parent, ids)[k] == byRoot[roots[k]]
  {
    hide Ok, Rep, Members;
    var roots := SortedSet(order);
    AscendingUnique(roots, SortedSet(Roots(parent, ids)));
    forall k | 0 <= k < |roots| ensures roots[k] in byRoot {
      assert roots[k] in roots;
    }
  }

  method GroupByRoot(uf: DisjointSets, groups: seq<nat>) returns (components: seq<seq<nat>>)
    requires Ok(uf.parent) && forall x :: x in groups ==> x in uf.parent
    modifies uf
    ensures components == Grouped(old(uf.parent), groups)
  {
    hide Ok, Rep, Collected;
    ghost var p := uf.parent;
    var byRoot: map<nat, seq<nat>> := map[];
    var order: seq<nat> := [];
    assert Collected(p, groups[..0], byRoot, order) by { NothingCollected(p); }
    var i := 0;
    while i < |groups|
      invariant 0 <= i <= |groups|
      invariant p == old(uf.parent) && Ok(uf.parent) && SameSets(p, uf.parent)
      invariant Collected(p, groups[..i], byRoot, order)
    {
      var g := groups[i];
      assert groups[..i + 1] == groups[..i] + [g];
      ghost var before := uf.parent;
      var root := uf.Find(g);
      SameSetsTrans(p, before, uf.parent);
      CollectOne(p, groups[..i], g, byRoot, order, groups[..i + 1]);
      if root !in byRoot {
        order := order + [root];
      }
      byRoot := byRoot[root := (if root in byRoot then byRoot[root] else []) + [g]];
      i := i + 1;
    }
    assert groups[..i] == groups;
    CollectedInOrder(p, groups, byRoot, order);
    components := InOrder(byRoot, SortedSet(order));
  }

  lemma NothingCollected(parent: Parents)
    requires Ok(parent)
    ensures Collected(parent, [], map[], [])
  {
  }

  method Build(rows: seq<Row>, edges: seq<Edge>) returns (components: seq<seq<nat>>)
    ensures var groups := SortedSet(GroupIds(rows)); Grouping(components, groups, Kept(edges, groups))
  {
    hide Ok, Rep, Applied;
    var groups := SortedSet(GroupIds(rows));
    var uf := new DisjointSets(groups);
    ApplyEdges(uf, edges, groups);
    AppliedOk(uf.parent, Kept(edges, groups));
    GroupedIsGrouping(uf.parent, groups, Kept(edges, groups));
    components := GroupByRoot(uf, groups);
  }
}
