/** The disjoint-set structure shared by the split builder and the near-duplicate pipeline. Ids are
    numbered in their string order, so the smaller id becomes the root of a union. */
module UnionFind {

  type Parents = map<nat, nat>

  /** Links never go up, so following them ends. */
  ghost predicate Ok(parent: Parents) {
    forall x {:trigger parent[x]} :: x in parent ==> parent[x] in parent && parent[x] <= x
  }

  function Rep(parent: Parents, x: nat): (r: nat)
    requires Ok(parent) && x in parent
    ensures r <= x && r in parent && parent[r] == r
    decreases x
  {
    if parent[x] == x then x else Rep(parent, parent[x])
  }

  ghost predicate SameKeys(a: Parents, b: Parents) {
    forall x :: x in a <==> x in b
  }

  /** Same elements, same representatives. */
  ghost predicate SameSets(a: Parents, b: Parents)
    requires Ok(a) && Ok(b)
  {
    SameKeys(a, b) && forall x {:trigger Rep(a, x)} {:trigger Rep(b, x)} :: x in a ==> Rep(a, x) == Rep(b, x)
  }

  lemma LinkOk(parent: Parents, x: nat, v: nat)
    requires Ok(parent) && x in parent && v in parent && v <= x
    ensures Ok(parent[x := v]) && SameKeys(parent, parent[x := v])
  {
    var parent' := parent[x := v];
    forall y | y in parent' ensures parent'[y] in parent' && parent'[y] <= y {
      assert y == x || parent'[y] == parent[y];
    }
  }

  lemma {:induction false} CompressRep(parent: Parents, x: nat, y: nat)
    requires Ok(parent) && x in parent && y in parent
    requires Ok(parent[x := Rep(parent, x)])
    ensures Rep(parent[x := Rep(parent, x)], y) == Rep(parent, y)
    decreases y
  {
    if y != x && parent[y] != y {
      CompressRep(parent, x, parent[y]);
    }
  }

  lemma CompressKeepsSets(parent: Parents, x: nat)
    requires Ok(parent) && x in parent
    ensures Ok(parent[x := Rep(parent, x)]) && SameSets(parent, parent[x := Rep(parent, x)])
  {
    hide Rep;
    var parent' := parent[x := Rep(parent, x)];
    LinkOk(parent, x, Rep(parent, x));
    hide Ok;
    forall y | y in parent ensures Rep(parent, y) == Rep(parent', y) {
      CompressRep(parent, x, y);
    }
  }

  lemma {:induction false} LinkRep(parent: Parents, a: nat, b: nat, y: nat)
    requires Ok(parent) && a in parent && b in parent && y in parent
    requires a < b && parent[a] == a && parent[b] == b && Ok(parent[b := a])
    ensures Rep(parent[b := a], y) == if Rep(parent, y) == b then a else Rep(parent, y)
    decreases y
  {
    if parent[y] != y {
      LinkRep(parent, a, b, parent[y]);
    }
  }

  /** Where the representative of z goes when the sets of x and y merge: the smaller root wins. */
  function MergedRep(parent: Parents, x: nat, y: nat, z: nat): nat
    requires Ok(parent) && x in parent && y in parent && z in parent
  {
    var rx, ry, rz := Rep(parent, x), Rep(parent, y), Rep(parent, z);
    if rz == rx || rz == ry then if rx < ry then rx else ry else rz
  }

  /** The sets of x and y merged, and every other set left alone. */
  ghost predicate Merged(parent: Parents, parent': Parents, x: nat, y: nat)
    requires Ok(parent) && Ok(parent') && x in parent && y in parent
  {
    && SameKeys(parent, parent')
    && forall z {:trigger Rep(parent', z)} {:trigger Rep(parent, z)} :: z in parent ==> Rep(parent', z) == MergedRep(parent, x, y, z)
  }

  lemma LinkMerges(parent: Parents, parent': Parents, x: nat, y: nat)
    requires Ok(parent) && x in parent && y in parent
    requires var a, b := Rep(parent, x), Rep(parent, y);
             parent' == if a < b then parent[b := a] else if b < a then parent[a := b] else parent
    ensures Ok(parent') && Merged(parent, parent', x, y)
  {
    hide Rep, Ok;
    var a, b := Rep(parent, x), Rep(parent, y);
    if a < b {
      LinkOk(parent, b, a);
    } else if b < a {
      LinkOk(parent, a, b);
    }
    forall z | z in parent
      ensures Rep(parent', z) == MergedRep(parent, x, y, z)
    {
      if a < b {
        LinkRep(parent, a, b, z);
      } else if b < a {
        LinkRep(parent, b, a, z);
      }
    }
  }

  lemma SameKeysTrans(a: Parents, b: Parents, c: Parents)
    requires SameKeys(a, b) && SameKeys(b, c)
    ensures SameKeys(a, c)
  {
    forall x ensures x in a <==> x in c {
      assert x in a <==> x in b;
    }
  }

  lemma SameSetsTrans(a: Parents, b: Parents, c: Parents)
    requires Ok(a) && Ok(b) && Ok(c) && SameSets(a, b) && SameSets(b, c)
    ensures SameSets(a, c)
  {
    hide Ok, Rep;
  }

  lemma MergedAfter(a: Parents, b: Parents, c: Parents, x: nat, y: nat)
    requires Ok(a) && Ok(b) && Ok(c) && SameSets(a, b) && x in a && y in a && x in b && y in b && Merged(b, c, x, y)
    ensures Merged(a, c, x, y)
  {
    hide Ok, Rep;
    SameKeysTrans(a, b, c);
    forall z | z in a ensures Rep(c, z) == MergedRep(a, x, y, z) {
      assert z in b && MergedRep(b, x, y, z) == MergedRep(a, x, y, z);
    }
  }

  class DisjointSets {
    var parent: Parents

    constructor (elements: seq<nat>)
      ensures Ok(parent) && (forall x :: x in parent <==> x in elements)
      ensures forall x :: x in parent ==> Rep(parent, x) == x
    {
      parent := map x | x in elements :: x;
    }

    /** Recursive find with path compression: the sets do not change. */
    method Find(x: nat) returns (r: nat)
      requires Ok(parent) && x in parent
      modifies this
      ensures Ok(parent) && SameSets(old(parent), parent)
      ensures r == Rep(old(parent), x) && parent[x] == r
      decreases x
    {
      ghost var p0 := parent;
      if parent[x] != x {
        var root := Find(parent[x]);
        ghost var p1 := parent;
        assert root == Rep(p0, x) by { assert x in p0; }
        assert x in p1 && Rep(p1, x) == root by { hide Rep, Ok; }
        CompressKeepsSets(p1, x);
        parent := parent[x := root];
        SameSetsTrans(p0, p1, parent);
      }
      r := parent[x];
    }

    method Union(x: nat, y: nat)
      requires Ok(parent) && x in parent && y in parent
      modifies this
      ensures Ok(parent) && Merged(old(parent), parent, x, y)
    {
      hide Ok, Rep, Merged;
      ghost var p0 := parent;
      var rx := Find(x);
      ghost var p1 := parent;
      var ry := Find(y);
      ghost var p2 := parent;
      SameSetsTrans(p0, p1, p2);
      if rx < ry {
        parent := parent[ry := rx];
      } else if ry < rx {
        parent := parent[rx := ry];
      }
      LinkMerges(p2, parent, x, y);
      MergedAfter(p0, p2, parent, x, y);
    }
  }

  // ---------------------------------------------------------------- connectivity

  type Edge = (nat, nat)

  ghost predicate Adjacent(edges: seq<Edge>, a: nat, b: nat) {
    (a, b) in edges || (b, a) in edges
  }

  ghost predicate IsPath(edges: seq<Edge>, p: seq<nat>) {
    p != [] && forall i :: 0 <= i < |p| - 1 ==> Adjacent(edges, p[i], p[i + 1])
  }

  ghost predicate PathBetween(edges: seq<Edge>, p: seq<nat>, x: nat, y: nat) {
    IsPath(edges, p) && p[0] == x && p[|p| - 1] == y
  }

  ghost predicate Connected(edges: seq<Edge>, x: nat, y: nat) {
    exists p :: PathBetween(edges, p, x, y)
  }

  lemma ConnectedSelf(edges: seq<Edge>, x: nat)
    ensures Connected(edges, x, x)
  {
    assert PathBetween(edges, [x], x, x);
  }

  lemma ConnectedEdge(edges: seq<Edge>, x: nat, y: nat)
    requires Adjacent(edges, x, y)
    ensures Connected(edges, x, y)
  {
    assert PathBetween(edges, [x, y], x, y);
  }

  lemma ConnectedTrans(edges: seq<Edge>, x: nat, y: nat, z: nat)
    requires Connected(edges, x, y) && Connected(edges, y, z)
    ensures Connected(edges, x, z)
  {
    var p :| PathBetween(edges, p, x, y);
    var q :| PathBetween(edges, q, y, z);
    var r := p + q[1..];
    forall i | 0 <= i < |r| - 1 ensures Adjacent(edges, r[i], r[i + 1]) {
      if i < |p| - 1 {
        assert Adjacent(edges, p[i], p[i + 1]);
      } else {
        assert r[i] == q[i - |p| + 1];
        assert Adjacent(edges, q[i - |p| + 1], q[i - |p| + 2]);
      }
    }
    assert PathBetween(edges, r, x, z);
  }

  lemma ConnectedSym(edges: seq<Edge>, x: nat, y: nat)
    requires Connected(edges, x, y)
    ensures Connected(edges, y, x)
  {
    var p :| PathBetween(edges, p, x, y);
    var r := seq(|p|, i requires 0 <= i < |p| => p[|p| - 1 - i]);
    forall i | 0 <= i < |r| - 1 ensures Adjacent(edges, r[i], r[i + 1]) {
      assert Adjacent(edges, p[|p| - 2 - i], p[|p| - 2 - i + 1]);
    }
    assert PathBetween(edges, r, y, x);
  }

  lemma ConnectedMonotone(edges: seq<Edge>, more: seq<Edge>, x: nat, y: nat)
    requires forall e :: e in edges ==> e in more || (e.1, e.0) in more
    requires Connected(edges, x, y)
    ensures Connected(more, x, y)
  {
    var p :| PathBetween(edges, p, x, y);
    forall i | 0 <= i < |p| - 1 ensures Adjacent(more, p[i], p[i + 1]) {
      assert Adjacent(edges, p[i], p[i + 1]);
    }
    assert PathBetween(more, p, x, y);
  }

  // ---------------------------------------------------------------- representatives and paths

  ghost predicate Joined(parent: Parents, e: Edge)
    requires Ok(parent)
  {
    e.0 in parent && e.1 in parent && Rep(parent, e.0) == Rep(parent, e.1)
  }

  /** The structure after applying `edges`: joined ends share a root, and a root is reachable. */
  ghost predicate Applied(parent: Parents, edges: seq<Edge>) {
    && Ok(parent)
    && (forall e :: e in edges ==> Joined(parent, e))
    && (forall x {:trigger Rep(parent, x)} :: x in parent ==> Connected(edges, x, Rep(parent, x)))
  }

  lemma AppliedNone(parent: Parents)
    requires Ok(parent) && forall x :: x in parent ==> Rep(parent, x) == x
    ensures Applied(parent, [])
  {
    forall x | x in parent ensures Connected([], x, Rep(parent, x)) {
      ConnectedSelf([], x);
    }
  }

  lemma JoinedStays(parent: Parents, parent': Parents, f: Edge, e: Edge)
    requires Ok(parent) && Ok(parent') && e.0 in parent && e.1 in parent
    requires Merged(parent, parent', e.0, e.1) && (Joined(parent, f) || f == e)
    ensures Joined(parent', f)
  {
    hide Ok, Rep;
  }

  /** One union applies one more edge. */
  lemma AppliedMore(parent: Parents, parent': Parents, edges: seq<Edge>, e: Edge)
    requires Applied(parent, edges) && Ok(parent') && e.0 in parent && e.1 in parent
    requires Merged(parent, parent', e.0, e.1)
    ensures Applied(parent', edges + [e])
  {
    hide Ok, Rep, Connected, Joined;
    var more := edges + [e];
    forall f | f in more ensures Joined(parent', f) {
      JoinedStays(parent, parent', f, e);
    }
    forall x | x in parent' ensures Connected(more, x, Rep(parent', x)) {
      assert x in parent;
      ReachesNewRoot(parent, edges, e, x);
    }
    hide Merged;
  }

  lemma ReachesNewRoot(parent: Parents, edges: seq<Edge>, e: Edge, x: nat)
    requires Applied(parent, edges) && x in parent && e.0 in parent && e.1 in parent
    ensures var more, rx, r0, r1 := edges + [e], Rep(parent, x), Rep(parent, e.0), Rep(parent, e.1);
            && Connected(more, x, rx)
            && (rx == r0 || rx == r1 ==> Connected(more, x, r0) && Connected(more, x, r1))
  {
    hide Ok, Rep, Connected;
    var more, rx, r0, r1 := edges + [e], Rep(parent, x), Rep(parent, e.0), Rep(parent, e.1);
    assert forall f :: f in edges ==> f in more;
    ConnectedMonotone(edges, more, x, rx);
    ConnectedMonotone(edges, more, e.0, r0);
    ConnectedMonotone(edges, more, e.1, r1);
    assert e in more;
    ConnectedEdge(more, e.0, e.1);
    ConnectedSym(more, e.0, e.1);
    ConnectedSym(more, e.0, r0);
    ConnectedSym(more, e.1, r1);
    if rx == r0 {
      ConnectedTrans(more, x, r0, e.0);
      ConnectedTrans(more, x, e.0, e.1);
      ConnectedTrans(more, x, e.1, r1);
    } else if rx == r1 {
      ConnectedTrans(more, x, r1, e.1);
      ConnectedTrans(more, x, e.1, e.0);
      ConnectedTrans(more, x, e.0, r0);
    }
  }

  lemma {:induction false} RepAlongPath(parent: Parents, edges: seq<Edge>, p: seq<nat>)
    requires Applied(parent, edges) && IsPath(edges, p) && p[0] in parent
    ensures p[|p| - 1] in parent && Rep(parent, p[|p| - 1]) == Rep(parent, p[0])
    decreases |p|
  {
    hide Ok, Rep, Connected;
    if |p| > 1 {
      assert Adjacent(edges, p[0], p[0 + 1]);
      var q := p[1..];
      forall i | 0 <= i < |q| - 1 ensures Adjacent(edges, q[i], q[i + 1]) {
        assert Adjacent(edges, p[i + 1], p[i + 1 + 1]);
      }
      RepAlongPath(parent, edges, q);
    }
  }

  /** Two elements share a representative exactly when the applied edges connect them. */
  lemma SameRepIffConnected(parent: Parents, edges: seq<Edge>, x: nat, y: nat)
    requires Applied(parent, edges) && x in parent && y in parent
    ensures Rep(parent, x) == Rep(parent, y) <==> Connected(edges, x, y)
  {
    if Rep(parent, x) == Rep(parent, y) {
      ConnectedSym(edges, y, Rep(parent, y));
      ConnectedTrans(edges, x, Rep(parent, x), y);
    }
    if Connected(edges, x, y) {
      var p :| PathBetween(edges, p, x, y);
      RepAlongPath(parent, edges, p);
    }
  }

  /** A representative is the least element of its component. */
  lemma RepIsLeast(parent: Parents, edges: seq<Edge>, x: nat, y: nat)
    requires Applied(parent, edges) && x in parent && Connected(edges, x, y)
    ensures y in parent && Rep(parent, x) <= y && Connected(edges, x, Rep(parent, x))
  {
    var p :| PathBetween(edges, p, x, y);
    RepAlongPath(parent, edges, p);
  }

  ghost predicate SameEdges(a: seq<Edge>, b: seq<Edge>) {
    && (forall e :: e in a ==> e in b || (e.1, e.0) in b)
    && (forall e :: e in b ==> e in a || (e.1, e.0) in a)
  }

  /** Neither the order, the repetition nor the direction of the edges matters. */
  lemma RepIndependentOfOrder(parent: Parents, a: seq<Edge>, parent': Parents, b: seq<Edge>, x: nat)
    requires Applied(parent, a) && Applied(parent', b) && SameEdges(a, b)
    requires x in parent && x in parent'
    ensures Rep(parent, x) == Rep(parent', x)
  {
    hide Ok, Rep, Connected;
    ConnectedMonotone(a, b, x, Rep(parent, x));
    RepIsLeast(parent', b, x, Rep(parent, x));
    ConnectedMonotone(b, a, x, Rep(parent', x));
    RepIsLeast(parent, a, x, Rep(parent', x));
  }
}
