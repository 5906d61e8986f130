/** From rows and components to a dev/test assignment with its counts. */
module SplitAssign {
  import opened UnionFind
  import opened Components
  import opened SplitLeak
  import opened SplitSearch

  // ---------------------------------------------------------------- sums of stratum counts

  ghost function SumOver<T>(f: T -> multiset<string>, s: seq<T>): multiset<string> {
    if s == [] then multiset{} else SumOver(f, s[..|s| - 1]) + f(s[|s| - 1])
  }

  lemma {:induction false} SumOverCut<T>(f: T -> multiset<string>, a: seq<T>, b: seq<T>)
    ensures SumOver(f, a + b) == SumOver(f, a) + SumOver(f, b)
  {
    if b == [] {
      assert a + b == a;
    } else {
      SumOverCut(f, a, b[..|b| - 1]);
      assert (a + b)[..|a + b| - 1] == a + b[..|b| - 1];
    }
  }

  ghost predicate Permuted<T(!new)>(a: seq<T>, b: seq<T>) {
    forall x :: multiset(a)[x] == multiset(b)[x]
  }

  lemma {:induction false} SumOverPermuted<T(!new)>(f: T -> multiset<string>, a: seq<T>, b: seq<T>)
    requires Permuted(a, b)
    ensures SumOver(f, a) == SumOver(f, b)
    decreases |a|
  {
    if a == [] {
      EmptyIfPermuted(a, b);
    } else {
      var x, rest := a[|a| - 1], a[..|a| - 1];
      assert a == rest + [x];
      var left, right := TakeOut(b, x);
      PermutedRest(rest, x, left, right);
      SumOverPermuted(f, rest, left + right);
      SumOverCut(f, left, right);
      SumOverCut(f, left + [x], right);
      assert (left + [x])[..|left|] == left;
    }
  }

  lemma EmptyIfPermuted<T(!new)>(a: seq<T>, b: seq<T>)
    requires Permuted(a, b) && a == []
    ensures b == []
  {
    assert b != [] ==> multiset(b)[b[0]] > 0;
    assert b != [] ==> multiset(a)[b[0]] == 0;
  }

  lemma TakeOut<T>(b: seq<T>, x: T) returns (left: seq<T>, right: seq<T>)
    requires multiset(b)[x] > 0
    ensures b == left + [x] + right
  {
    assert x in b;
    var i :| 0 <= i < |b| && b[i] == x;
    left, right := b[..i], b[i + 1..];
  }

  lemma PermutedRest<T(!new)>(rest: seq<T>, x: T, left: seq<T>, right: seq<T>)
    requires Permuted(rest + [x], left + [x] + right)
    ensures Permuted(rest, left + right)
  {
    forall y ensures multiset(rest)[y] == multiset(left + right)[y] {
      assert multiset(rest + [x])[y] == multiset(left + [x] + right)[y];
    }
  }

  lemma {:induction false} SumOverSplit<T>(f: T -> multiset<string>, g: T -> multiset<string>, h: T -> multiset<string>, s: seq<T>)
    requires forall x :: x in s ==> f(x) == g(x) + h(x)
    ensures SumOver(f, s) == SumOver(g, s) + SumOver(h, s)
  {
    if s != [] {
      SumOverSplit(f, g, h, s[..|s| - 1]);
      assert s[|s| - 1] in s;
    }
  }

  // ---------------------------------------------------------------- rows per component

  ghost function InComponent(component: seq<nat>): Row -> multiset<string> {
    (r: Row) => if r.group in component then multiset{r.stratum} else multiset{}
  }

  /** The strata of the rows of one component. */
  ghost function StrataOf(component: seq<nat>, rows: seq<Row>): multiset<string> {
    SumOver(InComponent(component), rows)
  }

  /** The order of the rows does not matter. */
  lemma StrataOfPermuted(component: seq<nat>, rows: seq<Row>, rows': seq<Row>)
    requires Permuted(rows, rows')
    ensures StrataOf(component, rows) == StrataOf(component, rows')
  {
    SumOverPermuted(InComponent(component), rows, rows');
  }

  ghost predicate Placed(components: seq<seq<nat>>, rows: seq<Row>) {
    Disjoint(components) && forall i :: 0 <= i < |rows| ==> Covered(components, rows[i].group)
  }

  ghost function AllStrata(rows: seq<Row>): multiset<string> {
    SumOver((r: Row) => multiset{r.stratum}, rows)
  }

  /** Component by component, counting each row once. */
  method CountRows(components: seq<seq<nat>>, rows: seq<Row>) returns (counts: seq<multiset<string>>)
    requires Placed(components, rows)
    ensures |counts| == |components| && forall i :: 0 <= i < |counts| ==> counts[i] == StrataOf(components[i], rows)
  {
    hide StrataOf, Placed, Owners, Covered;
    assert Disjoint(components) && forall i :: 0 <= i < |rows| ==> Covered(components, rows[i].group) by {
      PlacedRows(components, rows);
    }
    var owner := GroupToComponent(components);
    counts := seq(|components|, _ => multiset{});
    NoRows(components);
    assert rows[..0] == [];
    for n := 0 to |rows|
      invariant |counts| == |components|
      invariant forall i :: 0 <= i < |counts| ==> counts[i] == StrataOf(components[i], rows[..n])
    {
      var c := OwnerOf(components, owner, rows[n].group);
      OneMoreRow(components, rows, n, c);
      counts := counts[c := counts[c] + multiset{rows[n].stratum}];
    }
    assert rows[..|rows|] == rows;
  }

  lemma NoRows(components: seq<seq<nat>>)
    ensures forall i :: 0 <= i < |components| ==> StrataOf(components[i], []) == multiset{}
  {
  }

  lemma PlacedRows(components: seq<seq<nat>>, rows: seq<Row>)
    requires Placed(components, rows)
    ensures Disjoint(components) && forall i :: 0 <= i < |rows| ==> Covered(components, rows[i].group)
  {
  }

  /** A row adds its stratum to its own component and to no other. */
  lemma OneMoreRow(components: seq<seq<nat>>, rows: seq<Row>, n: nat, c: nat)
    requires Disjoint(components) && n < |rows| && c < |components| && rows[n].group in components[c]
    ensures forall i :: 0 <= i < |components| ==>
                          StrataOf(components[i], rows[..n + 1]) == StrataOf(components[i], rows[..n]) + if i == c then multiset{rows[n].stratum} else multiset{}
  {
    assert rows[..n + 1][..n] == rows[..n];
  }

  /** The dictionary from groups to components. */
  ghost predicate Owners(components: seq<seq<nat>>, owner: map<nat, nat>) {
    forall i, g :: 0 <= i < |components| && g in components[i] ==> g in owner && owner[g] == i
  }

  function OwnerOf(components: seq<seq<nat>>, owner: map<nat, nat>, g: nat): (c: nat)
    requires Owners(components, owner) && Covered(components, g)
    ensures c < |components| && g in components[c]
  {
    owner[g]
  }

  method GroupToComponent(components: seq<seq<nat>>) returns (owner: map<nat, nat>)
    requires Disjoint(components)
    ensures Owners(components, owner)
  {
    owner := map[];
    for i := 0 to |components|
      invariant forall k, g :: 0 <= k < i && g in components[k] ==> g in owner && owner[g] == k
    {
      for j := 0 to |components[i]|
        invariant forall k, g :: 0 <= k < i && g in components[k] ==> g in owner && owner[g] == k
        invariant forall m :: 0 <= m < j ==> components[i][m] in owner && owner[components[i][m]] == i
      {
        assert components[i][j] in components[i];
        owner := owner[components[i][j] := i];
      }
    }
  }

  // ---------------------------------------------------------------- the assignment

  datatype Outcome =
    | Assigned(dev: seq<bool>, devStrata: multiset<string>, testStrata: multiset<string>)
    | TotalMismatch
    | QuotaInfeasible

  ghost function ComponentStrata(components: seq<seq<nat>>, rows: seq<Row>): (s: Strata) {
    seq(|components|, i requires 0 <= i < |components| => StrataOf(components[i], rows))
  }

  ghost function Upto(n: nat): (s: seq<nat>)
    ensures |s| == n && forall k :: 0 <= k < n ==> s[k] == k
  {
    if n == 0 then [] else Upto(n - 1) + [n - 1]
  }

  lemma {:induction false} UptoCounts(n: nat, x: nat)
    ensures multiset(Upto(n))[x] == if x < n then 1 else 0
  {
    if n > 0 {
      UptoCounts(n - 1, x);
    }
  }

  /** Sorting the component ids by their salted digest gives some order of the components. */
  ghost predicate IsOrder(salted: seq<nat>, n: nat) {
    |salted| == n && Permuted(salted, Upto(n))
  }

  lemma OrderInRange(salted: seq<nat>, n: nat, k: nat)
    requires IsOrder(salted, n) && k < n
    ensures salted[k] < n
  {
    assert salted[k] in multiset(salted);
    UptoCounts(n, salted[k]);
  }

  lemma OrderReaches(salted: seq<nat>, n: nat, i: nat) returns (k: nat)
    requires IsOrder(salted, n) && i < n
    ensures k < n && salted[k] == i
  {
    UptoCounts(n, i);
    assert multiset(salted)[i] == 1;
    assert i in salted;
    k :| 0 <= k < |salted| && salted[k] == i;
  }

  lemma CountedTwice(s: seq<nat>, lo: nat, hi: nat)
    requires lo < hi < |s| && s[lo] == s[hi]
    ensures multiset(s)[s[lo]] >= 2
  {
    assert s == s[..lo] + [s[lo]] + s[lo + 1..hi] + [s[lo]] + s[hi + 1..];
  }

  lemma OrderInjective(salted: seq<nat>, n: nat, j: nat, k: nat)
    requires IsOrder(salted, n) && j < n && k < n && salted[j] == salted[k]
    ensures j == k
  {
    var x := salted[j];
    UptoCounts(n, x);
    assert multiset(salted)[x] <= 1;
    var lo, hi := if j < k then j else k, if j < k then k else j;
    if lo < hi {
      CountedTwice(salted, lo, hi);
    }
  }

  /** The strata of the components in the salted order. */
  ghost function Salted(components: seq<seq<nat>>, rows: seq<Row>, salted: seq<nat>): (s: Strata)
    requires IsOrder(salted, |components|)
    ensures |s| == |components|
    ensures forall k :: 0 <= k < |s| ==> salted[k] < |components| && s[k] == StrataOf(components[salted[k]], rows)
  {
    assert forall k :: 0 <= k < |salted| ==> salted[k] < |components| by {
      forall k | 0 <= k < |salted| ensures salted[k] < |components| {
        OrderInRange(salted, |components|, k);
      }
    }
    seq(|salted|, k requires 0 <= k < |salted| => StrataOf(components[salted[k]], rows))
  }

  ghost predicate TakesPick(dev: seq<bool>, salted: seq<nat>, pick: Pick) {
    |pick| == |dev| == |salted| && forall k :: 0 <= k < |pick| ==> salted[k] < |dev| && dev[salted[k]] == pick[k]
  }

  /** The components of one side, each with its strata. */
  ghost function ComponentSide(strata: Strata, dev: seq<bool>, side: bool): nat -> multiset<string> {
    (i: nat) => if i < |dev| && i < |strata| && dev[i] == side then strata[i] else multiset{}
  }

  ghost predicate OnSide(components: seq<seq<nat>>, dev: seq<bool>, side: bool, g: nat) {
    exists i :: 0 <= i < |components| && i < |dev| && g in components[i] && dev[i] == side
  }

  /** The rows of one side, each with its stratum. */
  ghost function RowSide(components: seq<seq<nat>>, dev: seq<bool>, side: bool): Row -> multiset<string> {
    (r: Row) => if OnSide(components, dev, side, r.group) then multiset{r.stratum} else multiset{}
  }

  lemma {:induction false} OneTermGrows(f: nat -> multiset<string>, f': nat -> multiset<string>, d: multiset<string>, c: nat, n: nat)
    requires forall i: nat :: f'(i) == f(i) + if i == c then d else multiset{}
    ensures SumOver(f', Upto(n)) == SumOver(f, Upto(n)) + if c < n then d else multiset{}
  {
    if n > 0 {
      OneTermGrows(f, f', d, c, n - 1);
      assert Upto(n)[..n - 1] == Upto(n - 1);
    }
  }

  lemma {:induction false} AllEmpty(f: nat -> multiset<string>, n: nat)
    requires forall i: nat :: f(i) == multiset{}
    ensures SumOver(f, Upto(n)) == multiset{}
  {
    if n > 0 {
      AllEmpty(f, n - 1);
      assert Upto(n)[..n - 1] == Upto(n - 1);
    }
  }

  lemma NothingPerComponent(components: seq<seq<nat>>, dev: seq<bool>, side: bool)
    ensures forall i: nat :: ComponentSide(ComponentStrata(components, []), dev, side)(i) == multiset{}
  {
    NoRows(components);
  }

  /** The last row adds its stratum to its own component only. */
  lemma RowGrows(components: seq<seq<nat>>, rows: seq<Row>, dev: seq<bool>, side: bool) returns (c: nat)
    requires Placed(components, rows) && |dev| == |components| && rows != []
    ensures c < |dev|
    ensures var shorter, r := rows[..|rows| - 1], rows[|rows| - 1];
            var f0, f := ComponentSide(ComponentStrata(components, shorter), dev, side), ComponentSide(ComponentStrata(components, rows), dev, side);
            forall i: nat :: f(i) == f0(i) + if i == c then RowSide(components, dev, side)(r) else multiset{}
  {
    hide StrataOf;
    var n := |rows| - 1;
    var r := rows[n];
    assert Covered(components, r.group);
    c :| 0 <= c < |components| && r.group in components[c];
    OneMoreRow(components, rows, n, c);
    assert rows[..n + 1] == rows;
    assert OnSide(components, dev, side, r.group) <==> dev[c] == side;
  }

  /** Adding up the components of a side counts exactly the rows of that side. */
  lemma {:induction false} SidesAgree(components: seq<seq<nat>>, rows: seq<Row>, dev: seq<bool>, side: bool)
    requires Placed(components, rows) && |dev| == |components|
    ensures SumOver(ComponentSide(ComponentStrata(components, rows), dev, side), Upto(|dev|)) == SumOver(RowSide(components, dev, side), rows)
  {
    hide StrataOf, RowSide, ComponentSide;
    var f := ComponentSide(ComponentStrata(components, rows), dev, side);
    if rows == [] {
      NothingPerComponent(components, dev, side);
      AllEmpty(f, |dev|);
    } else {
      var n := |rows| - 1;
      var shorter, r := rows[..n], rows[n];
      SidesAgree(components, shorter, dev, side);
      var c := RowGrows(components, rows, dev, side);
      OneTermGrows(ComponentSide(ComponentStrata(components, shorter), dev, side), f, RowSide(components, dev, side)(r), c, |dev|);
    }
  }

  lemma {:induction false} TotalIsSum(strata: Strata, salted: seq<nat>, inOrder: Strata, dev: seq<bool>, pick: Pick)
    requires |pick| <= |salted| == |inOrder|
    requires forall k :: 0 <= k < |pick| ==> salted[k] < |strata| && salted[k] < |dev| && dev[salted[k]] == pick[k] && inOrder[k] == strata[salted[k]]
    ensures Total(inOrder, pick) == SumOver(ComponentSide(strata, dev, true), salted[..|pick|])
  {
    if pick != [] {
      var n := |pick| - 1;
      TotalIsSum(strata, salted, inOrder, dev, pick[..n]);
      assert salted[..|pick|][..n] == salted[..n];
    }
  }

  /** What the search adds up is the strata of the dev rows. */
  lemma TotalIsDevRows(components: seq<seq<nat>>, rows: seq<Row>, salted: seq<nat>, dev: seq<bool>, pick: Pick)
    requires Placed(components, rows) && |dev| == |components| && IsOrder(salted, |components|) && TakesPick(dev, salted, pick)
    ensures Total(Salted(components, rows, salted), pick) == SumOver(RowSide(components, dev, true), rows)
  {
    var strata := ComponentStrata(components, rows);
    TotalIsSum(strata, salted, Salted(components, rows, salted), dev, pick);
    assert salted[..|pick|] == salted;
    SumOverPermuted(ComponentSide(strata, dev, true), salted, Upto(|dev|));
    SidesAgree(components, rows, dev, true);
  }

  lemma {:induction false} AllStrataSize(rows: seq<Row>)
    ensures |AllStrata(rows)| == |rows|
  {
    if rows != [] {
      AllStrataSize(rows[..|rows| - 1]);
      assert AllStrata(rows) == AllStrata(rows[..|rows| - 1]) + multiset{rows[|rows| - 1].stratum};
    }
  }

  /** Every row is on exactly one side. */
  lemma SidesPartition(components: seq<seq<nat>>, rows: seq<Row>, dev: seq<bool>)
    requires Placed(components, rows) && |dev| == |components|
    ensures AllStrata(rows) == SumOver(RowSide(components, dev, true), rows) + SumOver(RowSide(components, dev, false), rows)
  {
    var all := (r: Row) => multiset{r.stratum};
    var devSide, testSide := RowSide(components, dev, true), RowSide(components, dev, false);
    forall r | r in rows ensures all(r) == devSide(r) + testSide(r) {
      assert Covered(components, r.group);
      var c :| 0 <= c < |components| && r.group in components[c];
      assert forall side :: OnSide(components, dev, side, r.group) <==> dev[c] == side;
    }
    SumOverSplit(all, devSide, testSide, rows);
    assert AllStrata(rows) == SumOver(all, rows);
  }

  // ---------------------------------------------------------------- the outcome

  ghost predicate Chosen(components: seq<seq<nat>>, rows: seq<Row>, salted: seq<nat>, pick: Pick, dev: seq<bool>)
    requires IsOrder(salted, |components|)
  {
    First(Salted(components, rows, salted), [], pick) && |dev| == |components| && TakesPick(dev, salted, pick)
  }

  ghost predicate HasChoice(components: seq<seq<nat>>, rows: seq<Row>, salted: seq<nat>)
    requires IsOrder(salted, |components|)
  {
    exists pick :: Feasible(Salted(components, rows, salted), [], pick)
  }

  /** What each outcome means: the first feasible choice in the salted order when the rows add up,
      and an error exactly when there is no feasible choice or the rows do not add up. */
  ghost predicate AssignedBy(components: seq<seq<nat>>, rows: seq<Row>, salted: seq<nat>, o: Outcome)
    requires IsOrder(salted, |components|)
  {
    match o
    case Assigned(dev, devStrata, testStrata) =>
      && |rows| == TOTAL_DEV + TOTAL_TEST
      && (exists pick :: Chosen(components, rows, salted, pick, dev))
      && devStrata == SumOver(RowSide(components, dev, true), rows)
      && testStrata == SumOver(RowSide(components, dev, false), rows)
    case TotalMismatch => |rows| != TOTAL_DEV + TOTAL_TEST && HasChoice(components, rows, salted)
    case QuotaInfeasible => !HasChoice(components, rows, salted)
  }

  /** A successful assignment has 416 dev rows within every quota, and 623 test rows. */
  lemma AssignedMeetsQuotas(components: seq<seq<nat>>, rows: seq<Row>, salted: seq<nat>, o: Outcome)
    requires Placed(components, rows) && IsOrder(salted, |components|) && AssignedBy(components, rows, salted, o) && o.Assigned?
    ensures Acceptable(o.devStrata) && |o.testStrata| == TOTAL_TEST
    ensures AllStrata(rows) == o.devStrata + o.testStrata
  {
    hide Acceptable, Placed, RowSide, Salted, Permuted;
    var pick :| Chosen(components, rows, salted, pick, o.dev);
    TotalIsDevRows(components, rows, salted, o.dev, pick);
    SidesPartition(components, rows, o.dev);
    AllStrataSize(rows);
    assert |o.devStrata| == TOTAL_DEV by { AcceptableSize(o.devStrata); }
  }

  /** The first feasible choice is unique. */
  lemma FirstUnique(strata: Strata, a: Pick, b: Pick)
    requires First(strata, [], a) && First(strata, [], b)
    ensures a == b
  {
    if a != b {
      assert Earlier(a, b) && Earlier(b, a);
      NotBothEarlier(a, b);
    }
  }

  lemma NotBothEarlier(a: Pick, b: Pick)
    requires Earlier(a, b)
    ensures !Earlier(b, a)
  {
    var k :| 0 <= k < |a| && k < |b| && a[..k] == b[..k] && a[k] && !b[k];
    forall j | 0 <= j < |b| && j < |a| ensures b[..j] != a[..j] || !b[j] || a[j] {
      if j < k {
        assert a[j] == a[..k][j] == b[..k][j] == b[j];
      }
      if j > k {
        assert a[..j][k] && !b[..j][k];
      }
    }
  }

  lemma DevUnique(salted: seq<nat>, pick: Pick, dev: seq<bool>, dev': seq<bool>)
    requires IsOrder(salted, |dev|) && |dev| == |dev'| && TakesPick(dev, salted, pick) && TakesPick(dev', salted, pick)
    ensures dev == dev'
  {
    forall i | 0 <= i < |dev| ensures dev[i] == dev'[i] {
      var k := OrderReaches(salted, |dev|, i);
    }
  }

  lemma SaltedPermuted(components: seq<seq<nat>>, rows: seq<Row>, rows': seq<Row>, salted: seq<nat>)
    requires IsOrder(salted, |components|) && Permuted(rows, rows')
    ensures Salted(components, rows, salted) == Salted(components, rows', salted)
  {
    hide StrataOf, Permuted;
    forall k | 0 <= k < |components|
      ensures Salted(components, rows, salted)[k] == Salted(components, rows', salted)[k]
    {
      OrderInRange(salted, |components|, k);
      StrataOfPermuted(components[salted[k]], rows, rows');
    }
  }

  lemma SameLength(rows: seq<Row>, rows': seq<Row>)
    requires Permuted(rows, rows')
    ensures |rows| == |rows'|
  {
    AllStrataSize(rows);
    AllStrataSize(rows');
    SumOverPermuted((r: Row) => multiset{r.stratum}, rows, rows');
  }

  /** The outcome depends only on the rows as a bag: permuting them changes nothing. */
  lemma OutcomeIndependentOfRowOrder(components: seq<seq<nat>>, rows: seq<Row>, rows': seq<Row>, salted: seq<nat>, o: Outcome, o': Outcome)
    requires IsOrder(salted, |components|) && Permuted(rows, rows')
    requires AssignedBy(components, rows, salted, o) && AssignedBy(components, rows', salted, o')
    ensures o == o'
  {
    hide First, Feasible, Permuted, Salted, RowSide;
    SaltedPermuted(components, rows, rows', salted);
    SameLength(rows, rows');
    FirstIsFeasible(components, rows, salted);
    if o.Assigned? && o'.Assigned? {
      var pick :| Chosen(components, rows, salted, pick, o.dev);
      var pick' :| Chosen(components, rows', salted, pick', o'.dev);
      FirstUnique(Salted(components, rows, salted), pick, pick');
      DevUnique(salted, pick, o.dev, o'.dev);
      SumOverPermuted(RowSide(components, o.dev, true), rows, rows');
      SumOverPermuted(RowSide(components, o.dev, false), rows, rows');
    }
  }

  lemma FirstIsFeasible(components: seq<seq<nat>>, rows: seq<Row>, salted: seq<nat>)
    requires IsOrder(salted, |components|)
    ensures forall pick :: First(Salted(components, rows, salted), [], pick) ==> HasChoice(components, rows, salted)
  {
  }

  // ---------------------------------------------------------------- the method

  ghost predicate EachHasRow(components: seq<seq<nat>>, rows: seq<Row>) {
    forall i :: 0 <= i < |components| ==> HasRow(components[i], rows)
  }

  ghost predicate HasRow(component: seq<nat>, rows: seq<Row>) {
    exists k :: 0 <= k < |rows| && rows[k].group in component
  }

  lemma {:induction false} RowCounts(component: seq<nat>, rows: seq<Row>, k: nat)
    requires k < |rows| && rows[k].group in component
    ensures |StrataOf(component, rows)| >= 1
  {
    if k < |rows| - 1 {
      RowCounts(component, rows[..|rows| - 1], k);
    }
  }

  lemma SaltedNonEmpty(components: seq<seq<nat>>, rows: seq<Row>, salted: seq<nat>)
    requires IsOrder(salted, |components|) && EachHasRow(components, rows)
    ensures NonEmpty(Salted(components, rows, salted))
  {
    hide StrataOf, Permuted;
    forall k | 0 <= k < |components| ensures |Salted(components, rows, salted)[k]| >= 1 {
      OrderInRange(salted, |components|, k);
      assert HasRow(components[salted[k]], rows);
      var n :| 0 <= n < |rows| && rows[n].group in components[salted[k]];
      RowCounts(components[salted[k]], rows, n);
    }
  }

  method AssignSplits(components: seq<seq<nat>>, rows: seq<Row>, salted: seq<nat>) returns (o: Outcome)
    requires Placed(components, rows) && IsOrder(salted, |components|)
    ensures AssignedBy(components, rows, salted, o)
  {
    hide First, Feasible, Permuted, StrataOf, RowSide, ComponentSide, SumOver, Placed, Stopping, Total, Indices;
    var counts := CountRows(components, rows);
    ghost var strata := Salted(components, rows, salted);
    assert forall k :: 0 <= k < |strata| ==> salted[k] < |counts| && counts[salted[k]] == strata[k];
    var inOrder := seq(|salted|, k requires 0 <= k < |salted| => counts[salted[k]]);
    assert inOrder == strata;
    var searcher := new Searcher(inOrder);
    NothingPicked(inOrder);
    assert Stopping(inOrder, []) by { NothingTaken(inOrder); }
    var found, pick := searcher.Search(0, 0, multiset{}, []);
    if !found {
      return QuotaInfeasible;
    }
    FirstTotal(inOrder, pick);
    var dev := Mark(searcher.chosen, salted, |components|, pick);
    assert counts == ComponentStrata(components, rows);
    var devTotal := SumSide(counts, dev, true);
    var testTotal := SumSide(counts, dev, false);
    Settles(components, rows, salted, pick, dev, devTotal, testTotal);
    if |devTotal| != TOTAL_DEV || |testTotal| != TOTAL_TEST {
      return TotalMismatch;
    }
    o := Assigned(dev, searcher.devStrata, testTotal);
  }

  lemma Settles(components: seq<seq<nat>>, rows: seq<Row>, salted: seq<nat>, pick: Pick, dev: seq<bool>, devTotal: multiset<string>, testTotal: multiset<string>)
    requires Placed(components, rows) && IsOrder(salted, |components|) && Chosen(components, rows, salted, pick, dev)
    requires devTotal == SumOver(ComponentSide(ComponentStrata(components, rows), dev, true), Upto(|dev|))
    requires testTotal == SumOver(ComponentSide(ComponentStrata(components, rows), dev, false), Upto(|dev|))
    ensures devTotal == Total(Salted(components, rows, salted), pick)
    ensures AssignedBy(components, rows, salted, if |devTotal| != TOTAL_DEV || |testTotal| != TOTAL_TEST then TotalMismatch else Assigned(dev, devTotal, testTotal))
  {
    hide First, Feasible, Permuted, RowSide, ComponentSide, Placed, Total, Salted, AllStrata;
    FirstIsFeasible(components, rows, salted);
    SidesAgree(components, rows, dev, true);
    SidesAgree(components, rows, dev, false);
    SidesPartition(components, rows, dev);
    AllStrataSize(rows);
    FirstTotal(Salted(components, rows, salted), pick);
    TotalIsDevRows(components, rows, salted, dev, pick);
  }

  lemma NothingTaken(strata: Strata)
    ensures Stopping(strata, [])
  {
  }

  lemma NothingPicked(strata: Strata)
    ensures Total(strata, []) == multiset{} && Indices([]) == []
  {
  }

  lemma FirstTotal(strata: Strata, pick: Pick)
    requires First(strata, [], pick)
    ensures |pick| == |strata| && |Total(strata, pick)| == TOTAL_DEV
  {
  }

  method SumSide(counts: Strata, dev: seq<bool>, side: bool) returns (sum: multiset<string>)
    requires |counts| == |dev|
    ensures sum == SumOver(ComponentSide(counts, dev, side), Upto(|dev|))
  {
    sum := multiset{};
    for i := 0 to |counts|
      invariant sum == SumOver(ComponentSide(counts, dev, side), Upto(i))
    {
      assert Upto(i + 1)[..i] == Upto(i);
      if dev[i] == side {
        sum := sum + counts[i];
      }
    }
  }

  lemma {:induction false} IndicesIff(pick: Pick, k: nat)
    ensures k in Indices(pick) <==> k < |pick| && pick[k]
  {
    if pick != [] {
      IndicesIff(pick[..|pick| - 1], k);
    }
  }

  /** The chosen positions of the salted order, as a mark on each component. */
  method Mark(chosen: seq<nat>, salted: seq<nat>, n: nat, ghost pick: Pick) returns (dev: seq<bool>)
    requires IsOrder(salted, n) && |pick| == n && chosen == Indices(pick)
    ensures |dev| == n && TakesPick(dev, salted, pick)
  {
    hide Permuted, Indices;
    forall k: nat ensures k in chosen <==> k < n && pick[k] {
      IndicesIff(pick, k);
    }
    forall k | 0 <= k < n ensures salted[k] < n {
      OrderInRange(salted, n, k);
    }
    dev := seq(n, _ => false);
    for j := 0 to |chosen|
      invariant |dev| == n
      invariant forall k :: 0 <= k < n ==> salted[k] < n && dev[salted[k]] == (k in chosen[..j])
    {
      assert chosen[j] in chosen;
      var c := chosen[j];
      OrderInRange(salted, n, c);
      forall k | 0 <= k < n ensures salted[k] == salted[c] <==> k == c {
        if salted[k] == salted[c] {
          OrderInjective(salted, n, k, c);
        }
      }
      dev := dev[salted[c] := true];
    }
    assert chosen[..|chosen|] == chosen;
  }

  /** Components built from rows each have one, so the choice made is the first of all feasible ones. */
  lemma AssignedIsFirstOfAll(components: seq<seq<nat>>, rows: seq<Row>, salted: seq<nat>, pick: Pick, dev: seq<bool>, other: Pick)
    requires IsOrder(salted, |components|) && EachHasRow(components, rows)
    requires Chosen(components, rows, salted, pick, dev)
    requires Feasible(Salted(components, rows, salted), [], other) && other != pick
    ensures Earlier(pick, other)
  {
    hide First, Feasible, Salted, Earlier;
    SaltedNonEmpty(components, rows, salted);
    FirstOfAll(Salted(components, rows, salted), pick, other);
  }

  // ---------------------------------------------------------------- rows and edges in, splits out

  lemma GroupingPlaces(components: seq<seq<nat>>, rows: seq<Row>, edges: seq<Edge>)
    requires Grouping(components, SortedSet(GroupIds(rows)), edges)
    ensures Placed(components, rows) && EachHasRow(components, rows)
  {
    hide Connected, SortedSet, Covered;
    var groups := SortedSet(GroupIds(rows));
    GroupingDisjoint(components, groups, edges);
    forall i | 0 <= i < |rows| ensures Covered(components, rows[i].group) {
      assert GroupIds(rows)[i] in GroupIds(rows);
    }
    forall i | 0 <= i < |components| ensures HasRow(components[i], rows) {
      assert Block(components[i], groups, edges);
      var g := components[i][0];
      assert g in components[i] && g in GroupIds(rows);
      var k :| 0 <= k < |rows| && GroupIds(rows)[k] == g;
      assert rows[k].group in components[i];
    }
  }

  ghost predicate SplitBy(rows: seq<Row>, edges: seq<Edge>, salt: seq<seq<nat>> -> seq<nat>, components: seq<seq<nat>>, o: Outcome)
    requires forall c :: IsOrder(salt(c), |c|)
  {
    var groups := SortedSet(GroupIds(rows));
    Grouping(components, groups, Kept(edges, groups)) && AssignedBy(components, rows, salt(components), o)
  }

  /** The release's split: components, then the search, then a split for every group. */
  method BuildSplits(rows: seq<Row>, edges: seq<Edge>, salt: seq<seq<nat>> -> seq<nat>)
    returns (components: seq<seq<nat>>, o: Outcome, splits: Assignment)
    requires forall c :: IsOrder(salt(c), |c|)
    ensures SplitBy(rows, edges, salt, components, o)
    ensures o.Assigned? ==> |o.dev| == |components| && Inherits(splits, components, o.dev) && NoneCrosses(splits, edges)
  {
    hide Grouping, Disjoint, Permuted, First, Feasible, RowSide, Inherits, NoneCrosses;
    components := Build(rows, edges);
    ghost var groups := SortedSet(GroupIds(rows));
    GroupingPlaces(components, rows, Kept(edges, groups));
    o := AssignSplits(components, rows, salt(components));
    splits := map[];
    if o.Assigned? {
      splits := AssignGroups(components, o.dev);
      ComponentSplitNeverLeaks(splits, components, o.dev, groups, edges);
    }
  }

  /** Permuting the rows, and reordering, repeating or turning round the edges, changes nothing. */
  lemma SplitIndependentOfOrder(rows: seq<Row>, edges: seq<Edge>, rows': seq<Row>, edges': seq<Edge>, salt: seq<seq<nat>> -> seq<nat>,
                                components: seq<seq<nat>>, o: Outcome, components': seq<seq<nat>>, o': Outcome)
    requires forall c :: IsOrder(salt(c), |c|)
    requires Permuted(rows, rows') && SameEdges(edges, edges')
    requires SplitBy(rows, edges, salt, components, o) && SplitBy(rows', edges', salt, components', o')
    ensures components == components' && o == o'
  {
    hide Grouping, AssignedBy, SortedSet;
    var groups, groups' := SortedSet(GroupIds(rows)), SortedSet(GroupIds(rows'));
    SameGroups(rows, rows');
    SameGroups(rows', rows);
    hide Permuted;
    GroupingUnique(components, groups, Kept(edges, groups), components', groups', Kept(edges', groups'));
    OutcomeIndependentOfRowOrder(components, rows, rows', salt(components), o, o');
  }

  lemma SameGroups(rows: seq<Row>, rows': seq<Row>)
    requires Permuted(rows, rows')
    ensures forall g :: g in GroupIds(rows) ==> g in GroupIds(rows')
  {
    forall g | g in GroupIds(rows) ensures g in GroupIds(rows') {
      var i :| 0 <= i < |rows| && rows[i].group == g;
      assert rows[i] in multiset(rows);
      assert multiset(rows')[rows[i]] > 0;
      assert rows[i] in rows';
      var k :| 0 <= k < |rows'| && rows'[k] == rows[i];
      assert GroupIds(rows')[k] == g;
    }
  }
}
