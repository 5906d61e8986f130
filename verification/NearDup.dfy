/** Near-duplicate clusters of images: rows are numbered in the order of their ids. */
module NearDup {
  import opened UnionFind
  import opened Components

  /** The 64 bits of a perceptual hash. */
  type Hash = h: seq<bool> | |h| == 64 witness seq(64, _ => false)

  /** The number of bits that differ, as in the bit count of the exclusive or. */
  function Differing(a: seq<bool>, b: seq<bool>): (d: nat)
    requires |a| == |b|
    ensures d <= |a|
  {
    if a == [] then 0 else Differing(a[..|a| - 1], b[..|a| - 1]) + if a[|a| - 1] == b[|a| - 1] then 0 else 1
  }

  function Hamming(a: Hash, b: Hash): nat {
    Differing(a, b)
  }

  /** A distance: zero only between equal hashes, ... */
  lemma {:induction false} ZeroIffEqual(a: seq<bool>, b: seq<bool>)
    requires |a| == |b|
    ensures Differing(a, b) == 0 <==> a == b
  {
    if a == [] {
      assert b == [];
    } else {
      var n := |a| - 1;
      ZeroIffEqual(a[..n], b[..n]);
      assert a == a[..n] + [a[n]] && b == b[..n] + [b[n]];
    }
  }

  /** ... symmetric, ... */
  lemma {:induction false} DifferingSymmetric(a: seq<bool>, b: seq<bool>)
    requires |a| == |b|
    ensures Differing(a, b) == Differing(b, a)
  {
    if a == [] {
      assert b == [];
    } else {
      DifferingSymmetric(a[..|a| - 1], b[..|a| - 1]);
    }
  }

  /** ... and no shorter by a detour. */
  lemma {:induction false} DifferingTriangle(a: seq<bool>, b: seq<bool>, c: seq<bool>)
    requires |a| == |b| == |c|
    ensures Differing(a, c) <= Differing(a, b) + Differing(b, c)
  {
    if a == [] {
      assert c == [];
    } else {
      var n := |a| - 1;
      DifferingTriangle(a[..n], b[..n], c[..n]);
      LastBit(a, c);
      LastBit(a, b);
      LastBit(b, c);
    }
  }

  lemma LastBit(a: seq<bool>, b: seq<bool>)
    requires |a| == |b| && a != []
    ensures Differing(a, b) == Differing(a[..|a| - 1], b[..|a| - 1]) + if a[|a| - 1] == b[|a| - 1] then 0 else 1
  {
  }

  datatype Input = Input(hashes: seq<Hash>, cosine: (nat, nat) -> real, dupThreshold: real, hashThreshold: int)

  predicate ByCosine(x: Input, i: nat, j: nat) {
    x.cosine(i, j) >= x.dupThreshold
  }

  predicate ByHash(x: Input, i: nat, j: nat)
    requires i < |x.hashes| && j < |x.hashes|
  {
    Hamming(x.hashes[i], x.hashes[j]) <= x.hashThreshold
  }

  predicate Similar(x: Input, i: nat, j: nat) {
    i < j < |x.hashes| && (ByCosine(x, i, j) || ByHash(x, i, j))
  }

  datatype Record = Record(left: nat, right: nat, cosine: real, distance: nat, byCosine: bool, byHash: bool)

  function RecordOf(x: Input, i: nat, j: nat): Record
    requires i < |x.hashes| && j < |x.hashes|
  {
    Record(i, j, x.cosine(i, j), Hamming(x.hashes[i], x.hashes[j]), ByCosine(x, i, j), ByHash(x, i, j))
  }

  function Pairs(records: seq<Record>): (p: seq<Edge>)
    ensures |p| == |records| && forall k :: 0 <= k < |p| ==> p[k] == (records[k].left, records[k].right)
  {
    seq(|records|, k requires 0 <= k < |records| => (records[k].left, records[k].right))
  }

  /** The order in which pairs are visited. */
  predicate Before(a: Edge, b: Edge) {
    a.0 < b.0 || (a.0 == b.0 && a.1 < b.1)
  }

  /** One record for each similar pair visited so far, in order. */
  ghost predicate Recorded(x: Input, records: seq<Record>, next: Edge) {
    && (forall k :: 0 <= k < |records| ==>
          var r := records[k]; Similar(x, r.left, r.right) && r == RecordOf(x, r.left, r.right) && Before((r.left, r.right), next))
    && (forall i, j :: 0 <= i < j < |records| ==> Before(Pairs(records)[i], Pairs(records)[j]))
    && (forall i: nat, j: nat :: Similar(x, i, j) && Before((i, j), next) ==> (i, j) in Pairs(records))
  }

  lemma RecordMore(x: Input, records: seq<Record>, i: nat, j: nat)
    requires Recorded(x, records, (i, j)) && i < j < |x.hashes|
    ensures if Similar(x, i, j) then Recorded(x, records + [RecordOf(x, i, j)], (i, j + 1)) && Pairs(records + [RecordOf(x, i, j)]) == Pairs(records) + [(i, j)]
            else Recorded(x, records, (i, j + 1))
  {
    hide RecordOf, Similar;
    if Similar(x, i, j) {
      var more := records + [RecordOf(x, i, j)];
      assert RecordOf(x, i, j).left == i && RecordOf(x, i, j).right == j by { RecordEnds(x, i, j); }
      assert Pairs(more) == Pairs(records) + [(i, j)];
      assert forall e :: e in Pairs(more) <==> e in Pairs(records) || e == (i, j);
    }
  }

  lemma RecordEnds(x: Input, i: nat, j: nat)
    requires i < |x.hashes| && j < |x.hashes|
    ensures RecordOf(x, i, j).left == i && RecordOf(x, i, j).right == j
  {
  }

  lemma NextRow(x: Input, records: seq<Record>, i: nat)
    requires Recorded(x, records, (i, |x.hashes|)) && i < |x.hashes|
    ensures Recorded(x, records, (i + 1, i + 2))
  {
    hide RecordOf;
  }

  /** The threshold graph: exactly one record for each similar pair. */
  ghost predicate Graph(x: Input, records: seq<Record>) {
    && (forall k :: 0 <= k < |records| ==> var r := records[k]; Similar(x, r.left, r.right) && r == RecordOf(x, r.left, r.right))
    && (forall i: nat, j: nat :: (i, j) in Pairs(records) <==> Similar(x, i, j))
    && (forall i, j :: 0 <= i < j < |records| ==> Before(Pairs(records)[i], Pairs(records)[j]))
  }

  lemma RecordedAll(x: Input, records: seq<Record>)
    requires Recorded(x, records, (|x.hashes|, |x.hashes| + 1))
    ensures Graph(x, records)
  {
    hide RecordOf;
    forall i: nat, j: nat ensures (i, j) in Pairs(records) <==> Similar(x, i, j) {
      assert Similar(x, i, j) ==> Before((i, j), (|x.hashes|, |x.hashes| + 1));
    }
  }

  function Rows(n: nat): (s: seq<nat>)
    ensures |s| == n && (forall k :: 0 <= k < n ==> s[k] == k) && (forall k: nat :: k in s <==> k < n) && Ascending(s)
  {
    var s := seq(n, k => k);
    assert forall k: nat :: k in s <==> k < n by {
      forall k: nat ensures k in s <==> k < n {
        if k < n {
          assert s[k] == k;
        }
      }
    }
    s
  }

  /** Joins every similar pair and records it. */
  method JoinSimilar(x: Input, uf: DisjointSets) returns (records: seq<Record>)
    requires Ok(uf.parent) && (forall k: nat :: k in uf.parent <==> k < |x.hashes|) && forall k :: k in uf.parent ==> Rep(uf.parent, k) == k
    modifies uf
    ensures Graph(x, records) && Applied(uf.parent, Pairs(records)) && SameKeys(old(uf.parent), uf.parent)
  {
    hide Ok, Rep, Connected, Applied, Merged, Recorded, RecordOf;
    var n := |x.hashes|;
    records := [];
    assert Recorded(x, records, (0, 1)) by { NothingRecorded(x); }
    AppliedNone(uf.parent);
    AppliedOk(uf.parent, []);
    assert Pairs(records) == [];
    var left := 0;
    while left < n
      invariant left <= n
      invariant Recorded(x, records, (left, left + 1))
      invariant SameKeys(old(uf.parent), uf.parent)
      invariant Ok(uf.parent) && Applied(uf.parent, Pairs(records))
    {
      var right := left + 1;
      while right < n
        invariant left < right <= n
        invariant Recorded(x, records, (left, right))
        invariant SameKeys(old(uf.parent), uf.parent)
        invariant Ok(uf.parent) && Applied(uf.parent, Pairs(records))
      {
        RecordMore(x, records, left, right);
        if ByCosine(x, left, right) || ByHash(x, left, right) {
          ghost var before := uf.parent;
          uf.Union(left, right);
          AppliedMore(before, uf.parent, Pairs(records), (left, right));
          MergedKeys(before, uf.parent, left, right);
          SameKeysTrans(old(uf.parent), before, uf.parent);
          records := records + [RecordOf(x, left, right)];
        }
        right := right + 1;
      }
      NextRow(x, records, left);
      left := left + 1;
    }
    RecordedAll(x, records);
  }

  lemma NothingRecorded(x: Input)
    ensures Recorded(x, [], (0, 1))
  {
  }

  // ---------------------------------------------------------------- clusters

  /** Each row's cluster number: components in the order of their least member, from one. */
  ghost predicate Numbered(components: seq<seq<nat>>, cluster: seq<nat>) {
    forall c, k :: 0 <= c < |components| && k in components[c] ==> k < |cluster| && cluster[k] == c + 1
  }

  ghost predicate Clusters(x: Input, records: seq<Record>, components: seq<seq<nat>>, cluster: seq<nat>) {
    && Graph(x, records)
    && Grouping(components, Rows(|x.hashes|), Pairs(records))
    && |cluster| == |x.hashes| && Numbered(components, cluster)
  }

  /** Clusters are exactly the connected components of the threshold graph. */
  lemma SameClusterIffConnected(x: Input, records: seq<Record>, components: seq<seq<nat>>, cluster: seq<nat>, i: nat, j: nat)
    requires Clusters(x, records, components, cluster) && i < |x.hashes| && j < |x.hashes|
    ensures 1 <= cluster[i] <= |components|
    ensures cluster[i] == cluster[j] <==> Connected(Pairs(records), i, j)
  {
    hide Connected, Graph;
    assert Covered(components, i) && Covered(components, j);
    var a :| 0 <= a < |components| && i in components[a];
    var b :| 0 <= b < |components| && j in components[b];
    SameBlockIffConnected(components, Rows(|x.hashes|), Pairs(records), a, b, i, j);
  }

  /** Numbers follow the least members: 1..k, each used, ascending. */
  lemma NumbersFollowLeastMembers(x: Input, records: seq<Record>, components: seq<seq<nat>>, cluster: seq<nat>, c: nat)
    requires Clusters(x, records, components, cluster) && c < |components|
    ensures components[c] != [] && components[c][0] < |cluster| && cluster[components[c][0]] == c + 1
    ensures forall k :: 0 <= k < |cluster| && cluster[k] == c + 1 ==> components[c][0] <= k
    ensures c > 0 ==> components[c - 1] != [] && components[c - 1][0] < components[c][0]
  {
    hide Connected, Graph;
    var rows := Rows(|x.hashes|);
    assert Block(components[c], rows, Pairs(records));
    assert c > 0 ==> Block(components[c - 1], rows, Pairs(records));
    assert components[c][0] in components[c];
    forall k | 0 <= k < |cluster| && cluster[k] == c + 1 ensures components[c][0] <= k {
      assert Covered(components, k);
      var a :| 0 <= a < |components| && k in components[a];
      HeadIsLeast(components[c], k);
    }
  }

  /** Stricter thresholds can only split clusters. */
  lemma StricterRefines(x: Input, records: seq<Record>, components: seq<seq<nat>>, cluster: seq<nat>,
                        x': Input, records': seq<Record>, components': seq<seq<nat>>, cluster': seq<nat>, i: nat, j: nat)
    requires Clusters(x, records, components, cluster) && Clusters(x', records', components', cluster')
    requires x'.hashes == x.hashes && x'.cosine == x.cosine && x'.dupThreshold >= x.dupThreshold && x'.hashThreshold <= x.hashThreshold
    requires i < |x.hashes| && j < |x.hashes| && cluster'[i] == cluster'[j]
    ensures cluster[i] == cluster[j]
  {
    hide Connected, Clusters;
    SameClusterIffConnected(x', records', components', cluster', i, j);
    forall e | e in Pairs(records') ensures e in Pairs(records) {
      GraphEdge(x', records', components', cluster', e);
      GraphEdge(x, records, components, cluster, e);
    }
    ConnectedMonotone(Pairs(records'), Pairs(records), i, j);
    SameClusterIffConnected(x, records, components, cluster, i, j);
  }

  lemma GraphEdge(x: Input, records: seq<Record>, components: seq<seq<nat>>, cluster: seq<nat>, e: Edge)
    requires Clusters(x, records, components, cluster)
    ensures e in Pairs(records) <==> Similar(x, e.0, e.1)
  {
  }

  method NumberClusters(components: seq<seq<nat>>, n: nat) returns (cluster: seq<nat>)
    requires forall c, k :: 0 <= c < |components| && k in components[c] ==> k < n
    requires forall c, d, k :: 0 <= c < |components| && 0 <= d < |components| && k in components[c] && k in components[d] ==> c == d
    ensures |cluster| == n && Numbered(components, cluster)
  {
    cluster := seq(n, _ => 0);
    for c := 0 to |components|
      invariant |cluster| == n
      invariant forall d, k :: 0 <= d < c && k in components[d] ==> k < n && cluster[k] == d + 1
    {
      for m := 0 to |components[c]|
        invariant |cluster| == n
        invariant forall d, k :: 0 <= d < c && k in components[d] ==> k < n && cluster[k] == d + 1
        invariant forall q :: 0 <= q < m ==> components[c][q] < n && cluster[components[c][q]] == c + 1
      {
        assert components[c][m] in components[c];
        cluster := cluster[components[c][m] := c + 1];
      }
    }
  }

  method ClustersAndEdges(x: Input) returns (records: seq<Record>, components: seq<seq<nat>>, cluster: seq<nat>)
    ensures Clusters(x, records, components, cluster)
  {
    hide Ok, Rep, Applied, Grouping, Graph, Connected;
    var rows := Rows(|x.hashes|);
    var uf := new DisjointSets(rows);
    records := JoinSimilar(x, uf);
    AppliedOk(uf.parent, Pairs(records));
    GroupedIsGrouping(uf.parent, rows, Pairs(records));
    components := GroupByRoot(uf, rows);
    GroupsWithin(components, rows, Pairs(records));
    cluster := NumberClusters(components, |x.hashes|);
  }

  lemma GroupsWithin(components: seq<seq<nat>>, rows: seq<nat>, edges: seq<Edge>)
    requires Grouping(components, rows, edges)
    ensures forall c, k :: 0 <= c < |components| && k in components[c] ==> k in rows
    ensures forall c, d, k :: 0 <= c < |components| && 0 <= d < |components| && k in components[c] && k in components[d] ==> c == d
  {
    hide Connected;
    forall c, k | 0 <= c < |components| && k in components[c] ensures k in rows {
      assert Block(components[c], rows, edges);
    }
    forall c, d, k | 0 <= c < |components| && 0 <= d < |components| && k in components[c] && k in components[d] ensures c == d {
      ConnectedSelf(edges, k);
      SameBlockIffConnected(components, rows, edges, c, d, k, k);
    }
  }

  // ---------------------------------------------------------------- statistics

  function Occurrences(s: seq<nat>, v: nat): nat {
    if s == [] then 0 else Occurrences(s[..|s| - 1], v) + if s[|s| - 1] == v then 1 else 0
  }

  function Sum(s: seq<nat>): nat {
    if s == [] then 0 else Sum(s[..|s| - 1]) + s[|s| - 1]
  }

  lemma {:induction false} SumUpdate(s: seq<nat>, i: nat, v: nat)
    requires i < |s|
    ensures Sum(s[i := v]) == Sum(s) - s[i] + v
  {
    var n := |s| - 1;
    if i < n {
      SumUpdate(s[..n], i, v);
      assert s[i := v][..n] == s[..n][i := v];
    } else {
      assert s[i := v][..n] == s[..n];
    }
  }

  /** How many rows each cluster has. */
  method ClusterSizes(cluster: seq<nat>, k: nat) returns (sizes: seq<nat>)
    requires forall i :: 0 <= i < |cluster| ==> 1 <= cluster[i] <= k
    ensures |sizes| == k && Sum(sizes) == |cluster|
    ensures forall c :: 0 <= c < k ==> sizes[c] == Occurrences(cluster, c + 1)
  {
    sizes := seq(k, _ => 0);
    AllZero(sizes);
    for i := 0 to |cluster|
      invariant |sizes| == k && Sum(sizes) == i
      invariant forall c :: 0 <= c < k ==> sizes[c] == Occurrences(cluster[..i], c + 1)
    {
      assert cluster[..i + 1][..i] == cluster[..i];
      SumUpdate(sizes, cluster[i] - 1, sizes[cluster[i] - 1] + 1);
      sizes := sizes[cluster[i] - 1 := sizes[cluster[i] - 1] + 1];
    }
    assert cluster[..|cluster|] == cluster;
  }

  lemma {:induction false} AllZero(s: seq<nat>)
    requires forall i :: 0 <= i < |s| ==> s[i] == 0
    ensures Sum(s) == 0
  {
    if s != [] {
      AllZero(s[..|s| - 1]);
    }
  }

  function At(hist: map<nat, nat>, size: nat): nat {
    if size in hist then hist[size] else 0
  }

  /** The rows a histogram of cluster sizes accounts for, up to a size. */
  function RowsUpTo(hist: map<nat, nat>, size: nat): nat {
    if size == 0 then 0 else RowsUpTo(hist, size - 1) + size * At(hist, size)
  }

  lemma {:induction false} RowsUpToStep(hist: map<nat, nat>, hist': map<nat, nat>, v: nat, size: nat)
    requires forall w :: 1 <= w <= size ==> At(hist', w) == At(hist, w) + if w == v then 1 else 0
    ensures RowsUpTo(hist', size) == RowsUpTo(hist, size) + if 1 <= v <= size then v else 0
  {
    if size > 0 {
      RowsUpToStep(hist, hist', v, size - 1);
      assert size * At(hist', size) == size * At(hist, size) + if size == v then size else 0;
    }
  }

  /** The histogram of the sizes adds up to the rows. */
  method SizeHistogram(sizes: seq<nat>, most: nat) returns (hist: map<nat, nat>)
    requires forall i :: 0 <= i < |sizes| ==> sizes[i] <= most
    ensures forall v :: At(hist, v) == Occurrences(sizes, v)
    ensures RowsUpTo(hist, most) == Sum(sizes)
  {
    hist := map[];
    EmptyHistogram(most);
    for i := 0 to |sizes|
      invariant forall v :: At(hist, v) == Occurrences(sizes[..i], v)
      invariant RowsUpTo(hist, most) == Sum(sizes[..i])
    {
      assert sizes[..i + 1][..i] == sizes[..i];
      ghost var before := hist;
      hist := hist[sizes[i] := At(hist, sizes[i]) + 1];
      forall w ensures At(hist, w) == At(before, w) + if w == sizes[i] then 1 else 0 {
      }
      RowsUpToStep(before, hist, sizes[i], most);
    }
    assert sizes[..|sizes|] == sizes;
  }

  lemma {:induction false} EmptyHistogram(size: nat)
    ensures RowsUpTo(map[], size) == 0
  {
    if size > 0 {
      EmptyHistogram(size - 1);
    }
  }

  function CosineEdges(records: seq<Record>): nat {
    if records == [] then 0 else CosineEdges(records[..|records| - 1]) + if records[|records| - 1].byCosine then 1 else 0
  }

  function HashEdges(records: seq<Record>): nat {
    if records == [] then 0 else HashEdges(records[..|records| - 1]) + if records[|records| - 1].byHash then 1 else 0
  }

  function BothEdges(records: seq<Record>): nat {
    if records == [] then 0
    else BothEdges(records[..|records| - 1]) + if records[|records| - 1].byCosine && records[|records| - 1].byHash then 1 else 0
  }

  /** Every edge has a source, so the counts add up to the edges. */
  lemma {:induction false} EdgeCountsAddUp(records: seq<Record>)
    requires forall k :: 0 <= k < |records| ==> records[k].byCosine || records[k].byHash
    ensures CosineEdges(records) + HashEdges(records) - BothEdges(records) == |records|
  {
    if records != [] {
      EdgeCountsAddUp(records[..|records| - 1]);
    }
  }

  datatype Stats = Stats(histogram: map<nat, nat>, cosine: nat, hash: nat, both: nat, singletons: nat)

  method Statistics(x: Input, records: seq<Record>, ghost components: seq<seq<nat>>, cluster: seq<nat>, k: nat) returns (stats: Stats)
    requires Clusters(x, records, components, cluster) && k == |components|
    ensures stats.cosine + stats.hash - stats.both == |records|
    ensures RowsUpTo(stats.histogram, |x.hashes|) == |x.hashes|
    ensures stats.singletons == At(stats.histogram, 1)
    ensures stats.cosine == CosineEdges(records) && stats.hash == HashEdges(records) && stats.both == BothEdges(records)
  {
    forall i | 0 <= i < |cluster| ensures 1 <= cluster[i] <= k {
      SameClusterIffConnected(x, records, components, cluster, i, i);
    }
    var sizes := ClusterSizes(cluster, k);
    forall i | 0 <= i < |sizes| ensures sizes[i] <= |cluster| {
      OccurrencesBound(cluster, i + 1);
    }
    var hist := SizeHistogram(sizes, |cluster|);
    var cosine, hash, both := SourceCounts(records);
    EdgeCountsAddUp(records);
    var singletons := Singles(sizes);
    stats := Stats(hist, cosine, hash, both, singletons);
  }

  method SourceCounts(records: seq<Record>) returns (cosine: nat, hash: nat, both: nat)
    ensures cosine == CosineEdges(records) && hash == HashEdges(records) && both == BothEdges(records)
  {
    cosine, hash, both := 0, 0, 0;
    for r := 0 to |records|
      invariant cosine == CosineEdges(records[..r]) && hash == HashEdges(records[..r]) && both == BothEdges(records[..r])
    {
      assert records[..r + 1][..r] == records[..r];
      cosine := cosine + if records[r].byCosine then 1 else 0;
      hash := hash + if records[r].byHash then 1 else 0;
      both := both + if records[r].byCosine && records[r].byHash then 1 else 0;
    }
    assert records[..|records|] == records;
  }

  method Singles(sizes: seq<nat>) returns (singletons: nat)
    ensures singletons == Occurrences(sizes, 1)
  {
    singletons := 0;
    for i := 0 to |sizes|
      invariant singletons == Occurrences(sizes[..i], 1)
    {
      assert sizes[..i + 1][..i] == sizes[..i];
      singletons := singletons + if sizes[i] == 1 then 1 else 0;
    }
    assert sizes[..|sizes|] == sizes;
  }

  lemma {:induction false} OccurrencesBound(s: seq<nat>, v: nat)
    ensures Occurrences(s, v) <= |s|
  {
    if s != [] {
      OccurrencesBound(s[..|s| - 1], v);
    }
  }
}
