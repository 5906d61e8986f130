/** The backtracking choice of the components that go to dev. */
module SplitSearch {
  const TOTAL_DEV: nat := 416
  const TOTAL_TEST: nat := 623

  datatype Quota = Quota(stratum: string, dev: nat, test: nat)

  const QUOTAS: seq<Quota> := [
    Quota("visual_plus_context", 80, 120), Quota("long_range", 52, 78), Quota("vlm_dependent", 32, 47),
    Quota("multi_hop_evidence", 48, 72), Quota("direct_visual", 40, 60), Quota("context_only", 36, 54),
    Quota("metadata_only", 28, 42), Quota("unanswerable", 28, 42), Quota("referential", 24, 36),
    Quota("interleaved", 24, 36), Quota("ambiguous_clarification", 24, 36)
  ]

  /** Eight rows, or fifteen per cent rounded down when that is more. */
  function Tolerance(quota: nat): nat {
    var share := 15 * quota / 100;
    if share > 8 then share else 8
  }

  predicate WithinQuota(counts: multiset<string>, q: Quota) {
    var diff := counts[q.stratum] - q.dev;
    0 - Tolerance(q.dev) <= diff <= Tolerance(q.dev)
  }

  ghost predicate Acceptable(counts: multiset<string>) {
    |counts| == TOTAL_DEV && forall k :: 0 <= k < |QUOTAS| ==> WithinQuota(counts, QUOTAS[k])
  }

  // ---------------------------------------------------------------- sets of components

  /** The rows per stratum of each component, in the salted order. */
  type Strata = seq<multiset<string>>

  /** Which of the first |pick| components go to dev. */
  type Pick = seq<bool>

  ghost function Total(strata: Strata, pick: Pick): multiset<string>
    requires |pick| <= |strata|
  {
    if pick == [] then multiset{} else
      var n := |pick| - 1;
      Total(strata, pick[..n]) + if pick[n] then strata[n] else multiset{}
  }

  ghost function Indices(pick: Pick): seq<nat> {
    if pick == [] then [] else
      var n := |pick| - 1;
      Indices(pick[..n]) + if pick[n] then [n] else []
  }

  /** The rows of the components from position i on. */
  function RowsFrom(strata: Strata, i: nat): nat
    requires i <= |strata|
    decreases |strata| - i
  {
    if i == |strata| then 0 else |strata[i]| + RowsFrom(strata, i + 1)
  }

  /** A complete choice that starts with `prefix` and meets the total and every quota. */
  ghost predicate Feasible(strata: Strata, prefix: Pick, pick: Pick) {
    |pick| == |strata| && prefix <= pick && Acceptable(Total(strata, pick))
  }

  /** The order of the search: the two choices first differ where `a` takes the component. */
  ghost predicate Earlier(a: Pick, b: Pick) {
    exists k :: 0 <= k < |a| && k < |b| && a[..k] == b[..k] && a[k] && !b[k]
  }

  /** The choice takes a component only while rows are still missing. */
  ghost predicate Stopping(strata: Strata, pick: Pick)
    requires |pick| <= |strata|
  {
    forall k :: 0 <= k < |pick| && pick[k] ==> |Total(strata, pick[..k])| < TOTAL_DEV
  }

  ghost predicate Candidate(strata: Strata, prefix: Pick, pick: Pick) {
    Feasible(strata, prefix, pick) && Stopping(strata, pick)
  }

  /** The first feasible choice that stops when the total is reached. */
  ghost predicate First(strata: Strata, prefix: Pick, pick: Pick) {
    && Candidate(strata, prefix, pick)
    && forall other :: Candidate(strata, prefix, other) && other != pick ==> Earlier(pick, other)
  }

  ghost predicate NonEmpty(strata: Strata) {
    forall i :: 0 <= i < |strata| ==> |strata[i]| >= 1
  }

  lemma {:induction false} TotalBounds(strata: Strata, prefix: Pick, pick: Pick)
    requires |pick| <= |strata| && prefix <= pick
    ensures |Total(strata, prefix)| <= |Total(strata, pick)|
    ensures |Total(strata, pick)| + RowsFrom(strata, |pick|) <= |Total(strata, prefix)| + RowsFrom(strata, |prefix|)
  {
    if |prefix| < |pick| {
      TotalBounds(strata, prefix, pick[..|pick| - 1]);
    } else {
      assert prefix == pick;
    }
  }

  function Padded(pick: Pick, n: nat): Pick
    requires |pick| <= n
  {
    pick + seq(n - |pick|, _ => false)
  }

  /** Taking nothing more keeps the total. */
  lemma {:induction false} TotalPadded(strata: Strata, pick: Pick, n: nat)
    requires |pick| <= n <= |strata|
    ensures Total(strata, Padded(pick, n)) == Total(strata, pick) && Indices(Padded(pick, n)) == Indices(pick)
  {
    if n == |pick| {
      assert Padded(pick, n) == pick;
    } else {
      TotalPadded(strata, pick, n - 1);
      assert Padded(pick, n)[..n - 1] == Padded(pick, n - 1);
    }
  }

  /** An extension of the same size has the same total: it takes only components without rows. */
  lemma {:induction false} SameSizeSameTotal(strata: Strata, prefix: Pick, pick: Pick)
    requires |pick| <= |strata| && prefix <= pick && |Total(strata, pick)| == |Total(strata, prefix)|
    ensures Total(strata, pick) == Total(strata, prefix)
  {
    if |prefix| < |pick| {
      var shorter := pick[..|pick| - 1];
      TotalBounds(strata, prefix, shorter);
      SameSizeSameTotal(strata, prefix, shorter);
    } else {
      assert prefix == pick;
    }
  }

  /** A choice that stops takes nothing after the total is reached. */
  lemma StoppingIsPadded(strata: Strata, prefix: Pick, pick: Pick)
    requires |pick| <= |strata| && prefix <= pick && Stopping(strata, pick) && |Total(strata, prefix)| >= TOTAL_DEV
    ensures pick == Padded(prefix, |pick|)
  {
    forall k | |prefix| <= k < |pick| ensures !pick[k] {
      TotalBounds(strata, prefix, pick[..k]);
    }
  }

  /** When every component has a row, every feasible choice stops, so the first one that stops is the
      first of all. */
  lemma FirstOfAll(strata: Strata, pick: Pick, other: Pick)
    requires NonEmpty(strata) && First(strata, [], pick) && Feasible(strata, [], other) && other != pick
    ensures Earlier(pick, other)
  {
    forall k | 0 <= k < |other| && other[k] ensures |Total(strata, other[..k])| < TOTAL_DEV {
      var longer := other[..k + 1];
      assert longer[..k] == other[..k];
      TotalBounds(strata, longer, other);
    }
    assert Candidate(strata, [], other);
  }

  lemma Split(strata: Strata, prefix: Pick, pick: Pick)
    requires Feasible(strata, prefix, pick) && |prefix| < |strata|
    ensures Feasible(strata, prefix + [pick[|prefix|]], pick)
    ensures Stopping(strata, pick) ==> Candidate(strata, prefix + [pick[|prefix|]], pick)
  {
    hide Stopping;
  }

  lemma FirstWithTake(strata: Strata, prefix: Pick, pick: Pick)
    requires |prefix| < |strata| && First(strata, prefix + [true], pick)
    ensures First(strata, prefix, pick)
  {
    hide Acceptable, Total;
    var n := |prefix|;
    assert pick[n];
    forall other | Candidate(strata, prefix, other) && other != pick ensures Earlier(pick, other) {
      Split(strata, prefix, other);
      if !other[n] {
        assert pick[..n] == prefix == other[..n];
      }
    }
  }

  lemma FirstWithSkip(strata: Strata, prefix: Pick, pick: Pick)
    requires |prefix| < |strata| && First(strata, prefix + [false], pick)
    requires forall other :: !Feasible(strata, prefix + [true], other)
    ensures First(strata, prefix, pick)
  {
    hide Acceptable, Total;
    forall other | Candidate(strata, prefix, other) && other != pick ensures Earlier(pick, other) {
      Split(strata, prefix, other);
      assert !Feasible(strata, prefix + [true], other);
      assert prefix + [other[|prefix|]] == if other[|prefix|] then prefix + [true] else prefix + [false];
    }
  }

  lemma NoneEitherWay(strata: Strata, prefix: Pick)
    requires |prefix| < |strata|
    requires forall other :: !Feasible(strata, prefix + [true], other)
    requires forall other :: !Feasible(strata, prefix + [false], other)
    ensures forall other :: !Feasible(strata, prefix, other)
  {
    hide Acceptable, Total;
    forall other ensures !Feasible(strata, prefix, other) {
      assert !Feasible(strata, prefix + [true], other) && !Feasible(strata, prefix + [false], other);
      if |other| == |strata| && prefix <= other {
        assert other[|prefix|] ==> prefix + [true] <= other;
        assert !other[|prefix|] ==> prefix + [false] <= other;
      }
    }
  }

  /** At 416 rows the choice is complete: the only feasible extension that stops is the one that takes
      nothing more, and it is feasible as soon as any extension is. */
  lemma FullChoice(strata: Strata, prefix: Pick)
    requires |prefix| <= |strata| && Stopping(strata, prefix) && |Total(strata, prefix)| == TOTAL_DEV
    ensures var pick := Padded(prefix, |strata|);
            && Total(strata, pick) == Total(strata, prefix)
            && Indices(pick) == Indices(prefix)
            && (forall other :: Candidate(strata, prefix, other) ==> other == pick)
            && (forall other :: Feasible(strata, prefix, other) ==> Acceptable(Total(strata, prefix)))
            && (Acceptable(Total(strata, prefix)) ==> First(strata, prefix, pick))
  {
    var pick := Padded(prefix, |strata|);
    TotalPadded(strata, prefix, |strata|);
    forall other | Candidate(strata, prefix, other) ensures other == pick {
      StoppingIsPadded(strata, prefix, other);
    }
    forall other | Feasible(strata, prefix, other) ensures Acceptable(Total(strata, prefix)) {
      AcceptableSize(Total(strata, other));
      SameSizeSameTotal(strata, prefix, other);
    }
    PaddedStops(strata, prefix);
    hide Acceptable, Stopping;
  }

  lemma AcceptableSize(counts: multiset<string>)
    requires Acceptable(counts)
    ensures |counts| == TOTAL_DEV
  {
  }

  lemma PaddedStops(strata: Strata, prefix: Pick)
    requires |prefix| <= |strata| && Stopping(strata, prefix)
    ensures Stopping(strata, Padded(prefix, |strata|))
  {
    var pick := Padded(prefix, |strata|);
    assert forall k :: 0 <= k < |prefix| ==> pick[..k] == prefix[..k];
  }

  /** Both prunings are safe. */
  lemma Pruned(strata: Strata, prefix: Pick)
    requires |prefix| <= |strata|
    requires |Total(strata, prefix)| > TOTAL_DEV || |Total(strata, prefix)| + RowsFrom(strata, |prefix|) < TOTAL_DEV
    ensures forall other :: !Feasible(strata, prefix, other)
  {
    forall other ensures !Feasible(strata, prefix, other) {
      if |other| == |strata| && prefix <= other {
        TotalBounds(strata, prefix, other);
      }
    }
  }

  lemma TotalStep(strata: Strata, prefix: Pick)
    requires |prefix| < |strata|
    ensures Total(strata, prefix + [true]) == Total(strata, prefix) + strata[|prefix|]
    ensures Total(strata, prefix + [false]) == Total(strata, prefix)
    ensures Indices(prefix + [true]) == Indices(prefix) + [|prefix|] && Indices(prefix + [false]) == Indices(prefix)
  {
    assert (prefix + [true])[..|prefix|] == prefix && (prefix + [false])[..|prefix|] == prefix;
  }

  lemma StoppingStep(strata: Strata, prefix: Pick)
    requires |prefix| < |strata| && Stopping(strata, prefix)
    ensures |Total(strata, prefix)| < TOTAL_DEV ==> Stopping(strata, prefix + [true])
    ensures Stopping(strata, prefix + [false])
  {
    assert (prefix + [true])[..|prefix|] == prefix;
    assert forall k :: 0 <= k < |prefix| ==> (prefix + [true])[..k] == prefix[..k] && (prefix + [false])[..k] == prefix[..k];
  }

  // ---------------------------------------------------------------- the search

  method MeetsQuotas(counts: multiset<string>) returns (ok: bool)
    ensures ok <==> forall k :: 0 <= k < |QUOTAS| ==> WithinQuota(counts, QUOTAS[k])
  {
    for k := 0 to |QUOTAS|
      invariant forall j :: 0 <= j < k ==> WithinQuota(counts, QUOTAS[j])
    {
      if !WithinQuota(counts, QUOTAS[k]) {
        return false;
      }
    }
    ok := true;
  }

  class Searcher {
    const strata: Strata
    var chosen: seq<nat>
    var devStrata: multiset<string>

    constructor (strata: Strata)
      ensures this.strata == strata && chosen == [] && devStrata == multiset{}
    {
      this.strata := strata;
      chosen := [];
      devStrata := multiset{};
    }

    /** Finds the first feasible choice, or leaves the stack as it was and there is none. */
    method Search(idx: nat, sum: nat, counts: multiset<string>, ghost prefix: Pick) returns (found: bool, ghost pick: Pick)
      requires idx <= |strata| && |prefix| == idx && Stopping(strata, prefix)
      requires idx == |prefix| && counts == Total(strata, prefix) && sum == |counts| && chosen == Indices(prefix)
      modifies this
      decreases |strata| - idx
      ensures found ==> First(strata, prefix, pick) && chosen == Indices(pick) && devStrata == Total(strata, pick)
      ensures !found ==> chosen == old(chosen) && devStrata == old(devStrata) && forall other :: !Feasible(strata, prefix, other)
    {
      hide First, Feasible, Stopping, Total, Indices;
      pick := [];
      if sum == TOTAL_DEV {
        FullChoice(strata, prefix);
        pick := Padded(prefix, |strata|);
        found := MeetsQuotas(counts);
        if found {
          devStrata := counts;
        } else {
          NotAcceptable(strata, prefix);
        }
        return;
      }
      if idx >= |strata| || sum > TOTAL_DEV || sum + RowsFrom(strata, idx) < TOTAL_DEV {
        Pruned(strata, prefix);
        return false, pick;
      }
      TotalStep(strata, prefix);
      StoppingStep(strata, prefix);
      chosen := chosen + [idx];
      found, pick := Search(idx + 1, sum + |strata[idx]|, counts + strata[idx], prefix + [true]);
      if found {
        FirstWithTake(strata, prefix, pick);
        return;
      }
      chosen := chosen[..|chosen| - 1];
      found, pick := Search(idx + 1, sum, counts, prefix + [false]);
      if found {
        FirstWithSkip(strata, prefix, pick);
      } else {
        NoneEitherWay(strata, prefix);
      }
    }
  }

  lemma NotAcceptable(strata: Strata, prefix: Pick)
    requires |prefix| <= |strata| && Stopping(strata, prefix) && |Total(strata, prefix)| == TOTAL_DEV
    requires !Acceptable(Total(strata, prefix))
    ensures forall other :: !Feasible(strata, prefix, other)
  {
    FullChoice(strata, prefix);
    hide Acceptable, Feasible;
  }
}
