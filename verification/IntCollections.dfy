/** Extensionality for sets and maps keyed by integers, stated once so that proofs elsewhere can
    reason member by member. */
module IntCollections {

  predicate Num(i: int) { true }

  lemma SetExt(s: set<int>, t: set<int>)
    requires forall k :: k in s <==> k in t
    ensures s == t
  {
    assert s == set k | k in s && Num(k);
    assert t == set k | k in t && Num(k);
  }

  lemma MapExt<V>(m: map<int, V>, n: map<int, V>)
    requires forall k :: k in m <==> k in n
    requires forall k :: k in m ==> m[k] == n[k]
    ensures m == n
  {
    var m' := map k | k in m && Num(k) :: m[k];
    var n' := map k | k in n && Num(k) :: n[k];
    assert m' == m;
    assert n' == n;
    assert m' == n';
  }

  /** The map without the keys of [lo, hi). */
  function Cleared<V>(m: map<int, V>, lo: int, hi: int): map<int, V> {
    map k | k in m && !(lo <= k < hi) :: m[k]
  }

  lemma ClearedNone<V>(m: map<int, V>, lo: int)
    ensures Cleared(m, lo, lo) == m
  {
    MapExt(Cleared(m, lo, lo), m);
  }

  lemma ClearedStep<V>(m: map<int, V>, lo: int, hi: int)
    requires lo <= hi
    ensures Cleared(m, lo, hi) - {hi} == Cleared(m, lo, hi + 1)
    ensures hi in m ==> |Cleared(m, lo, hi + 1)| < |Cleared(m, lo, hi)|
  {
    var r := Cleared(m, lo, hi);
    MapExt(r - {hi}, Cleared(m, lo, hi + 1));
    if hi in m {
      assert (r - {hi}).Keys == r.Keys - {hi};
    }
  }
}
