/** BM25 over an inverted index, against scoring every document directly. Documents and queries are
    token lists; numbers are reals. */
module Bm25 {

  type Doc = seq<string>

  /** The scorer's two constants and the logarithm. */
  datatype Params = Params(k1: real, b: real, ln: real -> real)

  predicate Sensible(p: Params) {
    p.k1 >= 0.0 && 0.0 <= p.b <= 1.0
  }

  // ---------------------------------------------------------------- the direct definition

  function Tf(doc: Doc, term: string): nat {
    if doc == [] then 0 else Tf(doc[..|doc| - 1], term) + if doc[|doc| - 1] == term then 1 else 0
  }

  function Df(docs: seq<Doc>, term: string): nat {
    if docs == [] then 0 else Df(docs[..|docs| - 1], term) + if Tf(docs[|docs| - 1], term) > 0 then 1 else 0
  }

  function Tokens(docs: seq<Doc>): nat {
    if docs == [] then 0 else Tokens(docs[..|docs| - 1]) + |docs[|docs| - 1]|
  }

  function AverageLength(docs: seq<Doc>): real {
    Tokens(docs) as real / (if |docs| == 0 then 1 else |docs|) as real
  }

  lemma {:induction false} TfPositive(doc: Doc, term: string)
    ensures Tf(doc, term) > 0 <==> term in doc
    ensures Tf(doc, term) <= |doc|
  {
    if doc != [] {
      TfPositive(doc[..|doc| - 1], term);
      assert doc == doc[..|doc| - 1] + [doc[|doc| - 1]];
    }
  }

  lemma {:induction false} TokensBound(docs: seq<Doc>, d: nat)
    requires d < |docs|
    ensures |docs[d]| <= Tokens(docs)
  {
    if d < |docs| - 1 {
      TokensBound(docs[..|docs| - 1], d);
    }
  }

  /** The average is never zero when it is divided by: some document has a token. */
  lemma AverageIsPositive(docs: seq<Doc>, d: nat, term: string)
    requires d < |docs| && Tf(docs[d], term) > 0
    ensures AverageLength(docs) > 0.0
  {
    TfPositive(docs[d], term);
    TokensBound(docs, d);
    assert Tokens(docs) >= 1;
  }

  function Idf(p: Params, n: nat, df: nat): real {
    p.ln(1.0 + ((n as real - df as real) + 0.5) / (df as real + 0.5))
  }

  function Denominator(p: Params, f: nat, length: nat, average: real): real
    requires average != 0.0
  {
    f as real + p.k1 * (1.0 - p.b + p.b * length as real / average)
  }

  lemma DenominatorIsPositive(p: Params, f: nat, length: nat, average: real)
    requires Sensible(p) && f > 0 && average > 0.0
    ensures Denominator(p, f, length, average) > 0.0
  {
    NonNegative(p.b, length as real, average);
    var rest := 1.0 - p.b + p.b * length as real / average;
    NonNegative(p.k1, rest, 1.0);
    assert Denominator(p, f, length, average) == f as real + p.k1 * rest;
    assert f as real >= 1.0;
  }

  lemma NonNegative(x: real, y: real, z: real)
    requires x >= 0.0 && y >= 0.0 && z > 0.0
    ensures x * y >= 0.0 && x * y / z >= 0.0
  {
  }

  /** What one term adds to the score of a document that has it f times. */
  function Gain(p: Params, idf: real, f: nat, length: nat, average: real): real
    requires average != 0.0 && Denominator(p, f, length, average) != 0.0
  {
    idf * (f as real * (p.k1 + 1.0)) / Denominator(p, f, length, average)
  }

  /** The formula does not divide by zero. */
  predicate Defined(p: Params, docs: seq<Doc>, term: string, d: nat)
    requires d < |docs|
  {
    Tf(docs[d], term) > 0 ==>
      AverageLength(docs) != 0.0 && Denominator(p, Tf(docs[d], term), |docs[d]|, AverageLength(docs)) != 0.0
  }

  ghost predicate TermDefined(p: Params, docs: seq<Doc>, term: string) {
    forall d: nat :: d < |docs| ==> Defined(p, docs, term, d)
  }

  /** With the usual constants it never does. */
  lemma SensibleIsDefined(p: Params, docs: seq<Doc>, term: string)
    requires Sensible(p)
    ensures TermDefined(p, docs, term)
  {
    hide Tf, AverageLength, Denominator;
    forall d: nat | d < |docs| ensures Defined(p, docs, term, d) {
      if Tf(docs[d], term) > 0 {
        AverageIsPositive(docs, d, term);
        DenominatorIsPositive(p, Tf(docs[d], term), |docs[d]|, AverageLength(docs));
      }
    }
  }

  /** The BM25 formula for one term and one document, where it is defined. */
  function TermScore(p: Params, docs: seq<Doc>, term: string, d: nat): real
    requires d < |docs|
  {
    if Tf(docs[d], term) == 0 || !Defined(p, docs, term, d) then 0.0
    else
      Gain(p, Idf(p, |docs|, Df(docs, term)), Tf(docs[d], term), |docs[d]|, AverageLength(docs))
  }

  /** The direct score: the formula summed over the query's distinct terms. */
  function Score(p: Params, docs: seq<Doc>, terms: seq<string>, d: nat): real
    requires d < |docs|
  {
    if terms == [] then 0.0 else Score(p, docs, terms[..|terms| - 1], d) + TermScore(p, docs, terms[|terms| - 1], d)
  }

  predicate Shares(doc: Doc, terms: seq<string>) {
    exists t :: t in terms && t in doc
  }

  ghost predicate NoRepeats(terms: seq<string>) {
    forall i, j :: 0 <= i < j < |terms| ==> terms[i] != terms[j]
  }

  lemma {:induction false} ScoreCut(p: Params, docs: seq<Doc>, left: seq<string>, term: string, right: seq<string>, d: nat)
    requires d < |docs|
    ensures Score(p, docs, left + [term] + right, d) == Score(p, docs, left + right, d) + TermScore(p, docs, term, d)
  {
    hide TermScore;
    if right == [] {
      assert (left + [term] + right)[..|left|] == left && left + right == left;
    } else {
      var shorter := right[..|right| - 1];
      ScoreCut(p, docs, left, term, shorter, d);
      assert (left + [term] + right)[..|left| + |right|] == left + [term] + shorter;
      assert (left + right)[..|left| + |right| - 1] == left + shorter;
    }
  }

  /** The order in which a set of terms is visited does not matter. */
  lemma {:induction false} ScoreOrderFree(p: Params, docs: seq<Doc>, a: seq<string>, b: seq<string>, d: nat)
    requires d < |docs| && NoRepeats(a) && NoRepeats(b) && forall t :: t in a <==> t in b
    ensures Score(p, docs, a, d) == Score(p, docs, b, d)
    decreases |a|
  {
    hide TermScore, Score, NoRepeats;
    assert b != [] ==> b[0] in b;
    if a != [] {
      var rest, t := a[..|a| - 1], a[|a| - 1];
      assert a == rest + [t] + [] && rest + [] == rest;
      assert t in a;
      var i :| 0 <= i < |b| && b[i] == t;
      var left, right := b[..i], b[i + 1..];
      assert b == left + [t] + right;
      ScoreCut(p, docs, rest, t, [], d);
      ScoreCut(p, docs, left, t, right, d);
      Without(rest, t, []);
      Without(left, t, right);
      ScoreOrderFree(p, docs, rest, left + right, d);
    }
  }

  lemma Without(left: seq<string>, t: string, right: seq<string>)
    requires NoRepeats(left + [t] + right)
    ensures NoRepeats(left + right) && forall u :: u in left + right <==> u in left + [t] + right && u != t
  {
    var all, rest := left + [t] + right, left + right;
    assert all[|left|] == t;
    forall u ensures u in rest <==> u in all && u != t {
      if u in rest {
        var k :| 0 <= k < |rest| && rest[k] == u;
        assert all[if k < |left| then k else k + 1] == u;
      }
    }
    forall i, j | 0 <= i < j < |rest| ensures rest[i] != rest[j] {
      assert rest[i] == all[if i < |left| then i else i + 1] && rest[j] == all[if j < |left| then j else j + 1];
    }
  }

  // ---------------------------------------------------------------- the index

  /** The documents that have a term, with their counts, in order. */
  function Postings(docs: seq<Doc>, term: string): (r: seq<(nat, nat)>) {
    if docs == [] then [] else
      var n := |docs| - 1;
      Postings(docs[..n], term) + if Tf(docs[n], term) > 0 then [(n, Tf(docs[n], term))] else []
  }

  /** Each document that has the term is listed, once. */
  lemma {:induction false} PostingsList(docs: seq<Doc>, term: string)
    ensures forall i :: 0 <= i < |Postings(docs, term)| ==>
                          var e := Postings(docs, term)[i]; e.0 < |docs| && e.1 > 0 && e.1 == Tf(docs[e.0], term)
    ensures forall i, j :: 0 <= i < j < |Postings(docs, term)| ==> Postings(docs, term)[i].0 < Postings(docs, term)[j].0
    ensures forall d :: 0 <= d < |docs| && Tf(docs[d], term) > 0 ==> (d, Tf(docs[d], term)) in Postings(docs, term)
    ensures |Postings(docs, term)| == Df(docs, term)
  {
    hide Tf;
    if docs != [] {
      var n := |docs| - 1;
      PostingsList(docs[..n], term);
      forall d | 0 <= d < |docs| && Tf(docs[d], term) > 0 ensures (d, Tf(docs[d], term)) in Postings(docs, term) {
        if d < n {
          assert docs[..n][d] == docs[d];
          assert (d, Tf(docs[d], term)) in Postings(docs[..n], term);
        } else {
          assert Postings(docs, term)[|Postings(docs, term)| - 1] == (n, Tf(docs[n], term));
        }
      }
    }
  }

  function Get(post: map<string, seq<(nat, nat)>>, term: string): seq<(nat, nat)> {
    if term in post then post[term] else []
  }

  function GetDf(df: map<string, nat>, term: string): nat {
    if term in df then df[term] else 0
  }

  /** The distinct tokens of a document in the order they come, with their counts. */
  method Counter(doc: Doc) returns (order: seq<string>, counts: map<string, nat>)
    ensures NoRepeats(order) && forall t :: t in order <==> t in doc
    ensures forall t :: t in counts <==> t in doc
    ensures forall t :: t in counts ==> counts[t] == Tf(doc, t)
  {
    order, counts := [], map[];
    for i := 0 to |doc|
      invariant NoRepeats(order) && forall t :: t in order <==> t in doc[..i]
      invariant forall t :: t in counts <==> t in doc[..i]
      invariant forall t :: t in counts ==> counts[t] == Tf(doc[..i], t)
    {
      assert doc[..i + 1][..i] == doc[..i];
      assert forall t :: t in doc[..i + 1] <==> t in doc[..i] || t == doc[i];
      if doc[i] !in counts {
        TfPositive(doc[..i], doc[i]);
        order := order + [doc[i]];
        counts := counts[doc[i] := 1];
      } else {
        counts := counts[doc[i] := counts[doc[i]] + 1];
      }
    }
    assert doc[..|doc|] == doc;
  }

  // ---------------------------------------------------------------- scores through the postings

  function ValueAt(scores: map<nat, real>, d: nat): real {
    if d in scores then scores[d] else 0.0
  }

  ghost predicate Listed(list: seq<(nat, nat)>, d: nat) {
    exists i :: 0 <= i < |list| && list[i].0 == d
  }

  ghost predicate Distinct(found: seq<nat>) {
    forall i, j :: 0 <= i < j < |found| ==> found[i] != found[j]
  }

  ghost predicate SameKeys(scores: map<nat, real>, found: seq<nat>) {
    forall d: nat :: d in scores <==> d in found
  }

  /** The score table after some of the query's terms. */
  ghost predicate Scored(p: Params, docs: seq<Doc>, terms: seq<string>, scores: map<nat, real>, found: seq<nat>)
  {
    && SameKeys(scores, found) && Distinct(found)
    && (forall d: nat :: d in found <==> d < |docs| && Shares(docs[d], terms))
    && (forall d: nat :: d < |docs| ==> ValueAt(scores, d) == Score(p, docs, terms, d))
  }

  lemma SharesMore(doc: Doc, terms: seq<string>, t: string)
    ensures Shares(doc, terms + [t]) <==> Shares(doc, terms) || Tf(doc, t) > 0
  {
    TfPositive(doc, t);
    assert forall u :: u in terms + [t] <==> u in terms || u == t;
  }

  lemma ListedIff(docs: seq<Doc>, t: string, d: nat)
    ensures Listed(Postings(docs, t), d) <==> d < |docs| && Tf(docs[d], t) > 0
  {
    hide Tf, Postings;
    PostingsList(docs, t);
    if d < |docs| && Tf(docs[d], t) > 0 {
      var i :| 0 <= i < |Postings(docs, t)| && Postings(docs, t)[i] == (d, Tf(docs[d], t));
    }
  }

  /** The table after a term whose postings were added in. */
  lemma ScoredMore(p: Params, docs: seq<Doc>, terms: seq<string>, t: string,
                   scores: map<nat, real>, found: seq<nat>, scores': map<nat, real>, found': seq<nat>)
    requires Scored(p, docs, terms, scores, found) && SameKeys(scores', found') && Distinct(found')
    requires forall d: nat :: d in found' <==> d in found || Listed(Postings(docs, t), d)
    requires forall d: nat :: d < |docs| ==> ValueAt(scores', d) == ValueAt(scores, d) + if Listed(Postings(docs, t), d) then TermScore(p, docs, t, d) else 0.0
    ensures Scored(p, docs, terms + [t], scores', found')
  {
    hide Listed, Postings, Shares;
    assert (terms + [t])[..|terms|] == terms;
    forall d: nat ensures d in found' <==> d < |docs| && Shares(docs[d], terms + [t]) {
      ListedIff(docs, t, d);
      if d < |docs| {
        SharesMore(docs[d], terms, t);
      }
    }
    forall d: nat | d < |docs| ensures ValueAt(scores', d) == Score(p, docs, terms + [t], d) {
      ListedIff(docs, t, d);
    }
  }

  lemma ListedMore(list: seq<(nat, nat)>, m: nat, d: nat)
    requires m < |list|
    ensures Listed(list[..m + 1], d) <==> Listed(list[..m], d) || d == list[m].0
  {
    var longer, shorter := list[..m + 1], list[..m];
    if Listed(longer, d) {
      var i :| 0 <= i < |longer| && longer[i].0 == d;
      assert i < m ==> shorter[i].0 == d;
    }
    if Listed(shorter, d) {
      var i :| 0 <= i < |shorter| && shorter[i].0 == d;
      assert longer[i].0 == d;
    }
    assert longer[m].0 == list[m].0;
  }

  /** The index of the earlier documents plus one document's entries for some of its terms. */
  ghost predicate Added(before: seq<Doc>, post: map<string, seq<(nat, nat)>>, df: map<string, nat>, i: nat, terms: seq<string>, counts: map<string, nat>) {
    && (forall t :: t in terms ==> t in counts)
    && (forall t :: Get(post, t) == if t in terms then Postings(before, t) + [(i, counts[t])] else Postings(before, t))
    && (forall t :: GetDf(df, t) == Df(before, t) + if t in terms then 1 else 0)
  }

  /** The postings and document frequencies of the given documents, term by term. */
  ghost predicate Indexed(docs: seq<Doc>, post: map<string, seq<(nat, nat)>>, df: map<string, nat>) {
    && (forall t :: Get(post, t) == Postings(docs, t))
    && (forall t :: GetDf(df, t) == Df(docs, t))
  }

  lemma NoneIndexed(docs: seq<Doc>)
    requires docs == []
    ensures Indexed(docs, map[], map[])
  {
  }

  lemma AddedNone(before: seq<Doc>, post: map<string, seq<(nat, nat)>>, df: map<string, nat>, i: nat, counts: map<string, nat>)
    requires Indexed(before, post, df)
    ensures Added(before, post, df, i, [], counts)
  {
    hide Postings, Df;
  }

  lemma AddedAll(docs: seq<Doc>, i: nat, post: map<string, seq<(nat, nat)>>, df: map<string, nat>, terms: seq<string>, counts: map<string, nat>)
    requires i < |docs| && Added(docs[..i], post, df, i, terms, counts) && (forall t :: t in terms <==> t in docs[i])
    requires forall t :: t in counts ==> counts[t] == Tf(docs[i], t)
    ensures Indexed(docs[..i + 1], post, df)
  {
    hide Tf;
    assert docs[..i + 1][..i] == docs[..i];
    forall t ensures Get(post, t) == Postings(docs[..i + 1], t) && GetDf(df, t) == Df(docs[..i + 1], t) {
      TfPositive(docs[i], t);
    }
  }

  lemma AddedOne(before: seq<Doc>, post: map<string, seq<(nat, nat)>>, df: map<string, nat>, i: nat, terms: seq<string>, counts: map<string, nat>, t: string)
    requires Added(before, post, df, i, terms, counts) && t !in terms && t in counts
    ensures Added(before, post[t := Get(post, t) + [(i, counts[t])]], df[t := GetDf(df, t) + 1], i, terms + [t], counts)
  {
    hide Postings, Df;
    assert forall u :: u in terms + [t] <==> u in terms || u == t;
  }

  class Index {
    const docs: seq<Doc>
    const params: Params
    var post: map<string, seq<(nat, nat)>>
    var df: map<string, nat>
    var average: real

    ghost predicate Valid()
      reads this
    {
      && average == AverageLength(docs)
      && Indexed(docs, post, df)
    }

    constructor (docs: seq<Doc>, params: Params)
      ensures Valid() && this.docs == docs && this.params == params
    {
      this.docs := docs;
      this.params := params;
      post, df := map[], map[];
      average := AverageLength(docs);
      new;
      hide Indexed, Added;
      NoneIndexed(docs[..0]);
      for i := 0 to |docs|
        invariant average == AverageLength(docs)
        invariant Indexed(docs[..i], post, df)
      {
        var order, counts := Counter(docs[i]);
        AddDoc(i, order, counts, docs[..i]);
        AddedAll(docs, i, post, df, order, counts);
      }
      assert docs[..|docs|] == docs;
    }

    /** Appends one document to the postings of each of its terms. */
    method AddDoc(i: nat, order: seq<string>, counts: map<string, nat>, ghost before: seq<Doc>)
      requires NoRepeats(order) && forall t :: t in order ==> t in counts
      requires Indexed(before, post, df)
      modifies this`post, this`df
      ensures Added(before, post, df, i, order, counts)
    {
      hide Indexed, Added, Get, GetDf;
      AddedNone(before, post, df, i, counts);
      assert order[..0] == [];
      for j := 0 to |order|
        invariant Added(before, post, df, i, order[..j], counts)
      {
        assert order[..j + 1] == order[..j] + [order[j]] && order[j] in order && order[j] !in order[..j];
        AddedOne(before, post, df, i, order[..j], counts, order[j]);
        post := post[order[j] := Get(post, order[j]) + [(i, counts[order[j]])]];
        df := df[order[j] := GetDf(df, order[j]) + 1];
      }
      assert order[..|order|] == order;
    }

    /** Scores through the postings: the same numbers as scoring directly, for exactly the documents
        that share a term with the query. It fails exactly when the direct formula divides by zero. */
    method Scores(terms: seq<string>) returns (ok: bool, scores: map<nat, real>, found: seq<nat>)
      requires Valid() && NoRepeats(terms)
      ensures ok <==> forall t :: t in terms ==> TermDefined(params, docs, t)
      ensures ok ==> Scored(params, docs, terms, scores, found)
    {
      hide Postings, Df, TermScore, Tf, Scored, TermDefined;
      ok, scores, found := true, map[], [];
      assert Scored(params, docs, terms[..0], scores, found) by { NothingScored(params, docs); }
      for n := 0 to |terms|
        invariant ok && Scored(params, docs, terms[..n], scores, found)
        invariant forall i :: 0 <= i < n ==> TermDefined(params, docs, terms[i])
      {
        assert terms[..n + 1] == terms[..n] + [terms[n]];
        var t := terms[n];
        ghost var scores0, found0 := scores, found;
        assert SameKeys(scores, found) && Distinct(found) by { ScoredKeys(params, docs, terms[..n], scores, found); }
        if t in post {
          ok, scores, found := AddTerm(scores, found, t);
          if !ok {
            assert t in terms;
            return;
          }
        } else {
          assert Postings(docs, t) == [];
          NoPostings(params, docs, t);
        }
        ScoredMore(params, docs, terms[..n], t, scores0, found0, scores, found);
      }
      assert terms[..|terms|] == terms;
    }

    /** Adds one term's gain to each document in its postings. */
    method AddTerm(scores0: map<nat, real>, found0: seq<nat>, t: string) returns (ok: bool, scores: map<nat, real>, found: seq<nat>)
      requires Valid() && t in post && SameKeys(scores0, found0) && Distinct(found0)
      ensures ok <==> TermDefined(params, docs, t)
      ensures ok ==> SameKeys(scores, found) && Distinct(found)
      ensures ok ==> forall d: nat :: d in found <==> d in found0 || Listed(Postings(docs, t), d)
      ensures ok ==> forall d: nat :: d < |docs| ==> ValueAt(scores, d) == ValueAt(scores0, d) + if Listed(Postings(docs, t), d) then TermScore(params, docs, t, d) else 0.0
    {
      hide Postings, Df, Tf, Listed, Gain, Idf, Denominator;
      ok, scores, found := true, scores0, found0;
      var list := post[t];
      assert list == Postings(docs, t) by { assert Get(post, t) == post[t]; }
      PostingsList(docs, t);
      var idf := Idf(params, |docs|, GetDf(df, t));
      NoneListed(list[..0]);
      for m := 0 to |list|
        invariant ok && SameKeys(scores, found) && Distinct(found)
        invariant forall d: nat :: d in found <==> d in found0 || Listed(list[..m], d)
        invariant forall d: nat :: d < |docs| ==> ValueAt(scores, d) == ValueAt(scores0, d) + if Listed(list[..m], d) then TermScore(params, docs, t, d) else 0.0
        invariant forall d: nat :: d < |docs| && Listed(list[..m], d) ==> Defined(params, docs, t, d)
      {
        var i, f := list[m].0, list[m].1;
        NotYetListed(list, m);
        AverageIsPositive(docs, i, t);
        if Denominator(params, f, |docs[i]|, average) == 0.0 {
          assert !Defined(params, docs, t, i);
          return false, scores, found;
        }
        var gain := Gain(params, idf, f, |docs[i]|, average);
        assert gain == TermScore(params, docs, t, i);
        forall d: nat ensures Listed(list[..m + 1], d) <==> Listed(list[..m], d) || d == i {
          ListedMore(list, m, d);
        }
        if i !in scores {
          found := found + [i];
        }
        scores := scores[i := ValueAt(scores, i) + gain];
      }
      assert list[..|list|] == list;
      forall d: nat | d < |docs| ensures Defined(params, docs, t, d) {
        ListedIff(docs, t, d);
      }
    }

    /** The documents with the best scores, best first, in whatever order the query's distinct terms
        are summed. */
    method Top(query: seq<string>, k: nat) returns (ok: bool, top: seq<nat>)
      requires Valid()
      ensures ok <==> forall t :: t in query ==> TermDefined(params, docs, t)
      ensures ok ==> forall terms :: TermsOf(terms, query) ==> BestOf(params, docs, terms, k, top)
    {
      hide Scored, Score, BestOf, TermDefined;
      var terms, counts := Counter(query);
      var scores, found;
      ok, scores, found := Scores(terms);
      top := [];
      if !ok {
        return;
      }
      assert SameKeys(scores, found) && Distinct(found) by { ScoredKeys(params, docs, terms, scores, found); }
      var sorted := SortByScore(scores, found);
      top := sorted[..if k < |sorted| then k else |sorted|];
      BestPrefix(params, docs, terms, scores, found, sorted, k);
      forall others | TermsOf(others, query) ensures BestOf(params, docs, others, k, top) {
        BestAnyOrder(params, docs, terms, others, k, top);
      }
    }
  }

  /** The distinct tokens of a query, in some order. */
  ghost predicate TermsOf(terms: seq<string>, query: seq<string>) {
    NoRepeats(terms) && forall t :: t in terms <==> t in query
  }

  lemma BestAnyOrder(p: Params, docs: seq<Doc>, terms: seq<string>, others: seq<string>, k: nat, top: seq<nat>)
    requires BestOf(p, docs, terms, k, top)
    requires NoRepeats(terms) && NoRepeats(others) && forall t :: t in terms <==> t in others
    ensures BestOf(p, docs, others, k, top)
  {
    hide Score, NoRepeats;
    forall d: nat ensures (Candidate(docs, others, d) <==> Candidate(docs, terms, d))
                          && (d < |docs| ==> Score(p, docs, others, d) == Score(p, docs, terms, d)) {
      if d < |docs| {
        ScoreOrderFree(p, docs, terms, others, d);
      }
    }
    hide Candidate;
  }

  lemma NoPostings(p: Params, docs: seq<Doc>, t: string)
    requires Postings(docs, t) == []
    ensures TermDefined(p, docs, t)
  {
    forall d: nat | d < |docs| ensures Defined(p, docs, t, d) {
      ListedIff(docs, t, d);
    }
  }

  lemma NothingScored(p: Params, docs: seq<Doc>)
    ensures Scored(p, docs, [], map[], [])
  {
  }

  lemma ScoredKeys(p: Params, docs: seq<Doc>, terms: seq<string>, scores: map<nat, real>, found: seq<nat>)
    requires Scored(p, docs, terms, scores, found)
    ensures SameKeys(scores, found) && Distinct(found)
  {
  }

  lemma NoneListed(list: seq<(nat, nat)>)
    requires list == []
    ensures forall d: nat :: !Listed(list, d)
  {
  }

  lemma NotYetListed(list: seq<(nat, nat)>, m: nat)
    requires m < |list| && forall i, j :: 0 <= i < j < |list| ==> list[i].0 < list[j].0
    ensures !Listed(list[..m], list[m].0)
  {
  }

  // ---------------------------------------------------------------- the best k

  ghost predicate Descending(scores: map<nat, real>, s: seq<nat>) {
    forall i, j :: 0 <= i < j < |s| ==> ValueAt(scores, s[i]) >= ValueAt(scores, s[j])
  }

  lemma HeadFirst(scores: map<nat, real>, x: nat, s: seq<nat>, tail: seq<nat>)
    requires s != [] && Descending(scores, s) && ValueAt(scores, x) <= ValueAt(scores, s[0])
    requires Descending(scores, tail) && (forall y :: y in tail <==> y == x || y in s[1..]) && (Distinct(s[1..]) && x !in s[1..] ==> Distinct(tail))
    ensures Descending(scores, [s[0]] + tail) && (Distinct(s) && x !in s ==> Distinct([s[0]] + tail))
  {
    forall i | 0 <= i < |tail| ensures ValueAt(scores, s[0]) >= ValueAt(scores, tail[i]) && (Distinct(s) && x !in s ==> tail[i] != s[0]) {
      assert tail[i] in tail;
      if tail[i] != x {
        var j :| 0 <= j < |s[1..]| && s[1..][j] == tail[i];
        assert s[j + 1] == tail[i];
      }
    }
  }

  function InsertByScore(scores: map<nat, real>, x: nat, s: seq<nat>): (r: seq<nat>)
    requires Descending(scores, s)
    ensures Descending(scores, r) && |r| == |s| + 1 && forall y :: y in r <==> y == x || y in s
    ensures Distinct(s) && x !in s ==> Distinct(r)
  {
    if s == [] || ValueAt(scores, x) > ValueAt(scores, s[0]) then [x] + s
    else
      var tail := InsertByScore(scores, x, s[1..]);
      assert Descending(scores, [s[0]] + tail) && (Distinct(s) && x !in s ==> Distinct([s[0]] + tail)) by {
        HeadFirst(scores, x, s, tail);
      }
      assert forall y :: y in s <==> y == s[0] || y in s[1..];
      [s[0]] + tail
  }

  /** A stable sort by descending score. */
  method SortByScore(scores: map<nat, real>, found: seq<nat>) returns (s: seq<nat>)
    requires Distinct(found)
    ensures Descending(scores, s) && Distinct(s) && |s| == |found| && forall y :: y in s <==> y in found
  {
    s := [];
    for i := |found| downto 0
      invariant Descending(scores, s) && Distinct(s) && |s| == |found| - i && forall y :: y in s <==> y in found[i..]
    {
      assert found[i..] == [found[i]] + found[i + 1..];
      s := InsertByScore(scores, found[i], s);
    }
    assert found[0..] == found;
  }

  /** A score-descending list of k candidates, or of all when there are fewer, that beats the rest. */
  ghost predicate BestOf(p: Params, docs: seq<Doc>, terms: seq<string>, k: nat, top: seq<nat>)
  {
    && Distinct(top)
    && (forall i :: 0 <= i < |top| ==> Candidate(docs, terms, top[i]))
    && (forall i, j :: 0 <= i < j < |top| ==> (
           && Candidate(docs, terms, top[i]) && Candidate(docs, terms, top[j])
           && Score(p, docs, terms, top[i]) >= Score(p, docs, terms, top[j])))
    && |top| <= k
    && (forall d: nat :: Candidate(docs, terms, d) && d !in top ==>
                           |top| == k && forall i :: 0 <= i < |top| ==> Candidate(docs, terms, top[i]) && Score(p, docs, terms, top[i]) >= Score(p, docs, terms, d))
  }

  /** A document that shares a term with the query. */
  ghost predicate Candidate(docs: seq<Doc>, terms: seq<string>, d: nat) {
    d < |docs| && Shares(docs[d], terms)
  }

  lemma BestPrefix(p: Params, docs: seq<Doc>, terms: seq<string>, scores: map<nat, real>, found: seq<nat>, sorted: seq<nat>, k: nat)
    requires Scored(p, docs, terms, scores, found)
    requires Descending(scores, sorted) && Distinct(sorted) && forall y :: y in sorted <==> y in found
    ensures BestOf(p, docs, terms, k, sorted[..if k < |sorted| then k else |sorted|])
  {
    hide Shares, Score;
    var top := sorted[..if k < |sorted| then k else |sorted|];
    forall i | 0 <= i < |top| ensures Candidate(docs, terms, top[i]) && ValueAt(scores, top[i]) == Score(p, docs, terms, top[i]) {
      assert sorted[i] in sorted;
    }
    forall d: nat | Candidate(docs, terms, d) && d !in top
      ensures |top| == k && forall i :: 0 <= i < |top| ==> Candidate(docs, terms, top[i]) && Score(p, docs, terms, top[i]) >= Score(p, docs, terms, d)
    {
      assert d in found && d in sorted;
      var j :| 0 <= j < |sorted| && sorted[j] == d;
      assert forall i :: 0 <= i < |top| ==> sorted[i] in top;
      forall i | 0 <= i < |top| ensures Candidate(docs, terms, top[i]) && Score(p, docs, terms, top[i]) >= Score(p, docs, terms, d) {
        assert ValueAt(scores, sorted[i]) >= ValueAt(scores, sorted[j]);
      }
    }
  }
}
