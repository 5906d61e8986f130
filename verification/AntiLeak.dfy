/** The anti-leak gate: queries whose best match is their own evidence are paraphrased, a control group
    is left alone, and the books must balance. */
module AntiLeak {

  datatype Row = Row(id: string, stratum: string, answerable: bool, query: string, evidence: set<string>, control: bool, rewrites: nat)

  /** Retrieval and paraphrasing as given functions: the best match of a query, and its paraphrase. */
  datatype Tools = Tools(best: string -> string, paraphrase: string -> string)

  predicate Hit(t: Tools, r: Row) {
    t.best(r.query) in r.evidence
  }

  datatype Outcome = NotEvaluated | Control | Clean | Rewritten | Unrewritable

  function OutcomeOf(t: Tools, r: Row): Outcome {
    if !r.answerable then NotEvaluated
    else if r.control then Control
    else if !Hit(t, r) then Clean
    else if t.paraphrase(r.query) != r.query && t.best(t.paraphrase(r.query)) !in r.evidence then Rewritten
    else Unrewritable
  }

  function Count(rows: seq<Row>, p: Row -> bool): nat {
    if rows == [] then 0 else Count(rows[..|rows| - 1], p) + if p(rows[|rows| - 1]) then 1 else 0
  }

  // ---------------------------------------------------------------- the control group

  ghost function Answerable(): Row -> bool {
    (r: Row) => r.answerable
  }

  /** Every twentieth of the returning rows is in the control group. */
  ghost predicate Marked(rows: seq<Row>, marked: seq<Row>) {
    && |marked| == |rows|
    && forall i :: 0 <= i < |rows| ==>
         marked[i] == if rows[i].answerable then rows[i].(control := Count(rows[..i], Answerable()) % 20 == 0) else rows[i]
  }

  lemma NoneMarked(rows: seq<Row>)
    requires rows == []
    ensures Marked(rows, [])
  {
  }

  lemma MarkOne(rows: seq<Row>, i: nat, marked: seq<Row>)
    requires i < |rows| && Marked(rows[..i], marked)
    ensures Count(rows[..i + 1], Answerable()) == Count(rows[..i], Answerable()) + if rows[i].answerable then 1 else 0
    ensures var r := rows[i];
            Marked(rows[..i + 1], marked + [if r.answerable then r.(control := Count(rows[..i], Answerable()) % 20 == 0) else r])
  {
    assert rows[..i + 1][..i] == rows[..i];
    hide Count;
    forall k | 0 <= k <= i ensures rows[..i + 1][..k] == rows[..k] && (k < i ==> rows[..i][..k] == rows[..k]) {
    }
  }

  method MarkControls(rows: seq<Row>) returns (marked: seq<Row>)
    ensures Marked(rows, marked)
  {
    hide Marked;
    assert Marked(rows[..0], []) by { NoneMarked(rows[..0]); }
    marked := [];
    var idx := 0;
    assert rows[..0] == [];
    for i := 0 to |rows|
      invariant Marked(rows[..i], marked) && idx == Count(rows[..i], Answerable())
    {
      MarkOne(rows, i, marked);
      if rows[i].answerable {
        marked := marked + [rows[i].(control := idx % 20 == 0)];
        idx := idx + 1;
      } else {
        marked := marked + [rows[i]];
      }
    }
    assert rows[..|rows|] == rows;
  }

  ghost function InControl(): Row -> bool {
    (r: Row) => r.answerable && r.control
  }

  /** One in twenty, rounded up. */
  lemma {:induction false} ControlGroupSize(rows: seq<Row>, marked: seq<Row>)
    requires Marked(rows, marked)
    ensures Count(marked, InControl()) == (Count(rows, Answerable()) + 19) / 20
  {
    if rows != [] {
      var n := |rows| - 1;
      assert forall k :: 0 <= k < n ==> rows[..n][..k] == rows[..k];
      ControlGroupSize(rows[..n], marked[..n]);
      assert marked[n] == if rows[n].answerable then rows[n].(control := Count(rows[..n], Answerable()) % 20 == 0) else rows[n];
    }
  }

  // ---------------------------------------------------------------- the gate

  datatype Stat = Stat(evaluated: nat, hits: nat, rewritten: nat, unrewritable: nat, clean: nat, control: nat)

  /** The rows the counters are about: all of them, or those of one stratum. */
  datatype Scope = All | Only(stratum: string)

  predicate In(scope: Scope, r: Row) {
    scope.Only? ==> r.stratum == scope.stratum
  }

  ghost function With(t: Tools, scope: Scope, o: Outcome): Row -> bool {
    (r: Row) => In(scope, r) && OutcomeOf(t, r) == o
  }

  ghost function Evaluated(scope: Scope): Row -> bool {
    (r: Row) => In(scope, r) && r.answerable
  }

  ghost function Hits(t: Tools, scope: Scope): Row -> bool {
    (r: Row) => In(scope, r) && r.answerable && Hit(t, r)
  }

  /** The counters describe the rows. */
  ghost predicate Describes(t: Tools, scope: Scope, rows: seq<Row>, s: Stat) {
    && s.evaluated == Count(rows, Evaluated(scope))
    && s.hits == Count(rows, Hits(t, scope))
    && s.rewritten == Count(rows, With(t, scope, Rewritten))
    && s.unrewritable == Count(rows, With(t, scope, Unrewritable))
    && s.clean == Count(rows, With(t, scope, Clean))
    && s.control == Count(rows, With(t, scope, Control))
  }

  function Released(t: Tools, r: Row): Row {
    if OutcomeOf(t, r) == Rewritten then r.(query := t.paraphrase(r.query), rewrites := r.rewrites + 1) else r
  }

  /** One row's effect on the counters of a scope it belongs to. */
  function Bumped(t: Tools, s: Stat, r: Row): Stat {
    if !r.answerable then s
    else
      var s := s.(evaluated := s.evaluated + 1, hits := s.hits + if Hit(t, r) then 1 else 0);
      match OutcomeOf(t, r)
      case NotEvaluated => s
      case Control => s.(control := s.control + 1)
      case Clean => s.(clean := s.clean + 1)
      case Rewritten => s.(rewritten := s.rewritten + 1)
      case Unrewritable => s.(unrewritable := s.unrewritable + 1)
  }

  lemma DescribesMore(t: Tools, scope: Scope, rows: seq<Row>, r: Row, s: Stat)
    requires Describes(t, scope, rows, s)
    ensures Describes(t, scope, rows + [r], if In(scope, r) then Bumped(t, s, r) else s)
  {
    assert (rows + [r])[..|rows|] == rows;
  }

  datatype Audit = Audit(rows: seq<Row>, total: Stat, strata: map<string, Stat>, releasedHits: nat)

  datatype Verdict = Passed(audit: Audit) | TooManyHits(audit: Audit)

  /** What the gate reports, row by row and count by count. */
  ghost predicate Reports(t: Tools, marked: seq<Row>, a: Audit) {
    && |a.rows| == |marked| && (forall i :: 0 <= i < |marked| ==> a.rows[i] == Released(t, marked[i]))
    && Describes(t, All, marked, a.total)
    && (forall i :: 0 <= i < |marked| ==> marked[i].stratum in a.strata)
    && (forall s :: s in a.strata ==> Describes(t, Only(s), marked, a.strata[s]))
    && a.releasedHits == Count(a.rows, Hits(t, All))
  }

  method InitialStats(rows: seq<Row>) returns (strata: map<string, Stat>)
    ensures forall i :: 0 <= i < |rows| ==> rows[i].stratum in strata
    ensures forall s :: s in strata ==> strata[s] == Stat(0, 0, 0, 0, 0, 0)
  {
    strata := map[];
    for i := 0 to |rows|
      invariant forall k :: 0 <= k < i ==> rows[k].stratum in strata
      invariant forall s :: s in strata ==> strata[s] == Stat(0, 0, 0, 0, 0, 0)
    {
      strata := strata[rows[i].stratum := Stat(0, 0, 0, 0, 0, 0)];
    }
  }

  /** The gate's loop body: the branches of one evaluated row. */
  method Judge(t: Tools, r: Row, total: Stat, stratum: Stat) returns (r': Row, total': Stat, stratum': Stat)
    ensures r' == Released(t, r) && total' == Bumped(t, total, r) && stratum' == Bumped(t, stratum, r)
  {
    r', total', stratum' := r, total, stratum;
    if !r.answerable {
      return;
    }
    total' := total'.(evaluated := total'.evaluated + 1);
    stratum' := stratum'.(evaluated := stratum'.evaluated + 1);
    var hit := t.best(r.query) in r.evidence;
    if r.control {
      total' := total'.(control := total'.control + 1);
      stratum' := stratum'.(control := stratum'.control + 1);
      if hit {
        total' := total'.(hits := total'.hits + 1);
        stratum' := stratum'.(hits := stratum'.hits + 1);
      }
      return;
    }
    if hit {
      total' := total'.(hits := total'.hits + 1);
      stratum' := stratum'.(hits := stratum'.hits + 1);
      var rewritten := t.paraphrase(r.query);
      if rewritten != r.query && t.best(rewritten) !in r.evidence {
        r' := r.(query := rewritten, rewrites := r.rewrites + 1);
        total' := total'.(rewritten := total'.rewritten + 1);
        stratum' := stratum'.(rewritten := stratum'.rewritten + 1);
      } else {
        total' := total'.(unrewritable := total'.unrewritable + 1);
        stratum' := stratum'.(unrewritable := stratum'.unrewritable + 1);
      }
    } else {
      total' := total'.(clean := total'.clean + 1);
      stratum' := stratum'.(clean := stratum'.clean + 1);
    }
  }

  method RunGate(t: Tools, input: seq<Row>) returns (v: Verdict, ghost marked: seq<Row>)
    ensures Marked(input, marked) && Reports(t, marked, v.audit)
    ensures v.Passed? <==> 100 * v.audit.releasedHits <= 15 * v.audit.total.evaluated
  {
    hide Describes, OutcomeOf, Released, Bumped;
    var rows := MarkControls(input);
    marked := rows;
    var strata := InitialStats(rows);
    var total := Stat(0, 0, 0, 0, 0, 0);
    NothingYet(t);
    assert marked[..0] == [];
    for i := 0 to |rows|
      invariant |rows| == |marked|
      invariant forall k :: 0 <= k < i ==> rows[k] == Released(t, marked[k])
      invariant forall k :: i <= k < |rows| ==> rows[k] == marked[k]
      invariant forall k :: 0 <= k < |marked| ==> marked[k].stratum in strata
      invariant Describes(t, All, marked[..i], total)
      invariant forall s :: s in strata ==> Describes(t, Only(s), marked[..i], strata[s])
    {
      var r := rows[i];
      var r', total', stratum' := Judge(t, r, total, strata[r.stratum]);
      assert marked[..i + 1] == marked[..i] + [r];
      DescribesMore(t, All, marked[..i], r, total);
      forall s | s in strata ensures Describes(t, Only(s), marked[..i + 1], if s == r.stratum then stratum' else strata[s]) {
        DescribesMore(t, Only(s), marked[..i], r, strata[s]);
      }
      total := total';
      strata := strata[r.stratum := stratum'];
      rows := rows[i := r'];
    }
    assert marked[..|rows|] == marked;
    var released := ReleasedHits(t, rows);
    var a := Audit(rows, total, strata, released);
    v := if 100 * released > 15 * total.evaluated then TooManyHits(a) else Passed(a);
  }

  lemma NothingYet(t: Tools)
    ensures forall scope :: Describes(t, scope, [], Stat(0, 0, 0, 0, 0, 0))
  {
  }

  method ReleasedHits(t: Tools, rows: seq<Row>) returns (hits: nat)
    ensures hits == Count(rows, Hits(t, All))
  {
    hits := 0;
    for i := 0 to |rows|
      invariant hits == Count(rows[..i], Hits(t, All))
    {
      assert rows[..i + 1][..i] == rows[..i];
      if rows[i].answerable && t.best(rows[i].query) in rows[i].evidence {
        hits := hits + 1;
      }
    }
    assert rows[..|rows|] == rows;
  }

  // ---------------------------------------------------------------- the books balance

  /** Every evaluated query has exactly one outcome, overall and in each stratum; the hits are those
      of the control group, the rewritten and the unrewritable. */
  lemma {:induction false} OutcomesPartition(t: Tools, scope: Scope, rows: seq<Row>, s: Stat)
    requires Describes(t, scope, rows, s)
    ensures s.evaluated == s.control + s.clean + s.rewritten + s.unrewritable
    ensures s.rewritten + s.unrewritable <= s.hits <= s.rewritten + s.unrewritable + s.control
  {
    CountsPartition(t, scope, rows);
  }

  lemma {:induction false} CountsPartition(t: Tools, scope: Scope, rows: seq<Row>)
    ensures Count(rows, Evaluated(scope))
            == Count(rows, With(t, scope, Control)) + Count(rows, With(t, scope, Clean)) + Count(rows, With(t, scope, Rewritten)) + Count(rows, With(t, scope, Unrewritable))
    ensures var caught := Count(rows, With(t, scope, Rewritten)) + Count(rows, With(t, scope, Unrewritable));
            caught <= Count(rows, Hits(t, scope)) <= caught + Count(rows, With(t, scope, Control))
  {
    if rows != [] {
      CountsPartition(t, scope, rows[..|rows| - 1]);
    }
  }

  /** Rewriting removes exactly one hit per rewritten query and adds none. */
  lemma {:induction false} ReleasedCount(t: Tools, scope: Scope, marked: seq<Row>, rows: seq<Row>)
    requires |rows| == |marked| && forall i :: 0 <= i < |marked| ==> rows[i] == Released(t, marked[i])
    ensures Count(rows, Hits(t, scope)) + Count(marked, With(t, scope, Rewritten)) == Count(marked, Hits(t, scope))
  {
    if marked != [] {
      ReleasedCount(t, scope, marked[..|marked| - 1], rows[..|rows| - 1]);
    }
  }

  lemma ReleasedHitsBalance(t: Tools, marked: seq<Row>, a: Audit)
    requires Reports(t, marked, a)
    ensures a.releasedHits == a.total.hits - a.total.rewritten
  {
    ReleasedCount(t, All, marked, a.rows);
  }

  /** Control rows and rows that were not caught keep their query; ids, strata and evidence never
      change, so the ids are the same bag. */
  lemma RowsPreserved(t: Tools, input: seq<Row>, marked: seq<Row>, a: Audit, i: nat)
    requires Marked(input, marked) && Reports(t, marked, a) && i < |input|
    ensures |a.rows| == |input|
    ensures a.rows[i].id == input[i].id && a.rows[i].stratum == input[i].stratum && a.rows[i].evidence == input[i].evidence
    ensures (!input[i].answerable || marked[i].control) ==> a.rows[i] == marked[i] && a.rows[i].query == input[i].query
    ensures a.rows[i].query != input[i].query ==> Hit(t, input[i]) && !Hit(t, a.rows[i]) && a.rows[i].rewrites == input[i].rewrites + 1
  {
  }
}
