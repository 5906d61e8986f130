/** The ordering protocol end to end: an append-only log, a network that may lose, duplicate and
    reorder events and answer cursor reads late, and the client reducer. */
module FeedProtocol {
  import opened IntCollections
  import opened FeedLog
  import opened FeedReducer

  const REPAIR_LIMIT := 500
  const PAGE_LIMIT := 100
  const MAX_SAFE_INTEGER := 9007199254740991

  /** `m` is the logged row with its ordinal, or its live rendition unless `exact`. */
  ghost predicate Genuine(log: Log, exact: bool, m: Message) {
    log.Has(m.feedOrdinal) && (m == log.At(m.feedOrdinal) || (!exact && m == Live(log.At(m.feedOrdinal))))
  }

  ghost predicate AllGenuine(log: Log, exact: bool, s: seq<Message>) {
    forall m :: m in s ==> Genuine(log, exact, m)
  }

  ghost predicate BufferGenuine(log: Log, exact: bool, buffer: map<int, Event>) {
    forall k :: k in buffer ==> buffer[k].message.feedOrdinal == k && Genuine(log, exact, buffer[k].message)
  }

  /** What the client keeps from its first page on. `base` is the lowest ordinal of that page. */
  ghost predicate ClientInv(log: Log, exact: bool, base: int, c: FeedState) {
    && StrictlySorted(c.messages)
    && AllGenuine(log, exact, c.messages)
    && base <= c.nextExpected
    && (forall o :: base <= o < c.nextExpected ==> o in Ords(c.messages))
    && (forall o :: o in Ords(c.messages) ==> o < c.nextExpected)
    && BufferGenuine(log, exact, c.buffer)
    && (forall k :: k in c.buffer ==> k > c.nextExpected)
  }

  /** How a step or a whole run moves the client: `offered` ordinals reached the frontier logic,
      `direct` ones may be inserted below it. */
  ghost predicate Effect(c: FeedState, c': FeedState, offered: set<int>, direct: set<int>) {
    && c'.nextExpected == Frontier(c.buffer.Keys + offered, c.nextExpected)
    && (forall k :: k in c'.buffer <==> (k in c.buffer || k in offered) && k > c'.nextExpected)
    && (forall o :: o in Ords(c'.messages) <==>
        o in Ords(c.messages) || (o in direct && o < c.nextExpected) || c.nextExpected <= o < c'.nextExpected)
  }

  lemma EffectNone(c: FeedState, c': FeedState)
    requires c' == c.(isRepairing := c'.isRepairing, lastEventId := c'.lastEventId)
    requires forall k :: k in c.buffer ==> k > c.nextExpected
    ensures Effect(c, c', {}, {})
  {
    FrontierUnique(c.buffer.Keys + {}, c.nextExpected, c.nextExpected);
  }

  lemma EffectCompose(c0: FeedState, c1: FeedState, c2: FeedState, o1: set<int>, d1: set<int>, o2: set<int>, d2: set<int>)
    requires Effect(c0, c1, o1, d1) && Effect(c1, c2, o2, d2)
    ensures Effect(c0, c2, o1 + o2, d1 + d2)
  {
    var f, n1 := c2.nextExpected, c1.nextExpected;
    var keys := c0.buffer.Keys + (o1 + o2);
    forall k | c0.nextExpected <= k < f ensures k in keys {
      if k < n1 {
        assert k in c0.buffer.Keys + o1;
      } else {
        assert k in c1.buffer.Keys + o2;
      }
    }
    assert f !in keys by {
      assert n1 !in c0.buffer.Keys + o1;
      assert f !in c1.buffer.Keys + o2;
    }
    FrontierUnique(keys, c0.nextExpected, f);
  }

  // ---------------------------------------------------------------- lists of rows

  /** Appending the next genuine row keeps a list sorted and genuine and adds one ordinal. */
  lemma SnocKeeps(log: Log, exact: bool, s: seq<Message>, m: Message)
    requires StrictlySorted(s) && AllGenuine(log, exact, s) && Genuine(log, exact, m)
    requires forall o :: o in Ords(s) ==> o < m.feedOrdinal
    ensures StrictlySorted(s + [m]) && AllGenuine(log, exact, s + [m])
    ensures forall o :: o in Ords(s + [m]) <==> o in Ords(s) || o == m.feedOrdinal
  {
    OrdsAppend(s, m);
    assert forall x :: x in s ==> x.feedOrdinal in Ords(s);
    SnocStrict(s, m);
  }

  lemma {:induction false} DrainKeeps(log: Log, exact: bool, s: seq<Message>, buffer: map<int, Event>, from: int, end: int)
    requires StrictlySorted(s) && AllGenuine(log, exact, s) && BufferGenuine(log, exact, buffer)
    requires forall o :: o in Ords(s) ==> o < from
    requires from <= end && forall k :: from <= k < end ==> k in buffer
    ensures var r := s + Drained(buffer, from, end);
            && StrictlySorted(r) && AllGenuine(log, exact, r)
            && forall o :: o in Ords(r) <==> o in Ords(s) || from <= o < end
    decreases end - from
  {
    if from == end {
      assert s + [] == s;
    } else {
      DrainKeeps(log, exact, s, buffer, from, end - 1);
      var r := s + Drained(buffer, from, end - 1);
      SnocKeeps(log, exact, r, buffer[end - 1].message);
      assert s + Drained(buffer, from, end) == r + [buffer[end - 1].message];
    }
  }

  /** Genuine rows with different ordinals have different ids, so the merge never skips one. */
  lemma NewId(log: Log, exact: bool, s: seq<Message>, m: Message)
    requires log.Valid() && AllGenuine(log, exact, s) && Genuine(log, exact, m)
    requires forall o :: o in Ords(s) ==> o < m.feedOrdinal
    ensures m.id !in Ids(s)
  {
    forall x | x in s ensures x.id != m.id {
      assert Genuine(log, exact, x);
      assert x.feedOrdinal in Ords(s);
    }
  }

  lemma {:induction false} MergeKeeps(log: Log, exact: bool, s: seq<Message>, c: map<int, Message>, from: int, end: int)
    requires log.Valid()
    requires StrictlySorted(s) && AllGenuine(log, exact, s)
    requires forall k :: k in c ==> c[k].feedOrdinal == k && Genuine(log, exact, c[k])
    requires forall o :: o in Ords(s) ==> o < from
    requires from <= end && forall k :: from <= k < end ==> k in c
    ensures var r := MergeNew(s, c, from, end);
            && StrictlySorted(r) && AllGenuine(log, exact, r)
            && forall o :: o in Ords(r) <==> o in Ords(s) || from <= o < end
    decreases end - from
  {
    if from < end {
      MergeKeeps(log, exact, s, c, from, end - 1);
      var r := MergeNew(s, c, from, end - 1);
      var m := c[end - 1];
      NewId(log, exact, r, m);
      SnocKeeps(log, exact, r, m);
    }
  }

  lemma {:induction false} SameOrdsSamePositions(a: seq<Message>, b: seq<Message>)
    requires StrictlySorted(a) && StrictlySorted(b)
    requires Ords(a) == Ords(b)
    ensures |a| == |b| && forall i :: 0 <= i < |a| ==> a[i].feedOrdinal == b[i].feedOrdinal
    decreases |a|
  {
    if a == [] {
      if b != [] {
        OrdsNonEmpty(b);
      }
    } else {
      var x := a[|a| - 1];
      assert x in a;
      assert x.feedOrdinal in Ords(b);
      var y := b[|b| - 1];
      LastIsMax(a, y, b);
      LastIsMax(b, x, a);
      assert x.feedOrdinal == y.feedOrdinal;
      OrdsInit(a);
      OrdsInit(b);
      SameOrdsSamePositions(a[..|a| - 1], b[..|b| - 1]);
      forall i | 0 <= i < |a| ensures a[i].feedOrdinal == b[i].feedOrdinal {
        if i < |a| - 1 {
          assert a[i] == a[..|a| - 1][i] && b[i] == b[..|b| - 1][i];
        }
      }
    }
  }

  lemma OrdsNonEmpty(s: seq<Message>)
    requires s != []
    ensures Ords(s) != {}
  {
    assert s[0] in s;
    assert s[0].feedOrdinal in Ords(s);
  }

  lemma LastIsMax(a: seq<Message>, y: Message, b: seq<Message>)
    requires StrictlySorted(a) && a != [] && y in b
    requires Ords(a) == Ords(b)
    ensures y.feedOrdinal <= a[|a| - 1].feedOrdinal
  {
    assert y.feedOrdinal in Ords(b);
    var m :| m in a && m.feedOrdinal == y.feedOrdinal;
  }

  lemma OrdsInit(a: seq<Message>)
    requires StrictlySorted(a) && a != []
    ensures Ords(a[..|a| - 1]) == Ords(a) - {a[|a| - 1].feedOrdinal}
  {
    var init, last := a[..|a| - 1], a[|a| - 1];
    assert a == init + [last];
    OrdsAppend(init, last);
    forall m | m in init ensures m.feedOrdinal != last.feedOrdinal {
      var i :| 0 <= i < |init| && init[i] == m;
      assert a[i].feedOrdinal < last.feedOrdinal;
    }
  }

  // ---------------------------------------------------------------- what each action does

  /** The invariant after a step follows from the step's effect and the contents it leaves. */
  lemma FromEffect(log: Log, exact: bool, base: int, c: FeedState, c': FeedState, offered: set<int>, direct: set<int>)
    requires ClientInv(log, exact, base, c) && Effect(c, c', offered, direct)
    requires StrictlySorted(c'.messages) && AllGenuine(log, exact, c'.messages) && BufferGenuine(log, exact, c'.buffer)
    ensures ClientInv(log, exact, base, c')
  {
  }

  lemma ReceiveStep(log: Log, exact: bool, base: int, c: FeedState, e: Event)
    requires log.Valid() && ClientInv(log, exact, base, c)
    requires e.message.feedOrdinal == e.feedOrdinal && Genuine(log, exact, e.message)
    ensures ClientInv(log, exact, base, Received(c, e))
    ensures Effect(c, Received(c, e), {e.feedOrdinal}, {e.feedOrdinal})
  {
    if e.feedOrdinal < c.nextExpected {
      ReceiveBelow(log, exact, base, c, e);
    } else if e.feedOrdinal == c.nextExpected {
      ReceiveAtFrontier(log, exact, base, c, e);
    } else {
      ReceiveAhead(log, exact, base, c, e);
    }
  }

  lemma ReceiveBelow(log: Log, exact: bool, base: int, c: FeedState, e: Event)
    requires log.Valid() && ClientInv(log, exact, base, c)
    requires e.message.feedOrdinal == e.feedOrdinal && Genuine(log, exact, e.message)
    requires e.feedOrdinal < c.nextExpected
    ensures ClientInv(log, exact, base, Received(c, e))
    ensures Effect(c, Received(c, e), {e.feedOrdinal}, {e.feedOrdinal})
  {
    ReceiveOld(log, exact, c, e);
    FrontierUnique(c.buffer.Keys + {e.feedOrdinal}, c.nextExpected, c.nextExpected);
    FromEffect(log, exact, base, c, Received(c, e), {e.feedOrdinal}, {e.feedOrdinal});
  }

  lemma ReceiveAhead(log: Log, exact: bool, base: int, c: FeedState, e: Event)
    requires log.Valid() && ClientInv(log, exact, base, c)
    requires e.message.feedOrdinal == e.feedOrdinal && Genuine(log, exact, e.message)
    requires e.feedOrdinal > c.nextExpected
    ensures ClientInv(log, exact, base, Received(c, e))
    ensures Effect(c, Received(c, e), {e.feedOrdinal}, {e.feedOrdinal})
  {
    FrontierUnique(c.buffer.Keys + {e.feedOrdinal}, c.nextExpected, c.nextExpected);
    FromEffect(log, exact, base, c, Received(c, e), {e.feedOrdinal}, {e.feedOrdinal});
  }

  lemma ReceiveAtFrontier(log: Log, exact: bool, base: int, c: FeedState, e: Event)
    requires log.Valid() && ClientInv(log, exact, base, c)
    requires e.message.feedOrdinal == e.feedOrdinal && Genuine(log, exact, e.message)
    requires e.feedOrdinal == c.nextExpected
    ensures ClientInv(log, exact, base, Received(c, e))
    ensures Effect(c, Received(c, e), {e.feedOrdinal}, {e.feedOrdinal})
  {
    hide AllGenuine, BufferGenuine, StrictlySorted, Effect, Ords, Genuine;
    var n, seen := c.nextExpected, c.(lastEventId := Max(c.lastEventId, e.id));
    var c' := DrainFrom(seen, c.messages + [e.message], n + 1);
    ReceiveNext(log, exact, c, seen, e.message, n);
    assert Received(c, e) == c';
    hide DrainFrom, Received;
    NextEffect(c, c', n);
    FromEffect(log, exact, base, c, c', {n}, {n});
  }

  lemma NextEffect(c: FeedState, c': FeedState, n: int)
    requires c.nextExpected == n && n !in c.buffer && c'.nextExpected == Frontier(c.buffer.Keys, n + 1)
    requires forall o :: o in Ords(c'.messages) <==> o in Ords(c.messages) || n <= o < c'.nextExpected
    requires forall k :: k in c'.buffer <==> k in c.buffer && k > c'.nextExpected
    ensures Effect(c, c', {n}, {n})
  {
    hide Ords;
    FrontierUnique(c.buffer.Keys + {n}, n, c'.nextExpected);
  }

  lemma DrainFromStep(log: Log, exact: bool, c: FeedState, s: seq<Message>, from: int)
    requires StrictlySorted(s) && AllGenuine(log, exact, s) && BufferGenuine(log, exact, c.buffer)
    requires forall o :: o in Ords(s) ==> o < from
    ensures var c' := DrainFrom(c, s, from);
            && StrictlySorted(c'.messages) && AllGenuine(log, exact, c'.messages) && BufferGenuine(log, exact, c'.buffer)
            && c'.nextExpected == Frontier(c.buffer.Keys, from)
            && (forall o :: o in Ords(c'.messages) <==> o in Ords(s) || from <= o < c'.nextExpected)
            && (forall k :: k in c'.buffer <==> k in c.buffer && k > c'.nextExpected)
  {
    DrainKeeps(log, exact, s, c.buffer, from, Frontier(c.buffer.Keys, from));
  }

  lemma ReceiveNext(log: Log, exact: bool, c: FeedState, seen: FeedState, m: Message, n: int)
    requires StrictlySorted(c.messages) && AllGenuine(log, exact, c.messages) && BufferGenuine(log, exact, c.buffer)
    requires forall o :: o in Ords(c.messages) ==> o < n
    requires m.feedOrdinal == n && Genuine(log, exact, m) && seen.buffer == c.buffer
    ensures var c' := DrainFrom(seen, c.messages + [m], n + 1);
            && StrictlySorted(c'.messages) && AllGenuine(log, exact, c'.messages) && BufferGenuine(log, exact, c'.buffer)
            && c'.nextExpected == Frontier(c.buffer.Keys, n + 1)
            && (forall o :: o in Ords(c'.messages) <==> o in Ords(c.messages) || n <= o < c'.nextExpected)
            && (forall k :: k in c'.buffer <==> k in c.buffer && k > c'.nextExpected)
  {
    SnocKeeps(log, exact, c.messages, m);
    DrainFromStep(log, exact, seen, c.messages + [m], n + 1);
  }

  lemma ReceiveOld(log: Log, exact: bool, c: FeedState, e: Event)
    requires log.Valid() && StrictlySorted(c.messages) && AllGenuine(log, exact, c.messages)
    requires e.message.feedOrdinal == e.feedOrdinal && Genuine(log, exact, e.message)
    requires e.feedOrdinal < c.nextExpected
    ensures var s := Received(c, e).messages;
            && StrictlySorted(s) && AllGenuine(log, exact, s)
            && forall o :: o in Ords(s) <==> o in Ords(c.messages) || o == e.feedOrdinal
  {
    if Rendered(c.messages, e) {
      var m :| m in c.messages && (m.id == e.message.id || m.feedOrdinal == e.feedOrdinal);
      assert Genuine(log, exact, m);
      assert m.feedOrdinal == e.feedOrdinal;
    } else {
      var s := c.messages + [e.message];
      OrdsAppend(c.messages, e.message);
      assert Distinct(s) by {
        forall i | 0 <= i < |c.messages| ensures s[i].feedOrdinal != e.feedOrdinal {
          assert s[i] in c.messages;
        }
      }
      SortStrict(s);
      SortElements(s);
      SameElementsSameOrds(SortByOrdinal(s), s);
    }
  }

  lemma SameElementsSameOrds(a: seq<Message>, b: seq<Message>)
    requires forall x :: x in a <==> x in b
    ensures Ords(a) == Ords(b)
  {
  }

  lemma CandidatesGenuine(log: Log, exact: bool, buffer: map<int, Event>, rows: seq<Message>)
    requires BufferGenuine(log, exact, buffer) && AllGenuine(log, exact, rows)
    ensures var cand := Candidates(buffer, rows);
            forall k :: k in cand ==> cand[k].feedOrdinal == k && Genuine(log, exact, cand[k])
  {
  }

  lemma RepairStep(log: Log, exact: bool, base: int, c: FeedState, rows: seq<Message>)
    requires log.Valid() && ClientInv(log, exact, base, c) && AllGenuine(log, exact, rows)
    ensures ClientInv(log, exact, base, Repaired(c, rows))
    ensures Effect(c, Repaired(c, rows), Ords(rows), {})
  {
    if rows == [] {
      EffectNone(c, Repaired(c, rows));
    } else {
      RepairRendered(log, exact, c, rows);
      RepairBuffered(log, exact, c, rows);
      RepairEffect(c, rows);
      hide StrictlySorted, AllGenuine, BufferGenuine, Effect, Repaired, Genuine;
      FromEffect(log, exact, base, c, Repaired(c, rows), Ords(rows), {});
    }
  }

  lemma CandidateKeys(buffer: map<int, Event>, rows: seq<Message>)
    ensures forall k :: k in Candidates(WithoutOrds(buffer, rows), rows) <==> k in buffer || k in Ords(rows)
  {
  }

  /** What a repair leaves rendered is genuine. */
  lemma RepairRendered(log: Log, exact: bool, c: FeedState, rows: seq<Message>)
    requires log.Valid() && StrictlySorted(c.messages) && AllGenuine(log, exact, c.messages) && BufferGenuine(log, exact, c.buffer)
    requires (forall o :: o in Ords(c.messages) ==> o < c.nextExpected) && AllGenuine(log, exact, rows) && rows != []
    ensures var c' := Repaired(c, rows);
            && StrictlySorted(c'.messages) && AllGenuine(log, exact, c'.messages)
            && forall o :: o in Ords(c'.messages) <==> o in Ords(c.messages) || c.nextExpected <= o < c'.nextExpected
  {
    var kept := WithoutOrds(c.buffer, rows);
    var cand := Candidates(kept, rows);
    var end := Frontier(cand.Keys, c.nextExpected);
    CandidatesGenuine(log, exact, kept, rows);
    MergeKeeps(log, exact, c.messages, cand, c.nextExpected, end);
    hide Genuine, AllGenuine, BufferGenuine, StrictlySorted, Ords, MergeNew, Candidates, WithoutOrds;
    assert Repaired(c, rows).messages == MergeNew(c.messages, cand, c.nextExpected, end);
  }

  /** And so is what it leaves buffered. */
  lemma RepairBuffered(log: Log, exact: bool, c: FeedState, rows: seq<Message>)
    requires BufferGenuine(log, exact, c.buffer) && AllGenuine(log, exact, rows) && rows != []
    ensures BufferGenuine(log, exact, Repaired(c, rows).buffer)
  {
    var kept := WithoutOrds(c.buffer, rows);
    CandidatesGenuine(log, exact, kept, rows);
    hide Genuine, AllGenuine, MergeNew, Candidates;
  }

  lemma RepairEffect(c: FeedState, rows: seq<Message>)
    requires rows != [] && forall k :: k in c.buffer ==> k > c.nextExpected
    requires var c' := Repaired(c, rows); forall o :: o in Ords(c'.messages) <==> o in Ords(c.messages) || c.nextExpected <= o < c'.nextExpected
    ensures Effect(c, Repaired(c, rows), Ords(rows), {})
  {
    CandidateKeys(c.buffer, rows);
    hide Ords, Candidates, MergeNew;
    FrontierUnique(c.buffer.Keys + Ords(rows), c.nextExpected, Repaired(c, rows).nextExpected);
  }

  lemma {:induction false} UpsertKeeps(log: Log, exact: bool, s: seq<Message>, m: Message)
    requires log.Valid() && Distinct(s) && AllGenuine(log, exact, s) && Genuine(log, exact, m)
    ensures var r := Upsert(s, m);
            && Distinct(r) && AllGenuine(log, exact, r)
            && forall o :: o in Ords(r) <==> o in Ords(s) || o == m.feedOrdinal
  {
    if s != [] {
      var rest := s[1..];
      assert s == [s[0]] + rest;
      assert Genuine(log, exact, s[0]);
      PrependOrds(s[0], rest);
      if s[0].id == m.id {
        PrependOrds(m, rest);
      } else {
        UpsertKeeps(log, exact, rest, m);
        PrependOrds(s[0], Upsert(rest, m));
        var r := Upsert(s, m);
        forall j | 1 <= j < |r| ensures r[j].feedOrdinal != s[0].feedOrdinal {
          assert r[j] in Upsert(rest, m);
          assert r[j].feedOrdinal in Ords(Upsert(rest, m));
          if r[j].feedOrdinal in Ords(rest) {
            var x :| x in rest && x.feedOrdinal == r[j].feedOrdinal;
          }
        }
      }
    }
  }

  lemma PrependOrds(m: Message, s: seq<Message>)
    ensures forall o :: o in Ords([m] + s) <==> o == m.feedOrdinal || o in Ords(s)
  {
    assert forall x :: x in [m] + s <==> x == m || x in s;
  }

  lemma {:induction false} UpsertAllKeeps(log: Log, exact: bool, s: seq<Message>, rows: seq<Message>)
    requires log.Valid() && Distinct(s) && AllGenuine(log, exact, s) && AllGenuine(log, exact, rows)
    ensures var r := UpsertAll(s, rows);
            && Distinct(r) && AllGenuine(log, exact, r)
            && forall o :: o in Ords(r) <==> o in Ords(s) || o in Ords(rows)
    decreases |rows|
  {
    if rows != [] {
      var init, last := rows[..|rows| - 1], rows[|rows| - 1];
      assert rows == init + [last];
      UpsertAllKeeps(log, exact, s, init);
      UpsertKeeps(log, exact, UpsertAll(s, init), last);
      OrdsAppend(init, last);
    }
  }

  lemma HistoryStep(log: Log, exact: bool, base: int, c: FeedState, rows: seq<Message>)
    requires log.Valid() && ClientInv(log, exact, base, c) && AllGenuine(log, exact, rows)
    requires forall o :: o in Ords(rows) ==> o < c.nextExpected
    ensures ClientInv(log, exact, base, WithHistory(c, rows))
    ensures Effect(c, WithHistory(c, rows), {}, Ords(rows))
  {
    UpsertAllKeeps(log, exact, [], c.messages);
    var known := UpsertAll([], c.messages);
    UpsertAllKeeps(log, exact, known, rows);
    var all := UpsertAll(known, rows);
    SortStrict(all);
    SortElements(all);
    SameElementsSameOrds(SortByOrdinal(all), all);
    FrontierUnique(c.buffer.Keys + {}, c.nextExpected, c.nextExpected);
  }

  // ---------------------------------------------------------------- the transition system

  /** `repairs` and `cursors` hold the arguments of every read issued so far; a reply to any of them
      may arrive at any later time, any number of times. */
  datatype System = System(log: Log, client: FeedState, repairs: set<int>, cursors: set<int>)

  datatype Label =
    | Commit(row: Message)
    | Deliver(event: Event)
    | IssueRepair
    | ReplyRepair(after: int, seen: nat)
    | FailRepair
    | IssueHistory
    | ReplyHistory(before: int, seen: nat)

  ghost predicate Enabled(s: System, l: Label, exact: bool) {
    match l
    case Commit(row) => row.feedOrdinal == s.log.End() && forall r :: r in s.log.rows ==> r.id != row.id
    case Deliver(e) => e.message.feedOrdinal == e.feedOrdinal && Genuine(s.log, exact, e.message)
    case IssueRepair => s.client.buffer != map[] && !s.client.isRepairing
    case ReplyRepair(after, seen) => after in s.repairs && seen <= |s.log.rows|
    case FailRepair => true
    case IssueHistory => s.client.messages != []
    case ReplyHistory(before, seen) => before in s.cursors && seen <= |s.log.rows|
  }

  ghost function RepairRows(s: System, l: Label): seq<Message>
    requires l.ReplyRepair? && l.seen <= |s.log.rows|
  {
    FeedFor(s.log.Seen(l.seen), l.after, REPAIR_LIMIT)
  }

  ghost function HistoryRows(s: System, l: Label): seq<Message>
    requires l.ReplyHistory? && l.seen <= |s.log.rows|
  {
    HistoryPage(s.log.Seen(l.seen), l.before, PAGE_LIMIT)
  }

  ghost function Apply(s: System, l: Label, exact: bool): System
    requires Enabled(s, l, exact)
  {
    match l
    case Commit(row) => s.(log := Log(s.log.origin, s.log.rows + [row]))
    case Deliver(e) => s.(client := Reduce(s.client, ReceiveEvent(e)))
    case IssueRepair => s.(client := Reduce(s.client, SetRepairing(true)), repairs := s.repairs + {s.client.nextExpected - 1})
    case ReplyRepair(_, _) => s.(client := Reduce(s.client, GapRepaired(RepairRows(s, l))))
    case FailRepair => s.(client := Reduce(s.client, SetRepairing(false)))
    case IssueHistory => s.(cursors := s.cursors + {s.client.messages[0].feedOrdinal})
    case ReplyHistory(_, _) => s.(client := Reduce(s.client, PrependHistory(HistoryRows(s, l))))
  }

  /** Ordinals a step offers to the frontier, received or fetched. */
  ghost function Offers(s: System, l: Label, exact: bool): set<int>
    requires Enabled(s, l, exact)
  {
    match l
    case Deliver(e) => {e.feedOrdinal}
    case ReplyRepair(_, _) => Ords(RepairRows(s, l))
    case _ => {}
  }

  /** Ordinals a step may insert below the frontier. */
  ghost function Inserts(s: System, l: Label, exact: bool): set<int>
    requires Enabled(s, l, exact)
  {
    match l
    case Deliver(e) => {e.feedOrdinal}
    case ReplyHistory(_, _) => Ords(HistoryRows(s, l))
    case _ => {}
  }

  ghost predicate SysInv(s: System, exact: bool, base: int) {
    && s.log.Valid()
    && ClientInv(s.log, exact, base, s.client)
    && CursorsOk(s)
  }

  /** No older page can reach the frontier. */
  ghost predicate CursorsOk(s: System) {
    forall b :: b in s.cursors ==> b < s.client.nextExpected || b <= s.log.origin
  }

  lemma LogGrows(log: Log, row: Message, exact: bool, base: int, c: FeedState)
    requires log.Valid() && ClientInv(log, exact, base, c)
    requires row.feedOrdinal == log.End() && forall r :: r in log.rows ==> r.id != row.id
    ensures var log' := Log(log.origin, log.rows + [row]); log'.Valid() && ClientInv(log', exact, base, c)
  {
    var log' := Log(log.origin, log.rows + [row]);
    assert forall i :: 0 <= i < |log.rows| ==> log.rows[i] in log.rows;
    assert forall m :: Genuine(log, exact, m) ==> Genuine(log', exact, m);
  }

  lemma PageGenuine(log: Log, exact: bool, page: seq<Message>, lo: nat, hi: nat)
    requires log.Valid() && lo <= hi <= |log.rows| && page == log.rows[lo..hi]
    ensures AllGenuine(log, exact, page)
    ensures forall o :: o in Ords(page) <==> log.origin + lo <= o < log.origin + hi
  {
    forall m | m in page ensures Genuine(log, exact, m) && log.origin + lo <= m.feedOrdinal < log.origin + hi {
      var i :| 0 <= i < |page| && page[i] == m;
      assert log.rows[lo + i] == m;
    }
    forall o | log.origin + lo <= o < log.origin + hi ensures o in Ords(page) {
      assert page[o - log.origin - lo] in page;
      assert page[o - log.origin - lo].feedOrdinal == o;
    }
  }

  lemma RepairRowsAre(s: System, l: Label, exact: bool)
    requires s.log.Valid() && l.ReplyRepair? && l.seen <= |s.log.rows|
    ensures AllGenuine(s.log, exact, RepairRows(s, l))
    ensures forall o :: o in Ords(RepairRows(s, l)) ==> o > l.after
    ensures s.log.origin <= l.after + 1 ==>
              forall o :: l.after < o < Min(l.after + 1 + REPAIR_LIMIT, s.log.origin + l.seen) ==> o in Ords(RepairRows(s, l))
  {
    var lo := Clamp(l.after + 1 - s.log.origin, l.seen);
    var hi := Clamp(lo + REPAIR_LIMIT, l.seen);
    assert RepairRows(s, l) == s.log.rows[lo..hi];
    PageGenuine(s.log, exact, RepairRows(s, l), lo, hi);
  }

  lemma HistoryRowsAre(s: System, l: Label, exact: bool)
    requires s.log.Valid() && l.ReplyHistory? && l.seen <= |s.log.rows|
    ensures AllGenuine(s.log, exact, HistoryRows(s, l))
    ensures forall o :: o in Ords(HistoryRows(s, l)) ==> s.log.origin <= o < l.before
  {
    var hi := Clamp(l.before - s.log.origin, l.seen);
    var lo := Clamp(hi - PAGE_LIMIT, l.seen);
    assert HistoryRows(s, l) == s.log.rows[lo..hi];
    PageGenuine(s.log, exact, HistoryRows(s, l), lo, hi);
  }

  lemma CommitSafe(s: System, l: Label, exact: bool, base: int)
    requires SysInv(s, exact, base) && Enabled(s, l, exact) && l.Commit?
    ensures SysInv(Apply(s, l, exact), exact, base)
    ensures Effect(s.client, Apply(s, l, exact).client, {}, {})
  {
    hide ClientInv, Effect;
    LogGrows(s.log, l.row, exact, base, s.client);
    assert forall k :: k in s.client.buffer ==> k > s.client.nextExpected by { AheadOnly(s.log, exact, base, s.client); }
    EffectNone(s.client, s.client);
  }

  lemma AheadOnly(log: Log, exact: bool, base: int, c: FeedState)
    requires ClientInv(log, exact, base, c)
    ensures forall k :: k in c.buffer ==> k > c.nextExpected
    ensures forall m :: m in c.messages ==> m.feedOrdinal < c.nextExpected
  {
    forall m | m in c.messages ensures m.feedOrdinal < c.nextExpected {
      assert m.feedOrdinal in Ords(c.messages);
    }
  }

  lemma DeliverSafe(s: System, l: Label, exact: bool, base: int)
    requires SysInv(s, exact, base) && Enabled(s, l, exact) && l.Deliver?
    ensures SysInv(Apply(s, l, exact), exact, base)
    ensures Effect(s.client, Apply(s, l, exact).client, {l.event.feedOrdinal}, {l.event.feedOrdinal})
  {
    hide ClientInv, Received, Genuine;
    ReceiveStep(s.log, exact, base, s.client, l.event);
  }

  lemma ReplyRepairSafe(s: System, l: Label, exact: bool, base: int)
    requires SysInv(s, exact, base) && Enabled(s, l, exact) && l.ReplyRepair?
    ensures SysInv(Apply(s, l, exact), exact, base)
    ensures Effect(s.client, Apply(s, l, exact).client, Ords(RepairRows(s, l)), {})
  {
    hide ClientInv, Repaired, FeedFor, AllGenuine;
    RepairRowsAre(s, l, exact);
    RepairStep(s.log, exact, base, s.client, RepairRows(s, l));
  }

  lemma ReplyHistorySafe(s: System, l: Label, exact: bool, base: int)
    requires SysInv(s, exact, base) && Enabled(s, l, exact) && l.ReplyHistory?
    ensures SysInv(Apply(s, l, exact), exact, base)
    ensures Effect(s.client, Apply(s, l, exact).client, {}, Ords(HistoryRows(s, l)))
  {
    hide ClientInv, WithHistory, HistoryPage, AllGenuine;
    HistoryRowsAre(s, l, exact);
    HistoryStep(s.log, exact, base, s.client, HistoryRows(s, l));
  }

  lemma QuietSafe(s: System, l: Label, exact: bool, base: int)
    requires SysInv(s, exact, base) && Enabled(s, l, exact) && (l.IssueRepair? || l.FailRepair? || l.IssueHistory?)
    ensures SysInv(Apply(s, l, exact), exact, base)
    ensures Effect(s.client, Apply(s, l, exact).client, {}, {})
  {
    hide Effect;
    AheadOnly(s.log, exact, base, s.client);
    EffectNone(s.client, Apply(s, l, exact).client);
    hide AllGenuine, BufferGenuine;
    if l.IssueHistory? {
      assert s.client.messages[0] in s.client.messages;
    }
  }

  lemma StepSafe(s: System, l: Label, exact: bool, base: int)
    requires SysInv(s, exact, base) && Enabled(s, l, exact)
    ensures SysInv(Apply(s, l, exact), exact, base)
    ensures Effect(s.client, Apply(s, l, exact).client, Offers(s, l, exact), Inserts(s, l, exact))
  {
    hide SysInv, Enabled, Apply, Effect;
    match l {
      case Commit(_) => CommitSafe(s, l, exact, base);
      case Deliver(_) => DeliverSafe(s, l, exact, base);
      case ReplyRepair(_, _) => ReplyRepairSafe(s, l, exact, base);
      case ReplyHistory(_, _) => ReplyHistorySafe(s, l, exact, base);
      case IssueHistory => QuietSafe(s, l, exact, base);
      case IssueRepair => QuietSafe(s, l, exact, base);
      case FailRepair => QuietSafe(s, l, exact, base);
    }
  }

  // ---------------------------------------------------------------- whole runs

  ghost predicate Legal(s: System, ls: seq<Label>, exact: bool)
    decreases |ls|
  {
    ls == [] || (Enabled(s, ls[0], exact) && Legal(Apply(s, ls[0], exact), ls[1..], exact))
  }

  ghost function Final(s: System, ls: seq<Label>, exact: bool): System
    requires Legal(s, ls, exact)
    decreases |ls|
  {
    if ls == [] then s else Final(Apply(s, ls[0], exact), ls[1..], exact)
  }

  ghost function Offered(s: System, ls: seq<Label>, exact: bool): set<int>
    requires Legal(s, ls, exact)
    decreases |ls|
  {
    if ls == [] then {} else Offers(s, ls[0], exact) + Offered(Apply(s, ls[0], exact), ls[1..], exact)
  }

  ghost function Inserted(s: System, ls: seq<Label>, exact: bool): set<int>
    requires Legal(s, ls, exact)
    decreases |ls|
  {
    if ls == [] then {} else Inserts(s, ls[0], exact) + Inserted(Apply(s, ls[0], exact), ls[1..], exact)
  }

  /** Safety over every run: the invariant holds at its end, the frontier never moves back, and the
      client is the closed form of what the run offered. */
  lemma {:induction false} RunSafe(s: System, ls: seq<Label>, exact: bool, base: int)
    requires SysInv(s, exact, base) && Legal(s, ls, exact)
    ensures SysInv(Final(s, ls, exact), exact, base)
    ensures Final(s, ls, exact).client.nextExpected >= s.client.nextExpected
    ensures Effect(s.client, Final(s, ls, exact).client, Offered(s, ls, exact), Inserted(s, ls, exact))
    decreases |ls|
  {
    if ls == [] {
      EffectNone(s.client, s.client);
    } else {
      var s1 := Apply(s, ls[0], exact);
      StepSafe(s, ls[0], exact, base);
      RunSafe(s1, ls[1..], exact, base);
      EffectCompose(s.client, s1.client, Final(s1, ls[1..], exact).client,
                    Offers(s, ls[0], exact), Inserts(s, ls[0], exact),
                    Offered(s1, ls[1..], exact), Inserted(s1, ls[1..], exact));
    }
  }

  /** What a user sees: strictly increasing ordinals, no id twice, every entry the log's own. */
  lemma RenderedFaithfully(s: System, exact: bool, base: int, i: nat, j: nat)
    requires SysInv(s, exact, base) && i < j < |s.client.messages|
    ensures var m := s.client.messages;
            && m[i].feedOrdinal < m[j].feedOrdinal && m[i].id != m[j].id
            && s.log.Has(m[i].feedOrdinal) && SameEntry(m[i], s.log.At(m[i].feedOrdinal))
            && (exact ==> m[i] == s.log.At(m[i].feedOrdinal))
  {
    var m := s.client.messages;
    assert m[i] in m && m[j] in m;
    assert Genuine(s.log, exact, m[i]) && Genuine(s.log, exact, m[j]);
  }

  /** Confluence: two runs that end on the same log and offered the same ordinals agree on the
      frontier, on the buffered ordinals and, entry by entry, on the rendered list; with exact
      deliveries the lists are equal. Order and multiplicity do not matter. */
  lemma Confluence(s: System, a: seq<Label>, b: seq<Label>, exact: bool, base: int)
    requires SysInv(s, exact, base) && Legal(s, a, exact) && Legal(s, b, exact)
    requires Final(s, a, exact).log == Final(s, b, exact).log
    requires forall o :: o in Offered(s, a, exact) <==> o in Offered(s, b, exact)
    requires forall o :: o < s.client.nextExpected ==> (o in Inserted(s, a, exact) <==> o in Inserted(s, b, exact))
    ensures var x, y := Final(s, a, exact).client, Final(s, b, exact).client;
            && x.nextExpected == y.nextExpected
            && x.buffer.Keys == y.buffer.Keys
            && |x.messages| == |y.messages|
            && (forall i :: 0 <= i < |x.messages| ==> SameEntry(x.messages[i], y.messages[i]))
            && (exact ==> x.messages == y.messages)
  {
    hide Legal, Final, Offered, Inserted, SysInv, Effect;
    RunSafe(s, a, exact, base);
    RunSafe(s, b, exact, base);
    SameEffect(s.client, Final(s, a, exact).client, Offered(s, a, exact), Inserted(s, a, exact),
               Final(s, b, exact).client, Offered(s, b, exact), Inserted(s, b, exact));
    SameRendering(Final(s, a, exact), Final(s, b, exact), exact, base);
  }

  /** Equal offers have equal effects. */
  lemma SameEffect(c: FeedState, x: FeedState, ox: set<int>, dx: set<int>, y: FeedState, oy: set<int>, dy: set<int>)
    requires Effect(c, x, ox, dx) && Effect(c, y, oy, dy)
    requires forall o :: o in ox <==> o in oy
    requires forall o :: o < c.nextExpected ==> (o in dx <==> o in dy)
    ensures x.nextExpected == y.nextExpected && x.buffer.Keys == y.buffer.Keys && Ords(x.messages) == Ords(y.messages)
  {
    hide Ords;
    SetExt(c.buffer.Keys + ox, c.buffer.Keys + oy);
    SetExt(x.buffer.Keys, y.buffer.Keys);
    SetExt(Ords(x.messages), Ords(y.messages));
  }

  /** Lists with the same ordinals show the same entries. */
  lemma SameRendering(s: System, t: System, exact: bool, base: int)
    requires SysInv(s, exact, base) && SysInv(t, exact, base) && s.log == t.log
    requires Ords(s.client.messages) == Ords(t.client.messages)
    ensures var x, y := s.client.messages, t.client.messages;
            && |x| == |y| && (forall i :: 0 <= i < |x| ==> SameEntry(x[i], y[i])) && (exact ==> x == y)
  {
    var x, y := s.client.messages, t.client.messages;
    SameOrdsSamePositions(x, y);
    hide Ords, BufferGenuine;
    forall i | 0 <= i < |x| ensures SameEntry(x[i], y[i]) && (exact ==> x[i] == y[i]) {
      assert x[i] in x && y[i] in y;
    }
  }

  // ---------------------------------------------------------------- the first page

  ghost function PageBase(page: seq<Message>): int {
    if page == [] then 0 else page[0].feedOrdinal
  }

  /** The first page establishes the invariant whatever the state was before, as long as the events
      buffered so far were genuine. */
  lemma InitEstablishes(log: Log, exact: bool, c: FeedState, seen: nat)
    requires log.Valid() && BufferGenuine(log, exact, c.buffer) && seen <= |log.rows|
    ensures var page := HistoryPage(log.Seen(seen), MAX_SAFE_INTEGER, PAGE_LIMIT);
            ClientInv(log, exact, PageBase(page), Reduce(c, InitMessages(page)))
  {
    var hi := Clamp(MAX_SAFE_INTEGER - log.origin, seen);
    var lo := Clamp(hi - PAGE_LIMIT, seen);
    var page := HistoryPage(log.Seen(seen), MAX_SAFE_INTEGER, PAGE_LIMIT);
    assert page == log.rows[lo..hi];
    PageGenuine(log, exact, page, lo, hi);
    InitFromPage(log, exact, c, page);
  }

  lemma SortedPage(log: Log, exact: bool, page: seq<Message>)
    requires AllGenuine(log, exact, page)
    requires forall i :: 0 <= i < |page| ==> page[i].feedOrdinal == page[0].feedOrdinal + i
    ensures var sorted := SortByOrdinal(page);
            && StrictlySorted(sorted) && AllGenuine(log, exact, sorted)
            && PageEnd(sorted) == PageBase(page) + |page|
            && forall o :: o in Ords(sorted) <==> PageBase(page) <= o < PageEnd(sorted)
  {
    SortStrict(page);
    SortElements(page);
    var sorted := SortByOrdinal(page);
    SameElementsSameOrds(sorted, page);
    SameOrdsSamePositions(sorted, page);
    PageOrds(page, PageBase(page));
  }

  lemma PageOrds(page: seq<Message>, lo: int)
    requires forall i :: 0 <= i < |page| ==> page[i].feedOrdinal == lo + i
    ensures forall o :: o in Ords(page) <==> lo <= o < lo + |page|
  {
    forall o | lo <= o < lo + |page| ensures o in Ords(page) {
      var m := page[o - lo];
      assert m in page && m.feedOrdinal == o;
    }
    forall o | o in Ords(page) ensures lo <= o < lo + |page| {
      var m :| m in page && m.feedOrdinal == o;
      var i :| 0 <= i < |page| && page[i] == m;
    }
  }

  lemma InitFromPage(log: Log, exact: bool, c: FeedState, page: seq<Message>)
    requires log.Valid() && BufferGenuine(log, exact, c.buffer)
    requires AllGenuine(log, exact, page)
    requires forall i :: 0 <= i < |page| ==> page[i].feedOrdinal == page[0].feedOrdinal + i
    ensures ClientInv(log, exact, PageBase(page), Initialized(c, page))
  {
    SortedPage(log, exact, page);
    var sorted := SortByOrdinal(page);
    DrainFromStep(log, exact, c.(buffer := WithoutOrds(c.buffer, sorted)), sorted, PageEnd(sorted));
  }

  /** A page read before the newest live events and dispatched after them moves the frontier back and
      drops rendered rows. It keeps the progress made exactly when the page reaches the frontier. */
  lemma InitKeepsProgressIff(log: Log, exact: bool, base: int, c: FeedState, page: seq<Message>)
    requires ClientInv(log, exact, base, c)
    ensures Initialized(c, page).nextExpected >= c.nextExpected <==> PageEnd(SortByOrdinal(page)) >= c.nextExpected
  {
    var sorted := SortByOrdinal(page);
    var buffer := WithoutOrds(c.buffer, sorted);
    if PageEnd(sorted) < c.nextExpected {
      FrontierUnique(buffer.Keys, PageEnd(sorted), PageEnd(sorted));
    }
  }

  /** An empty first page over a log that starts above zero satisfies the invariant with a frontier
      below the log. */
  lemma EmptyPageStartsBelow(log: Log, exact: bool)
    requires log.Valid() && log.origin > 0
    ensures var c := Initialized(INITIAL_STATE, HistoryPage(log.Seen(0), MAX_SAFE_INTEGER, PAGE_LIMIT));
            SysInv(System(log, c, {}, {}), exact, 0) && c.nextExpected < log.origin
  {
    assert HistoryPage(log.Seen(0), MAX_SAFE_INTEGER, PAGE_LIMIT) == [];
    InitEstablishes(log, exact, INITIAL_STATE, 0);
    FrontierUnique(WithoutOrds(INITIAL_STATE.buffer, []).Keys, 0, 0);
  }

  // ---------------------------------------------------------------- progress

  lemma FrontierReaches(keys: set<int>, n: int, target: int)
    requires forall k :: n <= k < target ==> k in keys
    ensures Frontier(keys, n) >= target
  {
  }

  /** The reply to a repair issued at `n` brings the frontier to min(n + 500, end of the log it saw),
      whatever happened to the client meanwhile. */
  lemma RepairProgress(s: System, exact: bool, base: int, n: int, seen: nat)
    requires SysInv(s, exact, base) && s.log.origin <= n <= s.client.nextExpected
    requires Enabled(s, ReplyRepair(n - 1, seen), exact)
    ensures Apply(s, ReplyRepair(n - 1, seen), exact).client.nextExpected >= Min(n + REPAIR_LIMIT, s.log.origin + seen)
  {
    var l := ReplyRepair(n - 1, seen);
    StepSafe(s, l, exact, base);
    RepairRowsAre(s, l, exact);
    FrontierReaches(s.client.buffer.Keys + Offers(s, l, exact), s.client.nextExpected,
                    Min(n + REPAIR_LIMIT, s.log.origin + seen));
  }

  lemma OneStepRun(s: System, l: Label, exact: bool)
    requires Enabled(s, l, exact)
    ensures Legal(s, [l], exact) && Final(s, [l], exact) == Apply(s, l, exact)
  {
    var s', rest := Apply(s, l, exact), [l][1..];
    assert rest == [] && Legal(s', rest, exact) && Final(s', rest, exact) == s';
  }

  /** A client that starts below the first logged ordinal (an empty first page over a log that does
      not start at 0) never renders anything new; otherwise some run advances it. */
  lemma AdvancesIff(s: System, exact: bool, base: int)
    requires SysInv(s, exact, base) && s.client.nextExpected < s.log.End()
    ensures (exists ls :: Legal(s, ls, exact) && Final(s, ls, exact).client.nextExpected > s.client.nextExpected)
            <==> s.log.origin <= s.client.nextExpected
  {
    var n := s.client.nextExpected;
    if s.log.origin <= n {
      var l := Deliver(Event(1, n, s.log.At(n)));
      assert Enabled(s, l, exact);
      StepSafe(s, l, exact, base);
      OneStepRun(s, l, exact);
      FrontierReaches(s.client.buffer.Keys + Offers(s, l, exact), n, n + 1);
      assert Final(s, [l], exact).client.nextExpected > n;
    } else {
      forall ls | Legal(s, ls, exact) ensures Final(s, ls, exact).client.nextExpected == n {
        StuckBelowOrigin(s, ls, exact, base);
      }
    }
  }

  lemma {:induction false} StuckBelowOrigin(s: System, ls: seq<Label>, exact: bool, base: int)
    requires SysInv(s, exact, base) && s.client.nextExpected < s.log.origin && Legal(s, ls, exact)
    ensures Final(s, ls, exact).client.nextExpected == s.client.nextExpected
    decreases |ls|
  {
    if ls != [] {
      var l, n := ls[0], s.client.nextExpected;
      StepSafe(s, l, exact, base);
      if l.ReplyRepair? {
        RepairRowsAre(s, l, exact);
        assert n !in Ords(RepairRows(s, l));
      }
      FrontierUnique(s.client.buffer.Keys + Offers(s, l, exact), n, n);
      StuckBelowOrigin(Apply(s, l, exact), ls[1..], exact, base);
    }
  }
}
