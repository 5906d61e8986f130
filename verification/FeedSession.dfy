/** A whole session: the event stream and the repairs may be at work before the first page arrives. */
module FeedSession {
  import opened IntCollections
  import opened FeedLog
  import opened FeedReducer
  import opened FeedProtocol

  ghost function Start(log: Log): System {
    System(log, INITIAL_STATE, {}, {})
  }

  ghost function FirstPage(s: System, seen: nat): seq<Message>
    requires seen <= |s.log.rows|
  {
    HistoryPage(s.log.Seen(seen), MAX_SAFE_INTEGER, PAGE_LIMIT)
  }

  /** The first page, read when `seen` rows were committed, is dispatched. */
  ghost function Load(s: System, seen: nat): System
    requires seen <= |s.log.rows|
  {
    s.(client := Reduce(s.client, InitMessages(FirstPage(s, seen))))
  }

  /** Before the first page the frontier starts at zero, and an older page could only be asked for
      from ordinal zero. */
  ghost predicate BootInv(s: System, exact: bool) {
    SysInv(s, exact, 0) && forall b :: b in s.cursors ==> b <= s.log.origin
  }

  lemma StartSafe(log: Log, exact: bool)
    requires log.Valid()
    ensures BootInv(Start(log), exact)
  {
  }

  /** Whatever is rendered before the first page starts at ordinal zero. */
  lemma BootStartsAtZero(s: System, exact: bool)
    requires SysInv(s, exact, 0) && s.client.messages != []
    ensures s.client.messages[0].feedOrdinal <= s.log.origin
  {
    var c := s.client;
    assert c.messages[0] in c.messages;
    assert c.messages[0].feedOrdinal in Ords(c.messages);
    assert Genuine(s.log, exact, c.messages[0]);
    assert 0 in Ords(c.messages);
    var m :| m in c.messages && m.feedOrdinal == 0;
    var i :| 0 <= i < |c.messages| && c.messages[i] == m;
    assert c.messages[0].feedOrdinal <= m.feedOrdinal;
  }

  lemma {:induction false} BootRun(s: System, ls: seq<Label>, exact: bool)
    requires BootInv(s, exact) && Legal(s, ls, exact)
    ensures BootInv(Final(s, ls, exact), exact)
    decreases |ls|
  {
    if ls != [] {
      BootStep(s, ls[0], exact);
      hide BootInv, Apply, Enabled;
      BootRun(Apply(s, ls[0], exact), ls[1..], exact);
    }
  }

  lemma BootStep(s: System, l: Label, exact: bool)
    requires BootInv(s, exact) && Enabled(s, l, exact)
    ensures BootInv(Apply(s, l, exact), exact)
  {
    hide SysInv, Reduce;
    StepSafe(s, l, exact, 0);
    if l.IssueHistory? {
      BootStartsAtZero(s, exact);
    }
  }

  lemma LoadSafe(s: System, seen: nat, exact: bool)
    requires BootInv(s, exact) && seen <= |s.log.rows|
    ensures SysInv(Load(s, seen), exact, PageBase(FirstPage(s, seen)))
  {
    InitEstablishes(s.log, exact, s.client, seen);
    hide ClientInv, Reduce;
  }

  /** A session from the first render on: any legal steps, the first page read and dispatched at any
      moment, any legal steps. The invariant holds all along; from the page on the frontier never moves
      back, and the client is the closed form of what was offered since. */
  lemma SessionSafe(log: Log, before: seq<Label>, seen: nat, after: seq<Label>, exact: bool)
    requires log.Valid() && Legal(Start(log), before, exact)
    requires var s := Final(Start(log), before, exact); seen <= |s.log.rows| && Legal(Load(s, seen), after, exact)
    ensures var s := Final(Start(log), before, exact);
            var loaded := Load(s, seen);
            var end := Final(loaded, after, exact);
            && SysInv(s, exact, 0)
            && SysInv(end, exact, PageBase(FirstPage(s, seen)))
            && end.client.nextExpected >= loaded.client.nextExpected
            && Effect(loaded.client, end.client, Offered(loaded, after, exact), Inserted(loaded, after, exact))
  {
    hide SysInv, Legal, Final, Load, Effect;
    StartSafe(log, exact);
    BootRun(Start(log), before, exact);
    var s := Final(Start(log), before, exact);
    LoadSafe(s, seen, exact);
    RunSafe(Load(s, seen), after, exact, PageBase(FirstPage(s, seen)));
  }

  // ---------------------------------------------------------------- a late page

  /** A live message is committed and delivered while the first page is on its way, and a repair renders
      everything up to it. */
  ghost function EarlyRepair(row: Message): seq<Label>
    requires row.feedOrdinal >= 0
  {
    [Commit(row), Deliver(Event(1, row.feedOrdinal, row)), IssueRepair, ReplyRepair(-1, row.feedOrdinal + 1)]
  }

  /** The session up to the page: the live row is the last one rendered. */
  lemma EarlyRepairRuns(log: Log, row: Message)
    requires log.Valid() && log.origin == 0 && 1 <= |log.rows| < REPAIR_LIMIT
    requires row.feedOrdinal == |log.rows| && forall r :: r in log.rows ==> r.id != row.id
    ensures Legal(Start(log), EarlyRepair(row), true)
    ensures var s := Final(Start(log), EarlyRepair(row), true);
            && s.log == Log(0, log.rows + [row])
            && s.client.nextExpected == row.feedOrdinal + 1 && s.client.buffer == map[] && row in s.client.messages
  {
    var l0, l1, l2, l3 := Commit(row), Deliver(Event(1, row.feedOrdinal, row)), IssueRepair, ReplyRepair(-1, row.feedOrdinal + 1);
    var s0 := Start(log);
    var s1 := Committed(log, l0);
    hide Apply, Enabled, SysInv;
    var s2 := Buffered(s1, l1, row);
    var s3 := Asked(s2, l2, row.feedOrdinal);
    var s4 := Answered(s3, l3, row);
    Chain(s3, l3, [], s4);
    Chain(s2, l2, [l3], s3);
    Chain(s1, l1, [l2, l3], s2);
    Chain(s0, l0, [l1, l2, l3], s1);
    assert [l3] + [] == [l3];
    hide Legal, Final;
  }

  lemma Chain(s: System, l: Label, rest: seq<Label>, s': System)
    requires Enabled(s, l, true) && Apply(s, l, true) == s' && Legal(s', rest, true)
    ensures Legal(s, [l] + rest, true) && Final(s, [l] + rest, true) == Final(s', rest, true)
  {
    hide Enabled, Apply;
    assert ([l] + rest)[1..] == rest;
  }

  lemma Committed(log: Log, l: Label) returns (s': System)
    requires log.Valid() && log.origin == 0 && l.Commit?
    requires l.row.feedOrdinal == |log.rows| && forall r :: r in log.rows ==> r.id != l.row.id
    ensures Enabled(Start(log), l, true) && s' == Apply(Start(log), l, true) && SysInv(s', true, 0)
    ensures s'.log == Log(0, log.rows + [l.row]) && s'.client == INITIAL_STATE
  {
    s' := Apply(Start(log), l, true);
    StartSafe(log, true);
    StepSafe(Start(log), l, true, 0);
  }

  lemma Buffered(s: System, l: Label, row: Message) returns (s': System)
    requires SysInv(s, true, 0) && s.client == INITIAL_STATE && s.log.origin == 0 && |s.log.rows| > 1 && s.log.rows[|s.log.rows| - 1] == row
    requires row.feedOrdinal == |s.log.rows| - 1 && l == Deliver(Event(1, row.feedOrdinal, row))
    ensures Enabled(s, l, true) && s' == Apply(s, l, true) && SysInv(s', true, 0)
    ensures s'.log == s.log && s'.client == INITIAL_STATE.(buffer := map[row.feedOrdinal := l.event], lastEventId := 1)
  {
    s' := Apply(s, l, true);
    StepSafe(s, l, true, 0);
  }

  lemma Asked(s: System, l: Label, k: int) returns (s': System)
    requires SysInv(s, true, 0) && k in s.client.buffer && !s.client.isRepairing && l == IssueRepair
    ensures Enabled(s, l, true) && s' == Apply(s, l, true) && SysInv(s', true, 0) && s.client.nextExpected - 1 in s'.repairs
    ensures s'.log == s.log && s'.client == s.client.(isRepairing := true)
  {
    s' := Apply(s, l, true);
    StepSafe(s, l, true, 0);
  }

  lemma Answered(s: System, l: Label, row: Message) returns (s': System)
    requires SysInv(s, true, 0) && s.log.origin == 0 && 1 < |s.log.rows| <= REPAIR_LIMIT && s.log.rows[|s.log.rows| - 1] == row
    requires row.feedOrdinal == |s.log.rows| - 1 && l == ReplyRepair(-1, |s.log.rows|) && -1 in s.repairs
    requires s.client.nextExpected == 0 && forall k :: k in s.client.buffer <==> k == row.feedOrdinal
    ensures Enabled(s, l, true) && s' == Apply(s, l, true) && s'.log == s.log
    ensures s'.client.nextExpected == |s.log.rows| && s'.client.buffer == map[] && row in s'.client.messages
  {
    s' := Apply(s, l, true);
    StepSafe(s, l, true, 0);
    AnswerIsLog(s, l);
    hide SysInv, Reduce, Effect, Ords, FeedFor;
    AnsweredFrontier(s, s', s.log.rows, row);
    MapExt(s'.client.buffer, map[]);
    ExactRow(s', row);
  }

  lemma AnswerIsLog(s: System, l: Label)
    requires s.log.Valid() && s.log.origin == 0 && |s.log.rows| <= REPAIR_LIMIT && l == ReplyRepair(-1, |s.log.rows|)
    ensures RepairRows(s, l) == s.log.rows && forall i :: 0 <= i < |s.log.rows| ==> s.log.rows[i].feedOrdinal == i
  {
  }

  lemma AnsweredFrontier(s: System, s': System, rows: seq<Message>, row: Message)
    requires Effect(s.client, s'.client, Ords(rows), {}) && s.client.nextExpected == 0
    requires 0 < |rows| == |s.log.rows| && (forall i :: 0 <= i < |rows| ==> rows[i].feedOrdinal == i)
    requires row.feedOrdinal == |s.log.rows| - 1 && forall k :: k in s.client.buffer <==> k == row.feedOrdinal
    ensures s'.client.nextExpected == |s.log.rows| && (forall k :: k !in s'.client.buffer) && row.feedOrdinal in Ords(s'.client.messages)
  {
    PageOrds(rows, 0);
    hide Ords;
    FrontierUnique(s.client.buffer.Keys + Ords(rows), 0, |s.log.rows|);
  }

  lemma ExactRow(s: System, row: Message)
    requires SysInv(s, true, 0) && s.log.origin == 0 && s.log.rows != [] && s.log.rows[|s.log.rows| - 1] == row
    requires row.feedOrdinal == |s.log.rows| - 1 && row.feedOrdinal in Ords(s.client.messages)
    ensures row in s.client.messages
  {
    var m :| m in s.client.messages && m.feedOrdinal == row.feedOrdinal;
    assert Genuine(s.log, true, m);
  }

  /** The frontier can go back: the page was read before the live commit and is dispatched after the
      repair, and the live message is neither rendered nor buffered any more. */
  lemma InitCanGoBack(log: Log, row: Message)
    requires log.Valid() && log.origin == 0 && 1 <= |log.rows| < REPAIR_LIMIT
    requires row.feedOrdinal == |log.rows| && forall r :: r in log.rows ==> r.id != row.id
    ensures Legal(Start(log), EarlyRepair(row), true)
    ensures var s := Final(Start(log), EarlyRepair(row), true);
            && |log.rows| <= |s.log.rows| && row in s.client.messages && s.client.nextExpected == row.feedOrdinal + 1
            && var c := Load(s, |log.rows|).client;
               c.nextExpected == row.feedOrdinal && row !in c.messages && c.buffer == map[]
  {
    hide Legal, Final, EarlyRepair, Start;
    EarlyRepairRuns(log, row);
    var s := Final(Start(log), EarlyRepair(row), true);
    assert s.log.Seen(|log.rows|).rows == log.rows;
    assert s.log.Seen(|log.rows|) == log;
    LatePage(log, s.client, row);
  }

  lemma LatePage(log: Log, c: FeedState, row: Message)
    requires log.Valid() && log.origin == 0 && 1 <= |log.rows| < REPAIR_LIMIT && row.feedOrdinal == |log.rows| && c.buffer == map[]
    ensures var page := HistoryPage(log, MAX_SAFE_INTEGER, PAGE_LIMIT);
            var c' := Reduce(c, InitMessages(page));
            c'.nextExpected == row.feedOrdinal && row !in c'.messages && c'.buffer == map[]
  {
    var page := HistoryPage(log, MAX_SAFE_INTEGER, PAGE_LIMIT);
    var n := |log.rows|;
    HistoryPageIsRun(log, MAX_SAFE_INTEGER, PAGE_LIMIT);
    PageGenuine(log, true, page, n - |page|, n);
    SortedPage(log, true, page);
    var sorted := SortByOrdinal(page);
    assert PageEnd(sorted) == n;
    var buffer := WithoutOrds(c.buffer, sorted);
    assert forall k :: k !in buffer;
    FrontierUnique(buffer.Keys, n, n);
    var c' := Initialized(c, page);
    assert c'.messages == sorted + [] && c'.nextExpected == n;
    MapExt(c'.buffer, map[]);
    assert row in sorted ==> row.feedOrdinal in Ords(sorted);
  }
}
