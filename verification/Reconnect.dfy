/** What a reconnecting client gets. The stream is resumed from the id written last, but handlers may
    offer in another order than the ids. */
module Reconnect {
  import opened Fanout

  // ---------------------------------------------------------------- what a step leaves alone

  ghost predicate SameIdentity(s: Server, s': Server, c: nat) {
    c < |s.conns| ==> c < |s'.conns| && s'.conns[c].caller == s.conns[c].caller && s'.conns[c].resume == s.conns[c].resume
  }

  lemma StepFacts(v: Visibility, s: Server, step: Step, c: nat)
    requires Enabled(s, step) && c < |s.conns|
    ensures var s' := Do(v, s, step);
            && s.log <= s'.log && SameIdentity(s, s', c)
            && (s.conns[c].phase.Closed? ==> s'.conns[c].phase.Closed? && s'.conns[c].written == s.conns[c].written)
            && (Listening(s, c) ==> Listening(s', c) || s'.conns[c].phase.Closed?)
  {
  }

  lemma {:induction false} RunFacts(v: Visibility, s: Server, steps: seq<Step>, c: nat)
    requires Runs(v, s, steps) && c < |s.conns|
    ensures var t := After(v, s, steps);
            && s.log <= t.log && SameIdentity(s, t, c)
            && (s.conns[c].phase.Closed? ==> t.conns[c].phase.Closed? && t.conns[c].written == s.conns[c].written)
    decreases |steps|
  {
    hide Enabled, Do;
    if steps != [] {
      StepFacts(v, s, steps[0], c);
      RunFacts(v, Do(v, s, steps[0]), steps[1..], c);
    }
  }

  // ---------------------------------------------------------------- an offer that will come

  /** The live delivery of log[k] to d is still to come or done. */
  ghost predicate Coming(s: Server, k: nat, d: nat)
    requires k < |s.log| == |s.publishers| && d < |s.conns|
  {
    Held(s, k, d) || s.log[k] in s.conns[d].queue || Delivery(s.log[k], true) in s.conns[d].written
  }

  lemma ComingStays(v: Visibility, s: Server, step: Step, k: nat, d: nat)
    requires Inv(v, s) && Enabled(s, step) && k < |s.log| && Listening(s, d) && v(s.conns[d].caller, s.log[k].channel)
    requires Coming(s, k, d)
    ensures var s' := Do(v, s, step); k < |s'.log| == |s'.publishers| && d < |s'.conns| && s'.log[k] == s.log[k] && Coming(s', k, d)
  {
    var s' := Do(v, s, step);
    assert d in s.subs;
    if step == WriteLive(d) {
      var queue := s.conns[d].queue;
      assert forall e :: e in queue ==> e == queue[0] || e in queue[1..];
      assert Delivery(queue[0], true) in s'.conns[d].written;
    }
    if step == Offer(k, d) {
      assert s'.conns[d].queue[|s.conns[d].queue|] == s.log[k];
    }
  }

  lemma {:induction false} ComingToTheEnd(v: Visibility, s: Server, steps: seq<Step>, k: nat, d: nat)
    requires Inv(v, s) && Runs(v, s, steps) && k < |s.log| && Listening(s, d) && v(s.conns[d].caller, s.log[k].channel)
    requires Coming(s, k, d)
    requires var t := After(v, s, steps); d < |t.conns| && !t.conns[d].phase.Closed?
    ensures var t := After(v, s, steps); k < |t.log| == |t.publishers| && t.log[k] == s.log[k] && Coming(t, k, d)
    decreases |steps|
  {
    hide Inv, Enabled, Do, Coming;
    assert |s.log| == |s.publishers| by { SameLengths(v, s); }
    if steps != [] {
      var s' := Do(v, s, steps[0]);
      StepFacts(v, s, steps[0], d);
      ComingStays(v, s, steps[0], k, d);
      StepKeeps(v, s, steps[0]);
      RunFacts(v, s', steps[1..], d);
      ComingToTheEnd(v, s', steps[1..], k, d);
    }
  }

  lemma SameLengths(v: Visibility, s: Server)
    requires Inv(v, s)
    ensures |s.log| == |s.publishers|
  {
  }

  // ---------------------------------------------------------------- an offer that will not come

  /** Nothing brings log[k] to d any more: its handler looked before d subscribed, and d resumes above it. */
  ghost predicate Missed(s: Server, k: nat, d: nat)
    requires k < |s.log| == |s.publishers| && d < |s.conns|
  {
    var conn, e := s.conns[d], s.log[k];
    && !Held(s, k, d) && e !in conn.queue && !Written(conn, e) && e.id <= conn.resume
    && (conn.phase.Following? ==> e !in conn.phase.replay)
  }

  lemma MissedStays(v: Visibility, s: Server, step: Step, k: nat, d: nat)
    requires Inv(v, s) && Enabled(s, step) && k < |s.log| && d < |s.conns| && Missed(s, k, d)
    ensures var s' := Do(v, s, step); k < |s'.log| == |s'.publishers| && d < |s'.conns| && s'.log[k] == s.log[k] && Missed(s', k, d)
  {
    var s' := Do(v, s, step);
    if step.Offer? && step.c == d && step.p != k {
      assert s.log[step.p].id != s.log[k].id;
    }
    if step == WriteReplay(d) {
      assert s.conns[d].phase.replay[0] in s.conns[d].phase.replay;
    }
    if step == WriteLive(d) {
      assert s.conns[d].queue[0] in s.conns[d].queue;
    }
  }

  lemma {:induction false} MissedForGood(v: Visibility, s: Server, steps: seq<Step>, k: nat, d: nat)
    requires Inv(v, s) && Runs(v, s, steps) && k < |s.log| && d < |s.conns| && Missed(s, k, d)
    ensures var t := After(v, s, steps);
            k < |t.log| && d < |t.conns| && t.log[k] == s.log[k] && !Written(t.conns[d], t.log[k])
    decreases |steps|
  {
    hide Inv, Enabled, Do;
    assert |s.log| == |s.publishers| by { SameLengths(v, s); }
    if steps != [] {
      MissedStays(v, s, steps[0], k, d);
      StepKeeps(v, s, steps[0]);
      hide Missed;
      MissedForGood(v, Do(v, s, steps[0]), steps[1..], k, d);
    }
  }

  // ---------------------------------------------------------------- two connections of one client

  /** Connection c is over, and d is about to subscribe with the id written last on c. */
  ghost predicate Reconnects(s: Server, c: nat, d: nat) {
    && c < |s.conns| && d < |s.conns| && s.conns[c].phase.Closed? && s.conns[d].phase.Opened?
    && s.conns[d].caller == s.conns[c].caller && s.conns[c].written != []
    && s.conns[d].resume == s.conns[c].written[|s.conns[c].written| - 1].event.id
  }

  /** The client asked for log[k] on c and was not sent it there, although it resumes above it. */
  ghost predicate Skipped(v: Visibility, s: Server, c: nat, d: nat, k: nat)
    requires c < |s.conns| && d < |s.conns| && k < |s.log|
  {
    Wanted(v, s.conns[c], s.log[k]) && s.log[k].id <= s.conns[d].resume && !Written(s.conns[c], s.log[k])
  }

  ghost predicate SentOnOne(v: Visibility, t: Server, c: nat, d: nat, k: nat)
    requires c < |t.conns| && d < |t.conns| && k < |t.log|
  {
    Wanted(v, t.conns[c], t.log[k]) ==> Written(t.conns[c], t.log[k]) || Written(t.conns[d], t.log[k])
  }

  lemma SkippedArrivesIff(v: Visibility, s: Server, c: nat, d: nat, steps: seq<Step>, k: nat)
    requires Inv(v, s) && Reconnects(s, c, d) && Runs(v, Do(v, s, Subscribe(d)), steps)
    requires var t := After(v, Do(v, s, Subscribe(d)), steps); d < |t.conns| && Settled(t, d)
    requires k < |s.log| && Skipped(v, s, c, d, k)
    ensures var t := After(v, Do(v, s, Subscribe(d)), steps);
            k < |s.publishers| && k < |t.log| && t.log[k] == s.log[k] && (Written(t.conns[d], t.log[k]) <==> s.publishers[k].Committed?)
  {
    SameLengths(v, s);
    var s1 := Do(v, s, Subscribe(d));
    var t := After(v, s1, steps);
    StepKeeps(v, s, Subscribe(d));
    RunKeeps(v, s1, steps);
    if s.publishers[k].Committed? {
      assert Coming(s1, k, d);
      hide Inv, Coming;
      ComingToTheEnd(v, s1, steps, k, d);
      ArrivedIfSettled(t, k, d);
    } else {
      NotATarget(v, s, k, d);
      assert Missed(s1, k, d);
      hide Inv, Missed;
      MissedForGood(v, s1, steps, k, d);
    }
  }

  lemma ArrivedIfSettled(t: Server, k: nat, d: nat)
    requires k < |t.log| == |t.publishers| && d < |t.conns| && Settled(t, d) && Coming(t, k, d)
    ensures Written(t.conns[d], t.log[k])
  {
  }

  /** A handler that looked before a connection subscribed does not know it. */
  lemma NotATarget(v: Visibility, s: Server, k: nat, d: nat)
    requires Inv(v, s) && k < |s.publishers| && s.publishers[k].Sending? && d < |s.conns| && s.conns[d].phase.Opened?
    ensures d !in s.publishers[k].targets && s.conns[d].written == [] && s.conns[d].queue == []
  {
    assert TargetsJoined(s, s.publishers[k]);
    assert ConnOk(v, s, d);
  }

  /** Events committed after c was written to lie above the id it resumes with. */
  lemma LaterIsAbove(v: Visibility, s: Server, c: nat, d: nat, t: Server, k: nat)
    requires Inv(v, s) && Inv(v, t) && Reconnects(s, c, d) && s.log <= t.log && |s.log| <= k < |t.log|
    ensures t.log[k].id > s.conns[d].resume
  {
    assert ConnOk(v, s, c);
    var last := s.conns[c].written[|s.conns[c].written| - 1];
    assert last in s.conns[c].written && last.event in s.log;
    var m :| 0 <= m < |s.log| && s.log[m] == last.event;
    assert t.log[m] == s.log[m];
  }

  /** Across a reconnect nothing is lost, once everything on its way has arrived, exactly when the
      handlers of all skipped events had not looked at the subscribers before the new subscription. */
  lemma ReconnectMissesNothingIff(v: Visibility, s: Server, c: nat, d: nat, steps: seq<Step>)
    requires Inv(v, s) && Reconnects(s, c, d) && Runs(v, Do(v, s, Subscribe(d)), steps)
    requires var t := After(v, Do(v, s, Subscribe(d)), steps); c < |t.conns| && d < |t.conns| && Settled(t, d)
    ensures |s.log| == |s.publishers|
    ensures var t := After(v, Do(v, s, Subscribe(d)), steps);
            (forall k :: 0 <= k < |t.log| ==> SentOnOne(v, t, c, d, k))
            <==> (forall k :: 0 <= k < |s.log| && Skipped(v, s, c, d, k) ==> s.publishers[k].Committed?)
  {
    SameLengths(v, s);
    var s1 := Do(v, s, Subscribe(d));
    var t := After(v, s1, steps);
    StepFacts(v, s, Subscribe(d), c);
    StepFacts(v, s, Subscribe(d), d);
    StepKeeps(v, s, Subscribe(d));
    RunFacts(v, s1, steps, c);
    RunFacts(v, s1, steps, d);
    RunKeeps(v, s1, steps);
    SettledIsComplete(v, t, d);
    forall k | 0 <= k < |s.log| && Skipped(v, s, c, d, k)
      ensures k < |t.log| && t.log[k] == s.log[k] && Written(t.conns[c], t.log[k]) == Written(s.conns[c], s.log[k])
              && (Written(t.conns[d], t.log[k]) <==> s.publishers[k].Committed?)
    {
      SkippedArrivesIff(v, s, c, d, steps, k);
    }
    forall k | 0 <= k < |t.log| && !(k < |s.log| && Skipped(v, s, c, d, k)) ensures SentOnOne(v, t, c, d, k) {
      if k >= |s.log| {
        LaterIsAbove(v, s, c, d, t, k);
      }
      assert t.log[k] in t.log;
    }
    hide Inv, Runs, After, Settled, Reconnects, Do;
    assert forall k :: 0 <= k < |s.log| && Skipped(v, s, c, d, k) ==> (SentOnOne(v, t, c, d, k) <==> s.publishers[k].Committed?);
  }

  /** In every run of the server: connection c is over at some point, d subscribes, and d settles later. */
  lemma ReconnectInAnyRun(v: Visibility, log: seq<Event>, before: seq<Step>, c: nat, d: nat, after: seq<Step>)
    requires Ascending(log) && Runs(v, Started(log), before)
    requires var s := After(v, Started(log), before);
             Reconnects(s, c, d) && Runs(v, Do(v, s, Subscribe(d)), after)
             && var t := After(v, Do(v, s, Subscribe(d)), after); c < |t.conns| && d < |t.conns| && Settled(t, d)
    ensures var s := After(v, Started(log), before);
            var t := After(v, Do(v, s, Subscribe(d)), after);
            |s.log| == |s.publishers|
            && ((forall k :: 0 <= k < |t.log| ==> SentOnOne(v, t, c, d, k))
                <==> (forall k :: 0 <= k < |s.log| && Skipped(v, s, c, d, k) ==> s.publishers[k].Committed?))
  {
    assert Inv(v, Started(log));
    hide Inv, Runs, After, Do, Reconnects, Settled;
    RunKeeps(v, Started(log), before);
    ReconnectMissesNothingIff(v, After(v, Started(log), before), c, d, after);
  }

  // ---------------------------------------------------------------- a run that loses an event

  ghost predicate AnyChannel(v: Visibility) {
    forall caller, channel :: v(caller, channel)
  }

  /** One client connected, two commits whose handlers have not looked yet. */
  lemma BothCommitted(v: Visibility, a: Event, b: Event, rest: seq<Step>) returns (mid: Server)
    requires a.id < b.id
    ensures mid.log == [a, b] && mid.publishers == [Committed, Committed] && forall c :: c in mid.subs <==> c == 0
    ensures mid.conns == [Conn("viewer", 0, Following([]), [], [])]
    ensures Runs(v, mid, rest) ==>
              var steps := [Open("viewer", 0), Subscribe(0)] + ([Replay(0), Commit(a)] + ([Commit(b)] + rest));
              Runs(v, Started([]), steps) && After(v, Started([]), steps) == After(v, mid, rest)
  {
    var s0 := Started([]);
    var s1 := Do(v, s0, Open("viewer", 0));
    assert s1.conns == [Conn("viewer", 0, Opened, [], [])];
    var s2 := Do(v, s1, Subscribe(0));
    var s3 := Do(v, s2, Replay(0));
    assert s3.log == [] && s3.publishers == [] && s3.conns == [Conn("viewer", 0, Following([]), [], [])] && 0 in s3.subs;
    var s4 := Do(v, s3, Commit(a));
    assert s4.log == [a] && s4.publishers == [Committed];
    mid := Do(v, s4, Commit(b));
    if Runs(v, mid, rest) {
      RunsOne(v, s4, Commit(b), rest);
      RunsTwo(v, s2, Replay(0), Commit(a), [Commit(b)] + rest);
      RunsTwo(v, s0, Open("viewer", 0), Subscribe(0), [Replay(0), Commit(a)] + ([Commit(b)] + rest));
    }
  }

  /** The second handler is faster; the client leaves, and only then the first handler looks. */
  lemma SecondOvertakes(v: Visibility, s: Server, a: Event, b: Event, rest: seq<Step>) returns (gone: Server)
    requires s.log == [a, b] && s.publishers == [Committed, Committed] && forall c :: c in s.subs <==> c == 0
    requires s.conns == [Conn("viewer", 0, Following([]), [], [])] && AnyChannel(v)
    ensures gone.log == [a, b] && gone.conns == [Conn("viewer", 0, Closed, [], [Delivery(b, true)])]
    ensures |gone.publishers| == 2 && gone.publishers[0].Sending? && 0 !in gone.subs
    ensures forall k :: 0 <= k < 2 ==> !Held(gone, k, 1)
    ensures Runs(v, gone, rest) ==>
              var steps := [Snapshot(1), Offer(1, 0)] + ([WriteLive(0), Close(0)] + ([Snapshot(0)] + rest));
              Runs(v, s, steps) && After(v, s, steps) == After(v, gone, rest)
  {
    var s1 := Do(v, s, Snapshot(1));
    assert s1.publishers[1] == Sending(s.subs);
    var s2 := Do(v, s1, Offer(1, 0));
    assert s2.conns[0] == Conn("viewer", 0, Following([]), [b], []);
    var s3 := Do(v, s2, WriteLive(0));
    assert s3.conns[0].written == [Delivery(b, true)] && s3.conns[0].queue == [];
    var s4 := Do(v, s3, Close(0));
    gone := Do(v, s4, Snapshot(0));
    if Runs(v, gone, rest) {
      RunsOne(v, s4, Snapshot(0), rest);
      RunsTwo(v, s2, WriteLive(0), Close(0), [Snapshot(0)] + rest);
      RunsTwo(v, s, Snapshot(1), Offer(1, 0), [WriteLive(0), Close(0)] + ([Snapshot(0)] + rest));
    }
  }

  lemma NothingAbove(v: Visibility, a: Event, b: Event, caller: string)
    requires a.id < b.id
    ensures EventsAfter(v, [a, b], caller, b.id) == []
  {
    assert [a, b][..1] == [a] && [a][..0] == [];
    assert EventsAfter(v, [a], caller, b.id) == [];
  }

  /** The reconnecting client resumes above the skipped event and settles without it. */
  lemma SettlesWithout(v: Visibility, gone: Server, a: Event, b: Event) returns (s: Server, t: Server)
    requires gone.log == [a, b] && gone.conns == [Conn("viewer", 0, Closed, [], [Delivery(b, true)])]
    requires |gone.publishers| == 2 && gone.publishers[0].Sending? && 0 < a.id < b.id && AnyChannel(v)
    requires forall k :: 0 <= k < 2 ==> !Held(gone, k, 1)
    ensures s == Do(v, gone, Open("viewer", b.id)) && Reconnects(s, 0, 1) && s.log == [a, b] && s.publishers == gone.publishers
    ensures Skipped(v, s, 0, 1, 0)
    ensures Runs(v, Do(v, s, Subscribe(1)), [Replay(1)]) && t == After(v, Do(v, s, Subscribe(1)), [Replay(1)])
    ensures t.log == [a, b] && |t.conns| == 2 && Settled(t, 1) && !Written(t.conns[0], a) && !Written(t.conns[1], a)
  {
    s := Do(v, gone, Open("viewer", b.id));
    assert s.conns == gone.conns + [Conn("viewer", b.id, Opened, [], [])];
    var s1 := Do(v, s, Subscribe(1));
    t := Do(v, s1, Replay(1));
    NothingAbove(v, a, b, "viewer");
    forall k | 0 <= k < |t.publishers| ensures !Held(t, k, 1) {
      assert !Held(gone, k, 1);
    }
    RunsOne(v, s1, Replay(1), []);
    assert [Replay(1)] + [] == [Replay(1)];
  }

  /** A whole run in which an event is committed, visible and asked for, and is sent on neither
      connection although nothing is on its way any more. */
  lemma ReconnectCanLose() returns (v: Visibility, before: seq<Step>, s: Server, t: Server)
    ensures Runs(v, Started([]), before) && s == After(v, Started([]), before) && Reconnects(s, 0, 1)
    ensures Runs(v, Do(v, s, Subscribe(1)), [Replay(1)]) && t == After(v, Do(v, s, Subscribe(1)), [Replay(1)])
    ensures |t.log| == 2 && |t.conns| == 2 && Settled(t, 1) && |s.log| == 2 && |s.publishers| == 2
    ensures Skipped(v, s, 0, 1, 0) && s.publishers[0].Sending? && !Written(t.conns[0], t.log[0]) && !Written(t.conns[1], t.log[0])
  {
    v := (caller, channel) => true;
    var a, b := Event(1, "general"), Event(2, "general");
    var reopen := [Open("viewer", b.id)];
    var overtake := [Snapshot(1), Offer(1, 0)] + ([WriteLive(0), Close(0)] + ([Snapshot(0)] + reopen));
    before := [Open("viewer", 0), Subscribe(0)] + ([Replay(0), Commit(a)] + ([Commit(b)] + overtake));
    var mid := BothCommitted(v, a, b, overtake);
    var gone := SecondOvertakes(v, mid, a, b, reopen);
    s, t := SettlesWithout(v, gone, a, b);
    RunsOne(v, gone, Open("viewer", b.id), []);
    assert [Open("viewer", b.id)] + [] == reopen;
    hide Do, Runs, After, Enabled, Reconnects, Settled, Skipped, Written;
  }

  lemma RunsOne(v: Visibility, s: Server, first: Step, rest: seq<Step>)
    requires Enabled(s, first) && Runs(v, Do(v, s, first), rest)
    ensures Runs(v, s, [first] + rest) && After(v, s, [first] + rest) == After(v, Do(v, s, first), rest)
  {
    hide Enabled, Do;
    assert ([first] + rest)[1..] == rest;
  }

  lemma RunsTwo(v: Visibility, s: Server, first: Step, second: Step, rest: seq<Step>)
    requires Enabled(s, first) && Enabled(Do(v, s, first), second) && Runs(v, Do(v, Do(v, s, first), second), rest)
    ensures Runs(v, s, [first, second] + rest)
    ensures After(v, s, [first, second] + rest) == After(v, Do(v, Do(v, s, first), second), rest)
  {
    hide Enabled, Do;
    var steps := [first, second] + rest;
    assert steps[1..] == [second] + rest && steps[1..][1..] == rest;
  }
}
