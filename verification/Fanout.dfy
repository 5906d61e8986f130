/** The event stream: handlers publish committed events to the subscribers they find, while
    connections subscribe, replay from the outbox and then follow their stream. */
module Fanout {

  datatype Event = Event(id: nat, channel: string)

  /** Who may see which channel; fixed while we look. */
  type Visibility = (string, string) -> bool

  /** A write to the client, from the replay or from the stream. */
  datatype Delivery = Delivery(event: Event, live: bool)

  datatype ConnPhase =
    | Opened
    | Subscribed
    | Following(replay: seq<Event>)   // what is left to replay; the stream is read once this is empty
    | Closed

  datatype Conn = Conn(caller: string, resume: int, phase: ConnPhase, queue: seq<Event>, written: seq<Delivery>)

  /** The handler of a committed send: before and after it copied the subscriber map. */
  datatype Publisher = Committed | Sending(targets: set<nat>)

  /** `publishers[k]` is the handler of `log[k]`. */
  datatype Server = Server(log: seq<Event>, publishers: seq<Publisher>, subs: set<nat>, conns: seq<Conn>)

  datatype Step =
    | Commit(event: Event)
    | Open(caller: string, resume: int)
    | Subscribe(c: nat)
    | Replay(c: nat)
    | WriteReplay(c: nat)
    | WriteLive(c: nat)
    | Close(c: nat)
    | Snapshot(p: nat)
    | Offer(p: nat, c: nat)

  const QUEUE_SIZE: nat := 64

  /** The outbox rows above an id that the caller may see, in id order. */
  function EventsAfter(v: Visibility, log: seq<Event>, caller: string, after: int): (r: seq<Event>)
    ensures forall e :: e in r <==> e in log && e.id > after && v(caller, e.channel)
  {
    if log == [] then [] else
      var n := |log| - 1;
      assert log == log[..n] + [log[n]];
      EventsAfter(v, log[..n], caller, after) + if log[n].id > after && v(caller, log[n].channel) then [log[n]] else []
  }

  predicate Enabled(s: Server, step: Step) {
    match step
    case Commit(e) => forall k :: 0 <= k < |s.log| ==> s.log[k].id < e.id
    case Open(_, _) => true
    case Subscribe(c) => c < |s.conns| && s.conns[c].phase.Opened?
    case Replay(c) => c < |s.conns| && s.conns[c].phase.Subscribed?
    case WriteReplay(c) => c < |s.conns| && s.conns[c].phase.Following? && s.conns[c].phase.replay != []
    case WriteLive(c) => c < |s.conns| && s.conns[c].phase == Following([]) && s.conns[c].queue != []
    case Close(c) => c < |s.conns| && !s.conns[c].phase.Closed?
    case Snapshot(p) => p < |s.publishers| && s.publishers[p].Committed?
    case Offer(p, c) => p < |s.publishers| && p < |s.log| && s.publishers[p].Sending? && c in s.publishers[p].targets
                        && c < |s.conns| && |s.conns[c].queue| < QUEUE_SIZE
  }

  function Set(s: Server, c: nat, conn: Conn): Server
    requires c < |s.conns|
  {
    s.(conns := s.conns[c := conn])
  }

  function Do(v: Visibility, s: Server, step: Step): Server
    requires Enabled(s, step)
  {
    match step
    case Commit(e) => s.(log := s.log + [e], publishers := s.publishers + [Committed])
    case Open(caller, resume) => s.(conns := s.conns + [Conn(caller, resume, Opened, [], [])])
    case Subscribe(c) => Set(s, c, s.conns[c].(phase := Subscribed)).(subs := s.subs + {c})
    case Replay(c) => Set(s, c, s.conns[c].(phase := Following(EventsAfter(v, s.log, s.conns[c].caller, s.conns[c].resume))))
    case WriteReplay(c) =>
      var conn := s.conns[c];
      Set(s, c, conn.(phase := Following(conn.phase.replay[1..]), written := conn.written + [Delivery(conn.phase.replay[0], false)]))
    case WriteLive(c) =>
      var conn := s.conns[c];
      Set(s, c, conn.(queue := conn.queue[1..], written := conn.written + [Delivery(conn.queue[0], true)]))
    case Close(c) => Set(s, c, s.conns[c].(phase := Closed)).(subs := s.subs - {c})
    case Snapshot(p) => s.(publishers := s.publishers[p := Sending(s.subs)])
    case Offer(p, c) =>
      var conn, e := s.conns[c], s.log[p];
      var sent := if v(conn.caller, e.channel) then Set(s, c, conn.(queue := conn.queue + [e])) else s;
      sent.(publishers := s.publishers[p := Sending(s.publishers[p].targets - {c})])
  }

  // ---------------------------------------------------------------- nothing is lost while connected

  ghost predicate Written(conn: Conn, e: Event) {
    Delivery(e, false) in conn.written || Delivery(e, true) in conn.written
  }

  /** The handler of log[k] will still offer its event to connection c. */
  ghost predicate Held(s: Server, k: nat, c: nat)
    requires k < |s.publishers|
  {
    s.publishers[k].Committed? || c in s.publishers[k].targets
  }

  ghost predicate Accounted(s: Server, k: nat, c: nat)
    requires k < |s.log| == |s.publishers| && c < |s.conns| && s.conns[c].phase.Following?
  {
    var conn, e := s.conns[c], s.log[k];
    Written(conn, e) || e in conn.phase.replay || e in conn.queue || Held(s, k, c)
  }

  ghost predicate Wanted(v: Visibility, conn: Conn, e: Event) {
    e.id > conn.resume && v(conn.caller, e.channel)
  }

  /** Every committed event the client asked for and may see is somewhere on its way to it. */
  ghost predicate NoLoss(v: Visibility, s: Server, c: nat)
    requires c < |s.conns| && |s.log| == |s.publishers|
  {
    s.conns[c].phase.Following? ==>
      forall k :: 0 <= k < |s.log| && Wanted(v, s.conns[c], s.log[k]) ==> Accounted(s, k, c)
  }

  /** Events in the stream of c come from handlers that are done with c, each once; whatever was or
      will be written is committed and visible. */
  ghost predicate Once(v: Visibility, s: Server, c: nat)
    requires c < |s.conns| && |s.log| == |s.publishers|
  {
    var conn := s.conns[c];
    && (forall k :: 0 <= k < |s.log| && (s.log[k] in conn.queue || Delivery(s.log[k], true) in conn.written) ==> !Held(s, k, c))
    && (forall i, j :: 0 <= i < j < |conn.queue| ==> conn.queue[i] != conn.queue[j])
    && (forall i, j :: 0 <= i < j < |conn.written| ==> conn.written[i] != conn.written[j])
    && (forall i :: 0 <= i < |conn.queue| ==> Delivery(conn.queue[i], true) !in conn.written)
    && (forall i :: 0 <= i < |conn.queue| ==> conn.queue[i] in s.log && v(conn.caller, conn.queue[i].channel))
    && (forall d :: d in conn.written ==> d.event in s.log && v(conn.caller, d.event.channel))
  }

  ghost predicate Ascending(events: seq<Event>) {
    forall i, j :: 0 <= i < j < |events| ==> events[i].id < events[j].id
  }

  /** The rest of the replay is ascending and not written yet. */
  ghost predicate ReplayOk(v: Visibility, s: Server, c: nat)
    requires c < |s.conns|
  {
    var conn := s.conns[c];
    match conn.phase
    case Following(replay) =>
      && Ascending(replay)
      && (forall i :: 0 <= i < |replay| ==> Delivery(replay[i], false) !in conn.written)
      && (forall e :: e in replay ==> e in s.log && Wanted(v, conn, e))
    case Opened => conn.written == [] && conn.queue == []
    case Subscribed => conn.written == []
    case Closed => true
  }

  ghost predicate Known(s: Server) {
    && |s.log| == |s.publishers|
    && Ascending(s.log)
    && (forall c: nat :: c in s.subs <==> Listening(s, c))
    && (forall k :: 0 <= k < |s.publishers| ==> TargetsJoined(s, s.publishers[k]))
  }

  ghost predicate Joined(s: Server, c: nat) {
    c < |s.conns| && !s.conns[c].phase.Opened?
  }

  ghost predicate TargetsJoined(s: Server, p: Publisher) {
    p.Sending? ==> forall c :: c in p.targets ==> Joined(s, c)
  }

  ghost predicate Listening(s: Server, c: nat) {
    c < |s.conns| && (s.conns[c].phase.Subscribed? || s.conns[c].phase.Following?)
  }

  /** The parts of a step that touch only connections keep the bookkeeping. */
  lemma KnownKeeps(s: Server, s': Server)
    requires Known(s) && s'.log == s.log && s'.publishers == s.publishers
    requires forall c: nat :: Joined(s, c) ==> Joined(s', c)
    requires forall c: nat :: c in s'.subs <==> Listening(s', c)
    ensures Known(s')
  {
    forall k | 0 <= k < |s'.publishers| ensures TargetsJoined(s', s'.publishers[k]) {
      assert TargetsJoined(s, s.publishers[k]);
    }
  }

  /** And so do the steps of a handler. */
  lemma KnownAfterHandler(s: Server, s': Server, p: nat)
    requires Known(s) && s'.log == s.log && p < |s.publishers| && s'.subs == s.subs
    requires |s'.publishers| == |s.publishers| && s'.publishers == s.publishers[p := s'.publishers[p]]
    requires s'.publishers[p].Sending? && forall c :: c in s'.publishers[p].targets ==> Joined(s, c)
    requires |s'.conns| == |s.conns| && forall c :: 0 <= c < |s.conns| ==> s'.conns[c].phase == s.conns[c].phase
    ensures Known(s')
  {
    forall c: nat ensures (Joined(s, c) <==> Joined(s', c)) && (Listening(s, c) <==> Listening(s', c)) {
    }
    forall k | 0 <= k < |s'.publishers| ensures TargetsJoined(s', s'.publishers[k]) {
      assert TargetsJoined(s, s.publishers[k]);
    }
  }

  ghost predicate Inv(v: Visibility, s: Server) {
    && Known(s)
    && forall c :: 0 <= c < |s.conns| ==> ConnOk(v, s, c)
  }

  ghost predicate ConnOk(v: Visibility, s: Server, c: nat)
    requires c < |s.conns| && |s.log| == |s.publishers|
  {
    NoLoss(v, s, c) && Once(v, s, c) && ReplayOk(v, s, c)
  }

  lemma {:induction false} ReplayAscends(v: Visibility, log: seq<Event>, caller: string, after: int)
    requires Ascending(log)
    ensures Ascending(EventsAfter(v, log, caller, after))
  {
    if log != [] {
      var n := |log| - 1;
      ReplayAscends(v, log[..n], caller, after);
      var r := EventsAfter(v, log[..n], caller, after);
      forall i | 0 <= i < |r| ensures r[i].id < log[n].id {
        assert r[i] in r && r[i] in log[..n];
      }
    }
  }

  /** A step that leaves a connection alone and neither gives back nor drops what is held for it. */
  lemma Untouched(v: Visibility, s: Server, s': Server, c: nat)
    requires Known(s) && |s'.publishers| == |s.publishers| && s'.log == s.log
    requires c < |s.conns| && c < |s'.conns| && s'.conns[c] == s.conns[c] && ConnOk(v, s, c)
    requires forall k :: 0 <= k < |s.publishers| && Held(s', k, c) ==> Held(s, k, c)
    requires s.conns[c].phase.Following? ==> forall k :: 0 <= k < |s.publishers| && Held(s, k, c) ==> Held(s', k, c)
    ensures ConnOk(v, s', c)
  {
    if s.conns[c].phase.Following? {
      forall k | 0 <= k < |s.log| && Wanted(v, s.conns[c], s.log[k]) ensures Accounted(s', k, c) {
        assert Accounted(s, k, c);
      }
    }
  }

  lemma KnownAfterCommit(s: Server, s': Server, e: Event)
    requires Known(s) && Enabled(s, Commit(e))
    requires s' == s.(log := s.log + [e], publishers := s.publishers + [Committed])
    ensures Known(s')
  {
    forall c: nat ensures (Joined(s, c) <==> Joined(s', c)) && (Listening(s, c) <==> Listening(s', c)) {
    }
    forall k | 0 <= k < |s'.publishers| ensures TargetsJoined(s', s'.publishers[k]) {
      if k < |s.publishers| {
        assert TargetsJoined(s, s.publishers[k]);
      }
    }
  }

  lemma CommitKeeps(v: Visibility, s: Server, e: Event)
    requires Inv(v, s) && Enabled(s, Commit(e))
    ensures Inv(v, Do(v, s, Commit(e)))
  {
    var s' := Do(v, s, Commit(e));
    assert e !in s.log;
    KnownAfterCommit(s, s', e);
    forall c | 0 <= c < |s'.conns| ensures ConnOk(v, s', c) {
      assert ConnOk(v, s, c);
      forall k | 0 <= k < |s.log| ensures Held(s', k, c) <==> Held(s, k, c) {
      }
      if s.conns[c].phase.Following? {
        forall k | 0 <= k < |s'.log| && Wanted(v, s'.conns[c], s'.log[k]) ensures Accounted(s', k, c) {
          if k < |s.log| {
            assert Accounted(s, k, c);
          }
        }
      }
      assert ReplayOk(v, s', c);
      assert Once(v, s', c) by {
        forall k | 0 <= k < |s'.log| && (s'.log[k] in s.conns[c].queue || Delivery(s'.log[k], true) in s.conns[c].written) ensures !Held(s', k, c) {
          assert s'.log[k] in s.log;
          assert k < |s.log|;
        }
      }
    }
  }

  lemma SnapshotKeeps(v: Visibility, s: Server, p: nat)
    requires Inv(v, s) && Enabled(s, Snapshot(p))
    ensures Inv(v, Do(v, s, Snapshot(p)))
  {
    var s' := Do(v, s, Snapshot(p));
    KnownAfterHandler(s, s', p);
    forall c: nat | c < |s'.conns| ensures ConnOk(v, s', c) {
      assert ConnOk(v, s, c);
      assert s.conns[c].phase.Following? ==> c in s.subs;
      Untouched(v, s, s', c);
    }
  }

  /** Steps of one connection, other than taking an offer. */
  lemma OthersUntouched(v: Visibility, s: Server, s': Server, c: nat)
    requires Inv(v, s) && s'.log == s.log && s'.publishers == s.publishers
    requires |s'.conns| == |s.conns| && c < |s.conns| && ConnOk(v, s', c)
    requires forall d :: 0 <= d < |s.conns| && d != c ==> s'.conns[d] == s.conns[d]
    ensures forall d :: 0 <= d < |s'.conns| ==> ConnOk(v, s', d)
  {
    forall d: nat | d < |s'.conns| ensures ConnOk(v, s', d) {
      if d != c {
        assert ConnOk(v, s, d);
        Untouched(v, s, s', d);
      }
    }
  }

  lemma OpenKeeps(v: Visibility, s: Server, caller: string, resume: int)
    requires Inv(v, s)
    ensures Inv(v, Do(v, s, Open(caller, resume)))
  {
    var s' := Do(v, s, Open(caller, resume));
    KnownKeeps(s, s');
    forall c: nat | c < |s'.conns| ensures ConnOk(v, s', c) {
      if c < |s.conns| {
        assert ConnOk(v, s, c);
        Untouched(v, s, s', c);
      }
    }
  }

  lemma ReplayKeeps(v: Visibility, s: Server, c: nat)
    requires Inv(v, s) && Enabled(s, Replay(c))
    ensures Inv(v, Do(v, s, Replay(c)))
  {
    var s' := Do(v, s, Replay(c));
    KnownKeeps(s, s');
    assert ConnOk(v, s, c);
    ReplayAscends(v, s.log, s.conns[c].caller, s.conns[c].resume);
    assert ConnOk(v, s', c) by {
      forall k | 0 <= k < |s'.log| && Wanted(v, s'.conns[c], s'.log[k]) ensures Accounted(s', k, c) {
        assert s.log[k] in EventsAfter(v, s.log, s.conns[c].caller, s.conns[c].resume);
      }
    }
    OthersUntouched(v, s, s', c);
  }

  lemma WriteReplayNoLoss(v: Visibility, s: Server, c: nat)
    requires Known(s) && Enabled(s, WriteReplay(c)) && NoLoss(v, s, c)
    ensures NoLoss(v, Do(v, s, WriteReplay(c)), c)
  {
    var s' := Do(v, s, WriteReplay(c));
    var conn, conn' := s.conns[c], s'.conns[c];
    var head := conn.phase.replay[0];
    assert forall e :: e in conn.phase.replay ==> e == head || e in conn'.phase.replay;
    assert conn'.written[|conn.written|] == Delivery(head, false);
    assert forall x :: x in conn.written ==> x in conn'.written;
    forall k | 0 <= k < |s'.log| && Wanted(v, conn', s'.log[k]) ensures Accounted(s', k, c) {
      assert Accounted(s, k, c);
    }
  }

  lemma WriteReplayOnce(v: Visibility, s: Server, c: nat)
    requires Known(s) && Enabled(s, WriteReplay(c)) && Once(v, s, c) && ReplayOk(v, s, c)
    ensures Once(v, Do(v, s, WriteReplay(c)), c) && ReplayOk(v, Do(v, s, WriteReplay(c)), c)
  {
    var s' := Do(v, s, WriteReplay(c));
    var conn, conn' := s.conns[c], s'.conns[c];
    var head := conn.phase.replay[0];
    assert head in conn.phase.replay;
    assert forall x :: x in conn'.written <==> x in conn.written || x == Delivery(head, false);
    assert forall e :: e in conn'.phase.replay ==> e in conn.phase.replay;
  }

  lemma WriteReplayKeeps(v: Visibility, s: Server, c: nat)
    requires Inv(v, s) && Enabled(s, WriteReplay(c))
    ensures Inv(v, Do(v, s, WriteReplay(c)))
  {
    hide NoLoss, Once, ReplayOk;
    var s' := Do(v, s, WriteReplay(c));
    KnownKeeps(s, s');
    assert ConnOk(v, s, c);
    WriteReplayNoLoss(v, s, c);
    WriteReplayOnce(v, s, c);
    OthersUntouched(v, s, s', c);
  }

  lemma WriteLiveNoLoss(v: Visibility, s: Server, c: nat)
    requires Known(s) && Enabled(s, WriteLive(c)) && NoLoss(v, s, c)
    ensures NoLoss(v, Do(v, s, WriteLive(c)), c)
  {
    var s' := Do(v, s, WriteLive(c));
    var conn, conn' := s.conns[c], s'.conns[c];
    var head := conn.queue[0];
    assert forall e :: e in conn.queue ==> e == head || e in conn'.queue;
    assert conn'.written[|conn.written|] == Delivery(head, true);
    assert forall x :: x in conn.written ==> x in conn'.written;
    forall k | 0 <= k < |s'.log| && Wanted(v, conn', s'.log[k]) ensures Accounted(s', k, c) {
      assert Accounted(s, k, c);
    }
  }

  lemma WriteLiveOnce(v: Visibility, s: Server, c: nat)
    requires Known(s) && Enabled(s, WriteLive(c)) && Once(v, s, c) && ReplayOk(v, s, c)
    ensures Once(v, Do(v, s, WriteLive(c)), c) && ReplayOk(v, Do(v, s, WriteLive(c)), c)
  {
    var s' := Do(v, s, WriteLive(c));
    var conn, conn' := s.conns[c], s'.conns[c];
    var head := conn.queue[0];
    assert head in conn.queue;
    assert forall x :: x in conn'.written <==> x in conn.written || x == Delivery(head, true);
    assert forall e :: e in conn'.queue ==> e in conn.queue;
  }

  lemma WriteLiveKeeps(v: Visibility, s: Server, c: nat)
    requires Inv(v, s) && Enabled(s, WriteLive(c))
    ensures Inv(v, Do(v, s, WriteLive(c)))
  {
    hide NoLoss, Once, ReplayOk;
    var s' := Do(v, s, WriteLive(c));
    KnownKeeps(s, s');
    assert ConnOk(v, s, c);
    WriteLiveNoLoss(v, s, c);
    WriteLiveOnce(v, s, c);
    OthersUntouched(v, s, s', c);
  }

  lemma SubscribeOrCloseKeeps(v: Visibility, s: Server, step: Step)
    requires Inv(v, s) && Enabled(s, step) && (step.Subscribe? || step.Close?)
    ensures Inv(v, Do(v, s, step))
  {
    var s' := Do(v, s, step);
    KnownKeeps(s, s');
    assert ConnOk(v, s, step.c);
    assert ConnOk(v, s', step.c);
    OthersUntouched(v, s, s', step.c);
  }

  lemma OfferKeeps(v: Visibility, s: Server, p: nat, c: nat)
    requires Inv(v, s) && Enabled(s, Offer(p, c))
    ensures Inv(v, Do(v, s, Offer(p, c)))
  {
    var s' := Do(v, s, Offer(p, c));
    assert TargetsJoined(s, s.publishers[p]);
    KnownAfterHandler(s, s', p);
    var conn, conn', e := s.conns[c], s'.conns[c], s.log[p];
    assert ConnOk(v, s, c) && Held(s, p, c);
    assert ConnOk(v, s', c) by {
      if conn.phase.Following? {
        forall k | 0 <= k < |s'.log| && Wanted(v, conn', s'.log[k]) ensures Accounted(s', k, c) {
          assert Accounted(s, k, c);
          assert k != p ==> (Held(s, k, c) ==> Held(s', k, c));
          assert conn'.queue == conn.queue || conn'.queue[|conn.queue|] == e;
        }
      }
      OfferOnce(v, s, p, c);
      assert ReplayOk(v, s', c);
    }
    forall d: nat | d < |s'.conns| ensures ConnOk(v, s', d) {
      if d != c {
        assert ConnOk(v, s, d);
        Untouched(v, s, s', d);
      }
    }
  }

  lemma OfferOnce(v: Visibility, s: Server, p: nat, c: nat)
    requires Known(s) && Enabled(s, Offer(p, c)) && Once(v, s, c)
    ensures Once(v, Do(v, s, Offer(p, c)), c)
  {
    var s' := Do(v, s, Offer(p, c));
    var conn, conn', e := s.conns[c], s'.conns[c], s.log[p];
    assert Held(s, p, c);
    assert e !in conn.queue && Delivery(e, true) !in conn.written;
    forall k | 0 <= k < |s.log| && (s.log[k] in conn'.queue || Delivery(s.log[k], true) in conn'.written) ensures !Held(s', k, c) {
      if k != p {
        assert s.log[k] != e;
        assert s.log[k] in conn'.queue ==> s.log[k] in conn.queue;
      }
    }
  }

  lemma StepKeeps(v: Visibility, s: Server, step: Step)
    requires Inv(v, s) && Enabled(s, step)
    ensures Inv(v, Do(v, s, step))
  {
    hide Inv, Enabled, Do;
    match step {
      case Commit(e) => CommitKeeps(v, s, e);
      case Open(caller, resume) => OpenKeeps(v, s, caller, resume);
      case Subscribe(_) => SubscribeOrCloseKeeps(v, s, step);
      case Replay(c) => ReplayKeeps(v, s, c);
      case WriteReplay(c) => WriteReplayKeeps(v, s, c);
      case WriteLive(c) => WriteLiveKeeps(v, s, c);
      case Close(_) => SubscribeOrCloseKeeps(v, s, step);
      case Snapshot(p) => SnapshotKeeps(v, s, p);
      case Offer(p, c) => OfferKeeps(v, s, p, c);
    }
  }

  // ---------------------------------------------------------------- whole runs

  predicate Runs(v: Visibility, s: Server, steps: seq<Step>)
    decreases |steps|
  {
    steps == [] || (Enabled(s, steps[0]) && Runs(v, Do(v, s, steps[0]), steps[1..]))
  }

  function After(v: Visibility, s: Server, steps: seq<Step>): Server
    requires Runs(v, s, steps)
    decreases |steps|
  {
    if steps == [] then s else After(v, Do(v, s, steps[0]), steps[1..])
  }

  lemma {:induction false} RunKeeps(v: Visibility, s: Server, steps: seq<Step>)
    requires Inv(v, s) && Runs(v, s, steps)
    ensures Inv(v, After(v, s, steps))
    decreases |steps|
  {
    hide Inv, Enabled, Do;
    if steps != [] {
      StepKeeps(v, s, steps[0]);
      RunKeeps(v, Do(v, s, steps[0]), steps[1..]);
    }
  }

  /** A server that just started over an outbox with some rows. */
  function Started(log: seq<Event>): Server {
    Server(log, seq(|log|, _ => Sending({})), {}, [])
  }

  /** In every interleaving, each committed event that a connected client asked for and may see is
      written, still to be replayed, in its stream, or held by a handler that will offer it. */
  lemma NothingLostWhileConnected(v: Visibility, log: seq<Event>, steps: seq<Step>, c: nat, k: nat)
    requires Ascending(log) && Runs(v, Started(log), steps)
    requires var s := After(v, Started(log), steps);
             c < |s.conns| && s.conns[c].phase.Following? && k < |s.log| && Wanted(v, s.conns[c], s.log[k])
    ensures var s := After(v, Started(log), steps); |s.log| == |s.publishers| && Accounted(s, k, c)
  {
    var start := Started(log);
    assert Inv(v, start);
    RunKeeps(v, start, steps);
    assert ConnOk(v, After(v, start, steps), c);
  }

  /** Nothing is on its way to the connection any more. */
  ghost predicate Settled(s: Server, c: nat)
    requires c < |s.conns|
  {
    s.conns[c].phase == Following([]) && s.conns[c].queue == [] && forall k :: 0 <= k < |s.publishers| ==> !Held(s, k, c)
  }

  /** Once the handlers are through and the queues empty, the client was sent every event it asked
      for and may see, nothing else that it may not see, and each at most once from the replay and
      once from the stream. */
  lemma SettledIsComplete(v: Visibility, s: Server, c: nat)
    requires Inv(v, s) && c < |s.conns| && Settled(s, c)
    ensures forall e :: e in s.log && Wanted(v, s.conns[c], e) ==> Written(s.conns[c], e)
    ensures forall d :: d in s.conns[c].written ==> d.event in s.log && v(s.conns[c].caller, d.event.channel)
    ensures forall i, j :: 0 <= i < j < |s.conns[c].written| ==> s.conns[c].written[i] != s.conns[c].written[j]
  {
    assert ConnOk(v, s, c);
    forall e | e in s.log && Wanted(v, s.conns[c], e) ensures Written(s.conns[c], e) {
      var k :| 0 <= k < |s.log| && s.log[k] == e;
      assert Accounted(s, k, c);
    }
  }
}
