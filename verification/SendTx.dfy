/** Any number of sends at once. A row that a transaction updates stays locked until it ends; updates
    wait for the lock and then see the committed row. */
module SendTx {
  import opened Options
  import opened SendDb

  /** The locks taken so far, and the values read back under them. */
  datatype Phase =
    | Started
    | HasChannel(ordinal: nat)
    | HasFeed(ordinal: nat, feed: nat, bound: nat)
    | Logged(ordinal: nat, feed: nat, event: nat)
    | Over

  datatype Tx = Tx(req: Request, phase: Phase)

  /** What was committed, in commit order. */
  datatype Change = Message(req: Request, event: nat) | Draft(id: string, media: Media)

  /** `nextEvent` is a sequence: an aborted transaction does not give its number back. */
  datatype Sys = Sys(db: Db, nextEvent: nat, txs: seq<Tx>, history: seq<Change>)

  datatype Step =
    | Begin(req: Request)
    | TakeChannel(t: nat)
    | TakeFeed(t: nat)
    | BindOne(t: nat)
    | Log(t: nat)
    | Commit(t: nat)
    | Abort(t: nat)
    | AddDraft(id: string, channel: string, owner: string, expires: nat)

  predicate HoldsChannel(tx: Tx, c: string) {
    (tx.phase.HasChannel? || tx.phase.HasFeed? || tx.phase.Logged?) && tx.req.channel == c
  }

  predicate HoldsFeed(tx: Tx) {
    tx.phase.HasFeed? || tx.phase.Logged?
  }

  predicate HoldsMedia(tx: Tx, id: string) {
    (tx.phase.HasFeed? && tx.phase.bound <= |tx.req.media| && id in tx.req.media[..tx.phase.bound]) || (tx.phase.Logged? && id in tx.req.media)
  }

  /** The other transaction holds the row that `tx` is about to update. */
  predicate Waits(s: Sys, t: nat, holder: nat)
    requires t < |s.txs| && holder < |s.txs|
  {
    var tx, other := s.txs[t], s.txs[holder];
    && t != holder
    && match tx.phase
       case Started => HoldsChannel(other, tx.req.channel)
       case HasChannel(_) => HoldsFeed(other)
       case HasFeed(_, _, k) => k < |tx.req.media| && HoldsMedia(other, tx.req.media[k])
       case _ => false
  }

  predicate Blocked(s: Sys, t: nat)
    requires t < |s.txs|
  {
    exists holder :: 0 <= holder < |s.txs| && Waits(s, t, holder)
  }

  predicate Enabled(s: Sys, step: Step) {
    match step
    case Begin(_) => true
    case TakeChannel(t) => t < |s.txs| && s.txs[t].phase.Started? && !Blocked(s, t) && s.txs[t].req.channel in s.db.channelLast
    case TakeFeed(t) => t < |s.txs| && s.txs[t].phase.HasChannel? && !Blocked(s, t)
    case BindOne(t) =>
      && t < |s.txs| && s.txs[t].phase.HasFeed? && !Blocked(s, t)
      && var tx := s.txs[t];
         && tx.phase.bound < |tx.req.media|
         && tx.req.media[tx.phase.bound] !in tx.req.media[..tx.phase.bound]
         && Bindable(s.db.media, tx.req, tx.req.media[tx.phase.bound])
    case Log(t) => t < |s.txs| && s.txs[t].phase.HasFeed? && s.txs[t].phase.bound == |s.txs[t].req.media|
    case Commit(t) => t < |s.txs| && s.txs[t].phase.Logged?
    case Abort(t) => t < |s.txs| && !s.txs[t].phase.Over?
    case AddDraft(id, _, _, _) => id !in s.db.media
  }

  function Moved(s: Sys, t: nat, phase: Phase): Sys
    requires t < |s.txs|
  {
    s.(txs := s.txs[t := s.txs[t].(phase := phase)])
  }

  /** Everything the transaction wrote becomes visible at once. */
  function Written(db: Db, tx: Tx): Db
    requires tx.phase.Logged?
  {
    var msg := Live(tx.req.channel, tx.phase.feed);
    Db(db.channelLast[tx.req.channel := tx.phase.ordinal], tx.phase.feed,
       db.rows + [Row(msg, tx.req.caller, tx.req.text, tx.phase.ordinal, tx.phase.event, tx.req.media)],
       map id | id in db.media :: if id in tx.req.media then db.media[id].(parent := Some(msg)) else db.media[id])
  }

  function Do(s: Sys, step: Step): Sys
    requires Enabled(s, step)
  {
    match step
    case Begin(req) => s.(txs := s.txs + [Tx(req, Started)])
    case TakeChannel(t) => Moved(s, t, HasChannel(s.db.channelLast[s.txs[t].req.channel] + 1))
    case TakeFeed(t) => Moved(s, t, HasFeed(s.txs[t].phase.ordinal, s.db.feedLast + 1, 0))
    case BindOne(t) => Moved(s, t, s.txs[t].phase.(bound := s.txs[t].phase.bound + 1))
    case Log(t) =>
      Moved(s, t, Logged(s.txs[t].phase.ordinal, s.txs[t].phase.feed, s.nextEvent)).(nextEvent := s.nextEvent + 1)
    case Commit(t) =>
      Moved(s, t, Over).(db := Written(s.db, s.txs[t]), history := s.history + [Message(s.txs[t].req, s.txs[t].phase.event)])
    case Abort(t) => Moved(s, t, Over)
    case AddDraft(id, channel, owner, expires) =>
      var draft := Media(channel, owner, None, expires);
      s.(db := s.db.(media := s.db.media[id := draft]), history := s.history + [Draft(id, draft)])
  }

  // ---------------------------------------------------------------- what every step keeps

  /** The values a transaction works with are still the committed ones. */
  ghost predicate TxOk(s: Sys, tx: Tx) {
    match tx.phase
    case Started => true
    case HasChannel(o) => tx.req.channel in s.db.channelLast && o == s.db.channelLast[tx.req.channel] + 1
    case HasFeed(o, f, k) =>
      && tx.req.channel in s.db.channelLast && o == s.db.channelLast[tx.req.channel] + 1 && f == s.db.feedLast + 1
      && k <= |tx.req.media| && AllBindable(s.db.media, tx.req, tx.req.media[..k])
    case Logged(o, f, e) =>
      && tx.req.channel in s.db.channelLast && o == s.db.channelLast[tx.req.channel] + 1 && f == s.db.feedLast + 1
      && AllBindable(s.db.media, tx.req, tx.req.media) && NewEvent(s.db, e) && e < s.nextEvent
    case Over => true
  }

  ghost predicate Compatible(a: Tx, b: Tx) {
    !(HoldsFeed(a) && HoldsFeed(b)) && !HoldsChannelOf(a, b)
  }

  /** Both hold the same channel row. */
  ghost predicate HoldsChannelOf(a: Tx, b: Tx) {
    HoldsChannel(a, b.req.channel) && HoldsChannel(b, b.req.channel)
  }

  ghost predicate TxsOk(s: Sys) {
    forall t :: 0 <= t < |s.txs| ==> TxOk(s, s.txs[t])
  }

  ghost predicate Exclusive(s: Sys) {
    forall t, u :: 0 <= t < |s.txs| && 0 <= u < |s.txs| && t != u ==> Compatible(s.txs[t], s.txs[u])
  }

  ghost predicate Inv(s: Sys, base: nat, bases: map<string, nat>) {
    TxsOk(s) && Exclusive(s) && NewEvent(s.db, s.nextEvent) && DbInv(s.db, base, bases)
  }

  lemma ExclusiveAfter(s: Sys, t: nat, phase: Phase)
    requires t < |s.txs| && Exclusive(s)
    requires forall u :: 0 <= u < |s.txs| && u != t ==> Compatible(s.txs[t].(phase := phase), s.txs[u])
    ensures Exclusive(Moved(s, t, phase))
  {
  }

  lemma NotBlockedMeans(s: Sys, t: nat, u: nat)
    requires t < |s.txs| && u < |s.txs| && !Blocked(s, t)
    ensures !Waits(s, t, u)
  {
  }

  lemma TakeChannelKeeps(s: Sys, t: nat, base: nat, bases: map<string, nat>)
    requires Inv(s, base, bases) && Enabled(s, TakeChannel(t))
    ensures Inv(Do(s, TakeChannel(t)), base, bases)
  {
    hide DbInv, Blocked;
    forall u | 0 <= u < |s.txs| && u != t ensures !HoldsChannel(s.txs[u], s.txs[t].req.channel) {
      NotBlockedMeans(s, t, u);
    }
    ExclusiveAfter(s, t, HasChannel(s.db.channelLast[s.txs[t].req.channel] + 1));
  }

  lemma TakeFeedKeeps(s: Sys, t: nat, base: nat, bases: map<string, nat>)
    requires Inv(s, base, bases) && Enabled(s, TakeFeed(t))
    ensures Inv(Do(s, TakeFeed(t)), base, bases)
  {
    hide DbInv, Blocked;
    var phase := HasFeed(s.txs[t].phase.ordinal, s.db.feedLast + 1, 0);
    forall u | 0 <= u < |s.txs| && u != t ensures Compatible(s.txs[t].(phase := phase), s.txs[u]) {
      NotBlockedMeans(s, t, u);
      assert Compatible(s.txs[t], s.txs[u]);
    }
    ExclusiveAfter(s, t, phase);
    assert TxOk(s, s.txs[t]);
  }

  lemma BindOneKeeps(s: Sys, t: nat, base: nat, bases: map<string, nat>)
    requires Inv(s, base, bases) && Enabled(s, BindOne(t))
    ensures Inv(Do(s, BindOne(t)), base, bases)
  {
    hide DbInv, Blocked;
    var tx := s.txs[t];
    var k := tx.phase.bound;
    assert TxOk(s, tx);
    assert tx.req.media[..k + 1] == tx.req.media[..k] + [tx.req.media[k]];
    forall u | 0 <= u < |s.txs| && u != t ensures Compatible(tx.(phase := tx.phase.(bound := k + 1)), s.txs[u]) {
      assert Compatible(tx, s.txs[u]);
    }
    ExclusiveAfter(s, t, tx.phase.(bound := k + 1));
  }

  lemma LogKeeps(s: Sys, t: nat, base: nat, bases: map<string, nat>)
    requires Inv(s, base, bases) && Enabled(s, Log(t))
    ensures Inv(Do(s, Log(t)), base, bases)
  {
    hide DbInv;
    var tx := s.txs[t];
    var phase := Logged(tx.phase.ordinal, tx.phase.feed, s.nextEvent);
    assert TxOk(s, tx);
    assert tx.req.media[..|tx.req.media|] == tx.req.media;
    forall u | 0 <= u < |s.txs| && u != t ensures Compatible(tx.(phase := phase), s.txs[u]) {
      assert Compatible(tx, s.txs[u]);
    }
    ExclusiveAfter(s, t, phase);
  }

  lemma OthersKeep(s: Sys, step: Step, base: nat, bases: map<string, nat>)
    requires Inv(s, base, bases) && Enabled(s, step) && (step.Begin? || step.Abort?)
    ensures Inv(Do(s, step), base, bases)
  {
    hide DbInv;
  }

  /** The locks make the commit the same as the whole send run alone on the committed rows. */
  lemma CommitIsSerial(s: Sys, t: nat)
    requires TxsOk(s) && Enabled(s, Commit(t))
    ensures Sent(s.db, s.txs[t].req, s.txs[t].phase.event) == Some(Written(s.db, s.txs[t]))
  {
    var tx := s.txs[t];
    assert TxOk(s, tx);
    var msg := Live(tx.req.channel, tx.phase.feed);
    hide Bind;
    BindIff(s.db.media, tx.req, msg, tx.req.media);
    assert Bind(s.db.media, tx.req, msg, tx.req.media).value == Written(s.db, tx).media;
  }

  lemma CommitKeeps(s: Sys, t: nat, base: nat, bases: map<string, nat>)
    requires Inv(s, base, bases) && Enabled(s, Commit(t))
    ensures Inv(Do(s, Commit(t)), base, bases)
  {
    hide DbInv, NewEvent, AllBindable;
    var s' := Do(s, Commit(t));
    CommitIsSerial(s, t);
    var tx := s.txs[t];
    assert TxOk(s, tx);
    SentKeeps(s.db, tx.req, tx.phase.event, base, bases);
    LaterEvent(s'.db, tx.phase.event + 1, s.nextEvent);
    hide Sent, Written;
    forall u | 0 <= u < |s'.txs| && u != t ensures TxOk(s', s'.txs[u]) {
      assert TxOk(s, s.txs[u]) && Compatible(tx, s.txs[u]);
      CommitLeavesChannel(s.db, tx, s.txs[u].req.channel);
    }
    ExclusiveAfter(s, t, Over);
  }

  lemma LaterEvent(db: Db, e: nat, f: nat)
    requires NewEvent(db, e) && e <= f
    ensures NewEvent(db, f)
  {
  }

  lemma CommitLeavesChannel(db: Db, tx: Tx, c: string)
    requires tx.phase.Logged?
    ensures c != tx.req.channel && c in db.channelLast ==> c in Written(db, tx).channelLast && Written(db, tx).channelLast[c] == db.channelLast[c]
  {
  }

  function WithDraft(db: Db, id: string, media: Media): Db {
    db.(media := db.media[id := media])
  }

  lemma DraftKeepsDb(db: Db, id: string, media: Media, base: nat, bases: map<string, nat>)
    requires DbInv(db, base, bases) && id !in db.media && media.parent == None
    ensures DbInv(WithDraft(db, id, media), base, bases)
  {
    hide CountIn;
    var db' := WithDraft(db, id, media);
    forall m | m in db'.media && db'.media[m].parent.Some? && db'.media[m].parent.value.feedOrdinal > base ensures Listed(db', m) {
      assert Listed(db, m);
    }
  }

  lemma DraftKeeps(s: Sys, step: Step, base: nat, bases: map<string, nat>)
    requires Inv(s, base, bases) && Enabled(s, step) && step.AddDraft?
    ensures Inv(Do(s, step), base, bases)
  {
    var s' := Do(s, step);
    DraftKeepsDb(s.db, step.id, Media(step.channel, step.owner, None, step.expires), base, bases);
    hide DbInv;
    forall u | 0 <= u < |s'.txs| ensures TxOk(s', s'.txs[u]) {
      assert TxOk(s, s.txs[u]);
    }
  }

  /** Every step of every interleaving keeps the ordinals dense, in commit order and in event order. */
  lemma StepKeeps(s: Sys, step: Step, base: nat, bases: map<string, nat>)
    requires Inv(s, base, bases) && Enabled(s, step)
    ensures Inv(Do(s, step), base, bases)
  {
    hide Inv, Enabled, Do;
    match step {
      case TakeChannel(t) => TakeChannelKeeps(s, t, base, bases);
      case TakeFeed(t) => TakeFeedKeeps(s, t, base, bases);
      case BindOne(t) => BindOneKeeps(s, t, base, bases);
      case Log(t) => LogKeeps(s, t, base, bases);
      case Commit(t) => CommitKeeps(s, t, base, bases);
      case AddDraft(_, _, _, _) => DraftKeeps(s, step, base, bases);
      case Begin(_) => OthersKeep(s, step, base, bases);
      case Abort(_) => OthersKeep(s, step, base, bases);
    }
  }

  // ---------------------------------------------------------------- whole runs

  predicate Runs(s: Sys, steps: seq<Step>)
    decreases |steps|
  {
    steps == [] || (Enabled(s, steps[0]) && Runs(Do(s, steps[0]), steps[1..]))
  }

  function After(s: Sys, steps: seq<Step>): Sys
    requires Runs(s, steps)
    decreases |steps|
  {
    if steps == [] then s else After(Do(s, steps[0]), steps[1..])
  }

  lemma {:induction false} RunKeeps(s: Sys, steps: seq<Step>, base: nat, bases: map<string, nat>)
    requires Inv(s, base, bases) && Runs(s, steps)
    ensures Inv(After(s, steps), base, bases)
    decreases |steps|
  {
    hide Inv, Enabled, Do;
    if steps != [] {
      StepKeeps(s, steps[0], base, bases);
      RunKeeps(Do(s, steps[0]), steps[1..], base, bases);
    }
  }

  /** The counters of a database that has no live message yet. */
  ghost predicate Seeded(db: Db, base: nat, bases: map<string, nat>) {
    db.rows == [] && db.feedLast == base && db.channelLast == bases
    && forall id :: id in db.media && db.media[id].parent.Some? ==> db.media[id].parent.value.feedOrdinal <= base
  }

  /** From a seeded database on, in every interleaving with aborts anywhere: feed ordinals are the
      interval above the seed up to the counter, channel ordinals likewise, event ids, ordinals and
      commits have the same order, and every bound draft belongs to exactly the message listing it. */
  lemma EveryRunIsDense(db: Db, nextEvent: nat, steps: seq<Step>)
    requires Seeded(db, db.feedLast, db.channelLast) && Runs(Sys(db, nextEvent, [], []), steps)
    ensures DbInv(After(Sys(db, nextEvent, [], []), steps).db, db.feedLast, db.channelLast)
  {
    var s := Sys(db, nextEvent, [], []);
    assert Inv(s, db.feedLast, db.channelLast);
    hide Runs, After;
    RunKeeps(s, steps, db.feedLast, db.channelLast);
  }

  // ---------------------------------------------------------------- serial in commit order

  /** The committed changes applied one at a time, each send run alone. */
  function Serial(db: Db, history: seq<Change>): (r: Option<Db>) {
    if history == [] then Some(db)
    else
      var before := Serial(db, history[..|history| - 1]);
      if before.None? then None
      else match history[|history| - 1]
        case Message(req, event) => Sent(before.value, req, event)
        case Draft(id, media) => Some(WithDraft(before.value, id, media))
  }

  lemma SerialMore(db0: Db, history: seq<Change>, change: Change)
    requires Serial(db0, history).Some?
    ensures Serial(db0, history + [change])
            == match change
               case Message(req, event) => Sent(Serial(db0, history).value, req, event)
               case Draft(id, media) => Some(WithDraft(Serial(db0, history).value, id, media))
  {
    hide Sent;
    assert (history + [change])[..|history|] == history;
  }

  lemma StepIsSerial(db0: Db, s: Sys, step: Step, base: nat, bases: map<string, nat>)
    requires Inv(s, base, bases) && Serial(db0, s.history) == Some(s.db) && Enabled(s, step)
    ensures Serial(db0, Do(s, step).history) == Some(Do(s, step).db)
  {
    hide Sent, DbInv, Exclusive, TxsOk, NewEvent, Serial, Written, Blocked, Bindable;
    if step.Commit? {
      CommitIsSerial(s, step.t);
      SerialMore(db0, s.history, Message(s.txs[step.t].req, s.txs[step.t].phase.event));
    } else if step.AddDraft? {
      SerialMore(db0, s.history, Draft(step.id, Media(step.channel, step.owner, None, step.expires)));
    }
  }

  /** Every interleaving leaves the rows that its committed sends leave when run one after another
      in commit order. */
  lemma {:induction false} RunIsSerial(db0: Db, s: Sys, steps: seq<Step>, base: nat, bases: map<string, nat>)
    requires Inv(s, base, bases) && Serial(db0, s.history) == Some(s.db) && Runs(s, steps)
    ensures Serial(db0, After(s, steps).history) == Some(After(s, steps).db)
    decreases |steps|
  {
    hide Inv, Enabled, Do, Serial;
    if steps != [] {
      StepIsSerial(db0, s, steps[0], base, bases);
      StepKeeps(s, steps[0], base, bases);
      RunIsSerial(db0, Do(s, steps[0]), steps[1..], base, bases);
    }
  }

  // ---------------------------------------------------------------- no deadlock

  function Rank(tx: Tx): nat {
    match tx.phase
    case Started => 0
    case HasChannel(_) => 1
    case HasFeed(_, _, _) => 2
    case Logged(_, _, _) => 2
    case Over => 3
  }

  /** Locks are always taken in the same order, so who waits is behind whom it waits for. */
  lemma WaitsForLater(s: Sys, t: nat, u: nat)
    requires Exclusive(s) && t < |s.txs| && u < |s.txs| && Waits(s, t, u)
    ensures Rank(s.txs[t]) < Rank(s.txs[u]) <= 2
  {
    assert Compatible(s.txs[t], s.txs[u]);
  }

  /** From any waiting transaction a chain of waits leads to one that does not wait. */
  lemma {:induction false} SomeoneMoves(s: Sys, t: nat) returns (u: nat)
    requires Exclusive(s) && t < |s.txs| && !s.txs[t].phase.Over?
    ensures u < |s.txs| && !s.txs[u].phase.Over? && !Blocked(s, u)
    decreases 3 - Rank(s.txs[t])
  {
    u := t;
    if Blocked(s, t) {
      var holder :| 0 <= holder < |s.txs| && Waits(s, t, holder);
      WaitsForLater(s, t, holder);
      u := SomeoneMoves(s, holder);
    }
  }

  /** The one step that takes a transaction forward. */
  function Forward(tx: Tx, t: nat): Step {
    match tx.phase
    case Started => TakeChannel(t)
    case HasChannel(_) => TakeFeed(t)
    case HasFeed(_, _, k) => if k == |tx.req.media| then Log(t) else BindOne(t)
    case Logged(_, _, _) => Commit(t)
    case Over => Commit(t)
  }

  /** The send asks for a row that is not there: an unknown channel or an unavailable draft. */
  ghost predicate Refused(s: Sys, tx: Tx) {
    match tx.phase
    case Started => tx.req.channel !in s.db.channelLast
    case HasFeed(_, _, k) => k < |tx.req.media| && (tx.req.media[k] in tx.req.media[..k] || !Bindable(s.db.media, tx.req, tx.req.media[k]))
    case _ => false
  }

  /** There is no deadlock: while a transaction is open, some open transaction can take its next
      step, unless its own request is refused and it aborts. */
  lemma NoDeadlock(s: Sys, base: nat, bases: map<string, nat>, t: nat) returns (u: nat)
    requires Inv(s, base, bases) && t < |s.txs| && !s.txs[t].phase.Over?
    ensures u < |s.txs| && !s.txs[u].phase.Over?
    ensures Enabled(s, Forward(s.txs[u], u)) || (Refused(s, s.txs[u]) && Enabled(s, Abort(u)))
  {
    hide Blocked, Exclusive, DbInv;
    u := SomeoneMoves(s, t);
    assert TxOk(s, s.txs[u]);
  }

  /** Steps a transaction still has to take. */
  function Left(tx: Tx): nat {
    match tx.phase
    case Started => |tx.req.media| + 4
    case HasChannel(_) => |tx.req.media| + 3
    case HasFeed(_, _, k) => (if k <= |tx.req.media| then |tx.req.media| - k else 0) + 2
    case Logged(_, _, _) => 1
    case Over => 0
  }

  function LeftIn(txs: seq<Tx>): nat {
    if txs == [] then 0 else LeftIn(txs[..|txs| - 1]) + Left(txs[|txs| - 1])
  }

  lemma {:induction false} LeftUpdate(txs: seq<Tx>, t: nat, tx: Tx)
    requires t < |txs|
    ensures LeftIn(txs[t := tx]) == LeftIn(txs) - Left(txs[t]) + Left(tx)
  {
    var n := |txs| - 1;
    if t < n {
      LeftUpdate(txs[..n], t, tx);
      assert txs[t := tx][..n] == txs[..n][t := tx];
    } else {
      assert txs[t := tx][..n] == txs[..n];
    }
  }

  /** Each step of an open transaction uses up part of a bound fixed when it began. */
  lemma StepsAreBounded(s: Sys, step: Step)
    requires Enabled(s, step)
    ensures if step.Begin? then LeftIn(Do(s, step).txs) == LeftIn(s.txs) + |step.req.media| + 4
            else if step.AddDraft? then LeftIn(Do(s, step).txs) == LeftIn(s.txs)
            else LeftIn(Do(s, step).txs) < LeftIn(s.txs)
  {
    match step {
      case Begin(req) => assert Do(s, step).txs[..|s.txs|] == s.txs;
      case AddDraft(_, _, _, _) =>
      case TakeChannel(t) => LeftUpdate(s.txs, t, Do(s, step).txs[t]);
      case TakeFeed(t) => LeftUpdate(s.txs, t, Do(s, step).txs[t]);
      case BindOne(t) => LeftUpdate(s.txs, t, Do(s, step).txs[t]);
      case Log(t) => LeftUpdate(s.txs, t, Do(s, step).txs[t]);
      case Commit(t) => LeftUpdate(s.txs, t, Do(s, step).txs[t]);
      case Abort(t) => LeftUpdate(s.txs, t, Do(s, step).txs[t]);
    }
  }
}
