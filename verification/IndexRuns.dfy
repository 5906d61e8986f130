/** Whole runs of the indexing worker: live runs over the outbox with failures, crashes and overtaking,
    and seed builds stopped and restarted at any point. */
module IndexRuns {
  import opened Options
  import opened Chunks
  import opened IndexStore
  import opened IndexWorker
  import opened ChunkTable

  // ---------------------------------------------------------------- live runs

  datatype Act = Enqueue(message: IndexMessage) | Work(eligible: set<nat>, fault: Fault)

  ghost predicate Enabled(t: Tables, a: Act) {
    match a
    case Enqueue(m) => forall row :: row in t.outbox ==> row.message.id != m.id
    case Work(eligible, _) => NextEvent(t.outbox, eligible).Some?
  }

  function Act1(env: Env, t: Tables, a: Act): Tables {
    match a
    case Enqueue(m) => t.(outbox := t.outbox + [OutboxRow(m, Pending, 0)])
    case Work(eligible, fault) =>
      var k := NextEvent(t.outbox, eligible);
      if k.None? then t else Worked(env, t, k.value, fault).0
  }

  ghost predicate DoneId(outbox: seq<OutboxRow>, x: string) {
    exists k :: 0 <= k < |outbox| && outbox[k].message.id == x && outbox[k].status == Done
  }

  ghost predicate OutboxOk(outbox: seq<OutboxRow>) {
    && (forall i, j :: 0 <= i < j < |outbox| ==> outbox[i].message.id != outbox[j].message.id)
    && (forall i, j :: 0 <= i < j < |outbox| ==> !(outbox[i].status == Processing && outbox[j].status == Processing))
    && (forall i :: 0 <= i < |outbox| && outbox[i].status == Pending ==> outbox[i].attempts < MAX_ATTEMPTS)
    && (forall i :: 0 <= i < |outbox| && outbox[i].status == Processing ==> 1 <= outbox[i].attempts <= MAX_ATTEMPTS)
  }

  /** At most one event is processing; ids in the chunk table belong to finished events, each once;
      every channel's rows are contiguous with one open tail; embeddings are the closed rows'. */
  ghost predicate LiveInv(t: Tables) {
    TableOk(t) && OutboxOk(t.outbox) && forall x :: Bag(t.chunks)[x] > 0 ==> DoneId(t.outbox, x)
  }

  /** An outbox row change that keeps the message and does not undo completion. */
  ghost predicate RowChange(outbox: seq<OutboxRow>, k: nat, row: OutboxRow) {
    k < |outbox| && row.message == outbox[k].message && outbox[k].status != Done
  }

  lemma RowChangeKeepsDone(outbox: seq<OutboxRow>, k: nat, row: OutboxRow)
    requires RowChange(outbox, k, row)
    ensures forall x :: DoneId(outbox, x) ==> DoneId(outbox[k := row], x)
  {
    forall x | DoneId(outbox, x) ensures DoneId(outbox[k := row], x) {
      var i :| 0 <= i < |outbox| && outbox[i].message.id == x && outbox[i].status == Done;
      assert outbox[k := row][i] == outbox[i];
    }
  }

  /** Claiming leaves the claimed event as the only processing one. */
  lemma ClaimKeeps(outbox: seq<OutboxRow>, eligible: set<nat>, k: nat)
    requires OutboxOk(outbox) && NextEvent(outbox, eligible) == Some(k)
    ensures var c := Claimed(outbox, k);
            && OutboxOk(c) && |c| == |outbox| && c == outbox[k := c[k]]
            && RowChange(outbox, k, c[k]) && c[k].status == Processing
            && forall i :: 0 <= i < |c| && i != k ==> c[i].status != Processing
  {
  }

  lemma ResolveKeeps(outbox: seq<OutboxRow>, k: nat, row: OutboxRow)
    requires OutboxOk(outbox) && k < |outbox| && row.message == outbox[k].message
    requires forall i :: 0 <= i < |outbox| && i != k ==> outbox[i].status != Processing
    requires row.status == Pending ==> row.attempts < MAX_ATTEMPTS
    requires row.status == Processing ==> 1 <= row.attempts <= MAX_ATTEMPTS
    ensures OutboxOk(outbox[k := row])
  {
  }

  lemma FreshMessage(t: Tables, k: nat)
    requires LiveInv(t) && k < |t.outbox| && t.outbox[k].status != Done
    ensures Bag(t.chunks)[t.outbox[k].message.id] == 0
  {
  }

  /** The tables right after the claim. */
  function AfterClaim(t: Tables, k: nat): Tables
    requires k < |t.outbox|
  {
    t.(outbox := Claimed(t.outbox, k))
  }

  lemma ClaimedInv(t: Tables, eligible: set<nat>, k: nat)
    requires LiveInv(t) && NextEvent(t.outbox, eligible) == Some(k)
    ensures k < |t.outbox| && LiveInv(AfterClaim(t, k)) && Bag(t.chunks)[t.outbox[k].message.id] == 0
  {
    hide Bag, View, Embedded, RowOk;
    ClaimKeeps(t.outbox, eligible, k);
    RowChangeKeepsDone(t.outbox, k, Claimed(t.outbox, k)[k]);
    FreshMessage(t, k);
  }

  lemma WorkKeeps(env: Env, t: Tables, eligible: set<nat>, k: nat, fault: Fault)
    requires LiveInv(t) && NextEvent(t.outbox, eligible) == Some(k)
    ensures k < |t.outbox| && LiveInv(Worked(env, t, k, fault).0) && Frozen(t.chunks, Worked(env, t, k, fault).0.chunks)
  {
    hide Bag, View, Embedded, RowOk, Processed, Place, Overtaken, Shape;
    ClaimedInv(t, eligible, k);
    var c, m := AfterClaim(t, k), t.outbox[k].message;
    ClaimKeeps(t.outbox, eligible, k);
    ProcessedEffect(env, c, m, Some(k), fault);
    var (t', outcome) := Processed(env, c, m, Some(k), fault);
    assert Worked(env, t, k, fault) == (t', outcome);
    match outcome {
      case Stopped =>
      case Retried =>
        var row := Rescheduled(c.outbox, k)[k];
        RowChangeKeepsDone(c.outbox, k, row);
        ResolveKeeps(c.outbox, k, row);
      case Committed =>
        CommitKeeps(c, t', k);
    }
  }

  lemma CommitKeeps(c: Tables, t': Tables, k: nat)
    requires LiveInv(c) && k < |c.outbox| && c.outbox[k].status == Processing
    requires t'.outbox == Completed(c.outbox, Some(k)) && TableOk(t')
    requires Bag(t'.chunks) == Bag(c.chunks) + multiset{c.outbox[k].message.id} || t'.chunks == c.chunks
    ensures LiveInv(t')
  {
    hide TableOk, Bag;
    var row := c.outbox[k].(status := Done);
    RowChangeKeepsDone(c.outbox, k, row);
    ResolveKeeps(c.outbox, k, row);
    assert t'.outbox[k] == row;
    assert DoneId(t'.outbox, row.message.id);
  }

  lemma SameTable(t: Tables, outbox: seq<OutboxRow>)
    requires TableOk(t)
    ensures TableOk(t.(outbox := outbox))
  {
  }

  lemma EnqueueKeeps(t: Tables, m: IndexMessage)
    requires LiveInv(t) && Enabled(t, Enqueue(m))
    ensures LiveInv(t.(outbox := t.outbox + [OutboxRow(m, Pending, 0)]))
  {
    hide Bag, TableOk;
    var outbox' := t.outbox + [OutboxRow(m, Pending, 0)];
    SameTable(t, outbox');
    assert forall i :: 0 <= i < |t.outbox| ==> t.outbox[i] in t.outbox && outbox'[i] == t.outbox[i];
    DoneGrows(t.outbox, OutboxRow(m, Pending, 0));
  }

  lemma DoneGrows(outbox: seq<OutboxRow>, row: OutboxRow)
    ensures forall x :: DoneId(outbox, x) ==> DoneId(outbox + [row], x)
  {
    forall x | DoneId(outbox, x) ensures DoneId(outbox + [row], x) {
      var i :| 0 <= i < |outbox| && outbox[i].message.id == x && outbox[i].status == Done;
      assert (outbox + [row])[i] == outbox[i];
    }
  }

  ghost predicate Legal(env: Env, t: Tables, acts: seq<Act>)
    decreases |acts|
  {
    acts == [] || (Enabled(t, acts[0]) && Legal(env, Act1(env, t, acts[0]), acts[1..]))
  }

  function Final(env: Env, t: Tables, acts: seq<Act>): Tables
    decreases |acts|
  {
    if acts == [] then t else Final(env, Act1(env, t, acts[0]), acts[1..])
  }

  lemma FrozenTrans(a: seq<Chunk>, b: seq<Chunk>, c: seq<Chunk>)
    requires Frozen(a, b) && Frozen(b, c)
    ensures Frozen(a, c)
  {
    assert forall i :: 0 <= i < |a| && !a[i].open ==> b[i] == a[i] && !b[i].open && c[i] == b[i];
  }

  /** Every live run, whatever fails, retries, overtakes or crashes, keeps the invariant and never
      changes a closed chunk. */
  lemma {:induction false} LiveRun(env: Env, t: Tables, acts: seq<Act>)
    requires LiveInv(t) && Legal(env, t, acts)
    ensures LiveInv(Final(env, t, acts)) && Frozen(t.chunks, Final(env, t, acts).chunks)
    decreases |acts|
  {
    hide LiveInv, Worked;
    if acts != [] {
      var t1 := Act1(env, t, acts[0]);
      match acts[0] {
        case Enqueue(m) => EnqueueKeeps(t, m);
        case Work(eligible, fault) => WorkKeeps(env, t, eligible, NextEvent(t.outbox, eligible).value, fault);
      }
      LiveRun(env, t1, acts[1..]);
      FrozenTrans(t.chunks, t1.chunks, Final(env, t1, acts[1..]).chunks);
    }
  }

  /** The invariant read at the level of rows: a message id has one place in the whole table. */
  lemma OnePlacePerMessage(t: Tables, i: nat, p: nat, j: nat, q: nat)
    requires LiveInv(t) && i < |t.chunks| && j < |t.chunks|
    requires p < |t.chunks[i].messageIds| && q < |t.chunks[j].messageIds|
    requires t.chunks[i].messageIds[p] == t.chunks[j].messageIds[q]
    ensures i == j && p == q && DoneId(t.outbox, t.chunks[i].messageIds[p])
  {
    var x, ids := t.chunks[i].messageIds[p], t.chunks[i].messageIds;
    assert Bag(t.chunks)[x] <= 1;
    if i < j {
      BagTwice(t.chunks, i, j, x);
    } else if j < i {
      BagTwice(t.chunks, j, i, x);
    } else if p != q {
      RowTwice(t.chunks, i, p, q);
    }
    assert t.chunks[i] in t.chunks;
    BagMembers(t.chunks, x);
  }

  lemma {:induction false} RowTwice(chunks: seq<Chunk>, i: nat, p: nat, q: nat)
    requires i < |chunks| && p < |chunks[i].messageIds| && q < |chunks[i].messageIds| && p != q
    requires chunks[i].messageIds[p] == chunks[i].messageIds[q]
    ensures Bag(chunks)[chunks[i].messageIds[p]] >= 2
    decreases |chunks|
  {
    var init, last := chunks[..|chunks| - 1], chunks[|chunks| - 1];
    if i < |init| {
      RowTwice(init, i, p, q);
    } else {
      SeqTwice(last.messageIds, if p < q then p else q, if p < q then q else p);
    }
  }

  lemma SeqTwice(s: seq<string>, p: nat, q: nat)
    requires p < q < |s| && s[p] == s[q]
    ensures multiset(s)[s[p]] >= 2
  {
    assert s == s[..q] + s[q..];
    assert s[..q][p] in multiset(s[..q]);
    assert s[q..][0] in multiset(s[q..]);
  }

  // ---------------------------------------------------------------- failing events

  /** Calls that each claim event k and have a model call fail. */
  ghost predicate AllRetried(env: Env, t: Tables, k: nat, faults: seq<Fault>)
    decreases |faults|
  {
    faults == []
    || (k < |t.outbox| && Worked(env, t, k, faults[0]).1.Retried? && AllRetried(env, Worked(env, t, k, faults[0]).0, k, faults[1..]))
  }

  function Attempts(k: nat, faults: seq<Fault>): (acts: seq<Act>)
    ensures |acts| == |faults| && forall i :: 0 <= i < |acts| ==> acts[i] == Work({k}, faults[i])
  {
    seq(|faults|, i requires 0 <= i < |faults| => Work({k}, faults[i]))
  }

  lemma RetriedOnce(env: Env, t: Tables, k: nat, fault: Fault)
    requires k < |t.outbox| && t.outbox[k].status == Pending && Worked(env, t, k, fault).1.Retried?
    ensures var row := t.outbox[k];
            var attempts := row.attempts + 1;
            Worked(env, t, k, fault).0 == t.(outbox := t.outbox[k := OutboxRow(row.message, if attempts >= MAX_ATTEMPTS then DeadLetter else Pending, attempts)])
  {
    hide Append, Fits, AppendCommitted, CloseCommitted;
  }

  /** A failing event is put back with its attempt counted until the fifth failure, which makes it a dead
      letter; nothing else changes. */
  lemma {:induction false} FailuresBury(env: Env, t: Tables, k: nat, faults: seq<Fault>)
    requires k < |t.outbox| && t.outbox[k].status == Pending && t.outbox[k].attempts + |faults| <= MAX_ATTEMPTS
    requires t.outbox[k].attempts < MAX_ATTEMPTS && (forall i :: 0 <= i < |t.outbox| ==> t.outbox[i].status != Processing)
    requires AllRetried(env, t, k, faults)
    ensures Legal(env, t, Attempts(k, faults))
    ensures var row := t.outbox[k];
            var attempts := row.attempts + |faults|;
            Final(env, t, Attempts(k, faults))
            == t.(outbox := t.outbox[k := OutboxRow(row.message, if attempts == MAX_ATTEMPTS then DeadLetter else Pending, attempts)])
    decreases |faults|
  {
    hide Worked;
    if faults == [] {
      assert t.outbox[k := t.outbox[k]] == t.outbox;
    } else {
      RetriedOnce(env, t, k, faults[0]);
      assert NextEvent(t.outbox, {k}) == Some(k);
      var t1 := Worked(env, t, k, faults[0]).0;
      var acts := Attempts(k, faults);
      assert acts[0] == Work({k}, faults[0]) && acts[1..] == Attempts(k, faults[1..]);
      if |faults| > 1 {
        FailuresBury(env, t1, k, faults[1..]);
      } else {
        assert acts[1..] == [];
      }
    }
  }

  // ---------------------------------------------------------------- lost appends

  /** A committed message enters the chunk table exactly when it was not overtaken: the guard drops an
      append whose channel already holds a later ordinal in a tail with room. */
  lemma IndexedIffNotOvertaken(env: Env, t: Tables, eligible: set<nat>, k: nat)
    requires LiveInv(t) && NextEvent(t.outbox, eligible) == Some(k)
    ensures k < |t.outbox|
    ensures var m := t.outbox[k].message;
            var (t', outcome) := Worked(env, t, k, NoFault);
            && outcome == Committed && t'.outbox[k].status == Done
            && (Bag(t'.chunks)[m.id] == 1 <==> !Overtaken(env, t, m))
  {
    hide Bag, View, Embedded, RowOk, Processed, Place, Overtaken, Shape;
    ClaimedInv(t, eligible, k);
    var c, m := AfterClaim(t, k), t.outbox[k].message;
    ProcessedEffect(env, c, m, Some(k), NoFault);
    assert Overtaken(env, c, m) == Overtaken(env, t, m) by { SameOvertaken(env, c, t, m); }
  }

  lemma SameOvertaken(env: Env, c: Tables, t: Tables, m: IndexMessage)
    requires c.chunks == t.chunks
    ensures Overtaken(env, c, m) == Overtaken(env, t, m)
  {
  }

  // ---------------------------------------------------------------- refinement without overtaking

  predicate Live(row: OutboxRow) {
    row.status == Pending || row.status == Processing
  }

  /** The finished messages of a channel, in event order. */
  function DoneMessages(outbox: seq<OutboxRow>, channel: string): seq<IndexMessage> {
    if outbox == [] then []
    else
      var rest, last := DoneMessages(outbox[..|outbox| - 1], channel), outbox[|outbox| - 1];
      if last.status == Done && last.message.channel == channel then rest + [last.message] else rest
  }

  ghost predicate Ordered(outbox: seq<OutboxRow>) {
    && (forall i, j :: 0 <= i < j < |outbox| ==> outbox[i].message.ordinal < outbox[j].message.ordinal)
    && (forall i, j :: 0 <= i < j < |outbox| && outbox[i].message.channel == outbox[j].message.channel && Live(outbox[i])
          ==> outbox[j].status == Pending)
  }

  /** The worker does not start an event while an earlier one of its channel is still live. */
  ghost predicate InOrder(t: Tables, a: Act) {
    match a
    case Enqueue(m) => forall row :: row in t.outbox ==> row.message.ordinal < m.ordinal
    case Work(eligible, _) =>
      var k := NextEvent(t.outbox, eligible);
      k.Some? ==> forall i :: 0 <= i < k.value && t.outbox[i].message.channel == t.outbox[k.value].message.channel
                              ==> !Live(t.outbox[i])
  }

  ghost predicate Refines(env: Env, t: Tables) {
    && LiveInv(t) && Ordered(t.outbox)
    && forall channel :: View(t.chunks, channel) == Fold(env, DoneMessages(t.outbox, channel))
  }

  lemma {:induction false} DoneUpdateOther(outbox: seq<OutboxRow>, k: nat, row: OutboxRow, channel: string)
    requires k < |outbox| && row.message == outbox[k].message
    requires row.message.channel == channel ==> row.status != Done && outbox[k].status != Done
    ensures DoneMessages(outbox[k := row], channel) == DoneMessages(outbox, channel)
    decreases |outbox|
  {
    var init := outbox[..|outbox| - 1];
    if k < |init| {
      DoneUpdateOther(init, k, row, channel);
      assert outbox[k := row][..|outbox| - 1] == init[k := row];
    } else {
      assert outbox[k := row][..|outbox| - 1] == init;
    }
  }

  lemma {:induction false} DoneUpdate(outbox: seq<OutboxRow>, k: nat, row: OutboxRow, channel: string)
    requires k < |outbox| && row.message == outbox[k].message && row.message.channel == channel
    requires row.status == Done && outbox[k].status != Done
    requires forall j :: k < j < |outbox| && outbox[j].message.channel == channel ==> outbox[j].status != Done
    ensures DoneMessages(outbox[k := row], channel) == DoneMessages(outbox, channel) + [row.message]
    decreases |outbox|
  {
    var init := outbox[..|outbox| - 1];
    if k < |init| {
      DoneUpdate(init, k, row, channel);
      assert outbox[k := row][..|outbox| - 1] == init[k := row];
    } else {
      assert outbox[k := row][..|outbox| - 1] == init;
    }
  }

  lemma {:induction false} DoneMessagesAre(outbox: seq<OutboxRow>, channel: string)
    ensures forall m :: m in DoneMessages(outbox, channel) ==>
              exists i :: 0 <= i < |outbox| && outbox[i].message == m && outbox[i].status == Done && m.channel == channel
  {
    if outbox != [] {
      var init := outbox[..|outbox| - 1];
      DoneMessagesAre(init, channel);
      forall m | m in DoneMessages(outbox, channel)
        ensures exists i :: 0 <= i < |outbox| && outbox[i].message == m && outbox[i].status == Done && m.channel == channel
      {
        if m in DoneMessages(init, channel) {
          var i :| 0 <= i < |init| && init[i].message == m && init[i].status == Done && m.channel == channel;
          assert outbox[i] == init[i];
        } else {
          assert outbox[|outbox| - 1].message == m;
        }
      }
    }
  }

  /** The tail of a fold carries the last message's ordinal; every row carries some message's. */
  lemma {:induction false} FoldOrdinals(env: Env, ms: seq<IndexMessage>)
    ensures ms != [] ==> Fold(env, ms) != [] && Fold(env, ms)[|Fold(env, ms)| - 1].lastOrdinal == ms[|ms| - 1].ordinal
    ensures ms == [] ==> Fold(env, ms) == []
    ensures forall c :: c in Fold(env, ms) ==> exists i :: 0 <= i < |ms| && c.lastOrdinal == ms[i].ordinal
  {
    hide Append, Fits;
    if ms != [] {
      var init, m := ms[..|ms| - 1], ms[|ms| - 1];
      FoldOrdinals(env, init);
      PlaceOrdinals(env, Fold(env, init), m);
      forall c | c in Fold(env, ms) ensures exists i :: 0 <= i < |ms| && c.lastOrdinal == ms[i].ordinal {
        if c.lastOrdinal != m.ordinal {
          var i :| 0 <= i < |init| && c.lastOrdinal == init[i].ordinal;
          assert ms[i] == init[i];
        } else {
          assert c.lastOrdinal == ms[|ms| - 1].ordinal;
        }
      }
    }
  }

  lemma PlaceOrdinals(env: Env, cs: seq<Chunk>, m: IndexMessage)
    ensures var p := Place(env, cs, m);
            && p != [] && p[|p| - 1].lastOrdinal == m.ordinal
            && forall c :: c in p ==> c.lastOrdinal == m.ordinal || exists o :: o in cs && o.lastOrdinal == c.lastOrdinal
  {
    hide Append, Fits;
    var p := Place(env, cs, m);
    if cs != [] {
      var last := |cs| - 1;
      forall c | c in p && c.lastOrdinal != m.ordinal ensures exists o :: o in cs && o.lastOrdinal == c.lastOrdinal {
        var i :| 0 <= i < |p| && p[i] == c;
        assert cs[if i < last then i else last].lastOrdinal == c.lastOrdinal;
      }
    }
  }

  lemma NotOvertakenAfter(env: Env, t: Tables, m: IndexMessage, ms: seq<IndexMessage>)
    requires TableOk(t) && View(t.chunks, m.channel) == Fold(env, ms)
    requires forall x :: x in ms ==> x.ordinal < m.ordinal
    ensures !Overtaken(env, t, m)
  {
    hide TableOk, View, Append, Fits;
    OpenIsLast(t, m.channel);
    FoldOrdinals(env, ms);
  }

  lemma ClaimRefines(env: Env, t: Tables, eligible: set<nat>, k: nat, fault: Fault)
    requires Refines(env, t) && NextEvent(t.outbox, eligible) == Some(k) && InOrder(t, Work(eligible, fault))
    ensures k < |t.outbox| && Refines(env, AfterClaim(t, k))
    ensures forall j :: k < j < |t.outbox| && t.outbox[j].message.channel == t.outbox[k].message.channel
                        ==> AfterClaim(t, k).outbox[j].status == Pending
  {
    hide LiveInv, View, Fold, DoneMessages;
    ClaimedInv(t, eligible, k);
    assert OutboxOk(t.outbox) by { LiveParts(t); }
    ClaimKeeps(t.outbox, eligible, k);
    var c := AfterClaim(t, k);
    forall channel ensures View(c.chunks, channel) == Fold(env, DoneMessages(c.outbox, channel)) {
      DoneUpdateOther(t.outbox, k, c.outbox[k], channel);
    }
  }

  lemma LiveParts(t: Tables)
    requires LiveInv(t)
    ensures TableOk(t) && OutboxOk(t.outbox)
  {
  }

  lemma WorkRefines(env: Env, t: Tables, eligible: set<nat>, k: nat, fault: Fault)
    requires Refines(env, t) && NextEvent(t.outbox, eligible) == Some(k) && InOrder(t, Work(eligible, fault))
    ensures k < |t.outbox| && Refines(env, Worked(env, t, k, fault).0)
  {
    hide LiveInv, View, Fold, DoneMessages, Processed, Place, Overtaken, InOrder, TableOk, OutboxOk;
    ClaimRefines(env, t, eligible, k, fault);
    ClaimedInv(t, eligible, k);
    WorkKeeps(env, t, eligible, k, fault);
    LiveParts(t);
    ClaimKeeps(t.outbox, eligible, k);
    var c, m := AfterClaim(t, k), t.outbox[k].message;
    LiveParts(c);
    ProcessedEffect(env, c, m, Some(k), fault);
    var (t', outcome) := Processed(env, c, m, Some(k), fault);
    assert Worked(env, t, k, fault) == (t', outcome);
    match outcome {
      case Stopped =>
      case Retried => RetryRefines(env, c, k);
      case Committed =>
        DoneBefore(env, c, k);
        CommitRefines(env, c, t', k);
    }
  }

  lemma RetryRefines(env: Env, c: Tables, k: nat)
    requires k < |c.outbox| && Ordered(c.outbox) && c.outbox[k].status == Processing
    requires forall channel :: View(c.chunks, channel) == Fold(env, DoneMessages(c.outbox, channel))
    ensures Ordered(Rescheduled(c.outbox, k))
    ensures forall channel :: View(c.chunks, channel) == Fold(env, DoneMessages(Rescheduled(c.outbox, k), channel))
  {
    hide View, Fold, DoneMessages;
    var outbox' := Rescheduled(c.outbox, k);
    forall channel ensures View(c.chunks, channel) == Fold(env, DoneMessages(outbox', channel)) {
      DoneUpdateOther(c.outbox, k, outbox'[k], channel);
    }
  }

  /** Everything a channel finished before its processing event has a smaller ordinal. */
  lemma DoneBefore(env: Env, c: Tables, k: nat)
    requires k < |c.outbox| && Ordered(c.outbox) && c.outbox[k].status == Processing && TableOk(c)
    requires var m := c.outbox[k].message; View(c.chunks, m.channel) == Fold(env, DoneMessages(c.outbox, m.channel))
    ensures !Overtaken(env, c, c.outbox[k].message)
  {
    hide View, Fold, DoneMessages, Overtaken, TableOk;
    var m := c.outbox[k].message;
    var ms := DoneMessages(c.outbox, m.channel);
    DoneMessagesAre(c.outbox, m.channel);
    forall x | x in ms ensures x.ordinal < m.ordinal {
      var i :| 0 <= i < |c.outbox| && c.outbox[i].message == x && c.outbox[i].status == Done && x.channel == m.channel;
      assert i < k || k < i;
    }
    NotOvertakenAfter(env, c, m, ms);
  }

  lemma CommitRefines(env: Env, c: Tables, t': Tables, k: nat)
    requires k < |c.outbox| && Ordered(c.outbox) && c.outbox[k].status == Processing
    requires forall channel :: View(c.chunks, channel) == Fold(env, DoneMessages(c.outbox, channel))
    requires t'.outbox == Completed(c.outbox, Some(k))
    requires var m := c.outbox[k].message;
             && View(t'.chunks, m.channel) == Place(env, View(c.chunks, m.channel), m)
             && forall channel :: channel != m.channel ==> View(t'.chunks, channel) == View(c.chunks, channel)
    ensures Ordered(t'.outbox)
    ensures forall channel :: View(t'.chunks, channel) == Fold(env, DoneMessages(t'.outbox, channel))
  {
    hide View, DoneMessages, Place, Fold;
    var m := c.outbox[k].message;
    forall channel ensures View(t'.chunks, channel) == Fold(env, DoneMessages(t'.outbox, channel)) {
      if channel == m.channel {
        DoneUpdate(c.outbox, k, t'.outbox[k], channel);
        FoldSnoc(env, DoneMessages(c.outbox, channel), m);
      } else {
        DoneUpdateOther(c.outbox, k, t'.outbox[k], channel);
      }
    }
  }

  lemma FoldSnoc(env: Env, ms: seq<IndexMessage>, m: IndexMessage)
    ensures Fold(env, ms + [m]) == Place(env, Fold(env, ms), m)
  {
    assert (ms + [m])[..|ms|] == ms;
  }

  lemma EnqueueRefines(env: Env, t: Tables, m: IndexMessage)
    requires Refines(env, t) && Enabled(t, Enqueue(m)) && InOrder(t, Enqueue(m))
    ensures Refines(env, t.(outbox := t.outbox + [OutboxRow(m, Pending, 0)]))
  {
    hide LiveInv, View, Fold;
    EnqueueKeeps(t, m);
    var outbox' := t.outbox + [OutboxRow(m, Pending, 0)];
    assert outbox'[..|t.outbox|] == t.outbox;
    assert forall i :: 0 <= i < |t.outbox| ==> t.outbox[i] in t.outbox;
  }

  ghost predicate LegalInOrder(env: Env, t: Tables, acts: seq<Act>)
    decreases |acts|
  {
    acts == [] || (Enabled(t, acts[0]) && InOrder(t, acts[0]) && LegalInOrder(env, Act1(env, t, acts[0]), acts[1..]))
  }

  /** Crash refinement: with any interleaving of channels, any model failures and any crashes between
      claim and commit, but no overtaking, each channel's rows are the pure fold over its finished messages. */
  lemma {:induction false} InOrderRun(env: Env, t: Tables, acts: seq<Act>)
    requires Refines(env, t) && LegalInOrder(env, t, acts)
    ensures Refines(env, Final(env, t, acts))
    decreases |acts|
  {
    hide Refines, Worked, InOrder;
    if acts != [] {
      match acts[0] {
        case Enqueue(m) => EnqueueRefines(env, t, m);
        case Work(eligible, fault) => WorkRefines(env, t, eligible, NextEvent(t.outbox, eligible).value, fault);
      }
      InOrderRun(env, Act1(env, t, acts[0]), acts[1..]);
    }
  }

  // ---------------------------------------------------------------- termination

  function Weight(row: OutboxRow): nat {
    if row.attempts > MAX_ATTEMPTS then 0
    else match row.status
      case Pending => MAX_ATTEMPTS - row.attempts
      case Processing => MAX_ATTEMPTS + 1 - row.attempts
      case _ => 0
  }

  /** Model calls the outbox can still cost. */
  function Measure(outbox: seq<OutboxRow>): nat {
    if outbox == [] then 0 else Measure(outbox[..|outbox| - 1]) + Weight(outbox[|outbox| - 1])
  }

  lemma {:induction false} MeasureUpdate(outbox: seq<OutboxRow>, k: nat, row: OutboxRow)
    requires k < |outbox|
    ensures Measure(outbox[k := row]) + Weight(outbox[k]) == Measure(outbox) + Weight(row)
    decreases |outbox|
  {
    var init := outbox[..|outbox| - 1];
    if k < |init| {
      MeasureUpdate(init, k, row);
      assert outbox[k := row][..|outbox| - 1] == init[k := row];
    } else {
      assert outbox[k := row][..|outbox| - 1] == init;
    }
  }

  /** One call that finds work never raises the measure, and lowers it unless it was interrupted. */
  lemma WorkDecreases(env: Env, t: Tables, eligible: set<nat>, k: nat, fault: Fault)
    requires LiveInv(t) && NextEvent(t.outbox, eligible) == Some(k)
    ensures k < |t.outbox|
    ensures var t' := Worked(env, t, k, fault).0;
            && Measure(t'.outbox) <= Measure(t.outbox)
            && (!fault.Interrupted? ==> Measure(t'.outbox) < Measure(t.outbox))
  {
    hide Bag, View, Embedded, RowOk, Processed, Place, Overtaken, Shape, Measure;
    ClaimedInv(t, eligible, k);
    ClaimKeeps(t.outbox, eligible, k);
    var c := AfterClaim(t, k);
    ProcessedEffect(env, c, t.outbox[k].message, Some(k), fault);
    MeasureUpdate(t.outbox, k, c.outbox[k]);
    MeasureUpdate(c.outbox, k, Rescheduled(c.outbox, k)[k]);
    MeasureUpdate(c.outbox, k, c.outbox[k].(status := Done));
  }

  ghost predicate OnlyWork(acts: seq<Act>) {
    forall i :: 0 <= i < |acts| ==> acts[i].Work? && !acts[i].fault.Interrupted?
  }

  lemma {:induction false} CallsBounded(env: Env, t: Tables, acts: seq<Act>)
    requires LiveInv(t) && Legal(env, t, acts) && OnlyWork(acts)
    ensures |acts| + Measure(Final(env, t, acts).outbox) <= Measure(t.outbox)
    decreases |acts|
  {
    hide LiveInv, Worked, Measure;
    if acts != [] {
      var k := NextEvent(t.outbox, acts[0].eligible).value;
      WorkDecreases(env, t, acts[0].eligible, k, acts[0].fault);
      WorkKeeps(env, t, acts[0].eligible, k, acts[0].fault);
      CallsBounded(env, Act1(env, t, acts[0]), acts[1..]);
    }
  }

  /** N fresh events cost at most 5N uninterrupted calls, whatever the pattern of model failures; and a
      worker that finds nothing although every backoff has passed has finished or given up on them all. */
  lemma FreshEventsFinish(env: Env, t: Tables, acts: seq<Act>, eligible: set<nat>)
    requires LiveInv(t) && Legal(env, t, acts) && OnlyWork(acts)
    requires forall i :: 0 <= i < |t.outbox| ==> t.outbox[i].status == Pending && t.outbox[i].attempts == 0
    requires var outbox := Final(env, t, acts).outbox; forall i: nat :: i < |outbox| ==> i in eligible
    ensures |acts| <= MAX_ATTEMPTS * |t.outbox|
    ensures var outbox := Final(env, t, acts).outbox;
            NextEvent(outbox, eligible).None? <==>
              forall i :: 0 <= i < |outbox| ==> outbox[i].status == Done || outbox[i].status == DeadLetter
  {
    hide LiveInv, Legal, Final, Measure;
    CallsBounded(env, t, acts);
    FreshMeasure(t.outbox);
    NoWorkMeansResolved(Final(env, t, acts).outbox, eligible);
  }

  lemma NoWorkMeansResolved(outbox: seq<OutboxRow>, eligible: set<nat>)
    requires forall i: nat :: i < |outbox| ==> i in eligible
    ensures NextEvent(outbox, eligible).None? <==>
              forall i :: 0 <= i < |outbox| ==> outbox[i].status == Done || outbox[i].status == DeadLetter
  {
    if NextEvent(outbox, eligible).None? {
      forall i | 0 <= i < |outbox| ensures outbox[i].status == Done || outbox[i].status == DeadLetter {
        var n: nat := i;
        assert n in eligible;
        assert outbox[n].status != Processing && outbox[n].status != Pending;
      }
    }
  }

  lemma {:induction false} FreshMeasure(outbox: seq<OutboxRow>)
    requires forall i :: 0 <= i < |outbox| ==> outbox[i].status == Pending && outbox[i].attempts == 0
    ensures Measure(outbox) == MAX_ATTEMPTS * |outbox|
  {
    if outbox != [] {
      FreshMeasure(outbox[..|outbox| - 1]);
    }
  }
}
