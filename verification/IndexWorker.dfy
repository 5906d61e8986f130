/** The sequential worker: claim, assemble, then append or close-and-open. */
module IndexWorker {
  import opened Options
  import opened Chunks
  import opened IndexStore

  /** Where one attempt stops: a failed model call, or an interruption before the final commit (a crash,
      a failed statement, an embedding of the wrong dimension). */
  datatype Fault = NoFault | AppendFails | EmbedFails | FreshFails | Interrupted

  datatype Outcome = Committed | Retried | Stopped

  /** A failed model call sends a live event back to the queue; a seed message just stops the build. */
  function RetryOrFail(t: Tables, event: Option<nat>): (Tables, Outcome)
    requires event.Some? ==> event.value < |t.outbox|
  {
    if event.None? then (t, Stopped) else (t.(outbox := Rescheduled(t.outbox, event.value)), Retried)
  }

  function Commit(t: Tables, committed: Option<Tables>): (Tables, Outcome) {
    if committed.None? then (t, Stopped) else (committed.value, Committed)
  }

  function Processed(env: Env, t: Tables, m: IndexMessage, event: Option<nat>, fault: Fault): (Tables, Outcome)
    requires event.Some? ==> event.value < |t.outbox|
  {
    var open := OpenChunk(t.chunks, m.channel);
    if fault.AppendFails? then RetryOrFail(t, event)
    else
      var assembled := Append(env, m, open);
      if open.None? || Fits(env, assembled) then
        if fault.Interrupted? then (t, Stopped) else Commit(t, AppendCommitted(t, m, assembled, event))
      else if fault.EmbedFails? || fault.FreshFails? then RetryOrFail(t, event)
      else if fault.Interrupted? then (t, Stopped)
      else Commit(t, CloseCommitted(t, m, open.value, Append(env, m, None), event))
  }

  /** One call of ProcessOne that found work. */
  function Worked(env: Env, t: Tables, k: nat, fault: Fault): (Tables, Outcome)
    requires k < |t.outbox|
  {
    Processed(env, t.(outbox := Claimed(t.outbox, k)), t.outbox[k].message, Some(k), fault)
  }

  /** Messages a seed build still has to feed: those no chunk of the channel has passed. */
  function SeedPending(ms: seq<IndexMessage>, chunks: seq<Chunk>, channel: string): seq<IndexMessage> {
    if ms == [] then []
    else
      var rest := SeedPending(ms[..|ms| - 1], chunks, channel);
      var m := ms[|ms| - 1];
      if Passed(chunks, channel, m.ordinal) then rest else rest + [m]
  }

  predicate Passed(chunks: seq<Chunk>, channel: string, ordinal: int) {
    exists c :: c in chunks && c.channel == channel && c.lastOrdinal >= ordinal
  }

  /** Feed messages until one does not commit; `faults[i]` is what happens to the i-th. */
  function SeedRun(env: Env, t: Tables, ms: seq<IndexMessage>, faults: seq<Fault>): (Tables, bool)
    decreases |ms|
  {
    if ms == [] then (t, true)
    else
      var (t', outcome) := Processed(env, t, ms[0], None, if faults == [] then NoFault else faults[0]);
      if outcome.Committed? then SeedRun(env, t', ms[1..], if faults == [] then [] else faults[1..]) else (t', false)
  }

  /** The faults still to come at message i. */
  function FaultsFrom(faults: seq<Fault>, i: nat): seq<Fault> {
    if i < |faults| then faults[i..] else []
  }

  lemma SeedRunStep(env: Env, t: Tables, ms: seq<IndexMessage>, faults: seq<Fault>, i: nat)
    requires i < |ms|
    ensures var (t', outcome) := Processed(env, t, ms[i], None, if i < |faults| then faults[i] else NoFault);
            SeedRun(env, t, ms[i..], FaultsFrom(faults, i))
            == if outcome.Committed? then SeedRun(env, t', ms[i + 1..], FaultsFrom(faults, i + 1)) else (t', false)
  {
    hide Processed;
    assert ms[i..][1..] == ms[i + 1..];
    if i < |faults| {
      assert faults[i..][1..] == FaultsFrom(faults, i + 1);
    }
  }

  class Worker {
    const store: Store
    const env: Env

    constructor (store: Store, env: Env)
      ensures this.store == store && this.env == env
    {
      this.store, this.env := store, env;
    }

    method ProcessMessage(m: IndexMessage, event: Option<nat>, fault: Fault) returns (outcome: Outcome)
      requires event.Some? ==> event.value < |store.outbox|
      modifies store
      ensures (store.State(), outcome) == Processed(env, old(store.State()), m, event, fault)
    {
      var open := OpenChunk(store.chunks, m.channel);
      if fault.AppendFails? {
        outcome := RetryOrStop(event);
        return;
      }
      var assembled := Append(env, m, open);
      if open.None? || Fits(env, assembled) {
        if fault.Interrupted? {
          return Stopped;
        }
        var ok := store.CompleteOpenAppend(m, assembled, event);
        return if ok then Committed else Stopped;
      }
      if fault.EmbedFails? {
        outcome := RetryOrStop(event);
        return;
      }
      // Reassemble the triggering message from nothing so that the next tail does not overlap.
      if fault.FreshFails? {
        outcome := RetryOrStop(event);
        return;
      }
      var next := Append(env, m, None);
      if fault.Interrupted? {
        return Stopped;
      }
      var ok := store.CloseAndOpen(m, open.value, next, event);
      outcome := if ok then Committed else Stopped;
    }

    method RetryOrStop(event: Option<nat>) returns (outcome: Outcome)
      requires event.Some? ==> event.value < |store.outbox|
      modifies store
      ensures (store.State(), outcome) == RetryOrFail(old(store.State()), event)
    {
      if event.None? {
        return Stopped;
      }
      store.Reschedule(event.value);
      outcome := Retried;
    }

    /** Returns None when there is no work. */
    method ProcessOne(eligible: set<nat>, fault: Fault) returns (outcome: Option<Outcome>)
      modifies store
      ensures var k := NextEvent(old(store.outbox), eligible);
              if k.None? then outcome == None && store.State() == old(store.State())
              else outcome.Some? && (store.State(), outcome.value) == Worked(env, old(store.State()), k.value, fault)
    {
      var event := store.NextIndexMessage(eligible);
      if event.None? {
        return None;
      }
      var o := ProcessMessage(store.outbox[event.value].message, event, fault);
      outcome := Some(o);
    }

    method BuildSeed(ms: seq<IndexMessage>, channel: string, faults: seq<Fault>) returns (done: bool)
      modifies store
      ensures (store.State(), done)
              == SeedRun(env, old(store.State()), SeedPending(ms, old(store.chunks), channel), faults)
    {
      hide Processed, SeedRun, SeedPending;
      var messages := SeedPending(ms, store.chunks, channel);
      ghost var start := store.State();
      assert messages[0..] == messages && FaultsFrom(faults, 0) == faults;
      for i := 0 to |messages|
        invariant SeedRun(env, store.State(), messages[i..], FaultsFrom(faults, i)) == SeedRun(env, start, messages, faults)
      {
        SeedRunStep(env, store.State(), messages, faults, i);
        var outcome := ProcessMessage(messages[i], None, if i < |faults| then faults[i] else NoFault);
        if !outcome.Committed? {
          return false;
        }
      }
      SeedRunEnd(env, store.State(), FaultsFrom(faults, |messages|));
      assert messages[|messages|..] == [];
      done := true;
    }
  }

  lemma SeedRunEnd(env: Env, t: Tables, faults: seq<Fault>)
    ensures SeedRun(env, t, [], faults) == (t, true)
  {
  }
}
