/** Seed builds: one channel's messages fed in ordinal order, stopped and restarted at any point, and
    their agreement with the live path. */
module IndexSeed {
  import opened Options
  import opened Chunks
  import opened IndexStore
  import opened IndexWorker
  import opened ChunkTable
  import opened IndexRuns

  /** The channel's messages as the seed query orders them. */
  ghost predicate Stream(ms: seq<IndexMessage>, channel: string) {
    && (forall i :: 0 <= i < |ms| ==> ms[i].channel == channel)
    && (forall i, j :: 0 <= i < j < |ms| ==> ms[i].ordinal < ms[j].ordinal && ms[i].id != ms[j].id)
  }

  ghost predicate HasId(ms: seq<IndexMessage>, x: string) {
    exists i :: 0 <= i < |ms| && ms[i].id == x
  }

  /** The first `k` messages have been folded in and nothing else. */
  ghost predicate Seeded(env: Env, t: Tables, ms: seq<IndexMessage>, channel: string, k: nat) {
    && k <= |ms| && TableOk(t)
    && View(t.chunks, channel) == Fold(env, ms[..k])
    && forall x :: Bag(t.chunks)[x] > 0 ==> HasId(ms[..k], x)
  }

  /** One more message extends the seeded prefix when it commits, and changes nothing when it does not. */
  lemma SeedStep(env: Env, t: Tables, ms: seq<IndexMessage>, channel: string, k: nat, fault: Fault)
    requires Stream(ms, channel) && Seeded(env, t, ms, channel, k) && k < |ms|
    ensures var (t', outcome) := Processed(env, t, ms[k], None, fault);
            && (outcome.Committed? ==> Seeded(env, t', ms, channel, k + 1))
            && (!outcome.Committed? ==> t' == t)
            && (fault.NoFault? ==> outcome.Committed?)
  {
    hide TableOk, View, Bag, Fold, Place, Processed, Overtaken;
    var m := ms[k];
    assert Bag(t.chunks)[m.id] == 0;
    assert ms[..k + 1] == ms[..k] + [m];
    ProcessedEffect(env, t, m, None, fault);
    forall x | x in ms[..k] ensures x.ordinal < m.ordinal {
      var i :| 0 <= i < k && ms[..k][i] == x;
      assert ms[i] == x;
    }
    NotOvertakenAfter(env, t, m, ms[..k]);
    FoldSnoc(env, ms[..k], m);
    HasIdSnoc(ms[..k], m);
    var (t', outcome) := Processed(env, t, m, None, fault);
    assert !outcome.Retried?;
  }

  lemma HasIdSnoc(ms: seq<IndexMessage>, m: IndexMessage)
    ensures forall x :: HasId(ms, x) || x == m.id ==> HasId(ms + [m], x)
  {
    forall x | HasId(ms, x) || x == m.id ensures HasId(ms + [m], x) {
      if HasId(ms, x) {
        var i :| 0 <= i < |ms| && ms[i].id == x;
        assert (ms + [m])[i].id == x;
      } else {
        assert (ms + [m])[|ms|].id == x;
      }
    }
  }

  ghost predicate NoFaults(faults: seq<Fault>) {
    forall i :: 0 <= i < |faults| ==> faults[i].NoFault?
  }

  lemma {:induction false} SeedRunExtends(env: Env, t: Tables, ms: seq<IndexMessage>, channel: string, k: nat, faults: seq<Fault>)
    returns (k': nat)
    requires Stream(ms, channel) && Seeded(env, t, ms, channel, k)
    ensures var (t', done) := SeedRun(env, t, ms[k..], faults);
            && k <= k' && Seeded(env, t', ms, channel, k')
            && (done ==> k' == |ms|) && (NoFaults(faults) ==> done)
    decreases |ms| - k
  {
    hide Seeded, Processed;
    assert k <= |ms| by { SeededBound(env, t, ms, channel, k); }
    if k == |ms| {
      k' := k;
    } else {
      var fault := if faults == [] then NoFault else faults[0];
      var rest := if faults == [] then [] else faults[1..];
      SeedStep(env, t, ms, channel, k, fault);
      var (t1, outcome) := Processed(env, t, ms[k], None, fault);
      assert ms[k..][0] == ms[k] && ms[k..][1..] == ms[k + 1..];
      if outcome.Committed? {
        k' := SeedRunExtends(env, t1, ms, channel, k + 1, rest);
      } else {
        k' := k;
      }
    }
  }

  lemma SeededBound(env: Env, t: Tables, ms: seq<IndexMessage>, channel: string, k: nat)
    requires Seeded(env, t, ms, channel, k)
    ensures k <= |ms|
  {
  }

  /** The resume query returns exactly the messages not folded in yet. */
  lemma ResumesWhereItStopped(env: Env, t: Tables, ms: seq<IndexMessage>, channel: string, k: nat)
    requires Stream(ms, channel) && Seeded(env, t, ms, channel, k)
    ensures SeedPending(ms, t.chunks, channel) == ms[k..]
  {
    hide TableOk, Bag, Fold, View;
    var prefix := ms[..k];
    FoldOrdinals(env, prefix);
    ViewMembers(t.chunks, channel);
    forall i | 0 <= i < |ms|
      ensures Passed(t.chunks, channel, ms[i].ordinal) <==> i < k
    {
      if i < k {
        var v := View(t.chunks, channel);
        var c := v[|v| - 1];
        assert c in v && c.lastOrdinal == prefix[k - 1].ordinal;
        assert ms[i].ordinal <= ms[k - 1].ordinal;
      } else {
        forall c | c in t.chunks && c.channel == channel ensures c.lastOrdinal < ms[i].ordinal {
          assert c in View(t.chunks, channel);
          var j :| 0 <= j < |prefix| && c.lastOrdinal == prefix[j].ordinal;
          assert ms[j] == prefix[j];
        }
      }
    }
    PendingFrom(ms, t.chunks, channel, k, |ms|);
    assert ms[..|ms|] == ms;
  }

  lemma {:induction false} PendingFrom(ms: seq<IndexMessage>, chunks: seq<Chunk>, channel: string, k: nat, n: nat)
    requires k <= |ms| && n <= |ms|
    requires forall i :: 0 <= i < |ms| ==> (Passed(chunks, channel, ms[i].ordinal) <==> i < k)
    ensures SeedPending(ms[..n], chunks, channel) == if n <= k then [] else ms[k..n]
    decreases n
  {
    hide Passed;
    if n > 0 {
      PendingFrom(ms, chunks, channel, k, n - 1);
      assert ms[..n][..n - 1] == ms[..n - 1] && ms[..n][n - 1] == ms[n - 1];
    }
  }

  /** One session of the seed build: resume, feed, stop anywhere. */
  function Session(env: Env, t: Tables, ms: seq<IndexMessage>, channel: string, faults: seq<Fault>): Tables {
    SeedRun(env, t, SeedPending(ms, t.chunks, channel), faults).0
  }

  function Sessions(env: Env, t: Tables, ms: seq<IndexMessage>, channel: string, all: seq<seq<Fault>>): Tables {
    if all == [] then t else Session(env, Sessions(env, t, ms, channel, all[..|all| - 1]), ms, channel, all[|all| - 1])
  }

  /** However often a seed build is stopped and restarted, its channel holds the fold of a prefix; a last
      session without faults completes it. */
  lemma {:induction false} SeedSessions(env: Env, t: Tables, ms: seq<IndexMessage>, channel: string, all: seq<seq<Fault>>)
    returns (k': nat)
    requires Stream(ms, channel) && Seeded(env, t, ms, channel, 0)
    ensures Seeded(env, Sessions(env, t, ms, channel, all), ms, channel, k')
    ensures all != [] && NoFaults(all[|all| - 1]) ==> k' == |ms|
    decreases |all|
  {
    hide Seeded, SeedRun, NoFaults, SeedPending;
    if all == [] {
      k' := 0;
    } else {
      var k := SeedSessions(env, t, ms, channel, all[..|all| - 1]);
      var t1 := Sessions(env, t, ms, channel, all[..|all| - 1]);
      ResumesWhereItStopped(env, t1, ms, channel, k);
      k' := SeedRunExtends(env, t1, ms, channel, k, all[|all| - 1]);
    }
  }

  /** Bulk and live parity: a completed seed build and an in-order live run that finished the same
      messages leave the same rows, with identical indices, ids, media, text and token counts. */
  lemma BulkMatchesLive(env: Env, bulk: Tables, live: Tables, ms: seq<IndexMessage>, channel: string)
    requires Seeded(env, bulk, ms, channel, |ms|)
    requires Refines(env, live) && DoneMessages(live.outbox, channel) == ms
    ensures View(bulk.chunks, channel) == View(live.chunks, channel) == Table(env, Segments(env, ms))
  {
    hide TableOk, Fold, View, LiveInv, Table, Segments, DoneMessages;
    assert ms[..|ms|] == ms;
    FoldIsSegmentation(env, ms);
  }

  // ---------------------------------------------------------------- from the empty tables

  const EMPTY := Tables([], [], map[])

  lemma EmptyTablesOk(env: Env, ms: seq<IndexMessage>, channel: string)
    ensures LiveInv(EMPTY) && Refines(env, EMPTY) && Seeded(env, EMPTY, ms, channel, 0)
  {
  }

  /** Every seed build, however often it is stopped, and every outbox run, whatever fails, keeps its
      promises from the empty tables on. */
  lemma EverySeedBuild(env: Env, ms: seq<IndexMessage>, channel: string, all: seq<seq<Fault>>) returns (k: nat)
    requires Stream(ms, channel)
    ensures Seeded(env, Sessions(env, EMPTY, ms, channel, all), ms, channel, k)
    ensures all != [] && NoFaults(all[|all| - 1]) ==> k == |ms|
  {
    hide Seeded, Sessions, NoFaults;
    EmptyTablesOk(env, ms, channel);
    k := SeedSessions(env, EMPTY, ms, channel, all);
  }

  lemma EveryOutboxRun(env: Env, acts: seq<Act>)
    requires Legal(env, EMPTY, acts)
    ensures LiveInv(Final(env, EMPTY, acts))
    ensures LegalInOrder(env, EMPTY, acts) ==> Refines(env, Final(env, EMPTY, acts))
  {
    hide LiveInv, Refines, Legal, LegalInOrder, Final;
    EmptyTablesOk(env, [], "");
    LiveRun(env, EMPTY, acts);
    if LegalInOrder(env, EMPTY, acts) {
      InOrderRun(env, EMPTY, acts);
    }
  }
}
