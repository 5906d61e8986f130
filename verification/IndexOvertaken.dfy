/** A run in which a retried event is overtaken and its message is lost from the chunks. */
module IndexOvertaken {
  import opened Options
  import opened Chunks
  import opened IndexStore
  import opened IndexWorker
  import opened ChunkTable
  import opened IndexRuns

  /** The first of two events fails once; while it waits, the second is indexed; the retry commits and
      marks the first done, but leaves it out of every chunk. */
  function Overtaking(first: IndexMessage, second: IndexMessage): seq<Act> {
    [Enqueue(first), Enqueue(second), Work({0}, AppendFails), Work({1}, NoFault), Work({0}, NoFault)]
  }

  /** The tables before the retry. */
  function SecondIndexed(env: Env, first: IndexMessage, second: IndexMessage): Tables {
    Tables([OutboxRow(first, Pending, 1), OutboxRow(second, Done, 1)], [NewChunk(second, Append(env, second, None), 0)], map[])
  }

  lemma FirstFails(env: Env, first: IndexMessage, second: IndexMessage)
    requires first.id != second.id
    ensures var t := Tables([OutboxRow(first, Pending, 0), OutboxRow(second, Pending, 0)], [], map[]);
            && NextEvent(t.outbox, {0}) == Some(0)
            && Worked(env, t, 0, AppendFails).0 == Tables([OutboxRow(first, Pending, 1), OutboxRow(second, Pending, 0)], [], map[])
  {
    hide Append;
  }

  lemma SecondCommits(env: Env, first: IndexMessage, second: IndexMessage)
    ensures var t := Tables([OutboxRow(first, Pending, 1), OutboxRow(second, Pending, 0)], [], map[]);
            && NextEvent(t.outbox, {1}) == Some(1)
            && Worked(env, t, 1, NoFault).0 == SecondIndexed(env, first, second)
  {
    hide Append;
    var t := Tables([OutboxRow(first, Pending, 1), OutboxRow(second, Pending, 0)], [], map[]);
    var outbox := [OutboxRow(first, Pending, 1), OutboxRow(second, Processing, 1)];
    assert Claimed(t.outbox, 1) == outbox;
    assert Completed(outbox, Some(1)) == SecondIndexed(env, first, second).outbox;
    assert OpenChunk([], second.channel) == None;
  }

  lemma RetryIsLost(env: Env, first: IndexMessage, second: IndexMessage)
    requires first.id != second.id && first.channel == second.channel && first.ordinal < second.ordinal
    requires Fits(env, Append(env, first, Some(NewChunk(second, Append(env, second, None), 0))))
    ensures var t := SecondIndexed(env, first, second);
            && NextEvent(t.outbox, {0}) == Some(0)
            && var t' := Worked(env, t, 0, NoFault).0;
               t'.outbox == [OutboxRow(first, Done, 2), OutboxRow(second, Done, 1)] && t'.chunks == t.chunks
  {
    hide Append, Fits;
    var t := SecondIndexed(env, first, second);
    assert OpenChunk(t.chunks, first.channel) == Some(t.chunks[0]);
    assert Claimed(t.outbox, 0) == [OutboxRow(first, Processing, 2), OutboxRow(second, Done, 1)];
  }

  /** Exactly-once indexing fails under overtaking, with nothing but one failed model call. */
  lemma OvertakenIsLost(env: Env, first: IndexMessage, second: IndexMessage)
    requires first.id != second.id && first.channel == second.channel && first.ordinal < second.ordinal
    requires Fits(env, Append(env, first, Some(NewChunk(second, Append(env, second, None), 0))))
    ensures var start, acts := Tables([], [], map[]), Overtaking(first, second);
            && Legal(env, start, acts)
            && var end := Final(env, start, acts);
               && end.outbox == [OutboxRow(first, Done, 2), OutboxRow(second, Done, 1)]
               && forall c :: c in end.chunks ==> first.id !in c.messageIds
  {
    hide Append, Fits, Worked, NextEvent;
    var a1, a2, a3, a4, a5 := Enqueue(first), Enqueue(second), Work({0}, AppendFails), Work({1}, NoFault), Work({0}, NoFault);
    var t0 := Tables([], [], map[]);
    var t1 := Tables([OutboxRow(first, Pending, 0)], [], map[]);
    var t2 := Tables([OutboxRow(first, Pending, 0), OutboxRow(second, Pending, 0)], [], map[]);
    var t3 := Tables([OutboxRow(first, Pending, 1), OutboxRow(second, Pending, 0)], [], map[]);
    var t4 := SecondIndexed(env, first, second);
    var t5 := Worked(env, t4, 0, NoFault).0;
    FirstFails(env, first, second);
    SecondCommits(env, first, second);
    RetryIsLost(env, first, second);
    assert Act1(env, t0, a1).outbox == t1.outbox && Act1(env, t1, a2).outbox == t2.outbox;
    OneMore(env, t4, a5, [], t5);
    OneMore(env, t3, a4, [a5], t4);
    OneMore(env, t2, a3, [a4, a5], t3);
    OneMore(env, t1, a2, [a3, a4, a5], t2);
    OneMore(env, t0, a1, [a2, a3, a4, a5], t1);
    SecondIds(env, second);
  }

  lemma OneMore(env: Env, t: Tables, a: Act, rest: seq<Act>, t': Tables)
    requires Enabled(t, a) && Act1(env, t, a) == t' && Legal(env, t', rest)
    ensures Legal(env, t, [a] + rest) && Final(env, t, [a] + rest) == Final(env, t', rest)
  {
    hide Enabled, Act1;
    assert ([a] + rest)[1..] == rest;
  }

  lemma SecondIds(env: Env, second: IndexMessage)
    ensures Append(env, second, None).messageIds == [second.id]
  {
  }
}
