/** Structure of the chunk table and what one processed message does to it, on any table the worker can
    have built, seeded or live. */
module ChunkTable {
  import opened Options
  import opened Chunks
  import opened IndexStore
  import opened IndexWorker

  /** The rows of one channel, in insertion order. */
  function View(chunks: seq<Chunk>, channel: string): seq<Chunk> {
    if chunks == [] then []
    else
      var rest, last := View(chunks[..|chunks| - 1], channel), chunks[|chunks| - 1];
      if last.channel == channel then rest + [last] else rest
  }

  /** All message ids of the table, with multiplicity. */
  function Bag(chunks: seq<Chunk>): multiset<string> {
    if chunks == [] then multiset{} else Bag(chunks[..|chunks| - 1]) + multiset(chunks[|chunks| - 1].messageIds)
  }

  /** Contiguous indices from 0; exactly the last row is open. */
  ghost predicate Shape(v: seq<Chunk>) {
    forall i :: 0 <= i < |v| ==> v[i].index == i && (v[i].open <==> i == |v| - 1)
  }

  ghost predicate RowOk(c: Chunk) {
    c.messageIds != [] && c.firstMessageId == c.messageIds[0]
  }

  ghost predicate Embedded(chunks: seq<Chunk>, embeddings: map<string, string>) {
    && (forall x :: x in embeddings ==> exists c :: c in chunks && !c.open && c.firstMessageId == x)
    && (forall c :: c in chunks && !c.open ==> c.firstMessageId in embeddings && embeddings[c.firstMessageId] == c.text)
  }

  ghost predicate TableOk(t: Tables) {
    && (forall c :: c in t.chunks ==> RowOk(c))
    && (forall x :: Bag(t.chunks)[x] <= 1)
    && (forall channel :: Shape(View(t.chunks, channel)))
    && Embedded(t.chunks, t.embeddings)
  }

  /** Closed rows never change and rows never disappear. */
  ghost predicate Frozen(a: seq<Chunk>, b: seq<Chunk>) {
    |a| <= |b| && forall i :: 0 <= i < |a| && !a[i].open ==> b[i] == a[i]
  }

  // ---------------------------------------------------------------- views and bags under updates

  lemma {:induction false} ViewMembers(chunks: seq<Chunk>, channel: string)
    ensures forall c :: c in View(chunks, channel) <==> c in chunks && c.channel == channel
  {
    if chunks != [] {
      ViewMembers(chunks[..|chunks| - 1], channel);
      assert chunks == chunks[..|chunks| - 1] + [chunks[|chunks| - 1]];
    }
  }

  lemma ViewSnoc(chunks: seq<Chunk>, c: Chunk, channel: string)
    ensures View(chunks + [c], channel) == if c.channel == channel then View(chunks, channel) + [c] else View(chunks, channel)
    ensures Bag(chunks + [c]) == Bag(chunks) + multiset(c.messageIds)
  {
    assert (chunks + [c])[..|chunks|] == chunks;
  }

  lemma {:induction false} ViewUpdateOther(chunks: seq<Chunk>, p: nat, r: Chunk, channel: string)
    requires p < |chunks| && r.channel == chunks[p].channel != channel
    ensures View(chunks[p := r], channel) == View(chunks, channel)
    decreases |chunks|
  {
    var init := chunks[..|chunks| - 1];
    if p < |init| {
      ViewUpdateOther(init, p, r, channel);
      assert chunks[p := r][..|chunks| - 1] == init[p := r];
    } else {
      assert chunks[p := r][..|chunks| - 1] == init;
    }
  }

  lemma {:induction false} ViewUpdateLast(chunks: seq<Chunk>, p: nat, r: Chunk, channel: string)
    requires p < |chunks| && r.channel == chunks[p].channel == channel
    requires forall i :: p < i < |chunks| ==> chunks[i].channel != channel
    ensures var v := View(chunks, channel);
            v != [] && v[|v| - 1] == chunks[p] && View(chunks[p := r], channel) == v[..|v| - 1] + [r]
    decreases |chunks|
  {
    var init := chunks[..|chunks| - 1];
    if p < |init| {
      ViewUpdateLast(init, p, r, channel);
      assert chunks[p := r][..|chunks| - 1] == init[p := r];
    } else {
      assert chunks[p := r][..|chunks| - 1] == init;
    }
  }

  lemma {:induction false} BagUpdateAt(chunks: seq<Chunk>, p: nat, r: Chunk, x: string)
    requires p < |chunks|
    ensures Bag(chunks[p := r])[x] + multiset(chunks[p].messageIds)[x] == Bag(chunks)[x] + multiset(r.messageIds)[x]
    decreases |chunks|
  {
    var init := chunks[..|chunks| - 1];
    if p < |init| {
      BagUpdateAt(init, p, r, x);
      assert chunks[p := r][..|chunks| - 1] == init[p := r];
    } else {
      assert chunks[p := r][..|chunks| - 1] == init;
    }
  }

  lemma BagUpdate(chunks: seq<Chunk>, p: nat, r: Chunk)
    requires p < |chunks|
    ensures forall x :: Bag(chunks[p := r])[x] + multiset(chunks[p].messageIds)[x] == Bag(chunks)[x] + multiset(r.messageIds)[x]
  {
    hide Bag;
    forall x ensures Bag(chunks[p := r])[x] + multiset(chunks[p].messageIds)[x] == Bag(chunks)[x] + multiset(r.messageIds)[x] {
      BagUpdateAt(chunks, p, r, x);
    }
  }

  lemma {:induction false} BagMembers(chunks: seq<Chunk>, x: string)
    ensures Bag(chunks)[x] > 0 <==> exists c :: c in chunks && x in c.messageIds
  {
    if chunks != [] {
      var init, last := chunks[..|chunks| - 1], chunks[|chunks| - 1];
      BagMembers(init, x);
      assert chunks == init + [last];
      assert x in multiset(last.messageIds) <==> x in last.messageIds;
    }
  }

  lemma {:induction false} BagTwice(chunks: seq<Chunk>, i: nat, j: nat, x: string)
    requires i < j < |chunks| && x in chunks[i].messageIds && x in chunks[j].messageIds
    ensures Bag(chunks)[x] >= 2
    decreases |chunks|
  {
    var init, last := chunks[..|chunks| - 1], chunks[|chunks| - 1];
    if j < |init| {
      BagTwice(init, i, j, x);
    } else {
      assert init[i] in init;
      BagMembers(init, x);
      assert x in multiset(last.messageIds);
    }
  }

  lemma DistinctFirsts(t: Tables, i: nat, j: nat)
    requires TableOk(t) && i < |t.chunks| && j < |t.chunks| && t.chunks[i].firstMessageId == t.chunks[j].firstMessageId
    ensures i == j
  {
    var x := t.chunks[i].firstMessageId;
    assert RowOk(t.chunks[i]) && RowOk(t.chunks[j]);
    if i < j {
      BagTwice(t.chunks, i, j, x);
    } else if j < i {
      BagTwice(t.chunks, j, i, x);
    }
  }

  // ---------------------------------------------------------------- the open row

  lemma {:induction false} OpenOfView(chunks: seq<Chunk>, channel: string)
    ensures OpenChunk(chunks, channel) == OpenChunk(View(chunks, channel), channel)
  {
    if chunks != [] {
      OpenOfView(chunks[..|chunks| - 1], channel);
      var rest, last := View(chunks[..|chunks| - 1], channel), chunks[|chunks| - 1];
      if last.channel == channel {
        assert (rest + [last])[..|rest|] == rest;
      }
    }
  }

  lemma OpenIsLast(t: Tables, channel: string)
    requires TableOk(t)
    ensures var v := View(t.chunks, channel);
            OpenChunk(t.chunks, channel) == if v == [] then None else Some(v[|v| - 1])
  {
    var v := View(t.chunks, channel);
    OpenOfView(t.chunks, channel);
    ViewMembers(t.chunks, channel);
    assert Shape(v);
    if v != [] {
      assert v[|v| - 1] in v;
    }
  }

  /** The position of a channel's open row: its last row, and its only open one. */
  lemma {:induction false} OpenPosition(chunks: seq<Chunk>, channel: string) returns (p: nat)
    requires Shape(View(chunks, channel)) && View(chunks, channel) != []
    ensures p < |chunks| && chunks[p].channel == channel && chunks[p].open
    ensures var v := View(chunks, channel); chunks[p] == v[|v| - 1]
    ensures forall i :: 0 <= i < |chunks| && i != p ==> !(chunks[i].channel == channel && chunks[i].open)
    ensures forall i :: p < i < |chunks| ==> chunks[i].channel != channel
    decreases |chunks|
  {
    var init, last := chunks[..|chunks| - 1], chunks[|chunks| - 1];
    var v := View(chunks, channel);
    if last.channel == channel {
      p := |chunks| - 1;
      assert v[|v| - 1] == last;
      ViewMembers(init, channel);
      forall i | 0 <= i < |init| && init[i].channel == channel ensures !init[i].open {
        var rest := View(init, channel);
        assert init[i] in rest && v == rest + [last];
        var k :| 0 <= k < |rest| && rest[k] == init[i];
        assert v[k] == init[i];
      }
    } else {
      p := OpenPosition(init, channel);
      assert forall i :: 0 <= i < |init| ==> chunks[i] == init[i];
    }
  }

  lemma OpenRow(t: Tables, channel: string) returns (p: nat)
    requires TableOk(t) && OpenChunk(t.chunks, channel).Some?
    ensures p < |t.chunks| && t.chunks[p].channel == channel && t.chunks[p].open
    ensures var v := View(t.chunks, channel); v != [] && t.chunks[p] == v[|v| - 1] == OpenChunk(t.chunks, channel).value
    ensures forall i :: 0 <= i < |t.chunks| && i != p ==> !(t.chunks[i].channel == channel && t.chunks[i].open)
    ensures forall i :: p < i < |t.chunks| ==> t.chunks[i].channel != channel
  {
    hide Shape, Bag, Embedded, View;
    OpenIsLast(t, channel);
    p := OpenPosition(t.chunks, channel);
  }

  lemma RewriteOne(chunks: seq<Chunk>, where: Chunk -> bool, update: Chunk -> Chunk, p: nat)
    requires p < |chunks| && where(chunks[p])
    requires forall i :: 0 <= i < |chunks| && i != p ==> !where(chunks[i])
    ensures Rewrite(chunks, where, update) == chunks[p := update(chunks[p])]
  {
  }

  // ---------------------------------------------------------------- the three table updates

  /** What a table update must keep, given the row-level change it made. */
  ghost predicate Kept(t: Tables, t': Tables, m: IndexMessage, v': seq<Chunk>) {
    && TableOk(t')
    && Frozen(t.chunks, t'.chunks)
    && Bag(t'.chunks) == Bag(t.chunks) + multiset{m.id}
    && View(t'.chunks, m.channel) == v'
    && forall channel :: channel != m.channel ==> View(t'.chunks, channel) == View(t.chunks, channel)
  }

  lemma FirstRowKept(t: Tables, t': Tables, m: IndexMessage, c: Chunk)
    requires TableOk(t) && Bag(t.chunks)[m.id] == 0 && View(t.chunks, m.channel) == []
    requires c.messageIds == [m.id] && c.firstMessageId == m.id && c.channel == m.channel && c.index == 0 && c.open
    requires t'.chunks == t.chunks + [c] && t'.embeddings == t.embeddings
    ensures Kept(t, t', m, [c])
  {
    hide Bag, View, Embedded;
    ViewSnoc(t.chunks, c, m.channel);
    forall channel | channel != m.channel ensures View(t'.chunks, channel) == View(t.chunks, channel) {
      ViewSnoc(t.chunks, c, channel);
    }
    assert multiset([m.id]) == multiset{m.id};
    assert forall x :: x in t'.chunks <==> x in t.chunks || x == c;
    EmbeddedGrows(t, t', c);
  }

  lemma EmbeddedGrows(t: Tables, t': Tables, c: Chunk)
    requires Embedded(t.chunks, t.embeddings) && c.open
    requires forall x :: x in t'.chunks <==> x in t.chunks || x == c
    requires t'.embeddings == t.embeddings
    ensures Embedded(t'.chunks, t'.embeddings)
  {
  }

  lemma ExtendKept(t: Tables, t': Tables, m: IndexMessage, p: nat, r: Chunk)
    requires TableOk(t) && Bag(t.chunks)[m.id] == 0 && View(t.chunks, m.channel) != []
    requires p < |t.chunks| && t.chunks[p].open && t.chunks[p].channel == m.channel
    requires forall i :: p < i < |t.chunks| ==> t.chunks[i].channel != m.channel
    requires var o := t.chunks[p];
             && r.open && r.channel == m.channel && r.index == o.index && r.firstMessageId == o.firstMessageId
             && r.messageIds == o.messageIds + [m.id]
    requires t'.chunks == t.chunks[p := r] && t'.embeddings == t.embeddings
    ensures var v := View(t.chunks, m.channel); Kept(t, t', m, v[..|v| - 1] + [r])
  {
    hide Bag, View, Embedded;
    var o := t.chunks[p];
    assert o in t.chunks;
    BagUpdate(t.chunks, p, r);
    assert multiset(o.messageIds + [m.id]) == multiset(o.messageIds) + multiset{m.id};
    assert Bag(t'.chunks) == Bag(t.chunks) + multiset{m.id};
    ViewUpdateLast(t.chunks, p, r, m.channel);
    var v := View(t.chunks, m.channel);
    assert Shape(v);
    forall channel | channel != m.channel ensures View(t'.chunks, channel) == View(t.chunks, channel) {
      ViewUpdateOther(t.chunks, p, r, channel);
    }
    assert forall c :: c in t'.chunks ==> c in t.chunks || c == r;
    UpdateKeepsEmbedded(t.chunks, p, r, t.embeddings);
  }

  /** Replacing an open row by an open row does not concern the embeddings. */
  lemma UpdateKeepsEmbedded(chunks: seq<Chunk>, p: nat, r: Chunk, embeddings: map<string, string>)
    requires Embedded(chunks, embeddings) && p < |chunks| && chunks[p].open && r.open
    ensures Embedded(chunks[p := r], embeddings)
  {
    var chunks' := chunks[p := r];
    forall x | x in embeddings ensures exists c :: c in chunks' && !c.open && c.firstMessageId == x {
      var c :| c in chunks && !c.open && c.firstMessageId == x;
      var i :| 0 <= i < |chunks| && chunks[i] == c;
      assert chunks'[i] == c;
    }
  }

  lemma CloseKept(t: Tables, t': Tables, m: IndexMessage, p: nat, c: Chunk)
    requires TableOk(t) && Bag(t.chunks)[m.id] == 0 && View(t.chunks, m.channel) != []
    requires p < |t.chunks| && t.chunks[p].open && t.chunks[p].channel == m.channel
    requires forall i :: p < i < |t.chunks| ==> t.chunks[i].channel != m.channel
    requires c.messageIds == [m.id] && c.firstMessageId == m.id && c.channel == m.channel && c.open
    requires c.index == t.chunks[p].index + 1
    requires var o := t.chunks[p];
             && t'.chunks == t.chunks[p := o.(open := false)] + [c]
             && t'.embeddings == if o.firstMessageId in t.embeddings then t.embeddings else t.embeddings[o.firstMessageId := o.text]
    ensures var v, o := View(t.chunks, m.channel), t.chunks[p];
            Kept(t, t', m, v[..|v| - 1] + [o.(open := false), c])
  {
    hide Bag, View, Embedded;
    var o, v := t.chunks[p], View(t.chunks, m.channel);
    var closed := o.(open := false);
    var mid := t.chunks[p := closed];
    assert o in t.chunks;
    BagUpdate(t.chunks, p, closed);
    ViewUpdateLast(t.chunks, p, closed, m.channel);
    ViewSnoc(mid, c, m.channel);
    assert multiset([m.id]) == multiset{m.id};
    assert Bag(t'.chunks) == Bag(t.chunks) + multiset{m.id};
    assert Shape(v);
    assert View(t'.chunks, m.channel) == v[..|v| - 1] + [closed, c];
    forall channel | channel != m.channel ensures View(t'.chunks, channel) == View(t.chunks, channel) {
      ViewUpdateOther(t.chunks, p, closed, channel);
      ViewSnoc(mid, c, channel);
    }
    assert forall x :: x in t'.chunks ==> x in t.chunks || x == closed || x == c;
    CloseKeepsEmbedded(t, p, c);
  }

  lemma CloseKeepsEmbedded(t: Tables, p: nat, c: Chunk)
    requires TableOk(t) && p < |t.chunks| && t.chunks[p].open && c.open
    ensures var o := t.chunks[p];
            && o.firstMessageId !in t.embeddings
            && Embedded(t.chunks[p := o.(open := false)] + [c], t.embeddings[o.firstMessageId := o.text])
  {
    var o := t.chunks[p];
    var closed := o.(open := false);
    var chunks' := t.chunks[p := closed] + [c];
    var embeddings' := t.embeddings[o.firstMessageId := o.text];
    forall i | 0 <= i < |t.chunks| && i != p ensures t.chunks[i].firstMessageId != o.firstMessageId {
      if t.chunks[i].firstMessageId == o.firstMessageId {
        DistinctFirsts(t, i, p);
      }
    }
    forall r | r in t.chunks && !r.open ensures r.firstMessageId != o.firstMessageId {
      var i :| 0 <= i < |t.chunks| && t.chunks[i] == r;
    }
    forall x | x in embeddings' ensures exists r :: r in chunks' && !r.open && r.firstMessageId == x {
      if x == o.firstMessageId {
        assert chunks'[p] == closed;
      } else {
        var r :| r in t.chunks && !r.open && r.firstMessageId == x;
        var i :| 0 <= i < |t.chunks| && t.chunks[i] == r;
        assert chunks'[i] == r;
      }
    }
    assert forall r :: r in chunks' ==> r in t.chunks || r == closed || r == c;
  }

  // ---------------------------------------------------------------- one processed message

  /** The append the guard turns into a no-op: the open chunk already ends at or past this ordinal. */
  predicate Overtaken(env: Env, t: Tables, m: IndexMessage) {
    var open := OpenChunk(t.chunks, m.channel);
    open.Some? && Fits(env, Append(env, m, open)) && open.value.lastOrdinal >= m.ordinal
  }

  ghost predicate SameTables(t: Tables, t': Tables) {
    t'.chunks == t.chunks && t'.embeddings == t.embeddings
  }

  /** A committed message is placed by the pure fold on its channel's rows, unless it was overtaken, in
      which case the tables do not change. */
  lemma ProcessedEffect(env: Env, t: Tables, m: IndexMessage, event: Option<nat>, fault: Fault)
    requires TableOk(t) && Bag(t.chunks)[m.id] == 0 && (event.Some? ==> event.value < |t.outbox|)
    ensures var (t', outcome) := Processed(env, t, m, event, fault);
            && (fault.NoFault? ==> outcome.Committed?)
            && (!fault.Interrupted? && event.Some? ==> !outcome.Stopped?)
            && (outcome.Stopped? ==> t' == t)
            && (outcome.Retried? ==> event.Some? && t' == t.(outbox := Rescheduled(t.outbox, event.value)))
            && (outcome.Committed? ==> t'.outbox == Completed(t.outbox, event))
            && (outcome.Committed? ==>
                  if Overtaken(env, t, m) then SameTables(t, t')
                  else Kept(t, t', m, Place(env, View(t.chunks, m.channel), m)))
  {
    hide TableOk, Append, Fits, Kept, Rewrite, Bag, View, Shape;
    var open := OpenChunk(t.chunks, m.channel);
    OpenIsLast(t, m.channel);
    NotInserted(t, m);
    var a := Append(env, m, open);
    if open.None? {
      AppendFirst(env, t, m, event);
    } else if Fits(env, a) {
      AppendMore(env, t, m, event);
    } else {
      CloseTail(env, t, m, event);
    }
  }

  lemma NotInserted(t: Tables, m: IndexMessage)
    requires TableOk(t) && Bag(t.chunks)[m.id] == 0
    ensures forall c :: c in t.chunks ==> c.firstMessageId != m.id
  {
    BagMembers(t.chunks, m.id);
    forall c | c in t.chunks ensures c.firstMessageId != m.id {
      assert RowOk(c);
      assert c.messageIds[0] in c.messageIds;
    }
  }

  lemma AppendFirst(env: Env, t: Tables, m: IndexMessage, event: Option<nat>)
    requires TableOk(t) && Bag(t.chunks)[m.id] == 0 && (event.Some? ==> event.value < |t.outbox|)
    requires OpenChunk(t.chunks, m.channel).None?
    ensures var r := AppendCommitted(t, m, Append(env, m, None), event);
            r.Some? && r.value.outbox == Completed(t.outbox, event)
            && Kept(t, r.value, m, Place(env, View(t.chunks, m.channel), m))
  {
    hide TableOk, Kept, Bag, Shape, Embedded;
    OpenIsLast(t, m.channel);
    NotInserted(t, m);
    var c := NewChunk(m, Append(env, m, None), 0);
    assert c.messageIds == [m.id];
    FirstRowKept(t, AppendCommitted(t, m, Append(env, m, None), event).value, m, c);
  }

  lemma AppendMore(env: Env, t: Tables, m: IndexMessage, event: Option<nat>)
    requires TableOk(t) && Bag(t.chunks)[m.id] == 0 && (event.Some? ==> event.value < |t.outbox|)
    requires var open := OpenChunk(t.chunks, m.channel); open.Some? && Fits(env, Append(env, m, open))
    ensures var r := AppendCommitted(t, m, Append(env, m, OpenChunk(t.chunks, m.channel)), event);
            && r.Some? && r.value.outbox == Completed(t.outbox, event)
            && if Overtaken(env, t, m) then SameTables(t, r.value)
               else Kept(t, r.value, m, Place(env, View(t.chunks, m.channel), m))
  {
    hide Kept, TableOk, View, Fits;
    var v, open := View(t.chunks, m.channel), OpenChunk(t.chunks, m.channel);
    var a := Append(env, m, open);
    var p := OpenRow(t, m.channel);
    if !Overtaken(env, t, m) {
      var r := Extended(t.chunks[p], m, a);
      RewriteOne(t.chunks, (c: Chunk) => c.channel == m.channel && c.open, (c: Chunk) => Extended(c, m, a), p);
      var t' := AppendCommitted(t, m, a, event).value;
      assert t'.chunks == t.chunks[p := r];
      ExtendKept(t, t', m, p, r);
    }
  }

  /** Closing by first message id touches one row only, because first ids are distinct. */
  lemma CloseFirstIs(t: Tables, p: nat)
    requires TableOk(t) && p < |t.chunks| && t.chunks[p].open
    ensures CloseFirst(t.chunks, t.chunks[p].firstMessageId) == t.chunks[p := t.chunks[p].(open := false)]
  {
    hide TableOk;
    var first := t.chunks[p].firstMessageId;
    forall i | 0 <= i < |t.chunks| && i != p ensures t.chunks[i].firstMessageId != first {
      if t.chunks[i].firstMessageId == first {
        DistinctFirsts(t, i, p);
      }
    }
    RewriteOne(t.chunks, (c: Chunk) => c.firstMessageId == first && c.open, (c: Chunk) => c.(open := false), p);
  }

  lemma FreshIds(env: Env, m: IndexMessage)
    ensures Append(env, m, None).messageIds == [m.id]
  {
  }

  lemma CloseTail(env: Env, t: Tables, m: IndexMessage, event: Option<nat>)
    requires TableOk(t) && Bag(t.chunks)[m.id] == 0 && (event.Some? ==> event.value < |t.outbox|)
    requires var open := OpenChunk(t.chunks, m.channel); open.Some? && !Fits(env, Append(env, m, open))
    ensures var r := CloseCommitted(t, m, OpenChunk(t.chunks, m.channel).value, Append(env, m, None), event);
            && r.Some? && r.value.outbox == Completed(t.outbox, event)
            && Kept(t, r.value, m, Place(env, View(t.chunks, m.channel), m))
  {
    hide Kept, TableOk, View, Fits, Append, CloseFirst, Bag;
    NotInserted(t, m);
    var v, o := View(t.chunks, m.channel), OpenChunk(t.chunks, m.channel).value;
    var p := OpenRow(t, m.channel);
    CloseFirstIs(t, p);
    var mid := CloseFirst(t.chunks, o.firstMessageId);
    forall c | c in mid ensures c.firstMessageId != m.id {
      var i :| 0 <= i < |mid| && mid[i] == c;
      assert t.chunks[i] in t.chunks;
    }
    var c := NewChunk(m, Append(env, m, None), o.index + 1);
    FreshIds(env, m);
    var t' := CloseCommitted(t, m, o, Append(env, m, None), event).value;
    CloseKept(t, t', m, p, c);
  }
}
