/** The three tables of the indexing worker and the atomic statements that change them. Event ids are
    ranks: row i of the outbox is the i-th event. */
module IndexStore {
  import opened Options
  import opened Chunks

  datatype Status = Pending | Processing | Done | DeadLetter

  datatype OutboxRow = OutboxRow(message: IndexMessage, status: Status, attempts: nat)

  /** An embedding is identified with the text it was made from. */
  datatype Tables = Tables(outbox: seq<OutboxRow>, chunks: seq<Chunk>, embeddings: map<string, string>)

  const MAX_ATTEMPTS := 5

  // ---------------------------------------------------------------- outbox

  function FirstWith(outbox: seq<OutboxRow>, status: Status, eligible: set<nat>, from: nat): (r: Option<nat>)
    requires from <= |outbox|
    ensures match r
            case None => forall i :: from <= i < |outbox| ==> !(outbox[i].status == status && (status.Pending? ==> i in eligible))
            case Some(k) => from <= k < |outbox| && outbox[k].status == status && (status.Pending? ==> k in eligible)
                            && forall i :: from <= i < k ==> !(outbox[i].status == status && (status.Pending? ==> i in eligible))
    decreases |outbox| - from
  {
    if from == |outbox| then None
    else if outbox[from].status == status && (status.Pending? ==> from in eligible) then Some(from)
    else FirstWith(outbox, status, eligible, from + 1)
  }

  /** Unfinished work first, then the oldest pending event whose backoff has passed. */
  function NextEvent(outbox: seq<OutboxRow>, eligible: set<nat>): (r: Option<nat>)
    ensures r.Some? ==> r.value < |outbox|
  {
    var unfinished := FirstWith(outbox, Processing, eligible, 0);
    if unfinished.Some? then unfinished else FirstWith(outbox, Pending, eligible, 0)
  }

  function Claimed(outbox: seq<OutboxRow>, k: nat): seq<OutboxRow>
    requires k < |outbox|
  {
    if outbox[k].status.Pending? then outbox[k := outbox[k].(status := Processing, attempts := outbox[k].attempts + 1)]
    else outbox
  }

  function Rescheduled(outbox: seq<OutboxRow>, k: nat): seq<OutboxRow>
    requires k < |outbox|
  {
    outbox[k := outbox[k].(status := if outbox[k].attempts >= MAX_ATTEMPTS then DeadLetter else Pending)]
  }

  /** Completion of an event; a seed message has none. */
  function Completed(outbox: seq<OutboxRow>, event: Option<nat>): seq<OutboxRow>
    requires event.Some? ==> event.value < |outbox|
  {
    if event.None? then outbox else outbox[event.value := outbox[event.value].(status := Done)]
  }

  // ---------------------------------------------------------------- chunks

  function OpenChunk(chunks: seq<Chunk>, channel: string): Option<Chunk> {
    if chunks == [] then None
    else
      var last := chunks[|chunks| - 1];
      if last.channel == channel && last.open then Some(last) else OpenChunk(chunks[..|chunks| - 1], channel)
  }

  /** UPDATE ... WHERE: every matching row is rewritten. */
  function Rewrite(chunks: seq<Chunk>, where: Chunk -> bool, update: Chunk -> Chunk): (r: seq<Chunk>)
    ensures |r| == |chunks|
    ensures forall i :: 0 <= i < |r| ==> r[i] == if where(chunks[i]) then update(chunks[i]) else chunks[i]
  {
    if chunks == [] then []
    else
      var init, last := chunks[..|chunks| - 1], chunks[|chunks| - 1];
      Rewrite(init, where, update) + [if where(last) then update(last) else last]
  }

  /** INSERT with the primary key on the first message id. */
  function Insert(chunks: seq<Chunk>, row: Chunk): Option<seq<Chunk>> {
    if exists c :: c in chunks && c.firstMessageId == row.firstMessageId then None else Some(chunks + [row])
  }

  function ExtendOpen(chunks: seq<Chunk>, m: IndexMessage, a: Assembled): seq<Chunk> {
    Rewrite(chunks, (c: Chunk) => c.channel == m.channel && c.open, (c: Chunk) => Extended(c, m, a))
  }

  function CloseFirst(chunks: seq<Chunk>, firstMessageId: string): seq<Chunk> {
    Rewrite(chunks, (c: Chunk) => c.firstMessageId == firstMessageId && c.open, (c: Chunk) => c.(open := false))
  }

  /** One transaction: the ordinary append and its completion. The inner read guards the update. */
  function AppendCommitted(t: Tables, m: IndexMessage, a: Assembled, event: Option<nat>): Option<Tables>
    requires event.Some? ==> event.value < |t.outbox|
  {
    match OpenChunk(t.chunks, m.channel)
    case None =>
      (match Insert(t.chunks, NewChunk(m, a, 0))
       case None => None
       case Some(chunks) => Some(t.(chunks := chunks, outbox := Completed(t.outbox, event))))
    case Some(open) =>
      Some(t.(chunks := if open.lastOrdinal < m.ordinal then ExtendOpen(t.chunks, m, a) else t.chunks,
              outbox := Completed(t.outbox, event)))
  }

  /** One transaction: freeze the previous tail with its embedding and open the next one. */
  function CloseCommitted(t: Tables, m: IndexMessage, previous: Chunk, next: Assembled, event: Option<nat>): Option<Tables>
    requires event.Some? ==> event.value < |t.outbox|
  {
    match Insert(CloseFirst(t.chunks, previous.firstMessageId), NewChunk(m, next, previous.index + 1))
    case None => None
    case Some(chunks) =>
      Some(Tables(Completed(t.outbox, event), chunks,
                  if previous.firstMessageId in t.embeddings then t.embeddings
                  else t.embeddings[previous.firstMessageId := previous.text]))
  }

  // ---------------------------------------------------------------- the store

  class Store {
    var outbox: seq<OutboxRow>
    var chunks: seq<Chunk>
    var embeddings: map<string, string>

    constructor ()
      ensures State() == Tables([], [], map[])
    {
      outbox, chunks, embeddings := [], [], map[];
    }

    function State(): Tables
      reads this
    {
      Tables(outbox, chunks, embeddings)
    }

    method Enqueue(m: IndexMessage)
      modifies this
      ensures State() == old(State()).(outbox := old(outbox) + [OutboxRow(m, Pending, 0)])
    {
      outbox := outbox + [OutboxRow(m, Pending, 0)];
    }

    /** Two passes over the statuses; a pending event is marked before it is returned. */
    method NextIndexMessage(eligible: set<nat>) returns (event: Option<nat>)
      modifies this`outbox
      ensures event == NextEvent(old(outbox), eligible)
      ensures outbox == if event.Some? then Claimed(old(outbox), event.value) else old(outbox)
    {
      var statuses := [Processing, Pending];
      for i := 0 to 2
        invariant outbox == old(outbox)
        invariant i >= 1 ==> FirstWith(outbox, Processing, eligible, 0) == None
        invariant i == 2 ==> FirstWith(outbox, Pending, eligible, 0) == None
      {
        event := FirstWith(outbox, statuses[i], eligible, 0);
        if event.Some? {
          if statuses[i].Pending? {
            var row := outbox[event.value];
            outbox := outbox[event.value := row.(status := Processing, attempts := row.attempts + 1)];
          }
          return;
        }
      }
      event := None;
    }

    method CompleteOpenAppend(m: IndexMessage, a: Assembled, event: Option<nat>) returns (ok: bool)
      requires event.Some? ==> event.value < |outbox|
      modifies this
      ensures var t := AppendCommitted(old(State()), m, a, event);
              ok == t.Some? && State() == if ok then t.value else old(State())
    {
      var open := OpenChunk(chunks, m.channel);
      if open.None? {
        var inserted := Insert(chunks, NewChunk(m, a, 0));
        if inserted.None? {
          return false;
        }
        chunks := inserted.value;
      } else if open.value.lastOrdinal < m.ordinal {
        chunks := ExtendOpen(chunks, m, a);
      }
      outbox := Completed(outbox, event);
      ok := true;
    }

    method CloseAndOpen(m: IndexMessage, previous: Chunk, next: Assembled, event: Option<nat>) returns (ok: bool)
      requires event.Some? ==> event.value < |outbox|
      modifies this
      ensures var t := CloseCommitted(old(State()), m, previous, next, event);
              ok == t.Some? && State() == if ok then t.value else old(State())
    {
      var inserted := Insert(CloseFirst(chunks, previous.firstMessageId), NewChunk(m, next, previous.index + 1));
      if inserted.None? {
        return false;
      }
      chunks := inserted.value;
      if previous.firstMessageId !in embeddings {
        embeddings := embeddings[previous.firstMessageId := previous.text];
      }
      outbox := Completed(outbox, event);
      ok := true;
    }

    method Reschedule(k: nat)
      requires k < |outbox|
      modifies this`outbox
      ensures outbox == Rescheduled(old(outbox), k)
      ensures outbox[k].status == DeadLetter <==> old(outbox)[k].attempts >= MAX_ATTEMPTS
      ensures outbox[k].status == DeadLetter || outbox[k].status == Pending
      ensures forall i :: 0 <= i < |outbox| ==>
                            outbox[i].message == old(outbox)[i].message && outbox[i].attempts == old(outbox)[i].attempts
                            && (i != k ==> outbox[i].status == old(outbox)[i].status)
    {
      outbox := Rescheduled(outbox, k);
    }
  }
}
