/** The server's message log as the feed endpoints expose it, and the two cursor reads over it. */
module FeedLog {

  /** One feed row. A read joins the sender's display name; the live event of a send carries the
      caller id in its place. */
  datatype Message = Message(id: string, feedOrdinal: int, body: string, senderId: string, senderName: string)

  /** The row as the live event of its send shows it. */
  function Live(row: Message): Message {
    row.(senderName := row.senderId)
  }

  /** The two renditions agree: the display name is the sender id. */
  predicate NamedById(row: Message) {
    row.senderName == row.senderId
  }

  datatype Event = Event(id: int, feedOrdinal: int, message: Message)

  ghost predicate SameEntry(m: Message, row: Message) {
    m == row.(senderName := m.senderName)
  }

  /** Committed rows in ordinal order; the first one has ordinal `origin`. */
  datatype Log = Log(origin: nat, rows: seq<Message>) {

    function End(): int { origin + |rows| }

    predicate Has(o: int) { origin <= o < End() }

    function At(o: int): Message
      requires Has(o)
    {
      rows[o - origin]
    }

    /** Ordinals are dense and message ids are in bijection with them. */
    ghost predicate Valid() {
      && (forall i :: 0 <= i < |rows| ==> rows[i].feedOrdinal == origin + i)
      && (forall i, j :: 0 <= i < j < |rows| ==> rows[i].id != rows[j].id)
    }

    /** What a read that ran when `seen` rows were committed could observe. */
    function Seen(seen: nat): Log
      requires seen <= |rows|
    {
      Log(origin, rows[..seen])
    }
  }

  function PageSize(limit: int): nat {
    if limit <= 0 || limit > 500 then 100 else limit
  }

  function Clamp(x: int, hi: nat): (r: nat)
    ensures r <= hi
    ensures 0 <= x <= hi ==> r == x
    ensures x < 0 ==> r == 0
    ensures x > hi ==> r == hi
  {
    if x < 0 then 0 else if x > hi then hi else x
  }

  function Min(a: int, b: int): int { if a < b then a else b }

  /** The ascending page strictly after a cursor. */
  function FeedFor(log: Log, after: int, limit: int): seq<Message> {
    var lo := Clamp(after + 1 - log.origin, |log.rows|);
    log.rows[lo..Clamp(lo + PageSize(limit), |log.rows|)]
  }

  /** The newest page strictly before a cursor, in ascending order. */
  function HistoryPage(log: Log, before: int, limit: int): seq<Message> {
    var hi := Clamp(before - log.origin, |log.rows|);
    log.rows[Clamp(hi - PageSize(limit), |log.rows|)..hi]
  }

  /** A forward page is the contiguous run of logged ordinals from the first one after the cursor on,
      cut off by the page size or the end of the log and by nothing else. */
  lemma FeedForIsRun(log: Log, after: int, limit: int)
    requires log.Valid()
    ensures var page, first := FeedFor(log, after, limit), if after + 1 < log.origin then log.origin else after + 1;
            && (first <= log.End() ==> |page| == Min(PageSize(limit), log.End() - first))
            && (first > log.End() ==> page == [])
            && forall i :: 0 <= i < |page| ==> page[i].feedOrdinal == first + i && page[i] == log.At(first + i)
  {
  }

  /** A history page is a run of rows that ends right below the cursor or at the end of the log, and is
      short only when it starts at the first row. */
  lemma HistoryPageIsRun(log: Log, before: int, limit: int)
    requires log.Valid()
    ensures var page, end := HistoryPage(log, before, limit), Min(before, log.End());
            && (end >= log.origin ==> |page| == Min(PageSize(limit), end - log.origin))
            && (end < log.origin ==> page == [])
            && forall i :: 0 <= i < |page| ==> page[i].feedOrdinal == end - |page| + i && page[i] == log.At(end - |page| + i)
  {
  }

  /** And it is the newest rows below the cursor: a row it leaves out is older than all of a full page. */
  lemma HistoryPageIsNewest(log: Log, before: int, limit: int, k: nat)
    requires log.Valid() && k < |log.rows| && log.rows[k].feedOrdinal < before && log.rows[k] !in HistoryPage(log, before, limit)
    ensures var page := HistoryPage(log, before, limit);
            |page| == PageSize(limit) && forall i :: 0 <= i < |page| ==> log.rows[k].feedOrdinal < page[i].feedOrdinal
  {
    var page := HistoryPage(log, before, limit);
    var hi := Clamp(before - log.origin, |log.rows|);
    var lo := Clamp(hi - PageSize(limit), |log.rows|);
    InSlice(log.rows, lo, hi, k);
    assert k < lo;
    HistoryPageIsRun(log, before, limit);
  }

  lemma InSlice(rows: seq<Message>, lo: nat, hi: nat, k: nat)
    requires lo <= hi <= |rows| && k < hi && rows[k] !in rows[lo..hi]
    ensures k < lo
  {
    assert forall i :: lo <= i < hi ==> rows[lo..hi][i - lo] == rows[i];
  }

  /** The query returns the newest rows first. */
  function NewestFirst(log: Log, before: int, limit: int): seq<Message> {
    Reverse(HistoryPage(log, before, limit))
  }

  function Reverse(s: seq<Message>): (r: seq<Message>)
    ensures |r| == |s|
    ensures forall i :: 0 <= i < |s| ==> r[i] == s[|s| - 1 - i]
  {
    if s == [] then [] else Reverse(s[1..]) + [s[0]]
  }

  /** The two-index swap loop that turns a newest-first page into ascending order. */
  method ReverseInPlace(messages: array<Message>)
    modifies messages
    ensures messages[..] == Reverse(old(messages[..]))
  {
    var n := messages.Length;
    var left, right := 0, n - 1;
    while left < right
      invariant 0 <= left <= right + 1 && right == n - 1 - left
      invariant forall i :: 0 <= i < left ==> messages[i] == old(messages[n - 1 - i])
      invariant forall i :: right < i < n ==> messages[i] == old(messages[n - 1 - i])
      invariant forall i :: left <= i <= right ==> messages[i] == old(messages[i])
    {
      messages[left], messages[right] := messages[right], messages[left];
      left, right := left + 1, right - 1;
    }
    forall i | 0 <= i < n ensures messages[i] == old(messages[n - 1 - i]) {
      assert i < left || right < i || i == left == right;
    }
  }

  method FeedBefore(log: Log, before: int, limit: int) returns (messages: array<Message>)
    ensures messages[..] == HistoryPage(log, before, limit)
  {
    var rows := NewestFirst(log, before, limit);
    messages := new Message[|rows|](i requires 0 <= i < |rows| => rows[i]);
    assert messages[..] == rows;
    ReverseInPlace(messages);
    assert messages[..] == HistoryPage(log, before, limit);
  }
}
