/** The client reducer: each case copies the state, then edits the copies. Every method is proved
    against the pure function that names its result. */
module FeedReducer {
  import opened FeedLog
  import opened IntCollections

  datatype FeedState = FeedState(
    messages: seq<Message>,
    nextExpected: int,
    buffer: map<int, Event>,
    isRepairing: bool,
    lastEventId: int)

  datatype Action =
    | InitMessages(rows: seq<Message>)
    | PrependHistory(rows: seq<Message>)
    | ReceiveEvent(event: Event)
    | GapRepaired(rows: seq<Message>)
    | SetRepairing(flag: bool)
    | SetLastEventId(id: int)

  const INITIAL_STATE := FeedState([], 0, map[], false, 0)

  // ---------------------------------------------------------------- ordering

  function Ords(s: seq<Message>): set<int> {
    set m | m in s :: m.feedOrdinal
  }

  function Ids(s: seq<Message>): set<string> {
    set m | m in s :: m.id
  }

  lemma IdsAppend(s: seq<Message>, m: Message)
    ensures Ids(s + [m]) == Ids(s) + {m.id}
  {
    assert forall x :: x in s + [m] <==> x in s || x == m;
  }

  lemma OrdsAppend(s: seq<Message>, m: Message)
    ensures Ords(s + [m]) == Ords(s) + {m.feedOrdinal}
  {
    assert forall x :: x in s + [m] <==> x in s || x == m;
  }

  ghost predicate StrictlySorted(s: seq<Message>) {
    forall i, j :: 0 <= i < j < |s| ==> s[i].feedOrdinal < s[j].feedOrdinal
  }

  ghost predicate Distinct(s: seq<Message>) {
    forall i, j :: 0 <= i < j < |s| ==> s[i].feedOrdinal != s[j].feedOrdinal
  }

  /** Stable insertion: an equal ordinal goes after the ones already there. */
  function InsertByOrdinal(m: Message, s: seq<Message>): seq<Message> {
    if s == [] then [m]
    else
      var last := |s| - 1;
      if s[last].feedOrdinal <= m.feedOrdinal then s + [m] else InsertByOrdinal(m, s[..last]) + [s[last]]
  }

  function SortByOrdinal(s: seq<Message>): seq<Message> {
    if s == [] then [] else InsertByOrdinal(s[|s| - 1], SortByOrdinal(s[..|s| - 1]))
  }

  lemma {:induction false} InsertElements(m: Message, s: seq<Message>)
    ensures |InsertByOrdinal(m, s)| == |s| + 1
    ensures forall x :: x in InsertByOrdinal(m, s) <==> x == m || x in s
  {
    if s != [] && s[|s| - 1].feedOrdinal > m.feedOrdinal {
      InsertElements(m, s[..|s| - 1]);
      assert s == s[..|s| - 1] + [s[|s| - 1]];
    }
  }

  lemma {:induction false} SortElements(s: seq<Message>)
    ensures |SortByOrdinal(s)| == |s|
    ensures forall x :: x in SortByOrdinal(s) <==> x in s
  {
    if s != [] {
      SortElements(s[..|s| - 1]);
      InsertElements(s[|s| - 1], SortByOrdinal(s[..|s| - 1]));
      assert s == s[..|s| - 1] + [s[|s| - 1]];
    }
  }

  lemma SnocStrict(s: seq<Message>, m: Message)
    requires StrictlySorted(s) && forall x :: x in s ==> x.feedOrdinal < m.feedOrdinal
    ensures StrictlySorted(s + [m])
  {
    assert forall i :: 0 <= i < |s| ==> s[i] in s;
  }

  lemma {:induction false} InsertStrict(m: Message, s: seq<Message>)
    requires StrictlySorted(s) && forall x :: x in s ==> x.feedOrdinal != m.feedOrdinal
    ensures StrictlySorted(InsertByOrdinal(m, s))
  {
    if s == [] {
    } else if s[|s| - 1].feedOrdinal < m.feedOrdinal {
      BelowLast(s);
      SnocStrict(s, m);
    } else {
      var init, last := s[..|s| - 1], s[|s| - 1];
      assert last in s && forall x :: x in init ==> x in s;
      InsertStrict(m, init);
      InsertElements(m, init);
      BelowLast(s);
      SnocStrict(InsertByOrdinal(m, init), last);
    }
  }

  lemma BelowLast(s: seq<Message>)
    requires StrictlySorted(s) && s != []
    ensures forall x :: x in s ==> x == s[|s| - 1] || x.feedOrdinal < s[|s| - 1].feedOrdinal
    ensures forall x :: x in s[..|s| - 1] ==> x.feedOrdinal < s[|s| - 1].feedOrdinal
  {
  }

  lemma {:induction false} SortStrict(s: seq<Message>)
    requires Distinct(s)
    ensures StrictlySorted(SortByOrdinal(s))
  {
    if s != [] {
      var init := s[..|s| - 1];
      SortStrict(init);
      SortElements(init);
      InsertStrict(s[|s| - 1], SortByOrdinal(init));
    }
  }

  // ---------------------------------------------------------------- frontier

  /** The least ordinal from `n` on that is missing from `keys`. */
  function Frontier(keys: set<int>, n: int): (f: int)
    ensures n <= f && f !in keys
    ensures forall k :: n <= k < f ==> k in keys
    decreases |keys|
  {
    if n in keys then
      var rest := keys - {n};
      var f := Frontier(rest, n + 1);
      assert forall k :: n <= k < f ==> k in keys by {
        forall k | n <= k < f ensures k in keys {
          if k > n { assert k in rest; }
        }
      }
      assert f !in rest;
      f
    else n
  }

  lemma FrontierUnique(keys: set<int>, n: int, f: int)
    requires n <= f && f !in keys
    requires forall k :: n <= k < f ==> k in keys
    ensures Frontier(keys, n) == f
  {
  }

  function Drained(buffer: map<int, Event>, from: int, end: int): (s: seq<Message>)
    requires from <= end && forall k :: from <= k < end ==> k in buffer
    decreases end - from
  {
    if from == end then [] else Drained(buffer, from, end - 1) + [buffer[end - 1].message]
  }

  function KeysFrom(buffer: map<int, Event>, n: int): map<int, Event> {
    map k | k in buffer && k >= n :: buffer[k]
  }

  /** The shared drain loop: render the contiguous run that starts at `from`. */
  method Drain(messages: seq<Message>, buffer: map<int, Event>, from: int)
    returns (rendered: seq<Message>, next: int, rest: map<int, Event>)
    ensures next == Frontier(buffer.Keys, from)
    ensures rendered == messages + Drained(buffer, from, next)
    ensures rest == Cleared(buffer, from, next)
  {
    rendered, next, rest := messages, from, buffer;
    ClearedNone(buffer, from);
    while next in rest
      invariant from <= next <= Frontier(buffer.Keys, from)
      invariant rendered == messages + Drained(buffer, from, next)
      invariant rest == Cleared(buffer, from, next)
      decreases |rest|
    {
      rendered := rendered + [rest[next].message];
      ClearedStep(buffer, from, next);
      rest := rest - {next};
      next := next + 1;
    }
  }

  /** The state after `messages` has been rendered up to `from` and the buffer drained from there. */
  function DrainFrom(state: FeedState, messages: seq<Message>, from: int): FeedState {
    var next := Frontier(state.buffer.Keys, from);
    state.(messages := messages + Drained(state.buffer, from, next),
           nextExpected := next,
           buffer := KeysFrom(state.buffer, next))
  }

  /** Drop the keys below the next expected ordinal. */
  method PurgeBelow(buffer: map<int, Event>, next: int) returns (kept: map<int, Event>)
    ensures kept == KeysFrom(buffer, next)
  {
    kept := buffer;
    var keys := buffer.Keys;
    while exists k :: k in keys
      invariant keys <= buffer.Keys
      invariant forall k :: k in kept <==> k in buffer && (k >= next || k in keys)
      invariant forall k :: k in kept ==> kept[k] == buffer[k]
      decreases |keys|
    {
      var k :| k in keys;
      if k < next {
        kept := kept - {k};
      }
      keys := keys - {k};
    }
    MapExt(kept, KeysFrom(buffer, next));
  }

  // ---------------------------------------------------------------- INIT_MESSAGES

  function WithoutOrds(buffer: map<int, Event>, rows: seq<Message>): map<int, Event> {
    map k | k in buffer && k !in Ords(rows) :: buffer[k]
  }

  function PageEnd(sorted: seq<Message>): int {
    if |sorted| > 0 then sorted[|sorted| - 1].feedOrdinal + 1 else 0
  }

  function Initialized(state: FeedState, rows: seq<Message>): FeedState {
    var sorted := SortByOrdinal(rows);
    DrainFrom(state.(buffer := WithoutOrds(state.buffer, sorted)), sorted, PageEnd(sorted))
  }

  method DeleteOrds(buffer: map<int, Event>, rows: seq<Message>) returns (kept: map<int, Event>)
    ensures kept == WithoutOrds(buffer, rows)
  {
    kept := buffer;
    for i := 0 to |rows|
      invariant forall k :: k in kept <==> k in buffer && k !in Ords(rows[..i])
      invariant forall k :: k in kept ==> kept[k] == buffer[k]
    {
      kept := kept - {rows[i].feedOrdinal};
      assert rows[..i + 1] == rows[..i] + [rows[i]];
      OrdsAppend(rows[..i], rows[i]);
    }
    assert rows[..|rows|] == rows;
    MapExt(kept, WithoutOrds(buffer, rows));
  }

  method Initialize(state: FeedState, rows: seq<Message>) returns (next: FeedState)
    ensures next == Initialized(state, rows)
  {
    var sorted := SortByOrdinal(rows);
    var buffer := DeleteOrds(state.buffer, sorted);
    var rendered, expected, rest := Drain(sorted, buffer, PageEnd(sorted));
    var kept := PurgeBelow(rest, expected);
    MapExt(kept, KeysFrom(buffer, expected));
    next := state.(messages := rendered, nextExpected := expected, buffer := kept);
  }

  // ---------------------------------------------------------------- RECEIVE_EVENT

  function Max(a: int, b: int): int { if a < b then b else a }

  predicate Rendered(messages: seq<Message>, event: Event) {
    exists m :: m in messages && (m.id == event.message.id || m.feedOrdinal == event.feedOrdinal)
  }

  function Received(state: FeedState, event: Event): FeedState {
    var seen := state.(lastEventId := Max(state.lastEventId, event.id));
    if event.feedOrdinal < state.nextExpected then
      if Rendered(state.messages, event) then seen
      else seen.(messages := SortByOrdinal(state.messages + [event.message]))
    else if event.feedOrdinal == state.nextExpected then
      DrainFrom(seen, state.messages + [event.message], state.nextExpected + 1)
    else
      seen.(buffer := state.buffer[event.feedOrdinal := event])
  }

  method Receive(state: FeedState, event: Event) returns (next: FeedState)
    ensures next == Received(state, event)
  {
    var seen := state.(lastEventId := Max(state.lastEventId, event.id));
    if event.feedOrdinal < state.nextExpected {
      if Rendered(state.messages, event) {
        return seen;
      }
      return seen.(messages := SortByOrdinal(state.messages + [event.message]));
    }
    if event.feedOrdinal == state.nextExpected {
      var rendered, expected, rest := Drain(state.messages + [event.message], state.buffer, state.nextExpected + 1);
      var kept := PurgeBelow(rest, expected);
      MapExt(kept, KeysFrom(state.buffer, expected));
      return seen.(messages := rendered, nextExpected := expected, buffer := kept);
    }
    return seen.(buffer := state.buffer[event.feedOrdinal := event]);
  }

  // ---------------------------------------------------------------- PREPEND_HISTORY

  /** Insertion-ordered map keyed by message id: a known id keeps its place and takes the new row. */
  function Upsert(s: seq<Message>, m: Message): seq<Message> {
    if s == [] then [m]
    else if s[0].id == m.id then [m] + s[1..]
    else [s[0]] + Upsert(s[1..], m)
  }

  function UpsertAll(s: seq<Message>, rows: seq<Message>): seq<Message> {
    if rows == [] then s else Upsert(UpsertAll(s, rows[..|rows| - 1]), rows[|rows| - 1])
  }

  function WithHistory(state: FeedState, rows: seq<Message>): FeedState {
    state.(messages := SortByOrdinal(UpsertAll(UpsertAll([], state.messages), rows)))
  }

  method UpsertEach(s: seq<Message>, rows: seq<Message>) returns (byId: seq<Message>)
    ensures byId == UpsertAll(s, rows)
  {
    byId := s;
    for i := 0 to |rows|
      invariant byId == UpsertAll(s, rows[..i])
    {
      byId := Upsert(byId, rows[i]);
      assert rows[..i + 1][..i] == rows[..i];
    }
    assert rows[..|rows|] == rows;
  }

  method Prepend(state: FeedState, rows: seq<Message>) returns (next: FeedState)
    ensures next == WithHistory(state, rows)
  {
    var byId := UpsertEach([], state.messages);
    byId := UpsertEach(byId, rows);
    next := state.(messages := SortByOrdinal(byId));
  }

  // ---------------------------------------------------------------- GAP_REPAIRED

  function ByOrdinal(rows: seq<Message>): (m: map<int, Message>)
    ensures m.Keys == Ords(rows)
    ensures forall k :: k in m ==> m[k] in rows && m[k].feedOrdinal == k
  {
    if rows == [] then map[]
    else
      var last := rows[|rows| - 1];
      assert rows == rows[..|rows| - 1] + [last];
      ByOrdinal(rows[..|rows| - 1])[last.feedOrdinal := last]
  }

  /** Fetched rows first, then the buffered events the fetch did not cover. */
  function Candidates(buffer: map<int, Event>, rows: seq<Message>): (c: map<int, Message>)
    ensures c.Keys == buffer.Keys + Ords(rows)
  {
    var fetched := ByOrdinal(rows);
    map k | k in buffer.Keys + fetched.Keys :: if k in fetched then fetched[k] else buffer[k].message
  }

  /** Append the candidates of [from, end) in order, skipping ids already rendered. */
  function MergeNew(messages: seq<Message>, c: map<int, Message>, from: int, end: int): seq<Message>
    requires from <= end && forall k :: from <= k < end ==> k in c
    decreases end - from
  {
    if from == end then messages
    else
      var merged := MergeNew(messages, c, from, end - 1);
      if c[end - 1].id in Ids(merged) then merged else merged + [c[end - 1]]
  }

  function Repaired(state: FeedState, rows: seq<Message>): FeedState {
    if rows == [] then state.(isRepairing := false)
    else
      var kept := WithoutOrds(state.buffer, rows);
      var c := Candidates(kept, rows);
      var next := Frontier(c.Keys, state.nextExpected);
      state.(messages := MergeNew(state.messages, c, state.nextExpected, next),
             nextExpected := next,
             buffer := map k | k in c && k > next :: if k in kept then kept[k] else Event(0, k, c[k]),
             isRepairing := false)
  }

  method Repair(state: FeedState, rows: seq<Message>) returns (next: FeedState)
    ensures next == Repaired(state, rows)
  {
    if rows == [] {
      return state.(isRepairing := false);
    }
    var kept := DeleteOrds(state.buffer, rows);
    var c := Candidates(kept, rows);
    var combined, expected, candidates, buffer := MergePrefix(state.messages, c, kept, state.nextExpected);
    buffer := RetainAhead(candidates, buffer, expected);
    buffer := PurgeBelow(buffer, expected);
    next := state.(messages := combined, nextExpected := expected, buffer := buffer, isRepairing := false);
    MapExt(buffer, Repaired(state, rows).buffer);
  }

  /** Step 3 of the repair: merge only the contiguous run that starts at the expected ordinal. */
  method MergePrefix(messages: seq<Message>, c: map<int, Message>, kept: map<int, Event>, from: int)
    returns (combined: seq<Message>, expected: int, candidates: map<int, Message>, buffer: map<int, Event>)
    ensures expected == Frontier(c.Keys, from)
    ensures combined == MergeNew(messages, c, from, expected)
    ensures candidates == Cleared(c, from, expected) && buffer == Cleared(kept, from, expected)
  {
    candidates, buffer, combined, expected := c, kept, messages, from;
    var existing := Ids(messages);
    ClearedNone(c, from);
    ClearedNone(kept, from);
    while expected in candidates
      invariant from <= expected <= Frontier(c.Keys, from)
      invariant combined == MergeNew(messages, c, from, expected)
      invariant existing == Ids(combined)
      invariant candidates == Cleared(c, from, expected) && buffer == Cleared(kept, from, expected)
      decreases |candidates|
    {
      assert expected in c;
      var m := candidates[expected];
      if m.id !in existing {
        IdsAppend(combined, m);
        combined := combined + [m];
        existing := existing + {m.id};
      }
      ClearedStep(c, from, expected);
      ClearedStep(kept, from, expected);
      candidates := candidates - {expected};
      buffer := buffer - {expected};
      expected := expected + 1;
    }
  }

  /** Step 4 of the repair: fetched rows beyond the gap go back to the buffer. */
  method RetainAhead(candidates: map<int, Message>, buffer: map<int, Event>, expected: int)
    returns (retained: map<int, Event>)
    ensures forall k :: k in retained <==> k in buffer || (k in candidates && k > expected)
    ensures forall k :: k in retained ==> retained[k] == if k in buffer then buffer[k] else Event(0, k, candidates[k])
  {
    retained := buffer;
    var keys := candidates.Keys;
    while exists k :: k in keys
      invariant keys <= candidates.Keys
      invariant forall k :: k in retained <==> k in buffer || (k in candidates && k > expected && k !in keys)
      invariant forall k :: k in retained ==> retained[k] == if k in buffer then buffer[k] else Event(0, k, candidates[k])
      decreases |keys|
    {
      var k :| k in keys;
      if k > expected && k !in retained {
        retained := retained[k := Event(0, k, candidates[k])];
      }
      keys := keys - {k};
    }
  }

  // ---------------------------------------------------------------- dispatch

  function Reduce(state: FeedState, action: Action): FeedState {
    match action
    case InitMessages(rows) => Initialized(state, rows)
    case PrependHistory(rows) => WithHistory(state, rows)
    case ReceiveEvent(event) => Received(state, event)
    case GapRepaired(rows) => Repaired(state, rows)
    case SetRepairing(flag) => state.(isRepairing := flag)
    case SetLastEventId(id) => state.(lastEventId := id)
  }

  method Dispatch(state: FeedState, action: Action) returns (next: FeedState)
    ensures next == Reduce(state, action)
  {
    match action {
      case InitMessages(rows) => next := Initialize(state, rows);
      case PrependHistory(rows) => next := Prepend(state, rows);
      case ReceiveEvent(event) => next := Receive(state, event);
      case GapRepaired(rows) => next := Repair(state, rows);
      case SetRepairing(flag) => next := state.(isRepairing := flag);
      case SetLastEventId(id) => next := state.(lastEventId := id);
    }
  }
}
