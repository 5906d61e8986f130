/** The two renditions of a message: a live event shows the caller id as the sender's name, a stored
    row the display name. Which one a client ends up with depends on which arrives first. */
module FeedNames {
  import opened IntCollections
  import opened FeedLog
  import opened FeedReducer
  import opened FeedProtocol

  // ---------------------------------------------------------------- one outcome or several

  /** The same rendered list and the same messages waiting in the buffer. */
  ghost predicate SameContents(x: FeedState, y: FeedState) {
    && x.messages == y.messages
    && (forall k :: k in x.buffer <==> k in y.buffer)
    && (forall k :: k in x.buffer ==> x.buffer[k].message == y.buffer[k].message)
  }

  /** Two runs that end on the same log, offered exactly the ordinals `os`, and agree on what they
      inserted below the frontier. */
  ghost predicate Comparable(s: System, os: seq<int>, a: seq<Label>, b: seq<Label>) {
    && Legal(s, a, false) && Legal(s, b, false)
    && Final(s, a, false).log == Final(s, b, false).log
    && (forall o :: o in Offered(s, a, false) <==> o in os)
    && (forall o :: o in Offered(s, b, false) <==> o in os)
    && (forall o :: o < s.client.nextExpected ==> (o in Inserted(s, a, false) <==> o in Inserted(s, b, false)))
  }

  ghost predicate OneOutcome(s: System, os: seq<int>) {
    forall a, b :: Comparable(s, os, a, b) ==> SameContents(Final(s, a, false).client, Final(s, b, false).client)
  }

  /** Every offered row that is not on the screen yet has its sender id as display name. */
  ghost predicate NewOnesNamedById(s: System, os: seq<int>)
    requires forall o :: o in os ==> s.log.Has(o)
  {
    forall o :: o in os && o !in Ords(s.client.messages) ==> NamedById(s.log.At(o))
  }

  // ---------------------------------------------------------------- equal names make a run exact

  /** The label with the stored rendition in place of the live one. */
  ghost function Exactly(log: Log, l: Label): Label {
    if l.Deliver? && log.Has(l.event.feedOrdinal) then Deliver(l.event.(message := log.At(l.event.feedOrdinal))) else l
  }

  ghost function ExactRun(s: System, ls: seq<Label>): seq<Label>
    requires Legal(s, ls, false)
    decreases |ls|
  {
    if ls == [] then [] else [Exactly(s.log, ls[0])] + ExactRun(Apply(s, ls[0], false), ls[1..])
  }

  /** The name of a delivery does not matter: its row is rendered already, or both names are one. */
  ghost predicate NameIdle(s: System, l: Label) {
    l.Deliver? ==> l.event.feedOrdinal in Ords(s.client.messages)
                   || (s.log.Has(l.event.feedOrdinal) && NamedById(s.log.At(l.event.feedOrdinal)))
  }

  lemma ExactStep(s: System, l: Label, base: int)
    requires SysInv(s, true, base) && Enabled(s, l, false) && NameIdle(s, l)
    ensures var l' := Exactly(s.log, l);
            && Enabled(s, l', true) && Apply(s, l', true) == Apply(s, l, false)
            && Offers(s, l', true) == Offers(s, l, false) && Inserts(s, l', true) == Inserts(s, l, false)
  {
    if l.Deliver? {
      var e, e' := l.event, Exactly(s.log, l).event;
      if e.message != e'.message {
        var o := e.feedOrdinal;
        var m :| m in s.client.messages && m.feedOrdinal == o;
        assert Rendered(s.client.messages, e) && Rendered(s.client.messages, e');
      }
    }
  }

  lemma {:induction false} ExactRunIsSame(s: System, ls: seq<Label>, base: int)
    requires SysInv(s, true, base) && Legal(s, ls, false)
    requires forall o :: o in Offered(s, ls, false) && o !in Ords(s.client.messages) ==>
                           Final(s, ls, false).log.Has(o) && NamedById(Final(s, ls, false).log.At(o))
    ensures var ls' := ExactRun(s, ls);
            && Legal(s, ls', true) && Final(s, ls', true) == Final(s, ls, false)
            && (forall o :: o in Offered(s, ls', true) <==> o in Offered(s, ls, false))
            && (forall o :: o in Inserted(s, ls', true) <==> o in Inserted(s, ls, false))
    decreases |ls|
  {
    hide Apply, Enabled, SysInv, Exactly, Offers, Inserts;
    if ls != [] {
      var l, s1 := ls[0], Apply(s, ls[0], false);
      IdleFirst(s, ls, base);
      ExactStep(s, l, base);
      StepSafe(s, Exactly(s.log, l), true, base);
      RenderedStays(s, Exactly(s.log, l), base);
      ExactRunIsSame(s1, ls[1..], base);
      var ls' := ExactRun(s, ls);
      assert ls'[0] == Exactly(s.log, l) && ls'[1..] == ExactRun(s1, ls[1..]);
    }
  }

  lemma IdleFirst(s: System, ls: seq<Label>, base: int)
    requires SysInv(s, true, base) && Legal(s, ls, false) && ls != []
    requires forall o :: o in Offered(s, ls, false) && o !in Ords(s.client.messages) ==>
                           Final(s, ls, false).log.Has(o) && NamedById(Final(s, ls, false).log.At(o))
    ensures NameIdle(s, ls[0])
  {
    if ls[0].Deliver? {
      var o := ls[0].event.feedOrdinal;
      assert o in Offers(s, ls[0], false) && o in Offered(s, ls, false);
      LogOnlyGrows(s, ls, false);
    }
  }

  lemma {:induction false} LogOnlyGrows(s: System, ls: seq<Label>, exact: bool)
    requires Legal(s, ls, exact)
    ensures var log := Final(s, ls, exact).log;
            log.origin == s.log.origin && s.log.rows <= log.rows && forall o :: s.log.Has(o) ==> log.Has(o) && log.At(o) == s.log.At(o)
    decreases |ls|
  {
    if ls != [] {
      assert var log := Apply(s, ls[0], exact).log; log.origin == s.log.origin && s.log.rows <= log.rows;
      LogOnlyGrows(Apply(s, ls[0], exact), ls[1..], exact);
    }
  }

  lemma RenderedStays(s: System, l: Label, base: int)
    requires SysInv(s, true, base) && Enabled(s, l, true)
    ensures forall o :: o in Ords(s.client.messages) ==> o in Ords(Apply(s, l, true).client.messages)
  {
    hide Apply;
    StepSafe(s, l, true, base);
  }

  lemma NamedMeansOneOutcome(s: System, base: int, os: seq<int>, a: seq<Label>, b: seq<Label>)
    requires SysInv(s, true, base) && (forall o :: o in os ==> s.log.Has(o)) && NewOnesNamedById(s, os)
    requires Comparable(s, os, a, b)
    ensures SameContents(Final(s, a, false).client, Final(s, b, false).client)
  {
    hide Legal, Offered, Inserted, Final, SysInv, ExactRun;
    LogOnlyGrows(s, a, false);
    LogOnlyGrows(s, b, false);
    ExactRunIsSame(s, a, base);
    ExactRunIsSame(s, b, base);
    var a', b' := ExactRun(s, a), ExactRun(s, b);
    Confluence(s, a', b', true, base);
    RunSafe(s, a', true, base);
    RunSafe(s, b', true, base);
    ExactBuffers(Final(s, a', true), Final(s, b', true), base);
  }

  lemma ExactBuffers(x: System, y: System, base: int)
    requires SysInv(x, true, base) && SysInv(y, true, base) && x.log == y.log && x.client.buffer.Keys == y.client.buffer.Keys
    ensures forall k :: k in x.client.buffer <==> k in y.client.buffer
    ensures forall k :: k in x.client.buffer ==> x.client.buffer[k].message == y.client.buffer[k].message
  {
    forall k ensures k in x.client.buffer <==> k in y.client.buffer {
      assert k in x.client.buffer.Keys <==> k in y.client.buffer.Keys;
    }
  }

  // ---------------------------------------------------------------- different names make two outcomes

  ghost function Shown(log: Log, o: int, live: bool): Event
    requires log.Has(o)
  {
    Event(1, o, if live then Live(log.At(o)) else log.At(o))
  }

  /** One delivery of each ordinal; that of `x` in its live rendition if asked. */
  ghost function Deliveries(log: Log, os: seq<int>, x: int, live: bool): seq<Label>
    requires forall o :: o in os ==> log.Has(o)
  {
    if os == [] then []
    else
      assert os[0] in os && forall o :: o in os[1..] ==> o in os;
      [Deliver(Shown(log, os[0], live && os[0] == x))] + Deliveries(log, os[1..], x, live)
  }

  lemma {:induction false} DeliveriesLegal(s: System, os: seq<int>, x: int, live: bool, exact: bool)
    requires s.log.Valid() && (forall o :: o in os ==> s.log.Has(o)) && (exact ==> !live)
    ensures var ls := Deliveries(s.log, os, x, live);
            && Legal(s, ls, exact) && Final(s, ls, exact).log == s.log
            && (forall o :: o in Offered(s, ls, exact) <==> o in os)
            && (forall o :: o in Inserted(s, ls, exact) <==> o in os)
    decreases |os|
  {
    if os != [] {
      assert os[0] in os;
      var ls := Deliveries(s.log, os, x, live);
      var l := Deliver(Shown(s.log, os[0], live && os[0] == x));
      assert ls[0] == l && ls[1..] == Deliveries(s.log, os[1..], x, live);
      assert Enabled(s, l, exact);
      DeliveriesLegal(Apply(s, l, exact), os[1..], x, live, exact);
      assert forall o :: o in os <==> o == os[0] || o in os[1..];
    }
  }

  /** The row with ordinal x appears in its live rendition or not at all. */
  ghost predicate OnlyLive(log: Log, x: int, c: FeedState)
    requires log.Has(x)
  {
    && (forall m :: m in c.messages && m.feedOrdinal == x ==> m == Live(log.At(x)))
    && (x in c.buffer ==> c.buffer[x].message == Live(log.At(x)))
  }

  /** What a received event renders comes from the list, the event or the buffer. */
  lemma ReceivedFrom(c: FeedState, e: Event, m: Message)
    requires m in Received(c, e).messages
    ensures m in c.messages || m == e.message
            || exists k :: c.nextExpected < k && k in c.buffer && c.buffer[k].message == m
  {
    if e.feedOrdinal < c.nextExpected {
      SortElements(c.messages + [e.message]);
    } else if e.feedOrdinal == c.nextExpected {
      var end := Frontier(c.buffer.Keys, c.nextExpected + 1);
      DrainedFrom(c.buffer, c.nextExpected + 1, end, m);
    }
  }

  lemma {:induction false} DrainedFrom(buffer: map<int, Event>, from: int, end: int, m: Message)
    requires from <= end && forall k :: from <= k < end ==> k in buffer
    ensures m in Drained(buffer, from, end) ==> exists k :: from <= k && k in buffer && buffer[k].message == m
    decreases end - from
  {
    if from < end {
      DrainedFrom(buffer, from, end - 1, m);
      assert end - 1 in buffer;
    }
  }

  lemma OnlyLiveStays(log: Log, base: int, c: FeedState, e: Event, x: int)
    requires log.Valid() && log.Has(x) && ClientInv(log, false, base, c)
    requires e.message.feedOrdinal == e.feedOrdinal && (e.feedOrdinal == x ==> e.message == Live(log.At(x)))
    requires OnlyLive(log, x, c)
    ensures OnlyLive(log, x, Received(c, e))
  {
    hide Received;
    forall m | m in Received(c, e).messages && m.feedOrdinal == x ensures m == Live(log.At(x)) {
      ReceivedFrom(c, e, m);
    }
    ReceivedBuffer(c, e, x);
  }

  /** The first delivery of an unrendered row decides. */
  lemma OnlyLiveStarts(log: Log, base: int, c: FeedState, x: int)
    requires log.Valid() && log.Has(x) && ClientInv(log, true, base, c) && x !in Ords(c.messages)
    ensures OnlyLive(log, x, Received(c, Shown(log, x, true)))
  {
    var e := Shown(log, x, true);
    AheadRendersNothing(c, e);
    ReceivedBuffer(c, e, x);
    hide Received;
    assert forall m :: m in c.messages ==> m.feedOrdinal != x;
    forall m | m in Received(c, e).messages && m.feedOrdinal == x ensures m == Live(log.At(x)) {
      ReceivedFrom(c, e, m);
    }
  }

  lemma AheadRendersNothing(c: FeedState, e: Event)
    ensures e.feedOrdinal > c.nextExpected ==> Received(c, e).messages == c.messages
  {
  }

  lemma ReceivedBuffer(c: FeedState, e: Event, x: int)
    ensures x in Received(c, e).buffer ==> (e.feedOrdinal == x && Received(c, e).buffer[x] == e) || (x in c.buffer && Received(c, e).buffer[x] == c.buffer[x])
    ensures e.feedOrdinal == x && x > c.nextExpected ==> x in Received(c, e).buffer && Received(c, e).buffer[x] == e
  {
  }

  lemma {:induction false} OnlyLiveRun(s: System, os: seq<int>, x: int, base: int)
    requires SysInv(s, false, base) && (forall o :: o in os ==> s.log.Has(o)) && s.log.Has(x) && OnlyLive(s.log, x, s.client)
    ensures var ls := Deliveries(s.log, os, x, true); Legal(s, ls, false) && OnlyLive(s.log, x, Final(s, ls, false).client)
    decreases |os|
  {
    DeliveriesLegal(s, os, x, true, false);
    if os != [] {
      assert os[0] in os;
      var ls, e := Deliveries(s.log, os, x, true), Shown(s.log, os[0], os[0] == x);
      assert ls[0] == Deliver(e) && ls[1..] == Deliveries(s.log, os[1..], x, true);
      StepSafe(s, ls[0], false, base);
      hide SysInv, OnlyLive, Received;
      OnlyLiveStep(s, e, x, base);
      OnlyLiveRun(Apply(s, ls[0], false), os[1..], x, base);
    }
  }

  lemma OnlyLiveStep(s: System, e: Event, x: int, base: int)
    requires SysInv(s, false, base) && s.log.Has(x) && Enabled(s, Deliver(e), false)
    requires (e.feedOrdinal == x ==> e.message == Live(s.log.At(x))) && OnlyLive(s.log, x, s.client)
    ensures OnlyLive(s.log, x, Apply(s, Deliver(e), false).client)
  {
    hide Received, OnlyLive;
    OnlyLiveStays(s.log, base, s.client, e, x);
  }

  lemma ExactInvWeakens(s: System, base: int)
    requires SysInv(s, true, base)
    ensures SysInv(s, false, base)
  {
    assert forall m :: Genuine(s.log, true, m) ==> Genuine(s.log, false, m);
  }

  /** Two runs that deliver the same ordinals, once with the live rendition of x and once with stored
      rows only, and end differently. */
  lemma TwoOutcomes(s: System, base: int, os: seq<int>, x: int) returns (a: seq<Label>, b: seq<Label>)
    requires SysInv(s, true, base) && forall o :: o in os ==> s.log.Has(o)
    requires x in os && x !in Ords(s.client.messages) && !NamedById(s.log.At(x))
    ensures Comparable(s, os, a, b)
    ensures !SameContents(Final(s, a, false).client, Final(s, b, false).client)
  {
    var all := [x] + os;
    assert all[0] == x && all[1..] == os && forall o :: o in all <==> o in os;
    a, b := Deliveries(s.log, all, x, false), Deliveries(s.log, all, x, true);
    DeliveriesLegal(s, all, x, false, false);
    DeliveriesLegal(s, all, x, true, false);
    ExactInvWeakens(s, base);
    StoredEnd(s, base, all, x);
    LiveEnd(s, base, os, x, all);
    hide Deliveries, Legal, Final, Offered, Inserted, SysInv;
  }

  /** With stored rows only, x ends up rendered or buffered as the stored row. */
  lemma StoredEnd(s: System, base: int, all: seq<int>, x: int)
    requires SysInv(s, true, base) && (forall o :: o in all ==> s.log.Has(o)) && x in all
    ensures var a := Deliveries(s.log, all, x, false);
            Legal(s, a, false) && HoldsAs(Final(s, a, false).client, s.log.At(x))
  {
    DeliveriesLegal(s, all, x, false, true);
    DeliveriesLegal(s, all, x, false, false);
    var a := Deliveries(s.log, all, x, false);
    ExactIsPlain(s, a);
    RunSafe(s, a, true, base);
    EndsHeld(s, a, true, base, x);
    var c := Final(s, a, true).client;
    if x in Ords(c.messages) {
      var m :| m in c.messages && m.feedOrdinal == x;
    }
  }

  lemma {:induction false} ExactIsPlain(s: System, ls: seq<Label>)
    requires Legal(s, ls, true)
    ensures Legal(s, ls, false) && Final(s, ls, false) == Final(s, ls, true)
    decreases |ls|
  {
    if ls != [] {
      assert Enabled(s, ls[0], false);
      ExactIsPlain(Apply(s, ls[0], true), ls[1..]);
    }
  }

  ghost predicate HoldsAs(c: FeedState, m: Message) {
    m in c.messages || exists k :: k in c.buffer && c.buffer[k].message == m
  }

  /** An offered row is rendered or buffered at the end. */
  lemma EndsHeld(s: System, ls: seq<Label>, exact: bool, base: int, x: int)
    requires SysInv(s, exact, base) && Legal(s, ls, exact) && x in Offered(s, ls, exact) && x in Inserted(s, ls, exact)
    ensures var c := Final(s, ls, exact).client; x in Ords(c.messages) || x in c.buffer
  {
    hide SysInv;
    RunSafe(s, ls, exact, base);
    var f := Final(s, ls, exact).client.nextExpected;
    assert f !in s.client.buffer.Keys + Offered(s, ls, exact);
  }

  /** With x live from the first delivery on, the stored row is nowhere. */
  lemma LiveEnd(s: System, base: int, os: seq<int>, x: int, all: seq<int>)
    requires SysInv(s, true, base) && (forall o :: o in all ==> s.log.Has(o)) && all == [x] + os
    requires x !in Ords(s.client.messages) && s.log.Has(x) && !NamedById(s.log.At(x))
    ensures var b := Deliveries(s.log, all, x, true);
            Legal(s, b, false) && !HoldsAs(Final(s, b, false).client, s.log.At(x))
  {
    DeliveriesLegal(s, all, x, true, false);
    ExactInvWeakens(s, base);
    var b := Deliveries(s.log, all, x, true);
    var l := Deliver(Shown(s.log, x, true));
    assert all[0] == x && all[1..] == os && forall o :: o in os ==> o in all;
    assert b[0] == l && b[1..] == Deliveries(s.log, os, x, true);
    OnlyLiveStarts(s.log, base, s.client, x);
    StepSafe(s, l, false, base);
    var s1 := Apply(s, l, false);
    OnlyLiveRun(s1, os, x, base);
    RunSafe(s1, b[1..], false, base);
    NotHeld(Final(s, b, false), base, x);
  }

  lemma NotHeld(s: System, base: int, x: int)
    requires SysInv(s, false, base) && s.log.Has(x) && OnlyLive(s.log, x, s.client) && !NamedById(s.log.At(x))
    ensures !HoldsAs(s.client, s.log.At(x))
  {
    assert s.log.At(x).feedOrdinal == x;
  }

  /** The rendition a client ends up with is independent of order, repetition and kind of delivery
      exactly when every new row's display name is its sender id. */
  lemma NamesDecide(s: System, base: int, os: seq<int>)
    requires SysInv(s, true, base) && forall o :: o in os ==> s.log.Has(o)
    ensures OneOutcome(s, os) <==> NewOnesNamedById(s, os)
  {
    hide SysInv, SameContents, Legal, Offered, Inserted, Final;
    if NewOnesNamedById(s, os) {
      forall a, b | Comparable(s, os, a, b) ensures SameContents(Final(s, a, false).client, Final(s, b, false).client) {
        NamedMeansOneOutcome(s, base, os, a, b);
      }
    } else {
      var x :| x in os && x !in Ords(s.client.messages) && !NamedById(s.log.At(x));
      var a, b := TwoOutcomes(s, base, os, x);
    }
  }
}
