/** One send on its own: ordinals from the counter rows, drafts bound, one message and one event. */
module SendDb {
  import opened Options
  import FeedLog

  /** `at` is the database clock of the transaction. */
  datatype Request = Request(caller: string, channel: string, text: string, media: seq<string>, at: nat)

  /** Live messages are named after their channel and feed ordinal. */
  datatype MessageId = Live(channel: string, feedOrdinal: nat)

  /** A media row; a draft has no parent message and can be bound until it expires. */
  datatype Media = Media(channel: string, owner: string, parent: Option<MessageId>, expires: nat)

  datatype Row = Row(id: MessageId, sender: string, body: string, ordinal: nat, event: nat, media: seq<string>)

  datatype Db = Db(channelLast: map<string, nat>, feedLast: nat, rows: seq<Row>, media: map<string, Media>)

  predicate Bindable(media: map<string, Media>, req: Request, id: string) {
    && id in media && media[id].channel == req.channel && media[id].owner == req.caller
    && media[id].parent == None && media[id].expires > req.at
  }

  /** The drafts bound one after another; a draft that is not available any more fails the send. */
  function Bind(media: map<string, Media>, req: Request, msg: MessageId, ids: seq<string>): (r: Option<map<string, Media>>) {
    if ids == [] then Some(media)
    else
      var before := Bind(media, req, msg, ids[..|ids| - 1]);
      var id := ids[|ids| - 1];
      if before.None? || !Bindable(before.value, req, id) then None
      else Some(before.value[id := before.value[id].(parent := Some(msg))])
  }

  ghost predicate Distinct(s: seq<string>) {
    forall i, j :: 0 <= i < j < |s| ==> s[i] != s[j]
  }

  ghost predicate AllBindable(media: map<string, Media>, req: Request, ids: seq<string>) {
    Distinct(ids) && forall id :: id in ids ==> Bindable(media, req, id)
  }

  /** Exactly the listed drafts get the message as their parent. */
  ghost predicate BoundTo(media: map<string, Media>, media': map<string, Media>, msg: MessageId, ids: seq<string>) {
    && (forall id :: id in media' <==> id in media)
    && forall id :: id in media ==> media'[id] == if id in ids then media[id].(parent := Some(msg)) else media[id]
  }

  /** All or nothing: binding succeeds exactly when every listed draft is free, unexpired, the
      caller's own, in the channel, and listed once. */
  lemma {:induction false} BindIff(media: map<string, Media>, req: Request, msg: MessageId, ids: seq<string>)
    ensures Bind(media, req, msg, ids).Some? <==> AllBindable(media, req, ids)
    ensures Bind(media, req, msg, ids).Some? ==> BoundTo(media, Bind(media, req, msg, ids).value, msg, ids)
  {
    if ids != [] {
      var shorter, id := ids[..|ids| - 1], ids[|ids| - 1];
      assert ids == shorter + [id];
      BindIff(media, req, msg, shorter);
      BindIffStep(media, req, msg, shorter, id);
    }
  }

  lemma BindIffStep(media: map<string, Media>, req: Request, msg: MessageId, shorter: seq<string>, id: string)
    requires Bind(media, req, msg, shorter).Some? <==> AllBindable(media, req, shorter)
    requires Bind(media, req, msg, shorter).Some? ==> BoundTo(media, Bind(media, req, msg, shorter).value, msg, shorter)
    ensures AllBindable(media, req, shorter + [id]) <==>
              AllBindable(media, req, shorter) && Bindable(Bind(media, req, msg, shorter).value, req, id)
  {
    var ids := shorter + [id];
    assert forall x :: x in ids <==> x in shorter || x == id;
    assert ids[|ids| - 1] == id;
    if AllBindable(media, req, ids) {
      assert forall i, j :: 0 <= i < j < |shorter| ==> ids[i] == shorter[i] && ids[j] == shorter[j];
      assert id !in shorter;
    }
  }

  /** The whole transaction, or nothing. */
  function Sent(db: Db, req: Request, event: nat): (r: Option<Db>) {
    if req.channel !in db.channelLast then None
    else
      var ordinal, feed := db.channelLast[req.channel] + 1, db.feedLast + 1;
      var id := Live(req.channel, feed);
      var bound := Bind(db.media, req, id, req.media);
      if bound.None? then None
      else Some(Db(db.channelLast[req.channel := ordinal], feed, db.rows + [Row(id, req.caller, req.text, ordinal, event, req.media)], bound.value))
  }

  // ---------------------------------------------------------------- what every send keeps

  function CountIn(rows: seq<Row>, channel: string): nat {
    if rows == [] then 0 else CountIn(rows[..|rows| - 1], channel) + if rows[|rows| - 1].id.channel == channel then 1 else 0
  }

  /** Feed ordinals are the interval above `base`, in commit order, up to the counter. */
  ghost predicate FeedDense(db: Db, base: nat) {
    && db.feedLast == base + |db.rows|
    && forall i :: 0 <= i < |db.rows| ==> db.rows[i].id.feedOrdinal == base + 1 + i
  }

  /** So are the ordinals of each channel above its own base. */
  ghost predicate ChannelsDense(db: Db, bases: map<string, nat>) {
    && (forall c :: c in db.channelLast <==> c in bases)
    && (forall c :: c in bases ==> db.channelLast[c] == bases[c] + CountIn(db.rows, c))
    && forall i :: 0 <= i < |db.rows| ==>
                     var c := db.rows[i].id.channel; c in bases && db.rows[i].ordinal == bases[c] + CountIn(db.rows[..i], c) + 1
  }

  /** Event ids grow with the feed ordinals. */
  ghost predicate EventsAscend(db: Db) {
    forall i, j :: 0 <= i < j < |db.rows| ==> db.rows[i].event < db.rows[j].event
  }

  /** A message owns every draft it lists, and a draft whose parent is a live message is listed there. */
  ghost predicate MediaOwned(db: Db) {
    forall i, id :: 0 <= i < |db.rows| && id in db.rows[i].media ==> id in db.media && db.media[id].parent == Some(db.rows[i].id)
  }

  ghost predicate MediaListed(db: Db, base: nat) {
    && (forall i :: 0 <= i < |db.rows| ==> Distinct(db.rows[i].media))
    && forall id :: id in db.media && db.media[id].parent.Some? && db.media[id].parent.value.feedOrdinal > base ==> Listed(db, id)
  }

  ghost predicate Listed(db: Db, id: string)
    requires id in db.media && db.media[id].parent.Some?
  {
    exists i :: 0 <= i < |db.rows| && db.media[id].parent.value == db.rows[i].id && id in db.rows[i].media
  }

  ghost predicate DbInv(db: Db, base: nat, bases: map<string, nat>) {
    FeedDense(db, base) && ChannelsDense(db, bases) && EventsAscend(db) && MediaOwned(db) && MediaListed(db, base)
  }

  ghost predicate NewEvent(db: Db, event: nat) {
    forall i :: 0 <= i < |db.rows| ==> db.rows[i].event < event
  }

  lemma OrdinalsStayDense(db: Db, req: Request, event: nat, base: nat)
    requires FeedDense(db, base) && EventsAscend(db) && NewEvent(db, event) && Sent(db, req, event).Some?
    ensures var db' := Sent(db, req, event).value; FeedDense(db', base) && EventsAscend(db')
  {
    hide Bind;
  }

  lemma CountStep(rows: seq<Row>, row: Row, channel: string)
    ensures CountIn(rows + [row], channel) == CountIn(rows, channel) + if row.id.channel == channel then 1 else 0
  {
    assert (rows + [row])[..|rows|] == rows;
  }

  lemma ChannelsStayDense(db: Db, req: Request, event: nat, bases: map<string, nat>)
    requires ChannelsDense(db, bases) && Sent(db, req, event).Some?
    ensures ChannelsDense(Sent(db, req, event).value, bases)
  {
    hide Bind, CountIn;
    var db' := Sent(db, req, event).value;
    var row := db'.rows[|db.rows|];
    assert db'.rows == db.rows + [row];
    forall c | c in bases ensures db'.channelLast[c] == bases[c] + CountIn(db'.rows, c) {
      CountStep(db.rows, row, c);
    }
    forall i | 0 <= i < |db'.rows|
      ensures var c := db'.rows[i].id.channel; c in bases && db'.rows[i].ordinal == bases[c] + CountIn(db'.rows[..i], c) + 1
    {
      assert db'.rows[..i] == db.rows[..i];
      if i == |db.rows| {
        assert db.rows[..i] == db.rows;
      }
    }
  }

  lemma MediaStaysOwned(db: Db, req: Request, event: nat, base: nat)
    requires FeedDense(db, base) && MediaOwned(db) && MediaListed(db, base)
    requires Sent(db, req, event).Some?
    ensures var db' := Sent(db, req, event).value; MediaOwned(db') && MediaListed(db', base)
  {
    hide Bind, FeedDense;
    var db' := Sent(db, req, event).value;
    var id := Live(req.channel, db.feedLast + 1);
    BindIff(db.media, req, id, req.media);
    forall m | m in db'.media && db'.media[m].parent.Some? && db'.media[m].parent.value.feedOrdinal > base ensures Listed(db', m) {
      if m in req.media {
        assert db'.rows[|db.rows|].id == id;
      } else {
        assert Listed(db, m);
        var i :| 0 <= i < |db.rows| && db.media[m].parent.value == db.rows[i].id && m in db.rows[i].media;
        assert db'.rows[i] == db.rows[i];
      }
    }
  }

  lemma SentKeeps(db: Db, req: Request, event: nat, base: nat, bases: map<string, nat>)
    requires DbInv(db, base, bases) && NewEvent(db, event) && Sent(db, req, event).Some?
    ensures DbInv(Sent(db, req, event).value, base, bases)
    ensures NewEvent(Sent(db, req, event).value, event + 1)
  {
    OrdinalsStayDense(db, req, event, base);
    ChannelsStayDense(db, req, event, bases);
    MediaStaysOwned(db, req, event, base);
    hide Bind;
  }

  // ---------------------------------------------------------------- the log that clients read

  /** A stored row as a read shows it: the display name is joined in. */
  function AsRow(row: Row, name: MessageId -> string, display: string -> string): FeedLog.Message {
    FeedLog.Message(name(row.id), row.id.feedOrdinal, row.body, row.sender, display(row.sender))
  }

  /** The event that the handler of the send publishes: the caller id is the name. */
  function LiveEvent(row: Row, name: MessageId -> string): FeedLog.Event {
    FeedLog.Event(row.event, row.id.feedOrdinal, FeedLog.Message(name(row.id), row.id.feedOrdinal, row.body, row.sender, row.sender))
  }

  /** The feed as the read endpoints show it: the imported rows, then the sent ones. */
  function AsLog(seeded: FeedLog.Log, db: Db, name: MessageId -> string, display: string -> string): FeedLog.Log {
    FeedLog.Log(seeded.origin, seeded.rows + seq(|db.rows|, i requires 0 <= i < |db.rows| => AsRow(db.rows[i], name, display)))
  }

  /** What the client protocol assumes of the log: dense ordinals in bijection with the ids, over the
      imported and the sent rows together, when the counter starts at the last imported ordinal. */
  lemma AllocationGivesValidLog(seeded: FeedLog.Log, db: Db, base: nat, name: MessageId -> string, display: string -> string)
    requires seeded.Valid() && seeded.End() == base + 1 && FeedDense(db, base)
    requires forall a, b :: name(a) == name(b) ==> a == b
    requires forall m, id :: m in seeded.rows ==> m.id != name(id)
    ensures AsLog(seeded, db, name, display).Valid()
    ensures AsLog(seeded, db, name, display).End() == db.feedLast + 1
  {
    var log := AsLog(seeded, db, name, display);
    forall i, j | 0 <= i < j < |log.rows| ensures log.rows[i].id != log.rows[j].id {
      if i < |seeded.rows| {
        assert log.rows[i] == seeded.rows[i] && seeded.rows[i] in seeded.rows;
      } else {
        assert db.rows[i - |seeded.rows|].id != db.rows[j - |seeded.rows|].id;
      }
    }
  }

  /** A published event is the live rendition of its logged row, and agrees with it exactly when the
      caller's display name is the caller id. */
  lemma LiveEventIsRendition(seeded: FeedLog.Log, db: Db, base: nat, name: MessageId -> string, display: string -> string, k: nat)
    requires seeded.End() == base + 1 && FeedDense(db, base) && k < |db.rows|
    ensures var log, e := AsLog(seeded, db, name, display), LiveEvent(db.rows[k], name);
            && log.Has(e.feedOrdinal) && e.message.feedOrdinal == e.feedOrdinal
            && e.message == FeedLog.Live(log.At(e.feedOrdinal))
            && (FeedLog.NamedById(log.At(e.feedOrdinal)) <==> display(db.rows[k].sender) == db.rows[k].sender)
  {
    var log := AsLog(seeded, db, name, display);
    assert log.rows[|seeded.rows| + k] == AsRow(db.rows[k], name, display);
  }

  // ---------------------------------------------------------------- the transaction in place

  class Store {
    var channelLast: map<string, nat>
    var feedLast: nat
    var rows: seq<Row>
    var media: map<string, Media>

    function Now(): Db
      reads this
    {
      Db(channelLast, feedLast, rows, media)
    }

    /** Binds the drafts one by one and stops at the first that is unavailable. */
    method BindDrafts(req: Request, msg: MessageId) returns (ok: bool)
      modifies this`media
      ensures ok <==> AllBindable(old(media), req, req.media)
      ensures ok ==> Bind(old(media), req, msg, req.media) == Some(media)
    {
      ghost var media0 := media;
      var i := 0;
      while i < |req.media|
        invariant 0 <= i <= |req.media|
        invariant Bind(media0, req, msg, req.media[..i]) == Some(media)
      {
        var id := req.media[i];
        assert req.media[..i + 1][..i] == req.media[..i];
        if !Bindable(media, req, id) {
          BindIff(media0, req, msg, req.media[..i + 1]);
          NotAllBindable(media0, req, req.media, i + 1);
          return false;
        }
        media := media[id := media[id].(parent := Some(msg))];
        i := i + 1;
      }
      assert req.media[..i] == req.media;
      BindIff(media0, req, msg, req.media);
      ok := true;
    }

    /** Commits everything, or rolls everything back. */
    method Send(req: Request, event: nat) returns (ok: bool)
      modifies this
      ensures ok <==> Sent(old(Now()), req, event).Some?
      ensures ok ==> Now() == Sent(old(Now()), req, event).value
      ensures !ok ==> Now() == old(Now())
      ensures ok <==> req.channel in old(channelLast) && AllBindable(old(media), req, req.media)
    {
      hide Bind, AllBindable;
      ghost var db := Now();
      if req.channel !in channelLast {
        return false;
      }
      var savepoint := Now();
      var ordinal := channelLast[req.channel] + 1;
      channelLast := channelLast[req.channel := ordinal];
      feedLast := feedLast + 1;
      var id := Live(req.channel, feedLast);
      BindIff(media, req, id, req.media);
      ok := BindDrafts(req, id);
      if !ok {
        channelLast, feedLast, media := savepoint.channelLast, savepoint.feedLast, savepoint.media;
        return;
      }
      rows := rows + [Row(id, req.caller, req.text, ordinal, event, req.media)];
    }
  }

  lemma NotAllBindable(media: map<string, Media>, req: Request, ids: seq<string>, i: nat)
    requires i <= |ids| && !AllBindable(media, req, ids[..i])
    ensures !AllBindable(media, req, ids)
  {
    assert forall id :: id in ids[..i] ==> id in ids;
  }
}
