/**
  Real-time identity binding and the pager channel (zenith/websock.py),
  against the websocket gateway's state: the marker ("cookie") stamped on
  each connection, each connection's channel subscriptions, and the
  messages published so far.
 */
module Websock {
  import opened Wrappers
  import opened JsonValues
  import opened Decimal
  import opened KeyValue
  import opened Home

  /** A live websocket connection, as the gateway names it. */
  type Connection = nat

  const PagerChannel := "pager"
  const MarkerPrefix := "user:"

  /** 'user:{}'.format(uid): the marker hello stamps on a connection. */
  function Marker(uid: int): string { MarkerPrefix + IntToString(uid) }

  /** Reads a marker back: the literal prefix, then the uid's text. */
  function MarkerUid(marker: string): Option<int>
  {
    if |marker| >= |MarkerPrefix| && marker[..|MarkerPrefix|] == MarkerPrefix then
      ParseInt(marker[|MarkerPrefix|..])
    else
      None
  }

  /** The message Pager.send publishes: ['pager.message', name, text]. */
  function PagerMessage(name: Json, text: string): Json
  {
    Arr([Str("pager.message"), name, Str(text)])
  }

  /** The subscription map after subscribing conn to channel. */
  function WithSubscription(subs: map<Connection, set<string>>, conn: Connection, channel: string): map<Connection, set<string>>
  {
    subs[conn := (if conn in subs then subs[conn] else {}) + {channel}]
  }

  /** The gateway's state, as the output object exposes it to the program. */
  class Gateway {
    var markers: map<Connection, string>
    var subscriptions: map<Connection, set<string>>
    var published: seq<(string, Json)>

    constructor ()
      ensures markers == map[] && subscriptions == map[] && published == []
    {
      markers := map[];
      subscriptions := map[];
      published := [];
    }

    /** output.set_cookie(conn, marker). */
    method SetCookie(conn: Connection, marker: string)
      modifies this
      ensures markers == old(markers)[conn := marker]
      ensures subscriptions == old(subscriptions) && published == old(published)
    {
      markers := markers[conn := marker];
    }

    /** output.subscribe(conn, channel). */
    method Subscribe(conn: Connection, channel: string)
      modifies this
      ensures subscriptions == WithSubscription(old(subscriptions), conn, channel)
      ensures markers == old(markers) && published == old(published)
    {
      subscriptions := WithSubscription(subscriptions, conn, channel);
    }

    /** output.publish(channel, message). */
    method Publish(channel: string, message: Json)
      modifies this
      ensures published == old(published) + [(channel, message)]
      ensures markers == old(markers) && subscriptions == old(subscriptions)
    {
      published := published + [(channel, message)];
    }
  }

  class Pager {
    const output: Gateway

    constructor (output: Gateway)
      ensures this.output == output
    {
      this.output := output;
    }

    /** Publishes one pager message carrying the sender's name and the text. */
    method Send(user: User, text: string)
      modifies output
      ensures output.published == old(output.published) + [(PagerChannel, PagerMessage(user.name, text))]
      ensures output.markers == old(output.markers) && output.subscriptions == old(output.subscriptions)
    {
      output.Publish(PagerChannel, PagerMessage(user.name, text));
    }
  }

  /** What hello returns: nothing (None), {uid, name}, or an exception. */
  datatype HelloReply = NoReply | Reply(uid: int, name: Json) | Failed(error: Error)

  /** The marker hello stamps (if any) and what it returns. */
  datatype HelloOutcome = HelloOutcome(marker: Option<string>, reply: HelloReply)

  /** What WebsockAuth.hello does for a session id, given the store's contents. */
  function HelloSpec(data: map<string, Value>, sid: string): HelloOutcome
  {
    match Get(data, SessionKey(sid))
    case None => HelloOutcome(None, NoReply)
    case Some(v) =>
      if !Truthy(v) then HelloOutcome(None, NoReply)
      else
        match SessionUid(v)
        case None => HelloOutcome(None, Failed(ValueError))
        case Some(uid) =>
          match LoadSpec(Fresh(uid), data)
          case Loaded(p, None) => HelloOutcome(Some(Marker(uid)), Reply(uid, p.name))
          case Loaded(_, Some(e)) => HelloOutcome(Some(Marker(uid)), Failed(e))
  }

  class WebsockAuth {
    const store: Store
    const output: Gateway

    constructor (store: Store, output: Gateway)
      ensures this.store == store && this.output == output
    {
      this.store := store;
      this.output := output;
    }

    /**
      The handshake: resolves sid; only when the session value is non-empty
      does it parse the uid, stamp the connection and load the user.
     */
    method Hello(conn: Connection, sid: string) returns (reply: HelloReply)
      modifies output
      ensures reply == HelloSpec(store.data, sid).reply
      ensures output.markers ==
        match HelloSpec(store.data, sid).marker
        case Some(m) => old(output.markers)[conn := m]
        case None => old(output.markers)
      ensures output.subscriptions == old(output.subscriptions) && output.published == old(output.published)
      ensures store.data == old(store.data)
    {
      var stored := store.Lookup(SessionKey(sid));
      if stored.None? || !Truthy(stored.value) {
        return NoReply;
      }
      var uid := SessionUid(stored.value);
      if uid.None? {
        return Failed(ValueError);
      }
      output.SetCookie(conn, Marker(uid.value));
      var user := new User(uid.value, store);
      var err := user.Load();
      if err.Some? {
        return Failed(err.value);
      }
      return Reply(uid.value, user.name);
    }
  }

  class Websockets {
    const output: Gateway

    constructor (output: Gateway)
      ensures this.output == output
    {
      this.output := output;
    }

    /** Every new connection joins the pager channel. */
    method HandleConnect(conn: Connection)
      modifies output
      ensures output.subscriptions == WithSubscription(old(output.subscriptions), conn, PagerChannel)
      ensures output.markers == old(output.markers) && output.published == old(output.published)
    {
      output.Subscribe(conn, PagerChannel);
    }
  }

  // ---------------------------------------------------------------------
  // Properties of hello

  /** hello stamps a marker exactly when the session value is present, non-empty and an integer. */
  lemma HelloMarksOnlyOnSuccess(data: map<string, Value>, sid: string)
    ensures HelloSpec(data, sid).marker.Some? <==>
      && SessionKey(sid) in data
      && Truthy(data[SessionKey(sid)])
      && SessionUid(data[SessionKey(sid)]).Some?
    ensures HelloSpec(data, sid).marker.Some? ==>
      HelloSpec(data, sid).marker == Some(Marker(SessionUid(data[SessionKey(sid)]).value))
  {
  }

  /** An absent or empty session value: no marker, no reply, no error. */
  lemma HelloRejectsAbsentOrEmpty(data: map<string, Value>, sid: string)
    requires SessionKey(sid) !in data || data[SessionKey(sid)] == Raw("")
    ensures HelloSpec(data, sid) == HelloOutcome(None, NoReply)
  {
  }

  /** The marker reads back as the uid it was made from. */
  lemma MarkerRoundTrip(uid: int)
    ensures MarkerUid(Marker(uid)) == Some(uid)
  {
    var m := Marker(uid);
    assert m[..|MarkerPrefix|] == MarkerPrefix;
    assert m[|MarkerPrefix|..] == IntToString(uid);
    ParseIntRoundTrip(uid);
  }

  /**
    A reply names the uid embedded in the marker that was stamped, and the
    name loaded for that uid: None when no record exists.
   */
  lemma HelloReplyMatchesMarker(data: map<string, Value>, sid: string)
    requires HelloSpec(data, sid).reply.Reply?
    ensures var h := HelloSpec(data, sid);
      && h.marker.Some?
      && MarkerUid(h.marker.value) == Some(h.reply.uid)
      && SessionUid(data[SessionKey(sid)]) == Some(h.reply.uid)
      && (UserKey(h.reply.uid) !in data ==> h.reply.name == Null)
  {
    var h := HelloSpec(data, sid);
    assert SessionKey(sid) in data;
    var uid := SessionUid(data[SessionKey(sid)]).value;
    assert h.reply.uid == uid && h.marker == Some(Marker(uid));
    MarkerRoundTrip(uid);
    if UserKey(uid) !in data {
      assert LoadSpec(Fresh(uid), data) == Loaded(Fresh(uid), None);
    }
  }

  /** A stored name is what hello replies with. */
  lemma HelloReplyName(data: map<string, Value>, sid: string, uid: int)
    requires SessionKey(sid) in data && SessionUid(data[SessionKey(sid)]) == Some(uid)
    requires UserKey(uid) in data && data[UserKey(uid)].Record?
    requires Accepted(DictItems(data[UserKey(uid)].fields))
    requires LastValue(data[UserKey(uid)].fields, "name").Some?
    ensures HelloSpec(data, sid).reply == Reply(uid, LastValue(data[UserKey(uid)].fields, "name").value)
  {
    LoadCopiesFields(Fresh(uid), data, "name");
  }

  /**
    A user record with a member setattr refuses: hello has already stamped
    the marker when load raises, so the connection stays marked.
   */
  lemma HelloRefusedMemberStillMarks(data: map<string, Value>, sid: string, uid: int, k: nat)
    requires SessionKey(sid) in data && SessionUid(data[SessionKey(sid)]) == Some(uid)
    requires UserKey(uid) in data && data[UserKey(uid)].Record?
    requires var items := DictItems(data[UserKey(uid)].fields);
      k < |items| && Rejects(items[k].0, items[k].1) && Accepted(items[..k])
    ensures HelloSpec(data, sid) == HelloOutcome(Some(Marker(uid)), Failed(AttributeRejected))
  {
    LoadStopsAtRefusedMember(Fresh(uid), data, k);
  }

  /**
    hello and User.create disagree on an empty session value: hello treats
    it as not signed in, create tries int(b'') and raises.
   */
  lemma EmptySessionHelloVersusCreate(data: map<string, Value>, sid: string)
    requires SessionKey(sid) in data && data[SessionKey(sid)] == Raw("")
    ensures HelloSpec(data, sid) == HelloOutcome(None, NoReply)
    ensures CreateSpec(map["sid" := sid], data) == Raised(ValueError)
  {
    CreateEmptySession(map["sid" := sid], data);
  }

  // ---------------------------------------------------------------------
  // Properties of subscribe

  /** Subscribing adds the channel to that connection only, and twice is once. */
  lemma SubscribeAddsOnlyThatChannel(subs: map<Connection, set<string>>, conn: Connection, channel: string)
    ensures var s := WithSubscription(subs, conn, channel);
      && conn in s && channel in s[conn]
      && (conn in subs ==> s[conn] == subs[conn] + {channel})
      && (conn !in subs ==> s[conn] == {channel})
      && s.Keys == subs.Keys + {conn}
      && (forall c :: c in subs && c != conn ==> s[c] == subs[c])
    ensures WithSubscription(WithSubscription(subs, conn, channel), conn, channel) == WithSubscription(subs, conn, channel)
  {
  }
}
