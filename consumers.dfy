/**
 * ChatConsumer of consumers.py: a per-connection state machine with the
 * handlers connect, disconnect, receive and chat_message. Each handler is
 * one atomic step on the shared channel layer and the message store.
 */
module Consumers {
  import opened Base
  import opened Decimal
  import opened Messages
  import opened Channels

  /** `scope['user']`: the anonymous user (whose id is None) or a signed-in user. */
  datatype ScopeUser = AnonymousUser | AuthenticatedUser(id: UserId) {
    predicate IsAuthenticated() { AuthenticatedUser? }
  }

  /** Lifecycle of one websocket connection as far as the consumer drives it. */
  datatype Lifecycle = Connecting | Accepted | Closed

  /** What an f-string prints for `user.id`: the decimal id, or `None`. */
  function IdText(u: ScopeUser): (s: string)
    ensures u.IsAuthenticated() ==> AllDigits(s)
    ensures !u.IsAuthenticated() ==> s == "None"
  {
    match u
    case AnonymousUser => "None"
    case AuthenticatedUser(id) => NatToString(id)
  }

  /**
   * The room key `chat_{user.id}_{chat_user_id}`. Own id first, peer id
   * second: the key is not symmetric in the two participants.
   */
  function RoomKey(u: ScopeUser, peer: nat): string {
    "chat_" + IdText(u) + "_" + NatToString(peer)
  }

  predicate NoUnderscore(s: string) { forall i :: 0 <= i < |s| ==> s[i] != '_' }

  /** Position of the first underscore of `s`, or |s| when there is none. */
  function FirstUnderscore(s: string): (k: nat)
    ensures k <= |s|
  {
    if s == [] then 0 else if s[0] == '_' then 0 else 1 + FirstUnderscore(s[1..])
  }

  lemma {:induction false} FirstUnderscoreAfter(x: string, y: string)
    requires NoUnderscore(x)
    ensures FirstUnderscore(x + "_" + y) == |x|
  {
    if x != [] {
      assert (x + "_" + y)[1..] == x[1..] + "_" + y;
      FirstUnderscoreAfter(x[1..], y);
    }
  }

  lemma IdTextInjective(u1: ScopeUser, u2: ScopeUser)
    requires IdText(u1) == IdText(u2)
    ensures u1 == u2
  {
    assert IdText(u1)[0] == 'N' <==> !u1.IsAuthenticated();
    assert IdText(u2)[0] == 'N' <==> !u2.IsAuthenticated();
    if u1.AuthenticatedUser? && u2.AuthenticatedUser? {
      NatToStringInjective(u1.id, u2.id);
    }
  }

  /** A string joined at an underscore splits back at its first underscore. */
  lemma SplitAtFirstUnderscore(x1: string, y1: string, x2: string, y2: string)
    requires NoUnderscore(x1) && NoUnderscore(x2)
    requires x1 + "_" + y1 == x2 + "_" + y2
    ensures x1 == x2 && y1 == y2
  {
    var s := x1 + "_" + y1;
    FirstUnderscoreAfter(x1, y1);
    FirstUnderscoreAfter(x2, y2);
    assert x1 == s[..|x1|] == x2;
    assert y1 == s[|x1| + 1..] == y2;
  }

  lemma IdTextNoUnderscore(u: ScopeUser)
    ensures NoUnderscore(IdText(u))
  {
    if u.IsAuthenticated() {
      assert forall i :: 0 <= i < |IdText(u)| ==> IsDigit(IdText(u)[i]);
    }
  }

  /** The room key determines both the connecting user and the peer id. */
  lemma RoomKeyInjective(u1: ScopeUser, p1: nat, u2: ScopeUser, p2: nat)
    ensures RoomKey(u1, p1) == RoomKey(u2, p2) <==> u1 == u2 && p1 == p2
  {
    if RoomKey(u1, p1) == RoomKey(u2, p2) {
      var x1, y1 := IdText(u1), NatToString(p1);
      var x2, y2 := IdText(u2), NatToString(p2);
      assert RoomKey(u1, p1)[5..] == x1 + "_" + y1;
      assert RoomKey(u2, p2)[5..] == x2 + "_" + y2;
      IdTextNoUnderscore(u1);
      IdTextNoUnderscore(u2);
      SplitAtFirstUnderscore(x1, y1, x2, y2);
      IdTextInjective(u1, u2);
      NatToStringInjective(p1, p2);
    }
  }

  /** Two different users connecting to each other get two different rooms. */
  lemma RoomKeyOrderDependent(a: UserId, b: UserId)
    requires a != b
    ensures RoomKey(AuthenticatedUser(a), b) != RoomKey(AuthenticatedUser(b), a)
  {
    RoomKeyInjective(AuthenticatedUser(a), b, AuthenticatedUser(b), a);
  }

  /** Content is acted on only when `data.get('content')` is present and non-empty. */
  predicate Truthy(content: Option<string>) {
    content.Some? && content.value != ""
  }

  /**
   * Effect of `connect` on the registry and on the connection, as
   * intended: an authenticated user joins the room and is accepted, an
   * anonymous one is closed without touching the registry.
   */
  function ConnectStep(g: Groups, u: ScopeUser, peer: nat, ch: ChannelName): (r: (Groups, Lifecycle))
    ensures u.IsAuthenticated() ==> r.1 == Accepted
    ensures u.IsAuthenticated() ==> Members(r.0, RoomKey(u, peer)) == Members(g, RoomKey(u, peer)) + {ch}
    ensures u.IsAuthenticated() ==>
      forall room :: room != RoomKey(u, peer) ==> Members(r.0, room) == Members(g, room)
    ensures !u.IsAuthenticated() ==> r.0 == g && r.1 == Closed
  {
    if u.IsAuthenticated() then (Join(g, RoomKey(u, peer), ch), Accepted) else (g, Closed)
  }

  /**
   * Effect of `connect` exactly as written: consumers.py:17 calls
   * `group_add` on `self.channel_name`, which is a str, so an
   * authenticated connect raises AttributeError before `accept()` and the
   * handshake is never accepted. No connection ever joins a room.
   */
  function ConnectStepAsWritten(g: Groups, u: ScopeUser, peer: nat, ch: ChannelName): (r: (Groups, Lifecycle))
    ensures r.0 == g
    ensures r.1 == Closed
  {
    (g, Closed)
  }

  /** The discrepancy: as written, an authenticated user is never admitted. */
  lemma AsWrittenConnectRejectsAuthenticated(g: Groups, u: ScopeUser, peer: nat, ch: ChannelName)
    requires u.IsAuthenticated()
    ensures ConnectStepAsWritten(g, u, peer, ch).1 == Closed
    ensures ConnectStep(g, u, peer, ch).1 == Accepted
    ensures ch in Members(ConnectStep(g, u, peer, ch).0, RoomKey(u, peer))
    ensures ConnectStepAsWritten(g, u, peer, ch) != ConnectStep(g, u, peer, ch)
  {
  }

  /**
   * Because the key is order-dependent, user a (connected to b) and user
   * b (connected to a) sit in different rooms: a frame fanned out to a's
   * room never reaches b's channel.
   */
  lemma CrossConnectedPeersMissLiveFrames(
    g: Groups, o: Outboxes, a: UserId, b: UserId, chA: ChannelName, chB: ChannelName, f: Frame)
    requires a != b && chA != chB
    requires GroupsOf(g, chB) == {}
    ensures var g1 := ConnectStep(g, AuthenticatedUser(a), b, chA).0;
            var g2 := ConnectStep(g1, AuthenticatedUser(b), a, chB).0;
            Sent(Fanout(o, Members(g2, RoomKey(AuthenticatedUser(a), b)), f), chB) == Sent(o, chB)
  {
    var keyAB := RoomKey(AuthenticatedUser(a), b);
    var keyBA := RoomKey(AuthenticatedUser(b), a);
    RoomKeyOrderDependent(a, b);
    var g1 := ConnectStep(g, AuthenticatedUser(a), b, chA).0;
    var g2 := ConnectStep(g1, AuthenticatedUser(b), a, chB).0;
    assert keyAB !in GroupsOf(g, chB);
    assert chB !in Members(g, keyAB);
    assert Members(g2, keyAB) == Members(g1, keyAB) == Members(g, keyAB) + {chA};
  }

  /** The event `receive` hands to `group_send`. */
  datatype ChatEvent = ChatEvent(kind: string, message: PrivateMessage)

  /** The frame `chat_message` writes: `json.dumps(event['message'])`. */
  function ChatMessageFrame(event: ChatEvent): (f: Frame)
    ensures f.record == event.message
  {
    Frame(event.message)
  }

  class ChatConsumer {
    const channelName: ChannelName
    const layer: ChannelLayer
    const store: MessageStore
    var user: ScopeUser
    var chatUserId: nat
    var chatRoom: string
    var state: Lifecycle

    constructor (channelName: ChannelName, layer: ChannelLayer, store: MessageStore)
      ensures this.channelName == channelName && this.layer == layer && this.store == store
      ensures state == Connecting
    {
      this.channelName := channelName;
      this.layer := layer;
      this.store := store;
      user := AnonymousUser;
      chatUserId := 0;
      chatRoom := "";
      state := Connecting;
    }

    /** `connect`: records the user, the peer id from the URL and the room key, then admits or closes. */
    method Connect(scopeUser: ScopeUser, urlUserId: nat)
      requires state == Connecting && layer.Valid()
      modifies this, layer
      ensures layer.Valid()
      ensures user == scopeUser && chatUserId == urlUserId
      ensures chatRoom == RoomKey(scopeUser, urlUserId)
      ensures (layer.groups, state) == ConnectStep(old(layer.groups), scopeUser, urlUserId, channelName)
      ensures layer.outboxes == old(layer.outboxes)
    {
      user := scopeUser;
      chatUserId := urlUserId;
      chatRoom := RoomKey(user, chatUserId);
      if user.IsAuthenticated() {
        // consumers.py:17 writes `self.channel_name.group_add(...)`, which
        // raises AttributeError on a str (see ConnectStepAsWritten); the
        // evident intent, joining through the channel layer, is modelled.
        layer.GroupAdd(chatRoom, channelName);
        state := Accepted;
      } else {
        state := Closed;
      }
    }

    /**
     * `disconnect`: an authenticated consumer leaves its room; an anonymous
     * one touches nothing. The connection is closed afterwards, so no
     * further frame is received on it.
     */
    method Disconnect(closeCode: int)
      requires state != Connecting && layer.Valid()
      modifies this, layer
      ensures state == Closed
      ensures user == old(user) && chatUserId == old(chatUserId) && chatRoom == old(chatRoom)
      ensures layer.Valid() && layer.outboxes == old(layer.outboxes)
      ensures user.IsAuthenticated() ==> layer.groups == Leave(old(layer.groups), chatRoom, channelName)
      ensures !user.IsAuthenticated() ==> layer.groups == old(layer.groups)
    {
      if user.IsAuthenticated() {
        layer.GroupDiscard(chatRoom, channelName);
      }
      state := Closed;
    }

    /**
     * `receive` with the decoded `content` of the frame and the store's
     * clock reading: persists one message, then fans its serialized
     * record out to every member of the room. Frames arrive only on an
     * accepted connection that has not disconnected.
     */
    method Receive(content: Option<string>, now: int)
      requires state == Accepted && layer.Valid() && store.Valid()
      modifies layer, store
      ensures layer.Valid() && store.Valid() && layer.groups == old(layer.groups)
      ensures !(user.IsAuthenticated() && Truthy(content)) ==>
        store.messages == old(store.messages) && store.nextId == old(store.nextId) &&
        layer.outboxes == old(layer.outboxes)
      ensures user.IsAuthenticated() && Truthy(content) ==>
        var m := NewMessage(old(store.nextId), user.id, chatUserId, content.value, now);
        && store.messages == old(store.messages) + [m]
        && layer.outboxes == Fanout(old(layer.outboxes), Members(old(layer.groups), chatRoom), Frame(m))
    {
      if user.IsAuthenticated() && Truthy(content) {
        var message := store.Create(user.id, chatUserId, content.value, now);
        var event := ChatEvent("chat_message", message);
        // The layer runs `chat_message` of every member on `event`; each
        // writes the same frame, so it is computed once here.
        layer.GroupSend(chatRoom, ChatMessageFrame(event));
      }
    }

    /** `chat_message`: forwards `event['message']` unchanged to this connection. */
    method ChatMessage(event: ChatEvent)
      requires layer.Valid()
      modifies layer
      ensures layer.Valid() && layer.groups == old(layer.groups)
      ensures Sent(layer.outboxes, channelName) == Sent(old(layer.outboxes), channelName) + [Frame(event.message)]
      ensures forall ch :: ch != channelName ==> Sent(layer.outboxes, ch) == Sent(old(layer.outboxes), ch)
    {
      layer.Send(channelName, ChatMessageFrame(event));
    }
  }

  /**
   * Users 7 and 9 open chats with each other and 7 says "hi": the message
   * is stored once, 7 gets the echo, and 9's socket gets nothing.
   */
  method ChatScenario() {
    var layer := new ChannelLayer();
    var store := new MessageStore();
    var seven := new ChatConsumer("ch-7", layer, store);
    var nine := new ChatConsumer("ch-9", layer, store);
    seven.Connect(AuthenticatedUser(7), 9);
    nine.Connect(AuthenticatedUser(9), 7);
    RoomKeyOrderDependent(7, 9);
    assert Members(layer.groups, seven.chatRoom) == {"ch-7"};
    seven.Receive(Some("hi"), 100);
    var m := NewMessage(1, 7, 9, "hi", 100);
    assert store.messages == [m];
    assert Sent(layer.outboxes, "ch-7") == [Frame(m)];
    assert Sent(layer.outboxes, "ch-9") == [];
    nine.Receive(Some(""), 101);
    assert |store.messages| == 1;
    seven.Disconnect(1000);
    assert Members(layer.groups, seven.chatRoom) == {};
    assert seven.state == Closed;
  }
}
