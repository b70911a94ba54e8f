/**
 * MessageHistoryView of views.py: the messages exchanged between the
 * requester and one other user, in timestamp order.
 */
module MessageViews {
  import opened Messages
  import opened Http

  /** The query's condition: sent from `me` to `peer`, or from `peer` to `me`. */
  predicate Involves(m: PrivateMessage, me: UserId, peer: UserId) {
    (m.sender == me && m.receiver == peer) || (m.sender == peer && m.receiver == me)
  }

  predicate SortedByTime(s: seq<PrivateMessage>) {
    forall i, j :: 0 <= i < j < |s| ==> s[i].timestamp <= s[j].timestamp
  }

  /** The filter: every message of the conversation, as often as it is stored, and no other. */
  function Between(ms: seq<PrivateMessage>, me: UserId, peer: UserId): (r: seq<PrivateMessage>)
    ensures forall m :: multiset(r)[m] == if Involves(m, me, peer) then multiset(ms)[m] else 0
  {
    if ms == [] then []
    else
      assert ms == [ms[0]] + ms[1..];
      if Involves(ms[0], me, peer) then [ms[0]] + Between(ms[1..], me, peer)
      else Between(ms[1..], me, peer)
  }

  /** Inserts one message into a time-ordered sequence. */
  function InsertByTime(m: PrivateMessage, s: seq<PrivateMessage>): (r: seq<PrivateMessage>)
    requires SortedByTime(s)
    ensures SortedByTime(r)
    ensures multiset(r) == multiset(s) + multiset{m}
  {
    if s == [] then [m]
    else if m.timestamp <= s[0].timestamp then [m] + s
    else
      var rest := InsertByTime(m, s[1..]);
      ConsBeforeLater(m, s, rest);
      [s[0]] + rest
  }

  /** The step case of InsertByTime: the head stays in front of the insertion into the tail. */
  lemma ConsBeforeLater(m: PrivateMessage, s: seq<PrivateMessage>, rest: seq<PrivateMessage>)
    requires s != [] && SortedByTime(s) && s[0].timestamp < m.timestamp
    requires SortedByTime(rest) && multiset(rest) == multiset(s[1..]) + multiset{m}
    ensures SortedByTime([s[0]] + rest)
    ensures multiset([s[0]] + rest) == multiset(s) + multiset{m}
  {
    assert s == [s[0]] + s[1..];
    forall k | 0 <= k < |rest| ensures s[0].timestamp <= rest[k].timestamp {
      assert rest[k] in multiset(rest);
      if rest[k] != m {
        assert rest[k] in s[1..];
        var j :| 0 <= j < |s[1..]| && s[1..][j] == rest[k];
        assert s[j + 1] == rest[k];
      }
    }
    var r := [s[0]] + rest;
    forall i, j | 0 <= i < j < |r| ensures r[i].timestamp <= r[j].timestamp {
      assert r[j] == rest[j - 1];
      if i > 0 { assert r[i] == rest[i - 1]; }
    }
  }

  /** `order_by('timestamp')`: a time-ordered permutation. */
  function SortByTime(s: seq<PrivateMessage>): (r: seq<PrivateMessage>)
    ensures SortedByTime(r)
    ensures multiset(r) == multiset(s)
  {
    if s == [] then []
    else
      assert s == [s[0]] + s[1..];
      InsertByTime(s[0], SortByTime(s[1..]))
  }

  /**
   * The history between `me` and `peer`: time-ordered, and holding each
   * stored message of the two exactly as often as the store does.
   */
  function History(ms: seq<PrivateMessage>, me: UserId, peer: UserId): (r: seq<PrivateMessage>)
    ensures SortedByTime(r)
    ensures forall m :: multiset(r)[m] == if Involves(m, me, peer) then multiset(ms)[m] else 0
  {
    SortByTime(Between(ms, me, peer))
  }

  /** MessageHistoryView.get for the signed-in `me` and the path's `user_id`. */
  function MessageHistory(ms: seq<PrivateMessage>, me: UserId, peer: UserId): (resp: Response)
    ensures resp.status == OK && resp.body.MessageList?
    ensures SortedByTime(resp.body.records)
    ensures forall m :: m in resp.body.records <==> m in ms && Involves(m, me, peer)
  {
    var r := History(ms, me, peer);
    assert forall m :: m in r <==> multiset(r)[m] > 0;
    Response(OK, MessageList(r))
  }

  /** Both participants see the same history. */
  lemma {:induction false} BetweenSymmetric(ms: seq<PrivateMessage>, a: UserId, b: UserId)
    ensures Between(ms, a, b) == Between(ms, b, a)
  {
    if ms != [] {
      BetweenSymmetric(ms[1..], a, b);
    }
  }

  lemma HistorySymmetric(ms: seq<PrivateMessage>, a: UserId, b: UserId)
    ensures History(ms, a, b) == History(ms, b, a)
  {
    BetweenSymmetric(ms, a, b);
  }

  /** A message stored by the chat consumer shows up in both participants' histories. */
  lemma StoredMessageInHistory(ms: seq<PrivateMessage>, m: PrivateMessage)
    ensures m in History(ms + [m], m.sender, m.receiver)
    ensures m in History(ms + [m], m.receiver, m.sender)
  {
    assert multiset(ms + [m])[m] > 0;
    var h := History(ms + [m], m.sender, m.receiver);
    assert multiset(h)[m] > 0;
    HistorySymmetric(ms + [m], m.sender, m.receiver);
  }
}
