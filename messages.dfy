/**
 * The private-message record and its append-only store.
 *
 * PrivateMessage is imported by consumers.py:4 and views.py:17 but is not
 * declared in models.py; its shape is the field list of
 * PrivateMessageSerializer (serializers.py:71): id, sender, receiver,
 * content, timestamp and is_read, the last two read-only.
 */
module Messages {

  type UserId = nat

  /** One persisted message. The timestamp is the store's clock reading at creation. */
  datatype PrivateMessage = PrivateMessage(
    id: nat,
    sender: UserId,
    receiver: UserId,
    content: string,
    timestamp: int,
    isRead: bool)

  /** Primary keys strictly increase in insertion order. */
  predicate IdsIncreasing(ms: seq<PrivateMessage>) {
    forall i, j :: 0 <= i < j < |ms| ==> ms[i].id < ms[j].id
  }

  /**
   * The record `PrivateMessage.objects.create(...)` builds: the given
   * sender, receiver and content, the creation time, and unread.
   */
  function NewMessage(id: nat, sender: UserId, receiver: UserId, content: string, now: int): (m: PrivateMessage)
    ensures m.id == id && m.sender == sender && m.receiver == receiver && m.content == content
    ensures m.timestamp == now && !m.isRead
  {
    PrivateMessage(id, sender, receiver, content, now, false)
  }

  /** The message table: an append-only sequence with an auto-increment key. */
  class MessageStore {
    var messages: seq<PrivateMessage>
    var nextId: nat

    ghost predicate Valid()
      reads this
    {
      && nextId > 0
      && IdsIncreasing(messages)
      && (forall i :: 0 <= i < |messages| ==> 0 < messages[i].id < nextId)
    }

    constructor ()
      ensures Valid() && messages == [] && nextId == 1
    {
      messages := [];
      nextId := 1;
    }

    /** Inserts one row; the clock reading `now` stands for `auto_now_add`. */
    method Create(sender: UserId, receiver: UserId, content: string, now: int) returns (m: PrivateMessage)
      requires Valid()
      modifies this
      ensures Valid()
      ensures m == NewMessage(old(nextId), sender, receiver, content, now)
      ensures messages == old(messages) + [m]
      ensures forall i :: 0 <= i < |old(messages)| ==> old(messages)[i].id != m.id
    {
      m := NewMessage(nextId, sender, receiver, content, now);
      messages := messages + [m];
      nextId := nextId + 1;
    }
  }
}
