/**
 * The channel layer the consumer talks to, as an explicit in-process
 * registry: a map from group (room) name to the set of channel names
 * subscribed to it, and one outbox of sent frames per channel.
 */
module Channels {
  import opened Messages

  type ChannelName = string

  /** Group name to member channels. */
  type Groups = map<string, set<ChannelName>>

  /** The text frames written to each channel's socket, oldest first. */
  type Outboxes = map<ChannelName, seq<Frame>>

  /**
   * An outbound text frame: `json.dumps` of a serialized PrivateMessage.
   * The JSON text itself is not modelled; the frame carries the record.
   */
  datatype Frame = Frame(record: PrivateMessage)

  function Members(g: Groups, room: string): set<ChannelName> {
    if room in g then g[room] else {}
  }

  function Sent(o: Outboxes, ch: ChannelName): seq<Frame> {
    if ch in o then o[ch] else []
  }

  /** The layer keeps no group whose member set is empty. */
  predicate NoEmptyGroups(g: Groups) {
    forall room :: room in g ==> g[room] != {}
  }

  /** The groups a channel currently belongs to. */
  function GroupsOf(g: Groups, ch: ChannelName): set<string> {
    set room | room in g && ch in g[room]
  }

  /** `group_add`: the channel joins the room, creating the group if needed. */
  function Join(g: Groups, room: string, ch: ChannelName): (r: Groups)
    ensures Members(r, room) == Members(g, room) + {ch}
    ensures forall other :: other != room ==> Members(r, other) == Members(g, other)
    ensures NoEmptyGroups(g) ==> NoEmptyGroups(r)
  {
    g[room := Members(g, room) + {ch}]
  }

  /** `group_discard`: the channel leaves the room; an emptied group is dropped. */
  function Leave(g: Groups, room: string, ch: ChannelName): (r: Groups)
    ensures Members(r, room) == Members(g, room) - {ch}
    ensures forall other :: other != room ==> Members(r, other) == Members(g, other)
    ensures NoEmptyGroups(g) ==> NoEmptyGroups(r)
  {
    if room !in g then g
    else if g[room] - {ch} == {} then map other | other in g && other != room :: g[other]
    else g[room := g[room] - {ch}]
  }

  /** Groups with the same members everywhere, and no empty group, are the same map. */
  lemma {:induction false} SameMembersSameGroups(g1: Groups, g2: Groups)
    requires NoEmptyGroups(g1) && NoEmptyGroups(g2)
    requires forall room :: Members(g1, room) == Members(g2, room)
    ensures g1 == g2
  {
    forall room | room in g1 ensures room in g2 && g1[room] == g2[room] {
      assert Members(g1, room) == g1[room];
    }
    forall room | room in g2 ensures room in g1 {
      assert Members(g2, room) == g2[room];
    }
  }

  /** Leaving right after joining restores the registry, if the channel was not a member. */
  lemma LeaveUndoesJoin(g: Groups, room: string, ch: ChannelName)
    requires NoEmptyGroups(g) && ch !in Members(g, room)
    ensures Leave(Join(g, room, ch), room, ch) == g
  {
    SameMembersSameGroups(Leave(Join(g, room, ch), room, ch), g);
  }

  /** Leaving a room one is not in changes nothing. */
  lemma LeaveAbsentIsNoop(g: Groups, room: string, ch: ChannelName)
    requires NoEmptyGroups(g) && ch !in Members(g, room)
    ensures Leave(g, room, ch) == g
  {
    SameMembersSameGroups(Leave(g, room, ch), g);
  }

  /** Joining twice is joining once. */
  lemma JoinIdempotent(g: Groups, room: string, ch: ChannelName)
    ensures Join(Join(g, room, ch), room, ch) == Join(g, room, ch)
  {
    assert Members(g, room) + {ch} + {ch} == Members(g, room) + {ch};
  }

  /** A channel that was in no group is, after joining, in exactly that one group. */
  lemma JoinFreshChannel(g: Groups, room: string, ch: ChannelName)
    requires GroupsOf(g, ch) == {}
    ensures GroupsOf(Join(g, room, ch), ch) == {room}
  {
    var r := Join(g, room, ch);
    forall other | other != room ensures other !in GroupsOf(r, ch) {
      assert other !in GroupsOf(g, ch);
      assert Members(r, other) == Members(g, other);
    }
    assert ch in Members(r, room);
  }

  /** Leaving removes exactly that group from the channel's groups. */
  lemma LeaveGroupsOf(g: Groups, room: string, ch: ChannelName)
    ensures GroupsOf(Leave(g, room, ch), ch) == GroupsOf(g, ch) - {room}
  {
    var r := Leave(g, room, ch);
    forall other ensures other in GroupsOf(r, ch) <==> other in GroupsOf(g, ch) - {room} {
      assert other in GroupsOf(r, ch) <==> ch in Members(r, other);
      assert other in GroupsOf(g, ch) <==> ch in Members(g, other);
    }
  }

  /**
   * `group_send`: every member of the room gets `f` appended to its
   * outbox exactly once; every other channel's outbox is untouched.
   */
  function Fanout(o: Outboxes, members: set<ChannelName>, f: Frame): (r: Outboxes)
    ensures forall ch :: ch in members ==> Sent(r, ch) == Sent(o, ch) + [f]
    ensures forall ch :: ch !in members ==> Sent(r, ch) == Sent(o, ch)
  {
    map ch | ch in o.Keys + members :: if ch in members then Sent(o, ch) + [f] else o[ch]
  }

  /** The in-memory channel layer shared by every consumer of the process. */
  class ChannelLayer {
    var groups: Groups
    var outboxes: Outboxes

    ghost predicate Valid()
      reads this
    {
      NoEmptyGroups(groups)
    }

    constructor ()
      ensures Valid() && groups == map[] && outboxes == map[]
    {
      groups := map[];
      outboxes := map[];
    }

    method GroupAdd(room: string, ch: ChannelName)
      requires Valid()
      modifies this
      ensures Valid()
      ensures groups == Join(old(groups), room, ch) && outboxes == old(outboxes)
    {
      groups := Join(groups, room, ch);
    }

    method GroupDiscard(room: string, ch: ChannelName)
      requires Valid()
      modifies this
      ensures Valid()
      ensures groups == Leave(old(groups), room, ch) && outboxes == old(outboxes)
    {
      groups := Leave(groups, room, ch);
    }

    /** Delivers `f` to every current member of `room`, the sender included. */
    method GroupSend(room: string, f: Frame)
      requires Valid()
      modifies this
      ensures Valid()
      ensures groups == old(groups)
      ensures outboxes == Fanout(old(outboxes), Members(old(groups), room), f)
    {
      outboxes := Fanout(outboxes, Members(groups, room), f);
    }

    /** Writes one frame to one channel's socket. */
    method Send(ch: ChannelName, f: Frame)
      requires Valid()
      modifies this
      ensures Valid()
      ensures groups == old(groups)
      ensures outboxes == Fanout(old(outboxes), {ch}, f)
    {
      outboxes := Fanout(outboxes, {ch}, f);
    }
  }
}
