/**
 * A message group: a run of messages with a fixed group id, sender and
 * direction. Messages are only ever pushed at the end; the two replace helpers
 * are modelled exactly as written, including the inverted bounds check of
 * `replaceMessage` and `updateMessage` building on the whole old array.
 */
module MessageGroups {
  import opened Common

  /** The `id` of every message, in order. */
  function MessageIds<P>(ms: seq<ChatMessage<P>>): (ids: seq<MessageId>)
    ensures |ids| == |ms|
    ensures forall i :: 0 <= i < |ms| ==> ids[i] == ms[i].id
  {
    seq(|ms|, i requires 0 <= i < |ms| => ms[i].id)
  }

  /** What a group holds, as a value. */
  datatype GroupValue<P> = GroupValue(
    id: GroupId,
    senderId: UserId,
    direction: MessageDirection,
    messages: seq<ChatMessage<P>>)

  class MessageGroup<P> {
    /** The id, sender and direction are constants: fixed at construction, never changed. */
    const id: GroupId
    const senderId: UserId
    const direction: MessageDirection
    var messages: seq<ChatMessage<P>>

    ghost function Value(): GroupValue<P>
      reads this
    {
      GroupValue(id, senderId, direction, messages)
    }

    constructor(id: GroupId, senderId: UserId, direction: MessageDirection)
      ensures Value() == GroupValue(id, senderId, direction, [])
    {
      this.id := id;
      this.senderId := senderId;
      this.direction := direction;
      this.messages := [];
    }

    /** Pushes `m` at the end. */
    method AddMessage(m: ChatMessage<P>)
      modifies this
      ensures messages == old(messages) + [m]
    {
      messages := messages + [m];
    }

    /** The first message with the id and its position, or nothing. */
    function GetMessage(messageId: MessageId): (r: Option<(ChatMessage<P>, nat)>)
      reads this
      ensures r.None? <==> forall i :: 0 <= i < |messages| ==> messages[i].id != messageId
      ensures r.Some? ==>
        r.value.1 < |messages| && r.value.0 == messages[r.value.1] &&
        r.value.0.id == messageId &&
        forall i :: 0 <= i < r.value.1 ==> messages[i].id != messageId
    {
      var idx := IndexOf(MessageIds(messages), messageId);
      if idx != -1 then Some((messages[idx], idx)) else None
    }

    /**
     * On a match at `idx` the new array is the OLD array followed by the old
     * array with the match replaced, so the group doubles in length.
     */
    method UpdateMessage(m: ChatMessage<P>)
      modifies this
      ensures old(GetMessage(m.id)).None? ==> messages == old(messages)
      ensures old(GetMessage(m.id)).Some? ==>
        var idx := old(GetMessage(m.id)).value.1;
        messages == old(messages) + old(messages)[idx := m] &&
        |messages| == 2 * |old(messages)|
    {
      var found := GetMessage(m.id);
      if found.Some? {
        var idx := found.value.1;
        assert Slice(messages, 0, idx) + [m] + Slice(messages, idx + 1, |messages|) == ReplaceAt(messages, idx, m);
        messages := messages + (Slice(messages, 0, idx) + [m] + Slice(messages, idx + 1, |messages|));
      }
    }

    /**
     * Refuses every index below the length (the guard is inverted); for an
     * index at or past the end the slices are the whole array and nothing,
     * so the array becomes itself twice followed by `m`.
     */
    method ReplaceMessage(m: ChatMessage<P>, index: int) returns (replaced: bool)
      modifies this
      ensures replaced <==> index >= |old(messages)|
      ensures !replaced ==> messages == old(messages)
      ensures replaced ==> messages == old(messages) + old(messages) + [m]
    {
      if |messages| > index {
        return false;
      }
      messages := messages + Slice(messages, 0, index) + [m] + Slice(messages, index + 1, |messages|);
      return true;
    }
  }

  /** The values of a sequence of groups. */
  ghost function Values<P>(gs: seq<MessageGroup<P>>): (vs: seq<GroupValue<P>>)
    reads gs
    ensures |vs| == |gs|
    ensures forall i :: 0 <= i < |gs| ==> vs[i] == gs[i].Value()
  {
    seq(|gs|, i reads gs requires 0 <= i < |gs| => gs[i].Value())
  }
}
