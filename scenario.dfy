/**
 * The grouping rule seen through the storage object itself: a client calls
 * `addMessage` several times on one new storage, relying on each call's
 * contract only. Every stage hands on a storage whose objects are all fresh,
 * so the next stage may change them.
 */
module Scenarios {
  import opened Common
  import opened MessageGroups
  import opened Grouping
  import opened Storage

  /** A new storage without a message-id generator holds no messages. */
  method NewStorage<D, P>(next: nat -> GroupId) returns (s: BasicStorage<D, P>)
    ensures fresh(s) && fresh(s.groupIdGenerator) && s.Valid()
    ensures s.groupIdGenerator.next == next && s.groupIdGenerator.drawn == 0
    ensures s.messageIdGenerator.None?
    ensures s.messages == map[] && s.MessagesView() == map[]
  {
    var generator := new GroupIdGenerator(next);
    s := new BasicStorage(generator);
    assert s.MessagesView() == map[];
  }

  /** The first message of a conversation opens a group with the first drawn id. */
  method OneMessageStored<D, P>(m1: ChatMessage<P>, next: nat -> GroupId, cid: ConversationId)
    returns (s: BasicStorage<D, P>)
    ensures fresh(s) && fresh(s.groupIdGenerator) && s.Valid()
    ensures forall g :: g in s.GroupObjects() ==> fresh(g)
    ensures s.groupIdGenerator.next == next && s.groupIdGenerator.drawn == 1
    ensures s.messageIdGenerator.None?
    ensures s.MessagesView() == map[cid := [GroupValue(next(0), m1.senderId, m1.direction, [m1])]]
  {
    s := NewStorage(next);
    ghost var before := s.MessagesView();
    assert GroupsIn(before, cid) == [];
    var r := s.AddMessage(m1, cid);
    assert r == Ok(m1);
    assert AddToGroups([], m1, next(0)) == [GroupValue(next(0), m1.senderId, m1.direction, [m1])];
  }

  /** A second message from the same sender joins that group. */
  method TwoSameSenderStored<D, P>(m1: ChatMessage<P>, m2: ChatMessage<P>, next: nat -> GroupId, cid: ConversationId)
    returns (s: BasicStorage<D, P>)
    requires m1.senderId == m2.senderId
    ensures fresh(s) && fresh(s.groupIdGenerator) && s.Valid()
    ensures forall g :: g in s.GroupObjects() ==> fresh(g)
    ensures s.groupIdGenerator.next == next && s.groupIdGenerator.drawn == 1
    ensures s.messageIdGenerator.None?
    ensures s.MessagesView() == map[cid := [GroupValue(next(0), m1.senderId, m1.direction, [m1, m2])]]
  {
    s := OneMessageStored(m1, next, cid);
    ghost var g := GroupValue(next(0), m1.senderId, m1.direction, [m1]);
    assert GroupsIn(s.MessagesView(), cid) == [g];
    var r := s.AddMessage(m2, cid);
    assert r == Ok(m2);
    assert JoinsLast([g], m2);
    assert [m1] + [m2] == [m1, m2];
    assert AddToGroups([g], m2, next(1)) == [g.(messages := [m1, m2])];
  }

  /** A third message from another sender opens a second group with the next drawn id. */
  method TwoSendersStored<D, P>(m1: ChatMessage<P>, m2: ChatMessage<P>, m3: ChatMessage<P>,
                                next: nat -> GroupId, cid: ConversationId)
    returns (s: BasicStorage<D, P>)
    requires m1.senderId == m2.senderId && m3.senderId != m1.senderId
    ensures s.Valid() && s.groupIdGenerator.drawn == 2
    ensures s.MessagesView() == map[cid := [
      GroupValue(next(0), m1.senderId, m1.direction, [m1, m2]),
      GroupValue(next(1), m3.senderId, m3.direction, [m3])]]
  {
    s := TwoSameSenderStored(m1, m2, next, cid);
    ghost var g := GroupValue(next(0), m1.senderId, m1.direction, [m1, m2]);
    assert GroupsIn(s.MessagesView(), cid) == [g];
    var r := s.AddMessage(m3, cid);
    assert r == Ok(m3);
    assert !JoinsLast([g], m3);
    assert AddToGroups([g], m3, next(1)) == [g, GroupValue(next(1), m3.senderId, m3.direction, [m3])];
  }
}
