/**
 * The in-memory storage: the aggregate that owns the users, the conversations,
 * the grouped messages of every conversation and the three cursors (current
 * user, active conversation, current message input). Lookups return the found
 * value with its index, or nothing; every change rebuilds the collection it
 * touches, or mutates a conversation or a group in place, exactly as written.
 */
module Storage {
  import opened Common
  import opened TypingUsers
  import opened Conversations
  import opened MessageGroups
  import opened Grouping

  datatype StorageError = IdGeneratorNotDefined

  /** The `id` of every user, in order. */
  function UserIds(us: seq<User>): (ids: seq<UserId>)
    ensures |ids| == |us|
    ensures forall i :: 0 <= i < |us| ==> ids[i] == us[i].id
  {
    seq(|us|, i requires 0 <= i < |us| => us[i].id)
  }

  /** The `id` of every conversation, in order (ids are constants, so no heap is read). */
  function ConversationIds<D>(cs: seq<Conversation<D>>): (ids: seq<ConversationId>)
    ensures |ids| == |cs|
    ensures forall i :: 0 <= i < |cs| ==> ids[i] == cs[i].id
  {
    seq(|cs|, i requires 0 <= i < |cs| => cs[i].id)
  }

  /** Removing a user just added under a new id gives back the users as they were. */
  lemma {:induction false} RemoveUndoesAddUser(us: seq<User>, u: User)
    requires u.id !in UserIds(us)
    ensures IndexOf(UserIds(us + [u]), u.id) == |us|
    ensures RemoveAt(us + [u], |us|) == us
  {
    assert UserIds(us + [u]) == UserIds(us) + [u.id];
    assert (us + [u])[..|us|] == us;
  }

  /** Removing a conversation just added under a new id gives back the conversations as they were. */
  lemma {:induction false} RemoveUndoesAddConversation<D>(cs: seq<Conversation<D>>, c: Conversation<D>)
    requires c.id !in ConversationIds(cs)
    ensures IndexOf(ConversationIds(cs + [c]), c.id) == |cs|
    ensures RemoveAt(cs + [c], |cs|) == cs
  {
    assert ConversationIds(cs + [c]) == ConversationIds(cs) + [c.id];
    assert (cs + [c])[..|cs|] == cs;
  }

  /** JavaScript truthiness of an optional conversation id: absent and "" both count as no id. */
  predicate IsSet(id: Option<ConversationId>) {
    id.Some? && id.value != ""
  }

  /** The groups recorded for a conversation, or none. */
  function GroupsIn<X>(m: map<ConversationId, seq<X>>, cid: ConversationId): seq<X> {
    if cid in m then m[cid] else []
  }

  /** No group object is recorded at two places. */
  ghost predicate GroupsDistinct<P>(m: map<ConversationId, seq<MessageGroup<P>>>) {
    forall c1, c2, i, j ::
      c1 in m && c2 in m && 0 <= i < |m[c1]| && 0 <= j < |m[c2]| && m[c1][i] == m[c2][j] ==>
      c1 == c2 && i == j
  }

  /** Appending a group that is recorded nowhere keeps the groups distinct. */
  lemma AppendGroupDistinct<P>(m: map<ConversationId, seq<MessageGroup<P>>>, cid: ConversationId, g: MessageGroup<P>)
    requires GroupsDistinct(m)
    requires forall c, i :: c in m && 0 <= i < |m[c]| ==> m[c][i] != g
    ensures GroupsDistinct(m[cid := GroupsIn(m, cid) + [g]])
  {
    var m', n := m[cid := GroupsIn(m, cid) + [g]], |GroupsIn(m, cid)|;
    forall c, i | c in m' && 0 <= i < |m'[c]|
      ensures (c == cid && i == n && m'[c][i] == g) || (c in m && i < |m[c]| && m'[c][i] == m[c][i])
    {
    }
  }

  /** The snapshot handed to the UI: the cursors together with live references to the collections. */
  datatype ChatState<D, P> = ChatState(
    currentUser: Option<User>,
    users: seq<User>,
    conversations: seq<Conversation<D>>,
    activeConversation: Option<Conversation<D>>,
    currentMessages: seq<MessageGroup<P>>,
    messages: map<ConversationId, seq<MessageGroup<P>>>,
    currentMessage: string)

  /** The storage's own fields, for stating which of them a method changes. */
  datatype Fields<D, P> = Fields(
    currentUser: Option<User>,
    users: seq<User>,
    conversations: seq<Conversation<D>>,
    activeConversationId: Option<ConversationId>,
    messages: map<ConversationId, seq<MessageGroup<P>>>,
    currentMessage: string)

  /**
   * The injected group-id generator. Its only observable state is how many
   * ids it has handed out; the id it hands out is a fixed function of that.
   */
  class GroupIdGenerator {
    const next: nat -> GroupId
    var drawn: nat

    constructor(next: nat -> GroupId)
      ensures this.next == next && drawn == 0
    {
      this.next := next;
      drawn := 0;
    }

    method Generate() returns (id: GroupId)
      modifies this
      ensures id == next(old(drawn)) && drawn == old(drawn) + 1
    {
      id := next(drawn);
      drawn := drawn + 1;
    }
  }

  class BasicStorage<D, P> {
    /** The injected group-id generator. */
    const groupIdGenerator: GroupIdGenerator
    /** The optional injected message-id generator. */
    const messageIdGenerator: Option<ChatMessage<P> -> MessageId>

    var currentUser: Option<User>
    var users: seq<User>
    var conversations: seq<Conversation<D>>
    var activeConversationId: Option<ConversationId>
    var messages: map<ConversationId, seq<MessageGroup<P>>>
    var currentMessage: string

    /**
     * User and conversation ids are unique (the add operations refuse
     * duplicates), every recorded conversation has at least one group (so the
     * last group always exists), and no group object is shared.
     */
    ghost predicate Valid()
      reads this
    {
      && Unique(UserIds(users))
      && Unique(ConversationIds(conversations))
      && (forall c :: c in messages ==> |messages[c]| > 0)
      && GroupsDistinct(messages)
    }

    ghost function State(): Fields<D, P>
      reads this
    {
      Fields(currentUser, users, conversations, activeConversationId, messages, currentMessage)
    }

    /** Every group object the storage holds. */
    ghost function GroupObjects(): (os: set<MessageGroup<P>>)
      reads this
      ensures forall c, i :: c in messages && 0 <= i < |messages[c]| ==> messages[c][i] in os
    {
      set c, i | c in messages && 0 <= i < |messages[c]| :: messages[c][i]
    }

    /** The grouped messages as values. */
    ghost function MessagesView(): map<ConversationId, seq<GroupValue<P>>>
      reads this, GroupObjects()
    {
      map c | c in messages :: Values(messages[c])
    }

    constructor(groupIdGenerator: GroupIdGenerator, messageIdGenerator: Option<ChatMessage<P> -> MessageId> := None)
      ensures Valid()
      ensures this.groupIdGenerator == groupIdGenerator && this.messageIdGenerator == messageIdGenerator
      ensures State() == Fields(None, [], [], None, map[], "")
    {
      this.groupIdGenerator := groupIdGenerator;
      this.messageIdGenerator := messageIdGenerator;
      currentUser := None;
      users := [];
      conversations := [];
      activeConversationId := None;
      messages := map[];
      currentMessage := "";
    }

    /**
     * The message as it will be stored: with a generated id when asked for
     * one, which fails when no generator is configured; otherwise unchanged.
     */
    function GetMessageWithId(m: ChatMessage<P>, generateId: bool): (r: Result<ChatMessage<P>, StorageError>)
      ensures r.Err? <==> generateId && messageIdGenerator.None?
      ensures r.Ok? && !generateId ==> r.value == m
      ensures r.Ok? && generateId ==> r.value == m.(id := messageIdGenerator.value(m))
      ensures r.Ok? ==> r.value.senderId == m.senderId && r.value.direction == m.direction
    {
      if generateId then
        if messageIdGenerator.None? then Err(IdGeneratorNotDefined)
        else Ok(m.(id := messageIdGenerator.value(m)))
      else Ok(m)
    }

    /** Whether some user has the id. */
    function UserExists(userId: UserId): (b: bool)
      reads this
      ensures b <==> exists i :: 0 <= i < |users| && users[i].id == userId
    {
      IndexOf(UserIds(users), userId) != -1
    }

    /** The first user with the id and its index, or nothing. */
    function GetUser(userId: UserId): (r: Option<(User, nat)>)
      reads this
      ensures r.None? <==> !UserExists(userId)
      ensures r.Some? ==>
        r.value.1 < |users| && r.value.0 == users[r.value.1] && r.value.0.id == userId &&
        forall i :: 0 <= i < r.value.1 ==> users[i].id != userId
    {
      var idx := IndexOf(UserIds(users), userId);
      if idx != -1 then Some((users[idx], idx)) else None
    }

    /** Whether some conversation has the id. */
    function ConversationExists(conversationId: ConversationId): (b: bool)
      reads this
      ensures b <==> exists i :: 0 <= i < |conversations| && conversations[i].id == conversationId
    {
      IndexOf(ConversationIds(conversations), conversationId) != -1
    }

    /** The first conversation with the id and its index, or nothing. */
    function GetConversation(conversationId: ConversationId): (r: Option<(Conversation<D>, nat)>)
      reads this
      ensures r.None? <==> !ConversationExists(conversationId)
      ensures r.Some? ==>
        r.value.1 < |conversations| && r.value.0 == conversations[r.value.1] &&
        r.value.0.id == conversationId &&
        forall i :: 0 <= i < r.value.1 ==> conversations[i].id != conversationId
    {
      var idx := IndexOf(ConversationIds(conversations), conversationId);
      if idx != -1 then Some((conversations[idx], idx)) else None
    }

    method SetCurrentUser(user: User)
      modifies this
      ensures State() == old(State()).(currentUser := Some(user))
    {
      currentUser := Some(user);
    }

    /** Appends the user unless one with its id exists; reports whether it did. */
    method AddUser(user: User) returns (added: bool)
      requires Valid()
      modifies this
      ensures Valid()
      ensures added <==> !old(UserExists(user.id))
      ensures State() == old(State()).(users := if added then old(users) + [user] else old(users))
    {
      added := !UserExists(user.id);
      if added {
        AppendUnique(UserIds(users), user.id);
        assert UserIds(users + [user]) == UserIds(users) + [user.id];
        users := users + [user];
      }
    }

    /** Removes the first user with the id, keeping the others in order; reports whether one was there. */
    method RemoveUser(userId: UserId) returns (removed: bool)
      requires Valid()
      modifies this
      ensures Valid()
      ensures var idx := IndexOf(old(UserIds(users)), userId);
        removed == (idx != -1) &&
        State() == old(State()).(users := if removed then RemoveAt(old(users), idx) else old(users))
    {
      var idx := IndexOf(UserIds(users), userId);
      if idx != -1 {
        RemoveAtUnique(UserIds(users), idx);
        assert UserIds(RemoveAt(users, idx)) == RemoveAt(UserIds(users), idx);
        users := users[..idx] + users[idx + 1..];
        return true;
      }
      return false;
    }

    /** Appends the conversation unless one with its id exists; reports whether it did. */
    method AddConversation(conversation: Conversation<D>) returns (added: bool)
      requires Valid()
      modifies this
      ensures Valid()
      ensures added <==> !old(ConversationExists(conversation.id))
      ensures State() == old(State()).(conversations :=
        if added then old(conversations) + [conversation] else old(conversations))
    {
      added := !ConversationExists(conversation.id);
      if added {
        AppendUnique(ConversationIds(conversations), conversation.id);
        assert ConversationIds(conversations + [conversation]) == ConversationIds(conversations) + [conversation.id];
        conversations := conversations + [conversation];
      }
    }

    /** Sets the unread counter of the conversation with the id in place; nothing else changes. */
    method SetUnread(conversationId: ConversationId, count: int)
      requires Valid()
      modifies conversations
      ensures forall j :: 0 <= j < |conversations| && conversations[j].id != conversationId ==>
        unchanged(conversations[j])
      ensures forall j :: 0 <= j < |conversations| && conversations[j].id == conversationId ==>
        conversations[j].Value() == old(conversations[j].Value()).(unreadCounter := count)
    {
      var found := GetConversation(conversationId);
      if found.Some? {
        var conversation := found.value.0;
        conversation.unreadCounter := count;
        forall j | 0 <= j < |conversations| && conversations[j].id == conversationId
          ensures conversations[j] == conversation
        {
          IndexOfUnique(ConversationIds(conversations), conversationId, j);
        }
      }
    }

    /**
     * Removes the first conversation with the id, keeping the others in
     * order, and its messages too when `removeMessages` is set; reports
     * whether one was there. An absent id changes nothing.
     */
    method RemoveConversation(conversationId: ConversationId, removeMessages: bool := true) returns (removed: bool)
      requires Valid()
      modifies this
      ensures Valid()
      ensures var idx := IndexOf(old(ConversationIds(conversations)), conversationId);
        removed == (idx != -1) &&
        State() == old(State()).(
          conversations := if removed then RemoveAt(old(conversations), idx) else old(conversations),
          messages := if removed && removeMessages then old(messages) - {conversationId} else old(messages))
    {
      var idx := IndexOf(ConversationIds(conversations), conversationId);
      if idx != -1 {
        RemoveAtUnique(ConversationIds(conversations), idx);
        assert ConversationIds(RemoveAt(conversations, idx)) == RemoveAt(ConversationIds(conversations), idx);
        conversations := conversations[..idx] + conversations[idx + 1..];
        if removeMessages {
          messages := messages - {conversationId};
        }
        return true;
      }
      return false;
    }

    /**
     * Puts a freshly built copy of `conversation` at `idx`; the copy shares
     * the typing list of `conversation`.
     */
    method ReplaceConversation(conversation: Conversation<D>, idx: nat)
      requires Valid() && idx < |conversations| && conversations[idx].id == conversation.id
      modifies this
      ensures Valid()
      ensures |conversations| == |old(conversations)|
      ensures fresh(conversations[idx]) && conversations[idx].Value() == old(conversation.Value())
      ensures conversations[idx].typingUsers == conversation.typingUsers
      ensures forall j :: 0 <= j < |conversations| && j != idx ==> conversations[j] == old(conversations[j])
      ensures State() == old(State()).(conversations := conversations)
    {
      var copy := new Conversation(
        conversation.id, conversation.participants, conversation.unreadCounter, conversation.typingUsers,
        conversation.draft, conversation.description, conversation.readonly, conversation.data);
      assert ConversationIds(conversations[..idx] + [copy] + conversations[idx + 1..]) == ConversationIds(conversations);
      conversations := conversations[..idx] + [copy] + conversations[idx + 1..];
    }

    /** Replaces the stored conversation with the same id by a fresh copy of the argument; an absent id changes nothing. */
    method UpdateConversation(conversation: Conversation<D>)
      requires Valid()
      modifies this
      ensures Valid()
      ensures var idx := IndexOf(old(ConversationIds(conversations)), conversation.id);
        idx == -1 ==> State() == old(State())
      ensures var idx := IndexOf(old(ConversationIds(conversations)), conversation.id);
        idx != -1 ==>
          |conversations| == |old(conversations)| &&
          fresh(conversations[idx]) && conversations[idx].Value() == old(conversation.Value()) &&
          (forall j :: 0 <= j < |conversations| && j != idx ==> conversations[j] == old(conversations[j])) &&
          State() == old(State()).(conversations := conversations)
      ensures old(ConversationExists(conversation.id)) ==>
        GetConversation(conversation.id).Some? &&
        GetConversation(conversation.id).value.0.Value() == old(conversation.Value())
    {
      var found := GetConversation(conversation.id);
      if found.Some? {
        var idx := found.value.1;
        ReplaceConversation(conversation, idx);
        IndexOfUnique(ConversationIds(conversations), conversation.id, idx);
      }
    }

    /**
     * Adds the participant to the conversation with the id when it is not
     * there yet: the stored object gains it in place and is then replaced by
     * a fresh copy. Always reports false.
     */
    method AddParticipant(conversationId: ConversationId, participant: Participant) returns (r: bool)
      requires Valid()
      modifies this, conversations
      ensures Valid() && !r
      ensures old(GetConversation(conversationId)).None? ==>
        State() == old(State()) && forall j :: 0 <= j < |conversations| ==> unchanged(conversations[j])
      ensures old(GetConversation(conversationId)).Some? ==>
        var c, idx := old(GetConversation(conversationId)).value.0, old(GetConversation(conversationId)).value.1;
        var added := !old(c.ParticipantExists(participant.id));
        && c.Value() == old(c.Value()).(participants := if added then old(c.participants) + [participant] else old(c.participants))
        && (forall j :: 0 <= j < |old(conversations)| && j != idx ==> unchanged(old(conversations)[j]))
        && (!added ==> State() == old(State()))
        && (added ==>
              |conversations| == |old(conversations)| &&
              fresh(conversations[idx]) && conversations[idx].Value() == c.Value() &&
              (forall j :: 0 <= j < |conversations| && j != idx ==> conversations[j] == old(conversations[j])) &&
              State() == old(State()).(conversations := conversations))
    {
      var found := GetConversation(conversationId);
      if found.Some? {
        var conversation, idx := found.value.0, found.value.1;
        var added := conversation.AddParticipant(participant);
        if added {
          ReplaceConversation(conversation, idx);
        }
      }
      return false;
    }

    /**
     * Asks the conversation with the id to remove the participant (which it
     * does only for a match at an index other than 0), then replaces it by a
     * fresh copy. Reports whether the conversation exists.
     */
    method RemoveParticipant(conversationId: ConversationId, participantId: UserId) returns (r: bool)
      requires Valid()
      modifies this, conversations
      ensures Valid()
      ensures r <==> old(ConversationExists(conversationId))
      ensures !r ==> State() == old(State()) && forall j :: 0 <= j < |conversations| ==> unchanged(conversations[j])
      ensures r ==>
        var c, idx := old(GetConversation(conversationId)).value.0, old(GetConversation(conversationId)).value.1;
        var found := old(c.GetParticipant(participantId));
        var dropped := found.Some? && found.value.1 != 0;
        && c.Value() == old(c.Value()).(participants := if dropped then RemoveAt(old(c.participants), found.value.1) else old(c.participants))
        && (forall j :: 0 <= j < |old(conversations)| && j != idx ==> unchanged(old(conversations)[j]))
        && |conversations| == |old(conversations)|
        && fresh(conversations[idx]) && conversations[idx].Value() == c.Value()
        && (forall j :: 0 <= j < |conversations| && j != idx ==> conversations[j] == old(conversations[j]))
        && State() == old(State()).(conversations := conversations)
    {
      var found := GetConversation(conversationId);
      if found.Some? {
        var conversation, idx := found.value.0, found.value.1;
        var _ := conversation.RemoveParticipant(participantId);
        ReplaceConversation(conversation, idx);
        return true;
      }
      return false;
    }

    /**
     * Stores `m` in the conversation under the grouping rule: it joins the
     * conversation's last group when that group has the same sender (the
     * direction is not compared), otherwise a new group with a freshly drawn
     * id and the message's sender and direction is appended. Returns the
     * stored message, or the error of a missing id generator; a new group's
     * id is drawn before that error arises.
     */
    method AddMessage(m: ChatMessage<P>, conversationId: ConversationId, generateId: bool := false)
      returns (r: Result<ChatMessage<P>, StorageError>)
      requires Valid()
      modifies this, GroupObjects(), groupIdGenerator
      ensures Valid()
      ensures r == GetMessageWithId(m, generateId)
      ensures var joins := JoinsLast(GroupsIn(old(MessagesView()), conversationId), m);
        groupIdGenerator.drawn == old(groupIdGenerator.drawn) + (if joins then 0 else 1)
      ensures r.Err? ==> messages == old(messages) && MessagesView() == old(MessagesView())
      ensures r.Ok? ==>
        MessagesView() == old(MessagesView())[conversationId :=
          AddToGroups(GroupsIn(old(MessagesView()), conversationId), r.value, groupIdGenerator.next(old(groupIdGenerator.drawn)))]
      ensures State() == old(State()).(messages := messages)
      ensures forall g :: g in GroupObjects() ==> g in old(GroupObjects()) || fresh(g)
    {
      if conversationId in messages && messages[conversationId][|messages[conversationId]| - 1].senderId == m.senderId {
        r := AddToLastGroup(m, conversationId, generateId, groupIdGenerator.next(groupIdGenerator.drawn));
      } else {
        r := AddToNewGroup(m, conversationId, generateId);
      }
    }

    /** The joining arm of AddMessage: the stored message is pushed onto the last group, which has its sender. */
    method AddToLastGroup(m: ChatMessage<P>, cid: ConversationId, generateId: bool, gid: GroupId)
      returns (r: Result<ChatMessage<P>, StorageError>)
      requires Valid() && cid in messages && messages[cid][|messages[cid]| - 1].senderId == m.senderId
      modifies messages[cid][|messages[cid]| - 1]
      ensures Valid() && messages == old(messages)
      ensures r == GetMessageWithId(m, generateId)
      ensures JoinsLast(GroupsIn(old(MessagesView()), cid), m)
      ensures r.Err? ==> MessagesView() == old(MessagesView())
      ensures r.Ok? ==>
        MessagesView() == old(MessagesView())[cid := AddToGroups(GroupsIn(old(MessagesView()), cid), r.value, gid)]
    {
      LastGroupJoined(cid, m);
      r := GetMessageWithId(m, generateId);
      if r.Ok? {
        var groups := messages[cid];
        groups[|groups| - 1].AddMessage(r.value);
        JoinedView(cid, r.value, gid);
      }
    }

    /**
     * The other arm of AddMessage: a group id is drawn, then the stored
     * message opens a group of its own after the groups of `cid`.
     */
    method AddToNewGroup(m: ChatMessage<P>, cid: ConversationId, generateId: bool)
      returns (r: Result<ChatMessage<P>, StorageError>)
      requires Valid() && !(cid in messages && messages[cid][|messages[cid]| - 1].senderId == m.senderId)
      modifies this, groupIdGenerator
      ensures Valid()
      ensures r == GetMessageWithId(m, generateId)
      ensures !JoinsLast(GroupsIn(old(MessagesView()), cid), m)
      ensures groupIdGenerator.drawn == old(groupIdGenerator.drawn) + 1
      ensures r.Err? ==> messages == old(messages) && MessagesView() == old(MessagesView())
      ensures r.Ok? ==>
        MessagesView() == old(MessagesView())[cid :=
          AddToGroups(GroupsIn(old(MessagesView()), cid), r.value, groupIdGenerator.next(old(groupIdGenerator.drawn)))]
      ensures State() == old(State()).(messages := messages)
      ensures forall g :: g in GroupObjects() ==> g in old(GroupObjects()) || fresh(g)
    {
      LastGroupJoined(cid, m);
      var gid := groupIdGenerator.Generate();
      var group := new MessageGroup(gid, m.senderId, m.direction);
      r := GetMessageWithId(m, generateId);
      if r.Ok? {
        StoreNewGroup(cid, group, r.value);
      }
    }

    /** Helper of AddToNewGroup: `m` goes into the new, still empty group, which is stored after the groups of `cid`. */
    method StoreNewGroup(cid: ConversationId, group: MessageGroup<P>, m: ChatMessage<P>)
      requires Valid() && group !in GroupObjects() && group.messages == []
      requires !JoinsLast(GroupsIn(MessagesView(), cid), m)
      requires group.senderId == m.senderId && group.direction == m.direction
      modifies this, group
      ensures Valid()
      ensures MessagesView() == old(MessagesView())[cid := AddToGroups(GroupsIn(old(MessagesView()), cid), m, group.id)]
      ensures State() == old(State()).(messages := messages)
      ensures forall g :: g in GroupObjects() ==> g in old(GroupObjects()) || g == group
    {
      group.AddMessage(m);
      AppendGroupDistinct(messages, cid, group);
      messages := messages[cid := GroupsIn(messages, cid) + [group]];
      NewGroupView(cid, group, m, group.id);
    }

    /** Whether the last group of `cid` is from the sender of `m` is what the view's JoinsLast says. */
    lemma LastGroupJoined(cid: ConversationId, m: ChatMessage<P>)
      requires Valid()
      ensures JoinsLast(GroupsIn(MessagesView(), cid), m) <==>
        cid in messages && messages[cid][|messages[cid]| - 1].senderId == m.senderId
    {
      if cid in messages {
        var v := MessagesView()[cid];
        assert v[|v| - 1] == messages[cid][|messages[cid]| - 1].Value();
      }
    }

    /** Helper of AddMessage: when only the groups of `cid` may differ, the view differs only there. */
    twostate lemma OtherConversationsKept(new cid: ConversationId, new gs: seq<MessageGroup<P>>)
      requires messages == old(messages)[cid := gs]
      requires forall c, i :: c in old(messages) && c != cid && 0 <= i < |old(messages)[c]| ==>
        old(messages)[c][i].messages == old(messages[c][i].messages)
      ensures MessagesView() == old(MessagesView())[cid := Values(gs)]
    {
      forall c | c in old(messages) && c != cid
        ensures Values(messages[c]) == old(Values(messages[c]))
      {
        var now, before := Values(messages[c]), old(Values(messages[c]));
        assert |now| == |before|;
        forall i | 0 <= i < |now| ensures now[i] == before[i] {
          assert messages[c][i] == old(messages)[c][i];
        }
      }
    }

    /** Helper of AddMessage: the view after `m` was pushed onto the last group of `cid`. */
    twostate lemma JoinedView(new cid: ConversationId, new m: ChatMessage<P>, new gid: GroupId)
      requires old(Valid()) && cid in old(messages) && messages == old(messages)
      requires JoinsLast(old(MessagesView())[cid], m)
      requires old(messages)[cid][|old(messages)[cid]| - 1].messages == old(messages[cid][|messages[cid]| - 1].messages) + [m]
      requires forall g :: g in old(GroupObjects()) && g != old(messages)[cid][|old(messages)[cid]| - 1] ==>
        g.messages == old(g.messages)
      ensures MessagesView() == old(MessagesView())[cid := AddToGroups(old(MessagesView())[cid], m, gid)]
    {
      var gs := messages[cid];
      var n := |gs|;
      forall c, i | c in old(messages) && c != cid && 0 <= i < |old(messages)[c]|
        ensures old(messages)[c][i].messages == old(messages[c][i].messages)
      {
        assert old(messages)[c][i] in old(GroupObjects());
        assert old(messages)[c][i] != gs[n - 1];
      }
      OtherConversationsKept(cid, gs);
      var v, w := old(Values(gs)), Values(gs);
      var r := AddToGroups(v, m, gid);
      forall i | 0 <= i < n ensures w[i] == r[i] {
        if i < n - 1 {
          assert gs[i] in old(GroupObjects());
          assert gs[i] != gs[n - 1];
          assert r[i] == v[..n - 1][i];
        }
      }
      assert w == r;
    }

    /** Helper of AddMessage: the view after a fresh group was appended to `cid`. */
    twostate lemma NewGroupView(new cid: ConversationId, new group: MessageGroup<P>, new m: ChatMessage<P>, new gid: GroupId)
      requires group !in old(GroupObjects()) && group.Value() == GroupValue(gid, m.senderId, m.direction, [m])
      requires !JoinsLast(GroupsIn(old(MessagesView()), cid), m)
      requires messages == old(messages)[cid := GroupsIn(old(messages), cid) + [group]]
      requires forall g :: g in old(GroupObjects()) ==> g.messages == old(g.messages)
      ensures MessagesView() == old(MessagesView())[cid := AddToGroups(GroupsIn(old(MessagesView()), cid), m, gid)]
    {
      var gs := GroupsIn(old(messages), cid);
      forall c, i | c in old(messages) && c != cid && 0 <= i < |old(messages)[c]|
        ensures old(messages)[c][i].messages == old(messages[c][i].messages)
      {
        assert old(messages)[c][i] in old(GroupObjects());
      }
      OtherConversationsKept(cid, gs + [group]);
      var w, v := Values(gs + [group]), old(Values(gs));
      forall i | 0 <= i < |gs| ensures w[i] == v[i] {
        assert gs[i] in old(GroupObjects());
      }
      assert w == v + [group.Value()];
      assert v == GroupsIn(old(MessagesView()), cid);
    }

    /**
     * Looks up the message in every group of every conversation and asks the
     * group to replace it at the found index; since `replaceMessage` refuses
     * every index inside the group, no group changes.
     */
    method UpdateMessage(m: ChatMessage<P>)
      requires Valid()
      modifies GroupObjects()
      ensures Valid() && State() == old(State())
      ensures forall g :: g in GroupObjects() ==> g.messages == old(g.messages)
      ensures MessagesView() == old(MessagesView())
    {
      var keys := messages.Keys;
      while keys != {}
        invariant keys <= messages.Keys
        invariant forall g :: g in GroupObjects() ==> g.messages == old(g.messages)
        decreases keys
      {
        var conversationId :| conversationId in keys;
        var groups := messages[conversationId];
        var i := 0;
        while i < |groups|
          invariant 0 <= i <= |groups|
          invariant forall g :: g in GroupObjects() ==> g.messages == old(g.messages)
        {
          var group := groups[i];
          var found := group.GetMessage(m.id);
          if found.Some? {
            var _ := group.ReplaceMessage(m, found.value.1);
          }
          i := i + 1;
        }
        keys := keys - {conversationId};
      }
      GroupsKeptView();
    }

    /** Helper of UpdateMessage: with the same groups, each holding what it held, the view is the same. */
    twostate lemma GroupsKeptView()
      requires messages == old(messages)
      requires forall g :: g in old(GroupObjects()) ==> g.messages == old(g.messages)
      ensures MessagesView() == old(MessagesView())
    {
      forall c | c in messages ensures Values(messages[c]) == old(Values(messages[c])) {
        var now, before := Values(messages[c]), old(Values(messages[c]));
        forall i | 0 <= i < |now| ensures now[i] == before[i] {
          assert messages[c][i] in old(GroupObjects());
        }
      }
    }

    /** Replaces the user with the id by a copy with the new presence; an absent id changes nothing. */
    method SetPresence(userId: UserId, presence: Presence)
      requires Valid()
      modifies this
      ensures Valid()
      ensures var idx := IndexOf(old(UserIds(users)), userId);
        State() == old(State()).(users :=
          if idx == -1 then old(users) else old(users)[idx := old(users)[idx].(presence := presence)])
    {
      var found := GetUser(userId);
      if found.Some? {
        var user, idx := found.value.0, found.value.1;
        ReplaceUser(user.(presence := presence), idx);
      }
    }

    /** Puts `user` at `idx` in place of the user with its id; nothing else changes. */
    method ReplaceUser(user: User, idx: nat)
      requires Valid() && idx < |users| && users[idx].id == user.id
      modifies this
      ensures Valid()
      ensures State() == old(State()).(users := old(users)[idx := user])
    {
      assert UserIds(ReplaceAt(users, idx, user)) == UserIds(users);
      users := users[..idx] + [user] + users[idx + 1..];
    }

    /**
     * Writes the draft into the active conversation (mutating it in place)
     * and replaces it by a fresh copy; nothing happens when no conversation
     * is active or the active id is unknown.
     */
    method SetDraft(draft: string)
      requires Valid()
      modifies this, conversations
      ensures Valid()
      ensures !(IsSet(old(activeConversationId)) && old(ConversationExists(activeConversationId.value))) ==>
        State() == old(State()) && forall j :: 0 <= j < |conversations| ==> unchanged(conversations[j])
      ensures IsSet(old(activeConversationId)) && old(ConversationExists(activeConversationId.value)) ==>
        var c, idx := old(GetConversation(activeConversationId.value)).value.0, old(GetConversation(activeConversationId.value)).value.1;
        && c.Value() == old(c.Value()).(draft := draft)
        && (forall j :: 0 <= j < |old(conversations)| && j != idx ==> unchanged(old(conversations)[j]))
        && |conversations| == |old(conversations)|
        && fresh(conversations[idx]) && conversations[idx].Value() == c.Value()
        && (forall j :: 0 <= j < |conversations| && j != idx ==> conversations[j] == old(conversations[j]))
        && State() == old(State()).(conversations := conversations)
    {
      if IsSet(activeConversationId) {
        var found := GetConversation(activeConversationId.value);
        if found.Some? {
          var conversation, idx := found.value.0, found.value.1;
          conversation.draft := draft;
          ReplaceConversation(conversation, idx);
        }
      }
    }

    /** A placeholder hook: it changes nothing. */
    method ClearState()
      requires Valid()
      ensures Valid()
    {
    }

    /**
     * The snapshot: the active conversation is the first conversation with
     * the active id, and the current messages are that id's groups; both are
     * empty when the id is absent or "".
     */
    function GetState(): (s: ChatState<D, P>)
      reads this
      ensures s.currentUser == currentUser && s.users == users && s.conversations == conversations
      ensures s.messages == messages && s.currentMessage == currentMessage
      ensures s.activeConversation.Some? <==> IsSet(activeConversationId) && ConversationExists(activeConversationId.value)
      ensures s.activeConversation.Some? ==> s.activeConversation == Some(GetConversation(activeConversationId.value).value.0)
      ensures s.currentMessages ==
        if IsSet(activeConversationId) then GroupsIn(messages, activeConversationId.value) else []
    {
      var active :=
        if IsSet(activeConversationId) then
          var found := GetConversation(activeConversationId.value);
          if found.Some? then Some(found.value.0) else None
        else None;
      var current :=
        if IsSet(activeConversationId) && activeConversationId.value in messages then messages[activeConversationId.value]
        else [];
      ChatState(currentUser, users, conversations, active, current, messages, currentMessage)
    }

    /** Empties the collections and the user and conversation cursors; the message input is kept. */
    method ResetState()
      modifies this
      ensures Valid()
      ensures State() == old(State()).(currentUser := None, users := [], conversations := [],
                                       activeConversationId := None, messages := map[])
    {
      currentUser := None;
      users := [];
      conversations := [];
      activeConversationId := None;
      messages := map[];
    }

    /**
     * Sets the active conversation cursor. When `resetUnreadCounter` holds and
     * the id is set and known, that conversation's counter is zeroed in place
     * and it is replaced by a fresh copy.
     */
    method SetActiveConversation(conversationId: Option<ConversationId>, resetUnreadCounter: bool := true)
      requires Valid()
      modifies this, conversations
      ensures Valid()
      ensures activeConversationId == conversationId
      ensures !(resetUnreadCounter && IsSet(conversationId) && old(ConversationExists(conversationId.value))) ==>
        State() == old(State()).(activeConversationId := conversationId) &&
        forall j :: 0 <= j < |conversations| ==> unchanged(conversations[j])
      ensures resetUnreadCounter && IsSet(conversationId) && old(ConversationExists(conversationId.value)) ==>
        var c, idx := old(GetConversation(conversationId.value)).value.0, old(GetConversation(conversationId.value)).value.1;
        && c.Value() == old(c.Value()).(unreadCounter := 0)
        && (forall j :: 0 <= j < |old(conversations)| && j != idx ==> unchanged(old(conversations)[j]))
        && |conversations| == |old(conversations)|
        && fresh(conversations[idx]) && conversations[idx].Value() == c.Value()
        && (forall j :: 0 <= j < |conversations| && j != idx ==> conversations[j] == old(conversations[j]))
        && State() == old(State()).(activeConversationId := conversationId, conversations := conversations)
    {
      activeConversationId := conversationId;
      if resetUnreadCounter && IsSet(conversationId) {
        var found := GetConversation(conversationId.value);
        if found.Some? {
          var conversation, idx := found.value.0, found.value.1;
          conversation.unreadCounter := 0;
          ReplaceConversation(conversation, idx);
        }
      }
    }

    method SetCurrentMessage(message: string)
      modifies this
      ensures State() == old(State()).(currentMessage := message)
    {
      currentMessage := message;
    }

    /** Forgets every group of the conversation; idempotent. */
    method RemoveMessagesFromConversation(conversationId: ConversationId)
      requires Valid()
      modifies this
      ensures Valid()
      ensures State() == old(State()).(messages := old(messages) - {conversationId})
    {
      messages := messages - {conversationId};
    }
  }
}
