/**
 * A conversation: its participant list (unique by id when built through
 * `addParticipant`), counters, draft and attached data, and the typing list it
 * owns and delegates typing changes to.
 */
module Conversations {
  import opened Common
  import opened TypingUsers

  /** The `id` of every participant, in order. */
  function ParticipantIds(ps: seq<Participant>): (ids: seq<UserId>)
    ensures |ids| == |ps|
    ensures forall i :: 0 <= i < |ps| ==> ids[i] == ps[i].id
  {
    seq(|ps|, i requires 0 <= i < |ps| => ps[i].id)
  }

  /** Appending a participant whose id is new keeps the participant ids unique. */
  lemma AppendParticipantUnique(ps: seq<Participant>, p: Participant)
    requires Unique(ParticipantIds(ps)) && p.id !in ParticipantIds(ps)
    ensures Unique(ParticipantIds(ps + [p]))
  {
    var ids, ids' := ParticipantIds(ps), ParticipantIds(ps + [p]);
    forall a, b | 0 <= a < b < |ids'| ensures ids'[a] != ids'[b] {
      assert ids'[a] == ids[a];
      if b < |ps| { assert ids'[b] == ids[b]; }
    }
  }

  /** Everything a conversation holds, with its typing list read as the list's items. */
  datatype ConversationValue<D> = ConversationValue(
    id: ConversationId,
    participants: seq<Participant>,
    unreadCounter: int,
    typingUsers: seq<TypingUser>,
    draft: string,
    description: string,
    readonly: bool,
    data: Option<D>)

  class Conversation<D> {
    const id: ConversationId
    var unreadCounter: int
    var participants: seq<Participant>
    var typingUsers: TypingUsersList
    var description: string
    var draft: string
    var readonly: bool
    var data: Option<D>

    ghost function Value(): ConversationValue<D>
      reads this, typingUsers
    {
      ConversationValue(id, participants, unreadCounter, typingUsers.items, draft, description, readonly, data)
    }

    /**
     * Every parameter but the id has the source's default; with no typing
     * list given the conversation gets a fresh empty one.
     */
    constructor(
      id: ConversationId,
      participants: seq<Participant> := [],
      unreadCounter: int := 0,
      typingUsers: TypingUsersList? := null,
      draft: string := "",
      description: string := "",
      readonly: bool := false,
      data: Option<D> := None)
      ensures this.id == id && this.participants == participants
      ensures this.unreadCounter == unreadCounter
      ensures this.draft == draft && this.description == description
      ensures this.readonly == readonly && this.data == data
      ensures typingUsers != null ==> this.typingUsers == typingUsers
      ensures typingUsers == null ==> fresh(this.typingUsers) && this.typingUsers.items == []
    {
      this.id := id;
      this.unreadCounter := unreadCounter;
      this.participants := participants;
      if typingUsers == null {
        this.typingUsers := new TypingUsersList([]);
      } else {
        this.typingUsers := typingUsers;
      }
      this.draft := draft;
      this.description := description;
      this.readonly := readonly;
      this.data := data;
    }

    /** Whether some participant has the id. */
    function ParticipantExists(participantId: UserId): (b: bool)
      reads this
      ensures b <==> exists i :: 0 <= i < |participants| && participants[i].id == participantId
    {
      IndexOf(ParticipantIds(participants), participantId) != -1
    }

    /** The first participant with the id and its position, or nothing. */
    function GetParticipant(participantId: UserId): (r: Option<(Participant, nat)>)
      reads this
      ensures r.None? <==> !ParticipantExists(participantId)
      ensures r.Some? ==>
        r.value.1 < |participants| && r.value.0 == participants[r.value.1] &&
        r.value.0.id == participantId &&
        forall i :: 0 <= i < r.value.1 ==> participants[i].id != participantId
    {
      var idx := IndexOf(ParticipantIds(participants), participantId);
      if idx != -1 then Some((participants[idx], idx)) else None
    }

    /** Appends `p` unless a participant with its id is already there; nothing else changes. */
    method AddParticipant(p: Participant) returns (added: bool)
      modifies this
      ensures added <==> !old(ParticipantExists(p.id))
      ensures participants == if added then old(participants) + [p] else old(participants)
      ensures Value() == old(Value()).(participants := participants)
      ensures typingUsers == old(typingUsers)
      ensures Unique(ParticipantIds(old(participants))) ==> Unique(ParticipantIds(participants))
    {
      if !ParticipantExists(p.id) {
        if Unique(ParticipantIds(participants)) {
          AppendParticipantUnique(participants, p);
        }
        participants := participants + [p];
        return true;
      }
      return false;
    }

    /**
     * Removes the participant with the id, but only when it is found at a
     * position other than 0: the match index is tested for truthiness.
     */
    method RemoveParticipant(participantId: UserId) returns (removed: bool)
      modifies this
      ensures var found := old(GetParticipant(participantId));
        removed <==> found.Some? && found.value.1 != 0
      ensures var found := old(GetParticipant(participantId));
        participants == if removed then RemoveAt(old(participants), found.value.1) else old(participants)
      ensures Value() == old(Value()).(participants := participants)
      ensures typingUsers == old(typingUsers)
    {
      var found := GetParticipant(participantId);
      var idx := if found.Some? then found.value.1 else 0;
      if idx != 0 {
        participants := participants[..idx] + participants[idx + 1..];
        return true;
      }
      return false;
    }

    /** Upserts a typing user in the owned list; the conversation's own fields are untouched. */
    method AddTypingUser(t: TypingUser)
      modifies typingUsers
      ensures unchanged(this)
      ensures typingUsers.items == Upserted(old(typingUsers.items), t)
      ensures Value() == old(Value()).(typingUsers := typingUsers.items)
    {
      typingUsers.AddUser(t);
    }

    /** Removes a typing user from the owned list; the conversation's own fields are untouched. */
    method RemoveTypingUser(userId: UserId)
      modifies typingUsers
      ensures unchanged(this)
      ensures typingUsers.items == Removed(old(typingUsers.items), userId)
      ensures Value() == old(Value()).(typingUsers := typingUsers.items)
    {
      typingUsers.RemoveUser(userId);
    }
  }

  /** A conversation built from an id alone has every default of the source. */
  method DefaultConversation<D>(id: ConversationId) returns (c: Conversation<D>)
    ensures fresh(c) && fresh(c.typingUsers)
    ensures c.Value() == ConversationValue(id, [], 0, [], "", "", false, None)
  {
    c := new Conversation(id);
  }
}
