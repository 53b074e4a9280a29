# use-chat in-memory storage, modelled in Dafny

This project models the in-memory chat storage of the `@chatscope/use-chat`
library and proves properties of it. It covers:

- the `BasicStorage` aggregate: users, conversations, grouped messages, and the
  current-user, active-conversation and message-input cursors;
- the `Conversation` it stores, with its participants and its typing list;
- the `MessageGroup`, a run of messages from one sender;
- the `TypingUsersList`, an upsert/remove list keyed by user id.

Every source class whose fields are updated in place is a Dafny `class`.
Its methods carry `modifies` clauses, and their `ensures` state the whole new
state. Two value views support this:

- `Value()` on a conversation or a group gives its contents as a datatype;
- `BasicStorage.State()` gives the storage's own fields as a datatype.

Read-only queries are functions with `reads` clauses. Users, participants,
typing users, presences and messages are plain records, so they are datatypes.

The grouping rule of `addMessage` is also stated on values, in module
`Grouping`. `AddToGroups` is its one-step function, and the storage's
`AddMessage` is proved to produce exactly it. On values the model proves:

- adding keeps a conversation well grouped: groups are non-empty, each holds
  one sender's messages, and neighbouring groups have different senders;
- adding appends exactly the message to the flattened stream;
- a stream has only one well-grouped decomposition, so storing a stream
  produces exactly its maximal same-sender runs.

Files and modules:

| file | module | source |
|---|---|---|
| common.dfy | `Common` | ids, records, enumerations; the `findIndex`/`slice`/`concat` helpers |
| typing_users_list.dfy | `TypingUsers` | src/TypingUsersList.ts |
| conversation.dfy | `Conversations` | src/Conversation.ts |
| message_group.dfy | `MessageGroups` | src/MessageGroup.ts |
| grouping.dfy | `Grouping` | the grouping rule of src/BasicStorage.ts `addMessage`, on values |
| basic_storage.dfy | `Storage` | src/BasicStorage.ts |
| scenario.dfy | `Scenarios` | repeated `addMessage` calls on one storage object |

Modelling choices:

- **Not-found results.** A lookup that returns `[value, index]` or
  `[undefined, undefined]` becomes `Option<(value, nat)>`.
- **The thrown message-id error.** "Id generator is not defined" becomes
  `Result.Err(IdGeneratorNotDefined)`.
- **The message-id generator** is an `Option` of a function, so its absence
  can be represented.
- **The group-id generator** is an object. It counts the ids it has handed
  out, and the id it hands out is a fixed function of that count. So the model
  records when `addMessage` draws an id: only on the new-group path, and
  before the message-id error can arise.
- **JavaScript truthiness.** For an optional conversation id this is the
  predicate `IsSet`: absent and `""` both count as no id. A number index used
  as a condition is compared with 0.
- **Record copies.** `{ ...participant }` and `{ ...message, id }` are value
  copies, because records are datatypes.
- **The storage invariant `Valid()`.** It says four things:
  - user ids are unique;
  - conversation ids are unique;
  - every key of `messages` maps to at least one group;
  - no group object is recorded twice.

  The constructor establishes it and every operation preserves it. The
  non-empty part is what makes the last-group access of `addMessage` safe.

The source's quirks are kept as written:

- `replaceMessage` tests `length > index` and refuses every index inside the
  group. So the storage's `updateMessage` never changes a group.
- A group's `updateMessage` concatenates onto the whole old array, which
  doubles the group.
- `Conversation.removeParticipant` tests the found index for truthiness, so a
  participant at index 0 is never removed.
- `BasicStorage.addParticipant` always returns false.
- `BasicStorage.removeParticipant` returns true whenever the conversation
  exists.
- `resetState` keeps `currentMessage`.
- `clearState` does nothing.
- Grouping compares `senderId` only, never `direction`.
- The storage reads `message.senderId`, while src/ChatMessage.ts:67 declares
  `sender: Sender`. The code is followed: the message record has a `senderId`
  field.

## Model

| member | source | states |
|---|---|---|
| Common.IndexOf | src/TypingUsersList.ts:22-24 | `findIndex`: the result is -1 exactly when the key is absent; otherwise it is the first position holding the key |
| Common.RemoveAt | src/TypingUsersList.ts:52 | `slice(0, i).concat(slice(i + 1))`: one element shorter; positions before `i` are kept, and later ones shift down by one |
| Common.ReplaceAt | src/BasicStorage.ts:238-243 | `slice(0, i).concat(x).concat(slice(i + 1))` is the sequence with only position `i` replaced |
| Common.Slice | src/MessageGroup.ts:70-73 | `slice` clamps both bounds to the length: a range inside, the rest of the sequence, or empty |
| Common.AppendUnique | src/BasicStorage.ts:87-94 | appending a key that is absent keeps keys unique |
| Common.RemoveAtUnique | src/BasicStorage.ts:101-110 | removing a position keeps keys unique, and the removed key no longer occurs |
| TypingUsers.Upserted | src/TypingUsersList.ts:31-42 | for an existing user id only the first match is replaced and the length is kept; otherwise the entry is appended |
| TypingUsers.Removed | src/TypingUsersList.ts:48-54 | for an absent id nothing changes; otherwise the first match is dropped and the others keep their order |
| TypingUsers.UpsertedUnique | src/TypingUsersList.ts:31-42 | upserting keeps user ids unique; afterwards the argument is present and is the only entry with its id |
| TypingUsers.RemovedUnique | src/TypingUsersList.ts:48-54 | given unique ids, removing keeps them unique and leaves no entry with that id |
| TypingUsers.RemovedUndoesNewUpsert | src/TypingUsersList.ts:31-54 | removing a user just added under a new id restores the list |
| TypingUsers.TypingUsersList.constructor | src/TypingUsersList.ts:14-16 | the list holds the given items |
| TypingUsers.TypingUsersList.Length | src/TypingUsersList.ts:18-20 | `length` is the number of items |
| TypingUsers.TypingUsersList.FindIndex | src/TypingUsersList.ts:22-24 | -1 exactly when no item has the id; otherwise the first matching position |
| TypingUsers.TypingUsersList.AddUser | src/TypingUsersList.ts:31-42 | the new items are `Upserted(old items, t)` |
| TypingUsers.TypingUsersList.RemoveUser | src/TypingUsersList.ts:48-54 | the new items are `Removed(old items, userId)` |
| Conversations.AppendParticipantUnique | src/Conversation.ts:78-85 | appending a participant with a new id keeps participant ids unique |
| Conversations.Conversation.constructor | src/Conversation.ts:26-44 | every field is set from its argument; with no typing list given, a fresh empty one is made |
| Conversations.DefaultConversation | src/Conversation.ts:26-44 | a conversation built from an id alone has no participants, unread counter 0, empty draft and description, is not read-only, has no data, and has a fresh empty typing list |
| Conversations.Conversation.ParticipantExists | src/Conversation.ts:51-53 | true exactly when some participant has the id |
| Conversations.Conversation.GetParticipant | src/Conversation.ts:60-69 | nothing exactly when `participantExists` is false; otherwise the first matching participant and its position |
| Conversations.Conversation.AddParticipant | src/Conversation.ts:78-85 | returns true exactly when the id was absent; then the participant is appended, otherwise nothing changes; unique ids stay unique |
| Conversations.Conversation.RemoveParticipant | src/Conversation.ts:93-103 | removes and returns true exactly when the first match is at a position other than 0; otherwise nothing changes |
| Conversations.Conversation.AddTypingUser | src/Conversation.ts:110-112 | only the typing list changes, to `Upserted(old items, t)` |
| Conversations.Conversation.RemoveTypingUser | src/Conversation.ts:118-120 | only the typing list changes, to `Removed(old items, userId)` |
| MessageGroups.MessageGroup.constructor | src/MessageGroup.ts:12-22 | the id, sender and direction are the arguments (constants from then on), and there are no messages |
| MessageGroups.MessageGroup.AddMessage | src/MessageGroup.ts:24-26 | the message is pushed at the end; earlier messages are kept |
| MessageGroups.MessageGroup.GetMessage | src/MessageGroup.ts:28-38 | nothing exactly when no message has the id; otherwise the first match and its position |
| MessageGroups.MessageGroup.UpdateMessage | src/MessageGroup.ts:44-53 | an absent id changes nothing; a match at `idx` makes the messages `old + old[idx := m]`, twice the old length |
| MessageGroups.MessageGroup.ReplaceMessage | src/MessageGroup.ts:62-76 | returns true exactly when `index >= length`; false changes nothing, true makes the messages `old + old + [m]` |
| Grouping.AddToGroups | src/BasicStorage.ts:293-322 | a message joins the last group exactly when that group has its sender; otherwise a new single-message group with its sender, its direction and the offered id goes last |
| Grouping.AddToGroupsSound | src/BasicStorage.ts:293-322 | one add keeps the groups well grouped and appends exactly the message to the flattened stream |
| Grouping.AddToGroupsFlatten | src/BasicStorage.ts:293-322 | whether or not the groups are well formed, one add appends exactly the message to the flattened stream |
| Grouping.AddAllWellGrouped | src/BasicStorage.ts:293-322 | any sequence of adds keeps the groups well grouped |
| Grouping.AddAllFlatten | src/BasicStorage.ts:293-322 | any sequence of adds appends the messages, in call order, to the flattened stream |
| Grouping.WellGroupedDetermined | src/BasicStorage.ts:293-322 | two well-grouped sequences with the same stream have the same groups, up to group ids and directions |
| Grouping.GroupsAreMaximalRuns | src/BasicStorage.ts:293-322 | adds to an empty conversation give the maximal same-sender runs of the stream, whatever ids are offered |
| Grouping.SameSenderOneGroup | src/BasicStorage.ts:293-322 | messages all from one sender end in a single group that holds them in call order |
| Grouping.DirectionIgnored | src/BasicStorage.ts:298 | a message from the last group's sender joins that group even when its direction differs |
| Grouping.TwoSendersSession | src/BasicStorage.ts:288-323 | two messages from one sender share a group; a following message from another sender opens a second group with the next id |
| Scenarios.NewStorage | src/BasicStorage.ts:46-49 | a new storage without a message-id generator holds no messages and has drawn no group id |
| Scenarios.OneMessageStored | src/BasicStorage.ts:288-323 | on a new storage, the first message of a conversation opens one group with the first drawn id |
| Scenarios.TwoSameSenderStored | src/BasicStorage.ts:288-323 | a second `addMessage` call from the same sender joins that group, which then holds both messages in call order, and draws no id |
| Scenarios.TwoSendersStored | src/BasicStorage.ts:288-323 | a third `addMessage` call from another sender opens a second group with the next drawn id |
| Storage.RemoveUndoesAddUser | src/BasicStorage.ts:87-110 | removing the user just added under a new id restores the users |
| Storage.RemoveUndoesAddConversation | src/BasicStorage.ts:157-204 | removing the conversation just added under a new id restores the conversations |
| Storage.AppendGroupDistinct | src/BasicStorage.ts:317-320 | storing a group that is recorded nowhere keeps all recorded groups distinct |
| Storage.GroupIdGenerator.Generate | src/BasicStorage.ts:308 | the id is the generator's function of the count drawn so far, and the count goes up by one |
| Storage.BasicStorage.constructor | src/BasicStorage.ts:32-49 | the generators are the arguments; no current user, no users, conversations, active id or messages, and an empty message input |
| Storage.BasicStorage.GetMessageWithId | src/BasicStorage.ts:51-64 | an error exactly when an id is asked for and there is no generator; the message itself when no id is asked for; otherwise the message with the generated id |
| Storage.BasicStorage.UserExists | src/BasicStorage.ts:70-72 | true exactly when some user has the id |
| Storage.BasicStorage.SetCurrentUser | src/BasicStorage.ts:78-80 | only the current user changes |
| Storage.BasicStorage.AddUser | src/BasicStorage.ts:87-94 | returns true exactly when no user had the id; then the user is appended, otherwise nothing changes |
| Storage.BasicStorage.RemoveUser | src/BasicStorage.ts:101-110 | returns true exactly when the id is present; then the first match is removed and the others keep their order; otherwise nothing changes |
| Storage.BasicStorage.GetUser | src/BasicStorage.ts:117-125 | nothing exactly when the user does not exist; otherwise the first matching user and its position |
| Storage.BasicStorage.ConversationExists | src/BasicStorage.ts:131-133 | true exactly when some conversation has the id |
| Storage.BasicStorage.GetConversation | src/BasicStorage.ts:140-150 | nothing exactly when the conversation does not exist; otherwise the first match and its position |
| Storage.BasicStorage.AddConversation | src/BasicStorage.ts:157-164 | returns true exactly when no conversation had the id; then it is appended, otherwise nothing changes |
| Storage.BasicStorage.SetUnread | src/BasicStorage.ts:171-177 | the conversation with the id gets the new unread counter in place; every other conversation and the storage are untouched |
| Storage.BasicStorage.RemoveConversation | src/BasicStorage.ts:185-204 | returns true exactly when the id is present; then the first match is removed, and its messages too only when `removeMessages` is set; otherwise nothing changes |
| Storage.BasicStorage.UpdateConversation | src/BasicStorage.ts:210-215 | an absent id changes nothing; otherwise only the found position gets a fresh conversation equal in value to the argument, and looking the id up again finds that value |
| Storage.BasicStorage.ReplaceConversation | src/BasicStorage.ts:217-236 | the found position gets a fresh copy sharing the typing list; length and all other positions are unchanged |
| Storage.BasicStorage.ReplaceUser | src/BasicStorage.ts:238-243 | only the user at the index is replaced |
| Storage.BasicStorage.AddParticipant | src/BasicStorage.ts:252-265 | always false; the participant is added only when the conversation exists and lacks it, and then that position is replaced by a fresh copy |
| Storage.BasicStorage.RemoveParticipant | src/BasicStorage.ts:273-286 | true exactly when the conversation exists, whether or not a participant was removed; then that position is replaced by a fresh copy |
| Storage.BasicStorage.AddMessage | src/BasicStorage.ts:288-323 | returns the message as `getMessageWithId` makes it; on success the conversation's groups become `AddToGroups` of the old ones, and other conversations are untouched; on error no group changes; a group id is drawn exactly when no join happens; every group object held afterwards was held before or is freshly allocated |
| Storage.BasicStorage.AddToLastGroup | src/BasicStorage.ts:298-303 | the join arm: the stored message is pushed onto the last group and no group id is drawn |
| Storage.BasicStorage.AddToNewGroup | src/BasicStorage.ts:307-322 | the new-group arm: one group id is drawn, then on success a single-message group with that id goes last as a fresh object |
| Storage.BasicStorage.LastGroupJoined | src/BasicStorage.ts:293-298 | the source's test (key present and last group from the sender) is `JoinsLast` on the stored groups |
| Storage.BasicStorage.UpdateMessage | src/BasicStorage.ts:330-345 | no group's messages change and nothing else changes |
| Storage.BasicStorage.SetPresence | src/BasicStorage.ts:352-359 | an absent id changes nothing; otherwise only the found user's presence changes |
| Storage.BasicStorage.SetDraft | src/BasicStorage.ts:365-376 | nothing happens unless the active id is set and known; then that conversation's draft changes and its position is replaced by a fresh copy |
| Storage.BasicStorage.ClearState | src/BasicStorage.ts:378 | changes nothing |
| Storage.BasicStorage.GetState | src/BasicStorage.ts:380-396 | the snapshot carries the fields; the active conversation is the first with the active id when that id is set; the current messages are that id's groups, or none |
| Storage.BasicStorage.ResetState | src/BasicStorage.ts:398-404 | empties the users, conversations and messages and clears the two cursors; the message input is kept |
| Storage.BasicStorage.SetActiveConversation | src/BasicStorage.ts:413-426 | the cursor is always set; the counter is zeroed and the position replaced by a fresh copy only when the flag is on and the id is set and known |
| Storage.BasicStorage.SetCurrentMessage | src/BasicStorage.ts:432-434 | only the message input changes |
| Storage.BasicStorage.RemoveMessagesFromConversation | src/BasicStorage.ts:440-442 | only the conversation's messages key is removed |

## Left out

- I/O, the React provider and its hooks, the debounce and throttle timers, and the example chat service are not part of this model. They are event wiring and time-based scheduling around the storage.
- JavaScript `in` on a plain object also finds inherited names such as `"toString"`. The model's `messages` is a map with no such keys.
- Numbers are unbounded integers. The unread counter has no floating-point or `NaN` behaviour.
- The body of a message is opaque: its content type, content, times and data. The storage never inspects it.
- `Date` fields and `any`/`unknown` data are type parameters or opaque.
- The `MessageDirection` and `UserStatus` enumeration files are not part of this model. Direction is `Incoming | Outgoing`; a presence status is an opaque value that the storage passes through unchanged, and the default `Presence` record is not modelled because no core operation builds one.
- Storage.BasicStorage.SetPresence: in the source the found `User` object is mutated, so any other holder of that object, such as the current user cursor, also sees the new presence. Users here are values, so only the users sequence changes.
- Storage.BasicStorage.UpdateMessage: the loop visits conversation ids in an arbitrary order, not in JavaScript key order. No group changes on any visit, so the order cannot be observed.
- Storage.BasicStorage.GetState: the snapshot's `users`, `conversations`, `currentMessages` and `messages` are values (sequences and a map) that hold the live conversation and group objects. The source returns the live `messages` object itself, and later `addMessage`, `removeConversation` and `removeMessagesFromConversation` calls add, replace or delete its entries in place. So a source snapshot sees those entries change, while the model's snapshot keeps the entries it was taken with. Changes made inside a conversation or group object are seen by both.
