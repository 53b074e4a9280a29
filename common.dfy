/**
 * Identifiers, enumerations and plain records of the chat state, together with
 * the sequence helpers that every collection of the storage shares: the
 * first-index search behind each `findIndex`, and the slice/concat rebuilds.
 */
module Common {

  type UserId = string
  type ConversationId = string
  type MessageId = string
  type GroupId = string

  datatype Option<+T> = None | Some(value: T)

  datatype Result<+T, +E> = Ok(value: T) | Err(error: E)

  /** A conversation permission is `unknown` to the library: nothing inspects it. */
  type Permission

  datatype ConversationRole = ConversationRole(permissions: seq<Permission>)

  datatype Participant = Participant(id: UserId, role: ConversationRole)

  /** A presence status is passed through unchanged: nothing in the storage inspects it. */
  type UserStatus

  datatype Presence = Presence(status: UserStatus, description: string)

  datatype User = User(
    id: UserId,
    presence: Presence,
    firstName: string,
    lastName: string,
    username: string,
    email: string,
    avatar: string,
    bio: string)

  datatype TypingUser = TypingUser(userId: UserId, content: string, isTyping: bool)

  datatype MessageDirection = Incoming | Outgoing

  datatype MessageStatus = Pending | Sent | DeliveredToCloud | DeliveredToDevice | Seen

  /**
   * A chat message. `body` stands for everything the storage never looks at:
   * the content type, the content itself, the creation and update times and the
   * attached data.
   */
  datatype ChatMessage<P> = ChatMessage(
    id: MessageId,
    status: MessageStatus,
    senderId: UserId,
    direction: MessageDirection,
    body: P)

  /** No key occurs twice. */
  predicate Unique<K(==)>(ks: seq<K>) {
    forall i, j :: 0 <= i < j < |ks| ==> ks[i] != ks[j]
  }

  /** `Array.prototype.findIndex` on a sequence of keys: the first position of `k`, or -1. */
  function IndexOf<K(==)>(ks: seq<K>, k: K): (r: int)
    ensures -1 <= r < |ks|
    ensures r == -1 <==> k !in ks
    ensures 0 <= r ==> ks[r] == k && forall j :: 0 <= j < r ==> ks[j] != k
  {
    if |ks| == 0 then -1
    else if ks[0] == k then 0
    else
      var i := IndexOf(ks[1..], k);
      if i == -1 then -1 else i + 1
  }

  /** In a sequence without repeated keys the found position is the only one holding `k`. */
  lemma IndexOfUnique<K>(ks: seq<K>, k: K, j: nat)
    requires Unique(ks) && j < |ks| && ks[j] == k
    ensures IndexOf(ks, k) == j
  {
  }

  /** Appending a key that is not there keeps the keys unique. */
  lemma AppendUnique<K>(ks: seq<K>, k: K)
    requires Unique(ks) && k !in ks
    ensures Unique(ks + [k])
  {
    var r := ks + [k];
    forall a, b | 0 <= a < b < |r| ensures r[a] != r[b] {
      assert r[a] == ks[a];
      if b < |ks| { assert r[b] == ks[b]; }
    }
  }

  /** `s.slice(0, i).concat(s.slice(i + 1))` for an index in range. */
  function RemoveAt<T>(s: seq<T>, i: nat): (r: seq<T>)
    requires i < |s|
    ensures |r| == |s| - 1
    ensures forall j :: 0 <= j < i ==> r[j] == s[j]
    ensures forall j :: i <= j < |r| ==> r[j] == s[j + 1]
  {
    s[..i] + s[i + 1..]
  }

  /** Removing one position of a sequence without repeated keys leaves one without repeated keys, and without the removed key. */
  lemma {:induction false} RemoveAtUnique<K>(ks: seq<K>, i: nat)
    requires Unique(ks) && i < |ks|
    ensures Unique(RemoveAt(ks, i))
    ensures ks[i] !in RemoveAt(ks, i)
  {
    var r := RemoveAt(ks, i);
    forall a, b | 0 <= a < b < |r| ensures r[a] != r[b] {
      var a' := if a < i then a else a + 1;
      var b' := if b < i then b else b + 1;
      assert r[a] == ks[a'] && r[b] == ks[b'] && a' < b';
    }
    forall j | 0 <= j < |r| ensures r[j] != ks[i] {
      var j' := if j < i then j else j + 1;
      assert r[j] == ks[j'] && j' != i;
    }
  }

  /** `s.slice(0, i).concat(x).concat(s.slice(i + 1))` for an index in range. */
  function ReplaceAt<T>(s: seq<T>, i: nat, x: T): (r: seq<T>)
    requires i < |s|
    ensures r == s[i := x]
  {
    s[..i] + [x] + s[i + 1..]
  }

  /** `s.slice(start, end)` for non-negative bounds: both are clamped to the length. */
  function Slice<T>(s: seq<T>, start: nat, end: nat): (r: seq<T>)
    ensures start <= end <= |s| ==> r == s[start..end]
    ensures end <= start || |s| <= start ==> r == []
    ensures start <= |s| <= end ==> r == s[start..]
  {
    var e := if end < |s| then end else |s|;
    if start < e then s[start..e] else []
  }
}
