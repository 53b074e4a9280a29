/**
 * The list of users currently typing in one conversation: an upsert/remove
 * list keyed by `userId` whose `items` field is rebuilt on every change.
 */
module TypingUsers {
  import opened Common

  /** The `userId` of every entry, in order. */
  function TypingUserIds(items: seq<TypingUser>): (ids: seq<UserId>)
    ensures |ids| == |items|
    ensures forall i :: 0 <= i < |items| ==> ids[i] == items[i].userId
  {
    seq(|items|, i requires 0 <= i < |items| => items[i].userId)
  }

  /** The items after `addUser(t)`: an entry with the same `userId` is replaced where it stands, otherwise `t` goes last. */
  function Upserted(items: seq<TypingUser>, t: TypingUser): (r: seq<TypingUser>)
    ensures t.userId in TypingUserIds(items) ==>
      var idx := IndexOf(TypingUserIds(items), t.userId);
      |r| == |items| && r[idx] == t &&
      forall j :: 0 <= j < |items| && j != idx ==> r[j] == items[j]
    ensures t.userId !in TypingUserIds(items) ==> r == items + [t]
  {
    var idx := IndexOf(TypingUserIds(items), t.userId);
    if idx != -1 then ReplaceAt(items, idx, t) else items + [t]
  }

  /** The items after `removeUser(userId)`: the first entry with that id is dropped, the others keep their order. */
  function Removed(items: seq<TypingUser>, userId: UserId): (r: seq<TypingUser>)
    ensures userId !in TypingUserIds(items) ==> r == items
    ensures userId in TypingUserIds(items) ==>
      var idx := IndexOf(TypingUserIds(items), userId);
      |r| == |items| - 1 &&
      (forall j :: 0 <= j < idx ==> r[j] == items[j]) &&
      (forall j :: idx <= j < |r| ==> r[j] == items[j + 1])
  {
    var idx := IndexOf(TypingUserIds(items), userId);
    if idx != -1 then RemoveAt(items, idx) else items
  }

  /**
   * Upserting keeps the user ids unique, and afterwards exactly one entry
   * carries `t.userId`: `t` itself.
   */
  lemma {:induction false} UpsertedUnique(items: seq<TypingUser>, t: TypingUser)
    requires Unique(TypingUserIds(items))
    ensures Unique(TypingUserIds(Upserted(items, t)))
    ensures t in Upserted(items, t)
    ensures forall u :: u in Upserted(items, t) && u.userId == t.userId ==> u == t
  {
    var r := Upserted(items, t);
    var ids, rids := TypingUserIds(items), TypingUserIds(r);
    if t.userId in ids {
      var idx := IndexOf(ids, t.userId);
      assert r[idx] == t;
      forall a, b | 0 <= a < b < |rids| ensures rids[a] != rids[b] {
        if a != idx && b != idx {
          assert rids[a] == ids[a] && rids[b] == ids[b];
        } else if a == idx {
          assert rids[a] == ids[idx] && rids[b] == ids[b];
        } else {
          assert rids[b] == ids[idx] && rids[a] == ids[a];
        }
      }
      forall k | 0 <= k < |r| && k != idx ensures r[k].userId != t.userId {
        assert r[k] == items[k] && ids[k] != ids[idx];
      }
      forall u | u in r && u.userId == t.userId ensures u == t {
        var k :| 0 <= k < |r| && r[k] == u;
      }
    } else {
      forall a, b | 0 <= a < b < |rids| ensures rids[a] != rids[b] {
        if b == |items| {
          assert rids[b] == t.userId && rids[a] == ids[a];
        } else {
          assert rids[a] == ids[a] && rids[b] == ids[b];
        }
      }
      forall k | 0 <= k < |items| ensures r[k].userId != t.userId {
        assert r[k] == items[k] && ids[k] == items[k].userId;
      }
      forall u | u in r && u.userId == t.userId ensures u == t {
        var k :| 0 <= k < |r| && r[k] == u;
      }
      assert r[|items|] == t;
    }
  }

  /** Removing from a list with unique ids keeps them unique, and leaves no entry with that id. */
  lemma {:induction false} RemovedUnique(items: seq<TypingUser>, userId: UserId)
    requires Unique(TypingUserIds(items))
    ensures Unique(TypingUserIds(Removed(items, userId)))
    ensures userId !in TypingUserIds(Removed(items, userId))
  {
    var ids := TypingUserIds(items);
    if userId in ids {
      var idx := IndexOf(ids, userId);
      RemoveAtUnique(ids, idx);
      assert TypingUserIds(Removed(items, userId)) == RemoveAt(ids, idx);
    }
  }

  /** Removing a user who was just added as new gives back the list as it was. */
  lemma {:induction false} RemovedUndoesNewUpsert(items: seq<TypingUser>, t: TypingUser)
    requires t.userId !in TypingUserIds(items)
    ensures Removed(Upserted(items, t), t.userId) == items
  {
    var r := items + [t];
    assert TypingUserIds(r) == TypingUserIds(items) + [t.userId];
    assert IndexOf(TypingUserIds(r), t.userId) == |items|;
    assert RemoveAt(r, |items|) == items;
  }

  class TypingUsersList {
    var items: seq<TypingUser>

    constructor(items: seq<TypingUser>)
      ensures this.items == items
    {
      this.items := items;
    }

    /** The `length` getter. */
    function Length(): (n: nat)
      reads this
      ensures n == |items|
    {
      |items|
    }

    /** The first position whose `userId` matches, or -1. */
    function FindIndex(userId: UserId): (r: int)
      reads this
      ensures -1 <= r < |items|
      ensures r == -1 <==> forall i :: 0 <= i < |items| ==> items[i].userId != userId
      ensures 0 <= r ==> items[r].userId == userId && forall i :: 0 <= i < r ==> items[i].userId != userId
    {
      IndexOf(TypingUserIds(items), userId)
    }

    /** Adds `t`, replacing an entry with the same `userId` if there is one. */
    method AddUser(t: TypingUser)
      modifies this
      ensures items == Upserted(old(items), t)
    {
      var idx := FindIndex(t.userId);
      if idx != -1 {
        items := items[..idx] + [t] + items[idx + 1..];
      } else {
        items := items + [t];
      }
    }

    /** Removes the entry with `userId`, if any. */
    method RemoveUser(userId: UserId)
      modifies this
      ensures items == Removed(old(items), userId)
    {
      var idx := FindIndex(userId);
      if idx != -1 {
        items := items[..idx] + items[idx + 1..];
      }
    }
  }
}
