/**
 * The message-grouping rule of the storage, stated on values: a message joins
 * the last group of its conversation when that group has the same sender
 * (the direction is not compared), and otherwise opens a new group. The lemmas
 * show that repeated adds cut the message stream into its maximal same-sender
 * runs, and nothing else.
 */
module Grouping {
  import opened Common
  import opened MessageGroups

  /** Whether `m` is appended to the last of `groups` rather than opening a new group. */
  predicate JoinsLast<P>(groups: seq<GroupValue<P>>, m: ChatMessage<P>) {
    |groups| > 0 && groups[|groups| - 1].senderId == m.senderId
  }

  /** The groups of one conversation after `m` is stored; `gid` is the id a new group gets. */
  function AddToGroups<P>(groups: seq<GroupValue<P>>, m: ChatMessage<P>, gid: GroupId): (r: seq<GroupValue<P>>)
    ensures JoinsLast(groups, m) ==>
      |r| == |groups| && r[..|groups| - 1] == groups[..|groups| - 1] &&
      r[|groups| - 1] == groups[|groups| - 1].(messages := groups[|groups| - 1].messages + [m])
    ensures !JoinsLast(groups, m) ==>
      r == groups + [GroupValue(gid, m.senderId, m.direction, [m])]
  {
    if JoinsLast(groups, m) then
      var last := groups[|groups| - 1];
      groups[..|groups| - 1] + [last.(messages := last.messages + [m])]
    else
      groups + [GroupValue(gid, m.senderId, m.direction, [m])]
  }

  /** Storing `ms` one after another, the k-th message offering `gids[k]` as a new group's id. */
  function AddAll<P>(groups: seq<GroupValue<P>>, ms: seq<ChatMessage<P>>, gids: seq<GroupId>): seq<GroupValue<P>>
    requires |gids| == |ms|
    decreases |ms|
  {
    if |ms| == 0 then groups
    else AddAll(AddToGroups(groups, ms[0], gids[0]), ms[1..], gids[1..])
  }

  /** All messages of all groups, in order. */
  function Flatten<P>(groups: seq<GroupValue<P>>): seq<ChatMessage<P>>
    decreases |groups|
  {
    if |groups| == 0 then []
    else Flatten(groups[..|groups| - 1]) + groups[|groups| - 1].messages
  }

  /**
   * Every group holds at least one message, every message in a group is from
   * the group's sender, and neighbouring groups have different senders.
   */
  predicate WellGrouped<P>(groups: seq<GroupValue<P>>) {
    && (forall i :: 0 <= i < |groups| ==> |groups[i].messages| > 0)
    && (forall i, j :: 0 <= i < |groups| && 0 <= j < |groups[i].messages| ==>
          groups[i].messages[j].senderId == groups[i].senderId)
    && (forall i :: 0 < i < |groups| ==> groups[i - 1].senderId != groups[i].senderId)
  }

  /** What grouping determines: each group's sender and messages, not its id or direction. */
  function Shape<P>(groups: seq<GroupValue<P>>): (s: seq<(UserId, seq<ChatMessage<P>>)>)
    ensures |s| == |groups|
    ensures forall i :: 0 <= i < |groups| ==> s[i] == (groups[i].senderId, groups[i].messages)
  {
    seq(|groups|, i requires 0 <= i < |groups| => (groups[i].senderId, groups[i].messages))
  }

  lemma WellGroupedPrefix<P>(groups: seq<GroupValue<P>>, k: nat)
    requires WellGrouped(groups) && k <= |groups|
    ensures WellGrouped(groups[..k])
  {
  }

  /** In a well-grouped sequence the last flattened message is from the last group's sender. */
  lemma FlattenLast<P>(groups: seq<GroupValue<P>>)
    requires WellGrouped(groups) && |groups| > 0
    ensures |Flatten(groups)| > 0
    ensures Flatten(groups)[|Flatten(groups)| - 1].senderId == groups[|groups| - 1].senderId
  {
    var last := groups[|groups| - 1];
    assert Flatten(groups) == Flatten(groups[..|groups| - 1]) + last.messages;
    assert last.messages[|last.messages| - 1].senderId == last.senderId;
  }

  /** One add keeps the groups well formed and appends exactly `m` to the flattened stream. */
  lemma {:induction false} AddToGroupsSound<P>(groups: seq<GroupValue<P>>, m: ChatMessage<P>, gid: GroupId)
    requires WellGrouped(groups)
    ensures WellGrouped(AddToGroups(groups, m, gid))
    ensures Flatten(AddToGroups(groups, m, gid)) == Flatten(groups) + [m]
  {
    AddToGroupsFlatten(groups, m, gid);
    if JoinsLast(groups, m) {
      JoinSound(groups, m, gid);
    } else {
      OpenWellGrouped(groups, GroupValue(gid, m.senderId, m.direction, [m]));
    }
  }

  /** One add appends exactly `m` to the flattened stream, whatever the groups. */
  lemma {:induction false} AddToGroupsFlatten<P>(groups: seq<GroupValue<P>>, m: ChatMessage<P>, gid: GroupId)
    ensures Flatten(AddToGroups(groups, m, gid)) == Flatten(groups) + [m]
  {
    var r := AddToGroups(groups, m, gid);
    var n := |groups|;
    if JoinsLast(groups, m) {
      var last := groups[n - 1];
      assert r[..n - 1] == groups[..n - 1];
      assert Flatten(r) == Flatten(r[..n - 1]) + (last.messages + [m]);
      assert Flatten(groups) == Flatten(groups[..n - 1]) + last.messages;
    } else {
      OpenFlatten(groups, GroupValue(gid, m.senderId, m.direction, [m]));
    }
  }

  /** The joining arm of `AddToGroupsSound`: the well-formedness half. */
  lemma {:induction false} JoinSound<P>(groups: seq<GroupValue<P>>, m: ChatMessage<P>, gid: GroupId)
    requires WellGrouped(groups) && JoinsLast(groups, m)
    ensures WellGrouped(AddToGroups(groups, m, gid))
  {
    var r := AddToGroups(groups, m, gid);
    var n := |groups|;
    var last := groups[n - 1];
    assert r[n - 1] == last.(messages := last.messages + [m]);
    forall i | 0 <= i < n - 1 ensures r[i] == groups[i] {
      assert r[i] == r[..n - 1][i];
    }
    forall i | 0 <= i < |r| ensures |r[i].messages| > 0 {
      if i < n - 1 { assert r[i] == groups[i]; }
    }
    forall i, j | 0 <= i < |r| && 0 <= j < |r[i].messages|
      ensures r[i].messages[j].senderId == r[i].senderId
    {
      if i < n - 1 {
        assert r[i] == groups[i];
      } else if j < |last.messages| {
        assert r[i].messages[j] == last.messages[j];
      }
    }
    forall i | 0 < i < |r| ensures r[i - 1].senderId != r[i].senderId {
      assert r[i - 1] == groups[i - 1];
      assert r[i].senderId == groups[i].senderId;
    }
  }

  /** Appending a group of its own sender's messages, whose sender differs from the last one, keeps the groups well formed. */
  lemma {:induction false} OpenWellGrouped<P>(groups: seq<GroupValue<P>>, g: GroupValue<P>)
    requires WellGrouped(groups) && |g.messages| > 0
    requires forall j :: 0 <= j < |g.messages| ==> g.messages[j].senderId == g.senderId
    requires |groups| > 0 ==> groups[|groups| - 1].senderId != g.senderId
    ensures WellGrouped(groups + [g])
  {
    var r := groups + [g];
    var n := |groups|;
    forall i | 0 <= i < |r| ensures |r[i].messages| > 0 {
      if i < n { assert r[i] == groups[i]; }
    }
    forall i, j | 0 <= i < |r| && 0 <= j < |r[i].messages|
      ensures r[i].messages[j].senderId == r[i].senderId
    {
      if i < n { assert r[i] == groups[i]; }
    }
    forall i | 0 < i < |r| ensures r[i - 1].senderId != r[i].senderId {
      if i == n {
        assert r[i - 1] == groups[n - 1] && r[i] == g;
      } else {
        assert r[i - 1] == groups[i - 1] && r[i] == groups[i];
      }
    }
  }

  /** Appending a group appends its messages to the flattened stream. */
  lemma OpenFlatten<P>(groups: seq<GroupValue<P>>, g: GroupValue<P>)
    ensures Flatten(groups + [g]) == Flatten(groups) + g.messages
  {
    assert (groups + [g])[..|groups|] == groups;
  }

  /** Storing a whole stream keeps the groups well formed. */
  lemma {:induction false} AddAllWellGrouped<P>(groups: seq<GroupValue<P>>, ms: seq<ChatMessage<P>>, gids: seq<GroupId>)
    requires WellGrouped(groups) && |gids| == |ms|
    ensures WellGrouped(AddAll(groups, ms, gids))
    decreases |ms|
  {
    if |ms| > 0 {
      AddToGroupsSound(groups, ms[0], gids[0]);
      AddAllWellGrouped(AddToGroups(groups, ms[0], gids[0]), ms[1..], gids[1..]);
    }
  }

  /** Storing a whole stream appends it, in order, to the flattened groups. */
  lemma {:induction false} AddAllFlatten<P>(groups: seq<GroupValue<P>>, ms: seq<ChatMessage<P>>, gids: seq<GroupId>)
    requires |gids| == |ms|
    ensures Flatten(AddAll(groups, ms, gids)) == Flatten(groups) + ms
    decreases |ms|
  {
    if |ms| > 0 {
      var next := AddToGroups(groups, ms[0], gids[0]);
      AddToGroupsFlatten(groups, ms[0], gids[0]);
      AddAllFlatten(next, ms[1..], gids[1..]);
      calc {
        Flatten(AddAll(groups, ms, gids));
        Flatten(AddAll(next, ms[1..], gids[1..]));
        Flatten(next) + ms[1..];
        Flatten(groups) + ([ms[0]] + ms[1..]);
        { assert [ms[0]] + ms[1..] == ms; }
        Flatten(groups) + ms;
      }
    }
  }

  /** The length of the longest suffix of `f` whose messages share the sender of its last message. */
  function TrailingRun<P>(f: seq<ChatMessage<P>>): nat
    decreases |f|
  {
    if |f| == 0 then 0
    else if |f| >= 2 && f[|f| - 2].senderId == f[|f| - 1].senderId then 1 + TrailingRun(f[..|f| - 1])
    else 1
  }

  /** A non-empty run of one sender, after anything not ending in that sender, is the trailing run. */
  lemma {:induction false} TrailingRunOf<P>(x: seq<ChatMessage<P>>, y: seq<ChatMessage<P>>, s: UserId)
    requires |y| > 0 && forall i :: 0 <= i < |y| ==> y[i].senderId == s
    requires |x| > 0 ==> x[|x| - 1].senderId != s
    ensures TrailingRun(x + y) == |y|
    decreases |y|
  {
    var f := x + y;
    assert f[|f| - 1] == y[|y| - 1];
    if |y| == 1 {
      if |f| >= 2 {
        assert f[|f| - 2] == x[|x| - 1];
        assert f[|f| - 2].senderId != f[|f| - 1].senderId;
      }
      assert TrailingRun(f) == 1;
    } else {
      var y' := y[..|y| - 1];
      assert f[|f| - 2] == y[|y| - 2];
      assert f[|f| - 2].senderId == f[|f| - 1].senderId;
      assert TrailingRun(f) == 1 + TrailingRun(f[..|f| - 1]);
      assert f[..|f| - 1] == x + y';
      assert forall i :: 0 <= i < |y'| ==> y'[i] == y[i];
      TrailingRunOf(x, y', s);
    }
  }

  /** In a well-grouped sequence the last group is exactly the trailing run of the flattened stream. */
  lemma LastGroupIsTrailingRun<P>(a: seq<GroupValue<P>>)
    requires WellGrouped(a) && |a| > 0
    ensures |a[|a| - 1].messages| == TrailingRun(Flatten(a))
  {
    var n := |a|;
    var fa := Flatten(a[..n - 1]);
    assert Flatten(a) == fa + a[n - 1].messages;
    if n > 1 {
      WellGroupedPrefix(a, n - 1);
      FlattenLast(a[..n - 1]);
      assert a[..n - 1][n - 2] == a[n - 2];
    } else {
      assert fa == [];
    }
    TrailingRunOf(fa, a[n - 1].messages, a[n - 1].senderId);
  }

  /** Two well-grouped sequences with the same stream end in the same group, after the same stream. */
  lemma LastGroupsAgree<P>(a: seq<GroupValue<P>>, b: seq<GroupValue<P>>)
    requires WellGrouped(a) && WellGrouped(b) && Flatten(a) == Flatten(b)
    requires |a| > 0 && |b| > 0
    ensures a[|a| - 1].messages == b[|b| - 1].messages
    ensures a[|a| - 1].senderId == b[|b| - 1].senderId
    ensures Flatten(a[..|a| - 1]) == Flatten(b[..|b| - 1])
  {
    var f := Flatten(a);
    var la, lb := a[|a| - 1].messages, b[|b| - 1].messages;
    var fa, fb := Flatten(a[..|a| - 1]), Flatten(b[..|b| - 1]);
    assert f == fa + la && f == fb + lb;
    LastGroupIsTrailingRun(a);
    LastGroupIsTrailingRun(b);
    assert la == f[|fa|..] == lb;
    assert fa == f[..|fa|] == fb;
    FlattenLast(a);
    FlattenLast(b);
  }

  /** A well-grouped sequence has no messages exactly when it has no groups. */
  lemma FlattenEmpty<P>(g: seq<GroupValue<P>>)
    requires WellGrouped(g)
    ensures |Flatten(g)| == 0 <==> |g| == 0
  {
    if |g| > 0 {
      FlattenLast(g);
    }
  }

  lemma ShapeSnoc<P>(a: seq<GroupValue<P>>)
    requires |a| > 0
    ensures Shape(a) == Shape(a[..|a| - 1]) + [(a[|a| - 1].senderId, a[|a| - 1].messages)]
  {
  }

  /**
   * A flattened stream has only one well-grouped decomposition (up to group
   * ids and directions): the cut between groups falls exactly where the
   * sender changes.
   */
  lemma {:induction false} WellGroupedDetermined<P>(a: seq<GroupValue<P>>, b: seq<GroupValue<P>>)
    requires WellGrouped(a) && WellGrouped(b) && Flatten(a) == Flatten(b)
    ensures Shape(a) == Shape(b)
    decreases |a|
  {
    FlattenEmpty(a);
    FlattenEmpty(b);
    if |a| > 0 && |b| > 0 {
      LastGroupsAgree(a, b);
      WellGroupedPrefix(a, |a| - 1);
      WellGroupedPrefix(b, |b| - 1);
      WellGroupedDetermined(a[..|a| - 1], b[..|b| - 1]);
      ShapeSnoc(a);
      ShapeSnoc(b);
    }
  }

  /** Adds to an empty conversation produce the maximal same-sender runs of the stream, whatever ids are offered. */
  lemma GroupsAreMaximalRuns<P>(ms: seq<ChatMessage<P>>, gids: seq<GroupId>, runs: seq<GroupValue<P>>)
    requires |gids| == |ms|
    requires WellGrouped(runs) && Flatten(runs) == ms
    ensures Shape(AddAll([], ms, gids)) == Shape(runs)
  {
    AddAllWellGrouped([], ms, gids);
    AddAllFlatten([], ms, gids);
    WellGroupedDetermined(AddAll([], ms, gids), runs);
  }

  /** Messages that all come from one sender end up in a single group holding them in call order. */
  lemma SameSenderOneGroup<P>(ms: seq<ChatMessage<P>>, gids: seq<GroupId>)
    requires |gids| == |ms| && |ms| > 0
    requires forall i :: 0 <= i < |ms| ==> ms[i].senderId == ms[0].senderId
    ensures |AddAll([], ms, gids)| == 1
    ensures AddAll([], ms, gids)[0].messages == ms
  {
    var one := [GroupValue("", ms[0].senderId, ms[0].direction, ms)];
    assert Flatten(one) == Flatten(one[..0]) + ms;
    GroupsAreMaximalRuns(ms, gids, one);
    assert Shape(AddAll([], ms, gids))[0] == Shape(one)[0];
  }

  /** A message from the last group's sender joins it even when its direction differs. */
  lemma DirectionIgnored<P>(g: GroupValue<P>, m: ChatMessage<P>, gid: GroupId)
    requires g.senderId == m.senderId && g.direction != m.direction
    ensures var r := AddToGroups([g], m, gid);
      |r| == 1 && r[0].direction == g.direction && m in r[0].messages
  {
  }

  /**
   * A short session in one conversation: two messages from one sender share a
   * group, and a following message from another sender opens a second group.
   */
  lemma {:induction false} TwoSendersSession<P>(m1: ChatMessage<P>, m2: ChatMessage<P>, m3: ChatMessage<P>, gids: seq<GroupId>)
    requires |gids| == 3
    requires m1.senderId == m2.senderId && m3.senderId != m1.senderId
    ensures var two := AddAll([], [m1, m2], gids[..2]);
      |two| == 1 && two[0].messages == [m1, m2] && two[0].id == gids[0]
    ensures var three := AddAll([], [m1, m2, m3], gids);
      |three| == 2 && three[0].messages == [m1, m2] && three[1].messages == [m3] && three[1].id == gids[2]
  {
    var g1 := AddToGroups([], m1, gids[0]);
    var g2 := AddToGroups(g1, m2, gids[1]);
    var g3 := AddToGroups(g2, m3, gids[2]);
    assert g1 == [GroupValue(gids[0], m1.senderId, m1.direction, [m1])];
    assert [m1] + [m2] == [m1, m2];
    assert g2 == [GroupValue(gids[0], m1.senderId, m1.direction, [m1, m2])];
    assert [m1, m2][1..] == [m2] && [m1, m2, m3][1..] == [m2, m3] && [m2, m3][1..] == [m3];
    assert AddAll([], [m1, m2], gids[..2]) == AddAll(g1, [m2], gids[1..2]) == AddAll(g2, [], []) == g2;
    assert AddAll([], [m1, m2, m3], gids) == AddAll(g1, [m2, m3], gids[1..]) == AddAll(g2, [m3], gids[2..]) == g3;
  }
}
