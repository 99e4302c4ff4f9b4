/**
 * The reaction bookkeeping of the `reaction:add` and `reaction:remove`
 * handlers (server/socket/handlers.js): a message carries a list of emoji
 * groups, each with the users who reacted with that emoji.
 */
module Reactions {
  import opened Wrappers
  import opened Chat

  /** The eight emoji names a reaction may use. */
  const VALID_EMOJIS: seq<string> := ["heart", "laugh", "fire", "sad", "thumbsup", "thumbsdown", "star", "question"]

  /** The index of the first group for `emoji`, as `Array.prototype.find` picks it. */
  function FirstGroup(rs: seq<ReactionGroup>, emoji: string): (r: Option<nat>)
    ensures r.Some? ==> r.value < |rs| && rs[r.value].emoji == emoji
    ensures r.Some? ==> forall j :: 0 <= j < r.value ==> rs[j].emoji != emoji
    ensures r.None? ==> forall j :: 0 <= j < |rs| ==> rs[j].emoji != emoji
  {
    if rs == [] then None
    else if rs[0].emoji == emoji then Some(0)
    else match FirstGroup(rs[1..], emoji)
      case None => None
      case Some(k) => Some(k + 1)
  }

  /** The users who reacted with `emoji`: those of its first group, or none. */
  function Reactors(rs: seq<ReactionGroup>, emoji: string): seq<UserId> {
    match FirstGroup(rs, emoji)
    case None => []
    case Some(i) => rs[i].userIds
  }

  /** `ids` with every occurrence of `u` dropped, the rest in order. */
  function WithoutUser(ids: seq<UserId>, u: UserId): (r: seq<UserId>)
    ensures |r| <= |ids|
  {
    if ids == [] then []
    else (if ids[0] == u then [] else [ids[0]]) + WithoutUser(ids[1..], u)
  }

  /** The groups that still have at least one user, in order. */
  function NonEmptyGroups(rs: seq<ReactionGroup>): (r: seq<ReactionGroup>)
    ensures |r| <= |rs|
  {
    if rs == [] then []
    else (if |rs[0].userIds| > 0 then [rs[0]] else []) + NonEmptyGroups(rs[1..])
  }

  /**
   * reaction:add: the user joins the first group for the emoji, which is
   * created at the end of the list when there is none; a user already in
   * the group is not added twice.
   */
  function AddReaction(rs: seq<ReactionGroup>, emoji: string, u: UserId): seq<ReactionGroup> {
    match FirstGroup(rs, emoji)
    case None => rs + [ReactionGroup(emoji, [u])]
    case Some(i) =>
      if u in rs[i].userIds then rs
      else rs[i := rs[i].(userIds := rs[i].userIds + [u])]
  }

  /**
   * reaction:remove: when the emoji has a group, the user leaves it and
   * every group left without users is dropped; otherwise nothing changes.
   */
  function RemoveReaction(rs: seq<ReactionGroup>, emoji: string, u: UserId): seq<ReactionGroup> {
    match FirstGroup(rs, emoji)
    case None => rs
    case Some(i) => NonEmptyGroups(rs[i := rs[i].(userIds := WithoutUser(rs[i].userIds, u))])
  }

  /** No user listed twice. */
  predicate Distinct(ids: seq<UserId>) {
    forall i, j :: 0 <= i < j < |ids| ==> ids[i] != ids[j]
  }

  /**
   * The shape the two handlers keep: one group per emoji, no empty group,
   * and no user twice in a group.
   */
  predicate WellFormed(rs: seq<ReactionGroup>) {
    && (forall i, j :: 0 <= i < j < |rs| ==> rs[i].emoji != rs[j].emoji)
    && (forall i :: 0 <= i < |rs| ==> |rs[i].userIds| > 0 && Distinct(rs[i].userIds))
  }

  lemma {:induction false} WithoutUserMembers(ids: seq<UserId>, u: UserId)
    ensures forall v :: v in WithoutUser(ids, u) <==> v in ids && v != u
  {
    if ids != [] {
      WithoutUserMembers(ids[1..], u);
      assert ids == [ids[0]] + ids[1..];
    }
  }

  lemma {:induction false} WithoutUserAbsent(ids: seq<UserId>, u: UserId)
    requires u !in ids
    ensures WithoutUser(ids, u) == ids
  {
    if ids != [] {
      WithoutUserAbsent(ids[1..], u);
      assert ids == [ids[0]] + ids[1..];
    }
  }

  lemma {:induction false} WithoutUserDistinct(ids: seq<UserId>, u: UserId)
    requires Distinct(ids)
    ensures Distinct(WithoutUser(ids, u))
  {
    if ids != [] {
      WithoutUserDistinct(ids[1..], u);
      WithoutUserMembers(ids[1..], u);
      var rest := WithoutUser(ids[1..], u);
      assert ids[0] !in ids[1..];
      assert ids[0] !in rest;
    }
  }

  lemma {:induction false} NonEmptyKeepsFull(rs: seq<ReactionGroup>)
    requires forall i :: 0 <= i < |rs| ==> |rs[i].userIds| > 0
    ensures NonEmptyGroups(rs) == rs
  {
    if rs != [] {
      NonEmptyKeepsFull(rs[1..]);
      assert rs == [rs[0]] + rs[1..];
    }
  }

  lemma {:induction false} NonEmptyMembers(rs: seq<ReactionGroup>)
    ensures forall g :: g in NonEmptyGroups(rs) <==> g in rs && |g.userIds| > 0
  {
    if rs != [] {
      NonEmptyMembers(rs[1..]);
      assert rs == [rs[0]] + rs[1..];
    }
  }

  /** Dropping the empty groups keeps a list well formed once its groups are duplicate-free. */
  lemma {:induction false} NonEmptyWellFormed(rs: seq<ReactionGroup>)
    requires forall i, j :: 0 <= i < j < |rs| ==> rs[i].emoji != rs[j].emoji
    requires forall i :: 0 <= i < |rs| ==> Distinct(rs[i].userIds)
    ensures WellFormed(NonEmptyGroups(rs))
  {
    if rs != [] {
      var tail := NonEmptyGroups(rs[1..]);
      NonEmptyWellFormed(rs[1..]);
      NonEmptyMembers(rs[1..]);
      if |rs[0].userIds| > 0 {
        var r := NonEmptyGroups(rs);
        assert r == [rs[0]] + tail;
        forall j | 0 < j < |r|
          ensures r[0].emoji != r[j].emoji
        {
          assert r[j] == tail[j - 1];
          assert tail[j - 1] in rs[1..];
        }
      }
    }
  }

  /** In a list with one group per emoji, the reactors of an emoji are those of its group. */
  lemma ReactorsOfGroup(rs: seq<ReactionGroup>, k: nat)
    requires WellFormed(rs)
    requires k < |rs|
    ensures Reactors(rs, rs[k].emoji) == rs[k].userIds
  {
    var r := FirstGroup(rs, rs[k].emoji);
    assert r.Some?;
    assert r.value == k;
  }

  lemma ReactorsOfMember(rs: seq<ReactionGroup>, g: ReactionGroup)
    requires WellFormed(rs)
    requires g in rs
    ensures Reactors(rs, g.emoji) == g.userIds
  {
    var k :| 0 <= k < |rs| && rs[k] == g;
    ReactorsOfGroup(rs, k);
  }

  lemma ReactorsOfMissing(rs: seq<ReactionGroup>, e: string)
    requires forall g :: g in rs ==> g.emoji != e
    ensures Reactors(rs, e) == []
  {
    var r := FirstGroup(rs, e);
  }

  /** reaction:add keeps the list well formed. */
  lemma AddWellFormed(rs: seq<ReactionGroup>, emoji: string, u: UserId)
    requires WellFormed(rs)
    ensures WellFormed(AddReaction(rs, emoji, u))
  {
  }

  /** reaction:remove keeps the list well formed. */
  lemma RemoveWellFormed(rs: seq<ReactionGroup>, emoji: string, u: UserId)
    requires WellFormed(rs)
    ensures WellFormed(RemoveReaction(rs, emoji, u))
  {
    match FirstGroup(rs, emoji)
    case None =>
    case Some(i) =>
      var edited := rs[i := rs[i].(userIds := WithoutUser(rs[i].userIds, u))];
      WithoutUserDistinct(rs[i].userIds, u);
      NonEmptyWellFormed(edited);
  }

  /**
   * After reaction:add the emoji's reactors gain the user at the end, unless
   * the user was already there; every other emoji's reactors are unchanged.
   */
  lemma ReactorsAfterAdd(rs: seq<ReactionGroup>, emoji: string, u: UserId, other: string)
    ensures Reactors(AddReaction(rs, emoji, u), emoji)
         == if u in Reactors(rs, emoji) then Reactors(rs, emoji) else Reactors(rs, emoji) + [u]
    ensures other != emoji ==> Reactors(AddReaction(rs, emoji, u), other) == Reactors(rs, other)
  {
    var r := AddReaction(rs, emoji, u);
    match FirstGroup(rs, emoji)
    case None =>
      var f := FirstGroup(r, emoji);
      assert f == Some(|rs|) by {
        assert r[|rs|].emoji == emoji;
      }
      var g := FirstGroup(r, other);
      var h := FirstGroup(rs, other);
      if other != emoji {
        if h.Some? {
          assert r[h.value] == rs[h.value];
          assert g == h;
        } else {
          assert g.None?;
        }
      }
    case Some(i) =>
      if u !in rs[i].userIds {
        var f := FirstGroup(r, emoji);
        assert r[i].emoji == emoji;
        assert f == Some(i);
        if other != emoji {
          var g := FirstGroup(r, other);
          var h := FirstGroup(rs, other);
          if h.Some? {
            assert h.value != i;
            assert r[h.value] == rs[h.value];
            assert g == h;
          } else {
            assert g.None?;
          }
        }
      }
  }

  /**
   * After reaction:remove on a well-formed list the emoji's reactors lose the
   * user and keep their order; every other emoji's reactors are unchanged.
   */
  lemma ReactorsAfterRemove(rs: seq<ReactionGroup>, emoji: string, u: UserId, other: string)
    requires WellFormed(rs)
    ensures Reactors(RemoveReaction(rs, emoji, u), emoji) == WithoutUser(Reactors(rs, emoji), u)
    ensures other != emoji ==> Reactors(RemoveReaction(rs, emoji, u), other) == Reactors(rs, other)
  {
    RemoveWellFormed(rs, emoji, u);
    var r := RemoveReaction(rs, emoji, u);
    match FirstGroup(rs, emoji)
    case None =>
    case Some(i) =>
      var g := rs[i].(userIds := WithoutUser(rs[i].userIds, u));
      var edited := rs[i := g];
      NonEmptyMembers(edited);
      ReactorsOfGroup(rs, i);
      if |g.userIds| > 0 {
        assert edited[i] == g;
        assert g in r;
        ReactorsOfMember(r, g);
      } else {
        forall h | h in r ensures h.emoji != emoji {
          var k :| 0 <= k < |edited| && edited[k] == h;
          assert k != i;
        }
        ReactorsOfMissing(r, emoji);
      }
      if other != emoji {
        var h := FirstGroup(rs, other);
        if h.Some? {
          assert edited[h.value] == rs[h.value];
          assert rs[h.value] in r;
          ReactorsOfMember(r, rs[h.value]);
          ReactorsOfGroup(rs, h.value);
        } else {
          forall x | x in r ensures x.emoji != other {
            var k :| 0 <= k < |edited| && edited[k] == x;
          }
          ReactorsOfMissing(r, other);
        }
      }
  }

  /** Adding a reaction twice is adding it once. */
  lemma AddIdempotent(rs: seq<ReactionGroup>, emoji: string, u: UserId)
    ensures AddReaction(AddReaction(rs, emoji, u), emoji, u) == AddReaction(rs, emoji, u)
  {
    var r := AddReaction(rs, emoji, u);
    ReactorsAfterAdd(rs, emoji, u, emoji);
    var f := FirstGroup(r, emoji);
    assert f.Some?;
    assert u in r[f.value].userIds;
  }

  /**
   * Removing a reaction the user had just added, when the user had not
   * reacted with that emoji before, gives back the original list.
   */
  lemma AddThenRemove(rs: seq<ReactionGroup>, emoji: string, u: UserId)
    requires WellFormed(rs)
    requires u !in Reactors(rs, emoji)
    ensures RemoveReaction(AddReaction(rs, emoji, u), emoji, u) == rs
  {
    var r := AddReaction(rs, emoji, u);
    match FirstGroup(rs, emoji)
    case None =>
      var f := FirstGroup(r, emoji);
      assert f == Some(|rs|) by {
        assert r[|rs|].emoji == emoji;
      }
      var edited := r[|rs| := ReactionGroup(emoji, [])];
      assert WithoutUser([u], u) == [];
      assert edited == rs + [ReactionGroup(emoji, [])];
      NonEmptyAppendEmpty(rs, ReactionGroup(emoji, []));
      NonEmptyKeepsFull(rs);
    case Some(i) =>
      var g := rs[i];
      assert u !in g.userIds;
      assert r == rs[i := g.(userIds := g.userIds + [u])];
      var f := FirstGroup(r, emoji);
      assert r[i].emoji == emoji;
      assert f == Some(i);
      WithoutUserAppend(g.userIds, u);
      WithoutUserAbsent(g.userIds, u);
      assert r[i := r[i].(userIds := WithoutUser(r[i].userIds, u))] == rs;
      NonEmptyKeepsFull(rs);
  }

  lemma {:induction false} WithoutUserAppend(ids: seq<UserId>, u: UserId)
    ensures WithoutUser(ids + [u], u) == WithoutUser(ids, u)
  {
    if ids == [] {
      assert WithoutUser([u], u) == [];
    } else {
      WithoutUserAppend(ids[1..], u);
      assert (ids + [u])[1..] == ids[1..] + [u];
    }
  }

  lemma {:induction false} NonEmptyAppendEmpty(rs: seq<ReactionGroup>, g: ReactionGroup)
    requires |g.userIds| == 0
    ensures NonEmptyGroups(rs + [g]) == NonEmptyGroups(rs)
  {
    if rs == [] {
      assert NonEmptyGroups([g]) == [];
    } else {
      NonEmptyAppendEmpty(rs[1..], g);
      assert (rs + [g])[1..] == rs[1..] + [g];
    }
  }

  /** Removing a reaction twice is removing it once. */
  lemma RemoveIdempotent(rs: seq<ReactionGroup>, emoji: string, u: UserId)
    requires WellFormed(rs)
    ensures RemoveReaction(RemoveReaction(rs, emoji, u), emoji, u) == RemoveReaction(rs, emoji, u)
  {
    var r := RemoveReaction(rs, emoji, u);
    RemoveWellFormed(rs, emoji, u);
    ReactorsAfterRemove(rs, emoji, u, emoji);
    WithoutUserMembers(Reactors(rs, emoji), u);
    match FirstGroup(r, emoji)
    case None =>
    case Some(j) =>
      ReactorsOfGroup(r, j);
      assert u !in r[j].userIds;
      WithoutUserAbsent(r[j].userIds, u);
      assert r[j := r[j].(userIds := WithoutUser(r[j].userIds, u))] == r;
      NonEmptyKeepsFull(r);
  }
}
