/**
 * The browser's friends store as the live socket events update it: the
 * friends list with online flags, and the incoming and outgoing friend
 * requests. Loading the lists over HTTP is not part of this model.
 */
module ClientFriends {
  import opened Chat

  datatype Friend = Friend(userId: UserId, username: string, online: bool)

  datatype FriendRequest = FriendRequest(userId: UserId, username: string)

  /** The three lists the store holds. */
  datatype Lists = Lists(friends: seq<Friend>, incoming: seq<FriendRequest>, outgoing: seq<FriendRequest>)

  /** The friends list with the online flag of every entry for `userId` set to `online`. */
  function MarkOnline(fs: seq<Friend>, userId: UserId, online: bool): (r: seq<Friend>)
    ensures |r| == |fs|
    ensures forall i :: 0 <= i < |r| ==> r[i] == if fs[i].userId == userId then fs[i].(online := online) else fs[i]
    decreases |fs|
  {
    if fs == [] then []
    else [if fs[0].userId == userId then fs[0].(online := online) else fs[0]] + MarkOnline(fs[1..], userId, online)
  }

  /** The requests not involving `userId`, in their order. */
  function WithoutRequests(rs: seq<FriendRequest>, userId: UserId): (r: seq<FriendRequest>)
    ensures forall q :: q in r <==> q in rs && q.userId != userId
    ensures |r| <= |rs|
    decreases |rs|
  {
    if rs == [] then []
    else (if rs[0].userId != userId then [rs[0]] else []) + WithoutRequests(rs[1..], userId)
  }

  /** Filtering works piece by piece, so the requests that stay keep their order. */
  lemma {:induction false} WithoutRequestsAppend(a: seq<FriendRequest>, b: seq<FriendRequest>, userId: UserId)
    ensures WithoutRequests(a + b, userId) == WithoutRequests(a, userId) + WithoutRequests(b, userId)
    decreases |a|
  {
    if a == [] {
      assert [] + b == b;
    } else {
      assert (a + b)[0] == a[0] && (a + b)[1..] == a[1..] + b;
      WithoutRequestsAppend(a[1..], b, userId);
    }
  }

  /** `friend:online`. */
  function FriendOnline(l: Lists, userId: UserId): Lists {
    l.(friends := MarkOnline(l.friends, userId, true))
  }

  /** `friend:offline`. */
  function FriendOffline(l: Lists, userId: UserId): Lists {
    l.(friends := MarkOnline(l.friends, userId, false))
  }

  /** `friend:request-received`. */
  function RequestReceived(l: Lists, fromUserId: UserId, fromUsername: string): Lists {
    l.(incoming := l.incoming + [FriendRequest(fromUserId, fromUsername)])
  }

  /** `friend:request-accepted`. */
  function RequestAccepted(l: Lists, userId: UserId, username: string): Lists {
    l.(outgoing := WithoutRequests(l.outgoing, userId), friends := l.friends + [Friend(userId, username, true)])
  }

  /** Of two online changes for one friend, the later one wins. */
  lemma {:induction false} LastStatusWins(fs: seq<Friend>, userId: UserId, first: bool, second: bool)
    ensures MarkOnline(MarkOnline(fs, userId, first), userId, second) == MarkOnline(fs, userId, second)
  {
    var a, b := MarkOnline(MarkOnline(fs, userId, first), userId, second), MarkOnline(fs, userId, second);
    forall i | 0 <= i < |a| ensures a[i] == b[i] {
      assert MarkOnline(fs, userId, first)[i].userId == fs[i].userId;
    }
  }

  /** Status events touch only the online flags of the friend they name. */
  lemma StatusKeepsOthers(l: Lists, userId: UserId, other: int)
    requires 0 <= other < |l.friends| && l.friends[other].userId != userId
    ensures FriendOnline(l, userId).friends[other] == l.friends[other]
    ensures FriendOffline(l, userId).friends[other] == l.friends[other]
    ensures FriendOnline(l, userId).incoming == l.incoming && FriendOnline(l, userId).outgoing == l.outgoing
    ensures FriendOffline(l, userId).incoming == l.incoming && FriendOffline(l, userId).outgoing == l.outgoing
  {
  }

  /** An accepted request leaves no outgoing request to that user, and the new friend shows as online at the end of the list. */
  lemma AcceptedIsFriend(l: Lists, userId: UserId, username: string)
    ensures var l' := RequestAccepted(l, userId, username);
            && (forall q :: q in l'.outgoing ==> q.userId != userId)
            && |l'.friends| == |l.friends| + 1
            && l'.friends[|l.friends|] == Friend(userId, username, true)
            && l'.friends[..|l.friends|] == l.friends
            && l'.incoming == l.incoming
  {
    var l' := RequestAccepted(l, userId, username);
    assert l'.friends[..|l.friends|] == l.friends;
  }

  class FriendsStore {
    var friends: seq<Friend>
    var incomingRequests: seq<FriendRequest>
    var outgoingRequests: seq<FriendRequest>

    ghost function State(): Lists
      reads this
    {
      Lists(friends, incomingRequests, outgoingRequests)
    }

    constructor ()
      ensures State() == Lists([], [], [])
    {
      friends, incomingRequests, outgoingRequests := [], [], [];
    }

    method HandleFriendOnline(userId: UserId)
      modifies this
      ensures State() == FriendOnline(old(State()), userId)
    {
      friends := MarkOnline(friends, userId, true);
    }

    method HandleFriendOffline(userId: UserId)
      modifies this
      ensures State() == FriendOffline(old(State()), userId)
    {
      friends := MarkOnline(friends, userId, false);
    }

    method HandleRequestReceived(fromUserId: UserId, fromUsername: string)
      modifies this
      ensures State() == RequestReceived(old(State()), fromUserId, fromUsername)
    {
      incomingRequests := incomingRequests + [FriendRequest(fromUserId, fromUsername)];
    }

    method HandleRequestAccepted(userId: UserId, username: string)
      modifies this
      ensures State() == RequestAccepted(old(State()), userId, username)
    {
      outgoingRequests := WithoutRequests(outgoingRequests, userId);
      friends := friends + [Friend(userId, username, true)];
    }
  }
}
