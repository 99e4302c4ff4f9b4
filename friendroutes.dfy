/**
 * The friendship HTTP routes over the friendships table. A row goes from one
 * user to another and has a status; the table is keyed by the pair, so there
 * is at most one row per direction. Pushes to a user's personal socket room
 * are recorded as notices.
 */
module FriendRoutes {
  import opened Wrappers
  import opened Chat
  import Text

  datatype Status = Pending | Accepted | Blocked

  /** The friendships table: the row from `a` to `b` is at key `(a, b)`. */
  type Rows = map<(int, int), Status>

  /** The HTTP status and, for a refusal, the error text. */
  datatype Reply = Reply(status: int, error: Option<string>)

  /** A push to the personal socket room of user `to`. */
  datatype Notice =
    | RequestReceivedNotice(to: int, fromUserId: int, fromUsername: string)
    | RequestAcceptedNotice(to: int, userId: int, username: string)

  /** The table after a route, the reply, and the pushes it made. */
  datatype Outcome = Outcome(rows: Rows, reply: Reply, notices: seq<Notice>)

  /** A row of the friends-list query. */
  datatype FriendRow = FriendRow(userId: UserId, username: string, avatarUrl: string)

  /** An entry of the friends list as the route returns it. */
  datatype FriendView = FriendView(userId: UserId, username: string, avatarUrl: Option<string>, online: bool)

  function Get(rows: Rows, a: int, b: int): Option<Status> {
    if (a, b) in rows then Some(rows[(a, b)]) else None
  }

  /** A row of status `s` exists between `a` and `b`, in either direction. */
  predicate Either(rows: Rows, a: int, b: int, s: Status) {
    Get(rows, a, b) == Some(s) || Get(rows, b, a) == Some(s)
  }

  /** The ids a user has blocked. */
  function BlockedBy(rows: Rows, a: int): (r: set<int>)
    ensures forall b :: b in r <==> Get(rows, a, b) == Some(Blocked)
  {
    set p | p in rows && p.0 == a && rows[p] == Blocked :: p.1
  }

  function Refused(rows: Rows, status: int, error: string): Outcome {
    Outcome(rows, Reply(status, Some(error)), [])
  }

  /** A request-body field that is missing or falsy. */
  predicate MissingId(userId: Option<int>) {
    userId.None? || userId.value == 0
  }

  // ---------------------------------------------------------------------------
  // The routes

  /** POST /api/friends/request */
  function SendRequest(rows: Rows, users: map<string, UserId>, me: SocketUser, username: Option<string>): Outcome {
    if username.None? || username.value == "" then Refused(rows, 400, "Username is required")
    else if username.value !in users then Refused(rows, 404, "User not found")
    else
      var t := users[username.value];
      if t == me.id then Refused(rows, 400, "You cannot send a friend request to yourself")
      else if Either(rows, me.id, t, Blocked) then Refused(rows, 400, "Cannot send request to this user")
      else if Either(rows, me.id, t, Accepted) then Refused(rows, 400, "Already friends with this user")
      else if Either(rows, me.id, t, Pending) then Refused(rows, 400, "Friend request already exists")
      else Outcome(rows[(me.id, t) := Pending], Reply(201, None), [RequestReceivedNotice(t, me.id, me.username)])
  }

  /** POST /api/friends/accept; `names` maps ids to usernames. */
  function Accept(rows: Rows, names: map<int, string>, me: SocketUser, userId: Option<int>): Outcome {
    if MissingId(userId) then Refused(rows, 400, "userId is required")
    else
      var u := userId.value;
      if Get(rows, u, me.id) != Some(Pending) then Refused(rows, 400, "No pending friend request from this user")
      else
        var senderName := if u in names then names[u] else "Unknown";
        Outcome(rows[(u, me.id) := Accepted][(me.id, u) := Accepted], Reply(200, None),
                [RequestAcceptedNotice(u, me.id, me.username), RequestAcceptedNotice(me.id, u, senderName)])
  }

  /** POST /api/friends/decline */
  function Decline(rows: Rows, me: SocketUser, userId: Option<int>): Outcome {
    if MissingId(userId) then Refused(rows, 400, "userId is required")
    else
      var u := userId.value;
      if Get(rows, u, me.id) != Some(Pending) then Refused(rows, 400, "No pending friend request from this user")
      else Outcome(rows - {(u, me.id)}, Reply(200, None), [])
  }

  /** DELETE /api/friends/:userId, with the path parameter already read by `parseInt` (`None` is NaN). */
  function Remove(rows: Rows, me: SocketUser, friendId: Option<int>): Outcome {
    if friendId.None? then Refused(rows, 400, "Invalid userId")
    else Outcome(rows - {(me.id, friendId.value), (friendId.value, me.id)}, Reply(200, None), [])
  }

  /** POST /api/friends/block: the table and the new cached block list of `me`. */
  function Block(rows: Rows, me: SocketUser, userId: Option<int>): (Outcome, Option<set<int>>) {
    if MissingId(userId) then (Refused(rows, 400, "userId is required"), None)
    else
      var u := userId.value;
      if u == me.id then (Refused(rows, 400, "You cannot block yourself"), None)
      else
        var rows' := (rows - {(me.id, u), (u, me.id)})[(me.id, u) := Blocked];
        (Outcome(rows', Reply(200, None), []), Some(BlockedBy(rows', me.id)))
  }

  /** GET /api/friends: each friend with its avatar (null when empty) and its batched online status. */
  function FriendsList(friends: seq<FriendRow>, onlineStatus: map<UserId, bool>): (r: seq<FriendView>)
    ensures |r| == |friends|
    ensures forall i :: 0 <= i < |r| ==>
              && r[i].userId == friends[i].userId && r[i].username == friends[i].username
              && r[i].online == (friends[i].userId in onlineStatus && onlineStatus[friends[i].userId])
              && r[i].avatarUrl == (if friends[i].avatarUrl == "" then None else Some(friends[i].avatarUrl))
    decreases |friends|
  {
    if friends == [] then []
    else
      var f := friends[0];
      var online := f.userId in onlineStatus && onlineStatus[f.userId];
      [FriendView(f.userId, f.username, if f.avatarUrl == "" then None else Some(f.avatarUrl), online)]
        + FriendsList(friends[1..], onlineStatus)
  }

  /** `parseInt(s, 10)` on a string without leading white space: an optional sign and the longest run of digits. */
  function ParseDecimal(s: string): (r: Option<int>)
    ensures r.None? <==> var body := if |s| > 0 && (s[0] == '+' || s[0] == '-') then s[1..] else s;
                         |body| == 0 || !('0' <= body[0] <= '9')
  {
    var negative := |s| > 0 && s[0] == '-';
    var body := if |s| > 0 && (s[0] == '+' || s[0] == '-') then s[1..] else s;
    var digits := DecimalPrefix(body);
    if digits == [] then None
    else
      var v: int := DecimalValue(digits);
      Some(if negative then -v else v)
  }

  function DecimalPrefix(s: string): (r: string)
    ensures |r| <= |s| && r == s[..|r|]
    ensures forall i :: 0 <= i < |r| ==> '0' <= r[i] <= '9'
    ensures |r| < |s| ==> !('0' <= s[|r|] <= '9')
    decreases |s|
  {
    if |s| > 0 && '0' <= s[0] <= '9' then [s[0]] + DecimalPrefix(s[1..]) else []
  }

  function DecimalValue(digits: string): nat
    decreases |digits|
  {
    if digits == [] then 0
    else
      var last := digits[|digits| - 1];
      var d: nat := if '0' <= last <= '9' then (last as int) - ('0' as int) else 0;
      DecimalValue(digits[..|digits| - 1]) * 10 + d
  }

  /** A run of digits is its own longest digit prefix. */
  lemma {:induction false} AllDigitsPrefix(s: string)
    requires forall i :: 0 <= i < |s| ==> '0' <= s[i] <= '9'
    ensures DecimalPrefix(s) == s
    decreases |s|
  {
    if |s| > 0 {
      AllDigitsPrefix(s[1..]);
      assert [s[0]] + s[1..] == s;
    }
  }

  lemma {:induction false} ValueOfDecimalString(n: nat)
    ensures DecimalValue(Text.DecimalString(n)) == n
    decreases n
  {
    var r := Text.DecimalString(n);
    if n >= 10 {
      ValueOfDecimalString(n / 10);
      assert r[..|r| - 1] == Text.DecimalString(n / 10);
    }
  }

  /** The id a client writes into the path, in decimal with an optional minus sign, is read back unchanged. */
  lemma ParseDecimalRoundTrip(n: int)
    ensures ParseDecimal(if n < 0 then "-" + Text.DecimalString(-n) else Text.DecimalString(n)) == Some(n)
  {
    var digits := Text.DecimalString(if n < 0 then -n else n);
    var s := if n < 0 then "-" + digits else digits;
    assert (if |s| > 0 && (s[0] == '+' || s[0] == '-') then s[1..] else s) == digits;
    AllDigitsPrefix(digits);
    ValueOfDecimalString(if n < 0 then -n else n);
  }

  // ---------------------------------------------------------------------------
  // The table's invariant

  /**
   * Between two users there is no row, a pending row in one direction, an
   * accepted row in both directions, or a blocked row in one direction; no
   * user has a row to themself.
   */
  predicate PairOk(rows: Rows, a: int, b: int) {
    var x, y := Get(rows, a, b), Get(rows, b, a);
    && (a == b ==> x.None?)
    && (|| (x.None? && y.None?)
        || (x == Some(Pending) && y.None?)
        || (x.None? && y == Some(Pending))
        || (x == Some(Accepted) && y == Some(Accepted))
        || (x == Some(Blocked) && y.None?)
        || (x.None? && y == Some(Blocked)))
  }

  ghost predicate Consistent(rows: Rows) {
    forall a, b :: PairOk(rows, a, b)
  }

  /** Rows between other pairs are not touched when only rows between `u` and `v` change. */
  lemma OtherPairs(rows: Rows, rows': Rows, u: int, v: int)
    requires Consistent(rows)
    requires forall a, b :: {u, v} != {a, b} ==> Get(rows', a, b) == Get(rows, a, b)
    requires PairOk(rows', u, v) && PairOk(rows', v, u)
    ensures Consistent(rows')
  {
    forall a, b ensures PairOk(rows', a, b) {
      if {u, v} == {a, b} {
        assert (a == u && b == v) || (a == v && b == u) by {
          assert a in {u, v} && b in {u, v};
          if a == b {
            assert u in {a, b} && v in {a, b};
          }
        }
      } else {
        assert {u, v} != {b, a};
        assert PairOk(rows, a, b);
      }
    }
  }

  lemma SendRequestKeeps(rows: Rows, users: map<string, UserId>, me: SocketUser, username: Option<string>)
    requires Consistent(rows)
    ensures Consistent(SendRequest(rows, users, me, username).rows)
  {
    var o := SendRequest(rows, users, me, username);
    if o.reply.status == 201 {
      var t := users[username.value];
      assert PairOk(rows, me.id, t);
      OtherPairs(rows, o.rows, me.id, t);
    }
  }

  lemma AcceptKeeps(rows: Rows, names: map<int, string>, me: SocketUser, userId: Option<int>)
    requires Consistent(rows)
    ensures Consistent(Accept(rows, names, me, userId).rows)
  {
    var o := Accept(rows, names, me, userId);
    if o.reply.status == 200 {
      var u := userId.value;
      assert PairOk(rows, u, me.id);
      OtherPairs(rows, o.rows, u, me.id);
    }
  }

  lemma DeclineKeeps(rows: Rows, me: SocketUser, userId: Option<int>)
    requires Consistent(rows)
    ensures Consistent(Decline(rows, me, userId).rows)
  {
    var o := Decline(rows, me, userId);
    if o.reply.status == 200 {
      var u := userId.value;
      assert PairOk(rows, u, me.id);
      OtherPairs(rows, o.rows, u, me.id);
    }
  }

  lemma RemoveKeeps(rows: Rows, me: SocketUser, friendId: Option<int>)
    requires Consistent(rows)
    ensures Consistent(Remove(rows, me, friendId).rows)
  {
    var o := Remove(rows, me, friendId);
    if friendId.Some? {
      OtherPairs(rows, o.rows, me.id, friendId.value);
    }
  }

  lemma BlockKeeps(rows: Rows, me: SocketUser, userId: Option<int>)
    requires Consistent(rows)
    ensures Consistent(Block(rows, me, userId).0.rows)
  {
    var o := Block(rows, me, userId).0;
    if o.reply.status == 200 {
      OtherPairs(rows, o.rows, me.id, userId.value);
    }
  }

  // ---------------------------------------------------------------------------
  // What the routes promise

  /**
   * A request is created exactly when the name is given, belongs to another
   * user, and no row exists between the two in either direction; it then
   * adds the one pending row from the sender, and any refusal leaves the
   * table as it was.
   */
  lemma RequestCreatedIff(rows: Rows, users: map<string, UserId>, me: SocketUser, username: Option<string>)
    ensures var o := SendRequest(rows, users, me, username);
            && (o.reply.status == 201 <==>
                  && username.Some? && username.value != "" && username.value in users
                  && users[username.value] != me.id
                  && Get(rows, me.id, users[username.value]).None? && Get(rows, users[username.value], me.id).None?)
            && (o.reply.status == 201 ==> o.rows == rows[(me.id, users[username.value]) := Pending] && (me.id, users[username.value]) !in rows)
            && (o.reply.status != 201 ==> o.rows == rows && o.notices == [])
  {
    if username.Some? && username.value in users {
      var t := users[username.value];
      // Every row has one of the three statuses the route checks for.
      if Get(rows, me.id, t).Some? || Get(rows, t, me.id).Some? {
        var s := if Get(rows, me.id, t).Some? then Get(rows, me.id, t).value else Get(rows, t, me.id).value;
        assert Either(rows, me.id, t, s);
        assert Either(rows, me.id, t, Blocked) || Either(rows, me.id, t, Accepted) || Either(rows, me.id, t, Pending) by {
          match s
          case Blocked =>
          case Accepted =>
          case Pending =>
        }
      }
    }
  }

  /** A refused request names the strongest existing tie: a block first, then a friendship, then a pending request. */
  lemma RequestRefusalOrder(rows: Rows, users: map<string, UserId>, me: SocketUser, name: string)
    requires name != "" && name in users && users[name] != me.id
    ensures var o := SendRequest(rows, users, me, Some(name));
            var t := users[name];
            && (Either(rows, me.id, t, Blocked) ==> o.reply.error == Some("Cannot send request to this user"))
            && (!Either(rows, me.id, t, Blocked) && Either(rows, me.id, t, Accepted) ==> o.reply.error == Some("Already friends with this user"))
            && (!Either(rows, me.id, t, Blocked) && !Either(rows, me.id, t, Accepted) && Either(rows, me.id, t, Pending) ==>
                  o.reply.error == Some("Friend request already exists"))
  {
  }

  /**
   * Accepting turns the pending request into a friendship both ways; in a
   * consistent table the reverse row the route inserts did not exist.
   */
  lemma AcceptMakesFriends(rows: Rows, names: map<int, string>, me: SocketUser, u: int)
    requires Consistent(rows) && u != 0 && Get(rows, u, me.id) == Some(Pending)
    ensures (me.id, u) !in rows
    ensures var o := Accept(rows, names, me, Some(u));
            && o.reply.status == 200
            && Get(o.rows, u, me.id) == Some(Accepted) && Get(o.rows, me.id, u) == Some(Accepted)
            && |o.notices| == 2
  {
    assert PairOk(rows, u, me.id);
  }

  /** Declining deletes the one pending row and nothing else. */
  lemma DeclineDeletesOne(rows: Rows, me: SocketUser, u: int)
    requires u != 0 && Get(rows, u, me.id) == Some(Pending)
    ensures var o := Decline(rows, me, Some(u));
            && o.reply.status == 200 && (u, me.id) !in o.rows
            && forall p :: p in rows && p != (u, me.id) ==> p in o.rows && o.rows[p] == rows[p]
  {
  }

  /** After a removal no row is left between the two users, in either direction. */
  lemma RemoveClearsBoth(rows: Rows, me: SocketUser, f: int)
    ensures var o := Remove(rows, me, Some(f));
            Get(o.rows, me.id, f).None? && Get(o.rows, f, me.id).None?
  {
  }

  /**
   * A block replaces any tie with one blocked row from the blocker, and the
   * cache is set to everyone the blocker has blocked.
   */
  lemma BlockReplacesTies(rows: Rows, me: SocketUser, u: int)
    requires u != 0 && u != me.id
    ensures var (o, cache) := Block(rows, me, Some(u));
            && o.reply.status == 200
            && Get(o.rows, me.id, u) == Some(Blocked) && Get(o.rows, u, me.id).None?
            && cache.Some? && u in cache.value
            && forall b :: b in cache.value <==> Get(o.rows, me.id, b) == Some(Blocked)
  {
  }

  /** Once the two are friends, or one has blocked the other, neither can send a new request. */
  lemma NoRequestBetweenTied(rows: Rows, users: map<string, UserId>, me: SocketUser, name: string)
    requires name in users && (Either(rows, me.id, users[name], Accepted) || Either(rows, me.id, users[name], Blocked))
    ensures SendRequest(rows, users, me, Some(name)).reply.status == 400
    ensures SendRequest(rows, users, me, Some(name)).rows == rows
  {
  }

  // ---------------------------------------------------------------------------
  // The routes, step by step on the table

  class FriendsDb {
    var rows: Rows
    /** The Redis block cache, per user. */
    var blockCache: map<int, set<int>>
    /** Pushes to personal socket rooms, oldest first. */
    var notices: seq<Notice>

    constructor ()
      ensures rows == map[] && blockCache == map[] && notices == []
    {
      rows, blockCache, notices := map[], map[], [];
    }

    method GetFriendship(a: int, b: int) returns (s: Option<Status>)
      ensures s == Get(rows, a, b)
    {
      s := if (a, b) in rows then Some(rows[(a, b)]) else None;
    }

    method CreateFriendRequest(a: int, b: int, s: Status)
      modifies this
      ensures rows == old(rows)[(a, b) := s] && blockCache == old(blockCache) && notices == old(notices)
    {
      rows := rows[(a, b) := s];
    }

    method DeleteFriendship(a: int, b: int)
      modifies this
      ensures rows == old(rows) - {(a, b)} && blockCache == old(blockCache) && notices == old(notices)
    {
      rows := rows - {(a, b)};
    }

    method HandleRequest(users: map<string, UserId>, me: SocketUser, username: Option<string>) returns (reply: Reply)
      modifies this
      ensures var o := SendRequest(old(rows), users, me, username);
              rows == o.rows && reply == o.reply && notices == old(notices) + o.notices && blockCache == old(blockCache)
    {
      if username.None? || username.value == "" {
        return Reply(400, Some("Username is required"));
      }
      if username.value !in users {
        return Reply(404, Some("User not found"));
      }
      var target := users[username.value];
      if target == me.id {
        return Reply(400, Some("You cannot send a friend request to yourself"));
      }
      var existing := GetFriendship(me.id, target);
      var reverse := GetFriendship(target, me.id);
      if existing.Some? || reverse.Some? {
        if existing == Some(Blocked) || reverse == Some(Blocked) {
          return Reply(400, Some("Cannot send request to this user"));
        }
        if existing == Some(Accepted) || reverse == Some(Accepted) {
          return Reply(400, Some("Already friends with this user"));
        }
        if existing == Some(Pending) || reverse == Some(Pending) {
          return Reply(400, Some("Friend request already exists"));
        }
      }
      CreateFriendRequest(me.id, target, Pending);
      notices := notices + [RequestReceivedNotice(target, me.id, me.username)];
      reply := Reply(201, None);
    }

    method HandleAccept(names: map<int, string>, me: SocketUser, userId: Option<int>) returns (reply: Reply)
      modifies this
      ensures var o := Accept(old(rows), names, me, userId);
              rows == o.rows && reply == o.reply && notices == old(notices) + o.notices && blockCache == old(blockCache)
    {
      if userId.None? || userId.value == 0 {
        return Reply(400, Some("userId is required"));
      }
      var u := userId.value;
      var request := GetFriendship(u, me.id);
      if request != Some(Pending) {
        return Reply(400, Some("No pending friend request from this user"));
      }
      rows := rows[(u, me.id) := Accepted];
      CreateFriendRequest(me.id, u, Accepted);
      var senderName := if u in names then names[u] else "Unknown";
      notices := notices + [RequestAcceptedNotice(u, me.id, me.username), RequestAcceptedNotice(me.id, u, senderName)];
      reply := Reply(200, None);
    }

    method HandleDecline(me: SocketUser, userId: Option<int>) returns (reply: Reply)
      modifies this
      ensures var o := Decline(old(rows), me, userId);
              rows == o.rows && reply == o.reply && notices == old(notices) && blockCache == old(blockCache)
    {
      if userId.None? || userId.value == 0 {
        return Reply(400, Some("userId is required"));
      }
      var u := userId.value;
      var request := GetFriendship(u, me.id);
      if request != Some(Pending) {
        return Reply(400, Some("No pending friend request from this user"));
      }
      DeleteFriendship(u, me.id);
      reply := Reply(200, None);
    }

    method HandleRemove(me: SocketUser, param: string) returns (reply: Reply)
      modifies this
      ensures var o := Remove(old(rows), me, ParseDecimal(param));
              rows == o.rows && reply == o.reply && notices == old(notices) && blockCache == old(blockCache)
    {
      var friendId := ParseDecimal(param);
      if friendId.None? {
        return Reply(400, Some("Invalid userId"));
      }
      DeleteFriendship(me.id, friendId.value);
      DeleteFriendship(friendId.value, me.id);
      assert rows == old(rows) - {(me.id, friendId.value), (friendId.value, me.id)};
      reply := Reply(200, None);
    }

    method HandleBlock(me: SocketUser, userId: Option<int>) returns (reply: Reply)
      modifies this
      ensures var (o, cache) := Block(old(rows), me, userId);
              && rows == o.rows && reply == o.reply && notices == old(notices)
              && blockCache == if cache.Some? then old(blockCache)[me.id := cache.value] else old(blockCache)
    {
      if userId.None? || userId.value == 0 {
        return Reply(400, Some("userId is required"));
      }
      var u := userId.value;
      if u == me.id {
        return Reply(400, Some("You cannot block yourself"));
      }
      DeleteFriendship(me.id, u);
      DeleteFriendship(u, me.id);
      CreateFriendRequest(me.id, u, Blocked);
      assert rows == (old(rows) - {(me.id, u), (u, me.id)})[(me.id, u) := Blocked];
      var blocked := BlockedBy(rows, me.id);
      blockCache := blockCache[me.id := blocked];
      reply := Reply(200, None);
    }
  }
}
