/**
 * The browser's socket store: the live view of the open room (messages,
 * members, who is typing) folded from the server's events, and the actions
 * that emit events to the server. The socket connection itself is only a
 * flag here; what the store emits is appended to `emitted`.
 */
module ClientSocket {
  import opened Json
  import opened Chat
  import opened Wrappers
  import ClientFriends

  /** What the store holds: `hasSocket` says whether a socket object exists. */
  datatype Client = Client(
    hasSocket: bool,
    connected: bool,
    messages: seq<Message>,
    members: seq<MemberEntry>,
    typingUsers: seq<TypingEntry>,
    error: Json,
    currentRoomId: Option<string>)

  const INITIAL: Client := Client(false, false, [], [], [], Null, None)

  /** An event from the server, with the payload fields the listeners read; a list field that is absent is `None`. */
  datatype Incoming =
    | Connected
    | Disconnected
    | RoomHistory(roomId: string, messageList: Option<seq<Message>>)
    | MessageNew(msg: Message)
    | MessageDeleted(roomId: string, messageId: string)
    | ReactionUpdated(roomId: string, messageId: string, reactions: seq<ReactionGroup>)
    | RoomMembers(roomId: string, memberList: Option<seq<MemberEntry>>)
    | UserJoined(roomId: string, userId: UserId, username: string)
    | UserLeft(roomId: string, userId: UserId)
    | TypingUpdate(roomId: string, users: Option<seq<TypingEntry>>)
    | FriendOnline(friendId: UserId)
    | FriendOffline(friendId: UserId)
    | RequestReceived(fromUserId: UserId, fromUsername: string)
    | RequestAccepted(acceptedId: UserId, acceptedName: string)
    | ErrorEvent(data: Json)

  /** An event the store emits to the server. */
  datatype Outgoing =
    | RoomJoin(roomId: string)
    | RoomLeave(roomId: string)
    | MessageSend(roomId: string, kind: string, content: Json)
    | MessageDelete(roomId: string, messageId: string)
    | ReactionAdd(roomId: string, messageId: string, emoji: string)
    | ReactionRemove(roomId: string, messageId: string, emoji: string)
    | TypingStart(roomId: string)
    | TypingStop(roomId: string)

  /** A call on the store. */
  datatype Action =
    | Connect
    | Disconnect
    | JoinRoom(roomId: string)
    | LeaveRoom(roomId: string)
    | SendMessage(roomId: string, kind: string, content: Json)
    | DeleteMessage(roomId: string, messageId: string)
    | AddReaction(roomId: string, messageId: string, emoji: string)
    | RemoveReaction(roomId: string, messageId: string, emoji: string)
    | StartTyping(roomId: string)
    | StopTyping(roomId: string)
    | ClearError

  /** The new state after an action, and what it emitted. */
  datatype Step = Step(client: Client, out: seq<Outgoing>)

  /** The room an event is about, if it is about one. */
  function RoomOf(e: Incoming): Option<string> {
    match e
    case RoomHistory(r, _) => Some(r)
    case MessageNew(m) => Some(m.roomId)
    case MessageDeleted(r, _) => Some(r)
    case ReactionUpdated(r, _, _) => Some(r)
    case RoomMembers(r, _) => Some(r)
    case UserJoined(r, _, _) => Some(r)
    case UserLeft(r, _) => Some(r)
    case TypingUpdate(r, _) => Some(r)
    case _ => None
  }

  function OrEmpty<T>(o: Option<seq<T>>): seq<T> {
    if o.Some? then o.value else []
  }

  // ---------------------------------------------------------------------------
  // The list updates

  /** The messages other than those with id `id`, in their order. */
  function WithoutMessage(ms: seq<Message>, id: string): (r: seq<Message>)
    ensures forall m :: m in r <==> m in ms && m.id != id
    ensures |r| <= |ms|
    decreases |ms|
  {
    if ms == [] then []
    else (if ms[0].id != id then [ms[0]] else []) + WithoutMessage(ms[1..], id)
  }

  /** Filtering works piece by piece, so the messages that stay keep their order. */
  lemma {:induction false} WithoutMessageAppend(a: seq<Message>, b: seq<Message>, id: string)
    ensures WithoutMessage(a + b, id) == WithoutMessage(a, id) + WithoutMessage(b, id)
    decreases |a|
  {
    if a == [] {
      assert [] + b == b;
    } else {
      assert (a + b)[0] == a[0] && (a + b)[1..] == a[1..] + b;
      var head := if a[0].id != id then [a[0]] else [];
      assert WithoutMessage(a + b, id) == head + WithoutMessage(a[1..] + b, id);
      WithoutMessageAppend(a[1..], b, id);
      assert head + (WithoutMessage(a[1..], id) + WithoutMessage(b, id)) == (head + WithoutMessage(a[1..], id)) + WithoutMessage(b, id);
    }
  }

  /** The messages with the reactions of every message with id `id` replaced. */
  function WithReactions(ms: seq<Message>, id: string, reactions: seq<ReactionGroup>): (r: seq<Message>)
    ensures |r| == |ms|
    ensures forall i :: 0 <= i < |r| ==> r[i] == if ms[i].id == id then ms[i].(reactions := reactions) else ms[i]
    decreases |ms|
  {
    if ms == [] then []
    else [if ms[0].id == id then ms[0].(reactions := reactions) else ms[0]] + WithReactions(ms[1..], id, reactions)
  }

  /** The members with the online flag of every entry for `userId` set to `online`. */
  function SetOnline(ms: seq<MemberEntry>, userId: UserId, online: bool): (r: seq<MemberEntry>)
    ensures |r| == |ms|
    ensures forall i :: 0 <= i < |r| ==> r[i] == if ms[i].userId == userId then ms[i].(online := online) else ms[i]
    decreases |ms|
  {
    if ms == [] then []
    else [if ms[0].userId == userId then ms[0].(online := online) else ms[0]] + SetOnline(ms[1..], userId, online)
  }

  predicate HasUser(ms: seq<MemberEntry>, userId: UserId) {
    exists i :: 0 <= i < |ms| && ms[i].userId == userId
  }

  /** `room:user-joined` on the members list: mark the user online, adding the user when absent. */
  function Joined(ms: seq<MemberEntry>, userId: UserId, username: string): seq<MemberEntry> {
    if !HasUser(ms, userId) then ms + [MemberEntry(userId, username, true)]
    else SetOnline(ms, userId, true)
  }

  /** No user id appears twice. */
  ghost predicate UniqueIds(ms: seq<MemberEntry>) {
    forall i, j :: 0 <= i < j < |ms| ==> ms[i].userId != ms[j].userId
  }

  /**
   * A join never duplicates a member: the user is listed, online, exactly
   * once whenever the ids were unique before, and every other entry stays.
   */
  lemma JoinedUnique(ms: seq<MemberEntry>, userId: UserId, username: string)
    requires UniqueIds(ms)
    ensures var r := Joined(ms, userId, username);
            && UniqueIds(r)
            && HasUser(r, userId)
            && (forall i :: 0 <= i < |r| && r[i].userId == userId ==> r[i].online)
            && (forall i :: 0 <= i < |ms| && ms[i].userId != userId ==> r[i] == ms[i])
            && |ms| <= |r| <= |ms| + 1
  {
    var r := Joined(ms, userId, username);
    if !HasUser(ms, userId) {
      assert r[|ms|].userId == userId;
      forall i, j | 0 <= i < j < |r| ensures r[i].userId != r[j].userId {
        if j == |ms| {
          assert r[i] == ms[i];
        }
      }
    } else {
      var k :| 0 <= k < |ms| && ms[k].userId == userId;
      assert r[k].userId == userId;
    }
  }

  /** A leave never removes a member: the list keeps its users and all but their online flags. */
  lemma LeftKeepsMembers(ms: seq<MemberEntry>, userId: UserId)
    ensures var r := SetOnline(ms, userId, false);
            && |r| == |ms|
            && (forall i :: 0 <= i < |r| ==> r[i].userId == ms[i].userId && r[i].username == ms[i].username)
            && (forall i :: 0 <= i < |r| && r[i].userId == userId ==> !r[i].online)
            && (UniqueIds(ms) ==> UniqueIds(r))
  {
  }

  // ---------------------------------------------------------------------------
  // The listeners and the actions

  /** What a listener does to the store's own state; the friend events go to the friends store instead. */
  function OnEvent(c: Client, e: Incoming): Client {
    match e
    case Connected => c.(connected := true, error := Null)
    case Disconnected => c.(connected := false)
    case RoomHistory(r, ms) => if c.currentRoomId == Some(r) then c.(messages := OrEmpty(ms)) else c
    case MessageNew(m) => if c.currentRoomId == Some(m.roomId) then c.(messages := c.messages + [m]) else c
    case MessageDeleted(r, id) => if c.currentRoomId == Some(r) then c.(messages := WithoutMessage(c.messages, id)) else c
    case ReactionUpdated(r, id, rs) => if c.currentRoomId == Some(r) then c.(messages := WithReactions(c.messages, id, rs)) else c
    case RoomMembers(r, ms) => if c.currentRoomId == Some(r) then c.(members := OrEmpty(ms)) else c
    case UserJoined(r, u, n) => if c.currentRoomId == Some(r) then c.(members := Joined(c.members, u, n)) else c
    case UserLeft(r, u) => if c.currentRoomId == Some(r) then c.(members := SetOnline(c.members, u, false)) else c
    case TypingUpdate(r, us) => if c.currentRoomId == Some(r) then c.(typingUsers := OrEmpty(us)) else c
    case ErrorEvent(d) => c.(error := d)
    case _ => c
  }

  /** What a listener does to the friends store. */
  function OnFriendEvent(l: ClientFriends.Lists, e: Incoming): ClientFriends.Lists {
    match e
    case FriendOnline(u) => ClientFriends.FriendOnline(l, u)
    case FriendOffline(u) => ClientFriends.FriendOffline(l, u)
    case RequestReceived(u, n) => ClientFriends.RequestReceived(l, u, n)
    case RequestAccepted(u, n) => ClientFriends.RequestAccepted(l, u, n)
    case _ => l
  }

  /** The room view emptied. */
  function Cleared(c: Client): Client {
    c.(messages := [], members := [], typingUsers := [])
  }

  function Perform(c: Client, a: Action): Step {
    match a
    case ClearError => Step(c.(error := Null), [])
    case Connect => if c.hasSocket then Step(c, []) else Step(c.(hasSocket := true), [])
    case _ =>
      if !c.hasSocket then Step(c, [])
      else match a
        case Disconnect => Step(Cleared(c).(hasSocket := false, connected := false, currentRoomId := None), [])
        case JoinRoom(r) => Step(Cleared(c).(currentRoomId := Some(r)), [RoomJoin(r)])
        case LeaveRoom(r) =>
          Step(if c.currentRoomId == Some(r) then Cleared(c).(currentRoomId := None) else c, [RoomLeave(r)])
        case SendMessage(r, k, content) => Step(c, [MessageSend(r, k, content)])
        case DeleteMessage(r, id) => Step(c, [MessageDelete(r, id)])
        case AddReaction(r, id, emoji) => Step(c, [ReactionAdd(r, id, emoji)])
        case RemoveReaction(r, id, emoji) => Step(c, [ReactionRemove(r, id, emoji)])
        case StartTyping(r) => Step(c, [TypingStart(r)])
        case StopTyping(r) => Step(c, [TypingStop(r)])
  }

  // ---------------------------------------------------------------------------
  // What the store promises

  /** An event about a room other than the open one leaves the room view alone. */
  lemma OtherRoomIgnored(c: Client, e: Incoming)
    requires RoomOf(e).Some? && c.currentRoomId != RoomOf(e)
    ensures OnEvent(c, e) == c
  {
  }

  /** A new message for the open room goes at the end; the room view is otherwise untouched. */
  lemma NewMessageAppends(c: Client, m: Message)
    requires c.currentRoomId == Some(m.roomId)
    ensures OnEvent(c, MessageNew(m)).messages == c.messages + [m]
    ensures OnEvent(c, MessageNew(m)).members == c.members
  {
  }

  /**
   * A deletion for the open room removes every copy of that message and keeps
   * all the others, in their order.
   */
  lemma DeletedRemovesAll(c: Client, roomId: string, messageId: string, before: seq<Message>, after: seq<Message>)
    requires c.currentRoomId == Some(roomId) && c.messages == before + after
    ensures var ms := OnEvent(c, MessageDeleted(roomId, messageId)).messages;
            && (forall m :: m in ms ==> m.id != messageId)
            && ms == WithoutMessage(before, messageId) + WithoutMessage(after, messageId)
  {
    assert OnEvent(c, MessageDeleted(roomId, messageId)).messages == WithoutMessage(before + after, messageId);
    WithoutMessageAppend(before, after, messageId);
  }

  /** A reaction update changes only the reactions of the named message; the list keeps its length and order. */
  lemma ReactionsReplaced(c: Client, roomId: string, messageId: string, rs: seq<ReactionGroup>)
    requires c.currentRoomId == Some(roomId)
    ensures var ms := OnEvent(c, ReactionUpdated(roomId, messageId, rs)).messages;
            && |ms| == |c.messages|
            && forall i :: 0 <= i < |ms| ==>
                 ms[i].id == c.messages[i].id && ms[i].timestamp == c.messages[i].timestamp
                 && ms[i].reactions == (if c.messages[i].id == messageId then rs else c.messages[i].reactions)
  {
  }

  /** Without a socket every action but `connect` and `clearError` does nothing and emits nothing. */
  lemma NoSocketNoOp(c: Client, a: Action)
    requires !c.hasSocket && !a.Connect? && !a.ClearError?
    ensures Perform(c, a) == Step(c, [])
  {
  }

  /** A second `connect` changes nothing. */
  lemma ConnectIdempotent(c: Client)
    ensures Perform(Perform(c, Connect).client, Connect) == Step(Perform(c, Connect).client, [])
    ensures Perform(c, Connect).client.hasSocket
  {
  }

  /** Joining a room and then leaving it empties the view and emits the join and the leave. */
  lemma JoinThenLeave(c: Client, roomId: string)
    requires c.hasSocket
    ensures var s1 := Perform(c, JoinRoom(roomId));
            var s2 := Perform(s1.client, LeaveRoom(roomId));
            && s1.out == [RoomJoin(roomId)] && s2.out == [RoomLeave(roomId)]
            && s2.client == Cleared(c).(currentRoomId := None)
  {
  }

  /** Leaving a room other than the open one only emits the leave. */
  lemma LeaveOtherRoom(c: Client, roomId: string)
    requires c.hasSocket && c.currentRoomId != Some(roomId)
    ensures Perform(c, LeaveRoom(roomId)) == Step(c, [RoomLeave(roomId)])
  {
  }

  // ---------------------------------------------------------------------------
  // The store

  class SocketStore {
    var hasSocket: bool
    var connected: bool
    var messages: seq<Message>
    var members: seq<MemberEntry>
    var typingUsers: seq<TypingEntry>
    var error: Json
    var currentRoomId: Option<string>
    /** Everything emitted to the server so far, oldest first. */
    var emitted: seq<Outgoing>
    const friends: ClientFriends.FriendsStore

    ghost function State(): Client
      reads this
    {
      Client(hasSocket, connected, messages, members, typingUsers, error, currentRoomId)
    }

    constructor (friends: ClientFriends.FriendsStore)
      ensures State() == INITIAL && emitted == [] && this.friends == friends
    {
      hasSocket, connected := false, false;
      messages, members, typingUsers := [], [], [];
      error, currentRoomId := Null, None;
      emitted := [];
      this.friends := friends;
    }

    /** Runs the listener registered for `e`. */
    method Receive(e: Incoming)
      modifies this, friends
      ensures State() == OnEvent(old(State()), e) && emitted == old(emitted)
      ensures friends.State() == OnFriendEvent(old(friends.State()), e)
    {
      if e.FriendOnline? || e.FriendOffline? || e.RequestReceived? || e.RequestAccepted? {
        ReceiveFriendEvent(e);
      } else {
        ReceiveRoomEvent(e);
      }
    }

    /** The listeners of the friend events, which only the friends store hears. */
    method ReceiveFriendEvent(e: Incoming)
      requires e.FriendOnline? || e.FriendOffline? || e.RequestReceived? || e.RequestAccepted?
      modifies friends
      ensures friends.State() == OnFriendEvent(old(friends.State()), e)
    {
      match e
      case FriendOnline(u) =>
        friends.HandleFriendOnline(u);
      case FriendOffline(u) =>
        friends.HandleFriendOffline(u);
      case RequestReceived(u, n) =>
        friends.HandleRequestReceived(u, n);
      case RequestAccepted(u, n) =>
        friends.HandleRequestAccepted(u, n);
    }

    /** The listeners of the connection and room events, which only this store hears. */
    method ReceiveRoomEvent(e: Incoming)
      requires !(e.FriendOnline? || e.FriendOffline? || e.RequestReceived? || e.RequestAccepted?)
      modifies this
      ensures State() == OnEvent(old(State()), e) && emitted == old(emitted)
    {
      match e
      case Connected =>
        connected := true;
        error := Null;
      case Disconnected =>
        connected := false;
      case RoomHistory(r, ms) =>
        if currentRoomId == Some(r) {
          messages := OrEmpty(ms);
        }
      case MessageNew(m) =>
        if currentRoomId == Some(m.roomId) {
          messages := messages + [m];
        }
      case MessageDeleted(r, id) =>
        if currentRoomId == Some(r) {
          messages := WithoutMessage(messages, id);
        }
      case ReactionUpdated(r, id, rs) =>
        if currentRoomId == Some(r) {
          messages := WithReactions(messages, id, rs);
        }
      case RoomMembers(r, ms) =>
        if currentRoomId == Some(r) {
          members := OrEmpty(ms);
        }
      case UserJoined(r, u, n) =>
        if currentRoomId == Some(r) {
          if !HasUser(members, u) {
            members := members + [MemberEntry(u, n, true)];
          } else {
            members := SetOnline(members, u, true);
          }
        }
      case UserLeft(r, u) =>
        if currentRoomId == Some(r) {
          members := SetOnline(members, u, false);
        }
      case TypingUpdate(r, us) =>
        if currentRoomId == Some(r) {
          typingUsers := OrEmpty(us);
        }
      case ErrorEvent(d) =>
        error := d;
    }

    method DoConnect()
      modifies this
      ensures State() == Perform(old(State()), Connect).client && emitted == old(emitted)
    {
      if hasSocket {
        return;
      }
      hasSocket := true;
    }

    method DoDisconnect()
      modifies this
      ensures State() == Perform(old(State()), Disconnect).client && emitted == old(emitted)
    {
      if !hasSocket {
        return;
      }
      hasSocket := false;
      connected := false;
      messages, members, typingUsers := [], [], [];
      currentRoomId := None;
    }

    method DoJoinRoom(roomId: string)
      modifies this
      ensures var s := Perform(old(State()), JoinRoom(roomId));
              State() == s.client && emitted == old(emitted) + s.out
    {
      if !hasSocket {
        return;
      }
      currentRoomId := Some(roomId);
      messages, members, typingUsers := [], [], [];
      emitted := emitted + [RoomJoin(roomId)];
    }

    method DoLeaveRoom(roomId: string)
      modifies this
      ensures var s := Perform(old(State()), LeaveRoom(roomId));
              State() == s.client && emitted == old(emitted) + s.out
    {
      if !hasSocket {
        return;
      }
      emitted := emitted + [RoomLeave(roomId)];
      if currentRoomId == Some(roomId) {
        currentRoomId := None;
        messages, members, typingUsers := [], [], [];
      }
    }

    /** The emit wrappers: each sends one event when there is a socket. */
    method Emit(a: Action)
      requires a.SendMessage? || a.DeleteMessage? || a.AddReaction? || a.RemoveReaction? || a.StartTyping? || a.StopTyping?
      modifies this
      ensures var s := Perform(old(State()), a);
              State() == s.client && emitted == old(emitted) + s.out
    {
      if !hasSocket {
        return;
      }
      var out := match a
        case SendMessage(r, k, content) => MessageSend(r, k, content)
        case DeleteMessage(r, id) => MessageDelete(r, id)
        case AddReaction(r, id, emoji) => ReactionAdd(r, id, emoji)
        case RemoveReaction(r, id, emoji) => ReactionRemove(r, id, emoji)
        case StartTyping(r) => TypingStart(r)
        case StopTyping(r) => TypingStop(r);
      emitted := emitted + [out];
    }

    method DoClearError()
      modifies this
      ensures State() == Perform(old(State()), ClearError).client && emitted == old(emitted)
    {
      error := Null;
    }
  }
}
