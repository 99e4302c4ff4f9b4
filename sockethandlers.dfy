/**
 * The socket event handlers of server/socket/handlers.js as methods of one
 * connection. The Redis store, the server-side socket rooms and the record of
 * everything emitted live in a `Hub` that all connections share; the
 * relational rows are read from a `Directory`; ids, clock readings and path
 * resolution are parameters.
 */
module SocketHandlers {
  import opened Wrappers
  import opened Json
  import opened Chat
  import opened Redis
  import Sets
  import opened Messages
  import opened Presence
  import opened RateLimiter
  import opened Reactions
  import opened SocketLogic

  /** What every connection shares: the store, the socket rooms, and what has been emitted so far. */
  class Hub {
    const store: Store
    var rooms: map<string, seq<Peer>>
    var outbox: seq<Output>

    constructor (store: Store)
      ensures this.store == store && rooms == map[] && outbox == []
    {
      this.store := store;
      rooms := map[];
      outbox := [];
    }

    /** Records one emit. */
    method Send(to: seq<Peer>, event: Event)
      modifies this
      ensures outbox == old(outbox) + [Emit(to, event)]
      ensures rooms == old(rooms)
    {
      outbox := outbox + [Emit(to, event)];
    }
  }

  /** The new-message emits of `message:send`: one per socket of the room that is not blocked from the sender. */
  function Deliveries(sets: map<Key, set<UserId>>, sockets: seq<Peer>, sender: UserId, m: Message): (r: seq<Output>)
    ensures |r| <= |sockets|
  {
    if sockets == [] then []
    else
      var last := sockets[|sockets| - 1];
      Deliveries(sets, sockets[..|sockets| - 1], sender, m)
        + (if BlockedBetween(sets, sender, last.user.id) then [] else [Emit([last], NewMessage(m))])
  }

  /**
   * A socket receives the new message exactly when it is in the room and
   * neither its user nor the sender has blocked the other; nothing else is
   * emitted.
   */
  lemma {:induction false} DeliveriesExactly(sets: map<Key, set<UserId>>, sockets: seq<Peer>, sender: UserId, m: Message)
    ensures forall p ::
              Emit([p], NewMessage(m)) in Deliveries(sets, sockets, sender, m) <==>
              p in sockets && !BlockedBetween(sets, sender, p.user.id)
    ensures forall o :: o in Deliveries(sets, sockets, sender, m) ==> o.Emit? && |o.to| == 1 && o.event == NewMessage(m)
  {
    if sockets != [] {
      DeliveriesExactly(sets, sockets[..|sockets| - 1], sender, m);
      assert sockets == sockets[..|sockets| - 1] + [sockets[|sockets| - 1]];
    }
  }

  /** `message.content.replace(/^\//, '')`. */
  function StripLeadingSlash(s: string): string {
    if |s| > 0 && s[0] == '/' then s[1..] else s
  }

  /**
   * The file `message:delete` unlinks for an image message: the resolved
   * content path, when it starts with the resolved uploads directory.
   */
  function ImageToUnlink(m: Message, resolve: string -> string): (r: Option<string>)
    ensures r.Some? ==> resolve("uploads/messages") <= r.value
  {
    if m.kind == "image" && m.content.Str? then
      var dir := resolve("uploads/messages");
      var filePath := resolve(StripLeadingSlash(m.content.s));
      if dir <= filePath then Some(filePath) else None
    else None
  }

  /**
   * The directory check compares raw prefixes, so a sibling directory whose
   * name extends `messages` passes it too.
   */
  lemma SiblingDirectoryPasses(resolve: string -> string)
    requires resolve("uploads/messages") == "/srv/uploads/messages"
    requires resolve("uploads/messages-old/a.png") == "/srv/uploads/messages-old/a.png"
    ensures ImageToUnlink(Message("m", "r", 1, "u", "image", Str("/uploads/messages-old/a.png"), [], "t"), resolve)
         == Some("/srv/uploads/messages-old/a.png")
  {
    assert StripLeadingSlash("/uploads/messages-old/a.png") == "uploads/messages-old/a.png";
    assert "/srv/uploads/messages" <= "/srv/uploads/messages-old/a.png";
  }

  /** The checks `reaction:add` and `reaction:remove` make before reading the message, in order. */
  function ReactionError(dir: Directory, userId: UserId, roomId: string, messageId: string, emoji: string): (r: Option<Event>)
    ensures r.None? <==> roomId != "" && messageId != "" && emoji in VALID_EMOJIS && MembershipError(dir, roomId, userId).None?
  {
    if roomId == "" || messageId == "" || emoji == "" then
      Some(Error(ValidationError, "roomId, messageId, and emoji are required"))
    else if emoji !in VALID_EMOJIS then
      Some(Error(ValidationError, "Invalid emoji. Must be one of: heart, laugh, fire, sad, thumbsup, thumbsdown, star, question"))
    else MembershipError(dir, roomId, userId)
  }

  /** The checks `message:delete` makes before reading the message, in order. */
  function DeleteError(dir: Directory, userId: UserId, roomId: string, messageId: string): (r: Option<Event>)
    ensures r.None? <==> roomId != "" && messageId != "" && MembershipError(dir, roomId, userId).None?
  {
    if roomId == "" || messageId == "" then Some(Error(ValidationError, "roomId and messageId are required"))
    else MembershipError(dir, roomId, userId)
  }

  /** The `room:user-left` and `room:members` emits of a disconnect, room by room, to the others in each room. */
  function LeaveEvents(rooms: map<string, seq<Peer>>, joined: seq<string>, dir: Directory,
                       sets: map<Key, set<UserId>>, me: Peer): seq<Output>
  {
    if joined == [] then []
    else
      var r := joined[|joined| - 1];
      LeaveEvents(rooms, joined[..|joined| - 1], dir, sets, me)
        + [Emit(Others(rooms, r, me), UserLeft(r, me.user.id, me.user.username)),
           Emit(Others(rooms, r, me), Members(r, MembersList(MembersOf(dir, r), SetAt(sets, OnlineKey(r)) - {me.user.id})))]
  }

  lemma LeaveEventsStep(rooms: map<string, seq<Peer>>, done: seq<string>, r: string, dir: Directory,
                        sets: map<Key, set<UserId>>, me: Peer)
    ensures LeaveEvents(rooms, done + [r], dir, sets, me)
         == LeaveEvents(rooms, done, dir, sets, me)
            + [Emit(Others(rooms, r, me), UserLeft(r, me.user.id, me.user.username)),
               Emit(Others(rooms, r, me), Members(r, MembersList(MembersOf(dir, r), SetAt(sets, OnlineKey(r)) - {me.user.id})))]
  {
    assert (done + [r])[..|done|] == done;
  }

  /**
   * The online sets and typing hashes after a disconnect has gone through the
   * rooms `done`: the user is gone from each of those rooms' online set and
   * typing hash, and every other key is as it was.
   */
  ghost predicate Dropped(sets0: map<Key, set<UserId>>, sets: map<Key, set<UserId>>,
                          hashes0: map<Key, map<UserId, int>>, hashes: map<Key, map<UserId, int>>,
                          done: seq<string>, u: UserId)
  {
    && (forall r :: SetAt(sets, OnlineKey(r)) == if r in done then SetAt(sets0, OnlineKey(r)) - {u} else SetAt(sets0, OnlineKey(r)))
    && (forall r :: HashAt(hashes, TypingKey(r)) == if r in done then HashAt(hashes0, TypingKey(r)) - {u} else HashAt(hashes0, TypingKey(r)))
    && (forall k: Key :: !k.OnlineKey? ==> SetAt(sets, k) == SetAt(sets0, k))
    && (forall k: Key :: !k.TypingKey? ==> HashAt(hashes, k) == HashAt(hashes0, k))
  }

  /** The online sets after SREM of user `u` on the online set of each room of `rooms`, in order. */
  function OfflineIn(sets: map<Key, set<UserId>>, rooms: seq<string>, u: UserId): map<Key, set<UserId>> {
    if rooms == [] then sets
    else SRemoved(OfflineIn(sets, rooms[..|rooms| - 1], u), OnlineKey(rooms[|rooms| - 1]), u)
  }

  /** The typing hashes after HDEL of user `u` on the typing hash of each room of `rooms`, in order. */
  function UntypedIn(hashes: map<Key, map<UserId, int>>, rooms: seq<string>, u: UserId): map<Key, map<UserId, int>> {
    if rooms == [] then hashes
    else HDeleted(UntypedIn(hashes, rooms[..|rooms| - 1], u), TypingKey(rooms[|rooms| - 1]), {u})
  }

  lemma OfflineStep(sets: map<Key, set<UserId>>, hashes: map<Key, map<UserId, int>>, done: seq<string>, r: string, u: UserId)
    ensures OfflineIn(sets, done + [r], u) == SRemoved(OfflineIn(sets, done, u), OnlineKey(r), u)
    ensures UntypedIn(hashes, done + [r], u) == HDeleted(UntypedIn(hashes, done, u), TypingKey(r), {u})
  {
    assert (done + [r])[..|done|] == done;
  }

  /** Going through the rooms `done` drops the user from exactly those rooms' online sets and typing hashes. */
  lemma {:induction false} OfflineDropped(sets: map<Key, set<UserId>>, hashes: map<Key, map<UserId, int>>, done: seq<string>, u: UserId)
    ensures Dropped(sets, OfflineIn(sets, done, u), hashes, UntypedIn(hashes, done, u), done, u)
  {
    if done != [] {
      var prefix, r := done[..|done| - 1], done[|done| - 1];
      assert done == prefix + [r];
      OfflineDropped(sets, hashes, prefix, u);
      var s1, h1 := OfflineIn(sets, prefix, u), UntypedIn(hashes, prefix, u);
      forall q ensures SetAt(OfflineIn(sets, done, u), OnlineKey(q)) == if q in done then SetAt(sets, OnlineKey(q)) - {u} else SetAt(sets, OnlineKey(q)) {
        assert q in done <==> q in prefix || q == r;
      }
      forall q ensures HashAt(UntypedIn(hashes, done, u), TypingKey(q)) == if q in done then HashAt(hashes, TypingKey(q)) - {u} else HashAt(hashes, TypingKey(q)) {
        assert q in done <==> q in prefix || q == r;
      }
    }
  }

  /** Whatever rooms have been gone through, a room's online set without the user is as it first was without them. */
  lemma OfflineWithout(sets: map<Key, set<UserId>>, hashes: map<Key, map<UserId, int>>, done: seq<string>, u: UserId, r: string)
    ensures SetAt(OfflineIn(sets, done, u), OnlineKey(r)) - {u} == SetAt(sets, OnlineKey(r)) - {u}
  {
    OfflineDropped(sets, hashes, done, u);
  }

  /** Four emits one after another are the four emits at once. */
  lemma Appended4(s: seq<Output>, a: Output, b: Output, c: Output, d: Output)
    ensures s + [a] + [b] + [c] + [d] == s + [a, b, c, d]
  {
  }

  /** The store side of an accepted join: the user goes online in the room, and the room's history is read and pruned. */
  method EnterRoomStore(store: Store, roomId: string, userId: UserId, now: int) returns (messages: seq<Message>)
    modifies store
    ensures var ids := old(ListAt(store.lists, MsgListKey(roomId)));
      && messages == LiveBodies(ids, old(store.strings), now)
      && store.sets == old(store.sets)[OnlineKey(roomId) := old(SetAt(store.sets, OnlineKey(roomId))) + {userId}]
      && store.strings == old(store.strings) && store.hashes == old(store.hashes)
      && store.lists == (if ids == [] then old(store.lists)
                         else old(store.lists)[MsgListKey(roomId) := LiveIds(ids, old(store.strings), now)])
  {
    AddOnlineUser(store, roomId, userId);
    messages := GetRoomMessages(store, roomId, now);
  }

  /** One socket's handlers and the set of rooms it has joined, in joining order. */
  class Connection {
    const me: Peer
    const hub: Hub
    var joinedRooms: seq<string>

    ghost predicate Valid()
      reads this
    {
      NoDuplicates(joinedRooms)
    }

    constructor (me: Peer, hub: Hub)
      ensures this.me == me && this.hub == hub && joinedRooms == [] && Valid()
    {
      this.me := me;
      this.hub := hub;
      joinedRooms := [];
    }

    /** buildMembersList for a room, read from the store as it is now. */
    method BuildMembersList(dir: Directory, roomId: string) returns (members: seq<MemberEntry>)
      ensures members == MembersList(MembersOf(dir, roomId), SetAt(hub.store.sets, OnlineKey(roomId)))
    {
      var online := GetOnlineUsers(hub.store, roomId);
      members := MembersList(MembersOf(dir, roomId), online);
    }

    /** buildTypingList: the active typists in ascending id order, kept when they are members. */
    method BuildTypingList(dir: Directory, roomId: string, now: int) returns (users: seq<TypingEntry>)
      modifies hub.store
      ensures users == TypingList(Sets.Ascend(ActiveTyping(old(HashAt(hub.store.hashes, TypingKey(roomId))), now).Keys), MembersOf(dir, roomId))
      ensures HashAt(hub.store.hashes, TypingKey(roomId)) == ActiveTyping(old(HashAt(hub.store.hashes, TypingKey(roomId))), now)
      ensures forall k :: k != TypingKey(roomId) ==> HashAt(hub.store.hashes, k) == old(HashAt(hub.store.hashes, k))
      ensures hub.store.strings == old(hub.store.strings) && hub.store.lists == old(hub.store.lists) && hub.store.sets == old(hub.store.sets)
    {
      var active := GetTypingUsers(hub.store, roomId, now);
      users := TypingList(active, MembersOf(dir, roomId));
    }

    /** `room:join` */
    method Join(dir: Directory, roomId: string, now: int)
      requires Valid()
      modifies this, hub, hub.store
      ensures Valid()
      ensures roomId == "" ==>
        hub.outbox == old(hub.outbox) + [Emit([me], Error(ValidationError, "roomId is required"))]
      ensures roomId != "" && MembershipError(dir, roomId, me.user.id).Some? ==>
        hub.outbox == old(hub.outbox) + [Emit([me], MembershipError(dir, roomId, me.user.id).value)]
      ensures (roomId == "" || MembershipError(dir, roomId, me.user.id).Some?) ==>
        unchanged(hub.store) && hub.rooms == old(hub.rooms) && joinedRooms == old(joinedRooms)
      ensures roomId != "" && MembershipError(dir, roomId, me.user.id).None? ==>
        var members := MembersList(MembersOf(dir, roomId), old(SetAt(hub.store.sets, OnlineKey(roomId))) + {me.user.id});
        var ids := old(ListAt(hub.store.lists, MsgListKey(roomId)));
        && hub.rooms == JoinRoom(old(hub.rooms), roomId, me)
        && joinedRooms == AddRoom(old(joinedRooms), roomId)
        && hub.store.sets == old(hub.store.sets)[OnlineKey(roomId) := old(SetAt(hub.store.sets, OnlineKey(roomId))) + {me.user.id}]
        && hub.store.strings == old(hub.store.strings) && hub.store.hashes == old(hub.store.hashes)
        && hub.store.lists == (if ids == [] then old(hub.store.lists)
                               else old(hub.store.lists)[MsgListKey(roomId) := LiveIds(ids, old(hub.store.strings), now)])
        && hub.outbox == old(hub.outbox) + [
             Emit([me], History(roomId, LiveBodies(ids, old(hub.store.strings), now))),
             Emit([me], Members(roomId, members)),
             Emit(Others(hub.rooms, roomId, me), UserJoined(roomId, me.user.id, me.user.username)),
             Emit(Others(hub.rooms, roomId, me), Members(roomId, members))]
    {
      if roomId == "" {
        hub.Send([me], Error(ValidationError, "roomId is required"));
        return;
      }
      var err := MembershipError(dir, roomId, me.user.id);
      if err.Some? {
        hub.Send([me], err.value);
        return;
      }
      JoinNow(dir, roomId, now);
    }

    /** The accepted `room:join`: socket room, online set, history, and the member lists. */
    method JoinNow(dir: Directory, roomId: string, now: int)
      requires Valid()
      modifies this, hub, hub.store
      ensures Valid()
      ensures var members := MembersList(MembersOf(dir, roomId), old(SetAt(hub.store.sets, OnlineKey(roomId))) + {me.user.id});
        var ids := old(ListAt(hub.store.lists, MsgListKey(roomId)));
        && hub.rooms == JoinRoom(old(hub.rooms), roomId, me)
        && joinedRooms == AddRoom(old(joinedRooms), roomId)
        && hub.store.sets == old(hub.store.sets)[OnlineKey(roomId) := old(SetAt(hub.store.sets, OnlineKey(roomId))) + {me.user.id}]
        && hub.store.strings == old(hub.store.strings) && hub.store.hashes == old(hub.store.hashes)
        && hub.store.lists == (if ids == [] then old(hub.store.lists)
                               else old(hub.store.lists)[MsgListKey(roomId) := LiveIds(ids, old(hub.store.strings), now)])
        && hub.outbox == old(hub.outbox) + [
             Emit([me], History(roomId, LiveBodies(ids, old(hub.store.strings), now))),
             Emit([me], Members(roomId, members)),
             Emit(Others(hub.rooms, roomId, me), UserJoined(roomId, me.user.id, me.user.username)),
             Emit(Others(hub.rooms, roomId, me), Members(roomId, members))]
    {
      ghost var outbox0 := hub.outbox;
      ghost var online := SetAt(hub.store.sets, OnlineKey(roomId)) + {me.user.id};
      hub.rooms := JoinRoom(hub.rooms, roomId, me);
      AddRoomNoDuplicates(joinedRooms, roomId);
      joinedRooms := AddRoom(joinedRooms, roomId);
      var messages := EnterRoomStore(hub.store, roomId, me.user.id, now);
      assert SetAt(hub.store.sets, OnlineKey(roomId)) == online;
      ghost var others := Others(hub.rooms, roomId, me);
      ghost var e1, e2, e3 := Emit([me], History(roomId, messages)), Emit([me], Members(roomId, MembersList(MembersOf(dir, roomId), online))),
        Emit(others, UserJoined(roomId, me.user.id, me.user.username));
      ghost var e4 := Emit(others, Members(roomId, MembersList(MembersOf(dir, roomId), online)));
      hub.Send([me], History(roomId, messages));
      assert hub.outbox == outbox0 + [e1];
      var members := BuildMembersList(dir, roomId);
      hub.Send([me], Members(roomId, members));
      assert hub.outbox == outbox0 + [e1] + [e2];
      hub.Send(Others(hub.rooms, roomId, me), UserJoined(roomId, me.user.id, me.user.username));
      assert hub.outbox == outbox0 + [e1] + [e2] + [e3];
      var updatedMembers := BuildMembersList(dir, roomId);
      hub.Send(Others(hub.rooms, roomId, me), Members(roomId, updatedMembers));
      Appended4(outbox0, e1, e2, e3, e4);
    }

    /**
     * handleLeaveRoom: the socket leaves the room, the user leaves its online
     * set and typing hash, and the others hear about it. There is no
     * membership check.
     */
    method LeaveRoomNow(dir: Directory, roomId: string)
      requires Valid()
      modifies this, hub, hub.store
      ensures Valid()
      ensures hub.rooms == LeaveRoom(old(hub.rooms), roomId, me)
      ensures joinedRooms == DropRoom(old(joinedRooms), roomId)
      ensures roomId !in joinedRooms
      ensures SetAt(hub.store.sets, OnlineKey(roomId)) == old(SetAt(hub.store.sets, OnlineKey(roomId))) - {me.user.id}
      ensures forall k :: k != OnlineKey(roomId) ==> SetAt(hub.store.sets, k) == old(SetAt(hub.store.sets, k))
      ensures HashAt(hub.store.hashes, TypingKey(roomId)) == old(HashAt(hub.store.hashes, TypingKey(roomId))) - {me.user.id}
      ensures forall k :: k != TypingKey(roomId) ==> HashAt(hub.store.hashes, k) == old(HashAt(hub.store.hashes, k))
      ensures hub.store.strings == old(hub.store.strings) && hub.store.lists == old(hub.store.lists)
      ensures hub.outbox == old(hub.outbox) + [
        Emit(Others(hub.rooms, roomId, me), UserLeft(roomId, me.user.id, me.user.username)),
        Emit(Others(hub.rooms, roomId, me), Members(roomId,
          MembersList(MembersOf(dir, roomId), old(SetAt(hub.store.sets, OnlineKey(roomId))) - {me.user.id})))]
    {
      hub.rooms := LeaveRoom(hub.rooms, roomId, me);
      DropRoomNoDuplicates(joinedRooms, roomId);
      DropRoomMembers(joinedRooms, roomId);
      joinedRooms := DropRoom(joinedRooms, roomId);
      RemoveOnlineUser(hub.store, roomId, me.user.id);
      RemoveTyping(hub.store, roomId, me.user.id);
      hub.Send(Others(hub.rooms, roomId, me), UserLeft(roomId, me.user.id, me.user.username));
      var members := BuildMembersList(dir, roomId);
      hub.Send(Others(hub.rooms, roomId, me), Members(roomId, members));
    }

    /** `room:leave`: an empty room id is refused, any other is left. */
    method Leave(dir: Directory, roomId: string)
      requires Valid()
      modifies this, hub, hub.store
      ensures Valid()
      ensures roomId == "" ==>
        hub.outbox == old(hub.outbox) + [Emit([me], Error(ValidationError, "roomId is required"))]
        && unchanged(hub.store) && hub.rooms == old(hub.rooms) && joinedRooms == old(joinedRooms)
      ensures roomId != "" ==>
        && hub.rooms == LeaveRoom(old(hub.rooms), roomId, me)
        && joinedRooms == DropRoom(old(joinedRooms), roomId)
        && SetAt(hub.store.sets, OnlineKey(roomId)) == old(SetAt(hub.store.sets, OnlineKey(roomId))) - {me.user.id}
        && HashAt(hub.store.hashes, TypingKey(roomId)) == old(HashAt(hub.store.hashes, TypingKey(roomId))) - {me.user.id}
        && (forall k :: k != OnlineKey(roomId) ==> SetAt(hub.store.sets, k) == old(SetAt(hub.store.sets, k)))
        && (forall k :: k != TypingKey(roomId) ==> HashAt(hub.store.hashes, k) == old(HashAt(hub.store.hashes, k)))
        && hub.store.strings == old(hub.store.strings) && hub.store.lists == old(hub.store.lists)
        && hub.outbox == old(hub.outbox) + [
          Emit(Others(hub.rooms, roomId, me), UserLeft(roomId, me.user.id, me.user.username)),
          Emit(Others(hub.rooms, roomId, me), Members(roomId,
            MembersList(MembersOf(dir, roomId), old(SetAt(hub.store.sets, OnlineKey(roomId))) - {me.user.id})))]
    {
      if roomId == "" {
        hub.Send([me], Error(ValidationError, "roomId is required"));
        return;
      }
      LeaveRoomNow(dir, roomId);
    }
  
    /** `message:send`: checks, rate limit, store, then one emit per socket of the room that is not blocked. */
    method SendMessage(dir: Directory, roomId: string, kind: string, content: Json, id: string, timestamp: string, now: int)
      modifies hub, hub.store
      ensures hub.rooms == old(hub.rooms) && hub.store.sets == old(hub.store.sets) && hub.store.hashes == old(hub.store.hashes)
      ensures SendError(dir, me.user.id, roomId, kind, content).Some? ==>
        hub.outbox == old(hub.outbox) + [Emit([me], SendError(dir, me.user.id, roomId, kind, content).value)]
        && unchanged(hub.store)
      ensures SendError(dir, me.user.id, roomId, kind, content).None? && !Allowed(old(hub.store.strings), me.user.id, now) ==>
        hub.outbox == old(hub.outbox) + [Emit([me], Error(RateLimited, "You are sending messages too quickly"))]
        && hub.store.strings == old(hub.store.strings) && hub.store.lists == old(hub.store.lists)
      ensures SendError(dir, me.user.id, roomId, kind, content).None? && Allowed(old(hub.store.strings), me.user.id, now) ==>
        var m := Message(id, roomId, me.user.id, me.user.username, kind, content, [], timestamp);
        && hub.store.strings == AfterCheck(old(hub.store.strings), me.user.id, now)[MsgKey(id) := StringEntry(Body(m), now + 1000 * MSG_TTL)]
        && hub.store.lists == old(hub.store.lists)[MsgListKey(roomId) := old(ListAt(hub.store.lists, MsgListKey(roomId))) + [id]]
        && hub.outbox == old(hub.outbox) + Deliveries(hub.store.sets, PeersIn(hub.rooms, roomId), me.user.id, m)
    {
      var err := SendError(dir, me.user.id, roomId, kind, content);
      if err.Some? {
        hub.Send([me], err.value);
        return;
      }
      var allowed := CheckRateLimit(hub.store, me.user.id, now);
      if !allowed {
        hub.Send([me], Error(RateLimited, "You are sending messages too quickly"));
        return;
      }
      var message := Message(id, roomId, me.user.id, me.user.username, kind, content, [], timestamp);
      StoreMessage(hub.store, roomId, message, now);
      ghost var stored := hub.store.strings;
      Deliver(PeersIn(hub.rooms, roomId), message);
      assert hub.store.strings == stored;
    }

    /** The delivery loop of `message:send`: the new message to each socket not blocked from the sender, one emit each. */
    method Deliver(sockets: seq<Peer>, message: Message)
      modifies hub
      ensures hub.rooms == old(hub.rooms)
      ensures hub.outbox == old(hub.outbox) + Deliveries(hub.store.sets, sockets, me.user.id, message)
    {
      var i := 0;
      while i < |sockets|
        invariant 0 <= i <= |sockets|
        invariant hub.outbox == old(hub.outbox) + Deliveries(hub.store.sets, sockets[..i], me.user.id, message)
        invariant hub.rooms == old(hub.rooms)
      {
        var blocked := IsBlockedBetween(hub.store, me.user.id, sockets[i].user.id);
        assert sockets[..i + 1][..i] == sockets[..i];
        if !blocked {
          hub.Send([sockets[i]], NewMessage(message));
        }
        i := i + 1;
      }
      assert sockets[..i] == sockets;
    }

    /**
     * `message:delete`: only the author may delete; an image message's file is
     * unlinked when it lies under the uploads directory; everyone in the
     * room hears of the deletion.
     */
    method DeleteMessageEvent(dir: Directory, roomId: string, messageId: string, resolve: string -> string, now: int)
      modifies hub, hub.store
      ensures hub.rooms == old(hub.rooms)
      ensures DeleteError(dir, me.user.id, roomId, messageId).Some? ==>
        hub.outbox == old(hub.outbox) + [Emit([me], DeleteError(dir, me.user.id, roomId, messageId).value)]
        && unchanged(hub.store)
      ensures DeleteError(dir, me.user.id, roomId, messageId).None? && old(BodyAt(hub.store.strings, messageId, now)).None? ==>
        hub.outbox == old(hub.outbox) + [Emit([me], Error(NotFound, "Message not found"))]
        && unchanged(hub.store)
      ensures DeleteError(dir, me.user.id, roomId, messageId).None? && old(BodyAt(hub.store.strings, messageId, now)).Some?
              && old(BodyAt(hub.store.strings, messageId, now)).value.userId != me.user.id ==>
        hub.outbox == old(hub.outbox) + [Emit([me], Error(Unauthorized, "You can only delete your own messages"))]
        && unchanged(hub.store)
      ensures DeleteError(dir, me.user.id, roomId, messageId).None? && old(BodyAt(hub.store.strings, messageId, now)).Some?
              && old(BodyAt(hub.store.strings, messageId, now)).value.userId == me.user.id ==>
        var m := old(BodyAt(hub.store.strings, messageId, now)).value;
        var unlink := match ImageToUnlink(m, resolve) case Some(p) => [Unlink(p)] case None => [];
        && hub.store.strings == old(hub.store.strings) - {MsgKey(messageId)}
        && ListAt(hub.store.lists, MsgListKey(roomId)) == Without(old(ListAt(hub.store.lists, MsgListKey(roomId))), messageId)
        && (forall k :: k != MsgListKey(roomId) && k != MsgKey(messageId) ==> ListAt(hub.store.lists, k) == old(ListAt(hub.store.lists, k)))
        && hub.store.sets == old(hub.store.sets) - {MsgKey(messageId)} && hub.store.hashes == old(hub.store.hashes) - {MsgKey(messageId)}
        && hub.outbox == old(hub.outbox) + unlink + [Emit(PeersIn(hub.rooms, roomId), Deleted(roomId, messageId))]
    {
      var err := DeleteError(dir, me.user.id, roomId, messageId);
      if err.Some? {
        hub.Send([me], err.value);
        return;
      }
      var message := GetMessage(hub.store, messageId, now);
      if message.None? {
        hub.Send([me], Error(NotFound, "Message not found"));
        return;
      }
      if message.value.userId != me.user.id {
        hub.Send([me], Error(Unauthorized, "You can only delete your own messages"));
        return;
      }
      var target := ImageToUnlink(message.value, resolve);
      if target.Some? {
        hub.outbox := hub.outbox + [Unlink(target.value)];
      }
      DeleteMessage(hub.store, roomId, messageId);
      hub.Send(PeersIn(hub.rooms, roomId), Deleted(roomId, messageId));
    }

    /**
     * `reaction:add`: the user joins the emoji's group and everyone in the
     * room gets the new groups. The write keeps the body's expiry and is
     * skipped when the body has less than half a second left, but the
     * groups are sent either way.
     */
    method AddReactionEvent(dir: Directory, roomId: string, messageId: string, emoji: string, now: int)
      modifies hub, hub.store
      ensures hub.rooms == old(hub.rooms)
      ensures hub.store.lists == old(hub.store.lists) && hub.store.sets == old(hub.store.sets) && hub.store.hashes == old(hub.store.hashes)
      ensures ReactionError(dir, me.user.id, roomId, messageId, emoji).Some? ==>
        hub.outbox == old(hub.outbox) + [Emit([me], ReactionError(dir, me.user.id, roomId, messageId, emoji).value)]
        && hub.store.strings == old(hub.store.strings)
      ensures ReactionError(dir, me.user.id, roomId, messageId, emoji).None? && old(BodyAt(hub.store.strings, messageId, now)).None? ==>
        hub.outbox == old(hub.outbox) + [Emit([me], Error(NotFound, "Message not found"))]
        && hub.store.strings == old(hub.store.strings)
      ensures ReactionError(dir, me.user.id, roomId, messageId, emoji).None? && old(BodyAt(hub.store.strings, messageId, now)).Some? ==>
        var m := old(BodyAt(hub.store.strings, messageId, now)).value;
        var reactions := AddReaction(m.reactions, emoji, me.user.id);
        && hub.outbox == old(hub.outbox) + [Emit(PeersIn(hub.rooms, roomId), ReactionsUpdated(roomId, messageId, reactions))]
        && (TtlOf(old(hub.store.strings), MsgKey(messageId), now) > 0 ==>
              BodyAt(hub.store.strings, messageId, now) == Some(m.(reactions := reactions))
              && TtlOf(hub.store.strings, MsgKey(messageId), now) == TtlOf(old(hub.store.strings), MsgKey(messageId), now)
              && hub.store.strings == old(hub.store.strings)[MsgKey(messageId) :=
                   StringEntry(Body(m.(reactions := reactions)), now + 1000 * TtlOf(old(hub.store.strings), MsgKey(messageId), now))])
        && (TtlOf(old(hub.store.strings), MsgKey(messageId), now) <= 0 ==> hub.store.strings == old(hub.store.strings))
    {
      var err := ReactionError(dir, me.user.id, roomId, messageId, emoji);
      if err.Some? {
        hub.Send([me], err.value);
        return;
      }
      ReactToStored(roomId, messageId, emoji, now, true);
    }

    /**
     * `reaction:remove`: the user leaves the emoji's group, empty groups are
     * dropped, and everyone in the room gets the groups; as for additions the
     * write is skipped for a body about to expire.
     */
    method RemoveReactionEvent(dir: Directory, roomId: string, messageId: string, emoji: string, now: int)
      modifies hub, hub.store
      ensures hub.rooms == old(hub.rooms)
      ensures hub.store.lists == old(hub.store.lists) && hub.store.sets == old(hub.store.sets) && hub.store.hashes == old(hub.store.hashes)
      ensures ReactionError(dir, me.user.id, roomId, messageId, emoji).Some? ==>
        hub.outbox == old(hub.outbox) + [Emit([me], ReactionError(dir, me.user.id, roomId, messageId, emoji).value)]
        && hub.store.strings == old(hub.store.strings)
      ensures ReactionError(dir, me.user.id, roomId, messageId, emoji).None? && old(BodyAt(hub.store.strings, messageId, now)).None? ==>
        hub.outbox == old(hub.outbox) + [Emit([me], Error(NotFound, "Message not found"))]
        && hub.store.strings == old(hub.store.strings)
      ensures ReactionError(dir, me.user.id, roomId, messageId, emoji).None? && old(BodyAt(hub.store.strings, messageId, now)).Some? ==>
        var m := old(BodyAt(hub.store.strings, messageId, now)).value;
        var reactions := RemoveReaction(m.reactions, emoji, me.user.id);
        && hub.outbox == old(hub.outbox) + [Emit(PeersIn(hub.rooms, roomId), ReactionsUpdated(roomId, messageId, reactions))]
        && (TtlOf(old(hub.store.strings), MsgKey(messageId), now) > 0 ==>
              BodyAt(hub.store.strings, messageId, now) == Some(m.(reactions := reactions))
              && TtlOf(hub.store.strings, MsgKey(messageId), now) == TtlOf(old(hub.store.strings), MsgKey(messageId), now)
              && hub.store.strings == old(hub.store.strings)[MsgKey(messageId) :=
                   StringEntry(Body(m.(reactions := reactions)), now + 1000 * TtlOf(old(hub.store.strings), MsgKey(messageId), now))])
        && (TtlOf(old(hub.store.strings), MsgKey(messageId), now) <= 0 ==> hub.store.strings == old(hub.store.strings))
    {
      var err := ReactionError(dir, me.user.id, roomId, messageId, emoji);
      if err.Some? {
        hub.Send([me], err.value);
        return;
      }
      ReactToStored(roomId, messageId, emoji, now, false);
    }

    /**
     * The reaction events once the checks have passed: a body that is gone
     * gives `NOT_FOUND` to the sender; otherwise the groups with the user
     * added (`adding`) or removed are published.
     */
    method ReactToStored(roomId: string, messageId: string, emoji: string, now: int, adding: bool)
      modifies hub, hub.store
      ensures hub.rooms == old(hub.rooms)
      ensures hub.store.lists == old(hub.store.lists) && hub.store.sets == old(hub.store.sets) && hub.store.hashes == old(hub.store.hashes)
      ensures old(BodyAt(hub.store.strings, messageId, now)).None? ==>
        hub.outbox == old(hub.outbox) + [Emit([me], Error(NotFound, "Message not found"))]
        && hub.store.strings == old(hub.store.strings)
      ensures old(BodyAt(hub.store.strings, messageId, now)).Some? ==>
        var m := old(BodyAt(hub.store.strings, messageId, now)).value;
        var reactions := if adding then AddReaction(m.reactions, emoji, me.user.id) else RemoveReaction(m.reactions, emoji, me.user.id);
        && hub.outbox == old(hub.outbox) + [Emit(PeersIn(hub.rooms, roomId), ReactionsUpdated(roomId, messageId, reactions))]
        && (TtlOf(old(hub.store.strings), MsgKey(messageId), now) > 0 ==>
              BodyAt(hub.store.strings, messageId, now) == Some(m.(reactions := reactions))
              && TtlOf(hub.store.strings, MsgKey(messageId), now) == TtlOf(old(hub.store.strings), MsgKey(messageId), now)
              && hub.store.strings == old(hub.store.strings)[MsgKey(messageId) :=
                   StringEntry(Body(m.(reactions := reactions)), now + 1000 * TtlOf(old(hub.store.strings), MsgKey(messageId), now))])
        && (TtlOf(old(hub.store.strings), MsgKey(messageId), now) <= 0 ==> hub.store.strings == old(hub.store.strings))
    {
      var message := GetMessage(hub.store, messageId, now);
      if message.None? {
        hub.Send([me], Error(NotFound, "Message not found"));
        return;
      }
      var reactions := if adding then AddReaction(message.value.reactions, emoji, me.user.id)
                       else RemoveReaction(message.value.reactions, emoji, me.user.id);
      PublishReactions(roomId, messageId, message.value, reactions, now);
    }

    /**
     * The common tail of the reaction events: the body with its new groups is
     * written back with the same expiry unless it is about to expire, and the
     * room gets the groups either way.
     */
    method PublishReactions(roomId: string, messageId: string, m: Message, reactions: seq<ReactionGroup>, now: int)
      requires BodyAt(hub.store.strings, messageId, now) == Some(m)
      modifies hub, hub.store
      ensures hub.rooms == old(hub.rooms)
      ensures hub.store.lists == old(hub.store.lists) && hub.store.sets == old(hub.store.sets) && hub.store.hashes == old(hub.store.hashes)
      ensures hub.outbox == old(hub.outbox) + [Emit(PeersIn(hub.rooms, roomId), ReactionsUpdated(roomId, messageId, reactions))]
      ensures TtlOf(old(hub.store.strings), MsgKey(messageId), now) > 0 ==>
                BodyAt(hub.store.strings, messageId, now) == Some(m.(reactions := reactions))
                && TtlOf(hub.store.strings, MsgKey(messageId), now) == TtlOf(old(hub.store.strings), MsgKey(messageId), now)
                && hub.store.strings == old(hub.store.strings)[MsgKey(messageId) :=
                     StringEntry(Body(m.(reactions := reactions)), now + 1000 * TtlOf(old(hub.store.strings), MsgKey(messageId), now))]
      ensures TtlOf(old(hub.store.strings), MsgKey(messageId), now) <= 0 ==> hub.store.strings == old(hub.store.strings)
    {
      var updated := m.(reactions := reactions);
      var _ := UpdateMessage(hub.store, messageId, updated, now);
      hub.Send(PeersIn(hub.rooms, roomId), ReactionsUpdated(roomId, messageId, reactions));
    }

    /** `typing:start`: an empty room id is ignored without a reply; otherwise the others get the typing list. */
    method TypingStart(dir: Directory, roomId: string, now: int)
      modifies hub, hub.store
      ensures hub.rooms == old(hub.rooms)
      ensures roomId == "" ==> hub.outbox == old(hub.outbox) && unchanged(hub.store)
      ensures roomId != "" && MembershipError(dir, roomId, me.user.id).Some? ==>
        hub.outbox == old(hub.outbox) + [Emit([me], MembershipError(dir, roomId, me.user.id).value)]
        && unchanged(hub.store)
      ensures roomId != "" && MembershipError(dir, roomId, me.user.id).None? ==>
        var h := old(HashAt(hub.store.hashes, TypingKey(roomId)))[me.user.id := now];
        && HashAt(hub.store.hashes, TypingKey(roomId)) == ActiveTyping(h, now)
        && me.user.id in HashAt(hub.store.hashes, TypingKey(roomId))
        && (forall k :: k != TypingKey(roomId) ==> HashAt(hub.store.hashes, k) == old(HashAt(hub.store.hashes, k)))
        && hub.store.strings == old(hub.store.strings) && hub.store.lists == old(hub.store.lists) && hub.store.sets == old(hub.store.sets)
        && hub.outbox == old(hub.outbox) + [Emit(Others(hub.rooms, roomId, me),
             TypingUpdate(roomId, TypingList(Sets.Ascend(ActiveTyping(h, now).Keys), MembersOf(dir, roomId))))]
    {
      if roomId == "" {
        return;
      }
      var err := MembershipError(dir, roomId, me.user.id);
      if err.Some? {
        hub.Send([me], err.value);
        return;
      }
      SetTyping(hub.store, roomId, me.user.id, now);
      var users := BuildTypingList(dir, roomId, now);
      hub.Send(Others(hub.rooms, roomId, me), TypingUpdate(roomId, users));
    }

    /** `typing:stop`: as `typing:start`, with the user's entry removed instead of refreshed. */
    method TypingStop(dir: Directory, roomId: string, now: int)
      modifies hub, hub.store
      ensures hub.rooms == old(hub.rooms)
      ensures roomId == "" ==> hub.outbox == old(hub.outbox) && unchanged(hub.store)
      ensures roomId != "" && MembershipError(dir, roomId, me.user.id).Some? ==>
        hub.outbox == old(hub.outbox) + [Emit([me], MembershipError(dir, roomId, me.user.id).value)]
        && unchanged(hub.store)
      ensures roomId != "" && MembershipError(dir, roomId, me.user.id).None? ==>
        var h := old(HashAt(hub.store.hashes, TypingKey(roomId))) - {me.user.id};
        && HashAt(hub.store.hashes, TypingKey(roomId)) == ActiveTyping(h, now)
        && me.user.id !in HashAt(hub.store.hashes, TypingKey(roomId))
        && (forall k :: k != TypingKey(roomId) ==> HashAt(hub.store.hashes, k) == old(HashAt(hub.store.hashes, k)))
        && hub.store.strings == old(hub.store.strings) && hub.store.lists == old(hub.store.lists) && hub.store.sets == old(hub.store.sets)
        && hub.outbox == old(hub.outbox) + [Emit(Others(hub.rooms, roomId, me),
             TypingUpdate(roomId, TypingList(Sets.Ascend(ActiveTyping(h, now).Keys), MembersOf(dir, roomId))))]
    {
      if roomId == "" {
        return;
      }
      var err := MembershipError(dir, roomId, me.user.id);
      if err.Some? {
        hub.Send([me], err.value);
        return;
      }
      RemoveTyping(hub.store, roomId, me.user.id);
      var users := BuildTypingList(dir, roomId, now);
      hub.Send(Others(hub.rooms, roomId, me), TypingUpdate(roomId, users));
    }

    /**
     * The body of the disconnect loop for one room, after the rooms `done`:
     * the user leaves this room's online set and typing hash, and the two
     * emits for it follow those of the earlier rooms.
     */
    method DisconnectFrom(dir: Directory, roomId: string, ghost done: seq<string>,
                          ghost sets0: map<Key, set<UserId>>, ghost hashes0: map<Key, map<UserId, int>>, ghost before: seq<Output>)
      requires hub.store.sets == OfflineIn(sets0, done, me.user.id) && hub.store.hashes == UntypedIn(hashes0, done, me.user.id)
      requires hub.outbox == before + LeaveEvents(hub.rooms, done, dir, sets0, me)
      modifies hub, hub.store
      ensures hub.rooms == old(hub.rooms)
      ensures hub.store.sets == OfflineIn(sets0, done + [roomId], me.user.id)
      ensures hub.store.hashes == UntypedIn(hashes0, done + [roomId], me.user.id)
      ensures hub.store.strings == old(hub.store.strings) && hub.store.lists == old(hub.store.lists)
      ensures hub.outbox == before + LeaveEvents(hub.rooms, done + [roomId], dir, sets0, me)
    {
      OfflineStep(sets0, hashes0, done, roomId, me.user.id);
      OfflineWithout(sets0, hashes0, done, me.user.id, roomId);
      RemoveOnlineUser(hub.store, roomId, me.user.id);
      RemoveTyping(hub.store, roomId, me.user.id);
      hub.Send(Others(hub.rooms, roomId, me), UserLeft(roomId, me.user.id, me.user.username));
      var members := BuildMembersList(dir, roomId);
      hub.Send(Others(hub.rooms, roomId, me), Members(roomId, members));
      LeaveEventsStep(hub.rooms, done, roomId, dir, sets0, me);
      ghost var events := LeaveEvents(hub.rooms, done, dir, sets0, me);
      ghost var pair := [Emit(Others(hub.rooms, roomId, me), UserLeft(roomId, me.user.id, me.user.username)),
                         Emit(Others(hub.rooms, roomId, me), Members(roomId, members))];
      assert hub.outbox == (before + events) + pair;
      assert (before + events) + pair == before + (events + pair);
    }

    /**
     * `disconnect`: for every joined room, in joining order, the user leaves
     * the room's online set and typing hash and the others hear about it.
     * The transport has already taken the socket out of every room. The user
     * is marked offline in each room even when another of their sockets is
     * still there.
     */
    method Disconnect(dir: Directory)
      modifies hub, hub.store
      ensures hub.rooms == map r | r in old(hub.rooms) :: Except(old(hub.rooms)[r], me.sid)
      ensures hub.store.sets == OfflineIn(old(hub.store.sets), joinedRooms, me.user.id)
      ensures hub.store.hashes == UntypedIn(old(hub.store.hashes), joinedRooms, me.user.id)
      ensures Dropped(old(hub.store.sets), hub.store.sets, old(hub.store.hashes), hub.store.hashes, joinedRooms, me.user.id)
      ensures hub.store.strings == old(hub.store.strings) && hub.store.lists == old(hub.store.lists)
      ensures hub.outbox == old(hub.outbox) + LeaveEvents(hub.rooms, joinedRooms, dir, old(hub.store.sets), me)
    {
      hub.rooms := map r | r in hub.rooms :: Except(hub.rooms[r], me.sid);
      ghost var rooms := hub.rooms;
      ghost var before := hub.outbox;
      var i := 0;
      assert joinedRooms[..0] == [];
      while i < |joinedRooms|
        invariant 0 <= i <= |joinedRooms|
        invariant hub.rooms == rooms
        invariant hub.store.sets == OfflineIn(old(hub.store.sets), joinedRooms[..i], me.user.id)
        invariant hub.store.hashes == UntypedIn(old(hub.store.hashes), joinedRooms[..i], me.user.id)
        invariant hub.store.strings == old(hub.store.strings) && hub.store.lists == old(hub.store.lists)
        invariant hub.outbox == before + LeaveEvents(rooms, joinedRooms[..i], dir, old(hub.store.sets), me)
      {
        var roomId := joinedRooms[i];
        assert joinedRooms[..i + 1] == joinedRooms[..i] + [roomId];
        DisconnectFrom(dir, roomId, joinedRooms[..i], old(hub.store.sets), old(hub.store.hashes), before);
        i := i + 1;
      }
      assert joinedRooms[..i] == joinedRooms;
      OfflineDropped(old(hub.store.sets), old(hub.store.hashes), joinedRooms, me.user.id);
    }
  }
}
