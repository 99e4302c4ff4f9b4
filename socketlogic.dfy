/**
 * The pure part of the socket event handlers (server/socket/handlers.js): the
 * wire events, the relational rows the handlers consult, the payload checks
 * and the member and typing lists they broadcast.
 */
module SocketLogic {
  import opened Wrappers
  import opened Json
  import opened Chat
  import Sets

  /** The message kinds a `message:send` may carry. */
  const VALID_TYPES: seq<string> := ["drawing", "text", "image"]

  /** The longest text message, in characters. */
  const MAX_TEXT_LENGTH: int := 2000

  /** The `code` field of an `error` event. */
  datatype ErrorCode = ValidationError | NotFound | NotMember | Unauthorized | RateLimited

  /** The events the server emits. */
  datatype Event =
    | Error(code: ErrorCode, text: string)
    | History(roomId: string, messages: seq<Message>)
    | Members(roomId: string, members: seq<MemberEntry>)
    | UserJoined(roomId: string, userId: UserId, username: string)
    | UserLeft(roomId: string, userId: UserId, username: string)
    | NewMessage(message: Message)
    | Deleted(roomId: string, messageId: string)
    | ReactionsUpdated(roomId: string, messageId: string, reactions: seq<ReactionGroup>)
    | TypingUpdate(roomId: string, users: seq<TypingEntry>)

  /** An open socket: its connection id and the user it authenticated as. */
  datatype Peer = Peer(sid: nat, user: SocketUser)

  /** What a handler does outside the store: an event sent to some sockets, or an uploaded file deleted. */
  datatype Output = Emit(to: seq<Peer>, event: Event) | Unlink(path: string)

  /**
   * The rows of the relational store the handlers read: the ids of the
   * existing rooms and each room's member rows, in query order.
   */
  datatype Directory = Directory(rooms: set<string>, members: map<string, seq<DbMember>>)

  /** The member rows of a room; none for an unknown room. */
  function MembersOf(dir: Directory, roomId: string): seq<DbMember> {
    if roomId in dir.members then dir.members[roomId] else []
  }

  /** `isRoomMember`: some member row of the room has the user's id. */
  predicate IsMember(dir: Directory, roomId: string, userId: UserId) {
    exists i :: 0 <= i < |MembersOf(dir, roomId)| && MembersOf(dir, roomId)[i].id == userId
  }

  /**
   * validateMembership: the error it emits, if any. An unknown room is
   * NOT_FOUND before membership is looked at.
   */
  function MembershipError(dir: Directory, roomId: string, userId: UserId): (r: Option<Event>)
    ensures r.None? <==> roomId in dir.rooms && IsMember(dir, roomId, userId)
    ensures r.Some? ==> r.value.Error?
    ensures roomId !in dir.rooms ==> r == Some(Error(NotFound, "Room not found"))
  {
    if roomId !in dir.rooms then Some(Error(NotFound, "Room not found"))
    else if !IsMember(dir, roomId, userId) then Some(Error(NotMember, "You are not a member of this room"))
    else None
  }

  /**
   * validateContent: text is a non-empty string of at most 2000 characters,
   * a drawing an object whose `operations` is an array and whose `width` and
   * `height` are truthy, an image a non-empty string; other kinds pass. The
   * handler calls it only once `content` is known to be neither null nor
   * undefined (a null drawing would make `content.operations` throw).
   */
  predicate ValidContent(kind: string, content: Json)
    requires !(kind == "drawing" && content.Null?)
  {
    if kind == "text" then content.Str? && 0 < |content.s| <= MAX_TEXT_LENGTH
    else if kind == "drawing" then
      IsObjectType(content) && Field(content, "operations").Arr?
      && Truthy(Field(content, "width")) && Truthy(Field(content, "height"))
    else if kind == "image" then content.Str? && |content.s| > 0
    else true
  }

  /**
   * The checks `message:send` makes before the rate limit, in order: required
   * fields, known kind, content, membership. The empty string stands for a
   * missing or falsy field.
   */
  function SendError(dir: Directory, userId: UserId, roomId: string, kind: string, content: Json): (r: Option<Event>)
    ensures r.None? <==>
      roomId != "" && kind in VALID_TYPES && !content.Undefined? && !content.Null?
      && ValidContent(kind, content) && roomId in dir.rooms && IsMember(dir, roomId, userId)
    ensures r.Some? ==> r.value.Error?
    ensures (roomId == "" || kind == "" || content.Undefined? || content.Null?) ==>
      r == Some(Error(ValidationError, "roomId, type, and content are required"))
  {
    if roomId == "" || kind == "" || content.Undefined? || content.Null? then
      Some(Error(ValidationError, "roomId, type, and content are required"))
    else if kind !in VALID_TYPES then
      Some(Error(ValidationError, "Invalid message type. Must be one of: drawing, text, image"))
    else if !ValidContent(kind, content) then
      Some(Error(ValidationError, "Invalid message content"))
    else MembershipError(dir, roomId, userId)
  }

  /** Only a plain object passes the drawing check: `typeof` lets arrays through, but an array has no `operations`. */
  lemma DrawingNeedsObject(content: Json)
    requires !content.Null?
    ensures ValidContent("drawing", content) ==> content.Obj?
  {
  }

  /** A text message is accepted exactly when it has between 1 and 2000 characters. */
  lemma TextBounds(s: string)
    ensures ValidContent("text", Str(s)) <==> 1 <= |s| <= 2000
  {
  }

  /**
   * buildMembersList: one entry per member row, in row order, marked online
   * exactly when the user is in the room's online set.
   */
  function MembersList(members: seq<DbMember>, online: set<UserId>): (r: seq<MemberEntry>)
    ensures |r| == |members|
  {
    if members == [] then []
    else [MemberEntry(members[0].id, members[0].username, members[0].id in online)] + MembersList(members[1..], online)
  }

  lemma {:induction false} MembersListAt(members: seq<DbMember>, online: set<UserId>, i: nat)
    requires i < |members|
    ensures MembersList(members, online)[i] == MemberEntry(members[i].id, members[i].username, members[i].id in online)
  {
    if i > 0 {
      MembersListAt(members[1..], online, i - 1);
    }
  }

  /** The name `new Map(rows.map(m => [m.id, m.username]))` gives an id: the last row with that id wins. */
  function NameOf(members: seq<DbMember>, id: UserId): (r: Option<string>)
    ensures r.Some? <==> exists i :: 0 <= i < |members| && members[i].id == id
  {
    if members == [] then None
    else if members[|members| - 1].id == id then Some(members[|members| - 1].username)
    else NameOf(members[..|members| - 1], id)
  }

  /**
   * buildTypingList: the typing ids that belong to a member, in the order
   * given, each with the member's name.
   */
  function TypingList(typing: seq<UserId>, members: seq<DbMember>): (r: seq<TypingEntry>)
    ensures |r| <= |typing|
  {
    if typing == [] then []
    else
      var rest := TypingList(typing[1..], members);
      match NameOf(members, typing[0])
      case None => rest
      case Some(name) => [TypingEntry(typing[0], name)] + rest
  }

  /**
   * An id is in the typing list exactly when it is typing and is a member, and
   * then it carries the member's name.
   */
  lemma {:induction false} TypingListMembers(typing: seq<UserId>, members: seq<DbMember>)
    ensures forall e :: e in TypingList(typing, members) ==> e.userId in typing && NameOf(members, e.userId) == Some(e.username)
    ensures forall u :: u in typing && NameOf(members, u).Some? ==> exists e :: e in TypingList(typing, members) && e.userId == u
  {
    if typing != [] {
      TypingListMembers(typing[1..], members);
      assert typing == [typing[0]] + typing[1..];
      var rest := TypingList(typing[1..], members);
      var name := NameOf(members, typing[0]);
      if name.Some? {
        assert TypingList(typing, members)[0] == TypingEntry(typing[0], name.value);
      }
    }
  }

  /** The ids of a typing list, in order. */
  function TypingIds(entries: seq<TypingEntry>): (r: seq<UserId>)
    ensures |r| == |entries|
  {
    if entries == [] then [] else [entries[0].userId] + TypingIds(entries[1..])
  }

  /** Filtering keeps the ascending order in which the typing ids arrive. */
  lemma {:induction false} TypingListAscending(typing: seq<UserId>, members: seq<DbMember>)
    requires Sets.StrictlyIncreasing(typing)
    ensures Sets.StrictlyIncreasing(TypingIds(TypingList(typing, members)))
  {
    if typing != [] {
      TypingListAscending(typing[1..], members);
      var rest := TypingList(typing[1..], members);
      match NameOf(members, typing[0])
      case None =>
      case Some(name) =>
        var r := [TypingEntry(typing[0], name)] + rest;
        assert TypingIds(r) == [typing[0]] + TypingIds(rest);
        TypingListAbove(typing, members);
        ConsIncreasing(typing[0], TypingIds(rest));
    }
  }

  /** Every id the tail of the typing ids keeps is above the head. */
  lemma TypingListAbove(typing: seq<UserId>, members: seq<DbMember>)
    requires typing != [] && Sets.StrictlyIncreasing(typing)
    ensures forall k :: 0 <= k < |TypingIds(TypingList(typing[1..], members))| ==>
              typing[0] < TypingIds(TypingList(typing[1..], members))[k]
  {
    var rest := TypingList(typing[1..], members);
    TypingListMembers(typing[1..], members);
    TypingIdsMembers(rest);
    forall k | 0 <= k < |rest|
      ensures typing[0] < TypingIds(rest)[k]
    {
      assert rest[k] in rest;
      var j :| 0 <= j < |typing[1..]| && typing[1..][j] == rest[k].userId;
      assert typing[j + 1] == rest[k].userId;
    }
  }

  lemma ConsIncreasing(x: nat, ys: seq<nat>)
    requires Sets.StrictlyIncreasing(ys)
    requires forall k :: 0 <= k < |ys| ==> x < ys[k]
    ensures Sets.StrictlyIncreasing([x] + ys)
  {
    var xs := [x] + ys;
    forall i, j | 0 <= i < j < |xs| ensures xs[i] < xs[j] {
      assert xs[j] == ys[j - 1];
      if i > 0 {
        assert xs[i] == ys[i - 1];
      }
    }
  }

  lemma {:induction false} TypingIdsMembers(entries: seq<TypingEntry>)
    ensures forall k :: 0 <= k < |entries| ==> TypingIds(entries)[k] == entries[k].userId
  {
    if entries != [] {
      TypingIdsMembers(entries[1..]);
    }
  }

  /** The sockets of a server-side room; none for a room nobody joined. */
  function PeersIn(rooms: map<string, seq<Peer>>, roomId: string): seq<Peer> {
    if roomId in rooms then rooms[roomId] else []
  }

  /** `sockets` without the one whose connection id is `sid`. */
  function Except(sockets: seq<Peer>, sid: nat): (r: seq<Peer>)
    ensures |r| <= |sockets|
  {
    if sockets == [] then []
    else (if sockets[0].sid == sid then [] else [sockets[0]]) + Except(sockets[1..], sid)
  }

  lemma {:induction false} ExceptMembers(sockets: seq<Peer>, sid: nat)
    ensures forall p :: p in Except(sockets, sid) <==> p in sockets && p.sid != sid
  {
    if sockets != [] {
      ExceptMembers(sockets[1..], sid);
      assert sockets == [sockets[0]] + sockets[1..];
    }
  }

  /** `socket.to(room)`: every socket of the room but the sender's. */
  function Others(rooms: map<string, seq<Peer>>, roomId: string, me: Peer): seq<Peer> {
    Except(PeersIn(rooms, roomId), me.sid)
  }

  /** `socket.join(room)`: the socket is added at the end unless it is already there. */
  function JoinRoom(rooms: map<string, seq<Peer>>, roomId: string, me: Peer): map<string, seq<Peer>> {
    if me in PeersIn(rooms, roomId) then rooms else rooms[roomId := PeersIn(rooms, roomId) + [me]]
  }

  /** `socket.leave(room)`. */
  function LeaveRoom(rooms: map<string, seq<Peer>>, roomId: string, me: Peer): map<string, seq<Peer>> {
    if roomId in rooms then rooms[roomId := Except(rooms[roomId], me.sid)] else rooms
  }

  /** `joinedRooms.add(room)`: a JavaScript Set keeps its first insertion position. */
  function AddRoom(joined: seq<string>, roomId: string): (r: seq<string>)
    ensures roomId in r
  {
    if roomId in joined then joined else joined + [roomId]
  }

  /** `joinedRooms.delete(room)`. */
  function DropRoom(joined: seq<string>, roomId: string): (r: seq<string>)
    ensures |r| <= |joined|
  {
    if joined == [] then []
    else (if joined[0] == roomId then [] else [joined[0]]) + DropRoom(joined[1..], roomId)
  }

  predicate NoDuplicates(s: seq<string>) {
    forall i, j :: 0 <= i < j < |s| ==> s[i] != s[j]
  }

  lemma {:induction false} DropRoomMembers(joined: seq<string>, roomId: string)
    ensures forall r :: r in DropRoom(joined, roomId) <==> r in joined && r != roomId
  {
    if joined != [] {
      DropRoomMembers(joined[1..], roomId);
      assert joined == [joined[0]] + joined[1..];
    }
  }

  /** Joining and leaving keep the joined set free of duplicates. */
  lemma {:induction false} DropRoomNoDuplicates(joined: seq<string>, roomId: string)
    requires NoDuplicates(joined)
    ensures NoDuplicates(DropRoom(joined, roomId))
  {
    if joined != [] {
      DropRoomNoDuplicates(joined[1..], roomId);
      DropRoomMembers(joined[1..], roomId);
      assert joined[0] !in joined[1..];
    }
  }

  lemma AddRoomNoDuplicates(joined: seq<string>, roomId: string)
    requires NoDuplicates(joined)
    ensures NoDuplicates(AddRoom(joined, roomId))
  {
  }
}
