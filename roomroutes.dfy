/**
 * The room HTTP routes over the rooms table, the room-members table and the
 * invite-code index. Ids and invite codes come from `nanoid` and are passed
 * in; a clash with an existing one is what the tables' keys would refuse,
 * which the route reports as a failure. bcrypt is the pair of functions
 * `hash` and `matches`.
 */
module RoomRoutes {
  import opened Wrappers
  import opened Chat
  import opened Text
  import FriendRoutes

  datatype Room = Room(name: string, kind: string, ownerId: int, passwordHash: Option<string>,
                       inviteCode: string, maxMembers: int, createdAt: int)

  /** The rooms by id, the member ids of each room, and the room of each invite code. */
  datatype Db = Db(rooms: map<string, Room>, members: map<string, set<int>>, codes: map<string, string>)

  /** A room as a query returns it; some queries add the member count. */
  datatype RoomRow = RoomRow(id: string, room: Room, memberCount: Option<int>)

  /** A room as the routes send it: there is no field for the password hash. */
  datatype RoomView = RoomView(id: string, name: string, kind: string, inviteCode: string, ownerId: int,
                               maxMembers: int, createdAt: int, hasPassword: bool, memberCount: Option<int>)

  datatype Response =
    | Refusal(status: int, error: string)
    | RoomBody(status: int, room: RoomView)
    | Done(deleted: bool)

  datatype Outcome = Outcome(db: Db, response: Response)

  const MAX_ROOMS_PER_USER := 20
  const NAMED_CAPACITY := 16
  const DIRECT_CAPACITY := 2
  /** The type the rooms table gives a room created without one (server/db/index.js). */
  const DEFAULT_KIND := "invite"

  /** `sanitizeRoom`: the row renamed for the client, with the hash replaced by whether there is one. */
  function SanitizeRoom(row: RoomRow): (v: RoomView)
    ensures v.hasPassword <==> Truthy(row.room.passwordHash)
    ensures v.memberCount == row.memberCount
    ensures v.id == row.id && v.name == row.room.name && v.kind == row.room.kind && v.inviteCode == row.room.inviteCode
    ensures v.ownerId == row.room.ownerId && v.maxMembers == row.room.maxMembers && v.createdAt == row.room.createdAt
  {
    var r := row.room;
    RoomView(row.id, r.name, r.kind, r.inviteCode, r.ownerId, r.maxMembers, r.createdAt, Truthy(r.passwordHash), row.memberCount)
  }

  /** Two rooms with the same public fields, but different password hashes, are sent the same. */
  lemma SanitizeHidesHash(row: RoomRow, hash: string, other: string)
    requires hash != "" && other != ""
    ensures SanitizeRoom(row.(room := row.room.(passwordHash := Some(hash))))
         == SanitizeRoom(row.(room := row.room.(passwordHash := Some(other))))
  {
  }

  function View(db: Db, id: string): RoomView
    requires id in db.rooms
  {
    SanitizeRoom(RoomRow(id, db.rooms[id], None))
  }

  /** The rooms `u` is a member of. */
  function RoomsOf(db: Db, u: int): set<string> {
    set r | r in db.members && u in db.members[r]
  }

  function Insert(db: Db, id: string, room: Room, members: set<int>): Db {
    Db(db.rooms[id := room], db.members[id := members], db.codes[room.inviteCode := id])
  }

  /** `deleteRoom`: the room, its memberships and its invite code. */
  function Drop(db: Db, id: string): Db {
    Db(db.rooms - {id}, db.members - {id}, if id in db.rooms then db.codes - {db.rooms[id].inviteCode} else db.codes)
  }

  function Refuse(db: Db, status: int, error: string): Outcome {
    Outcome(db, Refusal(status, error))
  }

  /**
   * The tables agree: every room has a member set and one invite code
   * pointing back at it, and no room has more members than it allows.
   */
  ghost predicate Valid(db: Db) {
    && db.rooms.Keys == db.members.Keys
    && (forall c :: c in db.codes ==> db.codes[c] in db.rooms && db.rooms[db.codes[c]].inviteCode == c)
    && (forall r :: r in db.rooms ==> db.rooms[r].inviteCode in db.codes && db.codes[db.rooms[r].inviteCode] == r)
    && (forall r :: r in db.rooms ==> |db.members[r]| <= db.rooms[r].maxMembers)
  }

  // ---------------------------------------------------------------------------
  // The routes

  /** The three room types `create` accepts. */
  predicate KnownKind(roomType: string) {
    roomType in ["invite", "named", "direct"]
  }

  /** POST /api/rooms; `defaultMax` is the rooms table's default capacity. */
  function Create(db: Db, me: SocketUser, name: Option<string>, password: Option<string>, kind: Option<string>,
                  id: string, code: string, hash: string -> string, defaultMax: int, now: int): Outcome
  {
    var roomType := if Truthy(kind) then kind.value else "invite";
    if !KnownKind(roomType) then Refuse(db, 400, "Invalid room type")
    else if name.None? || !(1 <= |Trim(name.value)| <= 50) then Refuse(db, 400, "Room name must be 1-50 characters")
    else CreateNamed(db, me, roomType, Trim(name.value), password, id, code, hash, defaultMax, now)
  }

  /** The rest of `create` once the type and the trimmed name `title` have passed. */
  function CreateNamed(db: Db, me: SocketUser, roomType: string, title: string, password: Option<string>,
                       id: string, code: string, hash: string -> string, defaultMax: int, now: int): Outcome
  {
    if |RoomsOf(db, me.id)| >= MAX_ROOMS_PER_USER then Refuse(db, 400, "You have reached the maximum of 20 rooms")
    else if id in db.rooms || code in db.codes then Refuse(db, 500, "Failed to create room")
    else
      var room := NewRoom(roomType, title, me.id, password, code, hash, defaultMax, now);
      var db' := Insert(db, id, room, {me.id});
      Outcome(db', RoomBody(201, View(db', id)))
  }

  /** The row `create` inserts: a named room with its own capacity, any other with the table's defaults. */
  function NewRoom(roomType: string, name: string, owner: int, password: Option<string>, code: string,
                   hash: string -> string, defaultMax: int, now: int): Room
  {
    var passwordHash := if Truthy(password) then Some(hash(password.value)) else None;
    if roomType == "named" then Room(name, "named", owner, passwordHash, code, NAMED_CAPACITY, now)
    else Room(name, DEFAULT_KIND, owner, passwordHash, code, defaultMax, now)
  }

  /**
   * The answer of `findDirectRoom`: some direct room both users are members
   * of, or none when there is no such room.
   */
  ghost predicate DirectAnswer(db: Db, a: int, b: int, existing: Option<string>) {
    if existing.Some? then
      var r := existing.value;
      r in db.rooms && r in db.members && db.rooms[r].kind == "direct" && a in db.members[r] && b in db.members[r]
    else
      forall r :: r in db.rooms && r in db.members && db.rooms[r].kind == "direct" ==> !(a in db.members[r] && b in db.members[r])
  }

  /** POST /api/rooms/direct; `existing` is what `findDirectRoom` answers, `names` the users' names by id. */
  function Direct(db: Db, rows: FriendRoutes.Rows, names: map<int, string>, me: SocketUser, friendId: Option<int>,
                  existing: Option<string>, id: string, code: string, now: int): Outcome
    requires friendId.Some? ==> DirectAnswer(db, me.id, friendId.value, existing)
  {
    if friendId.None? || friendId.value == 0 then Refuse(db, 400, "friendId is required")
    else
      var f := friendId.value;
      if !FriendRoutes.Either(rows, me.id, f, FriendRoutes.Accepted) then
        Refuse(db, 403, "You can only create direct rooms with friends")
      else if existing.Some? then Outcome(db, RoomBody(200, View(db, existing.value)))
      else if id in db.rooms || code in db.codes then Refuse(db, 500, "Failed to create direct room")
      else
        var roomName := me.username + " & " + (if f in names then names[f] else "Unknown");
        var db' := Insert(db, id, Room(roomName, "direct", me.id, None, code, DIRECT_CAPACITY, now), {me.id, f});
        Outcome(db', RoomBody(201, View(db', id)))
  }

  /** DELETE /api/rooms/:id */
  function Delete(db: Db, me: SocketUser, id: string): Outcome {
    if id !in db.rooms then Refuse(db, 404, "Room not found")
    else if db.rooms[id].ownerId != me.id then Refuse(db, 403, "Only the room owner can delete this room")
    else Outcome(Drop(db, id), Done(false))
  }

  /** What both join routes do once they have found the room. */
  function JoinFound(db: Db, me: SocketUser, id: string, password: Option<string>, matches: (string, string) -> bool): Outcome
    requires id in db.rooms
  {
    var room := db.rooms[id];
    var members := if id in db.members then db.members[id] else {};
    if me.id in members then Outcome(db, RoomBody(200, View(db, id)))
    else if Truthy(room.passwordHash) && (!Truthy(password) || !matches(password.value, room.passwordHash.value)) then
      Refuse(db, 403, "Incorrect room password")
    else if |members| >= room.maxMembers then Refuse(db, 400, "This room is full")
    else if |RoomsOf(db, me.id)| >= MAX_ROOMS_PER_USER then Refuse(db, 400, "You have reached the maximum of 20 rooms")
    else Outcome(db.(members := db.members[id := members + {me.id}]), RoomBody(200, View(db, id)))
  }

  /** POST /api/rooms/:id/join */
  function Join(db: Db, me: SocketUser, id: string, password: Option<string>, matches: (string, string) -> bool): Outcome {
    if id !in db.rooms then Refuse(db, 404, "Room not found")
    else JoinFound(db, me, id, password, matches)
  }

  /** POST /api/rooms/join-by-code */
  function JoinByCode(db: Db, me: SocketUser, inviteCode: Option<string>, password: Option<string>,
                      matches: (string, string) -> bool): Outcome
  {
    if !Truthy(inviteCode) then Refuse(db, 400, "Invite code is required")
    else if inviteCode.value !in db.codes || db.codes[inviteCode.value] !in db.rooms then Refuse(db, 404, "Invalid invite code")
    else JoinFound(db, me, db.codes[inviteCode.value], password, matches)
  }

  /** POST /api/rooms/:id/leave */
  function Leave(db: Db, me: SocketUser, id: string): Outcome {
    if id !in db.rooms then Refuse(db, 404, "Room not found")
    else if id !in db.members || me.id !in db.members[id] then Refuse(db, 400, "Not a member of this room")
    else if db.rooms[id].ownerId == me.id then Outcome(Drop(db, id), Done(true))
    else Outcome(db.(members := db.members[id := db.members[id] - {me.id}]), Done(false))
  }

  // ---------------------------------------------------------------------------
  // The routes keep the tables in agreement

  lemma InsertKeeps(db: Db, id: string, room: Room, members: set<int>)
    requires Valid(db) && id !in db.rooms && room.inviteCode !in db.codes && |members| <= room.maxMembers
    ensures Valid(Insert(db, id, room, members))
  {
  }

  lemma DropKeeps(db: Db, id: string)
    requires Valid(db)
    ensures Valid(Drop(db, id))
  {
    var db' := Drop(db, id);
    if id in db.rooms {
      forall c | c in db'.codes ensures db'.codes[c] in db'.rooms && db'.rooms[db'.codes[c]].inviteCode == c {
        assert db.codes[c] != id;
      }
    }
  }

  lemma CreateKeeps(db: Db, me: SocketUser, name: Option<string>, password: Option<string>, kind: Option<string>,
                    id: string, code: string, hash: string -> string, defaultMax: int, now: int)
    requires Valid(db) && defaultMax >= 1
    ensures Valid(Create(db, me, name, password, kind, id, code, hash, defaultMax, now).db)
  {
    var roomType := if Truthy(kind) then kind.value else "invite";
    if KnownKind(roomType) && name.Some? && 1 <= |Trim(name.value)| <= 50 {
      CreateNamedKeeps(db, me, roomType, Trim(name.value), password, id, code, hash, defaultMax, now);
    }
  }

  lemma CreateNamedKeeps(db: Db, me: SocketUser, roomType: string, title: string, password: Option<string>,
                         id: string, code: string, hash: string -> string, defaultMax: int, now: int)
    requires Valid(db) && defaultMax >= 1
    ensures Valid(CreateNamed(db, me, roomType, title, password, id, code, hash, defaultMax, now).db)
  {
    var o := CreateNamed(db, me, roomType, title, password, id, code, hash, defaultMax, now);
    if o.response.RoomBody? {
      InsertKeeps(db, id, NewRoom(roomType, title, me.id, password, code, hash, defaultMax, now), {me.id});
    }
  }

  lemma DirectKeeps(db: Db, rows: FriendRoutes.Rows, names: map<int, string>, me: SocketUser, friendId: Option<int>,
                    existing: Option<string>, id: string, code: string, now: int)
    requires Valid(db) && (friendId.Some? ==> DirectAnswer(db, me.id, friendId.value, existing))
    ensures Valid(Direct(db, rows, names, me, friendId, existing, id, code, now).db)
  {
    var o := Direct(db, rows, names, me, friendId, existing, id, code, now);
    if o.response.RoomBody? && o.response.status == 201 {
      var f := friendId.value;
      var roomName := me.username + " & " + (if f in names then names[f] else "Unknown");
      assert |{me.id, f}| <= 2;
      InsertKeeps(db, id, Room(roomName, "direct", me.id, None, code, DIRECT_CAPACITY, now), {me.id, f});
    }
  }

  lemma DeleteKeeps(db: Db, me: SocketUser, id: string)
    requires Valid(db)
    ensures Valid(Delete(db, me, id).db)
  {
    DropKeeps(db, id);
  }

  lemma JoinFoundKeeps(db: Db, me: SocketUser, id: string, password: Option<string>, matches: (string, string) -> bool)
    requires Valid(db) && id in db.rooms
    ensures Valid(JoinFound(db, me, id, password, matches).db)
  {
    var db' := JoinFound(db, me, id, password, matches).db;
    if db' != db {
      assert |db.members[id] + {me.id}| == |db.members[id]| + 1;
    }
  }

  lemma JoinKeeps(db: Db, me: SocketUser, id: string, password: Option<string>, matches: (string, string) -> bool)
    requires Valid(db)
    ensures Valid(Join(db, me, id, password, matches).db)
  {
    if id in db.rooms {
      JoinFoundKeeps(db, me, id, password, matches);
    }
  }

  lemma JoinByCodeKeeps(db: Db, me: SocketUser, inviteCode: Option<string>, password: Option<string>, matches: (string, string) -> bool)
    requires Valid(db)
    ensures Valid(JoinByCode(db, me, inviteCode, password, matches).db)
  {
    if Truthy(inviteCode) && inviteCode.value in db.codes && db.codes[inviteCode.value] in db.rooms {
      JoinFoundKeeps(db, me, db.codes[inviteCode.value], password, matches);
    }
  }

  lemma LeaveKeeps(db: Db, me: SocketUser, id: string)
    requires Valid(db)
    ensures Valid(Leave(db, me, id).db)
  {
    DropKeeps(db, id);
    var db' := Leave(db, me, id).db;
    if id in db.rooms && id in db.members && db.rooms[id].ownerId != me.id {
      assert |db.members[id] - {me.id}| <= |db.members[id]|;
    }
  }

  // ---------------------------------------------------------------------------
  // What the routes promise

  /**
   * A room is created exactly when the type is one of the three, the
   * trimmed name has 1 to 50 characters and the creator is in fewer than 20
   * rooms (and the fresh ids are new). The creator is then its owner and
   * only member; a named room holds 16, and any other room gets the table's
   * default type and capacity. A refusal changes nothing.
   */
  lemma CreateRules(db: Db, me: SocketUser, name: Option<string>, password: Option<string>, kind: Option<string>,
                    id: string, code: string, hash: string -> string, defaultMax: int, now: int)
    ensures var o := Create(db, me, name, password, kind, id, code, hash, defaultMax, now);
            var roomType := if Truthy(kind) then kind.value else "invite";
            && (o.response.RoomBody? <==>
                  && roomType in ["invite", "named", "direct"]
                  && name.Some? && 1 <= |Trim(name.value)| <= 50
                  && |RoomsOf(db, me.id)| < 20
                  && id !in db.rooms && code !in db.codes)
            && (!o.response.RoomBody? ==> o.db == db)
            && (o.response.RoomBody? ==>
                  && id in o.db.rooms && o.db.members[id] == {me.id} && o.db.rooms[id].ownerId == me.id
                  && o.db.rooms[id].name == Trim(name.value)
                  && o.db.rooms[id].passwordHash.Some? == Truthy(password)
                  && o.db.rooms[id].maxMembers == (if roomType == "named" then 16 else defaultMax)
                  && o.db.rooms[id].kind == (if roomType == "named" then "named" else "invite")
                  && o.response.status == 201 && o.response.room.id == id)
  {
    var roomType := if Truthy(kind) then kind.value else "invite";
    if KnownKind(roomType) && name.Some? && 1 <= |Trim(name.value)| <= 50 {
      CreateNamedRules(db, me, roomType, Trim(name.value), password, id, code, hash, defaultMax, now);
    }
  }

  lemma CreateNamedRules(db: Db, me: SocketUser, roomType: string, title: string, password: Option<string>,
                         id: string, code: string, hash: string -> string, defaultMax: int, now: int)
    ensures var o := CreateNamed(db, me, roomType, title, password, id, code, hash, defaultMax, now);
            && (o.response.RoomBody? <==> |RoomsOf(db, me.id)| < 20 && id !in db.rooms && code !in db.codes)
            && (!o.response.RoomBody? ==> o.db == db)
            && (o.response.RoomBody? ==>
                  && id in o.db.rooms && o.db.members[id] == {me.id} && o.db.rooms[id].ownerId == me.id
                  && o.db.rooms[id].name == title
                  && o.db.rooms[id].passwordHash.Some? == Truthy(password)
                  && o.db.rooms[id].maxMembers == (if roomType == "named" then 16 else defaultMax)
                  && o.db.rooms[id].kind == (if roomType == "named" then "named" else "invite")
                  && o.response.status == 201 && o.response.room.id == id)
  {
  }

  /**
   * A direct room is given only to friends; an existing one is returned
   * unchanged, otherwise a new one holding just the two of them is made.
   */
  lemma DirectRules(db: Db, rows: FriendRoutes.Rows, names: map<int, string>, me: SocketUser, friendId: Option<int>,
                    existing: Option<string>, id: string, code: string, now: int)
    requires friendId.Some? ==> DirectAnswer(db, me.id, friendId.value, existing)
    ensures var o := Direct(db, rows, names, me, friendId, existing, id, code, now);
            && (o.response.RoomBody? ==> friendId.Some? && FriendRoutes.Either(rows, me.id, friendId.value, FriendRoutes.Accepted))
            && (o.response.RoomBody? && existing.Some? ==> o.db == db && o.response.status == 200 && o.response.room.id == existing.value)
            && (o.response.RoomBody? && existing.None? ==>
                  && o.response.status == 201 && id in o.db.rooms
                  && o.db.members[id] == {me.id, friendId.value}
                  && o.db.rooms[id].kind == "direct" && o.db.rooms[id].maxMembers == 2
                  && o.db.rooms[id].passwordHash.None?)
            && (!o.response.RoomBody? ==> o.db == db)
  {
  }

  /** Only the owner deletes a room; anyone else is refused with 403 and nothing changes. */
  lemma OnlyOwnerDeletes(db: Db, me: SocketUser, id: string)
    ensures var o := Delete(db, me, id);
            && (o.db != db ==> id in db.rooms && db.rooms[id].ownerId == me.id && id !in o.db.rooms)
            && (id in db.rooms && db.rooms[id].ownerId != me.id ==> o.response == Refusal(403, "Only the room owner can delete this room") && o.db == db)
  {
  }

  /**
   * Joining as a member changes nothing; a protected room refuses a missing
   * or wrong password with 403; a successful join adds exactly the user, and
   * leaves the room within its capacity and the user in at most 20 rooms.
   */
  lemma JoinRules(db: Db, me: SocketUser, id: string, password: Option<string>, matches: (string, string) -> bool)
    requires id in db.rooms && id in db.members
    ensures var o := Join(db, me, id, password, matches);
            var room := db.rooms[id];
            && (me.id in db.members[id] ==> o.db == db && o.response.RoomBody?)
            && ((me.id !in db.members[id] && Truthy(room.passwordHash) && (!Truthy(password) || !matches(password.value, room.passwordHash.value)))
                  ==> o.db == db && o.response == Refusal(403, "Incorrect room password"))
            && (o.db != db ==>
                  && o.db.members[id] == db.members[id] + {me.id} && me.id !in db.members[id]
                  && |o.db.members[id]| == |db.members[id]| + 1 <= room.maxMembers
                  && |RoomsOf(o.db, me.id)| == |RoomsOf(db, me.id)| + 1 <= MAX_ROOMS_PER_USER
                  && o.db.rooms == db.rooms && o.db.codes == db.codes)
  {
    var o := Join(db, me, id, password, matches);
    if o.db != db {
      assert RoomsOf(o.db, me.id) == RoomsOf(db, me.id) + {id};
      assert id !in RoomsOf(db, me.id);
    }
  }

  /** Joining by a room's invite code is joining that room. */
  lemma JoinByCodeIsJoin(db: Db, me: SocketUser, code: string, password: Option<string>, matches: (string, string) -> bool)
    requires Valid(db) && code in db.codes
    ensures code != "" ==> JoinByCode(db, me, Some(code), password, matches) == Join(db, me, db.codes[code], password, matches)
  {
  }

  /** A non-member cannot leave; the owner leaving deletes the room; anyone else is just removed. */
  lemma LeaveRules(db: Db, me: SocketUser, id: string)
    requires id in db.rooms && id in db.members
    ensures var o := Leave(db, me, id);
            && (me.id !in db.members[id] ==> o.db == db && o.response == Refusal(400, "Not a member of this room"))
            && (me.id in db.members[id] && db.rooms[id].ownerId == me.id ==>
                  o.response == Done(true) && id !in o.db.rooms && id !in o.db.members)
            && (me.id in db.members[id] && db.rooms[id].ownerId != me.id ==>
                  && o.response == Done(false) && o.db.rooms == db.rooms
                  && o.db.members == db.members[id := db.members[id] - {me.id}])
  {
  }

  // ---------------------------------------------------------------------------
  // The routes, statement by statement on the tables

  lemma Overwrite<K, V>(m: map<K, V>, k: K, a: V, b: V)
    ensures m[k := a][k := b] == m[k := b]
  {
  }

  class RoomsDb {
    var rooms: map<string, Room>
    var members: map<string, set<int>>
    var codes: map<string, string>

    ghost function State(): Db
      reads this
    {
      Db(rooms, members, codes)
    }

    constructor ()
      ensures State() == Db(map[], map[], map[])
    {
      rooms, members, codes := map[], map[], map[];
    }

    method GetUserRoomCount(u: int) returns (count: nat)
      ensures count == |RoomsOf(State(), u)|
    {
      count := |set r | r in members && u in members[r]|;
    }

    method CreateRoom(id: string, room: Room)
      modifies this
      ensures rooms == old(rooms)[id := room] && members == old(members)[id := {}] && codes == old(codes)[room.inviteCode := id]
    {
      rooms := rooms[id := room];
      members := members[id := {}];
      codes := codes[room.inviteCode := id];
    }

    method AddRoomMember(id: string, u: int)
      modifies this
      ensures members == old(members)[id := (if id in old(members) then old(members)[id] else {}) + {u}]
      ensures rooms == old(rooms) && codes == old(codes)
    {
      var current := if id in members then members[id] else {};
      members := members[id := current + {u}];
    }

    method RemoveRoomMember(id: string, u: int)
      modifies this
      ensures members == if id in old(members) then old(members)[id := old(members)[id] - {u}] else old(members)
      ensures rooms == old(rooms) && codes == old(codes)
    {
      if id in members {
        members := members[id := members[id] - {u}];
      }
    }

    method DeleteRoom(id: string)
      modifies this
      ensures State() == Drop(old(State()), id)
    {
      if id in rooms {
        codes := codes - {rooms[id].inviteCode};
      }
      rooms := rooms - {id};
      members := members - {id};
    }

    /** `createRoom` followed by `addRoomMember` for its owner. */
    method CreateOwnedRoom(id: string, room: Room, owner: int)
      modifies this
      ensures State() == Insert(old(State()), id, room, {owner})
    {
      CreateRoom(id, room);
      AddRoomMember(id, owner);
      assert {} + {owner} == {owner};
      Overwrite<string, set<int>>(old(members), id, {}, {owner});
    }

    method HandleCreate(me: SocketUser, name: Option<string>, password: Option<string>, kind: Option<string>,
                        id: string, code: string, hash: string -> string, defaultMax: int, now: int)
      returns (response: Response)
      modifies this
      ensures var o := Create(old(State()), me, name, password, kind, id, code, hash, defaultMax, now);
              State() == o.db && response == o.response
    {
      var roomType := if kind.Some? && kind.value != "" then kind.value else "invite";
      if !KnownKind(roomType) {
        return Refusal(400, "Invalid room type");
      }
      if name.None? {
        return Refusal(400, "Room name must be 1-50 characters");
      }
      var title := Trim(name.value);
      if !(1 <= |title| <= 50) {
        return Refusal(400, "Room name must be 1-50 characters");
      }
      response := HandleCreateNamed(me, roomType, title, password, id, code, hash, defaultMax, now);
    }

    method HandleCreateNamed(me: SocketUser, roomType: string, title: string, password: Option<string>,
                             id: string, code: string, hash: string -> string, defaultMax: int, now: int)
      returns (response: Response)
      modifies this
      ensures var o := CreateNamed(old(State()), me, roomType, title, password, id, code, hash, defaultMax, now);
              State() == o.db && response == o.response
    {
      var roomCount := GetUserRoomCount(me.id);
      if roomCount >= MAX_ROOMS_PER_USER {
        return Refusal(400, "You have reached the maximum of 20 rooms");
      }
      if id in rooms || code in codes {
        return Refusal(500, "Failed to create room");
      }
      var room := NewRoom(roomType, title, me.id, password, code, hash, defaultMax, now);
      CreateOwnedRoom(id, room, me.id);
      response := RoomBody(201, SanitizeRoom(RoomRow(id, room, None)));
    }

    method HandleDirect(rows: FriendRoutes.Rows, names: map<int, string>, me: SocketUser, friendId: Option<int>,
                        existing: Option<string>, id: string, code: string, now: int)
      returns (response: Response)
      requires friendId.Some? ==> DirectAnswer(State(), me.id, friendId.value, existing)
      modifies this
      ensures var o := Direct(old(State()), rows, names, me, friendId, existing, id, code, now);
              State() == o.db && response == o.response
    {
      if friendId.None? || friendId.value == 0 {
        return Refusal(400, "friendId is required");
      }
      var f := friendId.value;
      var friendship := FriendRoutes.Get(rows, me.id, f);
      var reverseFriendship := FriendRoutes.Get(rows, f, me.id);
      if !(friendship == Some(FriendRoutes.Accepted) || reverseFriendship == Some(FriendRoutes.Accepted)) {
        return Refusal(403, "You can only create direct rooms with friends");
      }
      if existing.Some? {
        return RoomBody(200, SanitizeRoom(RoomRow(existing.value, rooms[existing.value], None)));
      }
      if id in rooms || code in codes {
        return Refusal(500, "Failed to create direct room");
      }
      var roomName := me.username + " & " + (if f in names then names[f] else "Unknown");
      var room := Room(roomName, "direct", me.id, None, code, DIRECT_CAPACITY, now);
      CreateOwnedRoom(id, room, me.id);
      AddRoomMember(id, f);
      assert {me.id} + {f} == {me.id, f};
      Overwrite<string, set<int>>(old(members), id, {me.id}, {me.id, f});
      assert State() == Insert(old(State()), id, room, {me.id, f});
      response := RoomBody(201, SanitizeRoom(RoomRow(id, room, None)));
    }

    method HandleDelete(me: SocketUser, id: string) returns (response: Response)
      modifies this
      ensures var o := Delete(old(State()), me, id);
              State() == o.db && response == o.response
    {
      if id !in rooms {
        return Refusal(404, "Room not found");
      }
      if rooms[id].ownerId != me.id {
        return Refusal(403, "Only the room owner can delete this room");
      }
      DeleteRoom(id);
      response := Done(false);
    }

    /** The part both join routes share, from the membership check on. */
    method JoinRoom(me: SocketUser, id: string, password: Option<string>, matches: (string, string) -> bool)
      returns (response: Response)
      requires id in rooms
      modifies this
      ensures var o := JoinFound(old(State()), me, id, password, matches);
              State() == o.db && response == o.response
    {
      var room := rooms[id];
      var current := if id in members then members[id] else {};
      if me.id in current {
        return RoomBody(200, SanitizeRoom(RoomRow(id, rooms[id], None)));
      }
      if room.passwordHash.Some? && room.passwordHash.value != "" {
        if password.None? || password.value == "" || !matches(password.value, room.passwordHash.value) {
          return Refusal(403, "Incorrect room password");
        }
      }
      if |current| >= room.maxMembers {
        return Refusal(400, "This room is full");
      }
      var userCount := GetUserRoomCount(me.id);
      if userCount >= MAX_ROOMS_PER_USER {
        return Refusal(400, "You have reached the maximum of 20 rooms");
      }
      AddRoomMember(id, me.id);
      response := RoomBody(200, SanitizeRoom(RoomRow(id, room, None)));
    }

    method HandleJoin(me: SocketUser, id: string, password: Option<string>, matches: (string, string) -> bool)
      returns (response: Response)
      modifies this
      ensures var o := Join(old(State()), me, id, password, matches);
              State() == o.db && response == o.response
    {
      if id !in rooms {
        return Refusal(404, "Room not found");
      }
      response := JoinRoom(me, id, password, matches);
    }

    method HandleJoinByCode(me: SocketUser, inviteCode: Option<string>, password: Option<string>, matches: (string, string) -> bool)
      returns (response: Response)
      modifies this
      ensures var o := JoinByCode(old(State()), me, inviteCode, password, matches);
              State() == o.db && response == o.response
    {
      if inviteCode.None? || inviteCode.value == "" {
        return Refusal(400, "Invite code is required");
      }
      if inviteCode.value !in codes || codes[inviteCode.value] !in rooms {
        return Refusal(404, "Invalid invite code");
      }
      response := JoinRoom(me, codes[inviteCode.value], password, matches);
    }

    method HandleLeave(me: SocketUser, id: string) returns (response: Response)
      modifies this
      ensures var o := Leave(old(State()), me, id);
              State() == o.db && response == o.response
    {
      if id !in rooms {
        return Refusal(404, "Room not found");
      }
      if id !in members || me.id !in members[id] {
        return Refusal(400, "Not a member of this room");
      }
      if rooms[id].ownerId == me.id {
        DeleteRoom(id);
        return Done(true);
      }
      RemoveRoomMember(id, me.id);
      response := Done(false);
    }
  }
}
