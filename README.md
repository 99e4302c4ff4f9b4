# BeeBeeBee, modelled in Dafny

BeeBeeBee is a chat application in which people talk in rooms by text, by
small drawings and by images. Its live side is a socket server that keeps
recent messages, who is online and who is typing in Redis. Its durable side
is a set of HTTP routes over SQLite: accounts, email verification, password
reset, settings, friendships and rooms. The browser holds a drawing canvas
and small stores that fold socket events into what the page shows.

This project models that core and proves what it promises.

- **Redis as maps** (`redis.dfy`). Redis is a class holding string keys with an
  expiry time, lists, sets and hashes. Its commands are methods, and time is a
  parameter `now` given in milliseconds. A key is live while `now` is at most
  its expiry time. `TTL` rounds the remaining time to whole seconds, as Redis
  does.
- **Message store, presence and send throttle** (`messages.dfy`,
  `presence.dfy`, `ratelimiter.dfy`). These are methods on the store, each
  proved against a function of the old store:
  - bodies keep a 48-hour lifetime, and an update keeps the remaining one;
  - reading a room's history prunes stale ids from its list;
  - a typing entry older than 5 seconds is stale;
  - block sets are replaced, not merged, and the block check is symmetric;
  - a user may send at most one action per second.
- **Socket handlers** (`socketlogic.dfy`, `reactions.dfy`,
  `sockethandlers.dfy`). The pure parts are functions: content validation, the
  order of error codes, reaction groups, and the members and typing lists. The
  handlers are methods of a `Connection` over a `Hub`. The hub holds the
  store, which socket is in which room, and everything emitted, as a sequence.
  The connection holds its user and its `joinedRooms`.
- **HTTP middleware and uploads** (`httpratelimit.dfy`, `imagevalidate.dfy`).
  These are the fixed-window request counter, including its sweep, and the
  magic-byte image check.
- **Canvas** (`canvasstate.dfy`, `floodfill.dfy`, `textwrap.dfy`):
  - the undo and redo stacks, as a class;
  - the scanline flood fill, in place on an RGBA `array<byte>`;
  - greedy text wrapping, where the width of a string is a function parameter.
- **Client stores** (`clientsocket.dfy`, `clientfriends.dfy`). These are
  classes whose fields the socket and friend events reassign. The messages
  each store emits are an output sequence.
- **HTTP routes** (`authroutes.dfy`, `emailroutes.dfy`, `settingsroutes.dfy`,
  `accounts.dfy`, `friendroutes.dfy`, `roomroutes.dfy`). For every route there
  are two members:
  - a function from the tables to the new tables and the reply, which states
    the route's rules as lemmas;
  - a method that performs the route's queries one at a time on a database
    class, proved to end in the state and reply of that function.
- **Shared definitions** (`wrappers.dfy`, `json.dfy`, `chat.dfy`,
  `bytes.dfy`, `text.dfy`, `sets.dfy`). These cover `Option`, JSON values with
  JavaScript truthiness, the message and reaction records, bytes, `trim()`,
  and the ascending order in which JavaScript lists array-index object keys.

Outside calls become parameters:
- the clock is `now`;
- the random ids and tokens (`nanoid`, `crypto.randomBytes`) are arguments;
- bcrypt is a function `hash` and a predicate `matches`;
- `path.resolve` is a function `resolve`;
- resizing and saving an avatar is a boolean `processed`;
- a sent mail is an entry in an `outbox`.

`findDirectRoom` and `findUserByEmail` are answers passed in. A ghost predicate
(`DirectAnswer`, `FoundByEmail`) obliges each answer to be a correct one.
JSON stringify and parse are the identity, and a stored message is its value.

Behaviour of the code worth noting:
- The socket server code (`server/socket/index.js`, `server/socket/handlers.js`)
  does not add the user to the global online set on connect. It also sends no
  `friend:online` or `friend:offline`. The presence operations are modelled on
  their own, as `server/redis/presence.js` defines them.
- Creating a room of type `direct` through `POST /api/rooms` runs the plain
  insert. That room gets the column default `invite` (server/db/index.js:22),
  not `direct`.
- `PUT /api/settings/email` checks only that an address is present. It does
  not apply the email pattern that the email route uses
  (`SettingsRoutes.UpdateEmailSkipsPattern`).
- `server/db/queries.js` holds only the user and token queries. The
  friendship, room and membership queries are not part of this model. Their
  meaning comes from their names and from how the routes use them.

Some behaviour is modelled by choice:
- A fresh id or token that clashes with an existing one is a unique-key
  failure. It is modelled as the route's 500 reply.
- The fire-and-forget prune after reading a room's history is modelled as a
  sequential step, and so is the `Promise.all` in the block check.

## Model

| member | source | states |
|---|---|---|
| Redis.TtlOf | server/redis/messages.js:29-30 | the remaining lifetime in whole seconds is -2 exactly when the key is missing or expired, and never negative for a live key |
| Redis.SRemoved | server/redis/messages.js:89-91 | SREM on a set key: that set loses the member, every other set is as before |
| Redis.HDeleted | server/redis/messages.js:111-113 | HDEL on a hash key: that hash loses the fields, every other hash is as before |
| Redis.WithoutMembers | server/redis/messages.js:40 | LREM with count 0 keeps exactly the entries different from the removed value |
| Redis.Store.SetNx | server/socket/rateLimiter.js:10-12 | SET NX EX writes only when the key is missing or expired, and reports whether it wrote |
| Redis.Store.LRem | server/redis/messages.js:40 | LREM with count 0 removes every occurrence from the list and touches nothing else |
| Messages.StoredBodyLifetime | server/redis/messages.js:3-22 | a body written with the 48-hour expiry is read back until 172800 seconds have passed and is gone afterwards |
| Messages.StoreMessage | server/redis/messages.js:8-14 | the body is stored with expiry now + 172800 s, the id is appended at the tail of the room list with the earlier entries kept in order, and the body reads back |
| Messages.GetMessage | server/redis/messages.js:19-22 | returns the stored body while its key is live, and nothing when it is missing or expired |
| Messages.UpdateMessage | server/redis/messages.js:27-33 | writes nothing and answers false when the remaining TTL is at most 0; otherwise replaces the body, keeps the remaining TTL and answers true |
| Messages.DeleteMessage | server/redis/messages.js:38-41 | the body is gone at every time, no occurrence of the id is left in the room list, and other lists are unchanged |
| Messages.LiveIdsMembers | server/redis/messages.js:59-65 | an id is kept by the history exactly when it is in the room list and its body is live |
| Messages.StaleIdsMembers | server/redis/messages.js:59-65 | an id is marked stale exactly when it is in the room list and its body is missing or expired |
| Messages.LiveBodiesMatchIds | server/redis/messages.js:59-65 | the i-th returned body is the body of the i-th live id |
| Messages.ExcludeNothing | server/redis/messages.js:68 | pruning with no stale ids leaves the list as it is |
| Messages.ExcludeOneMore | server/redis/messages.js:70-72 | pruning one more stale id is one more LREM |
| Messages.ExcludeStaleIsLive | server/redis/messages.js:67-74 | removing every stale id from the list leaves exactly its live ids, in order |
| Messages.LiveIdsIdempotent | server/redis/messages.js:47-76 | filtering the live ids a second time changes nothing |
| Messages.AllLiveUnchanged | server/redis/messages.js:67-68 | a list whose ids are all live is not changed by the prune |
| Messages.LiveIdsAppend | server/redis/messages.js:13 | appending an id to a room list changes its live ids only at the tail |
| Messages.SplitReplies | server/redis/messages.js:56-65 | the loop over the MGET replies collects exactly the live bodies and the stale ids, both in list order |
| Messages.PrefixStep | server/redis/messages.js:59-65 | one more reply extends the bodies or the stale ids by that reply alone |
| Messages.PruneList | server/redis/messages.js:68-74 | the LREM loop leaves the list without every stale id and changes nothing else |
| Messages.GetRoomMessages | server/redis/messages.js:47-77 | returns exactly the live bodies in room-list order and leaves the list holding only the live ids in their order; an empty list gives [] and no change |
| Messages.AddOnlineUser | server/redis/messages.js:82-84 | the room's online set gains the user and nothing else changes |
| Messages.RemoveOnlineUser | server/redis/messages.js:89-91 | the room's online set loses the user and nothing else changes |
| Messages.GetOnlineUsers | server/redis/messages.js:96-99 | returns exactly the members of the room's online set |
| Messages.SetTyping | server/redis/messages.js:104-106 | the room's typing hash maps the user to the current time and nothing else changes |
| Messages.RemoveTyping | server/redis/messages.js:111-113 | the room's typing hash loses the user and nothing else changes |
| Messages.SplitTyping | server/redis/messages.js:123-132 | the loop over the hash entries yields, in ascending order, exactly the users typed less than 5000 ms ago, and marks every other entry stale |
| Messages.SplitStep | server/redis/messages.js:126-131 | one entry more goes to the active list when it is fresh and to the stale set otherwise |
| Messages.SplitStart | server/redis/messages.js:123-124 | before the loop nothing is active or stale |
| Messages.SplitDone | server/redis/messages.js:126-132 | after the last entry the active list and the stale set split the hash exactly |
| Messages.GetTypingUsers | server/redis/messages.js:119-140 | returns, ascending, exactly the users with now - timestamp < 5000 and deletes every other entry from the typing hash; other keys are untouched |
| Presence.AddGlobalOnline | server/redis/presence.js:3-5 | the global online set gains the user, every other key is unchanged |
| Presence.RemoveGlobalOnline | server/redis/presence.js:7-9 | the global online set loses the user, every other key is unchanged |
| Presence.IsGlobalOnline | server/redis/presence.js:11-13 | answers whether the user is in the global online set, changing nothing |
| Presence.GetMultipleOnlineStatus | server/redis/presence.js:15-27 | has a key for each id asked about and no other, true exactly for the ids in the global online set; no ids give {} |
| Presence.CacheBlockList | server/redis/presence.js:29-35 | the user's block set becomes exactly the given ids, whatever it held before, and other users' sets are unchanged |
| Presence.ClearBlockCache | server/redis/presence.js:37-39 | the user's block set is empty and other users' sets are unchanged |
| Presence.IsBlockedBetween | server/redis/presence.js:41-47 | true exactly when either user's block set holds the other, so it is symmetric; it changes nothing |
| Presence.CachedListDecides | server/redis/presence.js:29-47 | after caching a user's list, whether they block another user is decided by that list and the other's set alone |
| RateLimiter.CheckRateLimit | server/socket/rateLimiter.js:8-13 | allowed exactly when the user has no live key; then the key is set to expire 1 s later, otherwise nothing changes and the expiry is not extended |
| RateLimiter.NothingAllowedBefore | server/socket/rateLimiter.js:11-12 | while a user's key expires no earlier than e, none of their calls at or before e is allowed, in any order of the calls' clocks |
| RateLimiter.AllowedCallsSpaced | server/socket/rateLimiter.js:8-13 | over any sequence of calls, two allowed calls of one user are more than 1000 ms apart |
| RateLimiter.AllowedAfterWindow | server/socket/rateLimiter.js:11-12 | once the key written by an allowed call has expired, the next call is allowed again |
| RateLimiter.UsersIndependent | server/socket/rateLimiter.js:9 | a call for one user does not change whether another user's call is allowed |
| Redis.Store.constructor | server/redis/messages.js:1 | an empty store |
| Redis.Store.Set | server/redis/messages.js:12 | SET EX: the string key holds the value until `ttl` seconds from now; nothing else changes |
| Redis.Store.Get | server/redis/messages.js:20 | GET: the value of a live key, none for a missing or expired one |
| Redis.Store.MGet | server/redis/messages.js:54 | MGET: one answer per key, in key order, each as GET would give |
| Redis.Store.Ttl | server/redis/messages.js:29 | TTL: the remaining lifetime of the key as `TtlOf` states it |
| Redis.Store.Del | server/redis/messages.js:39 | DEL: the key is gone from every kind of value, nothing else changes |
| Redis.Store.RPush | server/redis/messages.js:13 | RPUSH: the id is appended at the tail of the list, nothing else changes |
| Redis.Store.LRange | server/redis/messages.js:49 | LRANGE 0 -1: the whole list, empty for a missing key |
| Redis.Store.SAdd | server/redis/messages.js:83 | SADD: the set gains the members, nothing else changes |
| Redis.Store.SRem | server/redis/messages.js:90 | SREM: the set loses the member, nothing else changes |
| Redis.Store.SMembers | server/redis/messages.js:97 | SMEMBERS: exactly the set's members |
| Redis.Store.SIsMember | server/redis/presence.js:12 | SISMEMBER: whether the member is in the set |
| Redis.Store.HSet | server/redis/messages.js:105 | HSET: the field of the hash holds the value, nothing else changes |
| Redis.Store.HDel | server/redis/messages.js:112 | HDEL: the hash loses the fields, nothing else changes |
| Redis.Store.HGetAll | server/redis/messages.js:121 | HGETALL: exactly the fields and values of the hash |
| SocketHandlers.Hub.constructor | server/socket/handlers.js:100 | the server starts with no socket in any room and nothing emitted |
| SocketHandlers.Connection.constructor | server/socket/handlers.js:100-102 | a new connection has joined no room |
| HttpRateLimit.Limiter.constructor | server/middleware/httpRateLimit.js:1 | the counters start empty |
| SocketLogic.MembershipError | server/socket/handlers.js:33-47 | no error exactly when the room exists and the user is a member; an unknown room gives NOT_FOUND before NOT_MEMBER is considered |
| SocketLogic.SendError | server/socket/handlers.js:146-159 | no error exactly when every field is present, the type is one of drawing, text and image, the content is valid and the sender is a member; a missing field is reported first |
| SocketLogic.DrawingNeedsObject | server/socket/handlers.js:85-88 | drawing content is valid only when it is an object |
| SocketLogic.TextBounds | server/socket/handlers.js:81-84 | text content is valid exactly when it is a string of 1 to 2000 characters |
| SocketLogic.MembersListAt | server/socket/handlers.js:52-62 | the i-th entry of the members list is the i-th room member with its name, online exactly when its id is in the room's online set |
| SocketLogic.NameOf | server/socket/handlers.js:70 | a name is found exactly when some member has that id |
| SocketLogic.TypingListMembers | server/socket/handlers.js:67-75 | every entry of the typing list is a typing id of a member, with the member's name, and every typing member has an entry |
| SocketLogic.TypingListAscending | server/socket/handlers.js:72-74 | the filter keeps the ascending order of the typing ids |
| SocketLogic.TypingListAbove | server/socket/handlers.js:72-74 | every id kept from the tail of the typing ids is above the head |
| SocketLogic.ExceptMembers | server/socket/handlers.js:127 | the others in a room are exactly its sockets other than the sender's own |
| SocketLogic.AddRoom | server/socket/handlers.js:113 | after `joinedRooms.add` the room is in the set |
| SocketLogic.DropRoomMembers | server/socket/handlers.js:331 | after `joinedRooms.delete` the set holds exactly the other rooms |
| SocketLogic.DropRoomNoDuplicates | server/socket/handlers.js:331 | deleting from the joined rooms keeps them free of duplicates |
| SocketLogic.AddRoomNoDuplicates | server/socket/handlers.js:113 | adding to the joined rooms keeps them free of duplicates |
| Reactions.FirstGroup | server/socket/handlers.js:245-279 | `find` answers the first group with the emoji, or none when no group has it |
| Reactions.WithoutUserMembers | server/socket/handlers.js:281 | the filtered ids are exactly the old ones other than the user |
| Reactions.WithoutUserAbsent | server/socket/handlers.js:281 | filtering out a user who is not there changes nothing |
| Reactions.WithoutUserDistinct | server/socket/handlers.js:281 | filtering keeps the ids free of duplicates |
| Reactions.NonEmptyKeepsFull | server/socket/handlers.js:283 | dropping empty groups changes nothing when every group has users |
| Reactions.NonEmptyMembers | server/socket/handlers.js:283 | the groups kept are exactly those with users |
| Reactions.NonEmptyWellFormed | server/socket/handlers.js:283 | dropping empty groups from groups with distinct emojis and distinct users leaves well-formed groups |
| Reactions.ReactorsOfGroup | server/socket/handlers.js:245 | in well-formed groups, the users found for a group's emoji are that group's users |
| Reactions.ReactorsOfMember | server/socket/handlers.js:245 | the same, for a group given by value |
| Reactions.ReactorsOfMissing | server/socket/handlers.js:246-248 | an emoji no group has has no users |
| Reactions.AddWellFormed | server/socket/handlers.js:244-256 | reaction:add keeps at most one group per emoji and each user at most once per group |
| Reactions.RemoveWellFormed | server/socket/handlers.js:278-284 | reaction:remove keeps the groups well formed |
| Reactions.ReactorsAfterAdd | server/socket/handlers.js:244-253 | the emoji's users gain the user at the end unless they are there already, a missing group is appended, and every other emoji's users are unchanged |
| Reactions.ReactorsAfterRemove | server/socket/handlers.js:278-284 | the emoji's users lose the user, and every other emoji's users are unchanged |
| Reactions.AddIdempotent | server/socket/handlers.js:244-253 | adding the same reaction twice is the same as adding it once |
| Reactions.AddThenRemove | server/socket/handlers.js:244-284 | removing a reaction just added restores the groups exactly |
| Reactions.WithoutUserAppend | server/socket/handlers.js:252-281 | filtering a user out after appending them is filtering the old ids |
| Reactions.NonEmptyAppendEmpty | server/socket/handlers.js:248-283 | an empty group appended at the end is dropped again |
| Reactions.RemoveIdempotent | server/socket/handlers.js:278-284 | removing the same reaction twice is the same as removing it once |
| SocketHandlers.Hub.Send | server/socket/handlers.js:25-27 | an emit is appended to the outbox with its recipients |
| SocketHandlers.DeliveriesExactly | server/socket/handlers.js:184-189 | a socket of the room gets message:new exactly when neither it nor the sender has blocked the other, and nothing else is emitted |
| SocketHandlers.ImageToUnlink | server/socket/handlers.js:209-216 | a file is unlinked only when its resolved path starts with the resolved uploads directory |
| SocketHandlers.SiblingDirectoryPasses | server/socket/handlers.js:214 | the prefix test lets through a file of a sibling directory `uploads/messages-old` |
| SocketHandlers.ReactionError | server/socket/handlers.js:228-270 | no error exactly when room, message and emoji are given, the emoji is one of the eight and the user is a member |
| SocketHandlers.DeleteError | server/socket/handlers.js:193-197 | no error exactly when room and message are given and the user is a member |
| SocketHandlers.LeaveEventsStep | server/socket/handlers.js:316-324 | each room of a disconnect adds its user-left emit and its members emit after those of the earlier rooms |
| SocketHandlers.OfflineStep | server/socket/handlers.js:312-314 | each room of a disconnect removes the user from that room's online set and typing hash |
| SocketHandlers.OfflineDropped | server/socket/handlers.js:311-314 | after the loop, every joined room's online set and typing hash has lost the user and every other key is as before |
| SocketHandlers.OfflineWithout | server/socket/handlers.js:323 | the members list sent for a room counts the user offline whatever the earlier rooms removed |
| SocketHandlers.EnterRoomStore | server/socket/handlers.js:116-119 | the user is added to the room's online set, the live history is read and the room list is pruned to its live ids |
| SocketHandlers.Connection.BuildMembersList | server/socket/handlers.js:52-62 | the members list of the room with the online flags of its online set |
| SocketHandlers.Connection.BuildTypingList | server/socket/handlers.js:67-75 | the typing list is built from the fresh typing ids, ascending, and stale entries are deleted from the hash |
| SocketHandlers.Connection.Join | server/socket/handlers.js:104-136 | a missing id or a failed membership check emits one error to the sender and changes nothing; otherwise the socket joins, the room is added to `joinedRooms`, the user goes online, and the history, members, user-joined and members emits follow in that order |
| SocketHandlers.Connection.JoinNow | server/socket/handlers.js:112-135 | the accepted path of room:join, with its store changes and its four emits |
| SocketHandlers.Connection.LeaveRoomNow | server/socket/handlers.js:329-345 | the socket leaves, the room leaves `joinedRooms`, the user leaves the online set and typing hash, and the others get user-left and the members list without the user |
| SocketHandlers.Connection.Leave | server/socket/handlers.js:138-144 | a missing id emits one error and changes nothing; otherwise it is handleLeaveRoom, with no membership check |
| SocketHandlers.Connection.SendMessage | server/socket/handlers.js:146-190 | the first failing check emits its single error to the sender, nothing is stored and nobody else gets anything; a rate-limited send writes nothing and emits RATE_LIMITED to the sender; an accepted one sets the throttle key, and the message is stored with no reactions and the sender's id and name, appended to the room list, and delivered to every unblocked socket of the room |
| SocketHandlers.Connection.Deliver | server/socket/handlers.js:184-189 | the delivery loop emits to exactly the unblocked sockets, in their order |
| SocketHandlers.Connection.DeleteMessageEvent | server/socket/handlers.js:192-225 | the checks emit VALIDATION_ERROR, NOT_FOUND, NOT_MEMBER, NOT_FOUND for the message and UNAUTHORIZED for a non-author, changing nothing; the author's delete unlinks an image under the uploads directory, removes the body and every id occurrence from the room list, leaves every other key of the store as it was, and tells the room |
| SocketHandlers.Connection.AddReactionEvent | server/socket/handlers.js:227-259 | the checks emit one error and write nothing; otherwise the room gets the groups with the user added, and the body is rewritten with the same TTL unless the TTL is at most 0; the only string key written is the message's own, with lists, sets and hashes unchanged |
| SocketHandlers.Connection.RemoveReactionEvent | server/socket/handlers.js:261-289 | as for add, with the user removed and empty groups dropped; an absent group still writes and emits the unchanged groups; only the message's own string key is written |
| SocketHandlers.Connection.ReactToStored | server/socket/handlers.js:238-288 | a message that is gone gives NOT_FOUND to the sender; otherwise the new groups are published, and only the message's own string key changes |
| SocketHandlers.Connection.PublishReactions | server/socket/handlers.js:255-288 | the body with the new groups is written back keeping its TTL unless that TTL is at most 0, and the room gets the groups either way; no other string key, list, set or hash changes |
| SocketHandlers.Connection.TypingStart | server/socket/handlers.js:291-299 | an empty id is ignored silently; a failed membership check emits one error; otherwise the user is in the typing hash and the others get the fresh typing list |
| SocketHandlers.Connection.TypingStop | server/socket/handlers.js:301-309 | the same, with the user removed from the typing hash |
| SocketHandlers.Connection.DisconnectFrom | server/socket/handlers.js:312-325 | one room of the disconnect loop: the user leaves its online set and typing hash and the others get user-left and the members list |
| SocketHandlers.Connection.Disconnect | server/socket/handlers.js:311-326 | for every joined room, in joining order, the user is removed from its online set and typing hash unconditionally and the others get user-left and the members list; every other key is unchanged |
| HttpRateLimit.KeyOf | server/middleware/httpRateLimit.js:5-19 | the key carries the client address, and is the auth key exactly when the path is one of the three auth paths |
| HttpRateLimit.LimitOf | server/middleware/httpRateLimit.js:3-20 | the auth key allows 5 requests a window, the general key 30 |
| HttpRateLimit.Admit | server/middleware/httpRateLimit.js:23-29 | a live entry has its count raised by one and keeps its reset time; a missing or expired entry restarts at count 1 with a reset time one minute on |
| HttpRateLimit.OnlyOwnCounter | server/middleware/httpRateLimit.js:15-19 | a GET passes and leaves every counter as it was; any request leaves every other key's entry, present or absent, as it was, so the two counters of one address are independent |
| HttpRateLimit.WindowBound | server/middleware/httpRateLimit.js:23-32 | within one window, the requests passed on a key are at most the limit less the count already used |
| HttpRateLimit.FreshWindowBound | server/middleware/httpRateLimit.js:23-34 | from a fresh window, at most the limit of requests on the key are passed before it resets |
| HttpRateLimit.Swept | server/middleware/httpRateLimit.js:7-12 | the sweep keeps exactly the entries whose reset time has not passed, unchanged |
| HttpRateLimit.SweepUnobservable | server/middleware/httpRateLimit.js:7-24 | a later request is decided the same and leaves its own entry the same whether or not the sweep ran first |
| HttpRateLimit.Limiter.Handle | server/middleware/httpRateLimit.js:14-35 | the map update and the verdict of the middleware: non-GET requests count, rejected ones included, and pass exactly when the new count is within the limit |
| HttpRateLimit.Limiter.Sweep | server/middleware/httpRateLimit.js:9-11 | the loop deletes exactly the expired entries |
| ImageValidate.ValidateImage | server/uploads/validate.js:8-24 | valid exactly when an extension is given; a missing buffer or one under 12 bytes is invalid with no extension |
| ImageValidate.MatchesIsPrefix | server/uploads/validate.js:26-28 | `matches` holds exactly when the signature is a prefix of the bytes |
| ImageValidate.ExtensionIff | server/uploads/validate.js:1-23 | png exactly when the bytes start 89 50 4E 47; jpg exactly when they start FF D8 FF; gif exactly when they start 47 49 46 38; webp exactly when they start RIFF with WEBP at 8 to 11; tests run in that order, so each answer excludes the earlier ones, and anything else is invalid |
| ImageValidate.FirstTwelveDecide | server/uploads/validate.js:8-24 | two buffers of 12 bytes or more that agree on their first 12 bytes get the same verdict |
| CanvasState.RedoAfterUndo | src/lib/canvas/state.svelte.js:44-56 | with an operation to undo, undo then redo restores both stacks exactly |
| CanvasState.UndoAfterRedo | src/lib/canvas/state.svelte.js:44-56 | with an operation to redo, redo then undo restores both stacks exactly |
| CanvasState.MovesPreserveOperations | src/lib/canvas/state.svelte.js:44-56 | undo and redo keep the total number of operations on the two stacks, and the multiset of them |
| CanvasState.ClearIsUndoable | src/lib/canvas/state.svelte.js:58-60 | undoing a clear gives back the operations before it, with the clear operation alone on the redo stack |
| CanvasState.CommitThenRedo | src/lib/canvas/state.svelte.js:39-52 | after a commit there is nothing to redo |
| CanvasState.UndoTimesShape | src/lib/canvas/state.svelte.js:44-49 | n undos with at least n operations move exactly n operations to the redo stack |
| CanvasState.RedoTimesAfterUndoTimes | src/lib/canvas/state.svelte.js:44-56 | n undos followed by n redos restore the history exactly |
| CanvasState.Canvas.constructor | src/lib/canvas/state.svelte.js:9-10 | a new canvas has no operations and nothing to redo |
| CanvasState.Canvas.Commit | src/lib/canvas/state.svelte.js:39-42 | the operation is appended at the end and the redo stack is emptied |
| CanvasState.Canvas.Undo | src/lib/canvas/state.svelte.js:44-49 | a no-op without operations; otherwise the last operation moves onto the top of the redo stack |
| CanvasState.Canvas.Redo | src/lib/canvas/state.svelte.js:51-56 | a no-op with an empty redo stack; otherwise its top moves back to the end of the operations |
| CanvasState.Canvas.Clear | src/lib/canvas/state.svelte.js:58-60 | a commit of the clear operation |
| CanvasState.Canvas.Reset | src/lib/canvas/state.svelte.js:62-65 | both stacks end empty |
| CanvasState.Canvas.ExportOps | src/lib/canvas/state.svelte.js:67-69 | the operations at width 600 and height 200, with the state unchanged |
| CanvasState.Canvas.ImportOps | src/lib/canvas/state.svelte.js:71-74 | the operations become the imported ones and the redo stack is emptied |
| FloodFill.IndexBound | src/lib/canvas/flood-fill.js:44 | an in-bounds pixel's four bytes lie inside the image data |
| FloodFill.IndexInjective | src/lib/canvas/flood-fill.js:44-49 | two in-bounds pixels with the same index `y * width + x` are the same pixel |
| FloodFill.Grid | src/lib/canvas/flood-fill.js:9-12 | the RGBA bytes read as `height` rows of `width` colours |
| FloodFill.GridAfterPaint | src/lib/canvas/flood-fill.js:44-48 | writing the four bytes of a pixel changes that one cell of the grid and no other |
| FloodFill.GridInjective | src/lib/canvas/flood-fill.js:12 | two byte arrays with the same grid are equal, so a grid left alone means bytes left alone |
| FloodFill.PixelOf | src/lib/canvas/flood-fill.js:44 | every byte of the data belongs to an in-bounds pixel |
| FloodFill.MatchesCell | src/lib/canvas/flood-fill.js:80-82 | `matchesTarget` at a pixel's index holds exactly when the pixel's colour is the target |
| FloodFill.DigitPrefix | src/lib/canvas/flood-fill.js:85 | `parseInt` reads the longest prefix of hexadecimal digits |
| FloodFill.Bits32 | src/lib/canvas/flood-fill.js:87-89 | the shifts see the parsed number as 32 bits, NaN as 0 |
| FloodFill.HexToRgba | src/lib/canvas/flood-fill.js:84-92 | the channels are bytes and alpha is 255 |
| FloodFill.HexRoundTrip | src/lib/canvas/flood-fill.js:84-92 | a `#rrggbb` colour gives back its red, green and blue, with alpha 255 |
| FloodFill.ParseDigits | src/lib/canvas/flood-fill.js:85 | a string of hexadecimal digits parses to its value |
| FloodFill.ChannelsOf | src/lib/canvas/flood-fill.js:87-89 | the three shifted-and-masked bytes of `r * 65536 + g * 256 + b` are r, g and b |
| FloodFill.StartBetween | src/lib/canvas/flood-fill.js:29-30 | the stack holding the start seed, with nothing painted and nothing visited, meets the loop invariant |
| FloodFill.StartScan | src/lib/canvas/flood-fill.js:33-41 | after popping a seed and moving left over target pixels, the scan of its row may start |
| FloodFill.EndScan | src/lib/canvas/flood-fill.js:43-74 | the row scan ends on the edge or a non-target pixel with the loop invariant restored |
| FloodFill.PaintStep | src/lib/canvas/flood-fill.js:44-73 | painting a target pixel and pushing the neighbours the span flags call for keeps every still-needed target pixel reachable from a seed |
| FloodFill.NewlyNeeded | src/lib/canvas/flood-fill.js:51-71 | painting a pixel makes only its right, upper and lower neighbours newly needed |
| FloodFill.RemainingAfterPaint | src/lib/canvas/flood-fill.js:43-48 | every paint lowers the number of target pixels left, which bounds the outer loop |
| FloodFill.VisitStep | src/lib/canvas/flood-fill.js:49 | every pixel marked visited holds the fill colour |
| FloodFill.Finished | src/lib/canvas/flood-fill.js:32-75 | with the stack empty the start is filled and no filled pixel has a target neighbour left |
| FloodFill.ConnectedFilled | src/lib/canvas/flood-fill.js:3-75 | a finished fill has painted every pixel 4-connected to the start through target pixels |
| FloodFill.Fill | src/lib/canvas/flood-fill.js:8-78 | a start outside the image, or a target equal to the fill colour, leaves the data unchanged; otherwise every pixel either keeps its colour or was the target and is now the fill colour, the start is filled, and no filled pixel has a target neighbour left; when the fill differs from the target, a pixel ends filled exactly when it is 4-connected to the start through target pixels, and every pixel whose colour changed is so connected |
| FloodFill.ConnectedStart | src/lib/canvas/flood-fill.js:29 | a start of the target colour is 4-connected to itself |
| FloodFill.ConnectedStep | src/lib/canvas/flood-fill.js:51-71 | a target pixel next to a connected pixel is connected |
| FloodFill.ConnectedLeft | src/lib/canvas/flood-fill.js:36-38 | the left move over unpainted target pixels stays connected to the start |
| FloodFill.StartReached | src/lib/canvas/flood-fill.js:29-30 | the start seed, with nothing painted, is connected to the start |
| FloodFill.PopReached | src/lib/canvas/flood-fill.js:33 | popping a seed leaves the other seeds connected |
| FloodFill.ScanReached | src/lib/canvas/flood-fill.js:33-41 | after the pop and the left move, the run's first pixel is connected to the start |
| FloodFill.PaintReached | src/lib/canvas/flood-fill.js:44-71 | painting a pixel of a connected run and pushing its neighbours keeps every seed and every filled pixel connected |
| FloodFill.FilledIffConnected | src/lib/canvas/flood-fill.js:3-75 | a finished fill has painted exactly the pixels connected to the start, and changed no other |
| FloodFill.ScanSpan | src/lib/canvas/flood-fill.js:33-74 | one pop of the outer loop keeps the invariant, keeps every seed and every filled pixel connected to the start, and either changes nothing or lowers the number of target pixels |
| FloodFill.RunStart | src/lib/canvas/flood-fill.js:36-38 | the left-move loop stops at the first column of the target run, at the edge or after a non-target pixel |
| FloodFill.FillRun | src/lib/canvas/flood-fill.js:40-74 | the inner loop fills the run, keeps the invariant, and keeps every seed and every filled pixel connected to the start |
| FloodFill.FillPixel | src/lib/canvas/flood-fill.js:44-71 | one pixel is painted and visited, the seeds above and below are pushed as the span flags say, and seeds and filled pixels stay connected to the start |
| FloodFill.Neighbour | src/lib/canvas/flood-fill.js:51-71 | a target neighbour is pushed unless the span flag is set, and the flag becomes whether the neighbour has the target colour |
| FloodFill.PaintPixel | src/lib/canvas/flood-fill.js:44-48 | writing the four bytes sets that one pixel of the grid to the colour |
| TextWrap.ConcatAppend | src/lib/canvas/render.js:113-119 | joining the lines after pushing one more is the old join followed by that line |
| TextWrap.GetTextWrapInfo | src/lib/canvas/render.js:105-123 | the lines join back to the text, none is empty, there are none exactly when the text is empty, every prefix of two or more characters of a line fits `canvasWidth - x - 4`, each line but the last ends because its next character does not fit, and `lastLineWidth` measures the last line or the empty string |
| TextWrap.ExtendStep | src/lib/canvas/render.js:115-116 | appending a character that fits, or the text's first, keeps the lines a greedy wrapping of the text read so far |
| TextWrap.BreakStep | src/lib/canvas/render.js:112-114 | pushing the current line and starting from the character that did not fit keeps the lines a greedy wrapping |
| TextWrap.WrapUnique | src/lib/canvas/render.js:110-119 | two greedy wrappings of the same text at the same width are the same lines |
| TextWrap.FirstLineAgrees | src/lib/canvas/render.js:112 | a greedy wrapping's first line is at least as long as any other wrapping's |
| TextWrap.TailWrapped | src/lib/canvas/render.js:110-119 | the lines after the first are a greedy wrapping of the rest of the text |
| ClientSocket.WithoutMessage | src/lib/socket.svelte.js:37 | the messages kept are exactly those with another id |
| ClientSocket.WithoutMessageAppend | src/lib/socket.svelte.js:37 | the filter works part by part, so it keeps the order of the messages it keeps |
| ClientSocket.WithReactions | src/lib/socket.svelte.js:43-48 | same length; the message with the id gets the new reactions and every other message is unchanged |
| ClientSocket.SetOnline | src/lib/socket.svelte.js:64-75 | same length; entries of the user get the flag and every other entry is unchanged |
| ClientSocket.JoinedUnique | src/lib/socket.svelte.js:58-69 | room:user-joined keeps user ids unique, leaves the user present and online, leaves every other entry as it was, and adds at most one entry |
| ClientSocket.LeftKeepsMembers | src/lib/socket.svelte.js:71-77 | room:user-left keeps every entry's id and name, removes nobody, marks the user offline and keeps ids unique |
| ClientSocket.OtherRoomIgnored | src/lib/socket.svelte.js:23-83 | an event for a room other than the current one changes nothing |
| ClientSocket.NewMessageAppends | src/lib/socket.svelte.js:29-33 | message:new for the current room appends the message at the end and leaves the members alone |
| ClientSocket.DeletedRemovesAll | src/lib/socket.svelte.js:35-39 | after message:deleted no message has the id, and the others keep their order |
| ClientSocket.ReactionsReplaced | src/lib/socket.svelte.js:41-50 | reaction:updated keeps length, order, ids and timestamps, and replaces the reactions on the matching messages only |
| ClientSocket.NoSocketNoOp | src/lib/socket.svelte.js:120-179 | without a socket, every action but connect and clearError changes nothing and emits nothing |
| ClientSocket.ConnectIdempotent | src/lib/socket.svelte.js:114-118 | after connect there is a socket, and a second connect changes nothing |
| ClientSocket.JoinThenLeave | src/lib/socket.svelte.js:131-149 | joining a room then leaving it emits room:join then room:leave and ends with no current room and the three lists empty |
| ClientSocket.LeaveOtherRoom | src/lib/socket.svelte.js:140-149 | leaving a room that is not the current one only emits room:leave |
| ClientSocket.SocketStore.constructor | src/lib/socket.svelte.js:5-11 | no socket, not connected, no room, empty lists, no error, nothing emitted |
| ClientSocket.SocketStore.Receive | src/lib/socket.svelte.js:13-104 | each listener updates the store as the event function says, and the friend events go to the friends store |
| ClientSocket.SocketStore.ReceiveFriendEvent | src/lib/socket.svelte.js:85-99 | friend:online, friend:offline, friend:request-received and friend:request-accepted call the friends store's handler |
| ClientSocket.SocketStore.ReceiveRoomEvent | src/lib/socket.svelte.js:14-103 | the room-scoped listeners, each guarded by the current room, and connect, disconnect and error |
| ClientSocket.SocketStore.DoConnect | src/lib/socket.svelte.js:114-118 | a no-op with a socket; otherwise a socket is made |
| ClientSocket.SocketStore.DoDisconnect | src/lib/socket.svelte.js:120-129 | a no-op without a socket; otherwise the socket goes, the store is not connected, and the room and the three lists are cleared |
| ClientSocket.SocketStore.DoJoinRoom | src/lib/socket.svelte.js:131-138 | with a socket, sets the current room, clears the three lists and emits room:join |
| ClientSocket.SocketStore.DoLeaveRoom | src/lib/socket.svelte.js:140-149 | with a socket, emits room:leave and clears the state only when the room is the current one |
| ClientSocket.SocketStore.Emit | src/lib/socket.svelte.js:151-179 | with a socket, each wrapper emits its one event with its fields; without one it does nothing |
| ClientSocket.SocketStore.DoClearError | src/lib/socket.svelte.js:181-183 | the error is cleared |
| ClientFriends.MarkOnline | src/lib/friends.svelte.js:54-58 | same length; entries with the id get the flag and every other entry is unchanged |
| ClientFriends.WithoutRequests | src/lib/friends.svelte.js:66 | the requests kept are exactly those for another user |
| ClientFriends.WithoutRequestsAppend | src/lib/friends.svelte.js:66 | the filter works part by part, keeping order |
| ClientFriends.LastStatusWins | src/lib/friends.svelte.js:53-59 | two status changes for a friend are the same as the second alone |
| ClientFriends.StatusKeepsOthers | src/lib/friends.svelte.js:53-59 | a status change leaves other friends and both request lists alone |
| ClientFriends.AcceptedIsFriend | src/lib/friends.svelte.js:65-68 | request-accepted removes every outgoing request for the user, appends them online at the end of the friends, keeps the earlier friends and leaves the incoming requests alone |
| ClientFriends.FriendsStore.constructor | src/lib/friends.svelte.js:4-6 | all three lists start empty |
| ClientFriends.FriendsStore.HandleFriendOnline | src/lib/friends.svelte.js:53-55 | the friend's entries become online |
| ClientFriends.FriendsStore.HandleFriendOffline | src/lib/friends.svelte.js:57-59 | the friend's entries become offline |
| ClientFriends.FriendsStore.HandleRequestReceived | src/lib/friends.svelte.js:61-63 | the request is appended at the end of the incoming list |
| ClientFriends.FriendsStore.HandleRequestAccepted | src/lib/friends.svelte.js:65-68 | the outgoing requests for the user go and the user is appended to the friends, online |
| FriendRoutes.BlockedBy | server/routes/friends.js:144 | the ids a user has blocked are exactly those with a blocked row from the user |
| FriendRoutes.FriendsList | server/routes/friends.js:154-167 | one entry per friend row, in order, with its id and name, the avatar or null, and online exactly when the batched status says true |
| FriendRoutes.ParseDecimal | server/routes/friends.js:120-121 | `parseInt(..., 10)` gives NaN exactly when no digit follows the optional sign |
| FriendRoutes.DecimalPrefix | server/routes/friends.js:120 | the longest prefix of decimal digits |
| FriendRoutes.ValueOfDecimalString | server/routes/friends.js:120 | reading back the decimal digits of a number gives the number |
| FriendRoutes.ParseDecimalRoundTrip | server/routes/friends.js:120 | a path parameter written from an integer parses back to it |
| FriendRoutes.OtherPairs | server/routes/friends.js:23-151 | a change to the rows between one pair that leaves that pair well formed keeps the whole table well formed |
| FriendRoutes.SendRequestKeeps | server/routes/friends.js:23-62 | a friend request keeps the table well formed: between two users no row, one pending row, accepted rows both ways, or one blocked row, and no row to oneself |
| FriendRoutes.AcceptKeeps | server/routes/friends.js:72-102 | accepting keeps the table well formed |
| FriendRoutes.DeclineKeeps | server/routes/friends.js:105-116 | declining keeps the table well formed |
| FriendRoutes.RemoveKeeps | server/routes/friends.js:119-128 | removing keeps the table well formed |
| FriendRoutes.BlockKeeps | server/routes/friends.js:131-151 | blocking keeps the table well formed |
| FriendRoutes.RequestCreatedIff | server/routes/friends.js:23-61 | 201 exactly when a name is given, it is a user, not oneself, and no row exists either way; then exactly the pending row from me to the target is added; otherwise no row changes and nobody is notified |
| FriendRoutes.RequestRefusalOrder | server/routes/friends.js:38-48 | a blocked row wins over an accepted one, which wins over a pending one, in the error given |
| FriendRoutes.AcceptMakesFriends | server/routes/friends.js:77-99 | with a pending row from the user, accepting answers 200, leaves accepted rows both ways and notifies both users |
| FriendRoutes.DeclineDeletesOne | server/routes/friends.js:109-115 | declining a pending request deletes that one row and leaves every other row as it was |
| FriendRoutes.RemoveClearsBoth | server/routes/friends.js:123-125 | after remove no row is left in either direction |
| FriendRoutes.BlockReplacesTies | server/routes/friends.js:135-148 | blocking another user leaves only the blocked row from me, and the cache holds exactly the users I have blocked |
| FriendRoutes.NoRequestBetweenTied | server/routes/friends.js:38-44 | a request between friends or blocked users is refused with 400 and changes no row |
| FriendRoutes.FriendsDb.constructor | server/routes/friends.js:20 | no rows, no cache entries, no notices |
| FriendRoutes.FriendsDb.GetFriendship | server/routes/friends.js:35-36 | the row from a to b, if any |
| FriendRoutes.FriendsDb.CreateFriendRequest | server/routes/friends.js:50 | the row from a to b is set to the status |
| FriendRoutes.FriendsDb.DeleteFriendship | server/routes/friends.js:114 | the row from a to b is removed |
| FriendRoutes.FriendsDb.HandleRequest | server/routes/friends.js:23-62 | the table, reply and notices of the request rule |
| FriendRoutes.FriendsDb.HandleAccept | server/routes/friends.js:72-102 | the table, reply and two notices of the accept rule |
| FriendRoutes.FriendsDb.HandleDecline | server/routes/friends.js:105-116 | the table and reply of the decline rule |
| FriendRoutes.FriendsDb.HandleRemove | server/routes/friends.js:119-128 | the path parameter read by `parseInt`, then the table and reply of the remove rule |
| FriendRoutes.FriendsDb.HandleBlock | server/routes/friends.js:131-151 | the table and reply of the block rule, and the cached block list of the user replaced by the full blocked list |
| RoomRoutes.SanitizeRoom | server/routes/rooms.js:27-39 | the view has no password hash field, `hasPassword` exactly when the hash is truthy, the member count exactly as the row has it, and every other field renamed unchanged |
| RoomRoutes.SanitizeHidesHash | server/routes/rooms.js:27-39 | two rooms that differ only in a non-empty password hash are sent the same |
| RoomRoutes.InsertKeeps | server/routes/rooms.js:64-70 | inserting a room with fresh id and code and a member set within its capacity keeps the tables in agreement |
| RoomRoutes.DropKeeps | server/routes/rooms.js:175 | deleting a room with its memberships and invite code keeps the tables in agreement |
| RoomRoutes.CreateKeeps | server/routes/rooms.js:42-78 | create keeps every room with a member set, one invite code pointing back at it and no more members than its capacity |
| RoomRoutes.CreateNamedKeeps | server/routes/rooms.js:54-77 | the same for the part of create after the type and name checks |
| RoomRoutes.DirectKeeps | server/routes/rooms.js:93-135 | the direct route keeps the tables in agreement |
| RoomRoutes.DeleteKeeps | server/routes/rooms.js:166-181 | delete keeps the tables in agreement |
| RoomRoutes.JoinFoundKeeps | server/routes/rooms.js:191-215 | the shared join steps keep the tables in agreement, capacity included |
| RoomRoutes.JoinKeeps | server/routes/rooms.js:184-220 | join keeps the tables in agreement |
| RoomRoutes.JoinByCodeKeeps | server/routes/rooms.js:223-263 | join-by-code keeps the tables in agreement |
| RoomRoutes.LeaveKeeps | server/routes/rooms.js:266-286 | leave keeps the tables in agreement |
| RoomRoutes.CreateRules | server/routes/rooms.js:42-78 | a room is created exactly when the type, defaulting to invite, is one of the three, the trimmed name has 1 to 50 characters, the creator is in fewer than 20 rooms and the fresh id and code are new; the creator is then owner and only member, the name is trimmed, a password gives a hash, a named room holds 16 and anything else gets the table's default type and capacity; a refusal changes nothing |
| RoomRoutes.CreateNamedRules | server/routes/rooms.js:54-77 | the same for the part after the type and name checks |
| RoomRoutes.DirectRules | server/routes/rooms.js:93-135 | a room comes back only for an accepted friendship in either direction; an existing direct room is returned with no change; otherwise a new direct room of capacity 2 with no password holds exactly the two users; a refusal changes nothing |
| RoomRoutes.OnlyOwnerDeletes | server/routes/rooms.js:166-181 | only the owner's delete changes the tables and removes the room; anyone else gets 403 and no change |
| RoomRoutes.JoinRules | server/routes/rooms.js:184-220 | a member joining changes nothing; a wrong or missing password of a protected room gives 403 and no change; a join that changes the tables adds exactly the user, keeps the room within capacity and the user in at most 20 rooms |
| RoomRoutes.JoinByCodeIsJoin | server/routes/rooms.js:223-263 | joining by a room's invite code is joining that room by id |
| RoomRoutes.LeaveRules | server/routes/rooms.js:266-286 | a non-member gets 400 and no change; the owner leaving deletes the room; anyone else is only removed from the members |
| RoomRoutes.RoomsDb.constructor | server/routes/rooms.js:25 | empty tables |
| RoomRoutes.RoomsDb.GetUserRoomCount | server/routes/rooms.js:54 | the number of rooms the user is a member of |
| RoomRoutes.RoomsDb.CreateRoom | server/routes/rooms.js:65-67 | the room row, an empty member set and its invite code are added |
| RoomRoutes.RoomsDb.AddRoomMember | server/routes/rooms.js:70 | the user joins the room's members, nothing else changes |
| RoomRoutes.RoomsDb.RemoveRoomMember | server/routes/rooms.js:280 | the user leaves the room's members, nothing else changes |
| RoomRoutes.RoomsDb.DeleteRoom | server/routes/rooms.js:175 | the room, its memberships and its invite code are removed |
| RoomRoutes.RoomsDb.CreateOwnedRoom | server/routes/rooms.js:64-70 | the room is inserted with the owner as its only member |
| RoomRoutes.RoomsDb.HandleCreate | server/routes/rooms.js:42-78 | the tables and response of the create rule |
| RoomRoutes.RoomsDb.HandleCreateNamed | server/routes/rooms.js:54-77 | the tables and response of create after the name check |
| RoomRoutes.RoomsDb.HandleDirect | server/routes/rooms.js:93-135 | the tables and response of the direct rule |
| RoomRoutes.RoomsDb.HandleDelete | server/routes/rooms.js:166-181 | the tables and response of the delete rule |
| RoomRoutes.RoomsDb.JoinRoom | server/routes/rooms.js:191-258 | the tables and response of the join steps both join routes share |
| RoomRoutes.RoomsDb.HandleJoin | server/routes/rooms.js:184-220 | the tables and response of the join rule |
| RoomRoutes.RoomsDb.HandleJoinByCode | server/routes/rooms.js:223-263 | the tables and response of the join-by-code rule |
| RoomRoutes.RoomsDb.HandleLeave | server/routes/rooms.js:266-286 | the tables and response of the leave rule |
| Accounts.WithoutTokensOf | server/db/queries.js:40-55 | deleting a user's tokens leaves exactly the other users' tokens, unchanged |
| Accounts.NewVerificationLeavesOne | server/routes/email.js:24-30 | after the delete and insert the user holds exactly the new verification token, live for 24 hours, other users' tokens are untouched, and the mail is sent |
| Accounts.AccountsDb.constructor | server/db/index.js:11-17 | a fresh database: empty tables and no mail sent |
| Accounts.AccountsDb.CreateUser | server/db/queries.js:3-5 | a user with the name and hash, no address, unverified and no avatar |
| Accounts.AccountsDb.UpdateUser | server/db/queries.js:19-29 | the user's row is replaced, nothing else changes |
| Accounts.AccountsDb.DeleteResetTokensByUser | server/db/queries.js:53-55 | the user's reset tokens go |
| Accounts.AccountsDb.DeleteVerificationTokensByUser | server/db/queries.js:40-42 | the user's verification tokens go |
| Accounts.AccountsDb.CreateResetToken | server/db/queries.js:45-47 | the reset token is added with its expiry |
| Accounts.AccountsDb.CreateVerificationToken | server/db/queries.js:32-34 | the verification token is added with its expiry |
| Accounts.AccountsDb.UpsertUserSettings | server/routes/settings.js:117-123 | the user's volumes are set |
| Accounts.AccountsDb.Send | server/routes/auth.js:102 | the mail is appended to the outbox |
| Accounts.AccountsDb.UsernameExists | server/routes/auth.js:46 | whether some user has the name |
| Accounts.AccountsDb.CheckEmailTaken | server/db/queries.js:57-59 | whether a user other than me has the address |
| Accounts.AccountsDb.StartVerification | server/routes/email.js:24-30 | the address is set unverified, the old tokens go, the new token is added and mailed |
| AuthRoutes.SanitizeUser | server/routes/auth.js:26-33 | only id, name, the address or null when it is empty, and the verified flag |
| AuthRoutes.RegisterRules | server/routes/auth.js:36-57 | an account is created exactly when the name matches `^[a-zA-Z0-9_]{3,20}$`, the password has 8 to 128 characters and the name is free; it has no address and is unverified; a taken name gives 409; a refusal changes nothing |
| AuthRoutes.RequestResetGeneric | server/routes/auth.js:88-105 | for a nonempty address the reply is the one generic message whether or not a verified user has it |
| AuthRoutes.RequestResetLeavesOne | server/routes/auth.js:95-102 | the user ends with exactly the one new reset token, live for an hour, the mail goes to the address, and no user row changes |
| AuthRoutes.RequestResetUnknownNoChange | server/routes/auth.js:95-96 | an address no verified user has changes nothing and sends nothing |
| AuthRoutes.ResetRules | server/routes/auth.js:108-128 | a reset succeeds exactly with both fields, a password of 8 to 128 characters and a live token; it sets the owner's hash, removes every reset token of theirs including this one, and keeps other users' tokens; a refusal changes nothing |
| AuthRoutes.HandleRegister | server/routes/auth.js:36-57 | the tables and answer of the register rule |
| AuthRoutes.HandleEnroll | server/routes/auth.js:46-56 | the tables and answer of register after the name and password checks |
| AuthRoutes.HandleRequestReset | server/routes/auth.js:88-105 | the tables and answer of the request-reset rule |
| AuthRoutes.HandleResetPassword | server/routes/auth.js:108-128 | the tables and answer of the reset rule |
| EmailRoutes.EmailOkMatchesPattern | server/routes/email.js:9 | the route's test accepts exactly the strings `^[^\s@]+@[^\s@]+\.[^\s@]+$` matches |
| EmailRoutes.OkHasShape | server/routes/email.js:9 | every accepted string matches the pattern |
| EmailRoutes.PlainSlice | server/routes/email.js:9 | a part of an accepted string that avoids its `@` has neither white space nor `@` |
| EmailRoutes.ShapeIsOk | server/routes/email.js:9 | every string the pattern matches is accepted |
| EmailRoutes.AddRules | server/routes/email.js:12-33 | an address is stored exactly when it matches the pattern and no other user has it; it is then unverified, the user holds exactly the new token and the mail is sent; a taken address gives 409; a refusal changes nothing |
| EmailRoutes.VerifyRules | server/routes/email.js:36-52 | verification succeeds exactly with a live token; its owner is then verified with no verification token left and the reset tokens untouched; otherwise 400 and no change |
| EmailRoutes.VerifyOnce | server/routes/email.js:43-49 | a second verification with the same token is refused |
| EmailRoutes.HandleAdd | server/routes/email.js:12-33 | the tables and reply of the add rule |
| EmailRoutes.HandleVerify | server/routes/email.js:36-52 | the tables and reply of the verify rule |
| SettingsRoutes.Clamp | server/routes/settings.js:115 | the result is within 0 to 100; a non-number gives 100, a number within range is itself, and one outside goes to the nearer end |
| SettingsRoutes.ClampStable | server/routes/settings.js:115 | clamping twice is clamping once, and clamping keeps the order of numbers |
| SettingsRoutes.SoundRoundTrip | server/routes/settings.js:112-147 | reading back gives the clamped volumes just stored and other users' unchanged; a user without a row reads 100 four times; while every stored row is within 0 to 100 the route keeps it so and every read stays within it |
| SettingsRoutes.AvatarGate | server/routes/settings.js:27-62 | the avatar is set exactly for a verified address, an uploaded file passing the image check and a successful resize; an unverified address gets 403; the URL is the id with `.png` and the password is untouched; a refusal changes nothing |
| SettingsRoutes.PasswordChangeRules | server/routes/settings.js:65-85 | the password changes exactly when both fields are given, the new one has 8 to 128 characters and the current one matches; missing fields give 400, a wrong current password 403; a refusal changes nothing |
| SettingsRoutes.UpdateEmailTaken | server/routes/settings.js:95-98 | an address another user has gives 409 and nothing is stored |
| SettingsRoutes.UpdateEmailSkipsPattern | server/routes/settings.js:91-108 | the settings route stores an address the email route would refuse |
| SettingsRoutes.HandleAvatar | server/routes/settings.js:27-62 | the tables and answer of the avatar rule |
| SettingsRoutes.HandlePassword | server/routes/settings.js:65-85 | the tables and answer of the password rule |
| SettingsRoutes.HandleEmail | server/routes/settings.js:88-109 | the tables and answer of the email rule |
| SettingsRoutes.HandlePutSound | server/routes/settings.js:112-126 | the clamped volumes are stored |
| SettingsRoutes.HandleGetSound | server/routes/settings.js:129-147 | the stored volumes, or 100 four times without a row |
| Text.TrimStartShape | server/routes/rooms.js:50 | the left part of `trim()` removes a prefix made only of white space and stops at the first other character |
| Text.TrimEndShape | server/routes/rooms.js:50 | the right part of `trim()` removes a suffix made only of white space and stops at the last other character |
| Text.TrimSlice | server/routes/rooms.js:50 | `trim()` gives a slice of the name with only white space outside it and none at its ends |
| Text.TrimIdempotent | server/routes/rooms.js:65-67 | trimming the stored name again changes nothing |
| Text.DecimalString | server/routes/settings.js:47 | the id written in decimal: nonempty, digits only, no leading zero |
| Json.Field | server/socket/handlers.js:85-86 | a missing field or a non-object reads as undefined, a present field as its value |
| Sets.HasLeast | server/redis/messages.js:126 | every nonempty set of ids has a least element, the next id taken in ascending order |
| Sets.AscendUnique | server/redis/messages.js:126 | a strictly increasing list holding exactly the ids of a set is the ascending listing of that set |
| Sets.HeadIsLeast | server/redis/messages.js:126 | such a list starts with the least id and its rest lists the others |
| AuthRoutes.UsernameOk | server/routes/auth.js:12 | no contract of its own; `USERNAME_RE` as a predicate, used by `AuthRoutes.RegisterRules` |
| AuthRoutes.Register | server/routes/auth.js:36-57 | no contract of its own; its rules are `AuthRoutes.RegisterRules`, and `AuthRoutes.HandleRegister` performs it |
| AuthRoutes.Enroll | server/routes/auth.js:46-56 | no contract of its own; its rules are part of `AuthRoutes.RegisterRules`, and `AuthRoutes.HandleEnroll` performs it |
| AuthRoutes.RequestReset | server/routes/auth.js:88-105 | no contract of its own; its rules are `AuthRoutes.RequestResetGeneric`, `AuthRoutes.RequestResetLeavesOne` and `AuthRoutes.RequestResetUnknownNoChange` |
| AuthRoutes.ResetPassword | server/routes/auth.js:108-128 | no contract of its own; its rules are `AuthRoutes.ResetRules` |
| EmailRoutes.EmailOk | server/routes/email.js:9 | no contract of its own; `EMAIL_RE.test`, shown equal to the pattern by `EmailRoutes.EmailOkMatchesPattern` |
| EmailRoutes.Add | server/routes/email.js:12-33 | no contract of its own; its rules are `EmailRoutes.AddRules` |
| EmailRoutes.Verify | server/routes/email.js:36-52 | no contract of its own; its rules are `EmailRoutes.VerifyRules` and `EmailRoutes.VerifyOnce` |
| SettingsRoutes.Avatar | server/routes/settings.js:27-62 | no contract of its own; its rules are `SettingsRoutes.AvatarGate` |
| SettingsRoutes.ChangePassword | server/routes/settings.js:65-85 | no contract of its own; its rules are `SettingsRoutes.PasswordChangeRules` |
| SettingsRoutes.UpdateEmail | server/routes/settings.js:88-109 | no contract of its own; its rules are `SettingsRoutes.UpdateEmailTaken` and `SettingsRoutes.UpdateEmailSkipsPattern` |
| SettingsRoutes.GetSound | server/routes/settings.js:129-147 | no contract of its own; with `SettingsRoutes.PutSound` its rules are `SettingsRoutes.SoundRoundTrip` |
| SettingsRoutes.PutSound | server/routes/settings.js:112-126 | no contract of its own; its rules are `SettingsRoutes.SoundRoundTrip` |
| FriendRoutes.SendRequest | server/routes/friends.js:23-62 | no contract of its own; its rules are `FriendRoutes.RequestCreatedIff`, `FriendRoutes.RequestRefusalOrder`, `FriendRoutes.NoRequestBetweenTied` and `FriendRoutes.SendRequestKeeps` |
| FriendRoutes.Accept | server/routes/friends.js:72-102 | no contract of its own; its rules are `FriendRoutes.AcceptMakesFriends` and `FriendRoutes.AcceptKeeps` |
| FriendRoutes.Decline | server/routes/friends.js:105-116 | no contract of its own; its rules are `FriendRoutes.DeclineDeletesOne` and `FriendRoutes.DeclineKeeps` |
| FriendRoutes.Remove | server/routes/friends.js:119-128 | no contract of its own; its rules are `FriendRoutes.RemoveClearsBoth` and `FriendRoutes.RemoveKeeps` |
| FriendRoutes.Block | server/routes/friends.js:131-151 | no contract of its own; its rules are `FriendRoutes.BlockReplacesTies` and `FriendRoutes.BlockKeeps` |
| RoomRoutes.Create | server/routes/rooms.js:42-78 | no contract of its own; its rules are `RoomRoutes.CreateRules` and `RoomRoutes.CreateKeeps` |
| RoomRoutes.CreateNamed | server/routes/rooms.js:54-77 | no contract of its own; its rules are `RoomRoutes.CreateNamedRules` and `RoomRoutes.CreateNamedKeeps` |
| RoomRoutes.NewRoom | server/routes/rooms.js:59-67 | no contract of its own; the row `create` inserts, whose shape `RoomRoutes.CreateNamedRules` states |
| RoomRoutes.Direct | server/routes/rooms.js:93-135 | no contract of its own; its rules are `RoomRoutes.DirectRules` and `RoomRoutes.DirectKeeps` |
| RoomRoutes.Delete | server/routes/rooms.js:166-181 | no contract of its own; its rules are `RoomRoutes.OnlyOwnerDeletes` and `RoomRoutes.DeleteKeeps` |
| RoomRoutes.JoinFound | server/routes/rooms.js:191-215 | no contract of its own; its rules are part of `RoomRoutes.JoinRules` and `RoomRoutes.JoinFoundKeeps` |
| RoomRoutes.Join | server/routes/rooms.js:184-220 | no contract of its own; its rules are `RoomRoutes.JoinRules` and `RoomRoutes.JoinKeeps` |
| RoomRoutes.JoinByCode | server/routes/rooms.js:223-263 | no contract of its own; its rules are `RoomRoutes.JoinByCodeIsJoin` and `RoomRoutes.JoinByCodeKeeps` |
| RoomRoutes.Leave | server/routes/rooms.js:266-286 | no contract of its own; its rules are `RoomRoutes.LeaveRules` and `RoomRoutes.LeaveKeeps` |
| Reactions.AddReaction | server/socket/handlers.js:244-256 | no contract of its own; its rules are `Reactions.ReactorsAfterAdd`, `Reactions.AddWellFormed` and `Reactions.AddIdempotent` |
| Reactions.RemoveReaction | server/socket/handlers.js:278-288 | no contract of its own; its rules are `Reactions.ReactorsAfterRemove`, `Reactions.RemoveWellFormed`, `Reactions.RemoveIdempotent` and `Reactions.AddThenRemove` |
| ClientSocket.OnEvent | src/lib/socket.svelte.js:14-103 | no contract of its own; its rules are `ClientSocket.OtherRoomIgnored`, `ClientSocket.NewMessageAppends`, `ClientSocket.DeletedRemovesAll`, `ClientSocket.ReactionsReplaced`, `ClientSocket.JoinedUnique` and `ClientSocket.LeftKeepsMembers` |
| ClientSocket.Perform | src/lib/socket.svelte.js:114-183 | no contract of its own; its rules are `ClientSocket.NoSocketNoOp`, `ClientSocket.ConnectIdempotent`, `ClientSocket.JoinThenLeave` and `ClientSocket.LeaveOtherRoom` |
| ClientFriends.FriendOnline | src/lib/friends.svelte.js:53-55 | no contract of its own; its rules are `ClientFriends.MarkOnline`, `ClientFriends.StatusKeepsOthers` and `ClientFriends.LastStatusWins` |
| ClientFriends.FriendOffline | src/lib/friends.svelte.js:57-59 | no contract of its own; its rules are `ClientFriends.MarkOnline`, `ClientFriends.StatusKeepsOthers` and `ClientFriends.LastStatusWins` |
| ClientFriends.RequestReceived | src/lib/friends.svelte.js:61-63 | no contract of its own; `ClientFriends.FriendsStore.HandleRequestReceived` states its append |
| ClientFriends.RequestAccepted | src/lib/friends.svelte.js:65-68 | no contract of its own; its rules are `ClientFriends.AcceptedIsFriend` |
| CanvasState.Committed | src/lib/canvas/state.svelte.js:39-42 | no contract of its own; its rules are `CanvasState.CommitThenRedo` and `CanvasState.ClearIsUndoable` |
| CanvasState.Undone | src/lib/canvas/state.svelte.js:44-49 | no contract of its own; its rules are `CanvasState.RedoAfterUndo`, `CanvasState.UndoTimesShape` and `CanvasState.MovesPreserveOperations` |
| CanvasState.Redone | src/lib/canvas/state.svelte.js:51-56 | no contract of its own; its rules are `CanvasState.UndoAfterRedo`, `CanvasState.RedoTimesAfterUndoTimes` and `CanvasState.MovesPreserveOperations` |
| Messages.LiveIds | server/redis/messages.js:59-65 | no contract beyond its length; its rules are `Messages.LiveIdsMembers`, `Messages.LiveIdsIdempotent` and `Messages.ExcludeStaleIsLive` |
| Messages.ActiveTyping | server/redis/messages.js:126-131 | no contract of its own; its rules are `Messages.SplitTyping` and `Messages.GetTypingUsers` |
| RateLimiter.Allowed | server/socket/rateLimiter.js:8-13 | no contract of its own; its rules are `RateLimiter.CheckRateLimit`, `RateLimiter.AllowedCallsSpaced` and `RateLimiter.AllowedAfterWindow` |
| HttpRateLimit.Decide | server/middleware/httpRateLimit.js:14-35 | no contract of its own; its rules are `HttpRateLimit.Admit`, `HttpRateLimit.OnlyOwnCounter` and `HttpRateLimit.WindowBound` |
| Presence.BlockedBetween | server/redis/presence.js:41-47 | no contract of its own; its rules are `Presence.IsBlockedBetween` and `Presence.CachedListDecides` |
| SocketLogic.ValidContent | server/socket/handlers.js:80-95 | no contract of its own; its rules are `SocketLogic.TextBounds` and `SocketLogic.DrawingNeedsObject` |
| SocketLogic.MembersList | server/socket/handlers.js:52-62 | its length only; its rules are `SocketLogic.MembersListAt` |
| SocketLogic.TypingList | server/socket/handlers.js:64-75 | its length only; its rules are `SocketLogic.TypingListMembers` and `SocketLogic.TypingListAscending` |
| Text.Trim | server/routes/rooms.js:50 | no contract of its own; its rules are `Text.TrimSlice` and `Text.TrimIdempotent` |
| FloodFill.MatchesTarget | src/lib/canvas/flood-fill.js:80-82 | no contract of its own; its rules are `FloodFill.MatchesCell` |
| FloodFill.ParseHex | src/lib/canvas/flood-fill.js:85 | no contract of its own; its rules are `FloodFill.ParseDigits` and `FloodFill.HexRoundTrip` |
| ImageValidate.Matches | server/uploads/validate.js:26-28 | no contract of its own; its rules are `ImageValidate.MatchesIsPrefix` |

## Left out

- Transport: socket.io (rooms, `fetchSockets`, `socket.to().emit`), Express routing and `res.status().json()`. Emits are entries of an output sequence, and replies are values.
- Authentication: JWT signing and checking, cookies, the socket handshake in `server/socket/index.js`, `requireAuth`, and the login, logout and `me` routes. The signed-in user is a parameter.
- Read-only listing routes whose result is a plain query: `GET /api/rooms/browse`, `GET /api/rooms`, `GET /api/rooms/:id` and `GET /api/friends/requests`. Their SQL text is not part of this model.
- Uploads: `server/routes/upload.js`, `server/uploads/cleanup.js`, multer's size limit, and sharp's resize and the file write under `PUT /api/settings/avatar`. The resize and write are the outcome `processed`. The unlink in `message:delete` is the path it is given, returned as `ImageToUnlink`.
- Mail: `server/email/index.js` and `server/email/templates.js`. A mail is the `outbox` entry it would be made from.
- Client API calls in `src/lib/friends.svelte.js`: `fetchFriends`, `fetchRequests`, `sendRequest`, `acceptRequest`, `declineRequest`, `removeFriend`, `blockUser` and `startDirectMessage`. Each is a `fetch` to a route modelled on the server side, followed by a reload.
- Infrastructure: the Redis client (`server/redis/index.js`), SQLite setup and migrations (`server/db/index.js`), `server/index.js`, `server/config.js` and `vite.config.js`.
- Concurrency: interleaved async handlers, the pipeline prune running after the reply, and `Promise.all`, each modelled as a sequential step. Atomicity of SQL statements across requests is not modelled.
- The block cache that `POST /api/friends/block` writes (server/routes/friends.js:148) is the field `blockCache` of `FriendRoutes.FriendsDb`, a map from user to blocked ids. It is not the Redis block set that `Presence.CacheBlockList` writes and `Presence.IsBlockedBetween` reads. The model does not connect the two.
- Timers: the `setInterval` of the HTTP limiter is the method `HttpRateLimit.Limiter.Sweep`, called with `now`.
- Floating point: `Math.round` of the flood-fill start point (integer coordinates are taken), `clamp` on NaN (volumes are reals, a JSON number is never NaN) and text widths in wrapping (exact reals).
- `SettingsRoutes.Clamp`: Infinity and NaN are not JSON numbers here, so those cases of `Math.max`/`Math.min` are not modelled.
- `FloodFill.HexToRgba`: a hex string whose value passes 2^53 loses precision in JavaScript before the shift; the model takes its exact value modulo 2^32.
- `FloodFill.ParseDigits`, `FriendRoutes.ParseDecimal`: `parseInt` skips leading white space; the model takes strings without it.
- String lengths: JavaScript counts UTF-16 code units, and the model counts characters. This matters for the 2000-character text limit, the 50-character room name and the 8 to 128 character passwords.
- Request bodies: a field in the body is modelled as an optional string or a JSON value. Other JavaScript types in string fields (numbers, arrays) are not.
- Canvas drawing: strokes, ellipses and stamps in `src/lib/canvas/render.js`, `smoothing.js`, `tools.js`, `stamps.js` and `sounds.js`. Of `render.js` only `getTextWrapInfo` is modelled, and `measureText(...).width` is the function `measure`.
- Client stores `src/lib/auth.svelte.js`, `src/lib/settings.svelte.js` and `src/lib/api.js`: thin wrappers around `fetch`.
- Schema defaults other than the room type, and timestamps such as `created_at`, are not modelled. Token expiry is an integer time in seconds.
- Sets.Ascend: `Object.entries` lists integer keys in ascending order only when they are array indices (below 2^32 − 1); larger user ids come in insertion order, which the model does not capture.
