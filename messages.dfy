/**
 * The message store and the per-room presence keys (server/redis/messages.js):
 * message bodies that expire 48 hours after they are written, an ordered id
 * list per room that is pruned lazily, per-room online sets and a typing hash
 * whose entries go stale after five seconds.
 */
module Messages {
  import opened Wrappers
  import opened Chat
  import opened Redis
  import Sets

  /** How long a message body lives, in seconds. */
  const MSG_TTL: int := 172800

  /** A typing entry is active while it is younger than this many milliseconds. */
  const TYPING_STALE_MS: int := 5000

  /** The message a live `bbb:msg:<id>` key holds at time `now`. */
  function BodyAt(strings: map<Key, StringEntry>, id: string, now: int): Option<Message> {
    match Lookup(strings, MsgKey(id), now)
    case Some(Body(m)) => Some(m)
    case _ => None
  }

  predicate IsLive(strings: map<Key, StringEntry>, id: string, now: int) {
    BodyAt(strings, id, now).Some?
  }

  /** The ids of a room list whose bodies are still live, in list order. */
  function LiveIds(ids: seq<string>, strings: map<Key, StringEntry>, now: int): (r: seq<string>)
    ensures |r| <= |ids|
  {
    if ids == [] then []
    else
      var last := ids[|ids| - 1];
      LiveIds(ids[..|ids| - 1], strings, now) + (if IsLive(strings, last, now) then [last] else [])
  }

  /** The ids of a room list whose bodies have expired, in list order. */
  function StaleIds(ids: seq<string>, strings: map<Key, StringEntry>, now: int): (r: seq<string>)
    ensures |r| <= |ids|
  {
    if ids == [] then []
    else
      var last := ids[|ids| - 1];
      StaleIds(ids[..|ids| - 1], strings, now) + (if IsLive(strings, last, now) then [] else [last])
  }

  /** The live bodies of a room list, in list order. */
  function LiveBodies(ids: seq<string>, strings: map<Key, StringEntry>, now: int): (r: seq<Message>)
    ensures |r| == |LiveIds(ids, strings, now)|
  {
    if ids == [] then []
    else
      var last := ids[|ids| - 1];
      LiveBodies(ids[..|ids| - 1], strings, now) + (if IsLive(strings, last, now) then [BodyAt(strings, last, now).value] else [])
  }

  /** An id stays in the room list exactly when it was there and its body is live. */
  lemma {:induction false} LiveIdsMembers(ids: seq<string>, strings: map<Key, StringEntry>, now: int)
    ensures forall x :: x in LiveIds(ids, strings, now) <==> x in ids && IsLive(strings, x, now)
  {
    if ids != [] {
      LiveIdsMembers(ids[..|ids| - 1], strings, now);
      assert ids == ids[..|ids| - 1] + [ids[|ids| - 1]];
    }
  }

  /** An id is pruned exactly when it was in the room list and its body has expired. */
  lemma {:induction false} StaleIdsMembers(ids: seq<string>, strings: map<Key, StringEntry>, now: int)
    ensures forall x :: x in StaleIds(ids, strings, now) <==> x in ids && !IsLive(strings, x, now)
  {
    if ids != [] {
      StaleIdsMembers(ids[..|ids| - 1], strings, now);
      assert ids == ids[..|ids| - 1] + [ids[|ids| - 1]];
    }
  }

  /** The i-th live body is the body of the i-th live id. */
  lemma {:induction false} LiveBodiesMatchIds(ids: seq<string>, strings: map<Key, StringEntry>, now: int)
    ensures forall i :: 0 <= i < |LiveBodies(ids, strings, now)| ==>
      BodyAt(strings, LiveIds(ids, strings, now)[i], now) == Some(LiveBodies(ids, strings, now)[i])
  {
    if ids != [] {
      LiveBodiesMatchIds(ids[..|ids| - 1], strings, now);
    }
  }

  /** `s` with every element of `xs` removed, the rest in order. */
  function Exclude(s: seq<string>, xs: seq<string>): (r: seq<string>)
    ensures |r| <= |s|
  {
    if s == [] then []
    else Exclude(s[..|s| - 1], xs) + (if s[|s| - 1] in xs then [] else [s[|s| - 1]])
  }

  lemma {:induction false} ExcludeNothing(s: seq<string>)
    ensures Exclude(s, []) == s
  {
    if s != [] {
      ExcludeNothing(s[..|s| - 1]);
    }
  }

  /** Removing one more id with LREM is excluding it along with the others. */
  lemma {:induction false} ExcludeOneMore(s: seq<string>, xs: seq<string>, x: string)
    ensures Exclude(s, xs + [x]) == Without(Exclude(s, xs), x)
  {
    if s != [] {
      var init := s[..|s| - 1];
      var last := s[|s| - 1];
      ExcludeOneMore(init, xs, x);
      var a := Exclude(init, xs);
      if last !in xs {
        assert Exclude(s, xs) == a + [last];
        assert (a + [last])[..|a|] == a;
        assert Without(a + [last], x) == Without(a, x) + (if last == x then [] else [last]);
      } else {
        assert Exclude(s, xs) == a;
      }
    }
  }

  /** Excluding the stale ids of a list keeps exactly its live ids, in order. */
  lemma {:induction false} ExcludeStaleIsLive(s: seq<string>, ids: seq<string>, strings: map<Key, StringEntry>, now: int)
    requires forall x :: x in s ==> x in ids
    ensures Exclude(s, StaleIds(ids, strings, now)) == LiveIds(s, strings, now)
  {
    if s != [] {
      ExcludeStaleIsLive(s[..|s| - 1], ids, strings, now);
      StaleIdsMembers(ids, strings, now);
      assert s[|s| - 1] in ids;
    }
  }

  /** Pruning is idempotent: the live ids of a pruned list are the list itself. */
  lemma {:induction false} LiveIdsIdempotent(ids: seq<string>, strings: map<Key, StringEntry>, now: int)
    ensures LiveIds(LiveIds(ids, strings, now), strings, now) == LiveIds(ids, strings, now)
  {
    if ids != [] {
      var init := ids[..|ids| - 1];
      var last := ids[|ids| - 1];
      LiveIdsIdempotent(init, strings, now);
      LiveIdsMembers(init, strings, now);
      var r := LiveIds(ids, strings, now);
      if IsLive(strings, last, now) {
        assert r[..|r| - 1] == LiveIds(init, strings, now);
      } else {
        assert r == LiveIds(init, strings, now);
      }
    }
  }

  /** A list holding only live ids is left as it is. */
  lemma {:induction false} AllLiveUnchanged(ids: seq<string>, strings: map<Key, StringEntry>, now: int)
    requires forall x :: x in ids ==> IsLive(strings, x, now)
    ensures LiveIds(ids, strings, now) == ids
  {
    if ids != [] {
      AllLiveUnchanged(ids[..|ids| - 1], strings, now);
    }
  }

  /** Only the tail of a room list changes when an id is appended. */
  lemma {:induction false} LiveIdsAppend(ids: seq<string>, x: string, strings: map<Key, StringEntry>, now: int)
    ensures LiveIds(ids + [x], strings, now)
         == LiveIds(ids, strings, now) + (if IsLive(strings, x, now) then [x] else [])
  {
    assert (ids + [x])[..|ids|] == ids;
  }

  /** A body written with the 48-hour expiry is returned until 172800 seconds have passed, and not after. */
  lemma StoredBodyLifetime(strings: map<Key, StringEntry>, m: Message, written: int, now: int)
    ensures BodyAt(strings[MsgKey(m.id) := StringEntry(Body(m), written + 1000 * MSG_TTL)], m.id, now)
         == if now <= written + 172800000 then Some(m) else None
  {
  }

  /**
   * storeMessage: writes the body with the 48-hour expiry and appends its id at
   * the tail of the room list.
   */
  method StoreMessage(store: Store, roomId: string, message: Message, now: int)
    modifies store
    ensures store.strings == old(store.strings)[MsgKey(message.id) := StringEntry(Body(message), now + 1000 * MSG_TTL)]
    ensures store.lists == old(store.lists)[MsgListKey(roomId) := old(ListAt(store.lists, MsgListKey(roomId))) + [message.id]]
    ensures store.sets == old(store.sets) && store.hashes == old(store.hashes)
    ensures BodyAt(store.strings, message.id, now) == Some(message)
  {
    store.Set(MsgKey(message.id), Body(message), MSG_TTL, now);
    store.RPush(MsgListKey(roomId), message.id);
  }

  /** getMessage: the body if its key is live, null otherwise. */
  method GetMessage(store: Store, messageId: string, now: int) returns (m: Option<Message>)
    ensures m == BodyAt(store.strings, messageId, now)
  {
    var data := store.Get(MsgKey(messageId), now);
    m := match data
      case Some(Body(b)) => Some(b)
      case _ => None;
  }

  /**
   * updateMessage: when the key's TTL is at most 0 it answers false and writes
   * nothing; otherwise it replaces the body with the same TTL.
   */
  method UpdateMessage(store: Store, messageId: string, message: Message, now: int) returns (ok: bool)
    modifies store
    ensures ok <==> TtlOf(old(store.strings), MsgKey(messageId), now) > 0
    ensures !ok ==> store.strings == old(store.strings)
    ensures ok ==> store.strings == old(store.strings)[MsgKey(messageId) :=
      StringEntry(Body(message), now + 1000 * TtlOf(old(store.strings), MsgKey(messageId), now))]
    ensures ok ==> TtlOf(store.strings, MsgKey(messageId), now) == TtlOf(old(store.strings), MsgKey(messageId), now)
    ensures ok ==> BodyAt(store.strings, messageId, now) == Some(message)
    ensures store.lists == old(store.lists) && store.sets == old(store.sets) && store.hashes == old(store.hashes)
  {
    var key := MsgKey(messageId);
    var ttl := store.Ttl(key, now);
    if ttl <= 0 {
      return false;
    }
    store.Set(key, Body(message), ttl, now);
    assert (1000 * ttl + 500) / 1000 == ttl;
    ok := true;
  }

  /** deleteMessage: drops the body and every occurrence of its id from the room list. */
  method DeleteMessage(store: Store, roomId: string, messageId: string)
    modifies store
    ensures store.strings == old(store.strings) - {MsgKey(messageId)}
    ensures forall t :: BodyAt(store.strings, messageId, t) == None
    ensures messageId !in ListAt(store.lists, MsgListKey(roomId))
    ensures ListAt(store.lists, MsgListKey(roomId)) == Without(old(ListAt(store.lists, MsgListKey(roomId))), messageId)
    ensures forall k :: k != MsgListKey(roomId) && k != MsgKey(messageId) ==> ListAt(store.lists, k) == old(ListAt(store.lists, k))
    ensures store.sets == old(store.sets) - {MsgKey(messageId)} && store.hashes == old(store.hashes) - {MsgKey(messageId)}
  {
    store.Del(MsgKey(messageId));
    store.LRem(MsgListKey(roomId), messageId);
    WithoutMembers(old(ListAt(store.lists, MsgListKey(roomId))), messageId);
  }

  /**
   * The loop over the MGET replies: the bodies that came back, and the ids whose
   * reply was empty.
   */
  method SplitReplies(ids: seq<string>, replies: seq<Option<Value>>, ghost strings: map<Key, StringEntry>, now: int)
    returns (messages: seq<Message>, staleIds: seq<string>)
    requires |replies| == |ids|
    requires forall i :: 0 <= i < |ids| ==> replies[i] == Lookup(strings, MsgKey(ids[i]), now)
    ensures messages == LiveBodies(ids, strings, now)
    ensures staleIds == StaleIds(ids, strings, now)
  {
    messages := [];
    staleIds := [];
    var i := 0;
    while i < |replies|
      invariant 0 <= i <= |replies|
      invariant messages == LiveBodies(ids[..i], strings, now)
      invariant staleIds == StaleIds(ids[..i], strings, now)
    {
      PrefixStep(ids, i, strings, now);
      if replies[i].Some? && replies[i].value.Body? {
        messages := messages + [replies[i].value.msg];
      } else {
        staleIds := staleIds + [ids[i]];
      }
      i := i + 1;
    }
    assert ids[..i] == ids;
  }

  /** How the live bodies and the stale ids of a prefix grow by one id. */
  lemma PrefixStep(ids: seq<string>, i: int, strings: map<Key, StringEntry>, now: int)
    requires 0 <= i < |ids|
    ensures LiveBodies(ids[..i + 1], strings, now) == LiveBodies(ids[..i], strings, now)
      + (match Lookup(strings, MsgKey(ids[i]), now) case Some(Body(m)) => [m] case _ => [])
    ensures StaleIds(ids[..i + 1], strings, now) == StaleIds(ids[..i], strings, now)
      + (match Lookup(strings, MsgKey(ids[i]), now) case Some(Body(m)) => [] case _ => [ids[i]])
  {
    assert ids[..i + 1][..i] == ids[..i];
  }

  /** The prune: one LREM per stale id, applied in order. */
  method PruneList(store: Store, listKey: Key, ids: seq<string>, staleIds: seq<string>)
    modifies store
    requires listKey in store.lists && store.lists[listKey] == ids
    ensures store.lists == old(store.lists)[listKey := Exclude(ids, staleIds)]
    ensures store.strings == old(store.strings) && store.sets == old(store.sets) && store.hashes == old(store.hashes)
  {
    ExcludeNothing(ids);
    var j := 0;
    while j < |staleIds|
      invariant 0 <= j <= |staleIds|
      invariant listKey in store.lists
      invariant store.lists == old(store.lists)[listKey := Exclude(ids, staleIds[..j])]
      invariant store.strings == old(store.strings) && store.sets == old(store.sets) && store.hashes == old(store.hashes)
    {
      store.LRem(listKey, staleIds[j]);
      ExcludeOneMore(ids, staleIds[..j], staleIds[j]);
      assert staleIds[..j + 1] == staleIds[..j] + [staleIds[j]];
      j := j + 1;
    }
    assert staleIds[..j] == staleIds;
  }

  /**
   * getRoomMessages: the live bodies of the room list, in list order; the list
   * is left holding only the live ids, in their original order. An empty list
   * is not written.
   */
  method GetRoomMessages(store: Store, roomId: string, now: int) returns (messages: seq<Message>)
    modifies store
    ensures messages == LiveBodies(old(ListAt(store.lists, MsgListKey(roomId))), store.strings, now)
    ensures store.lists == if old(ListAt(store.lists, MsgListKey(roomId))) == [] then old(store.lists)
      else old(store.lists)[MsgListKey(roomId) := LiveIds(old(ListAt(store.lists, MsgListKey(roomId))), store.strings, now)]
    ensures store.strings == old(store.strings) && store.sets == old(store.sets) && store.hashes == old(store.hashes)
  {
    var listKey := MsgListKey(roomId);
    var messageIds := store.LRange(listKey);
    if |messageIds| == 0 {
      return [];
    }
    var keys := seq(|messageIds|, i requires 0 <= i < |messageIds| => MsgKey(messageIds[i]));
    var results := store.MGet(keys, now);
    var staleIds;
    messages, staleIds := SplitReplies(messageIds, results, store.strings, now);
    // The prune is issued as a pipeline that nobody awaits; here it is one sequential step.
    PruneList(store, listKey, messageIds, staleIds);
    ExcludeStaleIsLive(messageIds, messageIds, store.strings, now);
  }

  /** addOnlineUser: SADD, so adding twice is adding once. */
  method AddOnlineUser(store: Store, roomId: string, userId: UserId)
    modifies store
    ensures store.sets == old(store.sets)[OnlineKey(roomId) := old(SetAt(store.sets, OnlineKey(roomId))) + {userId}]
    ensures store.strings == old(store.strings) && store.lists == old(store.lists) && store.hashes == old(store.hashes)
  {
    store.SAdd(OnlineKey(roomId), {userId});
  }

  /** removeOnlineUser: SREM, so removing twice is removing once. */
  method RemoveOnlineUser(store: Store, roomId: string, userId: UserId)
    modifies store
    ensures store.sets == SRemoved(old(store.sets), OnlineKey(roomId), userId)
    ensures store.strings == old(store.strings) && store.lists == old(store.lists) && store.hashes == old(store.hashes)
  {
    store.SRem(OnlineKey(roomId), userId);
  }

  /** getOnlineUsers: exactly the members of the room's online set. */
  method GetOnlineUsers(store: Store, roomId: string) returns (users: set<UserId>)
    ensures users == SetAt(store.sets, OnlineKey(roomId))
  {
    users := store.SMembers(OnlineKey(roomId));
  }

  /** setTyping: records the time the user last signalled typing. */
  method SetTyping(store: Store, roomId: string, userId: UserId, now: int)
    modifies store
    ensures store.hashes == old(store.hashes)[TypingKey(roomId) := old(HashAt(store.hashes, TypingKey(roomId)))[userId := now]]
    ensures store.strings == old(store.strings) && store.lists == old(store.lists) && store.sets == old(store.sets)
  {
    store.HSet(TypingKey(roomId), userId, now);
  }

  /** removeTyping: drops the user's typing entry. */
  method RemoveTyping(store: Store, roomId: string, userId: UserId)
    modifies store
    ensures store.hashes == HDeleted(old(store.hashes), TypingKey(roomId), {userId})
    ensures store.strings == old(store.strings) && store.lists == old(store.lists) && store.sets == old(store.sets)
  {
    store.HDel(TypingKey(roomId), {userId});
  }

  /** A typing entry is active while it is younger than five seconds. */
  predicate Typing(h: map<UserId, int>, now: int, u: UserId) {
    u in h && now - h[u] < TYPING_STALE_MS
  }

  /** The typing entries that are still active at `now`. */
  function ActiveTyping(h: map<UserId, int>, now: int): map<UserId, int> {
    map u | u in h && Typing(h, now, u) :: h[u]
  }

  /**
   * The loop over `Object.entries` of the typing hash: ids are visited in
   * ascending order, each one landing in `active` or in `stale`.
   */
  method SplitTyping(entries: map<UserId, int>, now: int) returns (active: seq<UserId>, stale: set<UserId>)
    ensures Sets.StrictlyIncreasing(active)
    ensures forall u :: u in active <==> Typing(entries, now, u)
    ensures entries - stale == ActiveTyping(entries, now)
    ensures stale <= entries.Keys
  {
    var remaining := entries.Keys;
    stale := {};
    active := [];
    SplitStart(entries, now);
    while remaining != {}
      invariant SplitSoFar(entries, now, remaining, active, stale)
      decreases |remaining|
    {
      Sets.HasLeast(remaining);
      var u :| Sets.IsLeast(remaining, u);
      var young := Typing(entries, now, u);
      SplitStep(entries, now, remaining, active, stale, u);
      if young {
        active := active + [u];
      } else {
        stale := stale + {u};
      }
      remaining := remaining - {u};
    }
    SplitDone(entries, now, active, stale);
  }

  /** The loop invariant of `SplitTyping`: the visited ids are split by age, in ascending order. */
  ghost predicate SplitSoFar(entries: map<UserId, int>, now: int, remaining: set<UserId>, active: seq<UserId>, stale: set<UserId>) {
    && remaining <= entries.Keys
    && (forall u :: u in active <==> u in entries && u !in remaining && Typing(entries, now, u))
    && (forall u :: u in stale <==> u in entries && u !in remaining && !Typing(entries, now, u))
    && Sets.StrictlyIncreasing(active)
    && (forall i, v :: 0 <= i < |active| && v in remaining ==> active[i] < v)
  }

  lemma SplitStep(entries: map<UserId, int>, now: int, remaining: set<UserId>, active: seq<UserId>, stale: set<UserId>, u: UserId)
    requires SplitSoFar(entries, now, remaining, active, stale)
    requires Sets.IsLeast(remaining, u)
    ensures Typing(entries, now, u) ==> SplitSoFar(entries, now, remaining - {u}, active + [u], stale)
    ensures !Typing(entries, now, u) ==> SplitSoFar(entries, now, remaining - {u}, active, stale + {u})
  {
    assert forall i :: 0 <= i < |active| ==> active[i] < u;
  }

  lemma SplitStart(entries: map<UserId, int>, now: int)
    ensures SplitSoFar(entries, now, entries.Keys, [], {})
  {
  }

  lemma SplitDone(entries: map<UserId, int>, now: int, active: seq<UserId>, stale: set<UserId>)
    requires SplitSoFar(entries, now, {}, active, stale)
    ensures Sets.StrictlyIncreasing(active)
    ensures forall u :: u in active <==> Typing(entries, now, u)
    ensures entries - stale == ActiveTyping(entries, now)
    ensures stale <= entries.Keys
  {
    assert entries - stale == ActiveTyping(entries, now);
  }

  /**
   * getTypingUsers: the users whose entry is younger than five seconds, in
   * ascending id order (the order JavaScript gives integer-like object keys);
   * every other entry is deleted from the hash.
   */
  method GetTypingUsers(store: Store, roomId: string, now: int) returns (active: seq<UserId>)
    modifies store
    ensures Sets.StrictlyIncreasing(active)
    ensures forall u :: u in active <==> Typing(old(HashAt(store.hashes, TypingKey(roomId))), now, u)
    ensures active == Sets.Ascend(ActiveTyping(old(HashAt(store.hashes, TypingKey(roomId))), now).Keys)
    ensures HashAt(store.hashes, TypingKey(roomId)) == ActiveTyping(old(HashAt(store.hashes, TypingKey(roomId))), now)
    ensures forall k :: k != TypingKey(roomId) ==> HashAt(store.hashes, k) == old(HashAt(store.hashes, k))
    ensures store.strings == old(store.strings) && store.lists == old(store.lists) && store.sets == old(store.sets)
  {
    var key := TypingKey(roomId);
    var entries := store.HGetAll(key);
    var stale;
    active, stale := SplitTyping(entries, now);
    Sets.AscendUnique(active, ActiveTyping(entries, now).Keys);
    if stale != {} {
      store.HDel(key, stale);
    } else {
      assert entries - stale == entries;
    }
  }
}
