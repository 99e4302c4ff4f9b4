/**
 * Global presence and the block-list cache (server/redis/presence.js): a
 * global online set and, per user, a cached set of the ids that user blocked.
 */
module Presence {
  import opened Chat
  import opened Redis

  /** addGlobalOnline: SADD on the global online set. */
  method AddGlobalOnline(store: Store, userId: UserId)
    modifies store
    ensures SetAt(store.sets, GlobalOnlineKey) == old(SetAt(store.sets, GlobalOnlineKey)) + {userId}
    ensures forall k :: k != GlobalOnlineKey ==> SetAt(store.sets, k) == old(SetAt(store.sets, k))
    ensures store.strings == old(store.strings) && store.lists == old(store.lists) && store.hashes == old(store.hashes)
  {
    store.SAdd(GlobalOnlineKey, {userId});
  }

  /** removeGlobalOnline: SREM on the global online set. */
  method RemoveGlobalOnline(store: Store, userId: UserId)
    modifies store
    ensures SetAt(store.sets, GlobalOnlineKey) == old(SetAt(store.sets, GlobalOnlineKey)) - {userId}
    ensures forall k :: k != GlobalOnlineKey ==> SetAt(store.sets, k) == old(SetAt(store.sets, k))
    ensures store.strings == old(store.strings) && store.lists == old(store.lists) && store.hashes == old(store.hashes)
  {
    store.SRem(GlobalOnlineKey, userId);
  }

  /** Whether a user is in the global online set. */
  predicate Online(sets: map<Key, set<UserId>>, userId: UserId) {
    userId in SetAt(sets, GlobalOnlineKey)
  }

  /** isGlobalOnline: SISMEMBER on the global online set. */
  method IsGlobalOnline(store: Store, userId: UserId) returns (online: bool)
    ensures online <==> Online(store.sets, userId)
  {
    online := store.SIsMember(GlobalOnlineKey, userId);
  }

  /**
   * getMultipleOnlineStatus: one entry per requested id (a repeated id keeps
   * one entry), true exactly for the ids in the global online set; an empty
   * request gives an empty object.
   */
  method GetMultipleOnlineStatus(store: Store, userIds: seq<UserId>) returns (status: map<UserId, bool>)
    ensures status.Keys == set u | u in userIds
    ensures forall u :: u in status ==> (status[u] <==> Online(store.sets, u))
  {
    if |userIds| == 0 {
      return map[];
    }
    status := map[];
    var i := 0;
    while i < |userIds|
      invariant 0 <= i <= |userIds|
      invariant status.Keys == set u | u in userIds[..i]
      invariant forall u :: u in status ==> (status[u] <==> Online(store.sets, u))
    {
      var online := store.SIsMember(GlobalOnlineKey, userIds[i]);
      status := status[userIds[i] := online];
      assert userIds[..i + 1] == userIds[..i] + [userIds[i]];
      i := i + 1;
    }
    assert userIds[..i] == userIds;
  }

  /**
   * cacheBlockList: the cached set of a user is replaced by exactly the given
   * ids (DEL, then SADD when there is anything to add).
   */
  method CacheBlockList(store: Store, userId: UserId, blockedIds: seq<UserId>)
    modifies store
    ensures SetAt(store.sets, BlocksKey(userId)) == set b | b in blockedIds
    ensures forall k :: k != BlocksKey(userId) ==> SetAt(store.sets, k) == old(SetAt(store.sets, k))
    ensures store.strings == old(store.strings) - {BlocksKey(userId)}
    ensures store.lists == old(store.lists) - {BlocksKey(userId)}
    ensures store.hashes == old(store.hashes) - {BlocksKey(userId)}
  {
    var key := BlocksKey(userId);
    store.Del(key);
    if |blockedIds| > 0 {
      store.SAdd(key, set b | b in blockedIds);
    }
  }

  /** clearBlockCache: drops the cached set of a user. */
  method ClearBlockCache(store: Store, userId: UserId)
    modifies store
    ensures SetAt(store.sets, BlocksKey(userId)) == {}
    ensures forall k :: k != BlocksKey(userId) ==> SetAt(store.sets, k) == old(SetAt(store.sets, k))
    ensures store.strings == old(store.strings) - {BlocksKey(userId)}
    ensures store.lists == old(store.lists) - {BlocksKey(userId)}
    ensures store.hashes == old(store.hashes) - {BlocksKey(userId)}
  {
    store.Del(BlocksKey(userId));
  }

  /** Either user's cached block set names the other. */
  predicate BlockedBetween(sets: map<Key, set<UserId>>, a: UserId, b: UserId) {
    b in SetAt(sets, BlocksKey(a)) || a in SetAt(sets, BlocksKey(b))
  }

  /** isBlockedBetween: looks in both users' cached sets. */
  method IsBlockedBetween(store: Store, a: UserId, b: UserId) returns (blocked: bool)
    ensures blocked <==> BlockedBetween(store.sets, a, b)
    ensures blocked <==> BlockedBetween(store.sets, b, a)
  {
    var aBlocksB := store.SIsMember(BlocksKey(a), b);
    var bBlocksA := store.SIsMember(BlocksKey(b), a);
    blocked := aBlocksB || bBlocksA;
  }

  /**
   * After `a`'s list is cached, `a` and `b` are blocked from each other exactly
   * when `b` is on that list or `a` is on `b`'s cached list.
   */
  lemma CachedListDecides(sets: map<Key, set<UserId>>, a: UserId, blockedIds: seq<UserId>, b: UserId)
    requires a != b
    ensures BlockedBetween(sets[BlocksKey(a) := set x | x in blockedIds], a, b)
        <==> b in blockedIds || a in SetAt(sets, BlocksKey(b))
  {
  }
}
