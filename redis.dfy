/**
 * The in-memory key/value store the live-messaging engine runs on, with the
 * semantics of the few Redis commands the server uses. Time is an explicit
 * parameter in milliseconds; only string keys carry an expiry.
 */
module Redis {
  import opened Wrappers
  import opened Chat

  /**
   * The keys the server uses. Each constructor stands for one key pattern, so
   * distinct patterns or arguments give distinct keys.
   */
  datatype Key =
    | MsgKey(messageId: string)     // bbb:msg:<messageId>
    | MsgListKey(roomId: string)    // bbb:room:<roomId>:msglist
    | OnlineKey(roomId: string)     // bbb:room:<roomId>:online
    | TypingKey(roomId: string)     // bbb:room:<roomId>:typing
    | GlobalOnlineKey               // bbb:online
    | BlocksKey(userId: UserId)        // bbb:blocks:<userId>
    | RateLimitKey(userId: UserId)     // bbb:ratelimit:<userId>

  /** The value of a string key: a message body (JSON encoding is the identity) or a plain flag such as "1". */
  datatype Value = Body(msg: Message) | Flag(text: string)

  /** A string key's value together with its absolute expiry time in milliseconds. */
  datatype StringEntry = StringEntry(value: Value, expireAt: int)

  /** Redis treats a key as expired only once the clock has passed its expiry time. */
  predicate Live(e: StringEntry, now: int) {
    now <= e.expireAt
  }

  /** GET: the value of a live key. */
  function Lookup(strings: map<Key, StringEntry>, k: Key, now: int): Option<Value> {
    if k in strings && Live(strings[k], now) then Some(strings[k].value) else None
  }

  /**
   * TTL: -2 for a missing or expired key, otherwise the remaining time rounded
   * to the nearest second, as Redis replies (every key here has an expiry).
   */
  function TtlOf(strings: map<Key, StringEntry>, k: Key, now: int): (t: int)
    ensures t == -2 <==> Lookup(strings, k, now).None?
    ensures Lookup(strings, k, now).Some? ==> t >= 0
  {
    if Lookup(strings, k, now).None? then -2 else (strings[k].expireAt - now + 500) / 1000
  }

  /** A list key's elements, empty when the key does not exist. */
  function ListAt(lists: map<Key, seq<string>>, k: Key): seq<string> {
    if k in lists then lists[k] else []
  }

  /** A set key's members, empty when the key does not exist. */
  function SetAt(sets: map<Key, set<UserId>>, k: Key): set<UserId> {
    if k in sets then sets[k] else {}
  }

  /** A hash key's fields, empty when the key does not exist. */
  function HashAt(hashes: map<Key, map<UserId, int>>, k: Key): map<UserId, int> {
    if k in hashes then hashes[k] else map[]
  }

  /** What SREM k x leaves: `x` gone from key `k`, every other key as it was. */
  function SRemoved(sets: map<Key, set<UserId>>, k: Key, x: UserId): (r: map<Key, set<UserId>>)
    ensures SetAt(r, k) == SetAt(sets, k) - {x}
    ensures forall j :: j != k ==> SetAt(r, j) == SetAt(sets, j)
  {
    if k in sets then sets[k := sets[k] - {x}] else sets
  }

  /** What HDEL k fields leaves: those fields gone from key `k`, every other key as it was. */
  function HDeleted(hashes: map<Key, map<UserId, int>>, k: Key, fields: set<UserId>): (r: map<Key, map<UserId, int>>)
    ensures HashAt(r, k) == HashAt(hashes, k) - fields
    ensures forall j :: j != k ==> HashAt(r, j) == HashAt(hashes, j)
  {
    if k in hashes then hashes[k := hashes[k] - fields] else hashes
  }

  /** LREM with count 0: every occurrence of `x` removed, the rest in order. */
  function Without(s: seq<string>, x: string): (r: seq<string>)
    ensures |r| <= |s|
  {
    if s == [] then []
    else Without(s[..|s| - 1], x) + (if s[|s| - 1] == x then [] else [s[|s| - 1]])
  }

  /** LREM keeps every element other than `x` and no occurrence of `x`. */
  lemma {:induction false} WithoutMembers(s: seq<string>, x: string)
    ensures forall y :: y in Without(s, x) <==> y in s && y != x
  {
    if s != [] {
      WithoutMembers(s[..|s| - 1], x);
      assert s == s[..|s| - 1] + [s[|s| - 1]];
    }
  }

  class Store {
    var strings: map<Key, StringEntry>
    var lists: map<Key, seq<string>>
    var sets: map<Key, set<UserId>>
    var hashes: map<Key, map<UserId, int>>

    /** An empty store. */
    constructor ()
      ensures strings == map[] && lists == map[] && sets == map[] && hashes == map[]
    {
      strings, lists, sets, hashes := map[], map[], map[], map[];
    }

    /** SET k v EX ttlSeconds. */
    method Set(k: Key, v: Value, ttlSeconds: int, now: int)
      modifies this
      ensures strings == old(strings)[k := StringEntry(v, now + 1000 * ttlSeconds)]
      ensures lists == old(lists) && sets == old(sets) && hashes == old(hashes)
    {
      strings := strings[k := StringEntry(v, now + 1000 * ttlSeconds)];
    }

    /** SET k v EX ttlSeconds NX: writes, and answers OK, only when the key is not live. */
    method SetNx(k: Key, v: Value, ttlSeconds: int, now: int) returns (ok: bool)
      modifies this
      ensures ok <==> Lookup(old(strings), k, now).None?
      ensures strings == if ok then old(strings)[k := StringEntry(v, now + 1000 * ttlSeconds)] else old(strings)
      ensures lists == old(lists) && sets == old(sets) && hashes == old(hashes)
    {
      ok := Lookup(strings, k, now).None?;
      if ok {
        strings := strings[k := StringEntry(v, now + 1000 * ttlSeconds)];
      }
    }

    /** GET k. */
    method Get(k: Key, now: int) returns (v: Option<Value>)
      ensures v == Lookup(strings, k, now)
    {
      v := Lookup(strings, k, now);
    }

    /** MGET k1 k2 ...: one round trip, one answer per key, in key order. */
    method MGet(ks: seq<Key>, now: int) returns (vs: seq<Option<Value>>)
      ensures |vs| == |ks|
      ensures forall i :: 0 <= i < |ks| ==> vs[i] == Lookup(strings, ks[i], now)
    {
      vs := seq(|ks|, i requires 0 <= i < |ks| reads this => Lookup(strings, ks[i], now));
    }

    /** TTL k. */
    method Ttl(k: Key, now: int) returns (t: int)
      ensures t == TtlOf(strings, k, now)
    {
      t := TtlOf(strings, k, now);
    }

    /** DEL k, whatever kind of value it holds. */
    method Del(k: Key)
      modifies this
      ensures strings == old(strings) - {k} && lists == old(lists) - {k}
      ensures sets == old(sets) - {k} && hashes == old(hashes) - {k}
    {
      strings, lists, sets, hashes := strings - {k}, lists - {k}, sets - {k}, hashes - {k};
    }

    /** RPUSH k x. */
    method RPush(k: Key, x: string)
      modifies this
      ensures lists == old(lists)[k := ListAt(old(lists), k) + [x]]
      ensures strings == old(strings) && sets == old(sets) && hashes == old(hashes)
    {
      lists := lists[k := ListAt(lists, k) + [x]];
    }

    /** LRANGE k 0 -1. */
    method LRange(k: Key) returns (xs: seq<string>)
      ensures xs == ListAt(lists, k)
    {
      xs := ListAt(lists, k);
    }

    /** LREM k 0 x. */
    method LRem(k: Key, x: string)
      modifies this
      ensures lists == if k in old(lists) then old(lists)[k := Without(old(lists)[k], x)] else old(lists)
      ensures strings == old(strings) && sets == old(sets) && hashes == old(hashes)
    {
      if k in lists {
        lists := lists[k := Without(lists[k], x)];
      }
    }

    /** SADD k x1 x2 ... */
    method SAdd(k: Key, xs: set<UserId>)
      modifies this
      ensures sets == old(sets)[k := SetAt(old(sets), k) + xs]
      ensures strings == old(strings) && lists == old(lists) && hashes == old(hashes)
    {
      sets := sets[k := SetAt(sets, k) + xs];
    }

    /** SREM k x. */
    method SRem(k: Key, x: UserId)
      modifies this
      ensures sets == SRemoved(old(sets), k, x)
      ensures strings == old(strings) && lists == old(lists) && hashes == old(hashes)
    {
      if k in sets {
        sets := sets[k := sets[k] - {x}];
      }
    }

    /** SMEMBERS k. */
    method SMembers(k: Key) returns (xs: set<UserId>)
      ensures xs == SetAt(sets, k)
    {
      xs := SetAt(sets, k);
    }

    /** SISMEMBER k x. */
    method SIsMember(k: Key, x: UserId) returns (b: bool)
      ensures b <==> x in SetAt(sets, k)
    {
      b := x in SetAt(sets, k);
    }

    /** HSET k field value. */
    method HSet(k: Key, field: UserId, value: int)
      modifies this
      ensures hashes == old(hashes)[k := HashAt(old(hashes), k)[field := value]]
      ensures strings == old(strings) && lists == old(lists) && sets == old(sets)
    {
      hashes := hashes[k := HashAt(hashes, k)[field := value]];
    }

    /** HDEL k field1 field2 ... */
    method HDel(k: Key, fields: set<UserId>)
      modifies this
      ensures hashes == HDeleted(old(hashes), k, fields)
      ensures strings == old(strings) && lists == old(lists) && sets == old(sets)
    {
      if k in hashes {
        hashes := hashes[k := hashes[k] - fields];
      }
    }

    /** HGETALL k. */
    method HGetAll(k: Key) returns (h: map<UserId, int>)
      ensures h == HashAt(hashes, k)
    {
      h := HashAt(hashes, k);
    }
  }
}
