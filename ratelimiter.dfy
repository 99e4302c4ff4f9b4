/**
 * The per-user message rate limit (server/socket/rateLimiter.js): one allowed
 * action per user per second, kept as a one-second `SET NX` key.
 */
module RateLimiter {
  import opened Wrappers
  import opened Chat
  import opened Redis

  /** The limiter key lives this many seconds. */
  const WINDOW_SECONDS: int := 1

  /** An action is allowed when the user's limiter key is not live. */
  predicate Allowed(strings: map<Key, StringEntry>, userId: UserId, now: int) {
    Lookup(strings, RateLimitKey(userId), now).None?
  }

  /** The string keys after a `checkRateLimit` call. */
  function AfterCheck(strings: map<Key, StringEntry>, userId: UserId, now: int): map<Key, StringEntry> {
    if Allowed(strings, userId, now)
    then strings[RateLimitKey(userId) := StringEntry(Flag("1"), now + 1000 * WINDOW_SECONDS)]
    else strings
  }

  /** checkRateLimit: true, and the key set for one second, only when it was not live. */
  method CheckRateLimit(store: Store, userId: UserId, now: int) returns (allowed: bool)
    modifies store
    ensures allowed <==> Allowed(old(store.strings), userId, now)
    ensures store.strings == AfterCheck(old(store.strings), userId, now)
    ensures store.lists == old(store.lists) && store.sets == old(store.sets) && store.hashes == old(store.hashes)
  {
    allowed := store.SetNx(RateLimitKey(userId), Flag("1"), WINDOW_SECONDS, now);
  }

  /** One call of `checkRateLimit`: who asked, and when. */
  datatype Call = Call(userId: UserId, time: int)

  /** The answers a sequence of calls receives, each applied to the state the previous ones left. */
  function Answers(strings: map<Key, StringEntry>, calls: seq<Call>): (r: seq<bool>)
    ensures |r| == |calls|
    decreases |calls|
  {
    if calls == [] then []
    else
      var c := calls[0];
      [Allowed(strings, c.userId, c.time)] + Answers(AfterCheck(strings, c.userId, c.time), calls[1..])
  }

  /**
   * While a user's key expires no earlier than `e`, none of that user's calls
   * at or before `e` is allowed, in whatever order the calls' clocks run.
   */
  lemma {:induction false} NothingAllowedBefore(strings: map<Key, StringEntry>, calls: seq<Call>, userId: UserId, e: int)
    requires RateLimitKey(userId) in strings && strings[RateLimitKey(userId)].expireAt >= e
    ensures forall i :: 0 <= i < |calls| && calls[i].userId == userId && Answers(strings, calls)[i] ==> calls[i].time > e
    decreases |calls|
  {
    if calls != [] {
      var next := AfterCheck(strings, calls[0].userId, calls[0].time);
      NothingAllowedBefore(next, calls[1..], userId, e);
      forall i | 0 <= i < |calls| && calls[i].userId == userId && Answers(strings, calls)[i]
        ensures calls[i].time > e
      {
        if i > 0 {
          assert Answers(strings, calls)[i] == Answers(next, calls[1..])[i - 1];
          assert calls[i] == calls[1..][i - 1];
        }
      }
    }
  }

  /**
   * Two allowed calls of the same user are more than a second apart: the later
   * call comes more than 1000 ms after the earlier one.
   */
  lemma {:induction false} AllowedCallsSpaced(strings: map<Key, StringEntry>, calls: seq<Call>)
    ensures forall i, j ::
              0 <= i < j < |calls| && calls[i].userId == calls[j].userId &&
              Answers(strings, calls)[i] && Answers(strings, calls)[j] ==>
                calls[j].time > calls[i].time + 1000
    decreases |calls|
  {
    if calls != [] {
      var next := AfterCheck(strings, calls[0].userId, calls[0].time);
      AllowedCallsSpaced(next, calls[1..]);
      var answers := Answers(strings, calls);
      if answers[0] {
        NothingAllowedBefore(next, calls[1..], calls[0].userId, calls[0].time + 1000);
      }
      forall i, j | 0 <= i < j < |calls| && calls[i].userId == calls[j].userId && answers[i] && answers[j]
        ensures calls[j].time > calls[i].time + 1000
      {
        assert answers[j] == Answers(next, calls[1..])[j - 1];
        assert calls[j] == calls[1..][j - 1];
        if i > 0 {
          assert answers[i] == Answers(next, calls[1..])[i - 1];
          assert calls[i] == calls[1..][i - 1];
        }
      }
    }
  }

  /** Once the window has passed, the user's next call is allowed again. */
  lemma AllowedAfterWindow(strings: map<Key, StringEntry>, userId: UserId, t: int, later: int)
    requires Allowed(strings, userId, t)
    requires later > t + 1000
    ensures Allowed(AfterCheck(strings, userId, t), userId, later)
  {
  }

  /** A call of one user never changes whether another user's call is allowed. */
  lemma UsersIndependent(strings: map<Key, StringEntry>, u: UserId, t: int, v: UserId, later: int)
    requires u != v
    ensures Allowed(AfterCheck(strings, u, t), v, later) == Allowed(strings, v, later)
  {
  }
}
