/**
 * The fixed-window HTTP rate limiter: one counter per (bucket, client address),
 * reset when its one-minute window has run out, and a periodic sweep that drops
 * counters whose window is over. The clock is the `now` parameter, in milliseconds.
 */
module HttpRateLimit {
  const WINDOW_MS := 60000
  const MAX_REQUESTS := 30
  const AUTH_MAX := 5
  const AUTH_PATHS: seq<string> := ["/api/auth/login", "/api/auth/register", "/api/auth/request-reset"]

  /**
   * The counter keys `auth:<ip>` and `gen:<ip>`: the two prefixes differ, so
   * the two buckets of one address never share a counter.
   */
  datatype RateKey = AuthKey(ip: string) | GenKey(ip: string)

  /** A counter: the requests seen in the current window and the window's end. */
  datatype Entry = Entry(count: int, resetTime: int)

  /** One incoming request. */
  datatype Request = Request(verb: string, path: string, ip: string, now: int)

  function KeyOf(path: string, ip: string): (k: RateKey)
    ensures k.ip == ip
    ensures k.AuthKey? <==> path in AUTH_PATHS
  {
    if path in AUTH_PATHS then AuthKey(ip) else GenKey(ip)
  }

  function LimitOf(k: RateKey): (n: int)
    ensures n == if k.AuthKey? then 5 else 30
  {
    if k.AuthKey? then AUTH_MAX else MAX_REQUESTS
  }

  /** An entry whose window is over: the clock is past its reset time. */
  predicate Expired(e: Entry, now: int) {
    now > e.resetTime
  }

  /**
   * The counter of `k` after one more request at `now`: a missing or expired
   * counter restarts a window at zero, and the request is then counted
   * whether or not it is let through.
   */
  function Admit(entries: map<RateKey, Entry>, k: RateKey, now: int): (e: Entry)
    ensures k in entries && !Expired(entries[k], now) ==> e == Entry(entries[k].count + 1, entries[k].resetTime)
    ensures k !in entries || Expired(entries[k], now) ==> e == Entry(1, now + WINDOW_MS)
  {
    var base := if k !in entries || Expired(entries[k], now) then Entry(0, now + WINDOW_MS) else entries[k];
    Entry(base.count + 1, base.resetTime)
  }

  /** The counters after a request, and whether it is let through. */
  datatype Outcome = Outcome(entries: map<RateKey, Entry>, passed: bool)

  function Decide(entries: map<RateKey, Entry>, r: Request): Outcome {
    if r.verb == "GET" then Outcome(entries, true)
    else
      var k := KeyOf(r.path, r.ip);
      var e := Admit(entries, k, r.now);
      Outcome(entries[k := e], e.count <= LimitOf(k))
  }

  /**
   * A GET request changes nothing, and any other request changes only its own
   * counter: the `auth` and `gen` counters of one address are independent.
   */
  lemma OnlyOwnCounter(entries: map<RateKey, Entry>, r: Request, other: RateKey)
    requires r.verb == "GET" || other != KeyOf(r.path, r.ip)
    ensures r.verb == "GET" ==> Decide(entries, r) == Outcome(entries, true)
    ensures other in Decide(entries, r).entries <==> other in entries
    ensures other in entries ==> Decide(entries, r).entries[other] == entries[other]
  {
  }

  /** How many of `reqs`, handled in order, are counted against `k` and let through. */
  function Passes(entries: map<RateKey, Entry>, reqs: seq<Request>, k: RateKey): nat
    decreases |reqs|
  {
    if reqs == [] then 0
    else
      var step := Decide(entries, reqs[0]);
      var counted := reqs[0].verb != "GET" && KeyOf(reqs[0].path, reqs[0].ip) == k;
      (if counted && step.passed then 1 else 0) + Passes(step.entries, reqs[1..], k)
  }

  predicate InWindow(reqs: seq<Request>, resetTime: int) {
    forall i :: 0 <= i < |reqs| ==> reqs[i].now <= resetTime
  }

  /**
   * While a counter's window lasts, the requests let through against it are at
   * most the limit minus what it has already counted.
   */
  lemma {:induction false} WindowBound(entries: map<RateKey, Entry>, reqs: seq<Request>, k: RateKey)
    requires k in entries && entries[k].count >= 0
    requires InWindow(reqs, entries[k].resetTime)
    ensures Passes(entries, reqs, k) <= if LimitOf(k) >= entries[k].count then LimitOf(k) - entries[k].count else 0
    decreases |reqs|
  {
    if reqs != [] {
      var step := Decide(entries, reqs[0]);
      assert k in step.entries && step.entries[k].resetTime == entries[k].resetTime;
      assert InWindow(reqs[1..], entries[k].resetTime) by {
        forall i | 0 <= i < |reqs[1..]| ensures reqs[1..][i].now <= entries[k].resetTime {
          assert reqs[1..][i] == reqs[i + 1];
        }
      }
      WindowBound(step.entries, reqs[1..], k);
    }
  }

  /**
   * A window opened by a request at `t0` lets at most the limit of requests
   * through against its counter, however many arrive before `t0 + WINDOW_MS`.
   */
  lemma FreshWindowBound(entries: map<RateKey, Entry>, reqs: seq<Request>)
    requires |reqs| > 0 && reqs[0].verb != "GET"
    requires var k := KeyOf(reqs[0].path, reqs[0].ip); k !in entries || Expired(entries[k], reqs[0].now)
    requires InWindow(reqs, reqs[0].now + WINDOW_MS)
    ensures Passes(entries, reqs, KeyOf(reqs[0].path, reqs[0].ip)) <= LimitOf(KeyOf(reqs[0].path, reqs[0].ip))
  {
    var k := KeyOf(reqs[0].path, reqs[0].ip);
    var step := Decide(entries, reqs[0]);
    assert step.entries[k] == Entry(1, reqs[0].now + WINDOW_MS);
    assert InWindow(reqs[1..], reqs[0].now + WINDOW_MS) by {
      forall i | 0 <= i < |reqs[1..]| ensures reqs[1..][i].now <= reqs[0].now + WINDOW_MS {
        assert reqs[1..][i] == reqs[i + 1];
      }
    }
    WindowBound(step.entries, reqs[1..], k);
  }

  /** The counters left by a sweep at `now`: exactly those whose window is not over. */
  function Swept(entries: map<RateKey, Entry>, now: int): (r: map<RateKey, Entry>)
    ensures forall k :: k in r <==> k in entries && !Expired(entries[k], now)
    ensures forall k :: k in r ==> r[k] == entries[k]
  {
    map k | k in entries && !Expired(entries[k], now) :: entries[k]
  }

  /**
   * A sweep is invisible to later requests: a counter it drops would have been
   * restarted by the next request anyway.
   */
  lemma SweepUnobservable(entries: map<RateKey, Entry>, now: int, r: Request)
    requires r.now >= now
    ensures Decide(Swept(entries, now), r).passed == Decide(entries, r).passed
    ensures r.verb != "GET" ==> var k := KeyOf(r.path, r.ip); Decide(Swept(entries, now), r).entries[k] == Decide(entries, r).entries[k]
  {
  }

  class Limiter {
    var entries: map<RateKey, Entry>

    constructor ()
      ensures entries == map[]
    {
      entries := map[];
    }

    /**
     * The middleware: GET passes untouched; any other request is counted
     * against its bucket and passes iff the count stays within the limit.
     */
    method Handle(r: Request) returns (passed: bool)
      modifies this
      ensures Outcome(entries, passed) == Decide(old(entries), r)
    {
      if r.verb == "GET" {
        return true;
      }
      var isAuth := r.path in AUTH_PATHS;
      var key := if isAuth then AuthKey(r.ip) else GenKey(r.ip);
      var limit := if isAuth then AUTH_MAX else MAX_REQUESTS;
      var entry: Entry;
      if key !in entries || r.now > entries[key].resetTime {
        entry := Entry(0, r.now + WINDOW_MS);
      } else {
        entry := entries[key];
      }
      entry := entry.(count := entry.count + 1);
      entries := entries[key := entry];
      passed := entry.count <= limit;
    }

    /** The periodic sweep: deletes every counter whose window is over. */
    method Sweep(now: int)
      modifies this
      ensures entries == Swept(old(entries), now)
    {
      var todo := entries.Keys;
      while todo != {}
        invariant todo <= old(entries).Keys
        invariant entries == map k | k in old(entries) && (k in todo || !Expired(old(entries)[k], now)) :: old(entries)[k]
        decreases todo
      {
        var k :| k in todo;
        if now > entries[k].resetTime {
          entries := entries - {k};
        }
        todo := todo - {k};
      }
    }
  }
}
