/**
 * middleware/auth.go: a request passes when Authorize accepts its bearer
 * token and the user has made at most 100 requests in the current
 * two-minute window; the counter is one cache key per user, given its
 * lifetime by the request that creates it.
 */
module AuthMiddleware {
  import opened Wrappers
  import Strconv
  import Cache
  import AuthServices

  const RateLimit: int := 100
  /** The window, in seconds, that the first request of a window sets on the counter. */
  const RateWindow: int := 120

  /** A response written here, or the request handed on with the user ID in its context. */
  datatype Outcome = Respond(status: int, body: map<string, string>) | Forward(userId: string)

  /**
   * The counter key. The source formats the string ID with the integer verb
   * %d, so Go writes the operand as "%!d(string=<id>)" into the key.
   */
  function RateKey(userId: string): string {
    "rate_limit:user:%!d(string=" + userId + ")"
  }

  /** Different users never share a counter. */
  lemma RateKeyInjective(a: string, b: string)
    requires RateKey(a) == RateKey(b)
    ensures a == b
  {
    var p := "rate_limit:user:%!d(string=";
    assert |a| == |b|;
    assert a == RateKey(a)[|p|..|RateKey(a)| - 1];
    assert b == RateKey(b)[|p|..|RateKey(b)| - 1];
  }

  /** The count INCR reports; a failed INCR reads as 0. */
  function IncrCount(ks: Cache.Keyspace, key: string): (r: int)
    ensures Cache.Incremented(ks, key).Some? ==> r == Cache.CountIn(ks, key) + 1
    ensures Cache.Incremented(ks, key).None? ==> r == 0
  {
    match Cache.Incremented(ks, key)
    case Some(p) => Cache.IncrementAddsOne(ks, key); p.1
    case None => 0
  }

  /** A counter that holds a number or is absent: the only kind INCR itself writes. */
  predicate Counting(ks: Cache.Keyspace, key: string) {
    key in ks ==> Strconv.Atoi(ks[key].value).Some?
  }

  method Handle(auth: AuthServices.AuthService, header: string) returns (out: Outcome)
    modifies auth.cache
    ensures auth.cache.up == old(auth.cache.up)
    ensures old(auth.Authorize(header)).Err? ==>
              out == Respond(401, map["error" := "unauthorized"]) && unchanged(auth.cache)
    ensures old(auth.Authorize(header)).Ok? ==>
              var id := old(auth.Authorize(header)).value;
              var key := RateKey(id);
              var count := IncrCount(old(auth.cache.keys), key);
              && auth.cache.keys == (if count == 1 then Cache.WithExpiry(Cache.AfterIncr(old(auth.cache.keys), key), key, RateWindow)
                                     else Cache.AfterIncr(old(auth.cache.keys), key))
              && out == (if count > RateLimit then Respond(429, map["error" := "rate limit exceeded, try later"])
                         else Forward(id))
    // the request is let through exactly while fewer than 100 earlier requests were counted
    ensures old(auth.Authorize(header)).Ok? && Counting(old(auth.cache.keys), RateKey(old(auth.Authorize(header)).value)) ==>
              (out.Forward? <==> Cache.CountIn(old(auth.cache.keys), RateKey(old(auth.Authorize(header)).value)) < RateLimit)
    // the first request of a window starts the window
    ensures old(auth.Authorize(header)).Ok? && RateKey(old(auth.Authorize(header)).value) !in old(auth.cache.keys) ==>
              auth.cache.keys[RateKey(old(auth.Authorize(header)).value)].ttl == Some(RateWindow)
    ensures out.Forward? ==> Strconv.Atoi(out.userId).Some?
  {
    var authorized := auth.Authorize(header);
    if authorized.Err? {
      return Respond(401, map["error" := "unauthorized"]);
    }
    var userId := authorized.value;
    var key := RateKey(userId);
    var reply := auth.cache.Incr(key);
    var count := if reply.Some? then reply.value else 0;
    if count == 1 {
      auth.cache.Expire(key, RateWindow);
    }
    if count > RateLimit {
      return Respond(429, map["error" := "rate limit exceeded, try later"]);
    }
    return Forward(userId);
  }
}
