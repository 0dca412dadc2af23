/**
 * middleware/authorize.go with service/authorize.go: a request proceeds when
 * the permission list of the user in its context holds the required
 * permission. The list is read from the cache and, when the cache has no
 * usable non-empty list, from the store, which then refills the cache for
 * 100 seconds.
 */
module PermissionMiddleware {
  import opened Wrappers
  import Strconv
  import Cache
  import Repositories
  import JsonList

  const PermissionTtl: int := 100

  /** What the request context holds under the user-ID key. */
  datatype CtxValue = CtxString(s: string) | CtxInt(n: int) | CtxOther | CtxAbsent

  datatype Outcome = Respond(status: int, body: map<string, string>) | Proceed

  function PermissionKey(userId: int): string {
    "user_perm_" + Strconv.Itoa(userId)
  }

  /** Each user's list is cached under a key of its own. */
  lemma PermissionKeyInjective(a: int, b: int)
    requires PermissionKey(a) == PermissionKey(b)
    ensures a == b
  {
    var p := "user_perm_";
    assert Strconv.Itoa(a) == PermissionKey(a)[|p|..];
    assert Strconv.Itoa(b) == PermissionKey(b)[|p|..];
    Strconv.ItoaInjective(a, b);
  }

  /** The user ID in the context: a decimal string or an int. */
  function ContextUserId(v: CtxValue): (r: Option<int>)
    ensures v.CtxInt? ==> r == Some(v.n)
    ensures v.CtxString? ==> r == Strconv.Atoi(v.s)
    ensures v.CtxOther? || v.CtxAbsent? ==> r.None?
  {
    match v
    case CtxString(s) => Strconv.Atoi(s)
    case CtxInt(n) => Some(n)
    case _ => None
  }

  /** The list a cache reply yields; a miss, a failure or a value that does not decode yield none. */
  function CachedPermissions(reply: Cache.Reply): (ps: seq<string>)
    ensures reply.Hit? && JsonList.Unmarshal(reply.value).Some? ==> ps == JsonList.Unmarshal(reply.value).value
    ensures !reply.Hit? ==> ps == []
  {
    if reply.Hit? then
      match JsonList.Unmarshal(reply.value)
      case Some(ps) => ps
      case None => []
    else []
  }

  /** The source's scan of the list, stopping at the first match. */
  method HasPermission(perms: seq<string>, permission: string) returns (found: bool)
    ensures found <==> permission in perms
  {
    found := false;
    var i := 0;
    while i < |perms|
      invariant 0 <= i <= |perms|
      invariant !found
      invariant permission !in perms[..i]
    {
      if perms[i] == permission {
        found := true;
        break;
      }
      i := i + 1;
    }
  }

  class AuthorizeService {
    const store: Repositories.PermissionStore
    const cache: Cache.Redis

    constructor (store: Repositories.PermissionStore, cache: Cache.Redis)
      ensures this.store == store && this.cache == cache
    {
      this.store := store;
      this.cache := cache;
    }
  }

  const Unauthorized: Outcome := Respond(401, map["error" := "unauthorized"])
  const InvalidUserId: Outcome := Respond(500, map["error" := "invalid user id"])
  const StoreFailure: Outcome := Respond(500, map["error" := "internal server error"])
  const Forbidden: Outcome := Respond(403, map["error" := "forbidden - insufficient permissions"])

  /** The outcome once the list is known: proceed exactly when it holds the permission. */
  function Decision(perms: seq<string>, permission: string): (out: Outcome)
    ensures out == Proceed <==> permission in perms
    ensures out != Proceed ==> out == Forbidden
  {
    if permission in perms then Proceed else Forbidden
  }

  method RequirePermission(s: AuthorizeService, permission: string, ctx: CtxValue) returns (out: Outcome)
    modifies s.cache
    ensures s.cache.up == old(s.cache.up)
    ensures (ctx.CtxOther? || ctx.CtxAbsent?) ==> out == Unauthorized && unchanged(s.cache)
    ensures ctx.CtxString? && Strconv.Atoi(ctx.s).None? ==> out == InvalidUserId && unchanged(s.cache)
    ensures ContextUserId(ctx).Some? ==>
              var id := ContextUserId(ctx).value;
              var cached := CachedPermissions(old(s.cache.Get(PermissionKey(id))));
              if cached != [] then
                out == Decision(cached, permission) && unchanged(s.cache)
              else match s.store.GetPermissions(id)
                case Err(_) => out == StoreFailure && unchanged(s.cache)
                case Ok(ps) =>
                  && out == Decision(ps, permission)
                  && s.cache.keys == (if s.cache.up then Cache.Put(old(s.cache.keys), PermissionKey(id), JsonList.Marshal(ps), PermissionTtl)
                                      else old(s.cache.keys))
  {
    var userId: int;
    match ctx {
      case CtxString(v) =>
        var parsed := Strconv.Atoi(v);
        if parsed.None? {
          return InvalidUserId;
        }
        userId := parsed.value;
      case CtxInt(n) =>
        userId := n;
      case _ =>
        return Unauthorized;
    }
    var key := PermissionKey(userId);
    var perms := CachedPermissions(s.cache.Get(key));
    if |perms| == 0 {
      var fetched := s.store.GetPermissions(userId);
      if fetched.Err? {
        return StoreFailure;
      }
      perms := fetched.value;
      var _ := s.cache.Set(key, JsonList.Marshal(perms), PermissionTtl);
    }
    var found := HasPermission(perms, permission);
    if !found {
      return Forbidden;
    }
    return Proceed;
  }

  /**
   * The same request twice in a row gets the same answer: what the first
   * one caches decodes to the list it decided on.
   */
  method RepeatedRequestAgrees(s: AuthorizeService, permission: string, ctx: CtxValue) returns (first: Outcome, second: Outcome)
    modifies s.cache
    ensures first == second
  {
    first := RequirePermission(s, permission, ctx);
    if ContextUserId(ctx).Some? {
      var id := ContextUserId(ctx).value;
      var ps := s.store.GetPermissions(id);
      if ps.Ok? {
        JsonList.UnmarshalMarshal(ps.value);
      }
    }
    second := RequirePermission(s, permission, ctx);
  }
}
