/**
 * service/aut_service.go: sessions kept in the cache next to signed tokens.
 * Login stores one access and one refresh token per username, Authorize
 * accepts only the stored access token, WipeOutSession and GenerateAccessToken
 * check the stored tokens before deleting or replacing them, and the reset
 * flow allows one outstanding reset link and one failed attempt per link.
 */
module AuthServices {
  import opened Wrappers
  import opened Errors
  import Strconv
  import Models
  import Events
  import Cache
  import Jwt
  import Kafka
  import Repositories
  import UserService
  import TokenHelper
  import LoginTokenRequests

  const AccessMinutes: int := 15
  const RefreshMinutes: int := 240
  /** Cache lifetimes in seconds: 15 minutes, 4 hours, and 10 minutes for reset links and lock-outs. */
  const AccessTtl: int := 900
  const RefreshTtl: int := 14400
  const ResetTtl: int := 600
  const LockoutTtl: int := 600
  /** Login is refused once more than this many wrong passwords were counted. */
  const MaxAttempts: int := 5
  const ResetUrlPrefix: string := "http://localhost:8083/api/v1/auth/reset-password?token="

  // The six key families of the session cache.
  function AttemptKey(name: string): string { "attempt_key:" + name }
  function AccessKey(username: string): string { "access_token:" + username }
  function RefreshKey(username: string): string { "refresh_token:" + username }
  function ResetTokenKey(token: string): string { "reset_token:" + token }
  function ActiveKey(username: string): string { "reset:active:" + username }
  function InvalidKey(username: string): string { "reset:invalid:" + username }

  /** Keys of one family name one user (or token) each. */
  lemma PrefixInjective(p: string, a: string, b: string)
    requires p + a == p + b
    ensures a == b
  {
    assert a == (p + a)[|p|..];
    assert b == (p + b)[|p|..];
  }

  /**
   * No key of one family is a key of another, whatever the names. The
   * families are not disjoint from the bare usernames UsernameExists caches
   * in the same Redis: a user named "access_token:alice" shares a key with
   * alice's access token.
   */
  lemma KeyFamiliesDisjoint(a: string, b: string)
    ensures AccessKey(a) != RefreshKey(b) && AccessKey(a) != AttemptKey(b)
    ensures AccessKey(a) != ResetTokenKey(b) && AccessKey(a) != ActiveKey(b) && AccessKey(a) != InvalidKey(b)
    ensures RefreshKey(a) != AttemptKey(b) && RefreshKey(a) != ResetTokenKey(b)
    ensures RefreshKey(a) != ActiveKey(b) && RefreshKey(a) != InvalidKey(b)
    ensures ResetTokenKey(a) != ActiveKey(b) && ResetTokenKey(a) != InvalidKey(b) && ActiveKey(a) != InvalidKey(b)
    ensures AttemptKey(a) != ResetTokenKey(b) && AttemptKey(a) != ActiveKey(b) && AttemptKey(a) != InvalidKey(b)
  {
    assert AttemptKey(a)[0] == 'a';
    assert ActiveKey(b)[0] == 'r' && InvalidKey(b)[0] == 'r';
    assert AccessKey(a)[0] == 'a' && AccessKey(a)[1] == 'c';
    assert AttemptKey(b)[1] == 't';
    assert RefreshKey(a)[0] == 'r' && RefreshKey(b)[0] == 'r' && RefreshKey(a)[2] == 'f';
    assert ResetTokenKey(a)[0] == 'r' && ResetTokenKey(b)[0] == 'r' && ResetTokenKey(b)[2] == 's';
    assert ResetTokenKey(a)[2] == 's' && ResetTokenKey(a)[5] == '_';
    assert ActiveKey(b)[2] == 's' && ActiveKey(b)[5] == ':' && ActiveKey(a)[6] == 'a';
    assert InvalidKey(b)[2] == 's' && InvalidKey(b)[5] == ':' && InvalidKey(b)[6] == 'i';
  }

  function ErrorBody(text: string): map<string, string> { map["error" := text] }
  function MessageBody(text: string): map<string, string> { map["message" := text] }

  // Response texts, named once so the contracts below can refer to them.
  const LinkAlreadySent: string := "A reset link is already sent. Please check your email."
  const LinkSpent: string := "Too many invalid attempts. Request a new reset link."
  const TokensRequired: string := "access token and refresh token required"
  const AlreadyLoggedOut: string := "token already expired or logged out"
  const LockedOut: string := "too many requests, try after 10 minutes"
  const CredentialsRequired: string := "username and password required"
  const RefreshUnreadable: string := "invalid or expired refresh token"
  const AccessUnreadable: string := "invalid access token"
  const NoSuchUser: string := "user not found"
  const RefreshNotStored: string := "refresh token invalid or expired"
  const SendFailed: string := "failed to send notification event"
  const LoggedOut: string := "user logged out successfully"
  const LinkSent: string := "reset link sent successfully"
  const ResetInstructions: string := "Click the link to reset your password. Token expires in 10 minutes."
  const LockoutWarning: string := "Someone tried to login to your account"

  /** The email carrying a reset link. */
  function ResetEvent(u: Models.User, token: string): (e: Events.NotificationEvent)
    ensures e.userId == u.id && e.target == u.email && e.metadata == map["token" := ResetUrlPrefix + token]
    ensures Events.Validate(e).None? <==> u.id >= 0 && u.email != ""
  {
    Events.EmailEvent(u.id, "Token", "Password Reset", ResetInstructions, u.email,
                      map["token" := ResetUrlPrefix + token])
  }

  /** The warning sent when a locked-out account is tried again. */
  function SecurityEvent(u: Models.User): (e: Events.NotificationEvent)
    ensures e.userId == u.id && e.target == u.email
    ensures Events.Validate(e).None? <==> u.id >= 0 && u.email != ""
  {
    Events.EmailEvent(u.id, "security", "Verify is it you", LockoutWarning, u.email, map[])
  }

  /** The three keys a reset link writes: token to username, username to token, and a zero attempt count. */
  function WithResetLink(ks: Cache.Keyspace, username: string, token: string): (r: Cache.Keyspace)
    ensures r.Keys == ks.Keys + {ResetTokenKey(token), ActiveKey(username), InvalidKey(username)}
    ensures r[ResetTokenKey(token)].value == username && r[ActiveKey(username)].value == token
    ensures r[InvalidKey(username)] == Cache.Item("0", Some(ResetTtl))
    ensures forall k :: k in ks && k !in {ResetTokenKey(token), ActiveKey(username), InvalidKey(username)} ==> r[k] == ks[k]
  {
    KeyFamiliesDisjoint(token, username);
    KeyFamiliesDisjoint(username, token);
    var k1 := Cache.Put(ks, ResetTokenKey(token), username, ResetTtl);
    var k2 := Cache.Put(k1, ActiveKey(username), token, ResetTtl);
    Cache.Put(k2, InvalidKey(username), "0", ResetTtl)
  }

  /** The two keys a login writes. */
  function WithSession(ks: Cache.Keyspace, username: string, access: string, refresh: string): (r: Cache.Keyspace)
    ensures r.Keys == ks.Keys + {AccessKey(username), RefreshKey(username)}
    ensures r[AccessKey(username)] == Cache.Item(access, Some(AccessTtl))
    ensures r[RefreshKey(username)] == Cache.Item(refresh, Some(RefreshTtl))
    ensures forall k :: k in ks && k != AccessKey(username) && k != RefreshKey(username) ==> r[k] == ks[k]
  {
    KeyFamiliesDisjoint(username, username);
    Cache.Put(Cache.Put(ks, AccessKey(username), access, AccessTtl), RefreshKey(username), refresh, RefreshTtl)
  }

  class AuthService {
    const users: UserService.UserService
    const cache: Cache.Redis
    const jwt: Jwt.Codec
    const producer: Kafka.Producer

    constructor (users: UserService.UserService, cache: Cache.Redis, jwt: Jwt.Codec, producer: Kafka.Producer)
      ensures this.users == users && this.cache == cache && this.jwt == jwt && this.producer == producer
    {
      this.users := users;
      this.cache := cache;
      this.jwt := jwt;
      this.producer := producer;
    }

    /** A reset link is outstanding: the active marker reads as a non-empty string. */
    predicate ResetPending(username: string)
      reads cache
    {
      cache.Get(ActiveKey(username)).Hit? && cache.Get(ActiveKey(username)).value != ""
    }

    /**
     * GenerateResetToken: for a known email with no outstanding link, store
     * the link's three keys for 10 minutes and email it. `token` stands for
     * the random value the source draws.
     */
    method GenerateResetToken(email: string, token: string) returns (status: int, body: map<string, string>)
      modifies cache, producer
      ensures cache.up == old(cache.up) && producer.up == old(producer.up)
      ensures status in {200, 400, 404, 500}
      ensures email == "" ==> status == 400 && body == ErrorBody("email required") && unchanged(cache, producer)
      ensures email != "" && users.repo.GetUserByEmail(email).Err? ==>
                status == 404 && body == ErrorBody("user not found") && unchanged(cache, producer)
      ensures email != "" && users.repo.GetUserByEmail(email).Ok? ==>
                var u := users.repo.GetUserByEmail(email).value;
                if old(ResetPending(u.username)) then
                  status == 400 && body == ErrorBody(LinkAlreadySent) &&
                  unchanged(cache, producer)
                else if !old(cache.up) then status == 500 && unchanged(cache, producer)
                else
                  && cache.keys == WithResetLink(old(cache.keys), u.username, token)
                  && producer.outbox == (if producer.up then old(producer.outbox) + [ResetEvent(u, token)]
                                         else old(producer.outbox))
                  && status == (if producer.up then 200 else 500)
    {
      if email == "" {
        return 400, ErrorBody("email required");
      }
      var found := users.repo.GetUserByEmail(email);
      if found.Err? {
        return 404, ErrorBody("user not found");
      }
      var user := found.value;
      var existing := cache.Get(ActiveKey(user.username));
      if existing.Hit? && existing.value != "" {
        return 400, ErrorBody(LinkAlreadySent);
      }
      var event := ResetEvent(user, token);
      ghost var ks0 := cache.keys;
      var ok := cache.Set(ResetTokenKey(token), user.username, ResetTtl);
      if !ok {
        return 500, ErrorBody("internal server error");
      }
      ghost var ks1 := cache.keys;
      assert ks1 == Cache.Put(ks0, ResetTokenKey(token), user.username, ResetTtl);
      ok := cache.Set(ActiveKey(user.username), token, ResetTtl);
      if !ok {
        // unreachable: the first SET succeeded, so the server is up
        assert false;
      }
      ghost var ks2 := cache.keys;
      assert ks2 == Cache.Put(ks1, ActiveKey(user.username), token, ResetTtl);
      ok := cache.Set(InvalidKey(user.username), "0", ResetTtl);
      assert cache.keys == Cache.Put(ks2, InvalidKey(user.username), "0", ResetTtl);
      assert cache.keys == WithResetLink(ks0, user.username, token);
      var sent := producer.Send(event);
      if !sent {
        return 500, ErrorBody(SendFailed);
      }
      return 200, MessageBody(LinkSent);
    }

    /**
     * ResetPassword: a stored link with no failed attempt sets the new
     * password and then deletes the link's keys and the access token; an
     * empty password or a failed update counts a failed attempt, which
     * spends the link.
     */
    method ResetPassword(token: string, newPassword: string) returns (status: int, body: map<string, string>)
      modifies cache, users.repo
      ensures old(users.repo.Valid()) ==> users.repo.Valid()
      ensures cache.up == old(cache.up) && users.repo.up == old(users.repo.up)
      ensures users.repo.userRoles == old(users.repo.userRoles) && users.repo.nextId == old(users.repo.nextId)
      ensures status in {200, 400, 429, 500}
      ensures token == "" ==> status == 400 && body == ErrorBody("token required") && unchanged(cache, users.repo)
      ensures token != "" && !old(cache.Get(ResetTokenKey(token))).Hit? ==>
                status == 400 && body == ErrorBody("invalid or expired token") && unchanged(cache, users.repo)
      ensures token != "" && old(cache.Get(ResetTokenKey(token))).Hit? ==>
                var name := old(cache.Get(ResetTokenKey(token))).value;
                var holder := (u: Models.User) => u.username == name;
                if old(cache.Count(InvalidKey(name))) >= 1 then
                  status == 429 && unchanged(cache, users.repo)
                else if newPassword == "" then
                  status == 400 && body == ErrorBody("password required") && unchanged(users.repo) &&
                  cache.keys == Cache.AfterIncr(old(cache.keys), InvalidKey(name))
                else if !old(users.repo.up) || !Repositories.Any(old(users.repo.rows), holder) then
                  status == 500 && users.repo.rows == old(users.repo.rows) &&
                  cache.keys == Cache.AfterIncr(old(cache.keys), InvalidKey(name))
                else
                  && status == 200
                  && users.repo.rows == Repositories.UpdateWhere(old(users.repo.rows), holder,
                                                                 (u: Models.User) => u.(password := newPassword))
                  && cache.keys == old(cache.keys) - {ResetTokenKey(token), ActiveKey(name), InvalidKey(name), AccessKey(name)}
    {
      if token == "" {
        return 400, ErrorBody("token required");
      }
      var stored := cache.Get(ResetTokenKey(token));
      if !stored.Hit? {
        return 400, ErrorBody("invalid or expired token");
      }
      var username := stored.value;
      var key := InvalidKey(username);
      var count := cache.Count(key);
      if count >= 1 {
        return 429, ErrorBody(LinkSpent);
      }
      if newPassword == "" {
        var _ := cache.Incr(key);
        return 400, ErrorBody("password required");
      }
      var err := users.repo.UpdatePassword(username, newPassword);
      if err.Some? {
        var _ := cache.Incr(key);
        return 500, ErrorBody("failed to update password");
      }
      cache.Del(ResetTokenKey(token));
      cache.Del(ActiveKey(username));
      cache.Del(key);
      cache.Del(AccessKey(username));
      return 200, MessageBody("password reset successful");
    }

    /**
     * Login: the name may be an email or a username. More than five counted
     * wrong passwords lock the name out (refreshing the counter's 10-minute
     * lifetime and warning the owner); a wrong password is counted; a right
     * one yields a fresh access and refresh token, both stored under the
     * username.
     */
    method Login(name: string, password: string) returns (status: int, body: map<string, string>)
      requires jwt.Valid()
      modifies cache, jwt, producer
      ensures jwt.Valid() && cache.up == old(cache.up) && producer.up == old(producer.up)
      ensures status in {200, 400, 401, 404, 429}
      ensures status != 200 ==> unchanged(jwt)
      ensures (name == "" || password == "") ==>
                status == 400 && body == ErrorBody(CredentialsRequired) && unchanged(cache, jwt, producer)
      ensures name != "" && password != "" && users.repo.GetUserByEmailOrUsername(name).Err? ==>
                status == 404 && body == ErrorBody("user not found") && unchanged(cache, jwt, producer)
      ensures name != "" && password != "" && users.repo.GetUserByEmailOrUsername(name).Ok? ==>
                var u := users.repo.GetUserByEmailOrUsername(name).value;
                if old(cache.Count(AttemptKey(name))) > MaxAttempts then
                  && status == 429 && unchanged(jwt)
                  && cache.keys == (if cache.up then Cache.WithExpiry(old(cache.keys), AttemptKey(name), LockoutTtl)
                                    else old(cache.keys))
                  && producer.outbox == (if producer.up then old(producer.outbox) + [SecurityEvent(u)]
                                         else old(producer.outbox))
                else if u.password != password then
                  && status == 401 && body == ErrorBody("wrong password") && unchanged(jwt, producer)
                  && cache.keys == (if cache.up then Cache.AfterIncr(old(cache.keys), AttemptKey(name))
                                    else old(cache.keys))
                else
                  && status == 200 && unchanged(producer)
                  && body.Keys == {"access_token", "refresh_token"}
                  && var access, refresh := body["access_token"], body["refresh_token"];
                  && access != "" && refresh != "" && access != refresh && access !in old(jwt.issued) && refresh !in old(jwt.issued)
                  && jwt.issued == old(jwt.issued)[access := Jwt.Claims(u.id, AccessMinutes)]
                                                  [refresh := Jwt.Claims(u.id, RefreshMinutes)]
                  && cache.keys == (if cache.up then WithSession(old(cache.keys), u.username, access, refresh)
                                    else old(cache.keys))
    {
      if name == "" || password == "" {
        return 400, ErrorBody(CredentialsRequired);
      }
      var found := users.repo.GetUserByEmailOrUsername(name);
      if found.Err? {
        return 404, ErrorBody("user not found");
      }
      var user := found.value;
      var count := cache.Count(AttemptKey(name));
      if count > MaxAttempts {
        cache.Expire(AttemptKey(name), LockoutTtl);
        var _ := producer.Send(SecurityEvent(user));
        return 429, ErrorBody(LockedOut);
      }
      if user.password != password {
        var _ := cache.Incr(AttemptKey(name));
        return 401, ErrorBody("wrong password");
      }
      var access := jwt.Generate(user.id, AccessMinutes);
      var refresh := jwt.Generate(user.id, RefreshMinutes);
      var _ := cache.Set(AccessKey(user.username), access, AccessTtl);
      var _ := cache.Set(RefreshKey(user.username), refresh, RefreshTtl);
      return 200, map["access_token" := access, "refresh_token" := refresh];
    }

    /**
     * WipeOutSession (logout): the access token must be the one stored for
     * its user, and is deleted before the refresh token is examined; the
     * refresh token must then verify and be the stored one to be deleted.
     */
    method WipeOutSession(access: string, refresh: string) returns (status: int, body: map<string, string>)
      modifies cache
      ensures cache.up == old(cache.up)
      ensures status in {200, 400, 401, 403, 404}
      ensures LoginTokenRequests.Validate(LoginTokenRequests.LoginTokenRequest(access, refresh)).Some? ==>
                status == 400 && body == ErrorBody(TokensRequired) && unchanged(cache)
      ensures access != "" && refresh != "" ==>
                match jwt.Decode(access)
                case None => status == 401 && body == ErrorBody(AccessUnreadable) && unchanged(cache)
                case Some(id) =>
                  match users.GetUserByID(id)
                  case Err(_) => status == 404 && body == ErrorBody(NoSuchUser) && unchanged(cache)
                  case Ok(u) =>
                    if old(cache.Get(AccessKey(u.username))) != Cache.Hit(access) then
                      status == 400 && body == ErrorBody(AlreadyLoggedOut) && unchanged(cache)
                    else if jwt.Decode(refresh).None? then
                      status == 400 && body == ErrorBody(RefreshUnreadable) &&
                      cache.keys == old(cache.keys) - {AccessKey(u.username)}
                    else if old(cache.Get(RefreshKey(u.username))) != Cache.Hit(refresh) then
                      status == 403 && body == ErrorBody(RefreshNotStored) &&
                      cache.keys == old(cache.keys) - {AccessKey(u.username)}
                    else
                      status == 200 && body == MessageBody(LoggedOut) &&
                      cache.keys == old(cache.keys) - {AccessKey(u.username), RefreshKey(u.username)}
    {
      if access == "" || refresh == "" {
        return 400, ErrorBody(TokensRequired);
      }
      var claims := jwt.Decode(access);
      if claims.None? {
        return 401, ErrorBody(AccessUnreadable);
      }
      var found := users.GetUserByID(claims.value);
      if found.Err? {
        return 404, ErrorBody(NoSuchUser);
      }
      var user := found.value;
      var storedAccess := cache.Get(AccessKey(user.username));
      if !storedAccess.Hit? || storedAccess.value != access {
        return 400, ErrorBody(AlreadyLoggedOut);
      }
      KeyFamiliesDisjoint(user.username, user.username);
      cache.Del(AccessKey(user.username));
      if jwt.Decode(refresh).None? {
        return 400, ErrorBody(RefreshUnreadable);
      }
      var storedRefresh := cache.Get(RefreshKey(user.username));
      if !storedRefresh.Hit? || storedRefresh.value != refresh {
        return 403, ErrorBody(RefreshNotStored);
      }
      cache.Del(RefreshKey(user.username));
      return 200, MessageBody(LoggedOut);
    }

    /**
     * GenerateAccessToken: a refresh token that verifies and is the one
     * stored for its user buys a fresh access token, which replaces the
     * stored one; the refresh token is kept.
     */
    method GenerateAccessToken(refresh: string) returns (status: int, body: map<string, string>)
      requires jwt.Valid()
      modifies cache, jwt
      ensures jwt.Valid() && cache.up == old(cache.up)
      ensures status in {200, 400, 401, 403, 404}
      ensures refresh == "" ==> status == 400 && body == ErrorBody("refresh token required") && unchanged(cache, jwt)
      ensures refresh != "" ==>
                match old(jwt.Decode(refresh))
                case None => status == 401 && unchanged(cache, jwt)
                case Some(id) =>
                  match users.GetUserByID(id)
                  case Err(_) => status == 404 && unchanged(cache, jwt)
                  case Ok(u) =>
                    if old(cache.Get(RefreshKey(u.username))) != Cache.Hit(refresh) then
                      status == 403 && unchanged(cache, jwt)
                    else
                      && status == 200 && body.Keys == {"access_token"}
                      && var access := body["access_token"];
                      && access != "" && access !in old(jwt.issued)
                      && jwt.issued == old(jwt.issued)[access := Jwt.Claims(id, AccessMinutes)]
                      && cache.keys == Cache.Put(old(cache.keys), AccessKey(u.username), access, AccessTtl)
    {
      if refresh == "" {
        return 400, ErrorBody("refresh token required");
      }
      var claims := jwt.Decode(refresh);
      if claims.None? {
        return 401, ErrorBody("invalid refresh token");
      }
      var id := claims.value;
      var found := users.GetUserByID(id);
      if found.Err? {
        return 404, ErrorBody("user not found");
      }
      var user := found.value;
      var storedRefresh := cache.Get(RefreshKey(user.username));
      if !storedRefresh.Hit? || storedRefresh.value != refresh {
        return 403, ErrorBody(RefreshNotStored);
      }
      var access := jwt.Generate(id, AccessMinutes);
      var _ := cache.Set(AccessKey(user.username), access, AccessTtl);
      return 200, map["access_token" := access];
    }

    /**
     * Authorize: the bearer token of the Authorization header must verify,
     * name an existing user, and be the access token stored for that user;
     * the result is the user's ID in decimal.
     */
    function Authorize(header: string): (r: Result<string, Error>)
      reads jwt, users.repo, cache
      ensures r.Ok? ==>
                && TokenHelper.BearerPrefix <= header
                && var t := header[|TokenHelper.BearerPrefix|..];
                && t != "" && t in jwt.issued && jwt.issued[t].user > 0
                && Strconv.Atoi(r.value) == Some(jwt.issued[t].user)
                && exists u :: u in users.repo.rows && u.id == jwt.issued[t].user &&
                                cache.Get(AccessKey(u.username)) == Cache.Hit(t)
      ensures r.Err? ==> r.error in {Message("missing token"), Message("invalid token"), Message("user not found"),
                                     Message("token expired or logged out")}
      ensures !(TokenHelper.BearerPrefix <= header) || header == TokenHelper.BearerPrefix ==>
                r == Err(Message("missing token"))
      ensures !cache.up ==> r.Err?
    {
      var (token, err) := TokenHelper.ExtractToken(header);
      if err.Some? || token == "" then Err(Message("missing token"))
      else match jwt.Decode(token)
        case None => Err(Message("invalid token"))
        case Some(id) =>
          match users.GetUserByID(id)
          case Err(_) => Err(Message("user not found"))
          case Ok(u) =>
            if cache.Get(AccessKey(u.username)) != Cache.Hit(token) then Err(Message("token expired or logged out"))
            else Strconv.AtoiItoa(id); Ok(Strconv.Itoa(id))
    }
  }

  /** The access token a successful login returns is accepted by Authorize, for the user who logged in. */
  method LoginThenAuthorize(s: AuthService, name: string, password: string) returns (status: int, access: string)
    requires s.jwt.Valid() && s.cache.up && s.users.repo.up && s.users.repo.Valid()
    modifies s.cache, s.jwt, s.producer
    ensures s.jwt.Valid() && s.cache.up
    ensures status == 200 ==> access !in old(s.jwt.issued)
    ensures forall t :: t in old(s.jwt.issued) ==> t in s.jwt.issued && s.jwt.issued[t] == old(s.jwt.issued)[t]
    ensures status == 200 ==>
              s.users.repo.GetUserByEmailOrUsername(name).Ok? &&
              s.Authorize(TokenHelper.BearerPrefix + access) ==
              Ok(Strconv.Itoa(s.users.repo.GetUserByEmailOrUsername(name).value.id))
  {
    var body;
    status, body := s.Login(name, password);
    access := if "access_token" in body then body["access_token"] else "";
    if status == 200 {
      var u := s.users.repo.GetUserByEmailOrUsername(name).value;
      var refresh := body["refresh_token"];
      assert s.jwt.issued == old(s.jwt.issued)[access := Jwt.Claims(u.id, AccessMinutes)]
                                              [refresh := Jwt.Claims(u.id, RefreshMinutes)];
      assert s.jwt.Decode(access) == Some(u.id);
      assert s.cache.keys == WithSession(old(s.cache.keys), u.username, access, refresh);
      AuthorizesStoredToken(s, u, access);
    }
  }

  /**
   * An issued token stored as a user's access token authorizes that user:
   * the four checks of Authorize all pass.
   */
  lemma AuthorizesStoredToken(s: AuthService, u: Models.User, access: string)
    requires s.users.repo.up && s.users.repo.Valid() && u in s.users.repo.rows
    requires access != "" && s.jwt.Decode(access) == Some(u.id)
    requires s.cache.Get(AccessKey(u.username)) == Cache.Hit(access)
    ensures s.Authorize(TokenHelper.BearerPrefix + access) == Ok(Strconv.Itoa(u.id))
  {
    TokenHelper.ExtractRoundTrip(access);
    assert u.id > 0;
    assert s.users.GetUserByID(u.id).Ok?;
    var v := s.users.GetUserByID(u.id).value;
    var w :| w in s.users.repo.rows && w.id == u.id && v == w.(password := "");
    assert w in s.users.repo.rows && u == w;
    assert v.username == u.username;
  }

  /** After a second login, only the newer access token is accepted. */
  method LatestLoginWins(s: AuthService, name: string, password: string) returns (first: string, second: string)
    requires s.jwt.Valid() && s.cache.up && s.users.repo.up && s.users.repo.Valid()
    modifies s.cache, s.jwt, s.producer
    ensures first != "" && second != "" ==>
              s.Authorize(TokenHelper.BearerPrefix + first).Err? && s.Authorize(TokenHelper.BearerPrefix + second).Ok?
  {
    var status1, status2;
    status1, first := LoginThenAuthorize(s, name, password);
    if status1 != 200 {
      return "", "";
    }
    ghost var u := s.users.repo.GetUserByEmailOrUsername(name).value;
    TokenHelper.ExtractRoundTrip(first);
    Strconv.AtoiItoa(u.id);
    assert first in s.jwt.issued && s.jwt.issued[first].user == u.id;
    status2, second := LoginThenAuthorize(s, name, password);
    if status2 != 200 {
      return "", "";
    }
    assert first != second;
    TokenHelper.ExtractRoundTrip(second);
    assert s.Authorize(TokenHelper.BearerPrefix + second).Ok?;
    ghost var v := s.users.GetUserByID(u.id).value;
    ghost var w :| w in s.users.repo.rows && w.id == u.id && v == w.(password := "");
    assert w in s.users.repo.rows && u == w;
    assert s.cache.Get(AccessKey(u.username)) == Cache.Hit(second);
  }

  /**
   * A logout that got past the access-token check leaves that access token
   * useless, even when it then fails on the refresh token.
   */
  method LogoutRevokes(s: AuthService, access: string, refresh: string) returns (status: int, body: map<string, string>)
    modifies s.cache
    ensures status == 200 || status == 403 || body == ErrorBody(RefreshUnreadable) ==>
              s.Authorize(TokenHelper.BearerPrefix + access).Err?
  {
    status, body := s.WipeOutSession(access, refresh);
    TokenHelper.ExtractRoundTrip(access);
    if !(access != "" && refresh != "" && s.jwt.Decode(access).Some? &&
         s.users.GetUserByID(s.jwt.Decode(access).value).Ok?) {
      // the early answers carry error texts other than RefreshUnreadable
      assert "error" in body && body["error"] != RefreshUnreadable by {
        assert |RefreshUnreadable| == 32 && |TokensRequired| == 39;
        assert |AccessUnreadable| == 20 && |NoSuchUser| == 14;
      }
    } else {
      ghost var u := s.users.GetUserByID(s.jwt.Decode(access).value).value;
      if old(s.cache.Get(AccessKey(u.username))) != Cache.Hit(access) {
        assert body["error"] != RefreshUnreadable by {
          assert |RefreshUnreadable| == 32 && |AlreadyLoggedOut| == 35;
        }
      } else {
        assert AccessKey(u.username) !in s.cache.keys;
      }
    }
  }



  /** The access token a refresh returns is accepted by Authorize. */
  method RefreshThenAuthorize(s: AuthService, refresh: string) returns (status: int, access: string)
    requires s.jwt.Valid()
    modifies s.cache, s.jwt
    ensures status == 200 ==> s.Authorize(TokenHelper.BearerPrefix + access).Ok?
  {
    var body;
    status, body := s.GenerateAccessToken(refresh);
    access := if "access_token" in body then body["access_token"] else "";
    TokenHelper.ExtractRoundTrip(access);
    if status == 200 {
      ghost var id := old(s.jwt.Decode(refresh)).value;
      assert s.jwt.Decode(access) == Some(id);
      ghost var u := s.users.GetUserByID(id).value;
      assert s.cache.Get(AccessKey(u.username)) == Cache.Hit(access);
    }
  }

  /** A reset link that was used successfully cannot be used again. */
  method ResetLinkSingleUse(s: AuthService, token: string, first: string, second: string) returns (status1: int, status2: int)
    modifies s.cache, s.users.repo
    ensures status1 == 200 ==> status2 == 400
  {
    var body;
    status1, body := s.ResetPassword(token, first);
    status2, body := s.ResetPassword(token, second);
  }

  /**
   * The whole reset flow with one mistake: a fresh link, an empty password,
   * and then any password is refused with 429; meanwhile a second link
   * cannot be requested.
   */
  method OneStrikePerLink(s: AuthService, email: string, token: string, password: string)
    returns (sent: int, firstTry: int, secondTry: int, again: int)
    requires email != "" && token != ""
    requires s.cache.up && s.producer.up && s.users.repo.up
    requires s.users.repo.GetUserByEmail(email).Ok?
    requires !s.ResetPending(s.users.repo.GetUserByEmail(email).value.username)
    modifies s.cache, s.producer, s.users.repo
    ensures sent == 200 && firstTry == 400 && secondTry == 429 && again == 400
  {
    ghost var name := s.users.repo.GetUserByEmail(email).value.username;
    KeyFamiliesDisjoint(token, name);
    KeyFamiliesDisjoint(name, token);
    assert Strconv.Atoi("0") == Some(0) by {
      Strconv.AtoiItoa(0);
      assert Strconv.Itoa(0) == "0";
    }
    var body;
    sent, body := s.GenerateResetToken(email, token);
    assert sent == 200;
    assert s.cache.Get(ResetTokenKey(token)) == Cache.Hit(name);
    assert s.cache.keys[InvalidKey(name)].value == "0";
    assert s.cache.Count(InvalidKey(name)) == 0;
    firstTry, body := s.ResetPassword(token, "");
    assert firstTry == 400;
    assert s.cache.Count(InvalidKey(name)) == 1;
    assert s.cache.Get(ResetTokenKey(token)) == Cache.Hit(name);
    assert s.cache.Get(ActiveKey(name)) == Cache.Hit(token);
    secondTry, body := s.ResetPassword(token, password);
    assert secondTry == 429;
    assert s.users.repo.GetUserByEmail(email).Ok? && s.users.repo.GetUserByEmail(email).value.username == name;
    assert s.ResetPending(name);
    again, body := s.GenerateResetToken(email, token);
  }
}
