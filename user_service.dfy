/**
 * service/user_service.go: the username-existence cascade over the Bloom
 * filter, the cache and the store; user creation as an ordered sequence of
 * side effects; and the input guards in front of the repository.
 */
module UserService {
  import opened Wrappers
  import opened Errors
  import Models
  import Events
  import Cache
  import Bloom
  import Kafka
  import Repositories
  import ErrorHandler

  /** How long a confirmed username stays in the cache: 10 minutes. */
  const UsernameTtl: int := 600

  /** The event CreateUser publishes for the row it just inserted. */
  function CreatedEvent(u: Models.User): (e: Events.NotificationEvent)
    ensures e.userId == u.id && e.target == u.email
    ensures Events.Validate(e).None? <==> u.id >= 0 && u.email != ""
  {
    Events.EmailEvent(u.id, "user_created", "Successful Account Creation",
                      "Hi " + u.username + ", your account has been created successfully.", u.email, map[])
  }

  class UserService {
    const repo: Repositories.UserRepo
    const producer: Kafka.Producer
    const cache: Cache.Redis
    const bloom: Bloom.Filter

    constructor (repo: Repositories.UserRepo, producer: Kafka.Producer, cache: Cache.Redis, bloom: Bloom.Filter)
      ensures this.repo == repo && this.producer == producer && this.cache == cache && this.bloom == bloom
    {
      this.repo := repo;
      this.producer := producer;
      this.cache := cache;
      this.bloom := bloom;
    }

    /** GetUserByID: an ID that is not positive is refused before the repository is asked. */
    function GetUserByID(id: int): (r: Result<Models.User, Error>)
      reads repo
      ensures id <= 0 ==> r == Err(Wrapped(Errors.MissingField, "invalid user ID"))
      ensures r.Ok? ==> id > 0 && r.value.id == id && exists u :: u in repo.rows && u.id == id
      ensures id > 0 && repo.up && r.Err? ==> r.error == UserNotFound && forall u :: u in repo.rows ==> u.id != id
    {
      if id <= 0 then Err(Wrapped(Errors.MissingField, "invalid user ID"))
      else repo.GetUserByID(id)
    }

    /**
     * UsernameExists: an empty name is not looked up; a Bloom-negative answer
     * is final; a cache hit on the bare username is a yes; otherwise the store
     * decides, and a username found there is added to the filter and cached
     * for 10 minutes. Any cache error falls through to the store.
     */
    method UsernameExists(username: string) returns (found: bool, err: Option<Error>)
      modifies bloom, cache
      ensures cache.up == old(cache.up)
      ensures old(bloom.added) <= bloom.added
      ensures found ==> err.None?
      ensures username == "" ==> !found && err.None? && unchanged(bloom, cache)
      ensures username != "" && !old(bloom.Test(username)) ==> !found && err.None? && unchanged(bloom, cache)
      ensures username != "" && old(bloom.Test(username)) && old(cache.Get(username)).Hit? ==>
                found && unchanged(bloom, cache)
      ensures username != "" && old(bloom.Test(username)) && !old(cache.Get(username)).Hit? ==>
                match repo.GetUserByUsername(username)
                case Ok(_) =>
                  found && bloom.added == old(bloom.added) + {username} &&
                  cache.keys == if cache.up then Cache.Put(old(cache.keys), username, "1", UsernameTtl)
                                else old(cache.keys)
                case Err(e) =>
                  !found && err == (if e == UserNotFound then None else Some(e)) && unchanged(bloom, cache)
    {
      if username == "" {
        return false, None;
      }
      if !bloom.Test(username) {
        return false, None;
      }
      var reply := cache.Get(username);
      if reply.Hit? {
        return true, None;
      }
      var user := repo.GetUserByUsername(username);
      if user.Err? {
        if user.error == UserNotFound {
          return false, None;
        }
        return false, Some(user.error);
      }
      bloom.Add(user.value.username);
      var _ := cache.Set(user.value.username, "1", UsernameTtl);
      return true, None;
    }

    /**
     * CreateUser: name and email are required before the repository is
     * touched; then insert, fetch by email, publish the creation event and
     * assign the "user" role, each failure ending the sequence.
     */
    method CreateUser(u: Models.User) returns (err: Option<Error>)
      modifies repo, producer
      ensures old(repo.Valid()) ==> repo.Valid()
      ensures repo.up == old(repo.up) && producer.up == old(producer.up) && repo.roleNames == old(repo.roleNames)
      ensures u.name != "" && u.email != "" && old(repo.up) && producer.up && "user" in repo.roleNames &&
              !old(repo.GetUserByEmailOrUsername(u.username)).Ok? && !old(repo.GetUserByEmailOrUsername(u.email)).Ok?
              ==> err.None?
      ensures u.name == "" ==> err == Some(Wrapped(Errors.MissingField, "name is required")) && unchanged(repo, producer)
      ensures u.name != "" && u.email == "" ==>
                err == Some(Wrapped(Errors.MissingField, "email is required")) && unchanged(repo, producer)
      // the username or email is taken, or the store is down: the insert is refused
      ensures u.name != "" && u.email != "" && old(repo.up) &&
              (old(repo.GetUserByEmailOrUsername(u.username)).Ok? || old(repo.GetUserByEmailOrUsername(u.email)).Ok?) ==>
                err == Some(UserExists) && unchanged(producer) && repo.rows == old(repo.rows)
      ensures u.name != "" && u.email != "" && !old(repo.up) ==>
                err == Some(Repositories.DbError("insert")) && unchanged(producer) && repo.rows == old(repo.rows)
      // the insert failed: nothing is published and no role is assigned
      ensures err.Some? && repo.rows == old(repo.rows) ==> unchanged(producer) && repo.userRoles == old(repo.userRoles)
      // publishing failed: the row exists but no role is assigned
      ensures err.Some? && |producer.outbox| == |old(producer.outbox)| ==> repo.userRoles == old(repo.userRoles)
      ensures err.None? ==>
                var row := u.(id := old(repo.nextId));
                && repo.rows == old(repo.rows) + [row]
                && producer.outbox == old(producer.outbox) + [CreatedEvent(row)]
                && repo.userRoles == old(repo.userRoles) + [(row.id, "user")]
    {
      if u.name == "" {
        return Some(Wrapped(Errors.MissingField, "name is required"));
      }
      if u.email == "" {
        return Some(Wrapped(Errors.MissingField, "email is required"));
      }
      ghost var rows0 := repo.rows;
      ghost var row := u.(id := repo.nextId);
      ghost var byEmail := repo.GetUserByEmailOrUsername(u.email);
      err := repo.CreateUser(u);
      if err.Some? {
        return err;
      }
      assert repo.rows == rows0 + [row];
      assert byEmail.Err? && repo.up;
      assert forall v :: v in rows0 ==> v.email != u.email;
      Repositories.FindFirstAppended(rows0, row, (v: Models.User) => v.email == u.email);
      var res := repo.GetUserByEmail(u.email);
      if res.Err? {
        // the row just inserted carries this email, and the store is still up
        assert false;
      }
      assert res.value == row;
      var event := CreatedEvent(res.value);
      var sent := producer.Send(event);
      if !sent {
        return Some(Message("failed to publish notification event"));
      }
      var roleErr := repo.AddUserRole("user", res.value.id);
      if roleErr.Some? {
        return Some(Message("failed to add role: " + MessageText(roleErr.value)));
      }
      return None;
    }

    /** UpdateUser: an ID of 0, or neither name nor email, is refused before the repository is asked. */
    method UpdateUser(u: Models.User) returns (err: Option<Error>)
      modifies repo
      ensures old(repo.Valid()) ==> repo.Valid()
      ensures u.id == 0 ==> err == Some(Wrapped(Errors.MissingField, "missing user ID")) && unchanged(repo)
      ensures u.id != 0 && u.name == "" && u.email == "" ==>
                err == Some(Wrapped(Errors.MissingField, "nothing to update")) && unchanged(repo)
      ensures (u.id != 0 && (u.name != "" || u.email != "") && old(repo.up) &&
               Repositories.Any(old(repo.rows), (v: Models.User) => v.id == u.id)) ==> err.None?
      // past the guards, the repository's answer is passed through
      ensures u.id != 0 && (u.name != "" || u.email != "") ==>
                && repo.up == old(repo.up) && repo.userRoles == old(repo.userRoles) && repo.nextId == old(repo.nextId)
                && (!old(repo.up) ==> err == Some(Repositories.DbError("update")) && repo.rows == old(repo.rows))
                && (old(repo.up) && !Repositories.Any(old(repo.rows), (v: Models.User) => v.id == u.id) ==>
                      err == Some(UserNotFound) && repo.rows == old(repo.rows))
                && (old(repo.up) && Repositories.Any(old(repo.rows), (v: Models.User) => v.id == u.id) ==>
                      repo.rows == Repositories.UpdateWhere(old(repo.rows), (v: Models.User) => v.id == u.id,
                                     (v: Models.User) => v.(name := u.name, email := u.email, username := u.username,
                                                            mobileNumber := u.mobileNumber)))
    {
      if u.id == 0 {
        return Some(Wrapped(Errors.MissingField, "missing user ID"));
      }
      if u.name == "" && u.email == "" {
        return Some(Wrapped(Errors.MissingField, "nothing to update"));
      }
      err := repo.UpdateUser(u);
    }

    /** DeleteUser: an ID that is not positive is refused before the repository is asked. */
    method DeleteUser(id: int) returns (err: Option<Error>)
      modifies repo
      ensures old(repo.Valid()) ==> repo.Valid()
      ensures id <= 0 ==> err == Some(Wrapped(Errors.MissingField, "invalid user ID")) && unchanged(repo)
      ensures id > 0 && old(repo.up) && Repositories.Any(old(repo.rows), (v: Models.User) => v.id == id) ==>
                err.None? && forall v :: v in repo.rows ==> v.id != id
      // past the guard, the repository's answer is passed through
      ensures id > 0 ==>
                && repo.up == old(repo.up) && repo.userRoles == old(repo.userRoles) && repo.nextId == old(repo.nextId)
                && (!old(repo.up) ==> err == Some(Repositories.DbError("delete")) && repo.rows == old(repo.rows))
                && (old(repo.up) && !Repositories.Any(old(repo.rows), (v: Models.User) => v.id == id) ==>
                      err == Some(UserNotFound) && repo.rows == old(repo.rows))
                && (old(repo.up) && Repositories.Any(old(repo.rows), (v: Models.User) => v.id == id) ==>
                      repo.rows == Repositories.DeleteWhere(old(repo.rows), (v: Models.User) => v.id == id))
    {
      if id <= 0 {
        return Some(Wrapped(Errors.MissingField, "invalid user ID"));
      }
      err := repo.DeleteUser(id);
    }

    /**
     * CreateUser followed by adding the new username to the Bloom filter: the
     * step that keeps the filter free of false negatives for users created
     * after it was warmed.
     */
    method CreateUserIndexed(u: Models.User) returns (err: Option<Error>)
      modifies repo, producer, bloom
      ensures old(repo.Valid()) ==> repo.Valid()
      ensures repo.up == old(repo.up) && producer.up == old(producer.up) && repo.roleNames == old(repo.roleNames)
      ensures u.name != "" && u.email != "" && old(repo.up) && producer.up && "user" in repo.roleNames &&
              !old(repo.GetUserByEmailOrUsername(u.username)).Ok? && !old(repo.GetUserByEmailOrUsername(u.email)).Ok?
              ==> err.None?
      ensures err.None? ==>
                repo.rows == old(repo.rows) + [u.(id := old(repo.nextId))] &&
                bloom.added == old(bloom.added) + {u.username}
      ensures err.Some? ==> unchanged(bloom)
    {
      err := CreateUser(u);
      ghost var rows, valid := repo.rows, repo.Valid();
      if err.None? {
        bloom.Add(u.username);
      }
      assert repo.rows == rows && repo.Valid() == valid;
    }
  }

  function MessageText(e: Error): string {
    if e.Message? then e.text else "error"
  }

  /**
   * The service as written: a user created after the filter was warmed is
   * reported as not existing, because CreateUser never adds the username to
   * the filter and a Bloom-negative answer is final.
   */
  method CreatedUsernameMissed(s: UserService, u: Models.User) returns (found: bool)
    requires u.name != "" && u.email != "" && u.username != ""
    requires s.repo.up && s.producer.up && "user" in s.repo.roleNames
    requires !s.repo.GetUserByEmailOrUsername(u.username).Ok? && !s.repo.GetUserByEmailOrUsername(u.email).Ok?
    requires !s.bloom.Test(u.username)
    modifies s.repo, s.producer, s.bloom, s.cache
    ensures exists v :: v in s.repo.rows && v.username == u.username
    ensures !found
  {
    var err := s.CreateUser(u);
    assert err.None?;
    assert u.(id := old(s.repo.nextId)) in s.repo.rows;
    var e;
    found, e := s.UsernameExists(u.username);
  }

  /** With the indexed creation, a user that was created is reported as existing. */
  method CreatedUsernameFound(s: UserService, u: Models.User) returns (found: bool)
    requires u.name != "" && u.email != "" && u.username != ""
    requires s.repo.up && s.producer.up && "user" in s.repo.roleNames
    requires !s.repo.GetUserByEmailOrUsername(u.username).Ok? && !s.repo.GetUserByEmailOrUsername(u.email).Ok?
    modifies s.repo, s.producer, s.bloom, s.cache
    ensures found
  {
    var err := s.CreateUserIndexed(u);
    assert err.None?;
    assert u.(id := old(s.repo.nextId)) in s.repo.rows;
    var e;
    found, e := s.UsernameExists(u.username);
  }

  // ---------------------------------------------------------------------------
  // GetUsersWithFiltersCursor

  /** The arguments handed to the repository's cursor query. Times are abstract instants. */
  datatype CursorQuery = CursorQuery(limit: int, cursor: Option<int>, search: string, from: Option<int>, to: Option<int>)

  /** The characters strings.TrimSpace removes (their ASCII part). */
  predicate IsSpace(c: char) {
    c == ' ' || c == '\t' || c == '\n' || c == '\r' || c == '\U{B}' || c == '\U{C}'
  }

  function TrimLeft(s: string): (r: string)
    ensures |r| <= |s| && r == s[|s| - |r|..]
    ensures r == [] || !IsSpace(r[0])
    ensures forall k :: 0 <= k < |s| - |r| ==> IsSpace(s[k])
  {
    if s != [] && IsSpace(s[0]) then TrimLeft(s[1..]) else s
  }

  function TrimRight(s: string): (r: string)
    ensures |r| <= |s| && r == s[..|r|]
    ensures r == [] || !IsSpace(r[|r| - 1])
    ensures forall k :: |r| <= k < |s| ==> IsSpace(s[k])
  {
    if s != [] && IsSpace(s[|s| - 1]) then TrimRight(s[..|s| - 1]) else s
  }

  /** `r` is `s[i..j]` and everything outside `i..j` is white space. */
  predicate TrimmedSlice(s: string, r: string, i: int, j: int) {
    && 0 <= i <= j <= |s| && r == s[i..j]
    && (forall k :: 0 <= k < i ==> IsSpace(s[k]))
    && (forall k :: j <= k < |s| ==> IsSpace(s[k]))
  }

  /**
   * strings.TrimSpace: the slice of the input left after removing the white
   * space at both ends, so that what remains starts and ends with a non-space.
   */
  function TrimSpace(s: string): (r: string)
    ensures r == [] || (!IsSpace(r[0]) && !IsSpace(r[|r| - 1]))
    ensures exists i, j :: TrimmedSlice(s, r, i, j)
  {
    var l := TrimLeft(s);
    TrimBothEnds(s, l, TrimRight(l));
    TrimRight(l)
  }

  lemma TrimBothEnds(s: string, l: string, r: string)
    requires l == TrimLeft(s) && r == TrimRight(l)
    ensures TrimmedSlice(s, r, |s| - |l|, |s| - |l| + |r|)
  {
    SliceOfSlice(s, l, r);
  }

  /** A prefix `r` of a suffix `l` of `s`, with white space cut off on both sides. */
  lemma SliceOfSlice(s: string, l: string, r: string)
    requires |l| <= |s| && l == s[|s| - |l|..] && forall k :: 0 <= k < |s| - |l| ==> IsSpace(s[k])
    requires |r| <= |l| && r == l[..|r|] && forall k :: |r| <= k < |l| ==> IsSpace(l[k])
    ensures TrimmedSlice(s, r, |s| - |l|, |s| - |l| + |r|)
  {
    var i, j := |s| - |l|, |s| - |l| + |r|;
    assert r == s[i..j];
    forall k | j <= k < |s| ensures IsSpace(s[k]) {
      assert s[k] == l[k - i];
    }
  }

  /** The trimmed cursor is empty or a timestamp. */
  predicate CursorParses(cursorText: string, parseTimestamp: string -> Option<int>) {
    TrimSpace(cursorText) == "" || parseTimestamp(TrimSpace(cursorText)).Some?
  }

  /** A date filter is absent or a date. */
  predicate DateParses(text: string, parseDate: string -> Option<int>) {
    text == "" || parseDate(text).Some?
  }

  /** Both dates are given, both parse, and the start is after the end. */
  predicate ReversedRange(fromText: string, toText: string, parseDate: string -> Option<int>) {
    && fromText != "" && toText != "" && parseDate(fromText).Some? && parseDate(toText).Some?
    && parseDate(fromText).value > parseDate(toText).value
  }

  /**
   * GetUsersWithFiltersCursor, up to the repository call: parse the trimmed
   * cursor and the two dates (a non-empty one that does not parse is an
   * error), refuse a range whose start is after its end, and replace a limit
   * outside 1..100 by 5. time.Parse is abstracted as the two partial parsers.
   */
  function CursorQueryOf(limit: int, cursorText: string, search: string, fromText: string, toText: string,
                         parseTimestamp: string -> Option<int>, parseDate: string -> Option<int>)
    : (r: Result<CursorQuery, Error>)
    ensures r.Ok? <==> && CursorParses(cursorText, parseTimestamp)
                       && DateParses(fromText, parseDate) && DateParses(toText, parseDate)
                       && !ReversedRange(fromText, toText, parseDate)
    ensures !CursorParses(cursorText, parseTimestamp) ==> r == Err(Wrapped(InvalidCategory, "invalid cursor format"))
    ensures CursorParses(cursorText, parseTimestamp) && !DateParses(fromText, parseDate) ==>
              r == Err(Wrapped(InvalidCategory, "invalid from date"))
    ensures CursorParses(cursorText, parseTimestamp) && DateParses(fromText, parseDate) &&
            !DateParses(toText, parseDate) ==>
              r == Err(Wrapped(InvalidCategory, "invalid to date"))
    ensures CursorParses(cursorText, parseTimestamp) && ReversedRange(fromText, toText, parseDate) ==>
              r == Err(Wrapped(InvalidCategory, "from date cannot be after to date"))
    ensures r.Ok? ==> r.value.cursor == (if TrimSpace(cursorText) == "" then None else parseTimestamp(TrimSpace(cursorText)))
    ensures r.Ok? ==> r.value.from == (if fromText == "" then None else parseDate(fromText))
    ensures r.Ok? ==> r.value.to == (if toText == "" then None else parseDate(toText))
    ensures r.Ok? ==> 1 <= r.value.limit <= 100
    ensures r.Ok? ==> r.value.limit == (if 1 <= limit <= 100 then limit else 5)
    ensures r.Ok? ==> r.value.search == search
    ensures r.Ok? && r.value.from.Some? && r.value.to.Some? ==> r.value.from.value <= r.value.to.value
    ensures r.Ok? ==> (r.value.from.Some? <==> fromText != "") && (r.value.to.Some? <==> toText != "")
    ensures r.Err? ==> r.error.Wrapped? && r.error.inner == InvalidCategory
    ensures (fromText != "" && toText != "" && parseDate(fromText).Some? && parseDate(toText).Some? &&
             parseDate(fromText).value > parseDate(toText).value) ==> r.Err?
  {
    var trimmed := TrimSpace(cursorText);
    var cursor := if trimmed == "" then Some(None) else
                    match parseTimestamp(trimmed) case Some(t) => Some(Some(t)) case None => None;
    var from := if fromText == "" then Some(None) else
                  match parseDate(fromText) case Some(t) => Some(Some(t)) case None => None;
    var to := if toText == "" then Some(None) else
                match parseDate(toText) case Some(t) => Some(Some(t)) case None => None;
    if cursor.None? then Err(Wrapped(InvalidCategory, "invalid cursor format"))
    else if from.None? then Err(Wrapped(InvalidCategory, "invalid from date"))
    else if to.None? then Err(Wrapped(InvalidCategory, "invalid to date"))
    else if from.value.Some? && to.value.Some? && from.value.value > to.value.value then
      Err(Wrapped(InvalidCategory, "from date cannot be after to date"))
    else
      Ok(CursorQuery(if limit <= 0 || limit > 100 then 5 else limit, cursor.value, search, from.value, to.value))
  }

  /**
   * A reversed date range is a client error, yet the identity switch of
   * HttpStatusFromError answers 500 for it; the corrected mapping answers 400.
   */
  lemma ReversedRangeStatus(limit: int, cursorText: string, search: string, fromText: string, toText: string,
                            parseTimestamp: string -> Option<int>, parseDate: string -> Option<int>)
    requires TrimSpace(cursorText) == ""
    requires fromText != "" && toText != "" && parseDate(fromText).Some? && parseDate(toText).Some?
    requires parseDate(fromText).value > parseDate(toText).value
    ensures var r := CursorQueryOf(limit, cursorText, search, fromText, toText, parseTimestamp, parseDate);
            r.Err? && ErrorHandler.HttpStatusFromError(r.error) == 500 &&
            ErrorHandler.HttpStatusFromErrorChain(r.error) == 400
  {
    var r := CursorQueryOf(limit, cursorText, search, fromText, toText, parseTimestamp, parseDate);
    ErrorHandler.WrappedSentinelKeepsStatus(InvalidCategory, r.error.note);
  }
}
