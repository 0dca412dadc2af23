/**
 * The durable store as the services see it: the users table queried by
 * repositories/user_repo.go, the user-role assignments of
 * repositories/userrole_repo.go and the permission query of
 * service/authorize.go. SQL is not modelled. A query returns the first
 * matching row in table order, and every statement fails when the database
 * is down.
 */
module Repositories {
  import opened Wrappers
  import opened Errors
  import Models

  type User = Models.User

  /** The first row that satisfies `p`. */
  function FindFirst(rows: seq<User>, p: User -> bool): (r: Option<User>)
    ensures r.Some? ==> r.value in rows && p(r.value)
    ensures r.Some? ==> exists i :: 0 <= i < |rows| && rows[i] == r.value && forall j :: 0 <= j < i ==> !p(rows[j])
    ensures r.None? ==> forall u :: u in rows ==> !p(u)
  {
    if rows == [] then None
    else if p(rows[0]) then Some(rows[0])
    else
      var r := FindFirst(rows[1..], p);
      if r.Some? then
        var i :| 0 <= i < |rows| - 1 && rows[1..][i] == r.value && forall j :: 0 <= j < i ==> !p(rows[1..][j]);
        assert rows[i + 1] == r.value && forall j :: 0 <= j < i + 1 ==> !p(rows[j]);
        r
      else r
  }

  /** A row appended to a table where nothing satisfies `p` is the first that does. */
  lemma {:induction false} FindFirstAppended(rows: seq<User>, x: User, p: User -> bool)
    requires forall u :: u in rows ==> !p(u)
    requires p(x)
    ensures FindFirst(rows + [x], p) == Some(x)
  {
    if rows != [] {
      assert (rows + [x])[1..] == rows[1..] + [x];
      FindFirstAppended(rows[1..], x, p);
    }
  }

  /** The rows with `p` changed by `f`, the others unchanged. */
  function UpdateWhere(rows: seq<User>, p: User -> bool, f: User -> User): (r: seq<User>)
    ensures |r| == |rows|
    ensures forall i :: 0 <= i < |rows| ==> r[i] == if p(rows[i]) then f(rows[i]) else rows[i]
  {
    seq(|rows|, i requires 0 <= i < |rows| => if p(rows[i]) then f(rows[i]) else rows[i])
  }

  function DeleteWhere(rows: seq<User>, p: User -> bool): (r: seq<User>)
    ensures forall u :: u in r <==> u in rows && !p(u)
  {
    if rows == [] then []
    else if p(rows[0]) then DeleteWhere(rows[1..], p)
    else [rows[0]] + DeleteWhere(rows[1..], p)
  }

  predicate Any(rows: seq<User>, p: User -> bool) {
    exists u :: u in rows && p(u)
  }

  /**
   * The users table's ID column: a serial key, so every ID is positive and
   * below the next one to be handed out, and no two rows share one.
   */
  ghost predicate IdsValid(rows: seq<User>, nextId: int) {
    && 1 <= nextId
    && (forall u :: u in rows ==> 0 < u.id < nextId)
    && (forall u, v :: u in rows && v in rows && u.id == v.id ==> u == v)
  }

  /** A row under the next ID keeps the IDs valid, with the counter moved on. */
  lemma InsertKeepsIds(rows: seq<User>, nextId: int, x: User)
    requires IdsValid(rows, nextId) && x.id == nextId
    ensures IdsValid(rows + [x], nextId + 1)
  {
    forall u | u in rows + [x] ensures u in rows || u == x {
    }
  }

  /** Updating rows without touching their IDs keeps the IDs valid. */
  lemma UpdateKeepsIds(rows: seq<User>, nextId: int, p: User -> bool, f: User -> User)
    requires IdsValid(rows, nextId)
    requires forall u :: f(u).id == u.id
    ensures IdsValid(UpdateWhere(rows, p, f), nextId)
  {
    var r := UpdateWhere(rows, p, f);
    forall u, v | u in r && v in r && u.id == v.id ensures u == v {
      var i :| 0 <= i < |r| && r[i] == u;
      var j :| 0 <= j < |r| && r[j] == v;
      assert rows[i].id == u.id && rows[j].id == v.id;
      assert rows[i] in rows && rows[j] in rows;
    }
    forall u | u in r ensures 0 < u.id < nextId {
      var i :| 0 <= i < |r| && r[i] == u;
      assert rows[i] in rows;
    }
  }

  /** Deleting rows keeps the IDs valid. */
  lemma DeleteKeepsIds(rows: seq<User>, nextId: int, p: User -> bool)
    requires IdsValid(rows, nextId)
    ensures IdsValid(DeleteWhere(rows, p), nextId)
  {
  }

  function DbError(op: string): Error {
    Wrapped(DatabaseFailure, op)
  }

  class UserRepo {
    var rows: seq<User>
    /** user_roles: user ID and role name. */
    var userRoles: seq<(int, string)>
    /** The names in the roles table. */
    var roleNames: set<string>
    var nextId: int
    var up: bool

    ghost predicate Valid()
      reads this
    {
      IdsValid(rows, nextId)
    }

    constructor (up: bool, roleNames: set<string>)
      ensures rows == [] && userRoles == [] && this.roleNames == roleNames && this.up == up && nextId == 1
      ensures Valid()
    {
      rows := [];
      userRoles := [];
      this.roleNames := roleNames;
      nextId := 1;
      this.up := up;
    }

    function Lookup(p: User -> bool): (r: Result<User, Error>)
      reads this
      ensures r.Ok? ==> up && r.value in rows && p(r.value)
      ensures up && r.Err? ==> r.error == UserNotFound && !Any(rows, p)
      ensures !up ==> r == Err(DbError("query"))
    {
      if !up then Err(DbError("query"))
      else match FindFirst(rows, p)
        case Some(u) => Ok(u)
        case None => Err(UserNotFound)
    }

    /** GetUserByID: the selected columns leave out the password. */
    function GetUserByID(id: int): (r: Result<User, Error>)
      reads this
      ensures r.Ok? ==> r.value.id == id && r.value.password == ""
      ensures r.Ok? ==> exists u :: u in rows && u.id == id && r.value == u.(password := "")
      ensures up && r.Err? ==> r.error == UserNotFound && forall u :: u in rows ==> u.id != id
    {
      match Lookup((u: User) => u.id == id)
      case Ok(u) => Ok(u.(password := ""))
      case Err(e) => Err(e)
    }

    function GetUserByEmail(email: string): (r: Result<User, Error>)
      reads this
      ensures r.Ok? ==> r.value in rows && r.value.email == email
      ensures up && r.Err? ==> r.error == UserNotFound && forall u :: u in rows ==> u.email != email
    {
      Lookup((u: User) => u.email == email)
    }

    function GetUserByUsername(username: string): (r: Result<User, Error>)
      reads this
      ensures r.Ok? ==> r.value in rows && r.value.username == username
      ensures up && r.Err? ==> r.error == UserNotFound && forall u :: u in rows ==> u.username != username
    {
      Lookup((u: User) => u.username == username)
    }

    /** The row whose email or username equals `key`. */
    function GetUserByEmailOrUsername(key: string): (r: Result<User, Error>)
      reads this
      ensures r.Ok? ==> r.value in rows && (r.value.email == key || r.value.username == key)
      ensures up && r.Err? ==>
                r.error == UserNotFound && forall u :: u in rows ==> u.email != key && u.username != key
    {
      Lookup((u: User) => u.email == key || u.username == key)
    }

    /**
     * CreateUser: refuses a user whose username or email is already taken
     * (as an email or a username), then inserts the row under the next ID.
     * The two existence probes drop their errors, so with the database down
     * the insert itself is what fails.
     */
    method CreateUser(u: User) returns (err: Option<Error>)
      modifies this
      ensures up == old(up) && userRoles == old(userRoles) && roleNames == old(roleNames)
      ensures var taken := old(up) && (old(GetUserByEmailOrUsername(u.username)).Ok? ||
                                       old(GetUserByEmailOrUsername(u.email)).Ok?);
              if taken then err == Some(UserExists) && rows == old(rows)
              else if !old(up) then err == Some(DbError("insert")) && rows == old(rows)
              else err.None? && rows == old(rows) + [u.(id := old(nextId))] && nextId == old(nextId) + 1
      ensures old(Valid()) ==> Valid()
    {
      var byUsername := GetUserByEmailOrUsername(u.username);
      var byEmail := GetUserByEmailOrUsername(u.email);
      if byUsername.Ok? || byEmail.Ok? {
        return Some(UserExists);
      }
      if !up {
        return Some(DbError("insert"));
      }
      if Valid() {
        InsertKeepsIds(rows, nextId, u.(id := nextId));
      }
      rows := rows + [u.(id := nextId)];
      nextId := nextId + 1;
      return None;
    }

    /** UpdatePassword: sets the password of every row with this username. */
    method UpdatePassword(username: string, password: string) returns (err: Option<Error>)
      modifies this
      ensures up == old(up) && userRoles == old(userRoles) && roleNames == old(roleNames) && nextId == old(nextId)
      ensures !old(up) ==> err == Some(DbError("update")) && rows == old(rows)
      ensures old(up) && !Any(old(rows), (u: User) => u.username == username) ==>
                err == Some(UserNotFound) && rows == old(rows)
      ensures old(up) && Any(old(rows), (u: User) => u.username == username) ==>
                err.None? && rows == UpdateWhere(old(rows), (u: User) => u.username == username, (u: User) => u.(password := password))
      ensures old(Valid()) ==> Valid()
    {
      if !up {
        return Some(DbError("update"));
      }
      if !Any(rows, (u: User) => u.username == username) {
        return Some(UserNotFound);
      }
      if Valid() {
        UpdateKeepsIds(rows, nextId, (u: User) => u.username == username, (u: User) => u.(password := password));
      }
      rows := UpdateWhere(rows, (u: User) => u.username == username, (u: User) => u.(password := password));
      return None;
    }

    /** UpdateUser: overwrites name, email, username and mobile number of the rows with this ID. */
    method UpdateUser(v: User) returns (err: Option<Error>)
      modifies this
      ensures up == old(up) && userRoles == old(userRoles) && roleNames == old(roleNames) && nextId == old(nextId)
      ensures !old(up) ==> err == Some(DbError("update")) && rows == old(rows)
      ensures old(up) && !Any(old(rows), (u: User) => u.id == v.id) ==> err == Some(UserNotFound) && rows == old(rows)
      ensures old(up) && Any(old(rows), (u: User) => u.id == v.id) ==>
                err.None? &&
                rows == UpdateWhere(old(rows), (u: User) => u.id == v.id,
                                    (u: User) => u.(name := v.name, email := v.email, username := v.username,
                                            mobileNumber := v.mobileNumber))
      ensures old(Valid()) ==> Valid()
    {
      if !up {
        return Some(DbError("update"));
      }
      if !Any(rows, (u: User) => u.id == v.id) {
        return Some(UserNotFound);
      }
      if Valid() {
        UpdateKeepsIds(rows, nextId, (u: User) => u.id == v.id,
                       (u: User) => u.(name := v.name, email := v.email, username := v.username,
                               mobileNumber := v.mobileNumber));
      }
      rows := UpdateWhere(rows, (u: User) => u.id == v.id,
                          (u: User) => u.(name := v.name, email := v.email, username := v.username,
                                  mobileNumber := v.mobileNumber));
      return None;
    }

    method DeleteUser(id: int) returns (err: Option<Error>)
      modifies this
      ensures up == old(up) && userRoles == old(userRoles) && roleNames == old(roleNames) && nextId == old(nextId)
      ensures !old(up) ==> err == Some(DbError("delete")) && rows == old(rows)
      ensures old(up) && !Any(old(rows), (u: User) => u.id == id) ==> err == Some(UserNotFound) && rows == old(rows)
      ensures old(up) && Any(old(rows), (u: User) => u.id == id) ==> err.None? && rows == DeleteWhere(old(rows), (u: User) => u.id == id)
      ensures old(Valid()) ==> Valid()
    {
      if !up {
        return Some(DbError("delete"));
      }
      if !Any(rows, (u: User) => u.id == id) {
        return Some(UserNotFound);
      }
      rows := DeleteWhere(rows, (u: User) => u.id == id);
      return None;
    }

    /** AddUserRole: looks the role up by name, then records the assignment. */
    method AddUserRole(role: string, user: int) returns (err: Option<Error>)
      modifies this
      ensures up == old(up) && rows == old(rows) && roleNames == old(roleNames) && nextId == old(nextId)
      ensures !old(up) ==> err.Some? && userRoles == old(userRoles)
      ensures old(up) && role !in roleNames ==>
                err == Some(Message("role '" + role + "' not found")) && userRoles == old(userRoles)
      ensures old(up) && role in roleNames ==> err.None? && userRoles == old(userRoles) + [(user, role)]
      ensures old(Valid()) ==> Valid()
    {
      if !up {
        return Some(Message("connection refused"));
      }
      if role !in roleNames {
        return Some(Message("role '" + role + "' not found"));
      }
      userRoles := userRoles + [(user, role)];
      return None;
    }
  }

  /**
   * The permission query of service/authorize.go selects the distinct
   * permission names reachable through a user's roles; its result is kept
   * here per user. The model does not insist that a list has no repeats,
   * since only membership in it is ever used.
   */
  class PermissionStore {
    var grants: map<int, seq<string>>
    var up: bool

    constructor (grants: map<int, seq<string>>, up: bool)
      ensures this.grants == grants && this.up == up
    {
      this.grants := grants;
      this.up := up;
    }

    /** GetPermissions: a user without roles has no rows, so gets the empty list. */
    function GetPermissions(user: int): (r: Result<seq<string>, Error>)
      reads this
      ensures r.Ok? <==> up
      ensures r.Ok? ==> r.value == if user in grants then grants[user] else []
    {
      if !up then Err(Message("connection refused"))
      else Ok(if user in grants then grants[user] else [])
    }
  }
}
