/**
 * requests/user_update.go: the body of a user update. It has no password, and
 * its email and mobile checks are the ones User.Validate uses.
 */
module UpdateRequests {
  import opened Wrappers
  import opened Errors
  import Models

  datatype UserReq = UserReq(name: string, email: string, username: string, mobileNumber: string)

  /**
   * UserReq.Validate: missing field, then email format, then mobile number;
   * the first failing check is returned.
   */
  function Validate(u: UserReq): (err: Option<Error>)
    ensures (u.name == "" || u.email == "" || u.username == "") ==> err == Some(MissingField)
    ensures u.name != "" && u.email != "" && u.username != "" && !Models.EmailPattern(u.email) ==>
              err == Some(InvalidEmail)
    ensures (u.name != "" && u.email != "" && u.username != "" && Models.EmailPattern(u.email) &&
             !Models.MobileAccepted(u.mobileNumber)) ==> err == Some(InvalidField)
    ensures err.None? <==>
              u.name != "" && u.email != "" && u.username != "" &&
              Models.EmailPattern(u.email) && Models.MobileAccepted(u.mobileNumber)
  {
    Models.MatchesEmailIsPattern(u.email);
    if u.name == "" || u.email == "" || u.username == "" then Some(MissingField)
    else if !Models.MatchesEmail(u.email) then Some(InvalidEmail)
    else if u.mobileNumber != "" && !Models.MatchesMobile(u.mobileNumber) then Some(InvalidField)
    else None
  }

  /** The update request made from a user record, without its ID and password. */
  function RequestOf(u: Models.User): UserReq {
    UserReq(u.name, u.email, u.username, u.mobileNumber)
  }

  /**
   * A user record with a strong password passes User.Validate exactly when
   * the update request made from it passes UserReq.Validate.
   */
  lemma AgreesWithUserValidation(u: Models.User)
    requires Models.StrongPassword(u.password)
    ensures Validate(RequestOf(u)).None? <==>
              !Models.MissingField(u) && Models.EmailPattern(u.email) && Models.MobileAccepted(u.mobileNumber) &&
              Models.StrongPassword(u.password)
  {
  }
}
