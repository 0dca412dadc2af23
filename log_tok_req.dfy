/** requests/log_tok_req.go: the body of a logout request. */
module LoginTokenRequests {
  import opened Wrappers
  import opened Errors

  datatype LoginTokenRequest = LoginTokenRequest(accessToken: string, refreshToken: string)

  /** LoginTokenRequest.Validate: both tokens must be present; their content is not inspected. */
  function Validate(r: LoginTokenRequest): (err: Option<Error>)
    ensures err.None? <==> r.accessToken != "" && r.refreshToken != ""
    ensures err.Some? ==> err.value == MissingField
  {
    if r.accessToken == "" || r.refreshToken == "" then Some(MissingField) else None
  }

  /** Two requests whose tokens are empty in the same places get the same verdict. */
  lemma DependsOnlyOnEmptiness(r: LoginTokenRequest, s: LoginTokenRequest)
    requires (r.accessToken == "") == (s.accessToken == "")
    requires (r.refreshToken == "") == (s.refreshToken == "")
    ensures Validate(r) == Validate(s)
  {
  }
}
