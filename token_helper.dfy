/**
 * utils/token_helper.go: ExtractToken, with the HTTP request reduced to the
 * value of its Authorization header.
 */
module TokenHelper {
  import opened Wrappers
  import opened Errors

  const BearerPrefix: string := "Bearer "
  const MissingTokenText: string := "missing token in Authorization header"

  /**
   * The token after an exact, case-sensitive "Bearer " prefix with a nil
   * error; otherwise an empty token and an error. Like Go, it returns the
   * pair (token, error).
   */
  function ExtractToken(header: string): (r: (string, Option<Error>))
    ensures r.1.None? <==> BearerPrefix <= header
    ensures r.1.None? ==> header == BearerPrefix + r.0
    ensures r.1.Some? ==> r.0 == "" && r.1 == Some(Message(MissingTokenText))
  {
    if BearerPrefix <= header then (header[|BearerPrefix|..], None)
    else ("", Some(Message(MissingTokenText)))
  }

  /** Every token survives being sent as "Bearer <token>". */
  lemma ExtractRoundTrip(t: string)
    ensures ExtractToken(BearerPrefix + t) == (t, None)
  {
    assert BearerPrefix <= BearerPrefix + t;
    assert (BearerPrefix + t)[|BearerPrefix|..] == t;
  }

  /** Only one prefix is removed. */
  lemma OnlyOnePrefixRemoved(t: string)
    ensures ExtractToken(BearerPrefix + BearerPrefix + t) == (BearerPrefix + t, None)
  {
    ExtractRoundTrip(BearerPrefix + t);
    assert BearerPrefix + BearerPrefix + t == BearerPrefix + (BearerPrefix + t);
  }

  /** The prefix is matched exactly: other spellings, a missing space and an empty header fail. */
  lemma InexactPrefixRejected(t: string)
    ensures ExtractToken("bearer " + t) == ("", Some(Message(MissingTokenText)))
    ensures ExtractToken("Bearer") == ("", Some(Message(MissingTokenText)))
    ensures ExtractToken("") == ("", Some(Message(MissingTokenText)))
  {
    assert ("bearer " + t)[0] != BearerPrefix[0];
  }

  /** The bare prefix is accepted and yields the empty token, which callers treat as missing. */
  lemma BarePrefixYieldsEmptyToken()
    ensures ExtractToken(BearerPrefix) == ("", None)
  {
  }
}
