/**
 * The token codec of utils/jwt/jwt.go, with the HMAC signature abstracted
 * away: a token decodes exactly when this codec issued it and it has not yet
 * expired. Expiry is the explicit `Lapse` step.
 */
module Jwt {
  import opened Wrappers
  import Strconv

  /** The claims a token carries: the user ID and its lifetime in minutes. */
  datatype Claims = Claims(user: int, minutes: int)

  const TokenPrefix: string := "jwt."

  /** The n-th token this codec signs. */
  function SerialToken(n: nat): string {
    TokenPrefix + Strconv.Itoa(n)
  }

  /** The serial number a token was signed under, or -1 for a string that is not such a token. */
  function SerialOf(t: string): int {
    if TokenPrefix <= t then
      match Strconv.Atoi(t[|TokenPrefix|..])
      case Some(n) => n
      case None => -1
    else -1
  }

  lemma SerialOfToken(n: nat)
    ensures SerialOf(SerialToken(n)) == n
  {
    assert SerialToken(n)[|TokenPrefix|..] == Strconv.Itoa(n);
    Strconv.AtoiItoa(n);
  }

  class Codec {
    /** The tokens signed here that have not expired, with their claims. */
    var issued: map<string, Claims>
    var serial: nat

    ghost predicate Valid()
      reads this
    {
      forall t :: t in issued ==> SerialOf(t) < serial
    }

    constructor ()
      ensures Valid() && issued == map[]
    {
      issued := map[];
      serial := 0;
    }

    /** Decode: the user claim of a token that verifies, or None. */
    function Decode(t: string): (r: Option<int>)
      reads this
      ensures r.Some? <==> t in issued
      ensures r.Some? ==> r.value == issued[t].user
    {
      if t in issued then Some(issued[t].user) else None
    }

    /**
     * GenerateJWTtoken: a token that has never been issued before. The
     * source signs the user and two whole-second timestamps, so two tokens
     * for one user and lifetime issued within the same second coincide; the
     * serial number here keeps them apart.
     */
    method Generate(user: int, minutes: int) returns (t: string)
      requires Valid()
      modifies this
      ensures Valid()
      ensures t != "" && t !in old(issued)
      ensures issued == old(issued)[t := Claims(user, minutes)]
    {
      t := SerialToken(serial);
      SerialOfToken(serial);
      issued := issued[t := Claims(user, minutes)];
      serial := serial + 1;
    }

    /** Time passes until the token expires. */
    method Lapse(t: string)
      requires Valid()
      modifies this
      ensures Valid()
      ensures issued == old(issued) - {t}
    {
      issued := issued - {t};
    }
  }
}
