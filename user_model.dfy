/**
 * models/user.go: the user record and its validation. The email and mobile
 * patterns are shared with requests/user_update.go, which uses the same
 * regular expressions.
 */
module Models {
  import opened Wrappers
  import opened Errors

  datatype User = User(
    id: int,
    name: string,
    email: string,
    username: string,
    password: string,
    mobileNumber: string)

  // ---------------------------------------------------------------------------
  // The email pattern ^[a-zA-Z0-9._%+\-]+@[a-zA-Z0-9.\-]+\.[a-zA-Z]{2,}$

  predicate IsLetter(c: char) {
    'a' <= c <= 'z' || 'A' <= c <= 'Z'
  }

  predicate IsAsciiDigit(c: char) {
    '0' <= c <= '9'
  }

  /** [a-zA-Z0-9._%+\-] */
  predicate IsLocalChar(c: char) {
    IsLetter(c) || IsAsciiDigit(c) || c == '.' || c == '_' || c == '%' || c == '+' || c == '-'
  }

  /** [a-zA-Z0-9.\-] */
  predicate IsDomainChar(c: char) {
    IsLetter(c) || IsAsciiDigit(c) || c == '.' || c == '-'
  }

  predicate AllLocal(s: string) {
    forall i :: 0 <= i < |s| ==> IsLocalChar(s[i])
  }

  predicate AllDomain(s: string) {
    forall i :: 0 <= i < |s| ==> IsDomainChar(s[i])
  }

  predicate AllLetters(s: string) {
    forall i :: 0 <= i < |s| ==> IsLetter(s[i])
  }

  /** `s` splits at `at` and `dot` as local-part "@" domain "." top-level-domain. */
  predicate EmailSplit(s: string, at: int, dot: int) {
    && 0 < at && at + 1 < dot && dot + 2 < |s|
    && s[at] == '@' && s[dot] == '.'
    && AllLocal(s[..at]) && AllDomain(s[at + 1..dot]) && AllLetters(s[dot + 1..])
  }

  /** What the regular expression means: some split of the whole string fits it. */
  ghost predicate EmailPattern(s: string) {
    exists at, dot :: EmailSplit(s, at, dot)
  }

  function FirstIndexOf(s: string, c: char): (r: Option<nat>)
    ensures r.Some? ==> r.value < |s| && s[r.value] == c && forall i :: 0 <= i < r.value ==> s[i] != c
    ensures r.None? ==> forall i :: 0 <= i < |s| ==> s[i] != c
  {
    if s == [] then None
    else if s[0] == c then Some(0)
    else match FirstIndexOf(s[1..], c)
      case Some(i) => Some(i + 1)
      case None => None
  }

  function LastIndexOf(s: string, c: char): (r: Option<nat>)
    ensures r.Some? ==> r.value < |s| && s[r.value] == c && forall i :: r.value < i < |s| ==> s[i] != c
    ensures r.None? ==> forall i :: 0 <= i < |s| ==> s[i] != c
  {
    if s == [] then None
    else if s[|s| - 1] == c then Some(|s| - 1)
    else LastIndexOf(s[..|s| - 1], c)
  }

  /**
   * A matcher for the email pattern without backtracking: no character class
   * holds '@', so the split is at the only '@'; the top-level domain holds no
   * '.', so the domain ends at the last '.'.
   */
  function MatchesEmail(s: string): bool {
    match (FirstIndexOf(s, '@'), LastIndexOf(s, '.'))
    case (Some(at), Some(dot)) => EmailSplit(s, at, dot)
    case _ => false
  }

  /** The matcher accepts exactly the strings the regular expression matches. */
  lemma MatchesEmailIsPattern(s: string)
    ensures MatchesEmail(s) <==> EmailPattern(s)
  {
    if EmailPattern(s) {
      var at, dot :| EmailSplit(s, at, dot);
      var a := FirstIndexOf(s, '@');
      var d := LastIndexOf(s, '.');
      // nothing before `at` is an '@', and nothing after `dot` is a '.'
      assert forall i :: 0 <= i < at ==> s[..at][i] == s[i];
      assert forall i :: dot < i < |s| ==> s[dot + 1..][i - dot - 1] == s[i];
      assert a == Some(at);
      assert d == Some(dot);
    }
  }

  /** ^[0-9]{10}$ */
  predicate MatchesMobile(m: string) {
    |m| == 10 && forall i :: 0 <= i < |m| ==> IsAsciiDigit(m[i])
  }

  // ---------------------------------------------------------------------------
  // Password strength

  /**
   * The first arm of validatePassword's switch that a character satisfies.
   * unicode.IsUpper, IsLower, IsDigit, IsPunct and IsSymbol are taken on
   * their ASCII part; other characters fall in no class.
   */
  datatype CharClass = Upper | Lower | Digit | Special | NoClass

  function Classify(c: char): (r: CharClass)
    ensures r == Upper <==> 'A' <= c <= 'Z'
    ensures r == Lower <==> 'a' <= c <= 'z'
    ensures r == Digit <==> '0' <= c <= '9'
    ensures r == NoClass <==> !('!' <= c <= '~')
  {
    if 'A' <= c <= 'Z' then Upper
    else if 'a' <= c <= 'z' then Lower
    else if '0' <= c <= '9' then Digit
    else if '!' <= c <= '/' || ':' <= c <= '@' || '[' <= c <= '`' || '{' <= c <= '~' then Special
    else NoClass
  }

  /** The number of bytes the character takes in UTF-8, Go's string encoding. */
  function Utf8Width(c: char): nat {
    if c as int < 0x80 then 1 else if c as int < 0x800 then 2 else if c as int < 0x10000 then 3 else 4
  }

  /** len(s) in Go: the UTF-8 byte length. */
  function Utf8Len(s: string): (n: nat)
    ensures n >= |s|
  {
    if s == [] then 0 else Utf8Len(s[..|s| - 1]) + Utf8Width(s[|s| - 1])
  }

  predicate HasClass(p: string, k: CharClass) {
    exists i :: 0 <= i < |p| && Classify(p[i]) == k
  }

  /** At least 8 bytes and at least one character of each of the four classes. */
  predicate StrongPassword(p: string) {
    Utf8Len(p) >= 8 && HasClass(p, Upper) && HasClass(p, Lower) && HasClass(p, Digit) && HasClass(p, Special)
  }

  /**
   * validatePassword: one pass over the characters; each character sets the
   * flag of the first class it belongs to, and no flag is ever cleared.
   */
  method ValidatePassword(password: string) returns (err: Option<Error>)
    ensures err.None? <==> StrongPassword(password)
    ensures err.Some? ==> err.value == WeakPassword
  {
    var hasMinLen := Utf8Len(password) >= 8;
    var hasUpper, hasLower, hasNumber, hasSpecial := false, false, false, false;
    for i := 0 to |password|
      invariant hasUpper <==> HasClass(password[..i], Upper)
      invariant hasLower <==> HasClass(password[..i], Lower)
      invariant hasNumber <==> HasClass(password[..i], Digit)
      invariant hasSpecial <==> HasClass(password[..i], Special)
    {
      var ch := password[i];
      assert password[..i + 1] == password[..i] + [ch];
      match Classify(ch)
      case Upper => hasUpper := true;
      case Lower => hasLower := true;
      case Digit => hasNumber := true;
      case Special => hasSpecial := true;
      case NoClass =>
    }
    assert password[..|password|] == password;
    if !(hasMinLen && hasUpper && hasLower && hasNumber && hasSpecial) {
      return Some(WeakPassword);
    }
    return None;
  }

  // ---------------------------------------------------------------------------
  // User.Validate

  predicate MissingField(u: User) {
    u.name == "" || u.email == "" || u.username == "" || u.password == ""
  }

  predicate MobileAccepted(m: string) {
    m == "" || MatchesMobile(m)
  }

  /**
   * User.Validate: the checks run in the order missing field, email format,
   * mobile number, password strength, and the first failing one is returned.
   */
  method Validate(u: User) returns (err: Option<Error>)
    ensures MissingField(u) ==> err == Some(Errors.MissingField)
    ensures !MissingField(u) && !EmailPattern(u.email) ==> err == Some(InvalidEmail)
    ensures !MissingField(u) && EmailPattern(u.email) && !MobileAccepted(u.mobileNumber) ==>
              err == Some(InvalidField)
    ensures (!MissingField(u) && EmailPattern(u.email) && MobileAccepted(u.mobileNumber) &&
             !StrongPassword(u.password)) ==> err == Some(WeakPassword)
    ensures err.None? <==>
              !MissingField(u) && EmailPattern(u.email) && MobileAccepted(u.mobileNumber) &&
              StrongPassword(u.password)
  {
    if u.name == "" || u.email == "" || u.username == "" || u.password == "" {
      return Some(Errors.MissingField);
    }
    MatchesEmailIsPattern(u.email);
    if !MatchesEmail(u.email) {
      return Some(InvalidEmail);
    }
    if u.mobileNumber != "" {
      if !MatchesMobile(u.mobileNumber) {
        return Some(InvalidField);
      }
    }
    err := ValidatePassword(u.password);
  }

  lemma {:induction false} AsciiLength(s: string)
    requires forall i :: 0 <= i < |s| ==> s[i] as int < 0x80
    ensures Utf8Len(s) == |s|
  {
    if s != [] {
      AsciiLength(s[..|s| - 1]);
    }
  }

  /** Seven characters can be eight bytes: the length test counts bytes, not characters. */
  lemma MinLengthCountsBytes()
    ensures var p := "Ab1!xy\U{E9}"; |p| == 7 && Utf8Len(p) == 8 && StrongPassword(p)
  {
    var p := "Ab1!xy\U{E9}";
    assert Utf8Width(p[6]) == 2;
    AsciiLength(p[..6]);
    assert HasClass(p, Upper) by { assert Classify(p[0]) == Upper; }
    assert HasClass(p, Lower) by { assert Classify(p[1]) == Lower; }
    assert HasClass(p, Digit) by { assert Classify(p[2]) == Digit; }
    assert HasClass(p, Special) by { assert Classify(p[3]) == Special; }
  }
}
