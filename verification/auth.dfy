/**
 * Request validation in the authentication handler (backend/internal/handlers/auth.go):
 * the login body check, the e-mail shape check, the password policy and the extraction of
 * the bearer token from the Authorization header.
 *
 * Go strings are byte strings and this code measures and slices them by byte, so they are
 * modelled as UTF-8 byte sequences. Every comparison is against an ASCII byte, and in UTF-8
 * an ASCII byte never occurs inside a multi-byte sequence (an invalid byte decodes to U+FFFD),
 * so the source's rune-by-rune loops agree with the byte-by-byte scans below.
 */
module Auth {
  import opened Wrappers

  /** One byte of a Go string. */
  type byte = b: int | 0 <= b < 256

  /** The bytes of an ASCII literal. */
  function Ascii(s: string): (r: seq<byte>)
    requires forall i | 0 <= i < |s| :: s[i] as int < 128
    ensures |r| == |s|
    ensures forall i | 0 <= i < |s| :: r[i] == s[i] as int
  {
    if s == [] then [] else [s[0] as int] + Ascii(s[1..])
  }

  const AT: byte := 64
  const DOT: byte := 46

  /** Number of occurrences of byte `b` in `s`. */
  function Count(s: seq<byte>, b: byte): (n: nat)
    ensures n <= |s|
  {
    if s == [] then 0 else Count(s[..|s| - 1], b) + (if s[|s| - 1] == b then 1 else 0)
  }

  lemma CountStep(s: seq<byte>, b: byte, i: nat)
    requires i < |s|
    ensures Count(s[..i + 1], b) == Count(s[..i], b) + (if s[i] == b then 1 else 0)
  {
    assert s[..i + 1][..i] == s[..i];
  }

  /** Counting is additive over a split of the string. */
  lemma {:induction false} CountSplit(s: seq<byte>, b: byte, i: nat)
    requires i <= |s|
    ensures Count(s, b) == Count(s[..i], b) + Count(s[i..], b)
    decreases |s|
  {
    if i < |s| {
      var s' := s[..|s| - 1];
      CountSplit(s', b, i);
      assert s'[..i] == s[..i];
      assert s[i..][..|s[i..]| - 1] == s'[i..];
    } else {
      assert s[..i] == s;
    }
  }

  lemma {:induction false} CountPositive(s: seq<byte>, b: byte, a: nat)
    requires a < |s| && s[a] == b
    ensures Count(s, b) >= 1
    decreases |s|
  {
    if a < |s| - 1 {
      CountPositive(s[..|s| - 1], b, a);
    }
  }

  /** A byte that occurs exactly once occurs at a single position. */
  lemma CountOneUnique(s: seq<byte>, b: byte, a: nat, a': nat)
    requires Count(s, b) == 1
    requires a < |s| && a' < |s| && s[a] == b && s[a'] == b
    ensures a == a'
  {
    if a < a' {
      CountSplit(s, b, a');
      CountPositive(s[..a'], b, a);
      CountPositive(s[a'..], b, 0);
    } else if a' < a {
      CountSplit(s, b, a);
      CountPositive(s[..a], b, a');
      CountPositive(s[a..], b, 0);
    }
  }

  /** Some '.' follows position `a`. */
  predicate DotAfter(e: seq<byte>, a: int) {
    exists j | 0 <= j < |e| && a < j :: e[j] == DOT
  }

  /**
   * The accepted e-mail shape: 3 to 254 bytes, exactly one '@', that '@' neither first nor
   * last, and a '.' somewhere after it.
   */
  predicate WellFormedEmail(e: seq<byte>) {
    && 3 <= |e| <= 254
    && Count(e, AT) == 1
    && exists a | 0 < a < |e| - 1 :: e[a] == AT && DotAfter(e, a)
  }

  /** A well-formed address has an '@', and neither its first nor its last byte is one. */
  lemma WellFormedEmailEnds(e: seq<byte>)
    ensures WellFormedEmail(e) ==> AT in e && e[0] != AT && e[|e| - 1] != AT
  {
    if WellFormedEmail(e) {
      var a :| 0 < a < |e| - 1 && e[a] == AT && DotAfter(e, a);
      if e[0] == AT { CountOneUnique(e, AT, a, 0); }
      if e[|e| - 1] == AT { CountOneUnique(e, AT, a, |e| - 1); }
    }
  }

  /** `isValidEmail`, scanning as the source does: first for the '@', then for a '.' after it. */
  method IsValidEmail(email: seq<byte>) returns (ok: bool)
    ensures ok <==> WellFormedEmail(email)
    ensures |email| < 3 || |email| > 254 ==> !ok
    ensures Count(email, AT) >= 2 ==> !ok
    ensures |email| > 0 && (AT !in email || email[0] == AT || email[|email| - 1] == AT) ==> !ok
  {
    WellFormedEmailEnds(email);
    if |email| < 3 || |email| > 254 {
      return false;
    }
    var atIndex := -1;
    var i := 0;
    while i < |email|
      invariant 0 <= i <= |email|
      invariant -1 <= atIndex < i
      invariant atIndex == -1 ==> Count(email[..i], AT) == 0
      invariant atIndex >= 0 ==> Count(email[..i], AT) == 1 && email[atIndex] == AT
    {
      CountStep(email, AT, i);
      if email[i] == AT {
        if atIndex != -1 {
          CountSplit(email, AT, i + 1);
          return false;
        }
        atIndex := i;
      }
      i := i + 1;
    }
    assert email[..i] == email;
    if atIndex == -1 || atIndex == 0 || atIndex == |email| - 1 {
      return false;
    }
    var dot := false;
    var j := atIndex + 1;
    while j < |email|
      invariant atIndex + 1 <= j <= |email|
      invariant !dot
      invariant forall k | atIndex < k < j :: email[k] != DOT
    {
      if email[j] == DOT {
        dot := true;
        break;
      }
      j := j + 1;
    }
    if WellFormedEmail(email) {
      var a :| 0 < a < |email| - 1 && email[a] == AT && DotAfter(email, a);
      CountOneUnique(email, AT, a, atIndex);
    }
    return dot;
  }

  /** The body fields `Login` reads. */
  datatype LoginRequest = LoginRequest(email: seq<byte>, password: seq<byte>)

  /** The outcome of `Login`'s checks on the request body, before any database lookup. */
  datatype LoginCheck = LookUpUser | LoginRejected(status: int, message: string)

  /**
   * `Login`'s body checks in order: an unparsable body, an empty e-mail or password, then a
   * malformed e-mail, each a 400.
   */
  function CheckLogin(body: Option<LoginRequest>): (r: LoginCheck)
    ensures body.None? ==> r == LoginRejected(400, "Invalid Request Body")
    ensures body.Some? && (body.value.email == [] || body.value.password == []) ==>
              r == LoginRejected(400, "Email and Password are required")
    ensures body.Some? && body.value.email != [] && body.value.password != [] && !WellFormedEmail(body.value.email) ==>
              r == LoginRejected(400, "Invalid email format")
    ensures r == LookUpUser <==>
              body.Some? && body.value.email != [] && body.value.password != [] && WellFormedEmail(body.value.email)
  {
    match body
    case None => LoginRejected(400, "Invalid Request Body")
    case Some(req) =>
      if req.email == [] || req.password == [] then LoginRejected(400, "Email and Password are required")
      else if !WellFormedEmail(req.email) then LoginRejected(400, "Invalid email format")
      else LookUpUser
  }

  predicate IsUpper(b: byte) { 65 <= b <= 90 }
  predicate IsLower(b: byte) { 97 <= b <= 122 }
  predicate IsNumber(b: byte) { 48 <= b <= 57 }

  /** The only punctuation the policy counts as special. */
  const SPECIALS: string := "!@#$%^&*()-_+=[]{}|;:,.<>?/"

  predicate IsSpecial(b: byte) { b < 128 && (b as char) in SPECIALS }

  predicate HasUpper(p: seq<byte>) { HasSome(p, IsUpper) }
  predicate HasLower(p: seq<byte>) { HasSome(p, IsLower) }
  predicate HasNumber(p: seq<byte>) { HasSome(p, IsNumber) }
  predicate HasSpecial(p: seq<byte>) { HasSome(p, IsSpecial) }

  /** Whether some byte of `p` satisfies `f`. */
  predicate HasSome(p: seq<byte>, f: byte -> bool) {
    exists i | 0 <= i < |p| :: f(p[i])
  }

  lemma HasSomeStep(p: seq<byte>, i: nat, f: byte -> bool)
    requires i < |p|
    ensures HasSome(p[..i + 1], f) <==> HasSome(p[..i], f) || f(p[i])
  {
    var q := p[..i + 1];
    assert q[i] == p[i];
    if HasSome(q, f) {
      var k :| 0 <= k < |q| && f(q[k]);
      if k < i { assert p[..i][k] == q[k]; }
    }
    if HasSome(p[..i], f) {
      var k :| 0 <= k < i && f(p[..i][k]);
      assert q[k] == p[..i][k];
    }
  }

  /** The policy violations `ValidatePassword` reports, one per error message. */
  datatype PasswordError = TooShort | NoUpper | NoLower | NoNumber | NoSpecial {
    function Message(): string {
      match this
      case TooShort => "Password must be at least 12 characters long"
      case NoUpper => "Password must contain at least one uppercase letter"
      case NoLower => "Password must contain at least one lowercase letter"
      case NoNumber => "Password must contain at least one number"
      case NoSpecial => "Password must contain at least one special character"
    }
  }

  /**
   * `ValidatePassword`: the length check first, then the four character classes in the order
   * upper, lower, digit, special; `None` stands for the nil error.
   */
  method ValidatePassword(password: seq<byte>) returns (r: Option<PasswordError>)
    ensures r.None? <==>
              |password| >= 12 && HasUpper(password) && HasLower(password)
              && HasNumber(password) && HasSpecial(password)
    ensures |password| < 12 ==> r == Some(TooShort)
    ensures |password| >= 12 && !HasUpper(password) ==> r == Some(NoUpper)
    ensures |password| >= 12 && HasUpper(password) && !HasLower(password) ==> r == Some(NoLower)
    ensures |password| >= 12 && HasUpper(password) && HasLower(password) && !HasNumber(password) ==>
              r == Some(NoNumber)
    ensures (|password| >= 12 && HasUpper(password) && HasLower(password) && HasNumber(password)
              && !HasSpecial(password)) ==> r == Some(NoSpecial)
  {
    if |password| < 12 {
      return Some(TooShort);
    }
    var hasUpper, hasLower, hasNumber, hasSpecial := false, false, false, false;
    var i := 0;
    while i < |password|
      invariant 0 <= i <= |password|
      invariant hasUpper <==> HasUpper(password[..i])
      invariant hasLower <==> HasLower(password[..i])
      invariant hasNumber <==> HasNumber(password[..i])
      invariant hasSpecial <==> HasSpecial(password[..i])
    {
      var c := password[i];
      HasSomeStep(password, i, IsUpper);
      HasSomeStep(password, i, IsLower);
      HasSomeStep(password, i, IsNumber);
      HasSomeStep(password, i, IsSpecial);
      if IsUpper(c) {
        hasUpper := true;
      } else if IsLower(c) {
        hasLower := true;
      } else if IsNumber(c) {
        hasNumber := true;
      } else if IsSpecial(c) {
        hasSpecial := true;
      }
      i := i + 1;
    }
    assert password[..i] == password;
    if !hasUpper {
      return Some(NoUpper);
    }
    if !hasLower {
      return Some(NoLower);
    }
    if !hasNumber {
      return Some(NoNumber);
    }
    if !hasSpecial {
      return Some(NoSpecial);
    }
    return None;
  }

  const BEARER: seq<byte> := Ascii("Bearer ")
  const BEARER_LOWER: seq<byte> := Ascii("bearer ")

  predicate HasScheme(h: seq<byte>) {
    |h| > 7 && (h[..7] == BEARER || h[..7] == BEARER_LOWER)
  }

  /**
   * The token `VerifyToken` hands to the JWT parser: the header without its first seven bytes
   * when it is longer than seven and starts with "Bearer " or "bearer ", the whole header otherwise.
   */
  function ExtractToken(header: seq<byte>): (token: seq<byte>)
    ensures HasScheme(header) ==> token == header[7..]
    ensures !HasScheme(header) ==> token == header
  {
    if HasScheme(header) then header[7..] else header
  }

  /** Prefixing a non-empty token with either spelling of the scheme is undone by the extraction. */
  lemma ExtractTokenInverse(token: seq<byte>)
    requires token != []
    ensures ExtractToken(BEARER + token) == token
    ensures ExtractToken(BEARER_LOWER + token) == token
  {
    assert (BEARER + token)[..7] == BEARER;
    assert (BEARER_LOWER + token)[..7] == BEARER_LOWER;
    assert (BEARER + token)[7..] == token;
    assert (BEARER_LOWER + token)[7..] == token;
  }

  /** The extracted token is always the header or a suffix of it. */
  lemma ExtractTokenIsSuffix(header: seq<byte>)
    ensures var t := ExtractToken(header); |t| <= |header| && t == header[|header| - |t|..]
    ensures |ExtractToken(header)| < |header| ==> header[..7] == BEARER || header[..7] == BEARER_LOWER
  {
  }

  /** What the JWT library reports about a token; signature checking itself is not modelled. */
  datatype TokenCheck =
    | TokenInvalid
    | TokenValid(mapClaims: bool, isAdmin: Option<bool>, userIdIsString: bool, usernameIsString: bool)

  /**
   * The outcome of `VerifyToken`: continue to the next handler, reply with an error, or a
   * runtime panic, which the recover middleware (backend/cmd/api/main.go:40) turns into a 500.
   */
  datatype AuthOutcome = Proceed | Deny(status: int, message: string) | Panic {
    function Status(): int {
      match this
      case Proceed => 200
      case Deny(s, _) => s
      case Panic => 500
    }
  }

  /** The decision on a parsed token, from line 127 of `VerifyToken` on. */
  function DecideClaims(c: TokenCheck): (r: AuthOutcome)
    ensures c.TokenInvalid? ==> r == Deny(401, "Invalid or expired token")
    ensures c.TokenValid? && !c.mapClaims ==> r == Deny(401, "Invalid token claims")
    ensures c.TokenValid? && c.mapClaims && c.isAdmin != Some(true) ==> r == Deny(403, "Access denied")
    ensures c.TokenValid? && c.mapClaims && c.isAdmin == Some(true) && !(c.userIdIsString && c.usernameIsString) ==>
              r == Panic
    ensures r == Proceed <==> c.TokenValid? && c.mapClaims && c.isAdmin == Some(true)
                              && c.userIdIsString && c.usernameIsString
  {
    match c
    case TokenInvalid => Deny(401, "Invalid or expired token")
    case TokenValid(mapClaims, isAdmin, userIdIsString, usernameIsString) =>
      if !mapClaims then Deny(401, "Invalid token claims")
      else if isAdmin != Some(true) then Deny(403, "Access denied")
      else if !userIdIsString || !usernameIsString then Panic
      else Proceed
  }

  /**
   * `VerifyToken` as written: the debug print slices the first 20 bytes of the token, which
   * panics on any token shorter than that before the token is even parsed.
   */
  function VerifyTokenAsWritten(header: seq<byte>, check: seq<byte> -> TokenCheck): (r: AuthOutcome)
    ensures header == [] ==> r == Deny(401, "No authorization header")
    ensures header != [] && |ExtractToken(header)| < 20 ==> r == Panic
  {
    if header == [] then Deny(401, "No authorization header")
    else
      var token := ExtractToken(header);
      if |token| < 20 then Panic else DecideClaims(check(token))
  }

  /**
   * `VerifyToken` with the debug print made safe: every token reaches the JWT parser, so an
   * unparsable token is a 401, and a panic comes only from an admin token whose identity
   * claims are not strings.
   */
  function VerifyToken(header: seq<byte>, check: seq<byte> -> TokenCheck): (r: AuthOutcome)
    ensures header == [] ==> r == Deny(401, "No authorization header")
    ensures header != [] && check(ExtractToken(header)).TokenInvalid? ==>
              r == Deny(401, "Invalid or expired token")
    ensures r == Panic ==> check(ExtractToken(header)).TokenValid?
                           && check(ExtractToken(header)).isAdmin == Some(true)
    ensures r == Proceed <==> header != [] && DecideClaims(check(ExtractToken(header))) == Proceed
  {
    if header == [] then Deny(401, "No authorization header")
    else DecideClaims(check(ExtractToken(header)))
  }

  /** The two agree on every token of at least 20 bytes. */
  lemma VerifyTokenAgreesOnLongTokens(header: seq<byte>, check: seq<byte> -> TokenCheck)
    requires |ExtractToken(header)| >= 20
    ensures VerifyTokenAsWritten(header, check) == VerifyToken(header, check)
  {
  }

  /** "Bearer abc": the as-written handler answers 500 where a 401 is due. */
  lemma ShortTokenPanics(check: seq<byte> -> TokenCheck)
    requires check(Ascii("abc")) == TokenInvalid
    ensures VerifyTokenAsWritten(Ascii("Bearer abc"), check).Status() == 500
    ensures VerifyToken(Ascii("Bearer abc"), check) == Deny(401, "Invalid or expired token")
  {
    var h := Ascii("Bearer abc");
    assert h[..7] == BEARER;
    assert h[7..] == Ascii("abc");
  }
}
