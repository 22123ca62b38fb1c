/** The JWT middleware: the `Authorization: Bearer <token>` header (the form
    of section 2.1 of RFC 6750, with the scheme matched case-sensitively),
    the token check, and the user id and name it leaves in the request
    context for the handlers. */
module JwtAuth {
  import opened Wrappers

  const ErrNoToken := "未提供认证令牌"
  const ErrBadFormat := "认证格式无效"
  /** The texts of utils.ErrInvalidToken and utils.ErrExpiredToken. */
  const ErrInvalidToken := "令牌无效"
  const ErrExpiredToken := "令牌已过期"
  const StatusUnauthorized := 401

  // ---------------------------------------------------------------------
  // The header

  /** The index of the first space in `s`, if any. */
  function FirstSpace(s: string): (r: Option<nat>)
    ensures r.Some? ==> r.value < |s| && s[r.value] == ' ' && forall k :: 0 <= k < r.value ==> s[k] != ' '
    ensures r.None? ==> forall k :: 0 <= k < |s| ==> s[k] != ' '
  {
    if |s| == 0 then None
    else if s[0] == ' ' then Some(0)
    else match FirstSpace(s[1..])
      case None => None
      case Some(i) => Some(i + 1)
  }

  /** strings.SplitN(s, " ", 2): the text before the first space and the
      rest, or `s` alone when it has no space. */
  function SplitN2(s: string): (parts: seq<string>)
    ensures 1 <= |parts| <= 2
    ensures |parts| == 1 <==> FirstSpace(s).None?
    ensures |parts| == 1 ==> parts[0] == s
    ensures |parts| == 2 ==> parts[0] + " " + parts[1] == s && ' ' !in parts[0]
  {
    match FirstSpace(s)
    case None => [s]
    case Some(i) => [s[..i], s[i + 1..]]
  }

  /** The token of an Authorization header: the part after the first space,
      when the part before it is exactly "Bearer". */
  function BearerToken(header: string): Option<string> {
    var parts := SplitN2(header);
    if |parts| == 2 && parts[0] == "Bearer" then Some(parts[1]) else None
  }

  /** A header carries a token exactly when it is "Bearer", one space and
      the token; the token may be empty or contain further spaces. */
  lemma BearerTokenExact(header: string, token: string)
    ensures BearerToken(header) == Some(token) <==> header == "Bearer " + token
  {
    if header == "Bearer " + token {
      assert header[6] == ' ';
      assert FirstSpace("Bearer " + token) == Some(6) by {
        var h := "Bearer " + token;
        assert h[1..] == "earer " + token;
        assert h[2..] == "arer " + token;
        assert h[3..] == "rer " + token;
        assert h[4..] == "er " + token;
        assert h[5..] == "r " + token;
        assert h[6..] == " " + token;
      }
      assert header[..6] == "Bearer" && header[7..] == token;
    }
    if BearerToken(header) == Some(token) {
      var parts := SplitN2(header);
      assert parts[0] + " " + parts[1] == header;
    }
  }

  /** The scheme is matched case-sensitively, and a bare scheme is refused. */
  lemma BearerTokenRejections()
    ensures BearerToken("bearer abc") == None
    ensures BearerToken("Bearer") == None
    ensures BearerToken("Basic abc") == None
  {
    var hs := ["bearer abc", "Bearer", "Basic abc"];
    forall h | h in hs ensures BearerToken(h) == None {
      if BearerToken(h).Some? {
        BearerTokenExact(h, BearerToken(h).value);
      }
    }
    assert "bearer abc" in hs && "Bearer" in hs && "Basic abc" in hs;
  }

  // ---------------------------------------------------------------------
  // The token check

  /** The claims a token carries. */
  datatype Claims = Claims(userId: int, username: string)

  /** Why the JWT library refuses a token. */
  datatype JwtFailure = TokenExpired | TokenMalformed | SignatureInvalid | TokenNotValidYet | OtherFailure

  /** What the JWT library makes of a token string: a failure, or the claims
      with the library's own validity verdict. */
  datatype JwtParse = ParseFailed(failure: JwtFailure) | Parsed(claims: Claims, valid: bool)

  /** The error values ValidateToken can hand back, told apart by identity
      as Go's `==` on errors does: an error of the JWT library, the fresh
      `errors.New("invalid token")`, or one of the two sentinels of the
      utils package. */
  datatype TokenError =
    | LibraryError(failure: JwtFailure)
    | FreshInvalidToken
    | SentinelInvalidToken
    | SentinelExpiredToken

  /** What ValidateToken returns: the claims, or an error value. */
  datatype Validation = Accepted(claims: Claims) | Refused(error: TokenError)

  /** utils.ValidateToken: the library's failure is passed on as it is; a
      token the library parsed but does not call valid is refused with a
      fresh "invalid token" error. */
  function ValidateToken(parse: string -> JwtParse, token: string): (v: Validation)
    ensures v.Accepted? <==> parse(token).Parsed? && parse(token).valid
    ensures v.Accepted? ==> v.claims == parse(token).claims
    ensures v.Refused? ==> v.error.LibraryError? || v.error == FreshInvalidToken
  {
    match parse(token)
    case ParseFailed(f) => Refused(LibraryError(f))
    case Parsed(claims, valid) => if valid then Accepted(claims) else Refused(FreshInvalidToken)
  }

  /** The message as the middleware writes it: "令牌已过期" only for the
      utils sentinel, "令牌无效" for any other error. */
  function RejectionMessageAsWritten(e: TokenError): string {
    if e == SentinelExpiredToken then ErrExpiredToken else ErrInvalidToken
  }

  /** As written, no refused token is ever reported as expired: the
      sentinel the middleware compares against never comes back. */
  lemma AsWrittenNeverSaysExpired(parse: string -> JwtParse, token: string)
    requires ValidateToken(parse, token).Refused?
    ensures RejectionMessageAsWritten(ValidateToken(parse, token).error) == ErrInvalidToken
  {
  }

  /** The message the middleware evidently means: "令牌已过期" for a token
      the library refused as expired, "令牌无效" otherwise. */
  function RejectionMessage(e: TokenError): (m: string)
    ensures m == ErrExpiredToken <==> (e == LibraryError(TokenExpired) || e == SentinelExpiredToken)
    ensures m == ErrExpiredToken || m == ErrInvalidToken
  {
    if e == LibraryError(TokenExpired) || e == SentinelExpiredToken then ErrExpiredToken else ErrInvalidToken
  }

  /** An expired token: the code as written reports it as invalid, the
      intended message reports it as expired. */
  lemma ExpiredTokenMessages(parse: string -> JwtParse, token: string)
    requires parse(token) == ParseFailed(TokenExpired)
    ensures RejectionMessageAsWritten(ValidateToken(parse, token).error) == ErrInvalidToken
    ensures RejectionMessage(ValidateToken(parse, token).error) == ErrExpiredToken
  {
  }

  // ---------------------------------------------------------------------
  // The request context

  /** A value stored in the request context, with its Go type. */
  datatype ContextValue = Int64Value(i: int) | StringValue(s: string) | OtherValue

  /** The context after the middleware accepted the claims. */
  function WithClaims(keys: map<string, ContextValue>, claims: Claims): map<string, ContextValue> {
    keys["userID" := Int64Value(claims.userId)]["username" := StringValue(claims.username)]
  }

  /** GetUserID on a context: (0, false) when the key is absent or holds a
      value that is not an int64. */
  function UserIdOf(keys: map<string, ContextValue>): (r: (int, bool))
    ensures r.1 <==> "userID" in keys && keys["userID"].Int64Value?
    ensures r.1 ==> r.0 == keys["userID"].i
    ensures !r.1 ==> r.0 == 0
  {
    if "userID" !in keys then (0, false)
    else match keys["userID"]
      case Int64Value(i) => (i, true)
      case _ => (0, false)
  }

  /** GetUsername on a context: ("", false) when the key is absent or holds
      a value that is not a string. */
  function UsernameOf(keys: map<string, ContextValue>): (r: (string, bool))
    ensures r.1 <==> "username" in keys && keys["username"].StringValue?
    ensures r.1 ==> r.0 == keys["username"].s
    ensures !r.1 ==> r.0 == ""
  {
    if "username" !in keys then ("", false)
    else match keys["username"]
      case StringValue(s) => (s, true)
      case _ => ("", false)
  }

  /** What the middleware stores, the handlers read back. */
  lemma ClaimsReadBack(keys: map<string, ContextValue>, claims: Claims)
    ensures UserIdOf(WithClaims(keys, claims)) == (claims.userId, true)
    ensures UsernameOf(WithClaims(keys, claims)) == (claims.username, true)
  {
  }

  /** One request as the middleware sees it: the Authorization header (""
      when absent), the context keys, and the error response it may
      write. */
  class RequestContext {
    var authorization: string
    var keys: map<string, ContextValue>
    var response: Option<(int, string)>
    var aborted: bool

    constructor (authorization: string)
      ensures this.authorization == authorization && keys == map[] && response == None && !aborted
    {
      this.authorization := authorization;
      keys := map[];
      response := None;
      aborted := false;
    }

    function GetUserID(): (int, bool)
      reads this
    {
      UserIdOf(keys)
    }

    function GetUsername(): (string, bool)
      reads this
    {
      UsernameOf(keys)
    }

    method Reject(message: string)
      modifies this
      ensures response == Some((StatusUnauthorized, message)) && aborted
      ensures authorization == old(authorization) && keys == old(keys)
    {
      response := Some((StatusUnauthorized, message));
      aborted := true;
    }

    /** JWTAuth: refuses a missing header, a header that is not
        "Bearer <token>", and a token the check refuses; otherwise stores
        the user id and name and lets the request through. */
    method JWTAuth(parse: string -> JwtParse)
      modifies this
      ensures authorization == old(authorization)
      ensures old(authorization) == "" ==>
                response == Some((StatusUnauthorized, ErrNoToken)) && aborted && keys == old(keys)
      ensures old(authorization) != "" && BearerToken(old(authorization)).None? ==>
                response == Some((StatusUnauthorized, ErrBadFormat)) && aborted && keys == old(keys)
      ensures BearerToken(old(authorization)).Some? ==>
                var token := BearerToken(old(authorization)).value;
                match ValidateToken(parse, token)
                case Refused(e) => response == Some((StatusUnauthorized, RejectionMessage(e))) && aborted && keys == old(keys)
                case Accepted(claims) => && response == old(response) && aborted == old(aborted)
                                         && keys == WithClaims(old(keys), claims)
                                         && GetUserID() == (claims.userId, true)
                                         && GetUsername() == (claims.username, true)
    {
      if authorization == "" {
        Reject(ErrNoToken);
        return;
      }
      var token := BearerToken(authorization);
      if token.None? {
        Reject(ErrBadFormat);
        return;
      }
      var checked := ValidateToken(parse, token.value);
      if checked.Refused? {
        Reject(RejectionMessage(checked.error));
        return;
      }
      keys := keys["userID" := Int64Value(checked.claims.userId)];
      keys := keys["username" := StringValue(checked.claims.username)];
      ClaimsReadBack(old(keys), checked.claims);
    }
  }
}
