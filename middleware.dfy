/**
 * The access-token middleware (backend/src/middleware/authMiddleware.ts): the token
 * is the second space-separated field of the Authorization header, whatever the
 * first field says; no token is 401, a token that does not verify is 403, and a
 * verified token puts its `userId` claim on the request.
 */
module AuthMiddleware {
  import opened Wrappers
  import opened AppErrors
  import opened TokenService

  /** `req.user`: the id is the decoded `userId` claim, absent if the token had none. */
  datatype AuthUser = AuthUser(id: Option<string>)

  datatype AuthResult = Authenticated(user: AuthUser) | Rejected(error: AppError)

  /** The parts of a request the middleware reads and writes. */
  class Request {
    var authorization: Option<string>
    var user: Option<AuthUser>

    constructor (authorization: Option<string>)
      ensures this.authorization == authorization && user == None
    {
      this.authorization := authorization;
      user := None;
    }
  }

  /** Joins fields with a separator character; the inverse of Split. */
  function Join(parts: seq<string>, sep: char): string
    requires |parts| >= 1
  {
    if |parts| == 1 then parts[0] else parts[0] + [sep] + Join(parts[1..], sep)
  }

  /** JavaScript's `s.split(sep)` for a one-character separator: the maximal runs between
      separators, empty ones included; the empty string gives one empty field. */
  function Split(s: string, sep: char): (r: seq<string>)
    ensures |r| >= 1
    ensures forall i :: 0 <= i < |r| ==> sep !in r[i]
    ensures Join(r, sep) == s
  {
    if |s| == 0 then [""]
    else
      var rest := Split(s[1..], sep);
      if s[0] == sep then
        assert Join([""] + rest, sep) == [sep] + Join(rest, sep) by {
          assert ([""] + rest)[1..] == rest;
        }
        assert s == [s[0]] + s[1..];
        [""] + rest
      else
        var r := [[s[0]] + rest[0]] + rest[1..];
        assert Join(r, sep) == [s[0]] + Join(rest, sep) by {
          if |rest| > 1 {
            assert r[1..] == rest[1..];
          }
        }
        assert s == [s[0]] + s[1..];
        r
  }

  /** Split recovers the fields that were joined, when none holds the separator. */
  lemma {:induction false} SplitJoin(parts: seq<string>, sep: char)
    requires |parts| >= 1
    requires forall i :: 0 <= i < |parts| ==> sep !in parts[i]
    ensures Split(Join(parts, sep), sep) == parts
  {
    if |parts| == 1 {
      NoSeparatorOneField(parts[0], sep);
    } else {
      SplitJoin(parts[1..], sep);
      SplitPrefix(parts[0], Join(parts[1..], sep), sep);
    }
  }

  lemma {:induction false} NoSeparatorOneField(s: string, sep: char)
    requires sep !in s
    ensures Split(s, sep) == [s]
  {
    if |s| > 0 {
      assert sep !in s[1..] by {
        forall k | 0 <= k < |s[1..]| ensures s[1..][k] != sep { assert s[1..][k] == s[k + 1]; }
      }
      NoSeparatorOneField(s[1..], sep);
    }
  }

  /** Splitting `w + [sep] + t` where `w` has no separator gives `[w]` followed by Split(t). */
  lemma {:induction false} SplitPrefix(w: string, t: string, sep: char)
    requires sep !in w
    ensures Split(w + [sep] + t, sep) == [w] + Split(t, sep)
  {
    if |w| == 0 {
      assert w + [sep] + t == [sep] + t;
      assert ([sep] + t)[1..] == t;
    } else {
      assert sep !in w[1..] by {
        forall k | 0 <= k < |w[1..]| ensures w[1..][k] != sep { assert w[1..][k] == w[k + 1]; }
      }
      SplitPrefix(w[1..], t, sep);
      assert (w + [sep] + t)[1..] == w[1..] + [sep] + t;
      assert [w[0]] + w[1..] == w;
    }
  }

  /** `authHeader?.split(' ')[1]`: the second field, or nothing when the header is absent
      or has no second field. */
  function BearerToken(header: Option<string>): (r: Option<string>)
    ensures r.Some? ==> header.Some? && ' ' !in r.value
    ensures header.Some? && ' ' !in header.value ==> r.None?
  {
    match header
    case None => None
    case Some(h) =>
      var fields := Split(h, ' ');
      if |fields| >= 2 then Some(fields[1])
      else None
  }

  /** Any scheme word followed by a space and a token yields that token, so the scheme is
      not checked; whatever follows a further space is ignored. */
  lemma BearerTokenOfHeader(scheme: string, token: string, rest: string)
    requires ' ' !in scheme && ' ' !in token
    ensures BearerToken(Some(scheme + " " + token)) == Some(token)
    ensures BearerToken(Some(scheme + " " + token + " " + rest)) == Some(token)
  {
    SplitPrefix(scheme, token, ' ');
    NoSeparatorOneField(token, ' ');
    assert scheme + " " + token == scheme + [' '] + token;
    SplitPrefix(token, rest, ' ');
    assert scheme + " " + token + " " + rest == scheme + [' '] + (token + [' '] + rest);
    SplitPrefix(scheme, token + [' '] + rest, ' ');
  }

  /** The outcome: no token (absent, or an empty second field) is 401 UNAUTHORIZED; a token
      the verifier rejects, for whatever reason, is 403 FORBIDDEN; otherwise the request is
      authenticated as the token's `userId` claim. */
  function Authenticate(header: Option<string>, verify: string -> Decoded): (r: AuthResult)
    ensures (BearerToken(header).None? || BearerToken(header) == Some("")) ==>
      r == Rejected(AppError("Access token is required", 401, "UNAUTHORIZED"))
    ensures (BearerToken(header).Some? && BearerToken(header).value != ""
             && verify(BearerToken(header).value).VerifyFailed?) ==>
      r == Rejected(AppError("Invalid or expired token", 403, "FORBIDDEN"))
    ensures r.Authenticated? <==> (BearerToken(header).Some? && BearerToken(header).value != ""
                                   && verify(BearerToken(header).value).Verified?)
    ensures r.Authenticated? ==> (
      var claims := verify(BearerToken(header).value).claims;
      r.user.id == if "userId" in claims.custom then Some(claims.custom["userId"]) else None)
  {
    match BearerToken(header)
    case None => Rejected(AppError("Access token is required", 401, "UNAUTHORIZED"))
    case Some(token) =>
      if token == "" then Rejected(AppError("Access token is required", 401, "UNAUTHORIZED"))
      else
        match verify(token)
        case VerifyFailed(_) => Rejected(AppError("Invalid or expired token", 403, "FORBIDDEN"))
        case Verified(claims) =>
          Authenticated(AuthUser(if "userId" in claims.custom then Some(claims.custom["userId"]) else None))
  }

  /** A header carrying an access token issued for `userId`, under a verifier that decodes
      it, authenticates the request as `userId`. */
  lemma IssuedTokenAuthenticates(secret: string, userId: string, now: nat, scheme: string, token: string,
                                 verify: string -> Decoded)
    requires secret != ""
    requires ' ' !in scheme && ' ' !in token && token != ""
    requires verify(token) == Verified(GenerateJwtAccessToken(secret, userId, now).value.claims)
    ensures Authenticate(Some(scheme + " " + token), verify) == Authenticated(AuthUser(Some(userId)))
  {
    BearerTokenOfHeader(scheme, token, "");
  }

  /** A refresh token is signed with the same secret but carries no `userId` claim: a
      verifier that decodes it lets the request through with no user id on it. */
  lemma RefreshTokenAuthenticatesWithoutId(secret: string, userId: string, uuid: string, now: nat,
                                           scheme: string, token: string, verify: string -> Decoded)
    requires secret != ""
    requires ' ' !in scheme && ' ' !in token && token != ""
    requires verify(token) == Verified(GenerateJwtRefreshToken(secret, userId, uuid, now).value.refreshToken.claims)
    ensures Authenticate(Some(scheme + " " + token), verify) == Authenticated(AuthUser(None))
  {
    BearerTokenOfHeader(scheme, token, "");
  }

  /** `authenticateToken`: on success sets `req.user` and calls `next()` with no error; on
      failure leaves `req.user` alone and calls `next` with the error. */
  method AuthenticateToken(req: Request, verify: string -> Decoded) returns (nextError: Option<AppError>)
    modifies req`user
    ensures match Authenticate(req.authorization, verify)
      case Authenticated(u) => req.user == Some(u) && nextError == None
      case Rejected(e) => req.user == old(req.user) && nextError == Some(e)
  {
    var token := BearerToken(req.authorization);
    if token.None? || token.value == "" {
      return Some(AppError("Access token is required", 401, "UNAUTHORIZED"));
    }
    var decoded := verify(token.value);
    if decoded.VerifyFailed? {
      return Some(AppError("Invalid or expired token", 403, "FORBIDDEN"));
    }
    var claims := decoded.claims;
    req.user := Some(AuthUser(if "userId" in claims.custom then Some(claims.custom["userId"]) else None));
    nextError := None;
  }
}
