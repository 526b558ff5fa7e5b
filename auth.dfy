/**
 * The authentication controllers (backend/src/controllers/auth.controllers.ts):
 * signup, login, refresh, logout and logout-all over the user table and the
 * refresh-session table. Each handler is a pure step function (outcome and the
 * table afterwards) that carries its properties, and a method that performs the
 * step on the database object.
 *
 * Request fields use the empty string for "absent": the handlers test them with
 * JavaScript's falsy check, under which a missing field and "" behave alike.
 * Password hashing is the uninterpreted `hash`; `jwt.verify` is the oracle `verify`.
 */
module AuthControllers {
  import opened Wrappers
  import opened AppErrors
  import opened ErrorHandler
  import opened TokenService
  import opened Store

  type Sessions = map<string, Session>

  /** A handler's outcome together with the table it leaves behind. */
  datatype Step<+T, S> = Step(outcome: Outcome<T>, after: S)

  /** The data of a successful login. */
  datatype LoginData = LoginData(token: Jwt, refreshToken: Jwt, userId: string, username: string)

  const JsonWebTokenError: string := "JsonWebTokenError"
  /** Thrown by the database client when `findUnique` gets no usable key. */
  const ClientValidationError: string := "PrismaClientValidationError"
  /** Thrown by the database client when an insert violates a unique key. */
  const UniqueViolationError: string := "PrismaClientKnownRequestError"

  const InvalidCredentials: string := "Invalid credentials"
  const InvalidRefreshToken: string := "Invalid refresh token"
  const RefreshTokenExpired: string := "Refresh token has expired"

  /** bcrypt.compare, for an uninterpreted bcrypt.hash. */
  predicate PasswordMatches(hash: string -> string, password: string, stored: string) {
    stored == hash(password)
  }

  function WithEmail(email: string): User -> bool { (u: User) => u.email == email }

  // ---------------------------------------------------------------- signup

  /** The signup checks, in the handler's order: all three fields, then the email's
      uniqueness, then the password length. */
  function SignupCheck(users: seq<User>, username: string, email: string, password: string)
    : (r: Option<Thrown>)
    ensures (username == "" || email == "" || password == "") ==>
      r == Some(BadRequest("Username, email and password are required"))
    ensures username != "" && email != "" && password != "" && FindFirst(users, WithEmail(email)).Some? ==>
      r == Some(Conflict("user already exists"))
    ensures (username != "" && email != "" && password != "" && FindFirst(users, WithEmail(email)).None?
             && |password| < 6) ==> r == Some(BadRequest("Password must be at least 6 characters long"))
    ensures r.None? <==> (username != "" && email != "" && password != ""
                          && FindFirst(users, WithEmail(email)).None? && |password| >= 6)
  {
    if username == "" || email == "" || password == "" then
      Some(BadRequest("Username, email and password are required"))
    else if FindFirst(users, WithEmail(email)).Some? then
      Some(Conflict("user already exists"))
    else if |password| < 6 then
      Some(BadRequest("Password must be at least 6 characters long"))
    else
      None
  }

  /** Signup: either the checks fail and the table is unchanged, or exactly one user is
      appended, carrying the hash of the password, and returned with 201. */
  function SignupStep(users: seq<User>, username: string, email: string, password: string,
                      newId: string, hash: string -> string): (r: Step<User, seq<User>>)
    requires FreshUserId(users, newId)
    ensures r.outcome.Err? <==> SignupCheck(users, username, email, password).Some?
    ensures r.outcome.Err? ==> (r.after == users
                               && r.outcome.thrown == SignupCheck(users, username, email, password).value)
    ensures r.outcome.Ok? ==> (r.outcome.status == 201
                              && r.outcome.data == User(newId, username, email, hash(password))
                              && r.after == users + [r.outcome.data])
  {
    match SignupCheck(users, username, email, password)
    case Some(e) => Step(Err(e), users)
    case None =>
      var u := User(newId, username, email, hash(password));
      Step(Ok(201, "User signed up successfully", u), users + [u])
  }

  method Signup(db: Db, username: string, email: string, password: string,
                newId: string, hash: string -> string) returns (o: Outcome<User>)
    requires FreshUserId(db.users, newId)
    modifies db`users
    ensures Step(o, db.users) == SignupStep(old(db.users), username, email, password, newId, hash)
  {
    if username == "" || email == "" || password == "" {
      return Err(BadRequest("Username, email and password are required"));
    }
    if FindFirst(db.users, WithEmail(email)).Some? {
      return Err(Conflict("user already exists"));
    }
    if |password| < 6 {
      return Err(BadRequest("Password must be at least 6 characters long"));
    }
    var u := User(newId, username, email, hash(password));
    db.users := db.users + [u];
    o := Ok(201, "User signed up successfully", u);
  }

  // ---------------------------------------------------------------- login

  /** The login credential checks: both fields, then the user by email, then the
      password. An unknown email and a wrong password give the same error. */
  function CheckCredentials(users: seq<User>, email: string, password: string, hash: string -> string)
    : (r: Result<User, Thrown>)
    ensures (email == "" || password == "") ==> r == Failure(BadRequest("Email and password are required"))
    ensures email != "" && password != "" && FindFirst(users, WithEmail(email)).None? ==>
      r == Failure(Unauthorized(InvalidCredentials))
    ensures (email != "" && password != "" && FindFirst(users, WithEmail(email)).Some?
             && !PasswordMatches(hash, password, FindFirst(users, WithEmail(email)).value.password)) ==>
      r == Failure(Unauthorized(InvalidCredentials))
    ensures r.Success? <==> (email != "" && password != "" && FindFirst(users, WithEmail(email)).Some?
                             && PasswordMatches(hash, password, FindFirst(users, WithEmail(email)).value.password))
    ensures r.Success? ==> r.value == FindFirst(users, WithEmail(email)).value && r.value in users
  {
    if email == "" || password == "" then
      Failure(BadRequest("Email and password are required"))
    else
      match FindFirst(users, WithEmail(email))
      case None => Failure(Unauthorized(InvalidCredentials))
      case Some(u) =>
        if !PasswordMatches(hash, password, u.password) then Failure(Unauthorized(InvalidCredentials))
        else Success(u)
  }

  /** Login: on success exactly one session row `jti -> (user, now + 30 days)` is added,
      where `jti` is the drawn UUID carried by the returned refresh token; on every
      failure the session table is unchanged. */
  function LoginStep(users: seq<User>, sessions: Sessions, email: string, password: string,
                     hash: string -> string, secret: string, uuid: string, now: nat)
    : (r: Step<LoginData, Sessions>)
    ensures r.outcome.Err? ==> r.after == sessions
    ensures CheckCredentials(users, email, password, hash).Failure? ==>
      r.outcome == Err(CheckCredentials(users, email, password, hash).error)
    ensures r.outcome.Ok? <==> (CheckCredentials(users, email, password, hash).Success?
                                && secret != "" && uuid !in sessions)
    ensures r.outcome.Ok? ==>
      var u := CheckCredentials(users, email, password, hash).value;
      && r.outcome.status == 200
      && r.after == sessions[uuid := Session(u.id, now + RefreshSessionTtlMs)]
      && r.outcome.data.userId == u.id && r.outcome.data.username == u.username
      && r.outcome.data.token.claims.custom == map["userId" := u.id]
      && r.outcome.data.refreshToken.claims.sub == Some(u.id)
      && r.outcome.data.refreshToken.claims.jti == Some(uuid)
  {
    match CheckCredentials(users, email, password, hash)
    case Failure(e) => Step(Err(e), sessions)
    case Success(u) =>
      match GenerateJwtAccessToken(secret, u.id, now)
      case Failure(e) => Step(Err(e), sessions)
      case Success(token) =>
        match GenerateJwtRefreshToken(secret, u.id, uuid, now)
        case Failure(e) => Step(Err(e), sessions)
        case Success(issue) =>
          if issue.jti in sessions then
            Step(Err(Other(UniqueViolationError, "Unique constraint failed on the fields: (`id`)")), sessions)
          else
            Step(Ok(200, "User logged in successfully", LoginData(token, issue.refreshToken, u.id, u.username)),
                 sessions[issue.jti := Session(u.id, issue.expiresAt)])
  }

  method Login(db: Db, email: string, password: string, hash: string -> string,
               secret: string, uuid: string, now: nat) returns (o: Outcome<LoginData>)
    modifies db`sessions
    ensures Step(o, db.sessions) == LoginStep(db.users, old(db.sessions), email, password, hash, secret, uuid, now)
  {
    var checked := CheckCredentials(db.users, email, password, hash);
    if checked.Failure? {
      return Err(checked.error);
    }
    var u := checked.value;
    var token := GenerateJwtAccessToken(secret, u.id, now);
    if token.Failure? {
      return Err(token.error);
    }
    // The same secret was just accepted, so the refresh token cannot fail here.
    var issue := GenerateJwtRefreshToken(secret, u.id, uuid, now);
    var jti, expiresAt := issue.value.jti, issue.value.expiresAt;
    if jti in db.sessions {
      return Err(Other(UniqueViolationError, "Unique constraint failed on the fields: (`id`)"));
    }
    db.sessions := db.sessions[jti := Session(u.id, expiresAt)];
    o := Ok(200, "User logged in successfully", LoginData(token.value, issue.value.refreshToken, u.id, u.username));
  }

  // ---------------------------------------------------------------- refresh

  /** Refresh: a missing cookie is 400; a verification failure named JsonWebTokenError is
      401 and any other is passed on as an internal error; a token without `jti` makes the
      lookup throw; an unknown `jti` is 401; a row with `expiresAt < now` is deleted and
      reported 401; otherwise a new access token for the row's user is issued and the
      session table is left as it was (no rotation). */
  function RefreshStep(sessions: Sessions, cookie: string, verify: string -> Decoded,
                       secret: string, now: nat): (r: Step<Jwt, Sessions>)
    ensures cookie == "" ==> r == Step(Err(BadRequest("Refresh token is required")), sessions)
    ensures cookie != "" && verify(cookie).VerifyFailed? ==>
      r == Step(Err(if verify(cookie).name == JsonWebTokenError then Unauthorized(InvalidRefreshToken)
                    else Other(verify(cookie).name, "")), sessions)
    ensures cookie != "" && verify(cookie).Verified? && verify(cookie).claims.jti.None? ==>
      r.after == sessions && r.outcome.Err? && r.outcome.thrown.Other?
    ensures cookie != "" && verify(cookie).Verified? && verify(cookie).claims.jti.Some? ==>
      var jti := verify(cookie).claims.jti.value;
      && (jti !in sessions ==> r == Step(Err(Unauthorized(InvalidRefreshToken)), sessions))
      && (jti in sessions && sessions[jti].expiresAt < now ==>
            r == Step(Err(Unauthorized(RefreshTokenExpired)), sessions - {jti}))
      && (jti in sessions && now <= sessions[jti].expiresAt ==>
            && r.after == sessions
            && (r.outcome.Ok? <==> secret != "")
            && (r.outcome.Ok? ==>
                  && r.outcome.status == 200
                  && r.outcome.data.claims.custom == map["userId" := sessions[jti].userId]))
    ensures r.after == sessions || r.outcome == Err(Unauthorized(RefreshTokenExpired))
  {
    if cookie == "" then
      Step(Err(BadRequest("Refresh token is required")), sessions)
    else
      match verify(cookie)
      case VerifyFailed(name) =>
        if name == JsonWebTokenError then Step(Err(Unauthorized(InvalidRefreshToken)), sessions)
        else Step(Err(Other(name, "")), sessions)
      case Verified(claims) =>
        match claims.jti
        case None => Step(Err(Other(ClientValidationError, "Argument `where` needs at least one of `id`")), sessions)
        case Some(jti) =>
          if jti !in sessions then
            Step(Err(Unauthorized(InvalidRefreshToken)), sessions)
          else if sessions[jti].expiresAt < now then
            Step(Err(Unauthorized(RefreshTokenExpired)), sessions - {jti})
          else
            match GenerateJwtAccessToken(secret, sessions[jti].userId, now)
            case Failure(e) => Step(Err(e), sessions)
            case Success(token) => Step(Ok(200, "Access token refreshed successfully", token), sessions)
  }

  method RefreshToken(db: Db, cookie: string, verify: string -> Decoded, secret: string, now: nat)
    returns (o: Outcome<Jwt>)
    modifies db`sessions
    ensures Step(o, db.sessions) == RefreshStep(old(db.sessions), cookie, verify, secret, now)
  {
    if cookie == "" {
      return Err(BadRequest("Refresh token is required"));
    }
    var decoded := verify(cookie);
    if decoded.VerifyFailed? {
      if decoded.name == JsonWebTokenError {
        return Err(Unauthorized(InvalidRefreshToken));
      }
      return Err(Other(decoded.name, ""));
    }
    if decoded.claims.jti.None? {
      return Err(Other(ClientValidationError, "Argument `where` needs at least one of `id`"));
    }
    var jti := decoded.claims.jti.value;
    if jti !in db.sessions {
      return Err(Unauthorized(InvalidRefreshToken));
    }
    var record := db.sessions[jti];
    if record.expiresAt < now {
      db.sessions := db.sessions - {jti};
      return Err(Unauthorized(RefreshTokenExpired));
    }
    var token := GenerateJwtAccessToken(secret, record.userId, now);
    if token.Failure? {
      return Err(token.error);
    }
    o := Ok(200, "Access token refreshed successfully", token.value);
  }

  // ---------------------------------------------------------------- logout

  /** Logout exactly as the handler is written: a missing cookie is 400, any verification
      failure is passed on (there is no JsonWebTokenError case here), then every row
      matching `{ id: jti }` is deleted. When the token has no `jti` the database client
      drops the undefined filter and the deletion matches every row. */
  function LogoutStepAsWritten(sessions: Sessions, cookie: string, verify: string -> Decoded)
    : (r: Step<(), Sessions>)
    ensures cookie == "" ==> r == Step(Err(BadRequest("Refresh token is required")), sessions)
    ensures cookie != "" && verify(cookie).VerifyFailed? ==>
      r == Step(Err(Other(verify(cookie).name, "")), sessions)
    ensures cookie != "" && verify(cookie).Verified? ==>
      && r.outcome.Ok?
      && (verify(cookie).claims.jti.Some? ==> r.after == sessions - {verify(cookie).claims.jti.value})
      && (verify(cookie).claims.jti.None? ==> r.after == map[])
  {
    if cookie == "" then
      Step(Err(BadRequest("Refresh token is required")), sessions)
    else
      match verify(cookie)
      case VerifyFailed(name) => Step(Err(Other(name, "")), sessions)
      case Verified(claims) =>
        var remaining := match claims.jti
          case Some(jti) => sessions - {jti}
          case None => map[];
        Step(Ok(200, "User logged out successfully", ()), remaining)
  }

  /** Logout as intended: only the row whose id is the token's `jti` is deleted, and a
      token without `jti` names no row, so nothing is deleted. */
  function LogoutStep(sessions: Sessions, cookie: string, verify: string -> Decoded)
    : (r: Step<(), Sessions>)
    ensures cookie == "" ==> r == Step(Err(BadRequest("Refresh token is required")), sessions)
    ensures cookie != "" && verify(cookie).VerifyFailed? ==>
      r == Step(Err(Other(verify(cookie).name, "")), sessions)
    ensures r.outcome.Ok? <==> cookie != "" && verify(cookie).Verified?
    ensures r.outcome.Ok? ==> r.outcome.status == 200
    ensures forall j :: j in sessions ==> (j in r.after <==> !RevokedBy(cookie, verify, j))
    ensures forall j :: j in r.after ==> j in sessions && r.after[j] == sessions[j]
  {
    if cookie == "" then
      Step(Err(BadRequest("Refresh token is required")), sessions)
    else
      match verify(cookie)
      case VerifyFailed(name) => Step(Err(Other(name, "")), sessions)
      case Verified(claims) =>
        var remaining := match claims.jti
          case Some(jti) => sessions - {jti}
          case None => sessions;
        Step(Ok(200, "User logged out successfully", ()), remaining)
  }

  /** True when a logout presenting `cookie` targets session `j`. */
  predicate RevokedBy(cookie: string, verify: string -> Decoded, j: string) {
    cookie != "" && verify(cookie).Verified? && verify(cookie).claims.jti == Some(j)
  }

  method Logout(db: Db, cookie: string, verify: string -> Decoded) returns (o: Outcome<()>)
    modifies db`sessions
    ensures Step(o, db.sessions) == LogoutStep(old(db.sessions), cookie, verify)
  {
    if cookie == "" {
      return Err(BadRequest("Refresh token is required"));
    }
    var decoded := verify(cookie);
    if decoded.VerifyFailed? {
      return Err(Other(decoded.name, ""));
    }
    if decoded.claims.jti.Some? {
      db.sessions := db.sessions - {decoded.claims.jti.value};
    }
    o := Ok(200, "User logged out successfully", ());
  }

  // ---------------------------------------------------------------- logout-all

  /** Logout-all: without an authenticated user id it is 401 and nothing changes;
      otherwise exactly the caller's rows are deleted and every other row is kept. */
  function LogoutAllStep(sessions: Sessions, callerId: Option<string>): (r: Step<(), Sessions>)
    ensures (callerId.None? || callerId.value == "") ==>
      r == Step(Err(Unauthorized("User not authenticated")), sessions)
    ensures callerId.Some? && callerId.value != "" ==> r.outcome.Ok? && r.outcome.status == 200
    ensures callerId.Some? && callerId.value != "" ==>
      forall j :: j in r.after <==> j in sessions && sessions[j].userId != callerId.value
    ensures forall j :: j in r.after ==> j in sessions && r.after[j] == sessions[j]
  {
    if callerId.None? || callerId.value == "" then
      Step(Err(Unauthorized("User not authenticated")), sessions)
    else
      var userId := callerId.value;
      Step(Ok(200, "User logged out from all sessions successfully", ()),
           map j | j in sessions && sessions[j].userId != userId :: sessions[j])
  }

  method LogoutAllSessions(db: Db, callerId: Option<string>) returns (o: Outcome<()>)
    modifies db`sessions
    ensures Step(o, db.sessions) == LogoutAllStep(old(db.sessions), callerId)
  {
    if callerId.None? || callerId.value == "" {
      return Err(Unauthorized("User not authenticated"));
    }
    var userId := callerId.value;
    db.sessions := map j | j in db.sessions && db.sessions[j].userId != userId :: db.sessions[j];
    o := Ok(200, "User logged out from all sessions successfully", ());
  }
}
