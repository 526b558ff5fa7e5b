/**
 * The refresh-session lifecycle across several requests: a session row exists
 * from a successful login until logout, logout-all, or a refresh that finds it
 * expired; only login adds rows; a removed row is never brought back by refresh.
 */
module SessionLifecycle {
  import opened Wrappers
  import opened AppErrors
  import opened ErrorHandler
  import opened TokenService
  import opened Store
  import opened AuthControllers

  /** After a successful login, refreshing with a cookie that verifies to the issued
      refresh token succeeds at any instant at which that token is itself unexpired,
      yields an access token for the logged-in user, and keeps the session table as it is. */
  lemma LoginThenRefresh(users: seq<User>, sessions: Sessions, email: string, password: string,
                         hash: string -> string, secret: string, uuid: string, now: nat,
                         cookie: string, verify: string -> Decoded, later: nat)
    requires LoginStep(users, sessions, email, password, hash, secret, uuid, now).outcome.Ok?
    requires cookie != ""
    requires verify(cookie) == Verified(LoginStep(users, sessions, email, password, hash, secret, uuid, now)
                                          .outcome.data.refreshToken.claims)
    requires Accepts(LoginStep(users, sessions, email, password, hash, secret, uuid, now).outcome.data.refreshToken,
                     secret, IssuedAt(later))
    ensures var login := LoginStep(users, sessions, email, password, hash, secret, uuid, now);
      var refresh := RefreshStep(login.after, cookie, verify, secret, later);
      && refresh.outcome.Ok?
      && refresh.outcome.data.claims.custom == map["userId" := login.outcome.data.userId]
      && refresh.after == login.after
  {
    var login := LoginStep(users, sessions, email, password, hash, secret, uuid, now);
    TokenExpiresBeforeSession(users, sessions, email, password, hash, secret, uuid, now, later);
    assert uuid in login.after && later <= login.after[uuid].expiresAt;
    assert login.after[uuid].userId == login.outcome.data.userId;
  }

  /** The refresh token a login issues stops being accepted no later than its session row
      expires: while a verifier that checks `exp` accepts it, the row is still unexpired.
      With one clock reading per request, the refresh handler therefore never reaches its
      own expiry branch with a genuine token; clock readings that differ within a request
      are not modelled. */
  lemma TokenExpiresBeforeSession(users: seq<User>, sessions: Sessions, email: string, password: string,
                                  hash: string -> string, secret: string, uuid: string, now: nat, later: nat)
    requires LoginStep(users, sessions, email, password, hash, secret, uuid, now).outcome.Ok?
    ensures var login := LoginStep(users, sessions, email, password, hash, secret, uuid, now);
      && uuid in login.after
      && (Accepts(login.outcome.data.refreshToken, secret, IssuedAt(later)) ==> later < login.after[uuid].expiresAt)
  {
    var login := LoginStep(users, sessions, email, password, hash, secret, uuid, now);
    var u := CheckCredentials(users, email, password, hash).value;
    var issue := GenerateJwtRefreshToken(secret, u.id, uuid, now).value;
    assert login.outcome.data.refreshToken == issue.refreshToken;
    RefreshTokenExpiresWithSession(secret, u.id, uuid, now);
    if Accepts(issue.refreshToken, secret, IssuedAt(later)) {
      DivBelowInverse(later, issue.refreshToken.claims.exp);
    }
  }

  /** A successful refresh changes nothing, so repeating it gives the same answer. */
  lemma RefreshRepeatable(sessions: Sessions, cookie: string, verify: string -> Decoded,
                          secret: string, now: nat)
    requires RefreshStep(sessions, cookie, verify, secret, now).outcome.Ok?
    ensures var first := RefreshStep(sessions, cookie, verify, secret, now);
      RefreshStep(first.after, cookie, verify, secret, now) == first
  {
  }

  /** The expiry comparison is strict: a row whose `expiresAt` equals `now` still refreshes,
      and one a millisecond older is deleted. */
  lemma ExpiryIsStrict(sessions: Sessions, cookie: string, verify: string -> Decoded,
                       secret: string, jti: string, now: nat)
    requires cookie != "" && secret != ""
    requires verify(cookie).Verified? && verify(cookie).claims.jti == Some(jti)
    requires jti in sessions
    ensures sessions[jti].expiresAt == now ==> RefreshStep(sessions, cookie, verify, secret, now).outcome.Ok?
    ensures sessions[jti].expiresAt == now - 1 ==>
      RefreshStep(sessions, cookie, verify, secret, now).after == sessions - {jti}
  {
  }

  /** Retrying a refresh that found its row expired: the first attempt deletes the row and
      says it expired; the second finds no row and says the token is invalid. Both are 401
      and the second changes nothing. */
  lemma ExpiredRefreshRetried(sessions: Sessions, cookie: string, verify: string -> Decoded,
                              secret: string, now: nat)
    requires RefreshStep(sessions, cookie, verify, secret, now).outcome == Err(Unauthorized(RefreshTokenExpired))
    ensures var first := RefreshStep(sessions, cookie, verify, secret, now);
      var second := RefreshStep(first.after, cookie, verify, secret, now);
      && second == Step(Err(Unauthorized(InvalidRefreshToken)), first.after)
      && StatusOf(first.outcome) == StatusOf(second.outcome) == 401
  {
    var jti := verify(cookie).claims.jti.value;
    assert jti in sessions;
    assert RefreshStep(sessions, cookie, verify, secret, now).after == sessions - {jti};
  }

  /** Logging out twice with the same cookie is the same as logging out once. */
  lemma LogoutIdempotent(sessions: Sessions, cookie: string, verify: string -> Decoded)
    ensures var once := LogoutStep(sessions, cookie, verify);
      LogoutStep(once.after, cookie, verify) == once
  {
    var once := LogoutStep(sessions, cookie, verify);
    if cookie != "" && verify(cookie).Verified? && verify(cookie).claims.jti.Some? {
      var jti := verify(cookie).claims.jti.value;
      assert once.after == sessions - {jti};
      assert once.after - {jti} == once.after;
    }
  }

  /** Once a logout has removed a session, a refresh presenting that session is rejected
      as invalid, whatever the clock says. */
  lemma RefreshAfterLogoutFails(sessions: Sessions, logoutCookie: string, cookie: string,
                                verify: string -> Decoded, secret: string, now: nat)
    requires LogoutStep(sessions, logoutCookie, verify).outcome.Ok?
    requires verify(logoutCookie).claims.jti.Some?
    requires cookie != "" && verify(cookie).Verified?
    requires verify(cookie).claims.jti == verify(logoutCookie).claims.jti
    ensures var after := LogoutStep(sessions, logoutCookie, verify).after;
      RefreshStep(after, cookie, verify, secret, now) == Step(Err(Unauthorized(InvalidRefreshToken)), after)
  {
    var jti := verify(logoutCookie).claims.jti.value;
    assert RevokedBy(logoutCookie, verify, jti);
  }

  /** After logout-all, every refresh presenting one of the caller's former sessions is
      rejected as invalid; sessions of other users refresh as before. */
  lemma RefreshAfterLogoutAll(sessions: Sessions, userId: string, cookie: string,
                              verify: string -> Decoded, secret: string, now: nat)
    requires userId != ""
    requires cookie != "" && verify(cookie).Verified? && verify(cookie).claims.jti.Some?
    requires verify(cookie).claims.jti.value in sessions
    ensures var after := LogoutAllStep(sessions, Some(userId)).after;
      var jti := verify(cookie).claims.jti.value;
      && (sessions[jti].userId == userId ==>
            RefreshStep(after, cookie, verify, secret, now) == Step(Err(Unauthorized(InvalidRefreshToken)), after))
      && (sessions[jti].userId != userId ==>
            RefreshStep(after, cookie, verify, secret, now).outcome == RefreshStep(sessions, cookie, verify, secret, now).outcome)
  {
    var jti := verify(cookie).claims.jti.value;
    var after := LogoutAllStep(sessions, Some(userId)).after;
    if sessions[jti].userId != userId {
      assert jti in after && after[jti] == sessions[jti];
    }
  }

  /** Logout-all does not poison the store: a later login with valid credentials and a
      fresh session id succeeds and adds its row. */
  lemma LoginAfterLogoutAll(users: seq<User>, sessions: Sessions, userId: string, email: string,
                            password: string, hash: string -> string, secret: string, uuid: string, now: nat)
    requires CheckCredentials(users, email, password, hash).Success?
    requires secret != "" && uuid !in sessions
    ensures var after := LogoutAllStep(sessions, Some(userId)).after;
      LoginStep(users, after, email, password, hash, secret, uuid, now).outcome.Ok?
  {
  }

  /** A successful signup followed by a login with the same email and password succeeds,
      when a secret is configured and the drawn session id is new. */
  lemma SignupThenLogin(users: seq<User>, sessions: Sessions, username: string, email: string,
                        password: string, newId: string, hash: string -> string,
                        secret: string, uuid: string, now: nat)
    requires FreshUserId(users, newId)
    requires SignupStep(users, username, email, password, newId, hash).outcome.Ok?
    requires secret != "" && uuid !in sessions
    ensures var signup := SignupStep(users, username, email, password, newId, hash);
      var login := LoginStep(signup.after, sessions, email, password, hash, secret, uuid, now);
      && login.outcome.Ok?
      && login.outcome.data.userId == newId
  {
    var u := User(newId, username, email, hash(password));
    FindFirstAppend(users, u, WithEmail(email));
  }

  /** No handler leaves a session row that belongs to no user: login only adds rows for
      the user it found, and the other handlers only delete. */
  lemma SessionsStayOwned(users: seq<User>, sessions: Sessions, email: string, password: string,
                          hash: string -> string, secret: string, uuid: string, now: nat,
                          cookie: string, verify: string -> Decoded, callerId: Option<string>)
    requires SessionsOwned(users, sessions)
    ensures SessionsOwned(users, LoginStep(users, sessions, email, password, hash, secret, uuid, now).after)
    ensures SessionsOwned(users, RefreshStep(sessions, cookie, verify, secret, now).after)
    ensures SessionsOwned(users, LogoutStep(sessions, cookie, verify).after)
    ensures SessionsOwned(users, LogoutAllStep(sessions, callerId).after)
  {
    var login := LoginStep(users, sessions, email, password, hash, secret, uuid, now);
    if login.outcome.Ok? {
      var u := CheckCredentials(users, email, password, hash).value;
      var i :| 0 <= i < |users| && users[i] == u;
      assert HasUser(users, u.id);
    }
  }

  /** Signup keeps every session owned: it only adds users. */
  lemma SignupKeepsSessionsOwned(users: seq<User>, sessions: Sessions, username: string, email: string,
                                 password: string, newId: string, hash: string -> string)
    requires SessionsOwned(users, sessions)
    requires FreshUserId(users, newId)
    ensures SessionsOwned(SignupStep(users, username, email, password, newId, hash).after, sessions)
  {
    var after := SignupStep(users, username, email, password, newId, hash).after;
    forall j | j in sessions ensures HasUser(after, sessions[j].userId) {
      var i :| 0 <= i < |users| && users[i].id == sessions[j].userId;
      assert after[i] == users[i];
    }
  }

  /** Signup keeps user ids unique: the new row's id is one the table does not hold yet. */
  lemma SignupKeepsUserIdsUnique(users: seq<User>, username: string, email: string,
                                 password: string, newId: string, hash: string -> string)
    requires UniqueUserIds(users)
    requires FreshUserId(users, newId)
    ensures UniqueUserIds(SignupStep(users, username, email, password, newId, hash).after)
  {
  }

  // ---------------------------------------------------------------- the logout finding

  /** As written, a logout whose cookie verifies to a token without `jti` (any live access
      token, signed with the same secret) succeeds and empties the whole session table. */
  lemma LogoutAsWrittenRevokesEveryone(sessions: Sessions, cookie: string, verify: string -> Decoded)
    requires cookie != "" && verify(cookie).Verified? && verify(cookie).claims.jti.None?
    ensures LogoutStepAsWritten(sessions, cookie, verify) == Step(Ok(200, "User logged out successfully", ()), map[])
  {
  }

  /** A concrete instance: Alice presents her access token as the logout cookie, and Bob's
      session disappears although her token names no session at all. The corrected
      handler keeps both rows. */
  lemma LogoutAsWrittenCounterexample()
    ensures var alice := Session("alice", 2592000000);
      var bob := Session("bob", 2592000000);
      var sessions := map["s-alice" := alice, "s-bob" := bob];
      var access := GenerateJwtAccessToken("k", "alice", 0).value;
      var verify := (s: string) => Verified(access.claims);
      && "s-bob" in sessions
      && "s-bob" !in LogoutStepAsWritten(sessions, "access-token", verify).after
      && LogoutStep(sessions, "access-token", verify).after == sessions
  {
  }
}
