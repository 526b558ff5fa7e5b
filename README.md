# Refresh sessions, access checks and invites of the chat-server backend, in Dafny

This project models the authentication core of a multi-user chat backend (accounts,
servers, server membership, invites) and proves properties of that model.

- **Refresh-session lifecycle.** The refresh-session table maps a session id (`jti`) to its
  owner and its `expiresAt`.
  - Login adds exactly one row.
  - Refresh issues a new access token. It deletes the row only when it finds the row
    expired (`expiresAt < now`, strictly).
  - Logout deletes one row.
  - Logout-all deletes every row of one user.
  - Each handler is a pure step function (its outcome and the table afterwards) that
    carries the properties. A method performs that step on the database object (`Store.Db`).
  - Lemmas in `SessionLifecycle` relate several steps: login then refresh, retrying an
    expired refresh, logout idempotence, refresh after logout or logout-all, signup then
    login, and sessions always owned by a user.
- **Tokens.** Tokens follow RFC 7519. Each one is a datatype holding its claims set and its
  signing key: the custom payload, `sub` (section 4.1.2), `jti` (section 4.1.7), `iat`
  (section 4.1.6) and `exp` (section 4.1.4). `jwt.verify` is an oracle parameter that
  either decodes claims or fails with an error name.
- **Middleware.** The access-token middleware splits the `Authorization` header on spaces
  (JavaScript `split`, proved against its inverse `Join`). It then maps the outcome to
  401, 403 or an authenticated `req.user`.
- **Invite codes.** The generator is a loop of at most five attempts. Each candidate is
  the first 8 characters of the base64url encoding of 8 random bytes (section 5 of
  RFC 4648). The encoding is proved against a decoder.
- **Server and user controllers.** These cover signup variants, server creation (the
  creator becomes its ADMIN), membership access checks and the member listing. The
  caller's id is optional. Where the code passes it into a query condition, the model
  has an as-written version, in which an absent id drops the condition, and a
  corrected version (see "## Findings").
- **Errors.** Every handler ends in `ErrorHandler.Outcome`. An error is rendered by
  `HandleError`: an `AppError` keeps its own status, and anything else becomes a generic 500.

## Inputs that the model turns into parameters

- **The clock.** `now` is a natural number of milliseconds, one reading per request.
  JWT `iat`/`exp` are whole seconds, `now / 1000`.
- **Random values.** `crypto.randomUUID` is the `uuid` parameter. `crypto.randomBytes(8)`
  is the sequence `draws`.
- **Database ids.** Ids the database assigns are parameters. A new user's id is required
  to be fresh (`FreshUserId`), and so is a new server's id (`FreshServerId`).
- **The caller's id.** The server handlers read `req.user!.id`, which is
  `callerId: Option<string>`. It is absent when the verified token had no `userId` claim.
- **The signing secret.** `JWT_SECRET` is the `secret` parameter. `""` stands for unset
  or empty, since both make the generators throw.
- **bcrypt.** `bcrypt.hash` is the uninterpreted function parameter `hash`. `bcrypt.compare`
  is `stored == hash(password)`.
- **`jwt.verify`.** It is the oracle `verify: string -> Decoded`.
- **Missing request fields.** The handlers test fields with JavaScript's falsy check, so
  an absent field and `""` behave alike. Both are modelled as `""`.

## Where the code departs from the intended behaviour (the model follows the code)

- **Logout with a bad token.** The intended behaviour is a 400. But when the refresh
  token fails verification, logout ends in a 500 "Internal server error", because its
  `catch` passes every error on.
- **Retrying an expired refresh.** The intended behaviour is that a retry gets the same
  error as the first attempt. The first attempt answers 401 "Refresh token has
  expired" and deletes the row. A retry finds no row and answers 401 "Invalid refresh
  token". The status is the same but the message differs (`ExpiredRefreshRetried`).
- **Other verification failures in refresh.** Refresh maps only `JsonWebTokenError` to
  401. Any other failure name becomes a 500.
- **Refresh-token rotation.** Refresh does not rotate the refresh token: the session row
  is left as it was.
- **Duplicate session id.** The intended behaviour is a `Conflict` error. In the code, a login
  whose drawn `jti` already names a row makes the insert throw. That is a 500, modelled
  by `LoginStep`.
- **Session expiry versus token expiry.** `RefreshTokenExpiresWithSession` proves that
  the refresh token's own `exp` is never later than the row's `expiresAt`.
  `TokenExpiresBeforeSession` proves the consequence for a login's row: while the token
  is accepted, the row is unexpired. So, with one clock reading per request, a verifier
  that enforces `exp` rejects a genuine token before refresh can find its row expired.
  In the last second before `expiresAt` such a verifier already fails with a name other
  than `JsonWebTokenError`, which refresh turns into a 500. The source reads the clock
  several times per request; see `RefreshTokenExpiresWithSession` under "## Left out".

## Model

| member | source | states |
|---|---|---|
| AppErrors.OmittedArgumentsDefault | backend/src/utils/AppError.ts:8-17 | an AppError built from a message alone has status 500, code "INTERNAL_SERVER_ERROR" and no details |
| AppErrors.SuppliedArgumentsKept | backend/src/utils/AppError.ts:14-17 | message, status, code and details equal the constructor arguments |
| ErrorHandler.HandleError | backend/src/middleware/errorHandler.ts:10-29 | an AppError is sent with its own status, message, code and details; any other error is sent as 500 "Internal server error" / INTERNAL_SERVER_ERROR; `success` is always false |
| ErrorHandler.AppErrorRendersLosslessly | backend/src/middleware/errorHandler.ts:10-18 | the AppError can be read back exactly from its rendered response |
| ErrorHandler.StatusOf | backend/src/middleware/errorHandler.ts:10-29 | the status a handler's outcome is sent with: its own on success, an AppError's own status code, and 500 for anything else thrown |
| ErrorHandler.OtherErrorsIndistinguishable | backend/src/middleware/errorHandler.ts:21-29 | any two non-AppErrors render identically, so the original message never leaks |
| TokenService.GenerateJwtAccessToken | backend/src/services/token.service.ts:5-14 | fails exactly when the secret is unset or empty; otherwise the only custom claim is `userId`, there is no `sub`/`jti`, and `exp` is one hour after `iat` |
| TokenService.GenerateJwtRefreshToken | backend/src/services/token.service.ts:18-44 | fails exactly when the secret is unset or empty; otherwise `jti` is the drawn UUID unchanged, `sub` is the user, there are no custom claims, the token's `exp` is 30 days after `iat`, and `expiresAt` is `now + 2592000000` ms |
| TokenService.AccessTokenLifetime | backend/src/services/token.service.ts:5-13 | an issued access token is accepted with its key for every instant less than 3599 s after issue and for none 3600 s or more after, and it carries the user id |
| TokenService.RefreshTokenExpiresWithSession | backend/src/services/token.service.ts:32-41 | the token's `exp` (s) is at most, and less than one second before, the persisted `expiresAt` (ms) |
| AuthControllers.SignupCheck | backend/src/controllers/auth.controllers.ts:27-39 | missing field gives 400; then an existing email gives 409 (before the length check); then a password under 6 gives 400; it passes iff all three checks pass |
| AuthControllers.SignupStep | backend/src/controllers/auth.controllers.ts:23-55 | on any failed check the user table is unchanged; on success exactly one user with the hashed password is appended and returned with 201 |
| AuthControllers.Signup | backend/src/controllers/auth.controllers.ts:23-60 | performs SignupStep on the database's user table, and changes nothing else |
| AuthControllers.CheckCredentials | backend/src/controllers/auth.controllers.ts:67-80 | missing fields give 400; an unknown email and a wrong password give the identical 401 "Invalid credentials"; success iff the user exists and the password matches |
| AuthControllers.LoginStep | backend/src/controllers/auth.controllers.ts:63-113 | every failure leaves the session table unchanged; success iff credentials pass, a secret is set and the `jti` is new; then exactly one row `jti -> (user id, now + 30 days)` is added and the returned tokens carry that user and that `jti` |
| AuthControllers.Login | backend/src/controllers/auth.controllers.ts:63-118 | performs LoginStep on the session table, and changes nothing else |
| AuthControllers.RefreshStep | backend/src/controllers/auth.controllers.ts:121-167 | missing cookie gives 400; a JsonWebTokenError gives 401, other verification failures give 500; an unknown `jti` gives 401 and no change; `expiresAt < now` deletes exactly that row and gives 401 "Refresh token has expired"; otherwise an access token for the row's user is issued and the table is unchanged |
| AuthControllers.RefreshToken | backend/src/controllers/auth.controllers.ts:121-168 | performs RefreshStep on the session table |
| AuthControllers.LogoutStepAsWritten | backend/src/controllers/auth.controllers.ts:170-195 | the handler as written: missing cookie gives 400; any verification failure is passed on (500); a token with `jti` deletes that row; a token without `jti` deletes every row |
| AuthControllers.LogoutStep | backend/src/controllers/auth.controllers.ts:170-195 | logout deletes exactly the row whose id is the token's `jti` (none when absent), keeps every other row, and succeeds whether or not the row existed |
| AuthControllers.Logout | backend/src/controllers/auth.controllers.ts:170-195 | performs LogoutStep on the session table |
| AuthControllers.LogoutAllStep | backend/src/controllers/auth.controllers.ts:197-213 | without a user id it gives 401 and no change; otherwise it deletes exactly the caller's rows and keeps every other user's rows unchanged |
| AuthControllers.LogoutAllSessions | backend/src/controllers/auth.controllers.ts:197-213 | performs LogoutAllStep on the session table |
| SessionLifecycle.LoginThenRefresh | backend/src/controllers/auth.controllers.ts:82-158 | after a login, refreshing with the issued refresh token succeeds while the token itself is unexpired, for the same user, without changing the table |
| SessionLifecycle.TokenExpiresBeforeSession | backend/src/controllers/auth.controllers.ts:82-92 | while the refresh token a login issued is still accepted, the session row that login created is unexpired |
| SessionLifecycle.RefreshRepeatable | backend/src/controllers/auth.controllers.ts:150-158 | a successful refresh changes nothing, so repeating it gives the same result |
| SessionLifecycle.ExpiryIsStrict | backend/src/controllers/auth.controllers.ts:144-147 | `expiresAt == now` still refreshes; one millisecond older deletes the row |
| SessionLifecycle.ExpiredRefreshRetried | backend/src/controllers/auth.controllers.ts:140-147 | after an expired refresh deleted the row, the retry gets 401 "Invalid refresh token" and changes nothing |
| SessionLifecycle.LogoutIdempotent | backend/src/controllers/auth.controllers.ts:181-183 | logging out twice with the same cookie equals logging out once |
| SessionLifecycle.RefreshAfterLogoutFails | backend/src/controllers/auth.controllers.ts:135-142 | a session removed by logout is never usable for refresh again |
| SessionLifecycle.RefreshAfterLogoutAll | backend/src/controllers/auth.controllers.ts:199-205 | after logout-all, every former session of the caller fails refresh with 401; other users' sessions refresh as before |
| SessionLifecycle.LoginAfterLogoutAll | backend/src/controllers/auth.controllers.ts:71-92 | logout-all does not prevent a later login |
| SessionLifecycle.SignupThenLogin | backend/src/controllers/auth.controllers.ts:32-92 | a signup followed by a login with the same email and password succeeds, as the new user |
| SessionLifecycle.SessionsStayOwned | backend/src/controllers/auth.controllers.ts:82-92 | login, refresh, logout and logout-all never leave a session whose user does not exist |
| SessionLifecycle.SignupKeepsUserIdsUnique | backend/src/controllers/auth.controllers.ts:41-49 | signup keeps user ids unique, given that the database draws a fresh id |
| SessionLifecycle.SignupKeepsSessionsOwned | backend/src/controllers/auth.controllers.ts:43-49 | signup keeps every session owned by an existing user |
| SessionLifecycle.LogoutAsWrittenRevokesEveryone | backend/src/controllers/auth.controllers.ts:178-183 | as written, a logout whose token has no `jti` empties the whole session table |
| SessionLifecycle.LogoutAsWrittenCounterexample | backend/src/controllers/auth.controllers.ts:178-183 | concretely: Alice's access token as the logout cookie deletes Bob's session; the corrected handler deletes nothing |
| UserControllers.GetUsers | backend/src/controllers/user.controllers.ts:8-19 | returns every user row, unchanged and in table order, with 200 |
| UserControllers.UserSignupCheck | backend/src/controllers/user.controllers.ts:25-36 | missing field gives 400; then an existing username gives 409 (before the length check); then a password under 6 gives 400; it passes iff all pass |
| UserControllers.UserSignupStep | backend/src/controllers/user.controllers.ts:21-50 | on failure nothing is inserted; on success exactly one user is appended with the password stored verbatim |
| UserControllers.UserSignup | backend/src/controllers/user.controllers.ts:21-55 | performs UserSignupStep on the user table |
| UserControllers.TakenUsernameBeatsShortPassword | backend/src/controllers/user.controllers.ts:29-36 | a taken username with a short password gets 409 and inserts nothing |
| UserControllers.PlaintextUserLogin | backend/src/controllers/user.controllers.ts:38-44 | a user created here can log in through the auth handler only if hashing the password yields the password itself |
| ServerControllers.CreateServerCheck | backend/src/controllers/server.controllers.ts:17-30 | an empty name gives 400; otherwise it fails (409) iff a server of that name has an owner the condition selects |
| ServerControllers.CreateServerWhere | backend/src/controllers/server.controllers.ts:11-50 | a failed check changes nothing; with no caller id the insert throws (500) and changes nothing; otherwise one server owned by the caller is added, and its only member is the caller, as ADMIN |
| ServerControllers.CreateServerStepAsWritten | backend/src/controllers/server.controllers.ts:15-30 | as written: with no caller id, 409 iff any server has that name, and nothing changes; with an id it equals CreateServerStep |
| ServerControllers.CreateServerStep | backend/src/controllers/server.controllers.ts:11-50 | an empty name gives 400; 409 iff the caller has an id and already owns a server of that name; on failure neither table changes; success iff the caller has an id and the check passes, adding the caller's server and its ADMIN membership |
| ServerControllers.CreateServer | backend/src/controllers/server.controllers.ts:11-55 | performs CreateServerStep on the servers and members tables |
| ServerControllers.GetServerWhere | backend/src/controllers/server.controllers.ts:57-82 | a missing server gives 404; 403 iff the condition selects none of its membership rows; otherwise the server with exactly the selected rows |
| ServerControllers.GetServerAsWritten | backend/src/controllers/server.controllers.ts:60-77 | as written: with no caller id, any server that has a member is returned with all of its rows; with an id it equals GetServer |
| ServerControllers.GetServer | backend/src/controllers/server.controllers.ts:57-82 | a missing server gives 404; a caller with no id, or not a member, gets 403; otherwise the server is returned with exactly the caller's membership rows |
| ServerControllers.GetAllServersWhere | backend/src/controllers/server.controllers.ts:89-108 | exactly the servers with a membership row the condition selects; 404 iff there are none |
| ServerControllers.GetAllServersAsWritten | backend/src/controllers/server.controllers.ts:91-102 | as written: with no caller id, exactly the servers that have any member; with an id it equals GetAllServers |
| ServerControllers.GetAllServers | backend/src/controllers/server.controllers.ts:89-108 | exactly the servers the caller is a member of; 404 iff there are none, and always for a caller with no id |
| ServerControllers.ProjectMembers | backend/src/controllers/server.controllers.ts:162-166 | same length and order as the member rows; each entry has the member's id and username, and its presence status or "offline" |
| ServerControllers.GetServerMembers | backend/src/controllers/server.controllers.ts:115-172 | missing server gives 404; no members gives 404; a caller not among them, or with no id (`===` never matches undefined), gives 403; otherwise the projection of all of the server's rows, which includes the caller |
| ServerControllers.RefreshTokenReadsForeignServerAsWritten | backend/src/controllers/server.controllers.ts:60-77 | concretely: Alice's refresh token as the bearer token authenticates with no id; with it, getServer as written returns Bob's server and his membership row, and the corrected handler answers 403 |
| ServerControllers.RefreshTokenListsForeignServersAsWritten | backend/src/controllers/server.controllers.ts:91-102 | concretely: with no caller id, getAllServers as written lists Bob's and Carol's servers, and the corrected handler answers 404 |
| ServerControllers.ForeignNameConflictsAsWritten | backend/src/controllers/server.controllers.ts:21-30 | concretely: with no caller id, createServer as written answers 409 for a name Bob owns, and the corrected check does not |
| AuthMiddleware.Split | backend/src/middleware/authMiddleware.ts:16 | JavaScript `split(' ')`: at least one field, no field contains a space, and joining the fields gives back the header |
| AuthMiddleware.SplitJoin | backend/src/middleware/authMiddleware.ts:16 | splitting joined fields that hold no space gives back exactly those fields |
| AuthMiddleware.BearerToken | backend/src/middleware/authMiddleware.ts:16 | a token is found only in a present header, and never in one without a space |
| AuthMiddleware.BearerTokenOfHeader | backend/src/middleware/authMiddleware.ts:16 | any scheme word, a space and a token yields that token; the scheme is not checked |
| AuthMiddleware.Authenticate | backend/src/middleware/authMiddleware.ts:14-28 | no token (absent or empty second field) gives 401 UNAUTHORIZED; a failed verification gives 403 FORBIDDEN; otherwise authenticated as the token's `userId` |
| AuthMiddleware.IssuedTokenAuthenticates | backend/src/middleware/authMiddleware.ts:16-25 | an issued access token in any `<scheme> <token>` header authenticates its user |
| AuthMiddleware.RefreshTokenAuthenticatesWithoutId | backend/src/middleware/authMiddleware.ts:16-25 | a refresh token (same secret, no `userId` claim) in any `<scheme> <token>` header authenticates with no user id |
| AuthMiddleware.AuthenticateToken | backend/src/middleware/authMiddleware.ts:13-29 | on success sets `req.user` and calls `next` with no error; on failure leaves `req.user` and passes the error |
| InviteService.Base64Url | backend/src/services/invite.service.ts:10 | base64url output has four characters per three bytes plus two or three for a remainder, all from the RFC 4648 section 5 alphabet |
| InviteService.Base64UrlRoundTrip | backend/src/services/invite.service.ts:10 | decoding the encoding of whole groups gives the bytes back |
| InviteService.Candidate | backend/src/services/invite.service.ts:10 | a candidate is 8 characters, all from the base64url alphabet |
| InviteService.CandidateEncodesSixBytes | backend/src/services/invite.service.ts:10 | a candidate is exactly the encoding of the draw's first six bytes, and determines them |
| InviteService.GenerateInviteCode | backend/src/services/invite.service.ts:4-23 | at most five draws and lookups, and the invites table is only read; it returns the first candidate not already a code and stops there; if all five collide it fails with "Failed to generate unique invite code" |

## Findings

| source | as written | input that shows it | evidently intended | confidence | as-written member | corrected member |
|---|---|---|---|---|---|---|
| backend/src/controllers/server.controllers.ts:60-77 | getServer selects the caller's rows with `where: { user_id: userId }`; when `req.user.id` is undefined the client drops that condition, so every membership row is selected and the 403 check passes | `GET /servers/:id` of a server with a member, with `Authorization: Bearer <refresh token>`; the middleware verifies it and sets `req.user = { id: undefined }` | a caller with no id is a member of nothing and gets 403 | medium (depends on the database client dropping an undefined condition); not executed | ServerControllers.RefreshTokenReadsForeignServerAsWritten | ServerControllers.GetServer |
| backend/src/controllers/server.controllers.ts:91-102 | getAllServers filters with `serverMembers: { some: { user_id: userId } }`; with an undefined id this becomes "has any member" | `GET /servers` with a refresh token as the bearer token | only the servers the caller belongs to, none for a caller with no id | medium (same dependency); not executed | ServerControllers.RefreshTokenListsForeignServersAsWritten | ServerControllers.GetAllServers |
| backend/src/controllers/server.controllers.ts:21-30 | createServer looks for `{ name, owner_id: userId }`; with an undefined id any server of that name matches | `POST /servers` with `{ name }` equal to another user's server name and a refresh token as the bearer token | 409 only when the caller itself owns such a server | medium (same dependency); not executed | ServerControllers.ForeignNameConflictsAsWritten | ServerControllers.CreateServerStep |
| backend/src/controllers/auth.controllers.ts:178-183 | logout deletes with the filter `{ id: decoded.jti }`; the database client drops a filter whose value is undefined, so for a token without `jti` the delete matches every row | POST /logout with the `refreshToken` cookie set to any live access token (signed with the same secret, payload `{userId}` and no `jti`) | delete only the presented session's row, and nothing when the token names no session | medium (depends on the database client treating undefined as "no filter"); not executed | SessionLifecycle.LogoutAsWrittenCounterexample | AuthControllers.LogoutStep |

## Left out

- Routes, startup, cookie options and JSON shaping. The cookie max-age equals `RefreshSessionTtlMs`. `logoutAllSessions` is modelled though no route uses it.
- Signing and verifying cryptography. A token is its claims and key. `jwt.verify` is an oracle; which error name it gives for an expired token is not modelled.
- bcrypt's algorithm and salting. `hash` is an uninterpreted deterministic function.
- Randomness and entropy. UUIDs and random bytes are inputs; collision probability is not modelled.
- Concurrency. Each handler is one sequential step.
- Database failures other than the two modelled ones (duplicate session id on login, missing `jti` in the refresh lookup) are not modelled.
- Ids the database generates (users, servers) are required fresh rather than drawn.
- The database's unique and foreign-key constraints beyond that. `GetServerMembers` requires that every membership row has a user row.
- RefreshTokenExpiresWithSession: one `now` stands for every clock reading of one request. The source reads the clock separately in `jwt.sign` (token.service.ts:32) and for `expiresAt` (:41), and again in `jwt.verify` and in the expiry comparison of refresh (auth.controllers.ts:131, :144). The lower bound `exp * 1000 <= expiresAt` holds whenever the later reading is not earlier. The upper bound `expiresAt < exp * 1000 + 1000`, and the reading that refresh never reaches its expiry branch with a genuine token, depend on the readings being equal. Readings on either side of a second boundary give `expiresAt == exp * 1000 + 1000`, and a lookup that spans `expiresAt` does reach that branch.
- Request bodies of a non-string type.
- CreateServerWhere: a creation with no caller id is modelled as throwing a client validation error, because a server's owner and a membership row's user are required. The schema is not part of this model.
- The `console.error` call in the error handler, which only logs.
- SignupCheck: password length is counted in Unicode scalar values, whereas JavaScript counts UTF-16 code units. The two differ only for characters outside the Basic Multilingual Plane.
- UserSignupCheck: password length is counted the same way, with the same difference.
- GenerateInviteCode: the random source is the sequence `draws`, required to supply at least five draws.
- Invite acceptance, invite expiry and the invite table's other columns. The core only generates codes.
- The error's `details` is an optional string, not an arbitrary value.
