/**
 * The user controllers (backend/src/controllers/user.controllers.ts): listing all
 * users, and a second signup handler that checks the username instead of the email
 * and stores the password exactly as received.
 */
module UserControllers {
  import opened Wrappers
  import opened AppErrors
  import opened ErrorHandler
  import opened Store
  import opened AuthControllers

  function WithUsername(username: string): User -> bool { (u: User) => u.username == username }

  /** Lists the whole user table, every column and in table order, with 200. */
  function GetUsers(users: seq<User>): (o: Outcome<seq<User>>)
    ensures o.Ok? && o.status == 200
    ensures |o.data| == |users| && forall i :: 0 <= i < |users| ==> o.data[i] == users[i]
  {
    Ok(200, "Users fetched successfully", users)
  }

  /** The checks in this handler's order: all three fields, then the username's
      uniqueness, then the password length. */
  function UserSignupCheck(users: seq<User>, username: string, email: string, password: string)
    : (r: Option<Thrown>)
    ensures (username == "" || email == "" || password == "") ==>
      r == Some(BadRequest("Username, email and password are required"))
    ensures (username != "" && email != "" && password != ""
             && FindFirst(users, WithUsername(username)).Some?) ==> r == Some(Conflict("Username already exists"))
    ensures (username != "" && email != "" && password != "" && FindFirst(users, WithUsername(username)).None?
             && |password| < 6) ==> r == Some(BadRequest("Password must be at least 6 characters long"))
    ensures r.None? <==> (username != "" && email != "" && password != ""
                          && FindFirst(users, WithUsername(username)).None? && |password| >= 6)
  {
    if username == "" || email == "" || password == "" then
      Some(BadRequest("Username, email and password are required"))
    else if FindFirst(users, WithUsername(username)).Some? then
      Some(Conflict("Username already exists"))
    else if |password| < 6 then
      Some(BadRequest("Password must be at least 6 characters long"))
    else
      None
  }

  /** Either a check fails and nothing is inserted, or exactly one user is appended whose
      stored password is the submitted one, verbatim. */
  function UserSignupStep(users: seq<User>, username: string, email: string, password: string,
                          newId: string): (r: Step<User, seq<User>>)
    requires FreshUserId(users, newId)
    ensures r.outcome.Err? <==> UserSignupCheck(users, username, email, password).Some?
    ensures r.outcome.Err? ==> (r.after == users
                               && r.outcome.thrown == UserSignupCheck(users, username, email, password).value)
    ensures r.outcome.Ok? ==> (r.outcome.status == 201
                              && r.outcome.data == User(newId, username, email, password)
                              && r.after == users + [r.outcome.data])
  {
    match UserSignupCheck(users, username, email, password)
    case Some(e) => Step(Err(e), users)
    case None =>
      var u := User(newId, username, email, password);
      Step(Ok(201, "User signed up successfully", u), users + [u])
  }

  method UserSignup(db: Db, username: string, email: string, password: string, newId: string)
    returns (o: Outcome<User>)
    requires FreshUserId(db.users, newId)
    modifies db`users
    ensures Step(o, db.users) == UserSignupStep(old(db.users), username, email, password, newId)
  {
    if username == "" || email == "" || password == "" {
      return Err(BadRequest("Username, email and password are required"));
    }
    if FindFirst(db.users, WithUsername(username)).Some? {
      return Err(Conflict("Username already exists"));
    }
    if |password| < 6 {
      return Err(BadRequest("Password must be at least 6 characters long"));
    }
    var u := User(newId, username, email, password);
    db.users := db.users + [u];
    o := Ok(201, "User signed up successfully", u);
  }

  /** The username is checked before the password: a taken username with a short password
      is a 409, not a 400. */
  lemma TakenUsernameBeatsShortPassword(users: seq<User>, username: string, email: string,
                                        password: string, newId: string)
    requires username != "" && email != "" && password != "" && |password| < 6
    requires FreshUserId(users, newId)
    requires exists i :: 0 <= i < |users| && users[i].username == username
    ensures StatusOf(UserSignupStep(users, username, email, password, newId).outcome) == 409
    ensures UserSignupStep(users, username, email, password, newId).after == users
  {
  }

  /** A user created here keeps the password as typed, so the login handler's hash
      comparison accepts it only if the hash of the password is the password itself. */
  lemma PlaintextUserLogin(users: seq<User>, username: string, email: string, password: string,
                           newId: string, hash: string -> string)
    requires FreshUserId(users, newId)
    requires UserSignupStep(users, username, email, password, newId).outcome.Ok?
    requires FindFirst(users, WithEmail(email)).None?
    ensures var after := UserSignupStep(users, username, email, password, newId).after;
      CheckCredentials(after, email, password, hash).Success? <==> hash(password) == password
  {
    var u := User(newId, username, email, password);
    FindFirstAppend(users, u, WithEmail(email));
  }
}
