/**
 * The persisted tables the handlers read and write, as one in-memory database
 * object: users, refresh sessions (keyed by `jti`), servers, server members
 * and invites. Each handler is one sequential step over it.
 */
module Store {
  import opened Wrappers

  /** A user row; `password` holds whatever the signup handler stored. */
  datatype User = User(id: string, username: string, email: string, password: string)

  /** A refresh-session row, keyed by its `jti` in the session table. */
  datatype Session = Session(userId: string, expiresAt: int)

  datatype Server = Server(id: string, name: string, ownerId: string)

  datatype Member = Member(serverId: string, userId: string, role: string)

  datatype Invite = Invite(serverId: string, expiresAt: int)

  class Db {
    var users: seq<User>
    var sessions: map<string, Session>
    var servers: seq<Server>
    var members: seq<Member>
    /** invite code -> invite */
    var invites: map<string, Invite>

    constructor ()
      ensures users == [] && sessions == map[] && servers == [] && members == []
      ensures invites == map[]
    {
      users, sessions, servers, members := [], map[], [], [];
      invites := map[];
    }
  }

  /** The index of the first element satisfying `p`, if any (a `findFirst`/`findUnique`). */
  function FirstIndex<T>(xs: seq<T>, p: T -> bool): (r: Option<nat>)
    ensures r.None? <==> forall i :: 0 <= i < |xs| ==> !p(xs[i])
    ensures r.Some? ==> r.value < |xs| && p(xs[r.value])
    ensures r.Some? ==> forall j :: 0 <= j < r.value ==> !p(xs[j])
  {
    if |xs| == 0 then None
    else if p(xs[0]) then Some(0)
    else
      match FirstIndex(xs[1..], p)
      case None => None
      case Some(k) => Some(k + 1)
  }

  /** The first element satisfying `p`, if any. */
  function FindFirst<T>(xs: seq<T>, p: T -> bool): (r: Option<T>)
    ensures r.None? <==> forall i :: 0 <= i < |xs| ==> !p(xs[i])
    ensures r.Some? ==> r.value in xs && p(r.value)
  {
    match FirstIndex(xs, p)
    case None => None
    case Some(i) => Some(xs[i])
  }

  /** Appending a row does not change which row a lookup finds, unless no row matched before. */
  lemma {:induction false} FindFirstAppend<T>(xs: seq<T>, y: T, p: T -> bool)
    ensures FindFirst(xs, p).Some? ==> FindFirst(xs + [y], p) == FindFirst(xs, p)
    ensures FindFirst(xs, p).None? && p(y) ==> FindFirst(xs + [y], p) == Some(y)
    ensures FindFirst(xs, p).None? && !p(y) ==> FindFirst(xs + [y], p) == None
  {
    FirstIndexAppend(xs, y, p);
  }

  lemma {:induction false} FirstIndexAppend<T>(xs: seq<T>, y: T, p: T -> bool)
    ensures FirstIndex(xs, p).Some? ==> FirstIndex(xs + [y], p) == FirstIndex(xs, p)
    ensures FirstIndex(xs, p).None? && p(y) ==> FirstIndex(xs + [y], p) == Some(|xs|)
    ensures FirstIndex(xs, p).None? && !p(y) ==> FirstIndex(xs + [y], p) == None
  {
    if |xs| > 0 && !p(xs[0]) {
      assert (xs + [y])[1..] == xs[1..] + [y];
      FirstIndexAppend(xs[1..], y, p);
    }
  }

  /** The elements satisfying `p`, in their original order (a `findMany` with a `where`). */
  function Filter<T(!new)>(xs: seq<T>, p: T -> bool): (r: seq<T>)
    ensures |r| <= |xs|
    ensures forall x :: x in r <==> x in xs && p(x)
  {
    if |xs| == 0 then []
    else if p(xs[0]) then [xs[0]] + Filter(xs[1..], p)
    else Filter(xs[1..], p)
  }

  /** True when some user row has this id. */
  predicate HasUser(users: seq<User>, id: string) {
    exists i :: 0 <= i < |users| && users[i].id == id
  }

  /** No user row has this id yet: the database draws a new user's id. */
  predicate FreshUserId(users: seq<User>, id: string) {
    forall i :: 0 <= i < |users| ==> users[i].id != id
  }

  /** No two user rows share an id. */
  predicate UniqueUserIds(users: seq<User>) {
    forall i, j :: 0 <= i < j < |users| ==> users[i].id != users[j].id
  }

  /** Every refresh session belongs to an existing user. */
  predicate SessionsOwned(users: seq<User>, sessions: map<string, Session>) {
    forall j :: j in sessions ==> HasUser(users, sessions[j].userId)
  }
}
