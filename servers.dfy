/**
 * The server controllers (backend/src/controllers/server.controllers.ts): creating a
 * server (its creator becomes its one ADMIN member), fetching one server, listing
 * the caller's servers and listing a server's members with their presence.
 *
 * `callerId` is `req.user!.id`, the id the authentication middleware put on the
 * request: it is absent when the verified token carried no `userId` claim, as a
 * refresh token does not. The handlers put that id into a query condition
 * (`user_id: userId`, `owner_id: userId`), and the database client drops a condition
 * whose value is undefined. `SelectedAsWritten` models that dropped condition and
 * `Selected` the evidently intended one; each affected handler is one function over
 * the selection, used by an as-written and a corrected version.
 */
module ServerControllers {
  import opened Wrappers
  import opened AppErrors
  import opened ErrorHandler
  import opened TokenService
  import opened Store
  import opened AuthControllers
  import opened AuthMiddleware

  const AdminRole: string := "ADMIN"
  const DefaultStatus: string := "offline"

  /** `getServer`'s data: the server with the membership rows its query selected. */
  datatype ServerView = ServerView(server: Server, serverMembers: seq<Member>)

  /** One entry of `getServerMembers`'s result. */
  datatype MemberView = MemberView(id: string, username: string, status: string)

  predicate IsMember(members: seq<Member>, serverId: string, userId: string) {
    exists i :: 0 <= i < |members| && members[i].serverId == serverId && members[i].userId == userId
  }

  /** The server has at least one membership row. */
  predicate HasMembers(members: seq<Member>, serverId: string) {
    exists i :: 0 <= i < |members| && members[i].serverId == serverId
  }

  /** No server and no membership row uses this id yet. */
  predicate FreshServerId(servers: seq<Server>, members: seq<Member>, id: string) {
    (forall i :: 0 <= i < |servers| ==> servers[i].id != id)
    && (forall i :: 0 <= i < |members| ==> members[i].serverId != id)
  }

  /** Every membership row refers to an existing user. */
  predicate MembersHaveUsers(users: seq<User>, members: seq<Member>) {
    forall i :: 0 <= i < |members| ==> HasUser(users, members[i].userId)
  }

  predicate ServerExists(servers: seq<Server>, serverId: string) {
    exists i :: 0 <= i < |servers| && servers[i].id == serverId
  }

  // ---------------------------------------------------------------- the caller's condition

  /** The user ids a condition on the caller's id selects, as evidently intended: the
      caller's own, and none when the id is absent. */
  function Selected(callerId: Option<string>): string -> bool {
    (id: string) => callerId == Some(id)
  }

  /** The user ids the condition selects as the code is written: the database client
      drops a condition whose value is undefined, so an absent id selects every user. */
  function SelectedAsWritten(callerId: Option<string>): string -> bool {
    if callerId.None? then (id: string) => true else Selected(callerId)
  }

  /** Some membership row of the server has a user the selection picks. */
  predicate HasMemberWhere(members: seq<Member>, serverId: string, sel: string -> bool) {
    exists i :: 0 <= i < |members| && members[i].serverId == serverId && sel(members[i].userId)
  }

  function WithServerId(id: string): Server -> bool { (s: Server) => s.id == id }
  function OwnedAs(name: string, owner: string -> bool): Server -> bool {
    (s: Server) => s.name == name && owner(s.ownerId)
  }
  function WithUserId(id: string): User -> bool { (u: User) => u.id == id }

  // ---------------------------------------------------------------- createServer

  /** An empty name is 400; a server of that name whose owner the selection picks is 409. */
  function CreateServerCheck(servers: seq<Server>, owner: string -> bool, name: string): (r: Option<Thrown>)
    ensures name == "" ==> r == Some(BadRequest("Server name is required"))
    ensures name != "" ==>
      (r.Some? <==> exists i :: 0 <= i < |servers| && servers[i].name == name && owner(servers[i].ownerId))
    ensures r.Some? && name != "" ==> r == Some(Conflict("You already own a server with this name"))
  {
    if name == "" then Some(BadRequest("Server name is required"))
    else if FindFirst(servers, OwnedAs(name, owner)).Some? then
      Some(Conflict("You already own a server with this name"))
    else None
  }

  /** `createServer` for a given owner condition: a failed check changes nothing; an absent
      caller id makes the insert throw (a server row and a membership row both need a
      user), which changes nothing either; otherwise one server owned by the caller is
      added, with exactly one member, the caller, as ADMIN. */
  function CreateServerWhere(servers: seq<Server>, members: seq<Member>, callerId: Option<string>,
                             owner: string -> bool, name: string, newId: string)
    : (r: Step<Server, (seq<Server>, seq<Member>)>)
    requires FreshServerId(servers, members, newId)
    ensures r.outcome.Err? ==> r.after == (servers, members)
    ensures CreateServerCheck(servers, owner, name).Some? ==>
      r.outcome == Err(CreateServerCheck(servers, owner, name).value)
    ensures CreateServerCheck(servers, owner, name).None? && callerId.None? ==>
      r.outcome.Err? && r.outcome.thrown.Other? && r.outcome.thrown.name == ClientValidationError
    ensures r.outcome.Ok? <==> CreateServerCheck(servers, owner, name).None? && callerId.Some?
    ensures r.outcome.Ok? ==> (
      && r.outcome.status == 201
      && r.outcome.data == Server(newId, name, callerId.value)
      && r.after.0 == servers + [r.outcome.data]
      && r.after.1 == members + [Member(newId, callerId.value, AdminRole)]
      && Filter(r.after.1, (m: Member) => m.serverId == newId) == [Member(newId, callerId.value, AdminRole)])
  {
    match CreateServerCheck(servers, owner, name)
    case Some(e) => Step(Err(e), (servers, members))
    case None =>
      match callerId
      case None => Step(Err(Other(ClientValidationError, "Argument `owner_id` is missing.")), (servers, members))
      case Some(userId) =>
        var s := Server(newId, name, userId);
        var admin := Member(newId, userId, AdminRole);
        FilterAppendOne(members, admin, newId);
        Step(Ok(201, "Server created successfully", s), (servers + [s], members + [admin]))
  }

  /** `createServer` as written: with an absent caller id the duplicate-name check matches
      a server of that name whoever owns it; with an id present it is CreateServerStep. */
  function CreateServerStepAsWritten(servers: seq<Server>, members: seq<Member>, callerId: Option<string>,
                                     name: string, newId: string)
    : (r: Step<Server, (seq<Server>, seq<Member>)>)
    requires FreshServerId(servers, members, newId)
    ensures callerId.Some? ==> r == CreateServerStep(servers, members, callerId, name, newId)
    ensures callerId.None? && name != "" ==>
      (r.outcome == Err(Conflict("You already own a server with this name"))
       <==> exists i :: 0 <= i < |servers| && servers[i].name == name)
    ensures r.after == (servers, members) || callerId.Some?
  {
    CreateServerWhere(servers, members, callerId, SelectedAsWritten(callerId), name, newId)
  }

  /** `createServer` with the intended owner condition: 409 only when the caller itself
      owns a server of that name; on success one server owned by the caller is added with
      the caller as its only member, an ADMIN; on failure neither table changes. */
  function CreateServerStep(servers: seq<Server>, members: seq<Member>, callerId: Option<string>,
                            name: string, newId: string): (r: Step<Server, (seq<Server>, seq<Member>)>)
    requires FreshServerId(servers, members, newId)
    ensures name == "" ==> r.outcome == Err(BadRequest("Server name is required"))
    ensures name != "" ==>
      (r.outcome == Err(Conflict("You already own a server with this name"))
       <==> callerId.Some? && exists i :: 0 <= i < |servers| && servers[i].name == name
                                          && servers[i].ownerId == callerId.value)
    ensures r.outcome.Err? ==> r.after == (servers, members)
    ensures r.outcome.Ok? <==> (callerId.Some? && name != ""
                                && forall i :: 0 <= i < |servers| ==>
                                     !(servers[i].name == name && servers[i].ownerId == callerId.value))
    ensures r.outcome.Ok? ==> (
      && r.outcome.status == 201
      && r.outcome.data == Server(newId, name, callerId.value)
      && r.after.0 == servers + [r.outcome.data]
      && r.after.1 == members + [Member(newId, callerId.value, AdminRole)]
      && Filter(r.after.1, (m: Member) => m.serverId == newId) == [Member(newId, callerId.value, AdminRole)])
  {
    CreateServerWhere(servers, members, callerId, Selected(callerId), name, newId)
  }

  lemma {:induction false} FilterAppendOne(members: seq<Member>, m: Member, id: string)
    requires forall i :: 0 <= i < |members| ==> members[i].serverId != id
    requires m.serverId == id
    ensures Filter(members + [m], (x: Member) => x.serverId == id) == [m]
  {
    if |members| > 0 {
      assert (members + [m])[1..] == members[1..] + [m];
      FilterAppendOne(members[1..], m, id);
    }
  }

  method CreateServer(db: Db, callerId: Option<string>, name: string, newId: string) returns (o: Outcome<Server>)
    requires FreshServerId(db.servers, db.members, newId)
    modifies db`servers, db`members
    ensures Step(o, (db.servers, db.members)) == CreateServerStep(old(db.servers), old(db.members), callerId, name, newId)
  {
    if name == "" {
      return Err(BadRequest("Server name is required"));
    }
    if FindFirst(db.servers, OwnedAs(name, Selected(callerId))).Some? {
      return Err(Conflict("You already own a server with this name"));
    }
    if callerId.None? {
      return Err(Other(ClientValidationError, "Argument `owner_id` is missing."));
    }
    var s := Server(newId, name, callerId.value);
    db.servers := db.servers + [s];
    db.members := db.members + [Member(newId, callerId.value, AdminRole)];
    o := Ok(201, "Server created successfully", s);
  }

  // ---------------------------------------------------------------- getServer

  /** `getServer` for a given member condition: a missing server is 404; a server none of
      whose rows the condition selects is 403; otherwise the server with the selected rows. */
  function GetServerWhere(servers: seq<Server>, members: seq<Member>, sel: string -> bool, serverId: string)
    : (o: Outcome<ServerView>)
    ensures !ServerExists(servers, serverId) ==> o == Err(NotFound("Server not found"))
    ensures ServerExists(servers, serverId) && !HasMemberWhere(members, serverId, sel) ==>
      o == Err(Forbidden("Unauthorized to access this server"))
    ensures o.Ok? <==> ServerExists(servers, serverId) && HasMemberWhere(members, serverId, sel)
    ensures o.Ok? ==> (
      && o.status == 200 && o.data.server.id == serverId && o.data.server in servers
      && |o.data.serverMembers| > 0
      && forall m :: m in o.data.serverMembers <==> m in members && m.serverId == serverId && sel(m.userId))
  {
    match FindFirst(servers, WithServerId(serverId))
    case None => Err(NotFound("Server not found"))
    case Some(s) =>
      var rows := Filter(members, (m: Member) => m.serverId == serverId && sel(m.userId));
      if |rows| == 0 then
        assert !HasMemberWhere(members, serverId, sel) by {
          forall i | 0 <= i < |members| ensures !(members[i].serverId == serverId && sel(members[i].userId)) {
            assert members[i] in members;
          }
        }
        Err(Forbidden("Unauthorized to access this server"))
      else
        assert rows[0] in rows;
        Ok(200, "Server fetched successfully", ServerView(s, rows))
  }

  /** `getServer` as written: with an absent caller id the member condition is dropped, so
      any server with at least one member is returned with all of its membership rows;
      with an id present it is GetServer. */
  function GetServerAsWritten(servers: seq<Server>, members: seq<Member>, callerId: Option<string>,
                              serverId: string): (o: Outcome<ServerView>)
    ensures callerId.Some? ==> o == GetServer(servers, members, callerId, serverId)
    ensures callerId.None? ==> (o.Ok? <==> ServerExists(servers, serverId) && HasMembers(members, serverId))
    ensures callerId.None? && o.Ok? ==>
      forall m :: m in o.data.serverMembers <==> m in members && m.serverId == serverId
  {
    GetServerWhere(servers, members, SelectedAsWritten(callerId), serverId)
  }

  /** `getServer` with the intended member condition: a missing server is 404; a caller
      without a membership row in it, or without an id, is 403; otherwise the server is
      returned with exactly the caller's own membership rows. */
  function GetServer(servers: seq<Server>, members: seq<Member>, callerId: Option<string>, serverId: string)
    : (o: Outcome<ServerView>)
    ensures !ServerExists(servers, serverId) ==> o == Err(NotFound("Server not found"))
    ensures ServerExists(servers, serverId) && (callerId.None? || !IsMember(members, serverId, callerId.value)) ==>
      o == Err(Forbidden("Unauthorized to access this server"))
    ensures o.Ok? <==> callerId.Some? && ServerExists(servers, serverId) && IsMember(members, serverId, callerId.value)
    ensures o.Ok? ==> (
      && o.status == 200 && o.data.server.id == serverId && o.data.server in servers
      && forall m :: m in o.data.serverMembers <==>
           m in members && m.serverId == serverId && m.userId == callerId.value)
  {
    GetServerWhere(servers, members, Selected(callerId), serverId)
  }

  // ---------------------------------------------------------------- getAllServers

  /** `getAllServers` for a given member condition: the servers with a selected membership
      row, in table order; 404 when there are none. */
  function GetAllServersWhere(servers: seq<Server>, members: seq<Member>, sel: string -> bool)
    : (o: Outcome<seq<Server>>)
    ensures o.Err? <==> forall i :: 0 <= i < |servers| ==> !HasMemberWhere(members, servers[i].id, sel)
    ensures o.Err? ==> o == Err(NotFound("No servers found for this user"))
    ensures o.Ok? ==> (
      && o.status == 200 && |o.data| > 0
      && forall s :: s in o.data <==> s in servers && HasMemberWhere(members, s.id, sel))
  {
    var found := Filter(servers, (s: Server) => HasMemberWhere(members, s.id, sel));
    if |found| == 0 then
      assert forall i :: 0 <= i < |servers| ==> !HasMemberWhere(members, servers[i].id, sel) by {
        forall i | 0 <= i < |servers| ensures !HasMemberWhere(members, servers[i].id, sel) {
          assert servers[i] in servers;
        }
      }
      Err(NotFound("No servers found for this user"))
    else
      assert found[0] in found;
      Ok(200, "Servers fetched successfully", found)
  }

  /** `getAllServers` as written: with an absent caller id the `some` condition only asks
      for a member, so every server that has one is listed; with an id present it is
      GetAllServers. */
  function GetAllServersAsWritten(servers: seq<Server>, members: seq<Member>, callerId: Option<string>)
    : (o: Outcome<seq<Server>>)
    ensures callerId.Some? ==> o == GetAllServers(servers, members, callerId)
    ensures callerId.None? && o.Ok? ==> forall s :: s in o.data <==> s in servers && HasMembers(members, s.id)
    ensures callerId.None? ==> (o.Err? <==> forall i :: 0 <= i < |servers| ==> !HasMembers(members, servers[i].id))
  {
    GetAllServersWhere(servers, members, SelectedAsWritten(callerId))
  }

  /** `getAllServers` with the intended condition: exactly the servers the caller is a
      member of, in table order; 404 when there are none, and always for a caller without
      an id. */
  function GetAllServers(servers: seq<Server>, members: seq<Member>, callerId: Option<string>)
    : (o: Outcome<seq<Server>>)
    ensures o.Err? <==> (callerId.None? || forall i :: 0 <= i < |servers| ==> !IsMember(members, servers[i].id, callerId.value))
    ensures o.Err? ==> o == Err(NotFound("No servers found for this user"))
    ensures o.Ok? ==> (
      && callerId.Some? && o.status == 200 && |o.data| > 0
      && forall s :: s in o.data <==> s in servers && IsMember(members, s.id, callerId.value))
  {
    GetAllServersWhere(servers, members, Selected(callerId))
  }

  // ---------------------------------------------------------------- getServerMembers

  /** The status shown for a user: its presence status, or "offline" without one. */
  function PresenceStatus(presence: map<string, string>, userId: string): string {
    if userId in presence then presence[userId] else DefaultStatus
  }

  function UsernameOf(users: seq<User>, id: string): string
    requires HasUser(users, id)
  {
    var u := FindFirst(users, WithUserId(id));
    assert u.Some? by {
      var i :| 0 <= i < |users| && users[i].id == id;
      assert WithUserId(id)(users[i]);
    }
    u.value.username
  }

  function InServer(serverId: string): Member -> bool { (m: Member) => m.serverId == serverId }
  /** `member.user.id === userId`: an absent caller id equals no user's id. */
  function IsUser(callerId: Option<string>): Member -> bool { (m: Member) => Some(m.userId) == callerId }

  /** The membership rows of one server, in table order. */
  function MembersOf(members: seq<Member>, serverId: string): (rows: seq<Member>)
    ensures forall m :: m in rows <==> m in members && m.serverId == serverId
    ensures |rows| == 0 <==> forall i :: 0 <= i < |members| ==> members[i].serverId != serverId
  {
    var rows := Filter(members, InServer(serverId));
    assert |rows| == 0 ==> forall i :: 0 <= i < |members| ==> members[i].serverId != serverId by {
      if |rows| == 0 {
        forall i | 0 <= i < |members| ensures members[i].serverId != serverId {
          assert members[i] in members;
        }
      }
    }
    assert |rows| > 0 ==> rows[0] in rows;
    rows
  }

  lemma MembersOfHaveUsers(users: seq<User>, members: seq<Member>, serverId: string)
    requires MembersHaveUsers(users, members)
    ensures MembersHaveUsers(users, MembersOf(members, serverId))
  {
    var rows := MembersOf(members, serverId);
    forall i | 0 <= i < |rows| ensures HasUser(users, rows[i].userId) {
      assert rows[i] in members;
      var j :| 0 <= j < |members| && members[j] == rows[i];
    }
  }

  lemma CallerAmongRows(members: seq<Member>, serverId: string, callerId: Option<string>)
    ensures var rows := MembersOf(members, serverId);
      FirstIndex(rows, IsUser(callerId)).Some? <==> callerId.Some? && IsMember(members, serverId, callerId.value)
  {
    var rows := MembersOf(members, serverId);
    if FirstIndex(rows, IsUser(callerId)).Some? {
      var k := FirstIndex(rows, IsUser(callerId)).value;
      assert rows[k] in members;
      var j :| 0 <= j < |members| && members[j] == rows[k];
    }
    if callerId.Some? && IsMember(members, serverId, callerId.value) {
      var j :| 0 <= j < |members| && members[j].serverId == serverId && members[j].userId == callerId.value;
      assert members[j] in rows;
      var k :| 0 <= k < |rows| && rows[k] == members[j];
      assert IsUser(callerId)(rows[k]);
    }
  }

  /** Projects membership rows to `{ id, username, status }`, one entry per row and in
      the same order. */
  function ProjectMembers(ms: seq<Member>, users: seq<User>, presence: map<string, string>)
    : (r: seq<MemberView>)
    requires MembersHaveUsers(users, ms)
    ensures |r| == |ms|
    ensures forall i :: 0 <= i < |ms| ==>
      r[i] == MemberView(ms[i].userId, UsernameOf(users, ms[i].userId), PresenceStatus(presence, ms[i].userId))
  {
    if |ms| == 0 then []
    else
      [MemberView(ms[0].userId, UsernameOf(users, ms[0].userId), PresenceStatus(presence, ms[0].userId))]
        + ProjectMembers(ms[1..], users, presence)
  }

  /** A missing server is 404, a server without members is 404, a caller who is not
      among the members, or has no id, is 403; otherwise every member of the server is
      listed, in table order, with "offline" for those without presence. */
  function GetServerMembers(servers: seq<Server>, members: seq<Member>, users: seq<User>,
                            presence: map<string, string>, callerId: Option<string>, serverId: string)
    : (o: Outcome<seq<MemberView>>)
    requires MembersHaveUsers(users, members)
    ensures !ServerExists(servers, serverId) ==> o == Err(NotFound("Server not found"))
    ensures ServerExists(servers, serverId) && !HasMembers(members, serverId) ==>
      o == Err(NotFound("No members found for this server"))
    ensures (ServerExists(servers, serverId) && HasMembers(members, serverId)
             && (callerId.None? || !IsMember(members, serverId, callerId.value))) ==>
      o == Err(Forbidden("Unauthorized to access this server's members"))
    ensures o.Ok? <==> (ServerExists(servers, serverId)
                        && callerId.Some? && IsMember(members, serverId, callerId.value))
    ensures o.Ok? ==> o.status == 200 && o.data == ProjectMembers(MembersOf(members, serverId), users, presence)
    ensures o.Ok? ==> exists i :: 0 <= i < |o.data| && Some(o.data[i].id) == callerId
  {
    match FindFirst(servers, WithServerId(serverId))
    case None => Err(NotFound("Server not found"))
    case Some(_) =>
      var rows := MembersOf(members, serverId);
      if |rows| == 0 then
        Err(NotFound("No members found for this server"))
      else
        CallerAmongRows(members, serverId, callerId);
        match FirstIndex(rows, IsUser(callerId))
        case None => Err(Forbidden("Unauthorized to access this server's members"))
        case Some(k) =>
          MembersOfHaveUsers(users, members, serverId);
          var result := ProjectMembers(rows, users, presence);
          assert Some(result[k].id) == callerId;
          Ok(200, "Server members retrieved successfully", result)
  }

  // ---------------------------------------------------------------- the dropped caller condition

  /** As written, a refresh token sent as the access token reads a server its holder does
      not belong to, with every membership row; the corrected handler answers 403. The
      token is any space-free string the verifier decodes to Alice's refresh-token claims. */
  lemma RefreshTokenReadsForeignServerAsWritten(token: string)
    requires ' ' !in token && token != ""
    ensures var issue := GenerateJwtRefreshToken("k", "alice", "jti-1", 0).value;
      var verify := (t: string) => Verified(issue.refreshToken.claims);
      var servers := [Server("s1", "general", "bob")];
      var members := [Member("s1", "bob", AdminRole)];
      && Authenticate(Some("Bearer " + token), verify) == Authenticated(AuthUser(None))
      && !IsMember(members, "s1", "alice")
      && GetServerAsWritten(servers, members, None, "s1").Ok?
      && members[0] in GetServerAsWritten(servers, members, None, "s1").data.serverMembers
      && GetServer(servers, members, None, "s1") == Err(Forbidden("Unauthorized to access this server"))
  {
    var issue := GenerateJwtRefreshToken("k", "alice", "jti-1", 0).value;
    var verify := (t: string) => Verified(issue.refreshToken.claims);
    RefreshTokenAuthenticatesWithoutId("k", "alice", "jti-1", 0, "Bearer", token, verify);
    assert "Bearer" + " " + token == "Bearer " + token;
    var servers := [Server("s1", "general", "bob")];
    var members := [Member("s1", "bob", AdminRole)];
    assert ServerExists(servers, "s1") by { assert servers[0].id == "s1"; }
    assert HasMembers(members, "s1") by { assert members[0].serverId == "s1"; }
  }

  /** As written, the same request lists every server that has a member; the corrected
      handler finds none for a caller without an id. */
  lemma RefreshTokenListsForeignServersAsWritten()
    ensures var servers := [Server("s1", "general", "bob"), Server("s2", "random", "carol")];
      var members := [Member("s1", "bob", AdminRole), Member("s2", "carol", AdminRole)];
      && GetAllServersAsWritten(servers, members, None).Ok?
      && servers[0] in GetAllServersAsWritten(servers, members, None).data
      && servers[1] in GetAllServersAsWritten(servers, members, None).data
      && GetAllServers(servers, members, None) == Err(NotFound("No servers found for this user"))
  {
    var servers := [Server("s1", "general", "bob"), Server("s2", "random", "carol")];
    var members := [Member("s1", "bob", AdminRole), Member("s2", "carol", AdminRole)];
    assert HasMembers(members, "s1") by { assert members[0].serverId == "s1"; }
    assert HasMembers(members, "s2") by { assert members[1].serverId == "s2"; }
    assert !(forall i :: 0 <= i < |servers| ==> !HasMembers(members, servers[i].id)) by {
      assert HasMembers(members, servers[0].id);
    }
  }

  /** As written, a caller without an id is told it already owns a server that another
      user owns; the corrected check finds no such server of its own. */
  lemma ForeignNameConflictsAsWritten()
    ensures var servers := [Server("s1", "general", "bob")];
      var members := [Member("s1", "bob", AdminRole)];
      && CreateServerStepAsWritten(servers, members, None, "general", "s2").outcome
           == Err(Conflict("You already own a server with this name"))
      && CreateServerStep(servers, members, None, "general", "s2").outcome
           != Err(Conflict("You already own a server with this name"))
  {
  }
}
