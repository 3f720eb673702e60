/** The server handlers: listing the caller's servers, creating a server
    with its default channels, public discovery, and reading, joining and
    leaving a server. Each handler is a function of the store, a database
    fault, the authenticated caller and the request; the ones that write
    return the new store along with the result. */
module Servers {
  import opened Wrappers
  import opened Models
  import opened Seqs
  import opened Errors
  import opened Database

  /** Values the database fills in for columns an `INSERT` leaves out. */
  datatype ColumnDefaults = ColumnDefaults(isPublic: bool, channelPosition: Int32)

  datatype CreateServerRequest = CreateServerRequest(
    name: string,
    icon: Option<string>,
    description: Option<string>,
    category: Option<string>,
    color: Option<string>)

  datatype DiscoverQuery = DiscoverQuery(category: Option<string>, limit: Option<int>, offset: Option<int>)

  const NotAMemberOfServer: string := "You are not a member of this server"
  const ServerNotFound: string := "Server not found"
  const ServerNotPublic: string := "Server is not public"
  const AlreadyAMember: string := "Already a member"
  const OwnerCannotLeave: string := "Owner cannot leave the server"
  const NegativeLimit: string := "LIMIT must not be negative"
  const NegativeOffset: string := "OFFSET must not be negative"
  const NoContent: int := 204

  /** Every id in the tables the server handlers insert into was drawn
      from the generator before its current value. */
  ghost predicate IdsFresh(st: Store) {
    && (forall s :: s in st.servers ==> s.id < st.nextId)
    && (forall c :: c in st.channels ==> c.id < st.nextId)
  }

  /** The `WHERE` of `list_servers`: the caller has a `server_members` row
      for the server. */
  function JoinedBy(members: seq<ServerMember>, user: Uuid): Server -> bool {
    (s: Server) => IsMember(members, s.id, user)
  }

  /** `list_servers`: the servers the caller is a member of, oldest first. */
  function ListServers(st: Store, f: Fault, user: Uuid): (r: Result<seq<Server>, AppError>)
    ensures Fails(f, 0) <==> r.Err?
    ensures r.Err? ==> r.error == Sqlx(f.detail)
    ensures r.Ok? ==> forall s :: s in r.value <==> s in st.servers && IsMember(st.members, s.id, user)
    ensures r.Ok? ==> forall i, j :: 0 <= i < j < |r.value| ==> r.value[i].createdAt <= r.value[j].createdAt
    ensures r.Ok? ==> multiset(r.value) == multiset(Filter(st.servers, JoinedBy(st.members, user)))
  {
    if Fails(f, 0) then Err(Sqlx(f.detail))
    else
      var joined := Filter(st.servers, JoinedBy(st.members, user));
      var sorted := SortBy(joined, (s: Server) => s.createdAt);
      assert forall s :: s in sorted <==> s in joined by {
        assert forall s :: s in sorted <==> s in multiset(sorted);
      }
      Ok(sorted)
  }

  /** The server row `create_server` inserts. */
  function NewServer(st: Store, user: Uuid, body: CreateServerRequest, defaults: ColumnDefaults, now: Timestamp): Server {
    Server(st.nextId, body.name, body.icon, None, body.color, body.description, body.category, user, defaults.isPublic, now)
  }

  /** `create_server`: one transaction (statements 0 to 4: begin, insert the
      server, insert the owner membership, insert the two default channels,
      commit). A failing statement rolls everything back. */
  function CreateServer(st: Store, f: Fault, user: Uuid, body: CreateServerRequest, defaults: ColumnDefaults, now: Timestamp): (r: (Store, Result<Server, AppError>))
    ensures (exists k :: 0 <= k <= 4 && Fails(f, k)) <==> r.1.Err?
    ensures r.1.Err? ==> r.0 == st && r.1.error == Sqlx(f.detail)
    ensures r.1.Ok? ==>
      var s := r.1.value;
      && s.id == st.nextId && s.ownerId == user && s.name == body.name
      && s.icon == body.icon && s.description == body.description
      && s.category == body.category && s.color == body.color
      && r.0.servers == st.servers + [s]
      && r.0.members == st.members + [ServerMember(s.id, user, Owner, now)]
      && r.0.channels == st.channels + [Channel(s.id + 1, s.id, "general", Text, 0, now), Channel(s.id + 2, s.id, "Lounge", Voice, 0, now)]
      && r.0.nextId == st.nextId + 3
      && r.0.(servers := st.servers, members := st.members, channels := st.channels, nextId := st.nextId) == st
  {
    if f.FailAt? && f.step <= 4 then
      assert Fails(f, f.step);
      (st, Err(Sqlx(f.detail)))
    else
      var s := NewServer(st, user, body, defaults, now);
      var general := Channel(s.id + 1, s.id, "general", Text, 0, now);
      var lounge := Channel(s.id + 2, s.id, "Lounge", Voice, 0, now);
      var st1 := st.(
        servers := st.servers + [s],
        members := st.members + [ServerMember(s.id, user, Owner, now)],
        channels := st.channels + [general, lounge],
        nextId := st.nextId + 3);
      (st1, Ok(s))
  }

  /** The `WHERE` of `discover_servers`: public, and of `category` when
      one is given. */
  function Listable(category: Option<string>): Server -> bool {
    (s: Server) => s.isPublic && (category.Some? ==> s.category == category)
  }

  /** The public servers (of `category`, when one is given), newest first. */
  function PublicListing(st: Store, category: Option<string>): (r: seq<Server>)
    ensures forall s :: s in r <==> s in st.servers && s.isPublic && (category.Some? ==> s.category == category)
    ensures forall i, j :: 0 <= i < j < |r| ==> r[i].createdAt >= r[j].createdAt
    ensures multiset(r) == multiset(Filter(st.servers, Listable(category)))
  {
    var listed := Filter(st.servers, Listable(category));
    var sorted := SortBy(listed, (s: Server) => -s.createdAt);
    assert forall s :: s in sorted <==> s in listed by {
      assert forall s :: s in sorted <==> s in multiset(sorted);
    }
    sorted
  }

  /** `q.limit.unwrap_or(20).min(50)`. */
  function DiscoverLimit(q: DiscoverQuery): (n: int)
    ensures n <= 50 && n <= q.limit.GetOr(20)
    ensures n == 50 || n == q.limit.GetOr(20)
  {
    var n := q.limit.GetOr(20);
    if n < 50 then n else 50
  }

  /** `discover_servers`: public servers (of the category, when one is
      given), newest first, `offset` rows skipped (none by default) and at
      most `min(limit or 20, 50)` returned. The database rejects a negative
      limit or offset. */
  function DiscoverServers(st: Store, f: Fault, q: DiscoverQuery): (r: Result<seq<Server>, AppError>)
    ensures r.Ok? <==> !Fails(f, 0) && q.limit.GetOr(0) >= 0 && q.offset.GetOr(0) >= 0
    ensures r.Ok? ==> |r.value| <= 50 && |r.value| <= q.limit.GetOr(20)
    ensures r.Ok? ==> forall s :: s in r.value ==>
      s in st.servers && s.isPublic && (q.category.Some? ==> s.category == q.category)
    ensures r.Ok? ==> forall i, j :: 0 <= i < j < |r.value| ==> r.value[i].createdAt >= r.value[j].createdAt
    ensures r.Ok? && q.offset.GetOr(0) <= |PublicListing(st, q.category)| ==>
      |r.value| == Min(|PublicListing(st, q.category)| - q.offset.GetOr(0), DiscoverLimit(q))
    ensures r.Ok? && q.offset.GetOr(0) >= |PublicListing(st, q.category)| ==> r.value == []
    ensures r.Ok? ==> forall i :: 0 <= i < |r.value| ==>
      q.offset.GetOr(0) + i < |PublicListing(st, q.category)|
      && r.value[i] == PublicListing(st, q.category)[q.offset.GetOr(0) + i]
  {
    var limit := DiscoverLimit(q);
    var offset := q.offset.GetOr(0);
    if Fails(f, 0) then Err(Sqlx(f.detail))
    else if limit < 0 then Err(Sqlx(NegativeLimit))
    else if offset < 0 then Err(Sqlx(NegativeOffset))
    else
      Ok(DiscoverWindow(st, q.category, offset, limit))
  }

  /** `LIMIT limit OFFSET offset` over the public listing. */
  function DiscoverWindow(st: Store, category: Option<string>, offset: nat, limit: nat): (w: seq<Server>)
    ensures |w| <= limit
    ensures forall s :: s in w ==> s in st.servers && s.isPublic && (category.Some? ==> s.category == category)
    ensures forall i, j :: 0 <= i < j < |w| ==> w[i].createdAt >= w[j].createdAt
    ensures offset <= |PublicListing(st, category)| ==> |w| == Min(|PublicListing(st, category)| - offset, limit)
    ensures offset >= |PublicListing(st, category)| ==> w == []
    ensures forall i :: 0 <= i < |w| ==>
      offset + i < |PublicListing(st, category)| && w[i] == PublicListing(st, category)[offset + i]
  {
    var all := PublicListing(st, category);
    WindowKeepsOrder(all, offset, limit, (s: Server) => s.createdAt);
    Window(all, offset, limit)
  }

  /** Without `offset` and `limit`, discovery returns the 20 newest
      matching public servers, or all of them when there are fewer. */
  lemma DiscoverFirstPage(st: Store, category: Option<string>)
    ensures var r := DiscoverServers(st, NoFault, DiscoverQuery(category, None, None));
      r.Ok? && r.value == PublicListing(st, category)[..Min(|PublicListing(st, category)|, 20)]
  {
    var all := PublicListing(st, category);
    var r := DiscoverServers(st, NoFault, DiscoverQuery(category, None, None));
    var want := all[..Min(|all|, 20)];
    assert |r.value| == |want|;
    assert forall i :: 0 <= i < |want| ==> r.value[i] == want[i];
  }

  /** `get_server`: membership is checked before the server is looked up. */
  function GetServer(st: Store, f: Fault, user: Uuid, id: Uuid): (r: Result<Server, AppError>)
    ensures Fails(f, 0) ==> r == Err(Sqlx(f.detail))
    ensures !Fails(f, 0) && !IsMember(st.members, id, user) ==> r == Err(Forbidden(NotAMemberOfServer))
    ensures !Fails(f, 0) && IsMember(st.members, id, user) && Fails(f, 1) ==> r == Err(Sqlx(f.detail))
    ensures f.NoFault? && IsMember(st.members, id, user) ==>
      (r.Err? <==> forall s :: s in st.servers ==> s.id != id)
    ensures r.Err? && !r.error.Sqlx? ==> r.error == Forbidden(NotAMemberOfServer) || r.error == NotFound(ServerNotFound)
    ensures r.Ok? ==> r.value in st.servers && r.value.id == id && IsMember(st.members, id, user)
  {
    if Fails(f, 0) then Err(Sqlx(f.detail))
    else if !IsMember(st.members, id, user) then Err(Forbidden(NotAMemberOfServer))
    else if Fails(f, 1) then Err(Sqlx(f.detail))
    else
      match FindServer(st, id)
      case None => Err(NotFound(ServerNotFound))
      case Some(s) => Ok(s)
  }

  /** `join_server`: the server must exist and be public; the insert does
      nothing when the membership already exists. */
  function JoinServer(st: Store, f: Fault, user: Uuid, id: Uuid, now: Timestamp): (r: (Store, Result<ServerMember, AppError>))
    ensures r.1.Err? ==> r.0 == st
    ensures Fails(f, 0) ==> r.1 == Err(Sqlx(f.detail))
    ensures !Fails(f, 0) && FindServer(st, id).None? ==> r.1 == Err(NotFound(ServerNotFound))
    ensures !Fails(f, 0) && FindServer(st, id).Some? && !FindServer(st, id).value.isPublic ==>
      r.1 == Err(Forbidden(ServerNotPublic))
    ensures f.NoFault? && FindServer(st, id).Some? && FindServer(st, id).value.isPublic ==>
      (IsMember(st.members, id, user) <==> r.1 == Err(BadRequest(AlreadyAMember)))
    ensures r.1.Ok? ==>
      && r.1.value == ServerMember(id, user, Member, now)
      && !IsMember(st.members, id, user)
      && r.0 == st.(members := st.members + [r.1.value])
  {
    if Fails(f, 0) then (st, Err(Sqlx(f.detail)))
    else
      match FindServer(st, id)
      case None => (st, Err(NotFound(ServerNotFound)))
      case Some(s) =>
        if !s.isPublic then (st, Err(Forbidden(ServerNotPublic)))
        else if Fails(f, 1) then (st, Err(Sqlx(f.detail)))
        else if IsMember(st.members, id, user) then (st, Err(BadRequest(AlreadyAMember)))
        else
          var m := ServerMember(id, user, Member, now);
          (st.(members := st.members + [m]), Ok(m))
  }

  /** `DELETE FROM server_members WHERE server_id = $1 AND user_id = $2`. */
  function DeleteMembership(members: seq<ServerMember>, id: Uuid, user: Uuid): (r: seq<ServerMember>)
    ensures forall m :: m in r <==> m in members && !(m.serverId == id && m.userId == user)
    ensures !IsMember(r, id, user)
    ensures !IsMember(members, id, user) ==> r == members
  {
    if |members| == 0 then []
    else
      var rest := DeleteMembership(members[1..], id, user);
      assert members == [members[0]] + members[1..];
      if members[0].serverId == id && members[0].userId == user then rest
      else [members[0]] + rest
  }

  /** `leave_server`: the server must exist and the caller must not own it;
      the caller's membership rows are then deleted, and the answer is
      204 No Content whether or not there were any. */
  function LeaveServer(st: Store, f: Fault, user: Uuid, id: Uuid): (r: (Store, Result<int, AppError>))
    ensures r.1.Err? ==> r.0 == st
    ensures Fails(f, 0) ==> r.1 == Err(Sqlx(f.detail))
    ensures !Fails(f, 0) && FindServer(st, id).None? ==> r.1 == Err(NotFound(ServerNotFound))
    ensures !Fails(f, 0) && FindServer(st, id).Some? && FindServer(st, id).value.ownerId == user ==>
      r.1 == Err(BadRequest(OwnerCannotLeave))
    ensures f.NoFault? && FindServer(st, id).Some? && FindServer(st, id).value.ownerId != user ==>
      r.1 == Ok(NoContent)
    ensures r.1.Ok? ==>
      && r.1.value == NoContent
      && !IsMember(r.0.members, id, user)
      && (forall m :: m in r.0.members <==> m in st.members && !(m.serverId == id && m.userId == user))
      && r.0 == st.(members := r.0.members)
  {
    if Fails(f, 0) then (st, Err(Sqlx(f.detail)))
    else
      match FindServer(st, id)
      case None => (st, Err(NotFound(ServerNotFound)))
      case Some(s) =>
        if s.ownerId == user then (st, Err(BadRequest(OwnerCannotLeave)))
        else if Fails(f, 1) then (st, Err(Sqlx(f.detail)))
        else (st.(members := DeleteMembership(st.members, id, user)), Ok(NoContent))
  }

  /** Deleting a membership that was appended last deletes just that row
      when the user had no other. */
  lemma {:induction false} DeleteAppendedMembership(members: seq<ServerMember>, m: ServerMember)
    requires !IsMember(members, m.serverId, m.userId)
    ensures DeleteMembership(members + [m], m.serverId, m.userId) == members
    decreases |members|
  {
    if |members| == 0 {
      assert members + [m] == [m];
    } else {
      assert (members + [m])[1..] == members[1..] + [m];
      assert !IsMember(members[1..], m.serverId, m.userId) by {
        forall x | x in members[1..] ensures !(x.serverId == m.serverId && x.userId == m.userId) {
          assert x in members;
        }
      }
      DeleteAppendedMembership(members[1..], m);
      assert members[0] in members;
      assert members == [members[0]] + members[1..];
    }
  }

  /** Joining a public server and leaving it again restores the store. */
  lemma JoinLeaveRoundTrip(st: Store, user: Uuid, id: Uuid, now: Timestamp)
    requires FindServer(st, id).Some? && FindServer(st, id).value.isPublic
    requires FindServer(st, id).value.ownerId != user
    requires !IsMember(st.members, id, user)
    ensures JoinServer(st, NoFault, user, id, now).1.Ok?
    ensures LeaveServer(JoinServer(st, NoFault, user, id, now).0, NoFault, user, id) == (st, Ok(NoContent))
  {
    var st1 := JoinServer(st, NoFault, user, id, now).0;
    assert st1.servers == st.servers;
    DeleteAppendedMembership(st.members, ServerMember(id, user, Member, now));
  }

  /** After a successful create, the creator can read the new server back,
      and the two default channels belong to it. */
  lemma CreateThenGet(st: Store, user: Uuid, body: CreateServerRequest, defaults: ColumnDefaults, now: Timestamp)
    requires IdsFresh(st)
    ensures var (st1, r) := CreateServer(st, NoFault, user, body, defaults, now);
      && r.Ok?
      && GetServer(st1, NoFault, user, r.value.id) == Ok(r.value)
      && IdsFresh(st1)
  {
    var (st1, r) := CreateServer(st, NoFault, user, body, defaults, now);
    var s := r.value;
    assert ServerMember(s.id, user, Owner, now) in st1.members;
    assert FindServer(st1, s.id) == Some(s) by {
      FindFirstAppendFresh(st.servers, s);
    }
  }

  /** After a successful create, the new server appears in its creator's
      `list_servers` exactly once. */
  lemma CreatedServerListedOnce(st: Store, user: Uuid, body: CreateServerRequest, defaults: ColumnDefaults, now: Timestamp)
    requires IdsFresh(st)
    ensures var (st1, r) := CreateServer(st, NoFault, user, body, defaults, now);
      && r.Ok?
      && ListServers(st1, NoFault, user).Ok?
      && multiset(ListServers(st1, NoFault, user).value)[r.value] == 1
  {
    var (st1, r) := CreateServer(st, NoFault, user, body, defaults, now);
    var s := r.value;
    assert s !in st.servers;
    assert ServerMember(s.id, user, Owner, now) in st1.members;
    assert multiset(st1.servers)[s] == multiset(st.servers)[s] + 1;
    FilterCount(st1.servers, JoinedBy(st1.members, user), s);
  }

  lemma {:induction false} FindFirstAppendFresh(servers: seq<Server>, s: Server)
    requires forall x :: x in servers ==> x.id != s.id
    ensures FindFirst(servers + [s], (x: Server) => x.id == s.id) == Some(s)
    decreases |servers|
  {
    if |servers| == 0 {
      assert servers + [s] == [s];
    } else {
      assert (servers + [s])[1..] == servers[1..] + [s];
      FindFirstAppendFresh(servers[1..], s);
    }
  }
}
