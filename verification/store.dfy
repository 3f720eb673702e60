/** An abstract in-memory stand-in for the relational database: one sequence
    of rows per table, plus the counter that the database's id generator
    draws fresh ids from. Each query of the handlers is modelled by the
    filtering and ordering its SQL states. */
module Database {
  import opened Wrappers
  import opened Models
  import opened Seqs

  datatype Store = Store(
    servers: seq<Server>,
    members: seq<ServerMember>,
    channels: seq<Channel>,
    messages: seq<Message>,
    profiles: seq<Profile>,
    dmChannels: seq<DmChannel>,
    dmMembers: seq<DmMember>,
    dmMessages: seq<Message>,
    nextId: Uuid)

  /** Database failure injection: statement number `step` of a handler
      (counting from 0, in execution order) fails with the driver's `detail`. */
  datatype Fault = NoFault | FailAt(step: nat, detail: string)

  predicate Fails(f: Fault, step: nat) {
    f.FailAt? && f.step == step
  }

  /** `SELECT * FROM servers WHERE id = $1` with `fetch_optional`. */
  function FindServer(st: Store, id: Uuid): (r: Option<Server>)
    ensures r.Some? ==> r.value in st.servers && r.value.id == id
    ensures r.None? <==> forall s :: s in st.servers ==> s.id != id
  {
    FindFirst(st.servers, (s: Server) => s.id == id)
  }

  /** The profile row of user `u`, if there is one. */
  function FindProfile(profiles: seq<Profile>, u: Uuid): (r: Option<Profile>)
    ensures r.Some? ==> r.value in profiles && r.value.id == u
    ensures r.None? <==> forall p :: p in profiles ==> p.id != u
  {
    FindFirst(profiles, (p: Profile) => p.id == u)
  }

  /** `EXISTS(SELECT 1 FROM server_members WHERE server_id = $1 AND user_id = $2)`. */
  predicate IsMember(members: seq<ServerMember>, serverId: Uuid, user: Uuid) {
    exists m :: m in members && m.serverId == serverId && m.userId == user
  }

  /** Whether `user` has a row in `dm_members` for channel `dm`. */
  predicate IsDmMember(dmMembers: seq<DmMember>, dm: Uuid, user: Uuid) {
    DmMember(dm, user) in dmMembers
  }

  /** The presence query: the distinct users other than `u` who are members
      of a server `u` is a member of. `rows` is the part of `table` scanned
      so far. */
  function SharedPeers(rows: seq<ServerMember>, table: seq<ServerMember>, u: Uuid): (r: seq<Uuid>)
    ensures forall i, j :: 0 <= i < j < |r| ==> r[i] != r[j]
    ensures forall x :: x in r <==>
      x != u && exists i :: 0 <= i < |rows| && rows[i].userId == x && IsMember(table, rows[i].serverId, u)
    decreases |rows|
  {
    if |rows| == 0 then []
    else
      var rest := SharedPeers(rows[..|rows| - 1], table, u);
      var m := rows[|rows| - 1];
      assert forall i :: 0 <= i < |rows| - 1 ==> rows[..|rows| - 1][i] == rows[i];
      if m.userId != u && IsMember(table, m.serverId, u) && m.userId !in rest then rest + [m.userId]
      else rest
  }

  /** The users sharing a server with `u` (the presence fan-out set). */
  function PeersOf(members: seq<ServerMember>, u: Uuid): (r: seq<Uuid>)
    ensures u !in r
    ensures forall i, j :: 0 <= i < j < |r| ==> r[i] != r[j]
    ensures forall x :: x in r <==>
      x != u && exists s :: IsMember(members, s, u) && IsMember(members, s, x)
  {
    var r := SharedPeers(members, members, u);
    forall x | x != u && exists s :: IsMember(members, s, u) && IsMember(members, s, x)
      ensures x in r
    {
      var s :| IsMember(members, s, u) && IsMember(members, s, x);
      var m :| m in members && m.serverId == s && m.userId == x;
      var i :| 0 <= i < |members| && members[i] == m;
    }
    r
  }

  /** `SELECT user_id FROM dm_members WHERE dm_channel_id = $1 AND user_id != $2`. */
  function DmOthers(rows: seq<DmMember>, dm: Uuid, u: Uuid): (r: seq<Uuid>)
    ensures u !in r
    ensures forall x :: x in r <==> x != u && IsDmMember(rows, dm, x)
  {
    if |rows| == 0 then []
    else
      var rest := DmOthers(rows[1..], dm, u);
      assert forall x :: IsDmMember(rows, dm, x) <==> rows[0] == DmMember(dm, x) || IsDmMember(rows[1..], dm, x);
      if rows[0].dmChannelId == dm && rows[0].userId != u then [rows[0].userId] + rest else rest
  }
}
