/** The channel handlers: listing and creating a server's channels (both
    for members only) and reading a channel's message history. */
module Channels {
  import opened Wrappers
  import opened Models
  import opened Seqs
  import opened Errors
  import opened Database
  import History

  datatype CreateChannelRequest = CreateChannelRequest(name: string, kind: ChannelType)

  const NotAMember: string := "Not a member"

  /** The rank of a `channel_type` value in the enum's declaration order. */
  function KindRank(k: ChannelType): int {
    match k
    case Text => 0
    case Voice => 1
  }

  /** One integer encoding `ORDER BY kind, position`. */
  function ChannelKey(c: Channel): int {
    KindRank(c.kind) * 0x1_0000_0000 + (c.position + 0x8000_0000)
  }

  /** The key orders channels by kind first and position second. */
  lemma ChannelKeyIsLexicographic(a: Channel, b: Channel)
    ensures ChannelKey(a) <= ChannelKey(b) <==>
      KindRank(a.kind) < KindRank(b.kind) || (a.kind == b.kind && a.position <= b.position)
  {
  }

  /** The `WHERE` of `list_channels`: the channel belongs to `serverId`. */
  function OfServer(serverId: Uuid): Channel -> bool {
    (c: Channel) => c.serverId == serverId
  }

  /** `list_channels`: a member gets the server's channels ordered by kind
      (text first) and then position; anyone else is refused. */
  function ListChannels(st: Store, f: Fault, user: Uuid, serverId: Uuid): (r: Result<seq<Channel>, AppError>)
    ensures Fails(f, 0) ==> r == Err(Sqlx(f.detail))
    ensures !Fails(f, 0) && !IsMember(st.members, serverId, user) ==> r == Err(Forbidden(NotAMember))
    ensures f.NoFault? ==> (r.Ok? <==> IsMember(st.members, serverId, user))
    ensures r.Ok? ==> forall c :: c in r.value <==> c in st.channels && c.serverId == serverId
    ensures r.Ok? ==> forall i, j :: 0 <= i < j < |r.value| ==>
      KindRank(r.value[i].kind) < KindRank(r.value[j].kind)
      || (r.value[i].kind == r.value[j].kind && r.value[i].position <= r.value[j].position)
    ensures r.Ok? ==> multiset(r.value) == multiset(Filter(st.channels, OfServer(serverId)))
  {
    if Fails(f, 0) then Err(Sqlx(f.detail))
    else if !IsMember(st.members, serverId, user) then Err(Forbidden(NotAMember))
    else if Fails(f, 1) then Err(Sqlx(f.detail))
    else
      var own := Filter(st.channels, OfServer(serverId));
      var sorted := SortBy(own, ChannelKey);
      assert forall c :: c in sorted <==> c in own by {
        assert forall c :: c in sorted <==> c in multiset(sorted);
      }
      forall i, j | 0 <= i < j < |sorted|
        ensures KindRank(sorted[i].kind) < KindRank(sorted[j].kind)
          || (sorted[i].kind == sorted[j].kind && sorted[i].position <= sorted[j].position)
      {
        ChannelKeyIsLexicographic(sorted[i], sorted[j]);
      }
      Ok(sorted)
  }

  /** `create_channel`: a member inserts one channel of the server with the
      requested name and kind (the position is the column default); anyone
      else is refused and nothing changes. */
  function CreateChannel(st: Store, f: Fault, user: Uuid, serverId: Uuid, body: CreateChannelRequest, defaultPosition: Int32, now: Timestamp): (r: (Store, Result<Channel, AppError>))
    ensures r.1.Err? ==> r.0 == st
    ensures Fails(f, 0) ==> r.1 == Err(Sqlx(f.detail))
    ensures !Fails(f, 0) && !IsMember(st.members, serverId, user) ==> r.1 == Err(Forbidden(NotAMember))
    ensures f.NoFault? ==> (r.1.Ok? <==> IsMember(st.members, serverId, user))
    ensures r.1.Ok? ==>
      && r.1.value.serverId == serverId && r.1.value.name == body.name && r.1.value.kind == body.kind
      && r.1.value.id == st.nextId
      && r.0 == st.(channels := st.channels + [r.1.value], nextId := st.nextId + 1)
  {
    if Fails(f, 0) then (st, Err(Sqlx(f.detail)))
    else if !IsMember(st.members, serverId, user) then (st, Err(Forbidden(NotAMember)))
    else if Fails(f, 1) then (st, Err(Sqlx(f.detail)))
    else
      var c := Channel(st.nextId, serverId, body.name, body.kind, defaultPosition, now);
      (st.(channels := st.channels + [c], nextId := st.nextId + 1), Ok(c))
  }

  /** A channel created by a member shows up in that member's listing. */
  lemma CreatedChannelIsListed(st: Store, user: Uuid, serverId: Uuid, body: CreateChannelRequest, defaultPosition: Int32, now: Timestamp)
    requires IsMember(st.members, serverId, user)
    ensures var (st1, r) := CreateChannel(st, NoFault, user, serverId, body, defaultPosition, now);
      r.Ok? && ListChannels(st1, NoFault, user, serverId).Ok? && r.value in ListChannels(st1, NoFault, user, serverId).value
  {
  }

  /** `get_messages`: one page of the channel's history from `messages`,
      the cursor looked up in the same table. The caller is not checked. */
  function GetMessages(st: Store, f: Fault, channel: Uuid, q: History.MessageQuery): (r: Result<seq<MessageWithAuthor>, AppError>)
    ensures r.Ok? <==> !Fails(f, 0) && History.EffectiveLimit(q) >= 0
    ensures Fails(f, 0) ==> r == Err(Sqlx(f.detail))
    ensures r.Ok? ==> |r.value| <= History.EffectiveLimit(q) <= History.MaxLimit
    ensures r.Ok? ==> forall x :: x in r.value ==> History.FromTable(x, st.messages, st.profiles, channel)
    ensures r.Ok? && q.before.Some? && History.AnchorTime(st.messages, q.before.value).None? ==> r.value == []
    ensures r.Ok? && q.before.Some? && History.AnchorTime(st.messages, q.before.value).Some? ==>
      forall x :: x in r.value ==> x.createdAt < History.AnchorTime(st.messages, q.before.value).value
    ensures r.Ok? ==> forall i, j :: 0 <= i < j < |r.value| ==> r.value[i].createdAt >= r.value[j].createdAt
    ensures r.Ok? ==> forall x :: x in r.value ==> x in History.Candidates(st.messages, st.profiles, channel, q)
    ensures r.Ok? && |r.value| < History.EffectiveLimit(q) ==>
      forall x :: x in History.Candidates(st.messages, st.profiles, channel, q) ==> x in r.value
    ensures r.Ok? ==> forall x, y ::
      x in r.value && y in History.Candidates(st.messages, st.profiles, channel, q) && y !in r.value ==> y.createdAt <= x.createdAt
    ensures r.Ok? ==> |r.value| == Min(|History.Candidates(st.messages, st.profiles, channel, q)|, History.EffectiveLimit(q))
    ensures r.Ok? ==> multiset(r.value) <= multiset(History.Candidates(st.messages, st.profiles, channel, q))
  {
    History.Page(st.messages, st.profiles, f, channel, q)
  }
}
