/** The real-time protocol: the closed set of client-to-server and
    server-to-client events. On the wire each event is one JSON object whose
    `type` field holds the snake_case name of the variant and whose other
    fields are the variant's payload (serde's internally tagged layout). */
module Events {
  import opened Wrappers
  import opened Models

  /** Events sent by a client. */
  datatype ClientEvent =
    | Identify(token: string)
    | SubscribeChannel(channelId: Uuid)
    | UnsubscribeChannel(channelId: Uuid)
    | SubscribeDm(dmChannelId: Uuid)
    | UnsubscribeDm(dmChannelId: Uuid)
    | MessageCreate(channelId: Uuid, content: string)
    | DmCreate(dmChannelId: Uuid, content: string)
    | TypingStart(channelId: Uuid)
    | PresenceUpdate(status: string)

  /** Events sent by the server (and carried by the topic fan-out points).
      `createdAt` stands for the RFC 3339 rendering of the row's timestamp. */
  datatype WsEvent =
    | Ready(userId: Uuid)
    | MessageCreate(id: Uuid, channelId: Uuid, author: ProfileSummary, content: string, createdAt: Timestamp)
    | DmCreate(id: Uuid, dmChannelId: Uuid, author: ProfileSummary, content: string, createdAt: Timestamp)
    | TypingStart(channelId: Uuid, user: ProfileSummary)
    | PresenceUpdate(userId: Uuid, status: string)
    | VoiceStateUpdate(channelId: Uuid, user: ProfileSummary, action: string)
    | MemberJoin(serverId: Uuid, user: ProfileSummary)
    | MemberLeave(serverId: Uuid, userId: Uuid)
    | Error(message: string)

  /** Name of the JSON field that carries the variant tag. */
  const TagField: string := "type"

  /** The wire tags of the client events, in declaration order. */
  const ClientTags: seq<string> := [
    "identify", "subscribe_channel", "unsubscribe_channel", "subscribe_dm",
    "unsubscribe_dm", "message_create", "dm_create", "typing_start", "presence_update"]

  /** The wire tags of the server events, in declaration order. */
  const ServerTags: seq<string> := [
    "ready", "message_create", "dm_create", "typing_start", "presence_update",
    "voice_state_update", "member_join", "member_leave", "error"]

  /** Lower-case letters and underscores only, as serde's snake_case renaming produces
      from an upper-camel-case variant name. */
  predicate IsSnakeCase(s: string) {
    && |s| > 0
    && s[0] != '_'
    && forall c :: c in s ==> 'a' <= c <= 'z' || c == '_'
  }

  /** Position of the variant in the declaration of `ClientEvent`. */
  function ClientIndex(e: ClientEvent): (i: nat)
    ensures i < |ClientTags|
  {
    match e
    case Identify(_) => 0
    case SubscribeChannel(_) => 1
    case UnsubscribeChannel(_) => 2
    case SubscribeDm(_) => 3
    case UnsubscribeDm(_) => 4
    case MessageCreate(_, _) => 5
    case DmCreate(_, _) => 6
    case TypingStart(_) => 7
    case PresenceUpdate(_) => 8
  }

  /** Position of the variant in the declaration of `WsEvent`. */
  function ServerIndex(e: WsEvent): (i: nat)
    ensures i < |ServerTags|
  {
    match e
    case Ready(_) => 0
    case MessageCreate(_, _, _, _, _) => 1
    case DmCreate(_, _, _, _, _) => 2
    case TypingStart(_, _) => 3
    case PresenceUpdate(_, _) => 4
    case VoiceStateUpdate(_, _, _) => 5
    case MemberJoin(_, _) => 6
    case MemberLeave(_, _) => 7
    case Error(_) => 8
  }

  /** The value of the `type` field for a client event. */
  function ClientTag(e: ClientEvent): (t: string)
    ensures IsSnakeCase(t)
  {
    match e
    case Identify(_) => "identify"
    case SubscribeChannel(_) => "subscribe_channel"
    case UnsubscribeChannel(_) => "unsubscribe_channel"
    case SubscribeDm(_) => "subscribe_dm"
    case UnsubscribeDm(_) => "unsubscribe_dm"
    case MessageCreate(_, _) => "message_create"
    case DmCreate(_, _) => "dm_create"
    case TypingStart(_) => "typing_start"
    case PresenceUpdate(_) => "presence_update"
  }

  /** The value of the `type` field for a server event. */
  function ServerTag(e: WsEvent): (t: string)
    ensures IsSnakeCase(t)
  {
    match e
    case Ready(_) => "ready"
    case MessageCreate(_, _, _, _, _) => "message_create"
    case DmCreate(_, _, _, _, _) => "dm_create"
    case TypingStart(_, _) => "typing_start"
    case PresenceUpdate(_, _) => "presence_update"
    case VoiceStateUpdate(_, _, _) => "voice_state_update"
    case MemberJoin(_, _) => "member_join"
    case MemberLeave(_, _) => "member_leave"
    case Error(_) => "error"
  }

  /** The JSON field names of a server event's object, tag field first. */
  function ServerFields(e: WsEvent): seq<string> {
    match e
    case Ready(_) => [TagField, "user_id"]
    case MessageCreate(_, _, _, _, _) => [TagField, "id", "channel_id", "author", "content", "created_at"]
    case DmCreate(_, _, _, _, _) => [TagField, "id", "dm_channel_id", "author", "content", "created_at"]
    case TypingStart(_, _) => [TagField, "channel_id", "user"]
    case PresenceUpdate(_, _) => [TagField, "user_id", "status"]
    case VoiceStateUpdate(_, _, _) => [TagField, "channel_id", "user", "action"]
    case MemberJoin(_, _) => [TagField, "server_id", "user"]
    case MemberLeave(_, _) => [TagField, "server_id", "user_id"]
    case Error(_) => [TagField, "message"]
  }

  /** The tag a client wrote, read back as a variant position (`None` for an unknown tag). */
  function ParseClientTag(t: string): (r: Option<nat>)
    ensures r.Some? ==> r.value < |ClientTags| && ClientTags[r.value] == t
    ensures r.None? ==> t !in ClientTags
  {
    if t == "identify" then Some(0)
    else if t == "subscribe_channel" then Some(1)
    else if t == "unsubscribe_channel" then Some(2)
    else if t == "subscribe_dm" then Some(3)
    else if t == "unsubscribe_dm" then Some(4)
    else if t == "message_create" then Some(5)
    else if t == "dm_create" then Some(6)
    else if t == "typing_start" then Some(7)
    else if t == "presence_update" then Some(8)
    else None
  }

  /** Each enum has exactly nine variants and nine pairwise distinct tags. */
  lemma TagsDistinct()
    ensures |ClientTags| == 9 && |ServerTags| == 9
    ensures forall i, j :: 0 <= i < j < 9 ==> ClientTags[i] != ClientTags[j]
    ensures forall i, j :: 0 <= i < j < 9 ==> ServerTags[i] != ServerTags[j]
  {
  }

  /** The tag of a client event is the tag listed at its declaration position,
      so tag equality is exactly variant equality. */
  lemma ClientTagInjective(a: ClientEvent, b: ClientEvent)
    ensures ClientTag(a) == ClientTags[ClientIndex(a)]
    ensures ClientTag(a) == ClientTag(b) <==> ClientIndex(a) == ClientIndex(b)
  {
    TagsDistinct();
  }

  /** The tag of a server event is the tag listed at its declaration position,
      so tag equality is exactly variant equality. */
  lemma ServerTagInjective(a: WsEvent, b: WsEvent)
    ensures ServerTag(a) == ServerTags[ServerIndex(a)]
    ensures ServerTag(a) == ServerTag(b) <==> ServerIndex(a) == ServerIndex(b)
  {
    TagsDistinct();
  }

  /** Writing a client event's tag and reading it back recovers the variant. */
  lemma ClientTagRoundTrip(e: ClientEvent)
    ensures ParseClientTag(ClientTag(e)) == Some(ClientIndex(e))
  {
    TagsDistinct();
  }

  /** A representative of each client variant: all nine positions are inhabited. */
  function SampleClient(i: nat): (e: ClientEvent)
    requires i < 9
    ensures ClientIndex(e) == i
  {
    if i == 0 then Identify("")
    else if i == 1 then ClientEvent.SubscribeChannel(0)
    else if i == 2 then ClientEvent.UnsubscribeChannel(0)
    else if i == 3 then ClientEvent.SubscribeDm(0)
    else if i == 4 then ClientEvent.UnsubscribeDm(0)
    else if i == 5 then ClientEvent.MessageCreate(0, "")
    else if i == 6 then ClientEvent.DmCreate(0, "")
    else if i == 7 then ClientEvent.TypingStart(0)
    else ClientEvent.PresenceUpdate("")
  }

  /** No payload field of any server event is named like the tag field, and the
      field names of one event are pairwise distinct. */
  lemma ServerFieldsWellFormed(e: WsEvent)
    ensures |ServerFields(e)| > 0 && ServerFields(e)[0] == TagField
    ensures forall i :: 1 <= i < |ServerFields(e)| ==> ServerFields(e)[i] != TagField
    ensures forall i, j :: 0 <= i < j < |ServerFields(e)| ==> ServerFields(e)[i] != ServerFields(e)[j]
  {
  }

  /** The direct-message event with the same payload as a channel message event. */
  function AsDmCreate(e: WsEvent): (d: WsEvent)
    requires e.MessageCreate?
    ensures d.DmCreate?
  {
    WsEvent.DmCreate(e.id, e.channelId, e.author, e.content, e.createdAt)
  }

  /** `MessageCreate` and `DmCreate` carry the same payload: the two layouts
      differ only in the name of the channel field, and converting between
      them loses nothing. */
  lemma ChatEventsShareFields(e: WsEvent)
    requires e.MessageCreate?
    ensures var d := AsDmCreate(e);
      && WsEvent.MessageCreate(d.id, d.dmChannelId, d.author, d.content, d.createdAt) == e
      && |ServerFields(d)| == |ServerFields(e)|
      && ServerFields(e)[2] == "channel_id" && ServerFields(d)[2] == "dm_channel_id"
      && (forall i :: 0 <= i < |ServerFields(e)| && i != 2 ==> ServerFields(d)[i] == ServerFields(e)[i])
  {
  }
}
