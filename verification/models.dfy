/** The records the handlers and the real-time core exchange, reduced to the
    fields the model needs. Identifiers are plain integers standing for
    UUIDs; timestamps are integers (seconds on one clock). */
module Models {
  import opened Wrappers

  type Uuid = int
  type Timestamp = int

  /** A value of PostgreSQL's `integer` (Rust `i32`), used for channel positions. */
  type Int32 = x: int | -0x8000_0000 <= x < 0x8000_0000

  /** Author information embedded in events and message listings. */
  datatype ProfileSummary = ProfileSummary(
    id: Uuid,
    username: Option<string>,
    displayName: string,
    avatarUrl: Option<string>)

  datatype UserStatus = Online | Idle | Dnd | Offline

  /** A row of `profiles`. */
  datatype Profile = Profile(
    id: Uuid,
    username: Option<string>,
    displayName: string,
    avatarUrl: Option<string>,
    status: UserStatus,
    createdAt: Timestamp,
    updatedAt: Timestamp)

  function Summary(p: Profile): ProfileSummary {
    ProfileSummary(p.id, p.username, p.displayName, p.avatarUrl)
  }

  datatype MemberRole = Owner | Admin | Member

  /** A row of `servers`. */
  datatype Server = Server(
    id: Uuid,
    name: string,
    icon: Option<string>,
    bannerUrl: Option<string>,
    color: Option<string>,
    description: Option<string>,
    category: Option<string>,
    ownerId: Uuid,
    isPublic: bool,
    createdAt: Timestamp)

  /** A row of `server_members`. */
  datatype ServerMember = ServerMember(serverId: Uuid, userId: Uuid, role: MemberRole, joinedAt: Timestamp)

  /** The `channel_type` enum, in declaration order (text before voice). */
  datatype ChannelType = Text | Voice

  /** A row of `channels`. */
  datatype Channel = Channel(
    id: Uuid,
    serverId: Uuid,
    name: string,
    kind: ChannelType,
    position: Int32,
    createdAt: Timestamp)

  /** A row of `messages` (then `channelId` is a text channel) or of
      `dm_messages` (then `channelId` is the `dm_channel_id`); both tables have
      the same shape. */
  datatype Message = Message(
    id: Uuid,
    channelId: Uuid,
    authorId: Uuid,
    content: string,
    createdAt: Timestamp)

  /** A message joined with its author's profile, as the listing endpoints return it. */
  datatype MessageWithAuthor = MessageWithAuthor(
    id: Uuid,
    channelId: Uuid,
    author: ProfileSummary,
    content: string,
    createdAt: Timestamp)

  /** A row of `dm_channels`. */
  datatype DmChannel = DmChannel(id: Uuid, createdAt: Timestamp)

  /** A row of `dm_members`. */
  datatype DmMember = DmMember(dmChannelId: Uuid, userId: Uuid)

  /** One entry of the direct-message sidebar. */
  datatype DmChannelSummary = DmChannelSummary(
    id: Uuid,
    otherUser: ProfileSummary,
    lastMessage: Option<string>,
    lastMessageAt: Option<Timestamp>,
    unreadCount: int)
}
