/** `generate_voice_token`: the claims of a LiveKit access token for one
    voice channel, signed by a JWT encoder given as a parameter. */
module Voice {
  import opened Wrappers
  import opened Models
  import opened Seqs
  import opened Errors

  datatype VideoGrants = VideoGrants(roomJoin: bool, room: string, canPublish: bool, canSubscribe: bool)

  datatype LiveKitClaims = LiveKitClaims(exp: int, iss: string, nbf: int, sub: string, video: VideoGrants)

  /** The LiveKit part of the configuration. */
  datatype LiveKitConfig = LiveKitConfig(url: string, apiKey: string, apiSecret: string)

  datatype VoiceTokenResponse = VoiceTokenResponse(token: string, url: string)

  /** The collaborators: the UUID's hyphenated text form and the JWT encoder
      (claims and secret to a token, or the encoder's error text). */
  datatype Codec = Codec(uuidText: Uuid -> string, encode: (LiveKitClaims, string) -> Result<string, string>)

  const RoomPrefix: string := "channel:"
  /** Six hours, in seconds. */
  const TokenLifetime: int := 6 * 60 * 60
  const TwoTo64: int := 0x1_0000_0000_0000_0000
  const EncodeFailedPrefix: string := "Failed to generate token: "

  /** `now as usize` on a 64-bit target: the signed seconds reinterpreted as
      unsigned, then six hours added with wrap-around (the release build's
      arithmetic). */
  function Expiry(now: int): (exp: int)
    requires -0x8000_0000_0000_0000 <= now < 0x8000_0000_0000_0000
    ensures 0 <= exp < TwoTo64
    ensures 0 <= now < 0x8000_0000_0000_0000 - TokenLifetime ==> exp == now + TokenLifetime
    ensures now < 0 ==> exp == (now + TwoTo64 + TokenLifetime) % TwoTo64
  {
    var unsigned := if now < 0 then now + TwoTo64 else now;
    (unsigned + TokenLifetime) % TwoTo64
  }

  function RoomName(c: Codec, channel: Uuid): string {
    RoomPrefix + c.uuidText(channel)
  }

  /** The claims of a token letting `user` join and use the room of `channel`. */
  function VoiceClaims(cfg: LiveKitConfig, c: Codec, user: Uuid, channel: Uuid, now: int): (r: LiveKitClaims)
    requires -0x8000_0000_0000_0000 <= now < 0x8000_0000_0000_0000
    ensures StripPrefix(r.video.room, RoomPrefix) == Some(c.uuidText(channel))
    ensures r.sub == c.uuidText(user) && r.iss == cfg.apiKey
    ensures r.nbf == 0 && r.exp == Expiry(now)
    ensures r.video.roomJoin && r.video.canPublish && r.video.canSubscribe
  {
    StripPrefixRoundTrip(RoomPrefix, c.uuidText(channel));
    LiveKitClaims(Expiry(now), cfg.apiKey, 0, c.uuidText(user), VideoGrants(true, RoomName(c, channel), true, true))
  }

  /** `generate_voice_token`. */
  function GenerateVoiceToken(cfg: LiveKitConfig, c: Codec, user: Uuid, channel: Uuid, now: int): (r: Result<VoiceTokenResponse, AppError>)
    requires -0x8000_0000_0000_0000 <= now < 0x8000_0000_0000_0000
    ensures var enc := c.encode(VoiceClaims(cfg, c, user, channel, now), cfg.apiSecret);
      && (enc.Err? <==> r.Err?)
      && (enc.Err? ==> r.error == Internal(EncodeFailedPrefix + enc.error))
      && (enc.Ok? ==> r.value == VoiceTokenResponse(enc.value, cfg.url))
  {
    match c.encode(VoiceClaims(cfg, c, user, channel, now), cfg.apiSecret)
    case Err(e) => Err(Internal(EncodeFailedPrefix + e))
    case Ok(token) => Ok(VoiceTokenResponse(token, cfg.url))
  }

  /** When UUID text is injective, different channels get different rooms. */
  lemma RoomsSeparateChannels(c: Codec, a: Uuid, b: Uuid)
    requires forall x, y :: c.uuidText(x) == c.uuidText(y) ==> x == y
    requires a != b
    ensures RoomName(c, a) != RoomName(c, b)
  {
    StripPrefixRoundTrip(RoomPrefix, c.uuidText(a));
    StripPrefixRoundTrip(RoomPrefix, c.uuidText(b));
  }

  /** A token minted at any time before 2^63 - 6h seconds expires exactly
      six hours later and is valid from the epoch on. */
  lemma TokenWindow(cfg: LiveKitConfig, c: Codec, user: Uuid, channel: Uuid, now: int)
    requires 0 <= now < 0x8000_0000_0000_0000 - TokenLifetime
    ensures VoiceClaims(cfg, c, user, channel, now).exp - now == 21600
    ensures VoiceClaims(cfg, c, user, channel, now).nbf <= now
  {
  }
}
