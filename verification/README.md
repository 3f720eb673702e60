# Banter core, modelled in Dafny

Banter is a chat back end: servers with text and voice channels, direct
messages, presence and voice tokens. It exposes a REST API and a WebSocket
gateway. This project models the decision logic of that back end in Dafny
and proves properties of it.

- **Real-time routing registry** (`WsState`): topics map to fan-out points and users map to the delivery paths of their open connections.
- **Per-connection session**: the identify handshake, the active read loop dispatching the nine client events, and the teardown.
- **Event protocol**: the two closed event types and their `type` tags.
- **REST handlers**: servers, channels, message history, direct messages and the caller's profile.
- **Shared machinery**: bearer-token authentication, the error-to-HTTP mapping, the LiveKit voice-token claims and configuration loading.

Modules follow the source layout:

| file | module | models |
|---|---|---|
| `wrappers.dfy` | `Wrappers` | `Option` and `Result` |
| `seqs.dfy` | `Seqs` | sequence helpers: prefix stripping, counting, filtering, a stable sort, `LIMIT`/`OFFSET` windows |
| `models.dfy` | `Models` | the table rows and API records |
| `events.dfy` | `Events` | `ClientEvent`, `WsEvent` and their wire tags |
| `registry.dfy` | `Registry` | `WsState` and its operations |
| `session.dfy` | `Session` | `handle_connection`, `handle_client_event`, `broadcast_presence`, `get_profile_summary` |
| `store.dfy` | `Database` | the abstract store (one sequence of rows per table) and the shared lookup queries |
| `errors.dfy` | `Errors` | `AppError` and `into_response` |
| `auth.dfy` | `Auth` | `verify_token` and both `AuthUser` extractors |
| `servers.dfy` | `Servers` | the server handlers |
| `channels.dfy` | `Channels` | the channel handlers |
| `history.dfy` | `History` | newest-first pagination, shared by `get_messages` and `get_dm_messages` |
| `dms.dfy` | `Dms` | the DM handlers |
| `profiles.dfy` | `Profiles` | `get_me` and `update_me` |
| `voice.dfy` | `Voice` | `generate_voice_token` |
| `config.dfy` | `Config` | `AppConfig::from_env` |

Everything outside the process is a parameter:

- **Session oracles.** The JSON decoder, the JWT decoder and UUID parser, the message inserts, the presence update, the tables the read queries see, and whether the `Ready` write succeeds are function-valued fields of `Session.Env`. The storage oracles take the number of frames read so far, so their answers may change over the life of a connection.
- **Database faults.** A REST handler takes a `Database.Fault`, which says which of the handler's statements fails, if any. A failing statement becomes `AppError::Sqlx`, and a transaction that fails leaves the store unchanged.
- **Other inputs.** Time (`now`), column defaults, the UUID text form and the JWT encoder are also parameters.
- **Concurrency.** It is a sequential interleaving. Each frame a connection reads is one atomic step on the shared `Session.World`, which holds:
  - the registry;
  - one outbox per delivery path;
  - the set of paths whose receiving end has been dropped.

## Model

| member | source | states |
|---|---|---|
| Registry.Empty | src/ws/mod.rs:28-35 | a new registry has no topics and no users and satisfies the registry invariant |
| Registry.GetOrCreateChannel | src/ws/mod.rs:38-47 | the topic's fan-out point exists afterwards; a new one has capacity 256 and no receivers; an existing one is returned with the state unchanged; users and other topics are untouched |
| Registry.GetOrCreateIdempotent | src/ws/mod.rs:38-47 | a second call returns the same point and changes nothing |
| Registry.Subscribe | backend/src/ws/connection.rs:155-156 | exactly one receiver for the connection is appended to the topic's fan-out point (created with capacity 256 if absent); users and other topics are untouched |
| Registry.RegisterUser | src/ws/mod.rs:50-58 | the user's list gains exactly one fresh path at the end, and the entry is created if absent; other users and topics are unchanged; the invariant (entry present ⇒ non-empty, paths distinct and owned by one user) is preserved |
| Registry.UnregisterUser | src/ws/mod.rs:61-69 | exactly the matching path is removed; the entry disappears iff no other path was left; an absent user is a no-op; other users are untouched; the invariant is preserved |
| Registry.RetainKeepsValid | src/ws/mod.rs:61-69 | dropping any set of paths from one user preserves the registry invariant |
| Registry.CleanupClosedSenders | backend/src/ws/connection.rs:130 | the user keeps exactly the paths not closed; the entry disappears iff every path was closed; other users are untouched |
| Registry.RegisterUnregisterRoundTrip | src/ws/mod.rs:50-69 | register followed by unregister of the same fresh path restores the user table exactly |
| Registry.DeliverSpec | src/ws/mod.rs:74-76 | each path's outbox grows by one copy of the event per occurrence of the path among the targets |
| Registry.SendToUser | src/ws/mod.rs:72-78 | every path of the user receives the event once per registration; an absent user changes no outbox; the registry is not an output |
| Registry.SendToUserExactlyOnce | src/ws/mod.rs:72-78 | in a valid registry each of the user's paths receives exactly one copy, and every other path none |
| Registry.BroadcastToChannel | src/ws/mod.rs:81-85 | every receiver of the topic gets the event once per receiver entry; a topic with no entry delivers nothing and no entry is created |
| Registry.DoubleSubscribeDeliversTwice | backend/src/ws/connection.rs:152-166 | two subscribes by one connection make a later broadcast reach it twice |
| Events.ClientIndex | backend/src/ws/events.rs:14-24 | every client event sits at one of exactly nine declaration positions |
| Events.ServerIndex | backend/src/ws/events.rs:29-86 | every server event sits at one of exactly nine declaration positions |
| Events.SampleClient | backend/src/ws/events.rs:14-24 | each of the nine client positions is inhabited |
| Events.ClientTag | backend/src/ws/events.rs:12-13 | the `type` value of a client event is a snake_case name |
| Events.ServerTag | backend/src/ws/events.rs:27-28 | the `type` value of a server event is a snake_case name |
| Events.TagsDistinct | backend/src/ws/events.rs:14-86 | each enum has nine tags, pairwise distinct |
| Events.ClientTagInjective | backend/src/ws/events.rs:13-24 | equal client tags ⇔ equal variants |
| Events.ServerTagInjective | backend/src/ws/events.rs:28-86 | equal server tags ⇔ equal variants |
| Events.ParseClientTag | backend/src/ws/events.rs:13-24 | reading a tag gives the variant whose tag it is, and unknown tags are rejected |
| Events.ClientTagRoundTrip | backend/src/ws/events.rs:13-24 | reading back the tag written for a client event recovers its variant |
| Events.ServerFieldsWellFormed | backend/src/ws/events.rs:28-86 | the tag field comes first, no payload field is named `type`, and field names are distinct |
| Events.AsDmCreate | backend/src/ws/events.rs:36-51 | a channel message event maps to a DM event |
| Events.ChatEventsShareFields | backend/src/ws/events.rs:36-51 | `MessageCreate` and `DmCreate` carry the same payload and differ only in the channel field's name |
| Session.Start | backend/src/ws/connection.rs:22-26 | a new connection awaits identify, with nothing written and no subscriptions |
| Session.GetProfileSummary | backend/src/ws/connection.rs:304-319 | the author summary of the profile row, or the placeholder named "Unknown" with the user's id when the row is missing or the query fails |
| Session.SendToAll | backend/src/ws/connection.rs:268-270 | sending to a list of users hands each path one copy per registration among those users |
| Session.CountInValid | backend/src/ws/connection.rs:329-342 | over distinct users in a valid registry, a path is reached once if one of them holds it and never otherwise |
| Session.FanOutOnce | backend/src/ws/connection.rs:340-342 | the fan-out over distinct users adds exactly one copy to a path one of them holds, none otherwise |
| Session.BroadcastPresence | backend/src/ws/connection.rs:322-344 | every path of every user sharing a server receives exactly one `PresenceUpdate`; the user's own paths and non-peers receive nothing; a failed peer query sends nothing |
| Session.HandleClientEvent | backend/src/ws/connection.rs:139-301 | dispatching an event keeps the registry invariant and never changes the phase, the handshake output or the closed set |
| Session.Activate | backend/src/ws/connection.rs:57-66 | exactly one fresh path is registered for the user; if `Ready` is written the session becomes active and `Ready(user)` follows; if the write fails the session ends with the path still registered and marked closed, and nothing is announced |
| Session.Teardown | backend/src/ws/connection.rs:117-135 | the connection's path is closed and the user's closed paths are removed; "offline" is broadcast iff no path remains, which holds iff every path of the user was closed |
| Session.HandshakeStep | backend/src/ws/connection.rs:26-52 | a handshake step keeps the registry invariant, and a session that becomes active has written exactly `Ready` |
| Session.ActiveStep | backend/src/ws/connection.rs:95-115 | a step of the read loop writes nothing to the socket directly and keeps the registry invariant |
| Session.Step | backend/src/ws/connection.rs:26-115 | a closed session reads nothing; otherwise each frame advances the frame count by one |
| Session.EndOfStream | backend/src/ws/connection.rs:26-135 | the end of the stream closes the session, and before identify it changes nothing shared |
| Session.Run | backend/src/ws/connection.rs:22-136 | every run ends closed with a valid registry |
| Session.HandshakeCloseLeavesNoTrace | backend/src/ws/connection.rs:49-50 | skipped frames then Close or end of stream leave the shared state and the socket output untouched |
| Session.FirstFrameMustIdentify | backend/src/ws/connection.rs:40-46 | a first text frame that is not a decodable `Identify` writes exactly one "First message must be identify" error and closes without registering |
| Session.RejectedTokenCloses | backend/src/ws/connection.rs:31-37 | a rejected token writes exactly one error with the verifier's message and closes without registering |
| Session.IdentifyActivates | backend/src/ws/connection.rs:57-66 | a verified identify registers exactly one path before `Ready(user)`; "online" reaches each peer path once and none of the user's own paths |
| Session.ReadyFailureLeavesPathRegistered | backend/src/ws/connection.rs:57-63 | when `Ready` cannot be written, the path stays registered, the user still counts as connected, and nothing is sent |
| Session.ActiveIgnores | backend/src/ws/connection.rs:95-150 | undecodable text, a repeated `Identify`, and binary, ping and pong frames change nothing but the frame count |
| Session.ActiveCloseTearsDown | backend/src/ws/connection.rs:95-135 | Close or a read error ends the loop, closes and unregisters the connection's path |
| Session.SubscribeTwice | backend/src/ws/connection.rs:152-168 | a repeated subscribe leaves the id set unchanged but adds a second listener, so later broadcasts arrive twice |
| Session.UnsubscribeOnlyEditsSet | backend/src/ws/connection.rs:170-196 | unsubscribing only removes the id from the set; the shared state (listeners included) is untouched, and removing a non-member changes nothing |
| Session.MessageCreateOutcome | backend/src/ws/connection.rs:198-232 | a failed insert puts exactly one "Failed to send message" in the sender's own outbox; a successful one publishes exactly one `MessageCreate` to the channel's receivers and nothing else |
| Session.DmCreateOutcome | backend/src/ws/connection.rs:234-281 | a failed insert puts exactly one "Failed to send DM" in the sender's outbox; a successful one publishes to the DM topic and also to every path of every other member |
| Session.PresenceUpdateIgnoresStore | backend/src/ws/connection.rs:289-299 | the broadcast does not depend on the result of the presence `UPDATE` |
| Session.SecondConnectionKeepsUserOnline | backend/src/ws/connection.rs:130-135 | closing one of two open connections announces nothing |
| Session.LastConnectionAnnouncesOffline | backend/src/ws/connection.rs:130-135 | closing the last open connection removes the user's entry and sends exactly one "offline" to each peer path |
| Database.FindServer | backend/src/handlers/servers.rs:163-167 | the row found has the id; nothing is found iff no row has it |
| Database.FindProfile | src/auth/handlers.rs:17-23 | the row found has the id; nothing is found iff no row has it |
| Database.SharedPeers | backend/src/ws/connection.rs:329-335 | the scanned rows give distinct users other than the caller who share a server with them |
| Database.PeersOf | backend/src/ws/connection.rs:329-335 | exactly the distinct users other than the caller who share a server with them |
| Database.DmOthers | backend/src/ws/connection.rs:261-263 | exactly the members of the DM channel other than the sender |
| Errors.IntoResponse | src/error.rs:31-47 | 404, 401, 400 and 403 each iff its variant, and 500 iff `Internal` or `Sqlx`; the body is `{"error": message}` with the variant's own message, except "Internal database error" for database errors |
| Errors.ResponseIsErrorStatus | src/error.rs:31-44 | the mapping is total and every response is a 4xx or 5xx |
| Errors.SqlxDetailHidden | src/error.rs:37-43 | the database error's detail never reaches the response |
| Errors.ResponseDeterminesError | src/error.rs:32-36 | apart from database errors, equal responses come from equal errors |
| Auth.VerifyToken | backend/src/auth/supabase.rs:37-51 | decode failure gives "Invalid token: …", then a role other than `authenticated` is rejected, then a non-UUID subject; success iff all pass, returning the parsed subject |
| Auth.BearerToken | backend/src/auth/supabase.rs:59-67 | a missing or unreadable header is "Missing Authorization header"; a header without the exact `Bearer ` prefix is "Invalid Authorization format"; otherwise the token is the rest of the header |
| Auth.ExtractAuthUser | backend/src/auth/supabase.rs:57-73 | rejections are always `Unauthorized`; accepted iff the header carries a bearer token that verifies; a verification error is passed on with its message |
| Auth.ExtractAuthUserInline | src/auth/supabase.rs:38-66 | the inline extractor only rejects with `Unauthorized` |
| Auth.ExtractorsAgree | src/auth/supabase.rs:38-66 | for every header and every decoder, the inline extractor returns exactly what the delegating extractor composed with `verify_token` returns |
| Auth.BearerHeaderAccepted | backend/src/auth/supabase.rs:65-70 | `Bearer <t>` is accepted iff `t` verifies, with the verified id |
| Auth.SchemeIsCaseSensitive | backend/src/auth/supabase.rs:65-67 | a lower-case `bearer ` scheme is a format error |
| Servers.ListServers | backend/src/handlers/servers.rs:18-28 | a permutation of the server rows the caller is a member of (each kept exactly as often as it occurs, the rest dropped), ordered by creation time |
| Servers.CreateServer | backend/src/handlers/servers.rs:39-76 | on success, adds the server (owned by the caller, with the request's fields), the caller as `owner`, and channels `general` (text, 0) and `Lounge` (voice, 0), and nothing else; any failing statement leaves the store unchanged |
| Servers.CreateThenGet | backend/src/handlers/servers.rs:39-154 | after a create, the creator reads the new server back with `get_server` |
| Servers.CreatedServerListedOnce | backend/src/handlers/servers.rs:18-77 | after a create, the new server appears exactly once in its creator's `list_servers` |
| Servers.PublicListing | backend/src/handlers/servers.rs:96-123 | a permutation of the public server rows of the category, when one is given (each kept exactly as often as it occurs), newest first |
| Servers.DiscoverServers | backend/src/handlers/servers.rs:93-126 | exactly the window of the public listing that starts at `offset` (0 by default) and holds `min(limit or 20, 50)` rows, or fewer when the listing runs out (empty past its end); the rows are public, of the category when one is given, newest first; a negative limit or offset is a database error |
| Servers.DiscoverLimit | backend/src/handlers/servers.rs:93-93 | the page size is the given limit (20 when absent), capped at 50 |
| Servers.DiscoverWindow | backend/src/handlers/servers.rs:96-123 | `LIMIT`/`OFFSET` over the public listing: element `i` is listing row `offset + i`, with the length `min(rows left, limit)` |
| Servers.DiscoverFirstPage | backend/src/handlers/servers.rs:93-126 | with no query parameters, discovery returns the first 20 rows of the public listing, or all of them when there are fewer |
| Servers.GetServer | backend/src/handlers/servers.rs:135-153 | non-members get `Forbidden` even for a missing server; members get `NotFound` iff no server has the id, else that server |
| Servers.JoinServer | backend/src/handlers/servers.rs:163-187 | missing → `NotFound`, private → `Forbidden`, already a member ⇔ `BadRequest("Already a member")`, each with the store unchanged; otherwise exactly one `member` row is added |
| Servers.DeleteMembership | backend/src/handlers/servers.rs:207-211 | deletes exactly the caller's rows for the server, and nothing when there are none |
| Servers.LeaveServer | backend/src/handlers/servers.rs:197-213 | missing → `NotFound`; owner → `BadRequest` with members unchanged; otherwise the caller's rows are removed, everything else kept, and 204 is returned even for a non-member |
| Servers.DeleteAppendedMembership | backend/src/handlers/servers.rs:173-211 | deleting the only membership row of a pair, appended last, gives back the earlier table |
| Servers.JoinLeaveRoundTrip | backend/src/handlers/servers.rs:157-213 | join followed by leave restores the store |
| Servers.FindFirstAppendFresh | backend/src/handlers/servers.rs:147-151 | a server appended under a fresh id is the one the id lookup finds |
| Channels.ChannelKeyIsLexicographic | backend/src/handlers/channels.rs:35-35 | the sort key orders channels by kind first, then position |
| Channels.ListChannels | backend/src/handlers/channels.rs:22-41 | non-members get `Forbidden("Not a member")`; members get a permutation of that server's channel rows, text before voice, then by position |
| Channels.CreateChannel | backend/src/handlers/channels.rs:52-77 | non-members get `Forbidden("Not a member")` with nothing changed; members add exactly one channel of that server with the requested name and kind |
| Channels.CreatedChannelIsListed | backend/src/handlers/channels.rs:22-77 | a channel a member creates shows up in that member's listing |
| Channels.GetMessages | backend/src/handlers/channels.rs:100-160 | the newest `min(limit or 50, 100)` candidate messages of the channel from `messages`, joined with their authors and newest first: a short page holds every candidate, and no candidate left out is newer than one returned; the page holds `min(candidates, limit)` rows, and no row more often than it is a candidate; an unknown cursor gives an empty page; a negative limit is a database error |
| History.EffectiveLimit | backend/src/handlers/channels.rs:100-100 | the limit is 50 when absent, the given value up to 100, and 100 above that |
| History.Joined | backend/src/handlers/channels.rs:110-113 | exactly the eligible messages whose author has a profile row, with the author fields from that row |
| History.AnchorTime | backend/src/handlers/channels.rs:113-113 | the creation time of the message with the cursor's id; none iff no message has that id |
| History.Page | backend/src/handlers/channels.rs:100-142 | the newest `limit` candidates, newest first: every row is a candidate (of the channel, joined with its author, strictly older than a found cursor), a page shorter than the limit holds every candidate, and no candidate left out is newer than a row returned; the page holds `min(candidates, limit)` rows, and no row more often than it is a candidate; an unknown cursor gives an empty page; a negative limit is a database error |
| History.NewestFirst | backend/src/handlers/channels.rs:114-115 | the newest `limit` rows, newest first: exactly `min(n, limit)` of the `n` inputs, a sub-multiset of the input, nothing left out newer than anything kept, and a short page holds everything |
| History.PrefixFacts | backend/src/handlers/channels.rs:114-115 | a prefix of the newest-first order is ordered, drawn from the input, and dominates the rest |
| History.PageBelowAnchor | backend/src/handlers/channels.rs:102-113 | under a cursor whose message was created at `t`, every row of the page is older than `t` |
| History.LastRowAnchors | backend/src/handlers/channels.rs:110-113 | the oldest row of a page, used as the next cursor, anchors at its own creation time |
| History.NextPageIsOlder | backend/src/handlers/channels.rs:102-122 | using a page's oldest message as the next cursor yields only messages strictly older than the whole previous page |
| Dms.FindDm | src/handlers/dms.rs:88-99 | the channel found has both users as members; none is found iff no channel has both |
| Dms.CreateDm | src/handlers/dms.rs:88-123 | an existing channel with both users is returned with nothing changed; otherwise exactly one channel with member rows for the caller and the target is created; any failure leaves the store unchanged |
| Dms.FindFirstAppendMatch | src/handlers/dms.rs:88-99 | the lookup finds a channel appended after channels that do not match |
| Dms.CreateDmIdempotent | src/handlers/dms.rs:88-123 | asking again for the same pair returns the channel just created and changes nothing |
| Dms.LastMessage | src/handlers/dms.rs:30-39 | the channel's newest message, and none iff the channel has no message |
| Dms.OthersOf | src/handlers/dms.rs:42-43 | the summaries for the other members of the channel who have a profile, each occurring exactly as often as that member's rows in `dm_members`, and nothing else |
| Dms.Listing | src/handlers/dms.rs:40-43 | as a set, the summaries for exactly the caller's channels; each channel contributes its `OthersOf` rows |
| Dms.ListingFacts | src/handlers/dms.rs:40-43 | the listing is exactly the summaries listed for the caller, each naming a channel that both the caller and the other user are members of |
| Dms.RecentFirst | src/handlers/dms.rs:44-44 | a permutation (same multiset) ordered by last message time, newest first, with channels without messages last |
| Dms.ListDms | src/handlers/dms.rs:22-67 | a permutation of the unordered listing, with one summary per (channel of the caller, other member row with a profile); unread count 0; the other user is a member and not the caller; the last-message time is the newest message's, and absent iff there is none; ordered newest first with no-message channels last |
| Dms.GetDmMessages | src/handlers/dms.rs:144-186 | the newest `min(limit or 50, 100)` candidate messages of the DM channel from `dm_messages`, joined with their authors and newest first: a short page holds every candidate, and no candidate left out is newer than one returned; the page holds `min(candidates, limit)` rows, and no row more often than it is a candidate; strictly older than a found cursor; an unknown cursor gives an empty page; a negative limit is a database error |
| Profiles.GetMe | src/auth/handlers.rs:17-25 | the caller's profile row whenever one exists and the query succeeds, or `NotFound("Profile not found")` iff there is none |
| Profiles.CoalesceOpt | src/auth/handlers.rs:46-48 | a provided value replaces the column and an omitted one keeps it |
| Profiles.ApplyPatch | src/auth/handlers.rs:44-51 | each provided field replaces the stored one, and each omitted field, id, status and creation time stay the same; `updated_at` is the statement time |
| Profiles.PatchRows | src/auth/handlers.rs:44-50 | exactly the caller's rows are patched; the rest are untouched |
| Profiles.UpdateMe | src/auth/handlers.rs:42-61 | succeeds iff the statement runs and the caller has a row; returns the patched row and changes only the caller's rows; with no row it is a database error and nothing changes |
| Profiles.PatchIdempotent | src/auth/handlers.rs:46-48 | applying a patch twice equals applying it once, apart from `updated_at` |
| Profiles.PatchNeverClears | src/auth/handlers.rs:46-48 | an omitted field never clears a stored value |
| Profiles.EmptyPatchRefreshesOnly | src/auth/handlers.rs:49-49 | an empty patch still refreshes `updated_at` and changes nothing else |
| Profiles.FindAfterPatch | src/auth/handlers.rs:44-51 | after patching, the caller's row is found as the patched row |
| Profiles.UpdateThenGet | src/auth/handlers.rs:17-61 | `get_me` after `update_me` returns exactly what `update_me` returned |
| Voice.Expiry | backend/src/handlers/voice.rs:55-56 | expiry is a `usize`; for a present-day clock it is exactly now + 21600 |
| Voice.VoiceClaims | backend/src/handlers/voice.rs:52-69 | the room is `channel:` followed by the channel id's text, `sub` is the caller's id text, `iss` the API key, `nbf` 0, and join, publish and subscribe are all granted |
| Voice.GenerateVoiceToken | backend/src/handlers/voice.rs:71-80 | an encode failure becomes `Internal("Failed to generate token: …")`; otherwise the token comes with the configured LiveKit URL |
| Voice.RoomsSeparateChannels | backend/src/handlers/voice.rs:52-52 | different channels get different rooms |
| Voice.TokenWindow | backend/src/handlers/voice.rs:55-61 | a token is valid from the epoch and expires exactly six hours after it is minted |
| Config.Var | src/config.rs:34-36 | the value when set and valid Unicode, else the message "Missing environment variable: KEY" |
| Config.ParseU16 | src/config.rs:27-29 | accepted iff an optional `+` and at least one ASCII digit with value at most 65535, and the result is the value the digits spell, leading zeros included |
| Config.Decimal | src/config.rs:27-28 | the decimal text of a number is non-empty digits without leading zeros |
| Config.DecimalValue | src/config.rs:27-28 | the decimal text of a number spells that number |
| Config.ParsePortRoundTrip | src/config.rs:27-28 | every `u16` prints and parses back to itself, with or without `+` |
| Config.FromEnv | src/config.rs:17-31 | fails iff one of the nine variables is unreadable, and then with the first one in field order; otherwise each string field is its variable verbatim and the port is the parsed value or 8080 |
| Config.KeysDistinct | src/config.rs:19-27 | nine distinct variable names |
| Config.MissingPortAborts | src/config.rs:27-36 | an unset `BACKEND_PORT` aborts even though the port has a fallback |
| Config.BadPortFallsBack | src/config.rs:27-29 | a `BACKEND_PORT` that is not a `u16` gives 8080 |

## Left out

- **Runtime.** Tokio tasks, `abort`, channel internals and the capacity-256 lag or drop behaviour are not modelled. Each read frame is one atomic step of a sequential interleaving, and an outbox records what was handed to a path. A topic receiver of a closed connection stays in the topic and its outbox keeps filling. `World.closed` says which paths no longer reach a socket.
- **Helpers that are not part of this model.** `cleanup_closed_senders` and `user_is_connected` are called by the connection handler but not defined in the code modelled here. They are specified as "keep the user's paths that are not closed, dropping the entry when none is left" and "the entry exists and is non-empty".
- **Foreign libraries.** These are oracles or left abstract:
  - serde JSON encoding and decoding;
  - jsonwebtoken decoding, encoding and signature checks, including HS256, issuer and expiry validation;
  - `Uuid::parse_str` and the UUID text form;
  - chrono and `to_rfc3339`.

  Event timestamps are the integer creation time, not its RFC 3339 text.
- **SQL.** Queries are modelled by the filtering, joining and ordering they state, over one sequence per table. Constraints the code never names are not modelled, such as primary keys on `dm_members` and foreign keys. For `ORDER BY`, only the order of distinct keys is specified. Ties are left to the stable sort, where PostgreSQL leaves them unspecified.
- **Channel kind order.** The order of the PostgreSQL `channel_type` enum is not visible in the code. `Channels.KindRank` takes it from the declaration order of the Rust `ChannelType` enum: text, then voice.
- **Servers.ListServers.** The caller is taken to have at most one `server_members` row per server. If the caller had two rows for one server, the join would list that server twice, and the model lists it once.
- **Dms.Listing.** The caller is taken to have at most one `dm_members` row per channel. If the caller had two rows for one channel, the query's `my_m` join would repeat that channel's summaries, and the model would not.
- **Column defaults.** The defaults of `servers.is_public` and `channels.position` are not visible in the code. They are parameters: `Servers.ColumnDefaults` and `CreateChannel`'s `defaultPosition`.
- **`get_voice_state` and the voice-state table.** These are outside the modelled handlers.
- **Access checks the code does not make.** `get_messages` and `get_dm_messages` read any channel's history without a membership check. The model keeps that behaviour.
- **Session.ActiveStep.** Its contract states only the invariant and that nothing is written to the socket directly. What each frame does is stated by `ActiveIgnores`, `ActiveCloseTearsDown` and the per-event lemmas.
- **Session.HandleClientEvent.** Its contract states only what every event preserves. The per-event outcomes are the lemmas `SubscribeTwice`, `UnsubscribeOnlyEditsSet`, `MessageCreateOutcome`, `DmCreateOutcome` and `PresenceUpdateIgnoresStore`. `TypingStart` has no lemma of its own.
- **Session.DmCreateOutcome.** When the DM-members query fails, the contract says nothing. The model then skips the direct sends and still publishes on the topic.
- **Auth.ExtractAuthUserInline.** Its own contract only says that rejections are `Unauthorized`. Its full behaviour is stated by `ExtractorsAgree` as equality with the delegating extractor.
- **Voice.Expiry.** The `usize` addition is taken with wrap-around, as a release build computes it. A debug build would panic instead when the clock reads between 21600 seconds before the epoch and one second before it: the cast then yields a value within 21600 of 2^64, and the addition overflows.
- **Config.** A `BACKEND_PORT` with a value above 65535 or a sign other than `+` is simply "not a `u16`". The model does not distinguish Rust's individual parse error kinds, since the code discards them.
- **Config.FromEnv.** The panic of `env` on an unreadable variable is an `Err` carrying the panic message.
- **Frontend, bootstrap and plumbing.** The frontend, `main`, the router, the pool setup, logging and the record declarations beyond the fields used are not modelled.
