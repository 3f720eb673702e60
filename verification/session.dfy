/** One WebSocket connection (`handle_connection`): the identify handshake,
    the active read loop that dispatches client events
    (`handle_client_event`), and the teardown when the loop ends.

    Concurrency is modelled as a sequential interleaving: each frame read is
    one atomic step that updates the shared `World` (registry, outboxes and
    the set of connections whose receiving end has been dropped). Parsing,
    token decoding and the database are oracles in `Env`. */
module Session {
  import opened Wrappers
  import opened Models
  import opened Seqs
  import opened Events
  import opened Registry
  import opened Database
  import Auth

  /** An item of the socket's read stream. `ReadError` is an `Err` item. */
  datatype Frame = Text(text: string) | Binary | Ping | Pong | Close | ReadError

  /** The row `INSERT ... RETURNING id, created_at` produced. */
  datatype Inserted = Inserted(id: Uuid, createdAt: Timestamp)

  /** The collaborators of a connection. The `nat` argument of the storage
      oracles is the number of frames read so far, so answers may change
      over time.
      - `parse`: JSON text to a client event (`None` when it does not decode);
      - `verifier`: the token primitives used by `verify_token`;
      - `insertMessage`, `insertDm`: insert a row for (channel, author,
        content), `None` when the insert fails;
      - `updateStatus`: the presence `UPDATE`, whose outcome is discarded;
      - `db`: the tables the read queries see, `None` when the query fails;
      - `readyWritten`: whether the socket accepted the `Ready` frame. */
  datatype Env = Env(
    parse: string -> Option<ClientEvent>,
    verifier: Auth.Verifier,
    insertMessage: (Uuid, Uuid, string, nat) -> Option<Inserted>,
    insertDm: (Uuid, Uuid, string, nat) -> Option<Inserted>,
    updateStatus: (Uuid, string, nat) -> bool,
    db: nat -> Option<Store>,
    readyWritten: bool)

  datatype Phase = AwaitingIdentify | Active(user: Uuid, conn: ConnId) | Closed

  /** State owned by one connection: its phase, the channel and DM ids it has
      subscribed to, the frames it wrote to the socket itself (handshake
      errors and `Ready`), and the number of frames read. */
  datatype Conn = Conn(phase: Phase, channels: set<Uuid>, dms: set<Uuid>, written: seq<WsEvent>, tick: nat)

  /** State shared by all connections. `closed` holds the paths whose
      receiving end has been dropped. */
  datatype World = World(ws: WsState, out: Outboxes, closed: set<ConnId>)

  const IdentifyFirst: string := "First message must be identify"
  const SendMessageFailed: string := "Failed to send message"
  const SendDmFailed: string := "Failed to send DM"
  const UnknownName: string := "Unknown"

  /** A freshly upgraded connection. */
  function Start(): (c: Conn)
    ensures c.phase.AwaitingIdentify? && c.written == [] && c.channels == {} && c.dms == {}
  {
    Conn(AwaitingIdentify, {}, {}, [], 0)
  }

  /** `get_profile_summary`: the author's profile, or a placeholder named
      "Unknown" when the row is missing or the query fails. */
  function GetProfileSummary(env: Env, u: Uuid, tick: nat): (p: ProfileSummary)
    ensures p.id == u
    ensures env.db(tick).Some? && FindProfile(env.db(tick).value.profiles, u).Some? ==>
      p == Summary(FindProfile(env.db(tick).value.profiles, u).value)
    ensures env.db(tick).None? || FindProfile(env.db(tick).value.profiles, u).None? ==>
      p == ProfileSummary(u, None, UnknownName, None)
  {
    match env.db(tick)
    case Some(st) =>
      (match FindProfile(st.profiles, u)
       case Some(p) => Summary(p)
       case None => ProfileSummary(u, None, UnknownName, None))
    case None => ProfileSummary(u, None, UnknownName, None)
  }

  /** How many registrations of path `c` the users in `users` hold together. */
  function CountIn(ws: WsState, users: seq<Uuid>, c: ConnId): nat {
    if |users| == 0 then 0 else Count(Senders(ws, users[0]), c) + CountIn(ws, users[1..], c)
  }

  lemma AppendRepeats<T>(a: seq<T>, x: T, k0: nat, k1: nat)
    ensures (a + Repeat(x, k0)) + Repeat(x, k1) == a + Repeat(x, k0 + k1)
  {
    RepeatAdd(x, k0, k1);
  }

  /** `send_to_user` for each user of `users` in turn. */
  function SendToAll(ws: WsState, users: seq<Uuid>, e: WsEvent, out: Outboxes): (r: Outboxes)
    ensures forall c :: Inbox(r, c) == Inbox(out, c) + Repeat(e, CountIn(ws, users, c))
    decreases |users|
  {
    if |users| == 0 then out
    else
      var out1 := SendToUser(ws, users[0], e, out);
      var r := SendToAll(ws, users[1..], e, out1);
      forall c ensures Inbox(r, c) == Inbox(out, c) + Repeat(e, CountIn(ws, users, c)) {
        var k0 := Count(Senders(ws, users[0]), c);
        var k1 := CountIn(ws, users[1..], c);
        AppendRepeats(Inbox(out, c), e, k0, k1);
      }
      r
  }

  /** In a valid registry a path is registered to at most one of a list of
      distinct users, so fanning out over that list reaches it at most once. */
  lemma {:induction false} CountInValid(ws: WsState, users: seq<Uuid>, c: ConnId)
    requires Valid(ws)
    requires forall i, j :: 0 <= i < j < |users| ==> users[i] != users[j]
    ensures (exists v :: v in users && c in Senders(ws, v)) ==> CountIn(ws, users, c) == 1
    ensures (forall v :: v in users ==> c !in Senders(ws, v)) ==> CountIn(ws, users, c) == 0
    decreases |users|
  {
    if |users| > 0 {
      CountInValid(ws, users[1..], c);
      var v0 := users[0];
      if c in Senders(ws, v0) {
        var i :| 0 <= i < |Senders(ws, v0)| && Senders(ws, v0)[i] == c;
        CountDistinctOnce(Senders(ws, v0), i);
        forall v | v in users[1..] ensures c !in Senders(ws, v) {
          assert v != v0;
        }
      } else {
        assert Count(Senders(ws, v0), c) == 0;
      }
    }
  }

  /** Fanning out over distinct users reaches a path once if one of them
      holds it and not at all otherwise. */
  lemma FanOutOnce(ws: WsState, users: seq<Uuid>, e: WsEvent, out: Outboxes, c: ConnId)
    requires Valid(ws)
    requires forall i, j :: 0 <= i < j < |users| ==> users[i] != users[j]
    ensures (exists v :: v in users && c in Senders(ws, v)) ==> Inbox(SendToAll(ws, users, e, out), c) == Inbox(out, c) + [e]
    ensures (forall v :: v in users ==> c !in Senders(ws, v)) ==> Inbox(SendToAll(ws, users, e, out), c) == Inbox(out, c)
  {
    CountInValid(ws, users, c);
    assert Repeat(e, 1) == [e];
  }

  /** `broadcast_presence`: a `PresenceUpdate` for `u` goes to every path of
      every user sharing a server with `u`, once each; `u`'s own paths and
      everyone else get nothing. A failed peer query sends nothing. */
  function BroadcastPresence(env: Env, ws: WsState, u: Uuid, status: string, out: Outboxes, tick: nat): (r: Outboxes)
    requires Valid(ws)
    ensures env.db(tick).None? ==> r == out
    ensures forall c :: c in Senders(ws, u) ==> Inbox(r, c) == Inbox(out, c)
    ensures env.db(tick).Some? ==> forall v, c ::
      v in PeersOf(env.db(tick).value.members, u) && c in Senders(ws, v) ==>
        Inbox(r, c) == Inbox(out, c) + [WsEvent.PresenceUpdate(u, status)]
    ensures forall c :: (env.db(tick).None? || forall v :: v in PeersOf(env.db(tick).value.members, u) ==> c !in Senders(ws, v)) ==>
      Inbox(r, c) == Inbox(out, c)
  {
    var e := WsEvent.PresenceUpdate(u, status);
    match env.db(tick)
    case None => out
    case Some(st) =>
      var peers := PeersOf(st.members, u);
      var r := SendToAll(ws, peers, e, out);
      forall v, c | v in peers && c in Senders(ws, v) ensures Inbox(r, c) == Inbox(out, c) + [e] {
        FanOutOnce(ws, peers, e, out, c);
      }
      forall c | forall v :: v in peers ==> c !in Senders(ws, v) ensures Inbox(r, c) == Inbox(out, c) {
        FanOutOnce(ws, peers, e, out, c);
      }
      forall c | c in Senders(ws, u) ensures Inbox(r, c) == Inbox(out, c) {
        forall v | v in peers ensures c !in Senders(ws, v) {
          assert v != u;
        }
        FanOutOnce(ws, peers, e, out, c);
      }
      SendToAll(ws, peers, e, out)
  }

  /** Appends `e` to connection `c`'s own outbound queue. */
  function Reply(w: World, c: ConnId, e: WsEvent): World {
    w.(out := w.out[c := Inbox(w.out, c) + [e]])
  }

  /** `handle_client_event` for an identified user `u` on path `c`. */
  function HandleClientEvent(env: Env, u: Uuid, c: ConnId, ev: ClientEvent, conn: Conn, w: World): (r: (Conn, World))
    requires Valid(w.ws)
    ensures Valid(r.1.ws)
    ensures r.0.phase == conn.phase && r.0.written == conn.written && r.0.tick == conn.tick
    ensures r.1.closed == w.closed
  {
    var tick := conn.tick;
    match ev
    case Identify(_) => (conn, w)
    case SubscribeChannel(ch) =>
      (conn.(channels := conn.channels + {ch}), w.(ws := Subscribe(w.ws, ch, c)))
    case UnsubscribeChannel(ch) =>
      (conn.(channels := conn.channels - {ch}), w)
    case SubscribeDm(dm) =>
      (conn.(dms := conn.dms + {dm}), w.(ws := Subscribe(w.ws, dm, c)))
    case UnsubscribeDm(dm) =>
      (conn.(dms := conn.dms - {dm}), w)
    case MessageCreate(ch, content) =>
      (match env.insertMessage(ch, u, content, tick)
       case None => (conn, Reply(w, c, WsEvent.Error(SendMessageFailed)))
       case Some(row) =>
         var e := WsEvent.MessageCreate(row.id, ch, GetProfileSummary(env, u, tick), content, row.createdAt);
         (conn, w.(out := BroadcastToChannel(w.ws, ch, e, w.out))))
    case DmCreate(dm, content) =>
      (match env.insertDm(dm, u, content, tick)
       case None => (conn, Reply(w, c, WsEvent.Error(SendDmFailed)))
       case Some(row) =>
         var e := WsEvent.DmCreate(row.id, dm, GetProfileSummary(env, u, tick), content, row.createdAt);
         var out1 := BroadcastToChannel(w.ws, dm, e, w.out);
         var out2 := match env.db(tick)
           case Some(st) => SendToAll(w.ws, DmOthers(st.dmMembers, dm, u), e, out1)
           case None => out1;
         (conn, w.(out := out2)))
    case TypingStart(ch) =>
      var e := WsEvent.TypingStart(ch, GetProfileSummary(env, u, tick));
      (conn, w.(out := BroadcastToChannel(w.ws, ch, e, w.out)))
    case PresenceUpdate(status) =>
      var _ := env.updateStatus(u, status, tick);
      (conn, w.(out := BroadcastPresence(env, w.ws, u, status, w.out, tick)))
  }

  /** Successful identify: register a path, send `Ready`, announce "online".
      When the `Ready` write fails the handler returns at once: the path stays
      registered though its receiving end is dropped, and nothing is announced. */
  function Activate(env: Env, conn: Conn, w: World, uid: Uuid): (r: (Conn, World))
    requires Valid(w.ws)
    ensures Valid(r.1.ws)
    ensures Senders(r.1.ws, uid) == Senders(w.ws, uid) + [w.ws.nextConn]
    ensures forall v :: v != uid ==> Senders(r.1.ws, v) == Senders(w.ws, v)
    ensures r.1.ws.topics == w.ws.topics
    ensures env.readyWritten ==>
      && r.0.phase == Active(uid, w.ws.nextConn)
      && r.0.written == conn.written + [Ready(uid)]
      && r.1.closed == w.closed
    ensures !env.readyWritten ==>
      && r.0.phase.Closed?
      && r.0.written == conn.written
      && r.1.out == w.out
      && r.1.closed == w.closed + {w.ws.nextConn}
  {
    var (ws1, c) := RegisterUser(w.ws, uid);
    if !env.readyWritten then
      (conn.(phase := Closed), w.(ws := ws1, closed := w.closed + {c}))
    else
      var out1 := BroadcastPresence(env, ws1, uid, "online", w.out, conn.tick);
      (conn.(phase := Active(uid, c), written := conn.written + [Ready(uid)]), w.(ws := ws1, out := out1))
  }

  /** Teardown after the read loop: the path's receiving end is dropped, the
      user's closed paths are removed, and "offline" is announced only if the
      user has no path left. */
  function Teardown(env: Env, u: Uuid, c: ConnId, conn: Conn, w: World): (r: (Conn, World))
    requires Valid(w.ws)
    ensures Valid(r.1.ws)
    ensures r.0.phase.Closed? && r.0.written == conn.written
    ensures r.1.closed == w.closed + {c}
    ensures c !in Senders(r.1.ws, u)
    ensures forall x :: x in Senders(r.1.ws, u) <==> x in Senders(w.ws, u) && x !in w.closed + {c}
    ensures !UserIsConnected(r.1.ws, u) <==> forall x :: x in Senders(w.ws, u) ==> x == c || x in w.closed
    ensures forall v :: v != u ==> Senders(r.1.ws, v) == Senders(w.ws, v)
    ensures UserIsConnected(r.1.ws, u) ==> r.1.out == w.out
    ensures !UserIsConnected(r.1.ws, u) ==>
      r.1.out == BroadcastPresence(env, r.1.ws, u, "offline", w.out, conn.tick)
  {
    var closed := w.closed + {c};
    var ws1 := CleanupClosedSenders(w.ws, u, closed);
    var out1 := if !UserIsConnected(ws1, u) then BroadcastPresence(env, ws1, u, "offline", w.out, conn.tick) else w.out;
    (conn.(phase := Closed), World(ws1, out1, closed))
  }

  /** One frame of the handshake loop. */
  function HandshakeStep(env: Env, conn: Conn, w: World, f: Frame): (r: (Conn, World))
    requires conn.phase.AwaitingIdentify?
    requires Valid(w.ws)
    ensures Valid(r.1.ws)
    ensures r.0.phase.Active? ==> r.0.written == conn.written + [Ready(r.0.phase.user)]
  {
    match f
    case Text(t) =>
      (match env.parse(t)
       case Some(ev) =>
         if ev.Identify? then
           match Auth.VerifyToken(env.verifier, ev.token)
           case Ok(uid) => Activate(env, conn, w, uid)
           case Err(m) => (conn.(phase := Closed, written := conn.written + [WsEvent.Error(m)]), w)
         else (conn.(phase := Closed, written := conn.written + [WsEvent.Error(IdentifyFirst)]), w)
       case None => (conn.(phase := Closed, written := conn.written + [WsEvent.Error(IdentifyFirst)]), w))
    case Close => (conn.(phase := Closed), w)
    case Binary => (conn, w)
    case Ping => (conn, w)
    case Pong => (conn, w)
    case ReadError => (conn, w)
  }

  /** One frame of the active read loop of user `u` on path `c`. */
  function ActiveStep(env: Env, u: Uuid, c: ConnId, conn: Conn, w: World, f: Frame): (r: (Conn, World))
    requires conn.phase == Active(u, c)
    requires Valid(w.ws)
    ensures Valid(r.1.ws)
    ensures r.0.written == conn.written
  {
    match f
    case Text(t) =>
      (match env.parse(t)
       case Some(ev) => HandleClientEvent(env, u, c, ev, conn, w)
       case None => (conn, w))
    case Close => Teardown(env, u, c, conn, w)
    case ReadError => Teardown(env, u, c, conn, w)
    case Binary => (conn, w)
    case Ping => (conn, w)
    case Pong => (conn, w)
  }

  /** Reads one frame. A closed connection reads nothing more. */
  function Step(env: Env, conn: Conn, w: World, f: Frame): (r: (Conn, World))
    requires Valid(w.ws)
    ensures Valid(r.1.ws)
    ensures conn.phase.Closed? ==> r == (conn, w)
    ensures !conn.phase.Closed? ==> r.0.tick == conn.tick + 1
  {
    match conn.phase
    case Closed => (conn, w)
    case AwaitingIdentify =>
      var (c1, w1) := HandshakeStep(env, conn, w, f);
      (c1.(tick := conn.tick + 1), w1)
    case Active(u, c) =>
      var (c1, w1) := ActiveStep(env, u, c, conn, w, f);
      (c1.(tick := conn.tick + 1), w1)
  }

  /** The stream has ended (`None`). */
  function EndOfStream(env: Env, conn: Conn, w: World): (r: (Conn, World))
    requires Valid(w.ws)
    ensures Valid(r.1.ws)
    ensures r.0.phase.Closed?
    ensures !conn.phase.Active? ==> r.1 == w && r.0.written == conn.written
  {
    match conn.phase
    case Closed => (conn, w)
    case AwaitingIdentify => (conn.(phase := Closed), w)
    case Active(u, c) => Teardown(env, u, c, conn, w)
  }

  /** The whole connection: every frame of `frames` in order, then the end of
      the stream. */
  function Run(env: Env, frames: seq<Frame>, conn: Conn, w: World): (r: (Conn, World))
    requires Valid(w.ws)
    ensures Valid(r.1.ws)
    ensures r.0.phase.Closed?
    decreases |frames|
  {
    if |frames| == 0 then EndOfStream(env, conn, w)
    else if conn.phase.Closed? then (conn, w)
    else
      var (c1, w1) := Step(env, conn, w, frames[0]);
      Run(env, frames[1..], c1, w1)
  }

  // ---------------------------------------------------------------------
  // Handshake

  predicate Skipped(f: Frame) {
    f.Binary? || f.Ping? || f.Pong? || f.ReadError?
  }

  /** Before identify, frames that are neither text nor close are skipped; a
      Close frame (or the end of the stream) then ends the session with no
      registration, no output and no change to the shared state. */
  lemma {:induction false} HandshakeCloseLeavesNoTrace(env: Env, skipped: seq<Frame>, rest: seq<Frame>, conn: Conn, w: World)
    requires conn.phase.AwaitingIdentify?
    requires Valid(w.ws)
    requires forall i :: 0 <= i < |skipped| ==> Skipped(skipped[i])
    ensures Run(env, skipped + [Close] + rest, conn, w).1 == w
    ensures Run(env, skipped + [Close] + rest, conn, w).0.written == conn.written
    ensures Run(env, skipped, conn, w).1 == w
    ensures Run(env, skipped, conn, w).0.written == conn.written
    decreases |skipped|
  {
    if |skipped| == 0 {
      assert skipped + [Close] + rest == [Close] + rest;
      var (c1, w1) := Step(env, conn, w, Close);
      assert w1 == w && c1.phase.Closed? && c1.written == conn.written;
      if |rest| == 0 {
      } else {
        assert ([Close] + rest)[1..] == rest;
      }
    } else {
      var (c1, w1) := Step(env, conn, w, skipped[0]);
      assert c1.phase.AwaitingIdentify? && w1 == w && c1.written == conn.written;
      assert (skipped + [Close] + rest)[1..] == skipped[1..] + [Close] + rest;
      HandshakeCloseLeavesNoTrace(env, skipped[1..], rest, c1, w1);
    }
  }

  /** A first text frame that is not a decodable `Identify` yields exactly one
      error frame and ends the session unregistered. */
  lemma FirstFrameMustIdentify(env: Env, t: string, conn: Conn, w: World)
    requires conn.phase.AwaitingIdentify?
    requires Valid(w.ws)
    requires env.parse(t).None? || !env.parse(t).value.Identify?
    ensures Step(env, conn, w, Frame.Text(t)).0.phase.Closed?
    ensures Step(env, conn, w, Frame.Text(t)).0.written == conn.written + [WsEvent.Error(IdentifyFirst)]
    ensures Step(env, conn, w, Frame.Text(t)).1 == w
  {
  }

  /** An `Identify` whose token is rejected yields one error frame carrying the
      verifier's message and ends the session unregistered. */
  lemma RejectedTokenCloses(env: Env, t: string, conn: Conn, w: World)
    requires conn.phase.AwaitingIdentify?
    requires Valid(w.ws)
    requires env.parse(t).Some? && env.parse(t).value.Identify?
    requires Auth.VerifyToken(env.verifier, env.parse(t).value.token).Err?
    ensures Step(env, conn, w, Frame.Text(t)).0.phase.Closed?
    ensures Step(env, conn, w, Frame.Text(t)).0.written ==
      conn.written + [WsEvent.Error(Auth.VerifyToken(env.verifier, env.parse(t).value.token).error)]
    ensures Step(env, conn, w, Frame.Text(t)).1 == w
  {
  }

  /** A verified `Identify` registers exactly one new path for the verified
      user, sends `Ready` with that user's id, and sends "online" to each path
      of each peer once, and to no path of the user. */
  lemma IdentifyActivates(env: Env, t: string, conn: Conn, w: World)
    requires conn.phase.AwaitingIdentify?
    requires Valid(w.ws)
    requires env.parse(t).Some? && env.parse(t).value.Identify?
    requires Auth.VerifyToken(env.verifier, env.parse(t).value.token).Ok?
    requires env.readyWritten
    ensures var uid := Auth.VerifyToken(env.verifier, env.parse(t).value.token).value;
      var (c1, w1) := Step(env, conn, w, Frame.Text(t));
      && c1.phase == Active(uid, w.ws.nextConn)
      && c1.written == conn.written + [Ready(uid)]
      && Senders(w1.ws, uid) == Senders(w.ws, uid) + [w.ws.nextConn]
      && (forall c :: c in Senders(w1.ws, uid) ==> Inbox(w1.out, c) == Inbox(w.out, c))
      && (env.db(conn.tick).Some? ==> forall v, c ::
            v in PeersOf(env.db(conn.tick).value.members, uid) && c in Senders(w1.ws, v) ==>
              Inbox(w1.out, c) == Inbox(w.out, c) + [WsEvent.PresenceUpdate(uid, "online")])
  {
  }

  /** When the `Ready` write fails, the session ends with its path still
      registered: the user keeps counting as connected and no "online" or
      "offline" is ever sent for this connection. */
  lemma ReadyFailureLeavesPathRegistered(env: Env, t: string, conn: Conn, w: World)
    requires conn.phase.AwaitingIdentify?
    requires Valid(w.ws)
    requires env.parse(t).Some? && env.parse(t).value.Identify?
    requires Auth.VerifyToken(env.verifier, env.parse(t).value.token).Ok?
    requires !env.readyWritten
    ensures var uid := Auth.VerifyToken(env.verifier, env.parse(t).value.token).value;
      var (c1, w1) := Step(env, conn, w, Frame.Text(t));
      && c1.phase.Closed?
      && w.ws.nextConn in Senders(w1.ws, uid)
      && UserIsConnected(w1.ws, uid)
      && w1.out == w.out
  {
  }

  // ---------------------------------------------------------------------
  // Active loop

  /** In the active loop, undecodable text, a repeated `Identify`, and
      binary/ping/pong frames change nothing but the frame count. */
  lemma ActiveIgnores(env: Env, u: Uuid, c: ConnId, conn: Conn, w: World, f: Frame)
    requires conn.phase == Active(u, c)
    requires Valid(w.ws)
    requires || f.Binary? || f.Ping? || f.Pong?
             || (f.Text? && (env.parse(f.text).None? || env.parse(f.text).value.Identify?))
    ensures Step(env, conn, w, f) == (conn.(tick := conn.tick + 1), w)
  {
  }

  /** Close or a read error ends the loop and runs the teardown. */
  lemma ActiveCloseTearsDown(env: Env, u: Uuid, c: ConnId, conn: Conn, w: World, f: Frame)
    requires conn.phase == Active(u, c)
    requires Valid(w.ws)
    requires f.Close? || f.ReadError?
    ensures Step(env, conn, w, f).0.phase.Closed?
    ensures c !in Senders(Step(env, conn, w, f).1.ws, u)
    ensures c in Step(env, conn, w, f).1.closed
  {
  }

  /** Subscribing only adds to the connection's id set and adds one listener;
      a repeated subscribe leaves the set as it was but adds a second
      listener, so later broadcasts reach the connection twice. */
  lemma SubscribeTwice(env: Env, u: Uuid, c: ConnId, ch: Uuid, conn: Conn, w: World, e: WsEvent)
    requires conn.phase == Active(u, c)
    requires Valid(w.ws)
    requires ch !in w.ws.topics
    ensures var (c1, w1) := HandleClientEvent(env, u, c, ClientEvent.SubscribeChannel(ch), conn, w);
      var (c2, w2) := HandleClientEvent(env, u, c, ClientEvent.SubscribeChannel(ch), c1, w1);
      && c1.channels == conn.channels + {ch}
      && c2.channels == c1.channels
      && c2.dms == conn.dms
      && Inbox(BroadcastToChannel(w1.ws, ch, e, w.out), c) == Inbox(w.out, c) + [e]
      && Inbox(BroadcastToChannel(w2.ws, ch, e, w.out), c) == Inbox(w.out, c) + [e, e]
  {
    var (c1, w1) := HandleClientEvent(env, u, c, ClientEvent.SubscribeChannel(ch), conn, w);
    assert w1.ws.topics[ch].receivers == [c];
    assert Count([c], c) == 1;
    DoubleSubscribeDeliversTwice(w.ws, ch, c, e, w.out);
  }

  /** Unsubscribing only removes the id from the connection's set: the
      listener spawned by the subscribe keeps running, so the shared state is
      untouched and later broadcasts on that topic still reach the connection.
      Removing an id that is not in the set changes nothing. */
  lemma UnsubscribeOnlyEditsSet(env: Env, u: Uuid, c: ConnId, ch: Uuid, conn: Conn, w: World)
    requires conn.phase == Active(u, c)
    requires Valid(w.ws)
    ensures var (c1, w1) := HandleClientEvent(env, u, c, ClientEvent.UnsubscribeChannel(ch), conn, w);
      && c1.channels == conn.channels - {ch}
      && w1 == w
      && (ch !in conn.channels ==> c1 == conn)
    ensures var (c1, w1) := HandleClientEvent(env, u, c, ClientEvent.UnsubscribeDm(ch), conn, w);
      && c1.dms == conn.dms - {ch}
      && w1 == w
      && (ch !in conn.dms ==> c1 == conn)
  {
  }

  /** `MessageCreate`: a failed insert sends one error to the originating
      connection only and publishes nothing; a successful one publishes
      exactly one `MessageCreate` for that channel to its subscribers. */
  lemma MessageCreateOutcome(env: Env, u: Uuid, c: ConnId, ch: Uuid, content: string, conn: Conn, w: World)
    requires conn.phase == Active(u, c)
    requires Valid(w.ws)
    ensures var (c1, w1) := HandleClientEvent(env, u, c, ClientEvent.MessageCreate(ch, content), conn, w);
      && c1 == conn && w1.ws == w.ws
      && (env.insertMessage(ch, u, content, conn.tick).None? ==>
            w1.out == w.out[c := Inbox(w.out, c) + [WsEvent.Error(SendMessageFailed)]])
      && (env.insertMessage(ch, u, content, conn.tick).Some? ==>
            var row := env.insertMessage(ch, u, content, conn.tick).value;
            var e := WsEvent.MessageCreate(row.id, ch, GetProfileSummary(env, u, conn.tick), content, row.createdAt);
            && (ch in w.ws.topics ==> forall x :: Inbox(w1.out, x) == Inbox(w.out, x) + Repeat(e, Count(w.ws.topics[ch].receivers, x)))
            && (ch !in w.ws.topics ==> w1.out == w.out))
  {
  }

  /** `DmCreate`: a failed insert sends one error to the originating
      connection only; a successful one publishes one `DmCreate` on the DM
      topic and also hands it directly to every path of every other member. */
  lemma DmCreateOutcome(env: Env, u: Uuid, c: ConnId, dm: Uuid, content: string, conn: Conn, w: World)
    requires conn.phase == Active(u, c)
    requires Valid(w.ws)
    ensures var (c1, w1) := HandleClientEvent(env, u, c, ClientEvent.DmCreate(dm, content), conn, w);
      && c1 == conn && w1.ws == w.ws
      && (env.insertDm(dm, u, content, conn.tick).None? ==>
            w1.out == w.out[c := Inbox(w.out, c) + [WsEvent.Error(SendDmFailed)]])
      && (env.insertDm(dm, u, content, conn.tick).Some? && env.db(conn.tick).Some? ==>
            var row := env.insertDm(dm, u, content, conn.tick).value;
            var e := WsEvent.DmCreate(row.id, dm, GetProfileSummary(env, u, conn.tick), content, row.createdAt);
            var others := DmOthers(env.db(conn.tick).value.dmMembers, dm, u);
            var topicCount := x => if dm in w.ws.topics then Count(w.ws.topics[dm].receivers, x) else 0;
            forall x :: Inbox(w1.out, x) == Inbox(w.out, x) + Repeat(e, topicCount(x)) + Repeat(e, CountIn(w.ws, others, x)))
  {
  }

  /** The outcome of the presence `UPDATE` is discarded: the broadcast is the
      same whatever the database answered. */
  lemma PresenceUpdateIgnoresStore(env: Env, f: (Uuid, string, nat) -> bool, u: Uuid, c: ConnId, status: string, conn: Conn, w: World)
    requires conn.phase == Active(u, c)
    requires Valid(w.ws)
    ensures HandleClientEvent(env.(updateStatus := f), u, c, ClientEvent.PresenceUpdate(status), conn, w)
         == HandleClientEvent(env, u, c, ClientEvent.PresenceUpdate(status), conn, w)
    ensures HandleClientEvent(env, u, c, ClientEvent.PresenceUpdate(status), conn, w).1.out
         == BroadcastPresence(env, w.ws, u, status, w.out, conn.tick)
  {
  }

  // ---------------------------------------------------------------------
  // Teardown

  /** Closing one of two open connections of a user announces nothing: the
      other path keeps the user online. */
  lemma SecondConnectionKeepsUserOnline(env: Env, u: Uuid, c: ConnId, other: ConnId, conn: Conn, w: World)
    requires Valid(w.ws)
    requires other in Senders(w.ws, u) && other != c && other !in w.closed
    ensures UserIsConnected(Teardown(env, u, c, conn, w).1.ws, u)
    ensures Teardown(env, u, c, conn, w).1.out == w.out
  {
    var ws1 := Teardown(env, u, c, conn, w).1.ws;
    assert other in Senders(ws1, u);
  }

  /** Closing the last open connection of a user removes the user's entry and
      sends exactly one "offline" to each path of each peer. */
  lemma LastConnectionAnnouncesOffline(env: Env, u: Uuid, c: ConnId, conn: Conn, w: World)
    requires Valid(w.ws)
    requires forall x :: x in Senders(w.ws, u) ==> x == c || x in w.closed
    requires env.db(conn.tick).Some?
    ensures var w1 := Teardown(env, u, c, conn, w).1;
      && u !in w1.ws.users
      && forall v, x :: v in PeersOf(env.db(conn.tick).value.members, u) && x in Senders(w1.ws, v) ==>
           Inbox(w1.out, x) == Inbox(w.out, x) + [WsEvent.PresenceUpdate(u, "offline")]
  {
  }
}
