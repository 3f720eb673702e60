/** The shared real-time routing state (`WsState`): topic id -> fan-out point,
    and user id -> the delivery paths of that user's open connections.

    A delivery path is identified by the connection whose socket it ends at
    (`ConnId`). The events handed to each path are recorded in `Outboxes`, a
    separate value: routing reads the registry and appends to outboxes, and
    never changes the registry. */
module Registry {
  import opened Models
  import opened Seqs
  import opened Events

  type ConnId = int

  /** Capacity given to every topic's broadcast channel. */
  const TopicCapacity: nat := 256

  /** A topic's fan-out point: its capacity and one receiver per spawned
      listener, each naming the connection the listener forwards to. */
  datatype Topic = Topic(capacity: nat, receivers: seq<ConnId>)

  datatype WsState = WsState(
    topics: map<Uuid, Topic>,
    users: map<Uuid, seq<ConnId>>,
    nextConn: ConnId)

  /** Events handed to each delivery path, oldest first. */
  type Outboxes = map<ConnId, seq<WsEvent>>

  function Inbox(out: Outboxes, c: ConnId): seq<WsEvent> {
    if c in out then out[c] else []
  }

  /** The delivery paths registered for `u` (none when `u` has no entry). */
  function Senders(s: WsState, u: Uuid): seq<ConnId> {
    if u in s.users then s.users[u] else []
  }

  /** Registry invariant: a user entry is present only while it is non-empty,
      every registered path was allocated before `nextConn`, and no path is
      listed twice (neither for one user nor for two). */
  ghost predicate Valid(s: WsState) {
    && (forall u :: u in s.users ==> |s.users[u]| > 0)
    && (forall u, i :: u in s.users && 0 <= i < |s.users[u]| ==> s.users[u][i] < s.nextConn)
    && (forall u, i, j :: u in s.users && 0 <= i < j < |s.users[u]| ==> s.users[u][i] != s.users[u][j])
    && (forall u, v, c :: u in s.users && v in s.users && c in s.users[u] && c in s.users[v] ==> u == v)
  }

  function Empty(): (s: WsState)
    ensures Valid(s) && s.users == map[] && s.topics == map[]
  {
    WsState(map[], map[], 0)
  }

  /** `get_or_create_channel`: the topic's fan-out point, created with
      capacity 256 on first use. Nothing else in the registry changes. */
  function GetOrCreateChannel(s: WsState, topic: Uuid): (r: (WsState, Topic))
    ensures topic in r.0.topics && r.0.topics[topic] == r.1
    ensures topic in s.topics ==> r.0 == s && r.1 == s.topics[topic]
    ensures topic !in s.topics ==> r.1 == Topic(TopicCapacity, []) && r.0.topics == s.topics[topic := r.1]
    ensures r.0.users == s.users && r.0.nextConn == s.nextConn
    ensures forall t :: t != topic ==> (t in r.0.topics <==> t in s.topics)
    ensures forall t :: t != topic && t in s.topics ==> r.0.topics[t] == s.topics[t]
  {
    if topic in s.topics then (s, s.topics[topic])
    else
      var t := Topic(TopicCapacity, []);
      (s.(topics := s.topics[topic := t]), t)
  }

  /** `get_or_create_channel` followed by `subscribe()`: a fresh receiver
      forwarding to connection `c` is added to the topic's fan-out point. */
  function Subscribe(s: WsState, topic: Uuid, c: ConnId): (r: WsState)
    ensures topic in r.topics
    ensures r.topics[topic].receivers == (if topic in s.topics then s.topics[topic].receivers else []) + [c]
    ensures r.topics[topic].capacity == (if topic in s.topics then s.topics[topic].capacity else TopicCapacity)
    ensures r.users == s.users && r.nextConn == s.nextConn
    ensures forall t :: t != topic ==> (t in r.topics <==> t in s.topics)
    ensures forall t :: t != topic && t in s.topics ==> r.topics[t] == s.topics[t]
  {
    var (s1, point) := GetOrCreateChannel(s, topic);
    s1.(topics := s1.topics[topic := point.(receivers := point.receivers + [c])])
  }

  /** `register_user`: a fresh delivery path is appended to the user's list,
      creating the entry if absent. */
  function RegisterUser(s: WsState, u: Uuid): (r: (WsState, ConnId))
    ensures r.1 == s.nextConn && r.0.nextConn == s.nextConn + 1
    ensures u in r.0.users && r.0.users[u] == Senders(s, u) + [r.1]
    ensures forall v :: v != u ==> (v in r.0.users <==> v in s.users)
    ensures forall v :: v != u && v in s.users ==> r.0.users[v] == s.users[v]
    ensures r.0.topics == s.topics
    ensures Valid(s) ==> Valid(r.0)
  {
    var c := s.nextConn;
    (s.(users := s.users[u := Senders(s, u) + [c]], nextConn := c + 1), c)
  }

  /** Drops the user's paths listed in `drop`, and the entry once no path is
      left. Shared by `unregister_user` and `cleanup_closed_senders`. */
  function Retain(s: WsState, u: Uuid, drop: set<ConnId>): (r: WsState)
    ensures u !in s.users ==> r == s
    ensures r.topics == s.topics && r.nextConn == s.nextConn
    ensures Senders(r, u) == RemoveAll(Senders(s, u), drop)
    ensures u in r.users ==> |r.users[u]| > 0
    ensures forall v :: v != u ==> (v in r.users <==> v in s.users)
    ensures forall v :: v != u && v in s.users ==> r.users[v] == s.users[v]
  {
    if u in s.users then
      var left := RemoveAll(s.users[u], drop);
      if |left| == 0 then s.(users := s.users - {u})
      else s.(users := s.users[u := left])
    else s
  }

  /** `unregister_user`: removes the path `c` from the user's list, and the
      user's entry when that was the last path. */
  function UnregisterUser(s: WsState, u: Uuid, c: ConnId): (r: WsState)
    ensures u !in s.users ==> r == s
    ensures Senders(r, u) == RemoveAll(Senders(s, u), {c})
    ensures forall x :: x in Senders(r, u) <==> x in Senders(s, u) && x != c
    ensures u !in r.users <==> forall x :: x in Senders(s, u) ==> x == c
    ensures forall v :: v != u ==> Senders(r, v) == Senders(s, v)
    ensures r.topics == s.topics
    ensures Valid(s) ==> Valid(r)
  {
    RetainKeepsValid(s, u, {c});
    var r := Retain(s, u, {c});
    assert u in r.users ==> r.users[u][0] in Senders(r, u);
    r
  }

  /** `cleanup_closed_senders`: removes every path of the user whose receiving
      end is gone (`closed`). */
  function CleanupClosedSenders(s: WsState, u: Uuid, closed: set<ConnId>): (r: WsState)
    ensures u !in s.users ==> r == s
    ensures forall x :: x in Senders(r, u) <==> x in Senders(s, u) && x !in closed
    ensures u !in r.users <==> forall x :: x in Senders(s, u) ==> x in closed
    ensures forall v :: v != u ==> Senders(r, v) == Senders(s, v)
    ensures r.topics == s.topics
    ensures Valid(s) ==> Valid(r)
  {
    RetainKeepsValid(s, u, closed);
    var r := Retain(s, u, closed);
    assert u !in r.users <==> forall x :: x in Senders(s, u) ==> x in closed by {
      if u in r.users {
        var x := r.users[u][0];
        assert x in Senders(r, u);
        assert x in Senders(s, u) && x !in closed;
      } else {
        assert Senders(r, u) == [];
      }
    }
    r
  }

  /** `user_is_connected`: the user has an entry with at least one path. */
  predicate UserIsConnected(s: WsState, u: Uuid) {
    u in s.users && |s.users[u]| > 0
  }

  lemma {:induction false} RemoveKeepsBoundedDistinct(l: seq<ConnId>, drop: set<ConnId>, bound: int)
    requires forall i :: 0 <= i < |l| ==> l[i] < bound
    requires forall i, j :: 0 <= i < j < |l| ==> l[i] != l[j]
    ensures forall i :: 0 <= i < |RemoveAll(l, drop)| ==> RemoveAll(l, drop)[i] < bound
    ensures forall i, j :: 0 <= i < j < |RemoveAll(l, drop)| ==> RemoveAll(l, drop)[i] != RemoveAll(l, drop)[j]
  {
    if |l| > 0 {
      RemoveKeepsBoundedDistinct(l[1..], drop, bound);
      var rest := RemoveAll(l[1..], drop);
      assert l[0] !in l[1..] by {
        forall k | 0 <= k < |l[1..]| ensures l[1..][k] != l[0] {
          assert l[1..][k] == l[k + 1];
        }
      }
      assert forall x :: x in rest ==> x in l[1..];
      assert forall i :: 0 <= i < |rest| ==> rest[i] in rest;
    }
  }

  lemma RetainKeepsValid(s: WsState, u: Uuid, drop: set<ConnId>)
    ensures Valid(s) ==> Valid(Retain(s, u, drop))
  {
    if Valid(s) && u in s.users {
      RemoveKeepsBoundedDistinct(s.users[u], drop, s.nextConn);
    }
  }

  /** Hands `e` to every path in `ids`, in order (a path listed twice gets it twice). */
  function Deliver(out: Outboxes, ids: seq<ConnId>, e: WsEvent): Outboxes
    decreases |ids|
  {
    if |ids| == 0 then out
    else Deliver(out[ids[0] := Inbox(out, ids[0]) + [e]], ids[1..], e)
  }

  /** Each path's outbox grows by one copy of `e` per occurrence of the path in `ids`. */
  lemma {:induction false} DeliverSpec(out: Outboxes, ids: seq<ConnId>, e: WsEvent)
    ensures forall c :: Inbox(Deliver(out, ids, e), c) == Inbox(out, c) + Repeat(e, Count(ids, c))
    decreases |ids|
  {
    if |ids| > 0 {
      var out1 := out[ids[0] := Inbox(out, ids[0]) + [e]];
      DeliverSpec(out1, ids[1..], e);
      forall c ensures Inbox(Deliver(out, ids, e), c) == Inbox(out, c) + Repeat(e, Count(ids, c)) {
        if c == ids[0] {
          calc {
            Inbox(Deliver(out, ids, e), c);
            Inbox(out1, c) + Repeat(e, Count(ids[1..], c));
            (Inbox(out, c) + [e]) + Repeat(e, Count(ids[1..], c));
            Inbox(out, c) + ([e] + Repeat(e, Count(ids[1..], c)));
            Inbox(out, c) + Repeat(e, Count(ids, c));
          }
        }
      }
    }
  }

  /** `send_to_user`: every path of the user receives the event once per
      registration; an absent user receives nothing and no other path is touched. */
  function SendToUser(s: WsState, u: Uuid, e: WsEvent, out: Outboxes): (r: Outboxes)
    ensures forall c :: Inbox(r, c) == Inbox(out, c) + Repeat(e, Count(Senders(s, u), c))
    ensures u !in s.users ==> r == out
  {
    DeliverSpec(out, Senders(s, u), e);
    if u in s.users then Deliver(out, s.users[u], e) else out
  }

  /** `broadcast_to_channel`: every receiver of the topic's fan-out point
      gets the event; a topic without a point delivers nothing. */
  function BroadcastToChannel(s: WsState, topic: Uuid, e: WsEvent, out: Outboxes): (r: Outboxes)
    ensures topic in s.topics ==>
      forall c :: Inbox(r, c) == Inbox(out, c) + Repeat(e, Count(s.topics[topic].receivers, c))
    ensures topic !in s.topics ==> r == out
  {
    if topic in s.topics then
      DeliverSpec(out, s.topics[topic].receivers, e);
      Deliver(out, s.topics[topic].receivers, e)
    else out
  }

  // ---------------------------------------------------------------------
  // Properties relating several operations

  /** Registering a connection and then unregistering that same connection
      restores the user table exactly. */
  lemma RegisterUnregisterRoundTrip(s: WsState, u: Uuid)
    requires Valid(s)
    ensures UnregisterUser(RegisterUser(s, u).0, u, RegisterUser(s, u).1).users == s.users
  {
    var (s1, c) := RegisterUser(s, u);
    var l := Senders(s, u);
    FreshPathDropped(l, c);
    var r := UnregisterUser(s1, u, c);
    assert Senders(r, u) == l;
    assert u in r.users <==> u in s.users by {
      if u in s.users {
        assert s.users[u][0] in Senders(s1, u) && s.users[u][0] != c;
      } else {
        assert forall x :: x in Senders(s1, u) ==> x == c;
      }
    }
    forall v ensures (v in r.users <==> v in s.users) && (v in s.users ==> r.users[v] == s.users[v]) {
      if v != u {
        assert Senders(r, v) == Senders(s1, v) == Senders(s, v);
      }
    }
    assert r.users == s.users;
  }

  /** Removing a path that was just appended, and that is newer than every
      earlier path, gives back the earlier list. */
  lemma FreshPathDropped(l: seq<ConnId>, c: ConnId)
    requires forall i :: 0 <= i < |l| ==> l[i] < c
    ensures RemoveAll(l + [c], {c}) == l
  {
    assert forall i :: 0 <= i < |l| ==> l[i] !in {c};
    RemoveAllAppendDropped(l, c, {c});
    RemoveAllNoneDropped(l, {c});
  }

  /** In a valid registry a registered path receives exactly one copy of a
      user-directed event, and paths of other users receive none. */
  lemma SendToUserExactlyOnce(s: WsState, u: Uuid, e: WsEvent, out: Outboxes, c: ConnId)
    requires Valid(s)
    ensures c in Senders(s, u) ==> Inbox(SendToUser(s, u, e, out), c) == Inbox(out, c) + [e]
    ensures c !in Senders(s, u) ==> Inbox(SendToUser(s, u, e, out), c) == Inbox(out, c)
  {
    var l := Senders(s, u);
    if c in l {
      var i :| 0 <= i < |l| && l[i] == c;
      CountDistinctOnce(l, i);
    }
  }

  lemma {:induction false} CountDistinctOnce(l: seq<ConnId>, i: nat)
    requires i < |l|
    requires forall a, b :: 0 <= a < b < |l| ==> l[a] != l[b]
    ensures Count(l, l[i]) == 1
  {
    if i == 0 {
      assert l[0] !in l[1..] by {
        forall k | 0 <= k < |l[1..]| ensures l[1..][k] != l[0] {
          assert l[1..][k] == l[k + 1];
        }
      }
    } else {
      assert l[1..][i - 1] == l[i];
      CountDistinctOnce(l[1..], i - 1);
    }
  }

  /** `get_or_create_channel` is idempotent: a second call finds the point the
      first one created and changes nothing. */
  lemma GetOrCreateIdempotent(s: WsState, topic: Uuid)
    ensures var (s1, t1) := GetOrCreateChannel(s, topic);
      GetOrCreateChannel(s1, topic) == (s1, t1)
  {
  }

  /** A second `subscribe` on the same topic by the same connection adds a
      second receiver, so each later broadcast reaches that connection twice. */
  lemma DoubleSubscribeDeliversTwice(s: WsState, topic: Uuid, c: ConnId, e: WsEvent, out: Outboxes)
    requires topic !in s.topics
    ensures var s2 := Subscribe(Subscribe(s, topic, c), topic, c);
      Inbox(BroadcastToChannel(s2, topic, e, out), c) == Inbox(out, c) + [e, e]
  {
    var s2 := Subscribe(Subscribe(s, topic, c), topic, c);
    assert s2.topics[topic].receivers == [c, c];
    assert Count([c, c], c) == 2;
  }
}
