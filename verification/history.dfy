/** Newest-first message history with a `before` cursor, as `get_messages`
    (over `messages`) and `get_dm_messages` (over `dm_messages`) query it:
    the channel's messages joined with their authors' profiles, optionally
    only those strictly older than the anchor message, newest first, at most
    `min(limit or 50, 100)` of them. */
module History {
  import opened Wrappers
  import opened Models
  import opened Seqs
  import opened Errors
  import opened Database

  datatype MessageQuery = MessageQuery(before: Option<Uuid>, limit: Option<int>)

  const DefaultLimit: int := 50
  const MaxLimit: int := 100
  const NegativeLimit: string := "LIMIT must not be negative"

  /** `q.limit.unwrap_or(50).min(100)`. */
  function EffectiveLimit(q: MessageQuery): (n: int)
    ensures n <= MaxLimit
    ensures q.limit.None? ==> n == DefaultLimit
    ensures q.limit.Some? && q.limit.value <= MaxLimit ==> n == q.limit.value
    ensures q.limit.Some? && q.limit.value > MaxLimit ==> n == MaxLimit
  {
    var n := q.limit.GetOr(DefaultLimit);
    if n < MaxLimit then n else MaxLimit
  }

  /** Whether message `m` passes the `WHERE` clause: it belongs to
      `channel` and, under a cursor, was created before `bound`. */
  predicate Eligible(m: Message, channel: Uuid, bound: Option<Timestamp>) {
    m.channelId == channel && (bound.Some? ==> m.createdAt < bound.value)
  }

  function WithAuthor(m: Message, p: Profile): MessageWithAuthor {
    MessageWithAuthor(m.id, m.channelId, Summary(p), m.content, m.createdAt)
  }

  /** Whether `x` is the row the join builds from some eligible message of
      `rows` and its author's profile. */
  ghost predicate JoinedFrom(x: MessageWithAuthor, rows: seq<Message>, profiles: seq<Profile>, channel: Uuid, bound: Option<Timestamp>) {
    exists m :: m in rows && Eligible(m, channel, bound) && FindProfile(profiles, m.authorId).Some?
      && x == WithAuthor(m, FindProfile(profiles, m.authorId).value)
  }

  /** Whether `x` is a message of `channel` in `rows`, joined with its
      author's profile row. */
  ghost predicate FromTable(x: MessageWithAuthor, rows: seq<Message>, profiles: seq<Profile>, channel: Uuid) {
    exists m :: m in rows && m.channelId == channel && FindProfile(profiles, m.authorId).Some?
      && x == WithAuthor(m, FindProfile(profiles, m.authorId).value)
  }

  /** The inner join of the eligible messages with `profiles`: a message
      whose author has no profile row yields nothing. */
  function Joined(rows: seq<Message>, profiles: seq<Profile>, channel: Uuid, bound: Option<Timestamp>): (r: seq<MessageWithAuthor>)
    ensures forall x :: x in r <==> JoinedFrom(x, rows, profiles, channel, bound)
    ensures forall x :: x in r ==> x.channelId == channel && (bound.Some? ==> x.createdAt < bound.value)
    decreases |rows|
  {
    if |rows| == 0 then []
    else
      var rest := Joined(rows[1..], profiles, channel, bound);
      var m := rows[0];
      assert forall y :: y in rows <==> y == m || y in rows[1..] by {
        assert rows == [m] + rows[1..];
      }
      if Eligible(m, channel, bound) && FindProfile(profiles, m.authorId).Some? then
        [WithAuthor(m, FindProfile(profiles, m.authorId).value)] + rest
      else rest
  }

  /** The anchor's `created_at` (`SELECT created_at FROM ... WHERE id = $2`). */
  function AnchorTime(rows: seq<Message>, id: Uuid): (r: Option<Timestamp>)
    ensures r.Some? ==> exists m :: m in rows && m.id == id && m.createdAt == r.value
    ensures r.None? <==> forall m :: m in rows ==> m.id != id
  {
    match FindFirst(rows, (m: Message) => m.id == id)
    case Some(m) => Some(m.createdAt)
    case None => None
  }

  /** The rows the query can return before `LIMIT`: the join of the
      channel's messages with their authors' profiles, restricted to those
      older than the cursor's message when a cursor is given, and empty when
      the cursor names no message (the comparison with NULL is never true). */
  function Candidates(rows: seq<Message>, profiles: seq<Profile>, channel: Uuid, q: MessageQuery): seq<MessageWithAuthor> {
    match q.before
    case None => Joined(rows, profiles, channel, None)
    case Some(b) =>
      match AnchorTime(rows, b)
      case None => []
      case Some(t) => Joined(rows, profiles, channel, Some(t))
  }

  /** One page of history from the table `rows`: the newest `limit`
      candidates, newest first. A failing query is a database error, and so
      is a negative limit (PostgreSQL refuses it); a cursor naming no message
      makes the comparison NULL, so the page is empty. */
  function Page(rows: seq<Message>, profiles: seq<Profile>, f: Fault, channel: Uuid, q: MessageQuery): (r: Result<seq<MessageWithAuthor>, AppError>)
    ensures Fails(f, 0) ==> r == Err(Sqlx(f.detail))
    ensures r.Ok? <==> !Fails(f, 0) && EffectiveLimit(q) >= 0
    ensures r.Ok? ==> |r.value| <= EffectiveLimit(q) <= MaxLimit
    ensures r.Ok? ==> forall x :: x in r.value ==> x.channelId == channel
    ensures r.Ok? ==> forall x :: x in r.value ==> FromTable(x, rows, profiles, channel)
    ensures r.Ok? && q.before.Some? && AnchorTime(rows, q.before.value).None? ==> r.value == []
    ensures r.Ok? && q.before.Some? && AnchorTime(rows, q.before.value).Some? ==>
      forall x :: x in r.value ==> x.createdAt < AnchorTime(rows, q.before.value).value
    ensures r.Ok? ==> forall i, j :: 0 <= i < j < |r.value| ==> r.value[i].createdAt >= r.value[j].createdAt
    ensures r.Ok? ==> forall x :: x in r.value ==> x in Candidates(rows, profiles, channel, q)
    ensures r.Ok? && |r.value| < EffectiveLimit(q) ==>
      forall x :: x in Candidates(rows, profiles, channel, q) ==> x in r.value
    ensures r.Ok? ==> forall x, y ::
      x in r.value && y in Candidates(rows, profiles, channel, q) && y !in r.value ==> y.createdAt <= x.createdAt
    ensures r.Ok? ==> |r.value| == Min(|Candidates(rows, profiles, channel, q)|, EffectiveLimit(q))
    ensures r.Ok? ==> multiset(r.value) <= multiset(Candidates(rows, profiles, channel, q))
  {
    var limit := EffectiveLimit(q);
    if Fails(f, 0) then Err(Sqlx(f.detail))
    else if limit < 0 then Err(Sqlx(NegativeLimit))
    else Ok(NewestFirst(Candidates(rows, profiles, channel, q), limit))
  }

  function NewestKey(x: MessageWithAuthor): int {
    -x.createdAt
  }

  /** `ORDER BY created_at DESC LIMIT limit`. */
  function NewestFirst(xs: seq<MessageWithAuthor>, limit: nat): (r: seq<MessageWithAuthor>)
    ensures |r| <= limit
    ensures forall x :: x in r ==> x in xs
    ensures forall i, j :: 0 <= i < j < |r| ==> r[i].createdAt >= r[j].createdAt
    ensures |r| < limit ==> forall x :: x in xs ==> x in r
    ensures forall x, y :: x in r && y in xs && y !in r ==> y.createdAt <= x.createdAt
    ensures |r| == if |xs| < limit then |xs| else limit
    ensures multiset(r) <= multiset(xs)
  {
    var sorted := SortBy(xs, NewestKey);
    var k := if |sorted| < limit then |sorted| else limit;
    PrefixFacts(xs, sorted, k);
    assert sorted == sorted[..k] + sorted[k..];
    sorted[..k]
  }

  lemma PrefixFacts(xs: seq<MessageWithAuthor>, sorted: seq<MessageWithAuthor>, k: nat)
    requires multiset(sorted) == multiset(xs)
    requires SortedBy(sorted, NewestKey)
    requires k <= |sorted|
    ensures forall x :: x in sorted[..k] ==> x in xs
    ensures forall i, j :: 0 <= i < j < k ==> sorted[..k][i].createdAt >= sorted[..k][j].createdAt
    ensures k == |sorted| ==> forall x :: x in xs ==> x in sorted[..k]
    ensures forall x, y :: x in sorted[..k] && y in xs && y !in sorted[..k] ==> y.createdAt <= x.createdAt
  {
    var r := sorted[..k];
    assert forall x :: x in sorted <==> x in xs by {
      assert forall x :: x in sorted <==> x in multiset(sorted);
    }
    forall i, j | 0 <= i < j < k ensures r[i].createdAt >= r[j].createdAt {
      assert NewestKey(sorted[i]) <= NewestKey(sorted[j]);
    }
    forall x, y | x in r && y in xs && y !in r ensures y.createdAt <= x.createdAt {
      TakeIsSmallest(sorted, NewestKey, k, y);
      var i :| 0 <= i < k && r[i] == x;
    }
    assert k == |sorted| ==> r == sorted;
  }

  /** The messages of a table have distinct ids (the primary key). */
  ghost predicate UniqueIds(rows: seq<Message>) {
    forall i, j :: 0 <= i < j < |rows| ==> rows[i].id != rows[j].id
  }

  /** A joined row's message is the one its id names, so the cursor set to
      that id anchors at the row's own creation time. */
  lemma AnchorOfRow(x: MessageWithAuthor, rows: seq<Message>, profiles: seq<Profile>, channel: Uuid)
    requires UniqueIds(rows)
    requires FromTable(x, rows, profiles, channel)
    ensures AnchorTime(rows, x.id) == Some(x.createdAt)
  {
    var m :| m in rows && m.channelId == channel && FindProfile(profiles, m.authorId).Some?
      && x == WithAuthor(m, FindProfile(profiles, m.authorId).value);
    var a := AnchorTime(rows, x.id);
    var m' :| m' in rows && m'.id == x.id && m'.createdAt == a.value;
    var i :| 0 <= i < |rows| && rows[i] == m;
    var j :| 0 <= j < |rows| && rows[j] == m';
    assert i == j;
  }

  /** Paging backwards with the oldest message of one page as the cursor
      yields only messages strictly older than everything on that page. */
  lemma NextPageIsOlder(rows: seq<Message>, profiles: seq<Profile>, channel: Uuid,
                        q1: MessageQuery, p1: seq<MessageWithAuthor>, q2: MessageQuery, p2: seq<MessageWithAuthor>)
    requires UniqueIds(rows)
    requires Page(rows, profiles, NoFault, channel, q1) == Ok(p1)
    requires Page(rows, profiles, NoFault, channel, q2) == Ok(p2)
    requires |p1| > 0 && q2.before == Some(p1[|p1| - 1].id)
    ensures forall x, y :: x in p1 && y in p2 ==> y.createdAt < x.createdAt
  {
    LastRowAnchors(rows, profiles, channel, q1, p1);
    PageBelowAnchor(rows, profiles, channel, q2, p2, p1[|p1| - 1].createdAt);
    OlderThanPage(p1, p2);
  }

  /** The oldest row of a non-empty page, used as the next cursor, anchors
      at its own creation time. */
  lemma LastRowAnchors(rows: seq<Message>, profiles: seq<Profile>, channel: Uuid, q: MessageQuery, p: seq<MessageWithAuthor>)
    requires UniqueIds(rows)
    requires Page(rows, profiles, NoFault, channel, q) == Ok(p)
    requires |p| > 0
    ensures AnchorTime(rows, p[|p| - 1].id) == Some(p[|p| - 1].createdAt)
  {
    assert p[|p| - 1] in p;
    AnchorOfRow(p[|p| - 1], rows, profiles, channel);
  }

  /** Under a cursor whose message was created at `t`, a page holds only
      messages created before `t`. */
  lemma PageBelowAnchor(rows: seq<Message>, profiles: seq<Profile>, channel: Uuid, q: MessageQuery, p: seq<MessageWithAuthor>, t: Timestamp)
    requires Page(rows, profiles, NoFault, channel, q) == Ok(p)
    requires q.before.Some? && AnchorTime(rows, q.before.value) == Some(t)
    ensures forall y :: y in p ==> y.createdAt < t
  {
  }

  /** Everything older than the last row of a newest-first page is older
      than the whole page. */
  lemma OlderThanPage(p1: seq<MessageWithAuthor>, p2: seq<MessageWithAuthor>)
    requires |p1| > 0
    requires forall i, j :: 0 <= i < j < |p1| ==> p1[i].createdAt >= p1[j].createdAt
    requires forall y :: y in p2 ==> y.createdAt < p1[|p1| - 1].createdAt
    ensures forall x, y :: x in p1 && y in p2 ==> y.createdAt < x.createdAt
  {
    forall x | x in p1 ensures p1[|p1| - 1].createdAt <= x.createdAt {
      var i :| 0 <= i < |p1| && p1[i] == x;
    }
  }
}
