/** The direct-message handlers: finding or creating the DM channel between
    the caller and another user, listing the caller's DM channels with
    their last message, and reading a DM channel's history. */
module Dms {
  import opened Wrappers
  import opened Models
  import opened Seqs
  import opened Errors
  import opened Database
  import History

  /** Whether DM channel `dc` has both `user` and `target` as members (the
      two joins of the lookup query). */
  predicate Between(st: Store, dc: DmChannel, user: Uuid, target: Uuid) {
    IsDmMember(st.dmMembers, dc.id, user) && IsDmMember(st.dmMembers, dc.id, target)
  }

  /** The lookup query of `create_dm` (`LIMIT 1`). */
  function FindDm(st: Store, user: Uuid, target: Uuid): (r: Option<DmChannel>)
    ensures r.Some? ==> r.value in st.dmChannels && Between(st, r.value, user, target)
    ensures r.None? <==> forall dc :: dc in st.dmChannels ==> !Between(st, dc, user, target)
  {
    FindFirst(st.dmChannels, (dc: DmChannel) => Between(st, dc, user, target))
  }

  /** `create_dm`: statement 0 looks for an existing DM channel between the
      two users and returns it untouched; otherwise one transaction
      (statements 1 to 4: begin, insert the channel, insert both
      memberships, commit) creates it, and a failure rolls it back. */
  function CreateDm(st: Store, f: Fault, user: Uuid, target: Uuid, now: Timestamp): (r: (Store, Result<DmChannel, AppError>))
    ensures r.1.Err? ==> r.0 == st && f.FailAt? && r.1 == Err(Sqlx(f.detail))
    ensures !Fails(f, 0) && FindDm(st, user, target).Some? ==> r == (st, Ok(FindDm(st, user, target).value))
    ensures FindDm(st, user, target).None? ==>
      ((exists k :: 0 <= k <= 4 && Fails(f, k)) <==> r.1.Err?)
    ensures r.1.Ok? && FindDm(st, user, target).None? ==>
      && r.1.value == DmChannel(st.nextId, now)
      && r.0 == st.(
           dmChannels := st.dmChannels + [r.1.value],
           dmMembers := st.dmMembers + [DmMember(st.nextId, user), DmMember(st.nextId, target)],
           nextId := st.nextId + 1)
  {
    if Fails(f, 0) then (st, Err(Sqlx(f.detail)))
    else
      match FindDm(st, user, target)
      case Some(dc) => (st, Ok(dc))
      case None =>
        if f.FailAt? && f.step <= 4 then
          assert Fails(f, f.step);
          (st, Err(Sqlx(f.detail)))
        else
          var dc := DmChannel(st.nextId, now);
          var st1 := st.(
            dmChannels := st.dmChannels + [dc],
            dmMembers := st.dmMembers + [DmMember(dc.id, user), DmMember(dc.id, target)],
            nextId := st.nextId + 1);
          (st1, Ok(dc))
  }

  /** Every DM channel id and DM membership was drawn from the generator
      before its current value. */
  ghost predicate DmIdsFresh(st: Store) {
    && (forall dc :: dc in st.dmChannels ==> dc.id < st.nextId)
    && (forall m :: m in st.dmMembers ==> m.dmChannelId < st.nextId)
  }

  lemma {:induction false} FindFirstAppendMatch(chans: seq<DmChannel>, dc: DmChannel, p: DmChannel -> bool)
    requires forall x :: x in chans ==> !p(x)
    requires p(dc)
    ensures FindFirst(chans + [dc], p) == Some(dc)
    decreases |chans|
  {
    if |chans| == 0 {
      assert chans + [dc] == [dc];
    } else {
      assert (chans + [dc])[1..] == chans[1..] + [dc];
      FindFirstAppendMatch(chans[1..], dc, p);
    }
  }

  /** Find-or-create is idempotent: asking again for the same pair returns
      the channel the first call created and changes nothing. */
  lemma CreateDmIdempotent(st: Store, user: Uuid, target: Uuid, now: Timestamp, later: Timestamp)
    requires DmIdsFresh(st)
    ensures var (st1, r1) := CreateDm(st, NoFault, user, target, now);
      && r1.Ok?
      && DmIdsFresh(st1)
      && CreateDm(st1, NoFault, user, target, later) == (st1, r1)
  {
    var (st1, r1) := CreateDm(st, NoFault, user, target, now);
    if FindDm(st, user, target).None? {
      var dc := r1.value;
      forall x | x in st.dmChannels ensures !Between(st1, x, user, target) {
        assert !Between(st, x, user, target);
        assert x.id != dc.id;
      }
      assert Between(st1, dc, user, target);
      FindFirstAppendMatch(st.dmChannels, dc, (x: DmChannel) => Between(st1, x, user, target));
    }
  }

  /** The newest message of DM channel `dm` in `msgs`, if there is one
      (the `ORDER BY created_at DESC LIMIT 1` subqueries). */
  function LastMessage(msgs: seq<Message>, dm: Uuid): (r: Option<Message>)
    ensures r.Some? ==> r.value in msgs && r.value.channelId == dm
    ensures r.Some? ==> forall m :: m in msgs && m.channelId == dm ==> m.createdAt <= r.value.createdAt
    ensures r.None? <==> forall m :: m in msgs ==> m.channelId != dm
    decreases |msgs|
  {
    if |msgs| == 0 then None
    else
      var rest := LastMessage(msgs[1..], dm);
      var m := msgs[0];
      assert forall y :: y in msgs <==> y == m || y in msgs[1..] by {
        assert msgs == [m] + msgs[1..];
      }
      if m.channelId != dm then rest
      else if rest.Some? && rest.value.createdAt > m.createdAt then rest
      else Some(m)
  }

  /** The summary row of DM channel `dc` for member `p`. Unread counts are
      not tracked: the count is always 0. */
  function SummaryOf(st: Store, dc: DmChannel, p: Profile): DmChannelSummary {
    var last := LastMessage(st.dmMessages, dc.id);
    DmChannelSummary(
      dc.id,
      Summary(p),
      if last.Some? then Some(last.value.content) else None,
      if last.Some? then Some(last.value.createdAt) else None,
      0)
  }

  /** Whether `s` is the summary the listing query builds for one of the
      caller's DM channels and one other member of it. */
  ghost predicate ListedFor(st: Store, user: Uuid, s: DmChannelSummary) {
    exists dc, o :: dc in st.dmChannels && IsDmMember(st.dmMembers, dc.id, user)
      && o != user && IsDmMember(st.dmMembers, dc.id, o)
      && FindProfile(st.profiles, o).Some?
      && s == SummaryOf(st, dc, FindProfile(st.profiles, o).value)
  }

  /** The rows of `rows` (from `dm_members`) naming another member of `dc`,
      joined with that member's profile. */
  function OthersOf(st: Store, dc: DmChannel, rows: seq<DmMember>, user: Uuid): (r: seq<DmChannelSummary>)
    ensures forall s :: s in r <==>
      exists o :: o != user && DmMember(dc.id, o) in rows
        && FindProfile(st.profiles, o).Some? && s == SummaryOf(st, dc, FindProfile(st.profiles, o).value)
    ensures forall o :: o != user && FindProfile(st.profiles, o).Some? ==>
      multiset(r)[SummaryOf(st, dc, FindProfile(st.profiles, o).value)] == multiset(rows)[DmMember(dc.id, o)]
    decreases |rows|
  {
    if |rows| == 0 then []
    else
      var rest := OthersOf(st, dc, rows[1..], user);
      var m := rows[0];
      assert forall y :: y in rows <==> y == m || y in rows[1..] by {
        assert rows == [m] + rows[1..];
      }
      assert multiset(rows) == multiset{m} + multiset(rows[1..]) by {
        assert rows == [m] + rows[1..];
      }
      if m.dmChannelId == dc.id && m.userId != user && FindProfile(st.profiles, m.userId).Some? then
        var h := SummaryOf(st, dc, FindProfile(st.profiles, m.userId).value);
        assert forall o :: o != user && FindProfile(st.profiles, o).Some? ==>
          (SummaryOf(st, dc, FindProfile(st.profiles, o).value) == h <==> DmMember(dc.id, o) == m);
        [h] + rest
      else rest
  }

  /** The unordered result of the listing query over the channels `chans`. */
  function Listing(st: Store, chans: seq<DmChannel>, user: Uuid): (r: seq<DmChannelSummary>)
    ensures forall s :: s in r <==>
      exists dc :: dc in chans && IsDmMember(st.dmMembers, dc.id, user)
        && s in OthersOf(st, dc, st.dmMembers, user)
    decreases |chans|
  {
    if |chans| == 0 then []
    else
      var rest := Listing(st, chans[1..], user);
      var dc := chans[0];
      assert forall y :: y in chans <==> y == dc || y in chans[1..] by {
        assert chans == [dc] + chans[1..];
      }
      if IsDmMember(st.dmMembers, dc.id, user) then OthersOf(st, dc, st.dmMembers, user) + rest
      else rest
  }

  function RecentKey(s: DmChannelSummary): int {
    if s.lastMessageAt.Some? then -s.lastMessageAt.value else 0
  }

  /** `ORDER BY last_message_at DESC NULLS LAST`. */
  function RecentFirst(xs: seq<DmChannelSummary>): (r: seq<DmChannelSummary>)
    ensures multiset(r) == multiset(xs)
    ensures forall s :: s in r <==> s in xs
    ensures forall i, j :: 0 <= i < j < |r| && r[i].lastMessageAt.None? ==> r[j].lastMessageAt.None?
    ensures forall i, j :: 0 <= i < j < |r| && r[j].lastMessageAt.Some? ==>
      r[i].lastMessageAt.Some? && r[i].lastMessageAt.value >= r[j].lastMessageAt.value
  {
    var dated := Filter(xs, (s: DmChannelSummary) => s.lastMessageAt.Some?);
    var undated := Filter(xs, (s: DmChannelSummary) => s.lastMessageAt.None?);
    var sorted := SortBy(dated, RecentKey);
    FilterSplit(xs, (s: DmChannelSummary) => s.lastMessageAt.Some?, (s: DmChannelSummary) => s.lastMessageAt.None?);
    assert forall s :: s in sorted <==> s in dated by {
      assert forall s :: s in sorted <==> s in multiset(sorted);
    }
    var r := sorted + undated;
    forall i, j | 0 <= i < j < |r| && r[j].lastMessageAt.Some?
      ensures r[i].lastMessageAt.Some? && r[i].lastMessageAt.value >= r[j].lastMessageAt.value
    {
      assert r[j] !in undated;
      assert j < |sorted|;
      assert r[i] == sorted[i] && r[j] == sorted[j];
      assert sorted[i] in dated && sorted[j] in dated;
      assert RecentKey(sorted[i]) <= RecentKey(sorted[j]);
    }
    r
  }

  /** `list_dms`: one summary per DM channel of the caller and other member
      of it that has a profile, most recent conversation first and channels
      without messages last. */
  function ListDms(st: Store, f: Fault, user: Uuid): (r: Result<seq<DmChannelSummary>, AppError>)
    ensures Fails(f, 0) <==> r.Err?
    ensures r.Err? ==> r.error == Sqlx(f.detail)
    ensures r.Ok? ==> multiset(r.value) == multiset(Listing(st, st.dmChannels, user))
    ensures r.Ok? ==> forall s :: s in r.value <==> ListedFor(st, user, s)
    ensures r.Ok? ==> forall s :: s in r.value ==>
      && s.unreadCount == 0
      && s.otherUser.id != user
      && IsDmMember(st.dmMembers, s.id, user)
      && IsDmMember(st.dmMembers, s.id, s.otherUser.id)
    ensures r.Ok? ==> forall s :: s in r.value ==>
      (s.lastMessageAt.None? <==> forall m :: m in st.dmMessages ==> m.channelId != s.id)
    ensures r.Ok? ==> forall s :: s in r.value && s.lastMessageAt.Some? ==>
      forall m :: m in st.dmMessages && m.channelId == s.id ==> m.createdAt <= s.lastMessageAt.value
    ensures r.Ok? ==> forall i, j :: 0 <= i < j < |r.value| && r.value[i].lastMessageAt.None? ==>
      r.value[j].lastMessageAt.None?
    ensures r.Ok? ==> forall i, j :: 0 <= i < j < |r.value| && r.value[j].lastMessageAt.Some? ==>
      r.value[i].lastMessageAt.Some? && r.value[i].lastMessageAt.value >= r.value[j].lastMessageAt.value
  {
    if Fails(f, 0) then Err(Sqlx(f.detail))
    else
      var all := Listing(st, st.dmChannels, user);
      ListingFacts(st, user);
      Ok(RecentFirst(all))
  }

  /** The unordered listing holds exactly the summaries `ListedFor` the
      caller, each naming a channel both users are members of. */
  lemma ListingFacts(st: Store, user: Uuid)
    ensures forall s :: s in Listing(st, st.dmChannels, user) <==> ListedFor(st, user, s)
    ensures forall s :: s in Listing(st, st.dmChannels, user) ==>
      && s.otherUser.id != user
      && IsDmMember(st.dmMembers, s.id, user)
      && IsDmMember(st.dmMembers, s.id, s.otherUser.id)
  {
    var all := Listing(st, st.dmChannels, user);
    forall s | s in all ensures ListedFor(st, user, s) && s.otherUser.id != user
      && IsDmMember(st.dmMembers, s.id, user) && IsDmMember(st.dmMembers, s.id, s.otherUser.id)
    {
      var dc :| dc in st.dmChannels && IsDmMember(st.dmMembers, dc.id, user) && s in OthersOf(st, dc, st.dmMembers, user);
      var o :| o != user && DmMember(dc.id, o) in st.dmMembers
        && FindProfile(st.profiles, o).Some? && s == SummaryOf(st, dc, FindProfile(st.profiles, o).value);
    }
    forall s | ListedFor(st, user, s) ensures s in all {
      var dc, o :| dc in st.dmChannels && IsDmMember(st.dmMembers, dc.id, user)
        && o != user && IsDmMember(st.dmMembers, dc.id, o)
        && FindProfile(st.profiles, o).Some?
        && s == SummaryOf(st, dc, FindProfile(st.profiles, o).value);
      assert s in OthersOf(st, dc, st.dmMembers, user);
    }
  }

  /** `get_dm_messages`: one page of the DM channel's history from
      `dm_messages`, the cursor looked up in the same table. The caller is
      not checked. */
  function GetDmMessages(st: Store, f: Fault, dm: Uuid, q: History.MessageQuery): (r: Result<seq<MessageWithAuthor>, AppError>)
    ensures r.Ok? <==> !Fails(f, 0) && History.EffectiveLimit(q) >= 0
    ensures Fails(f, 0) ==> r == Err(Sqlx(f.detail))
    ensures r.Ok? ==> |r.value| <= History.EffectiveLimit(q) <= History.MaxLimit
    ensures r.Ok? ==> forall x :: x in r.value ==> History.FromTable(x, st.dmMessages, st.profiles, dm)
    ensures r.Ok? && q.before.Some? && History.AnchorTime(st.dmMessages, q.before.value).None? ==> r.value == []
    ensures r.Ok? && q.before.Some? && History.AnchorTime(st.dmMessages, q.before.value).Some? ==>
      forall x :: x in r.value ==> x.createdAt < History.AnchorTime(st.dmMessages, q.before.value).value
    ensures r.Ok? ==> forall i, j :: 0 <= i < j < |r.value| ==> r.value[i].createdAt >= r.value[j].createdAt
    ensures r.Ok? ==> forall x :: x in r.value ==> x in History.Candidates(st.dmMessages, st.profiles, dm, q)
    ensures r.Ok? && |r.value| < History.EffectiveLimit(q) ==>
      forall x :: x in History.Candidates(st.dmMessages, st.profiles, dm, q) ==> x in r.value
    ensures r.Ok? ==> forall x, y ::
      x in r.value && y in History.Candidates(st.dmMessages, st.profiles, dm, q) && y !in r.value ==> y.createdAt <= x.createdAt
    ensures r.Ok? ==> |r.value| == Min(|History.Candidates(st.dmMessages, st.profiles, dm, q)|, History.EffectiveLimit(q))
    ensures r.Ok? ==> multiset(r.value) <= multiset(History.Candidates(st.dmMessages, st.profiles, dm, q))
  {
    History.Page(st.dmMessages, st.profiles, f, dm, q)
  }
}
