/** The caller's own profile: `get_me` reads it, `update_me` patches it
    field by field, keeping every field the patch leaves out. */
module Profiles {
  import opened Wrappers
  import opened Models
  import opened Seqs
  import opened Errors
  import opened Database

  datatype UpdateProfileRequest = UpdateProfileRequest(
    username: Option<string>,
    displayName: Option<string>,
    avatarUrl: Option<string>)

  const ProfileNotFound: string := "Profile not found"
  /** The driver's error when `fetch_one` gets no row. */
  const RowNotFound: string := "no rows returned by a query that expected to return at least one row"

  /** `get_me`. */
  function GetMe(st: Store, f: Fault, user: Uuid): (r: Result<Profile, AppError>)
    ensures Fails(f, 0) ==> r == Err(Sqlx(f.detail))
    ensures !Fails(f, 0) ==> (r == Err(NotFound(ProfileNotFound)) <==> forall p :: p in st.profiles ==> p.id != user)
    ensures r.Ok? ==> r.value in st.profiles && r.value.id == user
    ensures r.Ok? <==> !Fails(f, 0) && exists p :: p in st.profiles && p.id == user
  {
    if Fails(f, 0) then Err(Sqlx(f.detail))
    else
      match FindProfile(st.profiles, user)
      case None => Err(NotFound(ProfileNotFound))
      case Some(p) => Ok(p)
  }

  /** `COALESCE(patch, current)` for a column that may itself be NULL. */
  function CoalesceOpt(patch: Option<string>, current: Option<string>): (r: Option<string>)
    ensures patch.Some? ==> r == patch
    ensures patch.None? ==> r == current
  {
    if patch.Some? then patch else current
  }

  /** The row the `UPDATE` writes: each provided field replaces the stored
      one, and `updated_at` is set to the statement's time. */
  function ApplyPatch(p: Profile, body: UpdateProfileRequest, now: Timestamp): (r: Profile)
    ensures r.id == p.id && r.status == p.status && r.createdAt == p.createdAt
    ensures r.updatedAt == now
    ensures body.username.Some? ==> r.username == body.username
    ensures body.username.None? ==> r.username == p.username
    ensures body.displayName.Some? ==> r.displayName == body.displayName.value
    ensures body.displayName.None? ==> r.displayName == p.displayName
    ensures body.avatarUrl.Some? ==> r.avatarUrl == body.avatarUrl
    ensures body.avatarUrl.None? ==> r.avatarUrl == p.avatarUrl
  {
    p.(username := CoalesceOpt(body.username, p.username),
       displayName := body.displayName.GetOr(p.displayName),
       avatarUrl := CoalesceOpt(body.avatarUrl, p.avatarUrl),
       updatedAt := now)
  }

  /** Patches every row of `rows` whose id is `user`. */
  function PatchRows(rows: seq<Profile>, user: Uuid, body: UpdateProfileRequest, now: Timestamp): (r: seq<Profile>)
    ensures |r| == |rows|
    ensures forall i :: 0 <= i < |rows| ==>
      r[i] == if rows[i].id == user then ApplyPatch(rows[i], body, now) else rows[i]
  {
    if |rows| == 0 then []
    else
      var p := rows[0];
      [if p.id == user then ApplyPatch(p, body, now) else p] + PatchRows(rows[1..], user, body, now)
  }

  /** `update_me`: the caller's row is patched and returned; without a row
      `fetch_one` fails, which is a database error. */
  function UpdateMe(st: Store, f: Fault, user: Uuid, body: UpdateProfileRequest, now: Timestamp): (r: (Store, Result<Profile, AppError>))
    ensures r.1.Err? ==> r.0 == st
    ensures Fails(f, 0) ==> r.1 == Err(Sqlx(f.detail))
    ensures !Fails(f, 0) && (forall p :: p in st.profiles ==> p.id != user) ==> r.1 == Err(Sqlx(RowNotFound))
    ensures r.1.Ok? <==> !Fails(f, 0) && FindProfile(st.profiles, user).Some?
    ensures r.1.Ok? ==>
      && FindProfile(st.profiles, user).Some?
      && r.1.value == ApplyPatch(FindProfile(st.profiles, user).value, body, now)
      && r.0 == st.(profiles := r.0.profiles)
      && |r.0.profiles| == |st.profiles|
      && forall i :: 0 <= i < |st.profiles| && st.profiles[i].id != user ==> r.0.profiles[i] == st.profiles[i]
  {
    if Fails(f, 0) then (st, Err(Sqlx(f.detail)))
    else
      match FindProfile(st.profiles, user)
      case None => (st, Err(Sqlx(RowNotFound)))
      case Some(p) => (st.(profiles := PatchRows(st.profiles, user, body, now)), Ok(ApplyPatch(p, body, now)))
  }

  /** Applying the same patch twice leaves the same fields as applying it
      once; only the refresh time differs. */
  lemma PatchIdempotent(p: Profile, body: UpdateProfileRequest, t1: Timestamp, t2: Timestamp)
    ensures ApplyPatch(ApplyPatch(p, body, t1), body, t2) == ApplyPatch(p, body, t2)
  {
  }

  /** An omitted field can never clear a stored value. */
  lemma PatchNeverClears(p: Profile, body: UpdateProfileRequest, now: Timestamp)
    ensures p.username.Some? ==> ApplyPatch(p, body, now).username.Some?
    ensures p.avatarUrl.Some? ==> ApplyPatch(p, body, now).avatarUrl.Some?
  {
  }

  /** An empty patch changes nothing but `updated_at`. */
  lemma EmptyPatchRefreshesOnly(p: Profile, now: Timestamp)
    ensures ApplyPatch(p, UpdateProfileRequest(None, None, None), now) == p.(updatedAt := now)
  {
  }

  lemma {:induction false} FindAfterPatch(rows: seq<Profile>, user: Uuid, body: UpdateProfileRequest, now: Timestamp)
    requires FindProfile(rows, user).Some?
    ensures FindProfile(PatchRows(rows, user, body, now), user) == Some(ApplyPatch(FindProfile(rows, user).value, body, now))
    decreases |rows|
  {
    if rows[0].id != user {
      assert PatchRows(rows, user, body, now)[1..] == PatchRows(rows[1..], user, body, now);
      FindAfterPatch(rows[1..], user, body, now);
    }
  }

  /** After a successful update, `get_me` reads back exactly what
      `update_me` returned. */
  lemma UpdateThenGet(st: Store, user: Uuid, body: UpdateProfileRequest, now: Timestamp)
    requires FindProfile(st.profiles, user).Some?
    ensures GetMe(UpdateMe(st, NoFault, user, body, now).0, NoFault, user) == UpdateMe(st, NoFault, user, body, now).1
  {
    FindAfterPatch(st.profiles, user, body, now);
  }
}
