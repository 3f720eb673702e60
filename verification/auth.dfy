/** Bearer-token authentication: `verify_token` (the checks made after the
    JWT library has decoded a token) and the two request extractors that read
    the `authorization` header — the one that calls `verify_token` and an
    older one that performs the same checks inline. */
module Auth {
  import opened Wrappers
  import opened Models
  import opened Seqs
  import opened Errors

  /** The claims the server reads from a Supabase token. */
  datatype Claims = Claims(sub: string, role: string, exp: int, iss: string)

  /** Result of the JWT library's `decode` with HS256, the configured secret,
      issuer `supabase` and expiry validation. */
  datatype Decoded = Decoded(claims: Claims) | DecodeFailed(detail: string)

  /** The primitives the checks rely on: JWT decoding under the configured
      secret, and `Uuid::parse_str`. */
  datatype Verifier = Verifier(decode: string -> Decoded, parseUuid: string -> Option<Uuid>)

  /** The `authorization` header as the extractor sees it: absent, present but
      not visible ASCII (`to_str` fails), or readable text. */
  datatype HeaderValue = Absent | Unreadable | Visible(text: string)

  const InvalidTokenPrefix: string := "Invalid token: "
  const NotAuthenticated: string := "User is not authenticated"
  const InvalidUserId: string := "Invalid user ID in token"
  const MissingHeader: string := "Missing Authorization header"
  const InvalidFormat: string := "Invalid Authorization format"
  const BearerPrefix: string := "Bearer "
  const AuthenticatedRole: string := "authenticated"

  /** `verify_token`: decode, then require the `authenticated` role, then a
      UUID subject. The first failing check decides the message. */
  function VerifyToken(v: Verifier, token: string): (r: Result<Uuid, string>)
    ensures v.decode(token).DecodeFailed? ==> r == Err(InvalidTokenPrefix + v.decode(token).detail)
    ensures v.decode(token).Decoded? && v.decode(token).claims.role != AuthenticatedRole ==>
      r == Err(NotAuthenticated)
    ensures (v.decode(token).Decoded? && v.decode(token).claims.role == AuthenticatedRole
             && v.parseUuid(v.decode(token).claims.sub).None?) ==> r == Err(InvalidUserId)
    ensures r.Ok? <==>
      && v.decode(token).Decoded?
      && v.decode(token).claims.role == AuthenticatedRole
      && v.parseUuid(v.decode(token).claims.sub).Some?
    ensures r.Ok? ==> Some(r.value) == v.parseUuid(v.decode(token).claims.sub)
  {
    match v.decode(token)
    case DecodeFailed(e) => Err(InvalidTokenPrefix + e)
    case Decoded(claims) =>
      if claims.role != AuthenticatedRole then Err(NotAuthenticated)
      else
        match v.parseUuid(claims.sub)
        case None => Err(InvalidUserId)
        case Some(u) => Ok(u)
  }

  /** The token carried by an `authorization` header, or the rejection. */
  function BearerToken(h: HeaderValue): (r: Result<string, AppError>)
    ensures !h.Visible? ==> r == Err(Unauthorized(MissingHeader))
    ensures h.Visible? && !(BearerPrefix <= h.text) ==> r == Err(Unauthorized(InvalidFormat))
    ensures r.Ok? ==> h == Visible(BearerPrefix + r.value)
  {
    match h
    case Absent => Err(Unauthorized(MissingHeader))
    case Unreadable => Err(Unauthorized(MissingHeader))
    case Visible(text) =>
      match StripPrefix(text, BearerPrefix)
      case Some(token) => Ok(token)
      case None => Err(Unauthorized(InvalidFormat))
  }

  /** The `AuthUser` extractor that delegates to `verify_token`: any
      verification failure is reported as `Unauthorized` with the same message. */
  function ExtractAuthUser(h: HeaderValue, v: Verifier): (r: Result<Uuid, AppError>)
    ensures r.Err? ==> r.error.Unauthorized?
    ensures r.Ok? <==> BearerToken(h).Ok? && VerifyToken(v, BearerToken(h).value).Ok?
    ensures BearerToken(h).Ok? && VerifyToken(v, BearerToken(h).value).Err? ==>
      r == Err(Unauthorized(VerifyToken(v, BearerToken(h).value).error))
    ensures r.Ok? ==> exists t :: h == Visible(BearerPrefix + t) && VerifyToken(v, t) == Ok(r.value)
  {
    match BearerToken(h)
    case Err(e) => Err(e)
    case Ok(token) =>
      match VerifyToken(v, token)
      case Ok(u) => Ok(u)
      case Err(m) => Err(Unauthorized(m))
  }

  /** The extractor with the checks written inline, as the older copy of the
      module has it. */
  function ExtractAuthUserInline(h: HeaderValue, v: Verifier): (r: Result<Uuid, AppError>)
    ensures r.Err? ==> r.error.Unauthorized?
  {
    if !h.Visible? then Err(Unauthorized(MissingHeader))
    else if !(BearerPrefix <= h.text) then Err(Unauthorized(InvalidFormat))
    else
      var token := h.text[|BearerPrefix|..];
      match v.decode(token)
      case DecodeFailed(e) => Err(Unauthorized(InvalidTokenPrefix + e))
      case Decoded(claims) =>
        if claims.role != AuthenticatedRole then Err(Unauthorized(NotAuthenticated))
        else if v.parseUuid(claims.sub).None? then Err(Unauthorized(InvalidUserId))
        else Ok(v.parseUuid(claims.sub).value)
  }

  /** Both extractors accept and reject exactly the same requests, with the
      same messages. */
  lemma ExtractorsAgree(h: HeaderValue, v: Verifier)
    ensures ExtractAuthUserInline(h, v) == ExtractAuthUser(h, v)
  {
  }

  /** A well-formed bearer header is accepted exactly when its token verifies. */
  lemma BearerHeaderAccepted(token: string, v: Verifier)
    ensures ExtractAuthUser(Visible(BearerPrefix + token), v).Ok? <==> VerifyToken(v, token).Ok?
    ensures VerifyToken(v, token).Ok? ==> ExtractAuthUser(Visible(BearerPrefix + token), v) == Ok(VerifyToken(v, token).value)
  {
    StripPrefixRoundTrip(BearerPrefix, token);
  }

  /** The scheme is matched exactly: a lower-case `bearer ` is a format error. */
  lemma SchemeIsCaseSensitive(token: string, v: Verifier)
    ensures ExtractAuthUser(Visible("bearer " + token), v) == Err(Unauthorized(InvalidFormat))
  {
    assert ("bearer " + token)[0] != BearerPrefix[0];
  }
}
