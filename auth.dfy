/** The access gate in front of every route: `authRequired` turns the
    Authorization header into a principal, and `requireRoles` decides between
    401, 403 and letting the request through.  Token verification (a JWT
    check against a secret) is a parameter `verify`: it either yields the
    token's payload or fails. */
module Auth {
  import opened Domain

  const BearerPrefix: string := "Bearer "

  /** The token carried by an Authorization header: the header with its
      first seven characters cut off, provided it starts with "Bearer ". */
  function BearerToken(header: Option<string>): (token: Option<string>)
    ensures token.Some? ==> header == Some(BearerPrefix + token.value)
    ensures token.None? <==> header.None? || !(BearerPrefix <= header.value)
  {
    if header.Some? && BearerPrefix <= header.value then
      assert |BearerPrefix| == 7 && header.value[..7] == BearerPrefix;
      assert header.value == header.value[..7] + header.value[7..];
      Some(header.value[7..])
    else
      None
  }

  /** Every token survives being put behind the prefix and taken out again. */
  lemma BearerRoundTrip(token: string)
    ensures BearerToken(Some(BearerPrefix + token)) == Some(token)
  {
  }

  /** `authRequired`: 401 unless the header carries a token that verifies;
      otherwise the verified payload becomes the request's user. */
  function AuthRequired(header: Option<string>, verify: string -> Option<Principal>): (r: Result<Principal>)
    ensures r.Err? ==> r.failure.Unauthenticated?
    ensures (header.None? || !(BearerPrefix <= header.value)) ==> r == Err(Unauthenticated(MissingBearer))
    ensures r.Ok? ==> exists token :: header == Some(BearerPrefix + token) && verify(token) == Some(r.value)
    ensures forall token :: header == Some(BearerPrefix + token) ==>
              r == (if verify(token).Some? then Ok(verify(token).value) else Err(Unauthenticated(InvalidToken)))
  {
    match BearerToken(header)
    case None => Err(Unauthenticated(MissingBearer))
    case Some(token) =>
      assert forall t :: header == Some(BearerPrefix + t) ==> t == token by {
        forall t | header == Some(BearerPrefix + t) ensures t == token {
          BearerRoundTrip(t);
        }
      }
      match verify(token)
      case None => Err(Unauthenticated(InvalidToken))
      case Some(payload) => Ok(payload)
  }

  /** `requireRoles(...allowed)`: 401 without a user, 403 when the user's
      role is not among the allowed ones, and the user itself otherwise. */
  function RequireRoles(user: Option<Principal>, allowed: seq<Role>): (r: Result<Principal>)
    ensures user.None? ==> r == Err(Unauthenticated(NoUser))
    ensures user.Some? ==> (r == Ok(user.value) <==> user.value.role in allowed)
    ensures user.Some? ==> (r == Err(Forbidden) <==> user.value.role !in allowed)
  {
    if user.None? then Err(Unauthenticated(NoUser))
    else if user.value.role !in allowed then Err(Forbidden)
    else Ok(user.value)
  }

  /** The middleware chain `authRequired, requireRoles(...allowed)` that
      guards a route: the handler runs with principal `p` exactly when the
      header is "Bearer " followed by a token that verifies to `p` and `p`'s
      role is allowed.  Because `authRequired` always sets the user,
      `requireRoles`' own 401 answer is never reached through the chain. */
  function Authorize(header: Option<string>, verify: string -> Option<Principal>, allowed: seq<Role>): (r: Result<Principal>)
    ensures r != Err(Unauthenticated(NoUser))
    ensures r.Ok? <==> exists token :: header == Some(BearerPrefix + token)
                                      && verify(token).Some? && verify(token).value.role in allowed
    ensures r.Ok? ==> exists token :: header == Some(BearerPrefix + token) && verify(token) == Some(r.value)
    ensures r.Err? ==> r.failure.Unauthenticated? || r.failure == Forbidden
    ensures (header.None? || !(BearerPrefix <= header.value)) ==> r == Err(Unauthenticated(MissingBearer))
    ensures forall token :: header == Some(BearerPrefix + token) ==>
              r == (if verify(token).None? then Err(Unauthenticated(InvalidToken))
                    else if verify(token).value.role in allowed then Ok(verify(token).value)
                    else Err(Forbidden))
  {
    match AuthRequired(header, verify)
    case Err(f) => Err(f)
    case Ok(p) => RequireRoles(Some(p), allowed)
  }
}
