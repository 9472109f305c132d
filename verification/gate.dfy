/** The authentication middleware placed in front of every file handler. */
module Gate {
  import opened Wrappers
  import opened Tokens
  import opened Http

  /** The gate refuses the request with an error, lets it through with the token's claims, or panics. */
  datatype Verdict = Deny(status: int, message: string) | Pass(claims: Claims) | Abort

  /** The claims name the admin role; a missing role claim is not admin. */
  predicate IsAdmin(c: Claims)
  {
    c.role == Some("admin")
  }

  /** The decision `authMiddleware` takes on the `access_token` cookie before calling the wrapped handler. */
  function Authorize(cookie: Option<Token>, requireAdmin: bool, now: int): (v: Verdict)
    ensures v.Pass? <==>
      && cookie.Some?
      && Validate(cookie.value, AccessKey, now).Some?
      && (requireAdmin ==> IsAdmin(cookie.value.claims))
    ensures v.Pass? ==> cookie == Some(Signed(AccessKey, v.claims))
    ensures cookie.None? ==> v == Deny(StatusUnauthorized, "Access token missing")
    ensures cookie.Some? && !Segmented(cookie.value) ==> v == Abort
    ensures cookie.Some? && Segmented(cookie.value) && Validate(cookie.value, AccessKey, now).None? ==>
      v == Deny(StatusUnauthorized, "Invalid access token")
    ensures cookie.Some? && Validate(cookie.value, AccessKey, now).Some? && requireAdmin && !IsAdmin(cookie.value.claims) ==>
      v == Deny(StatusForbidden, "Admin only")
  {
    match cookie
    case None => Deny(StatusUnauthorized, "Access token missing")
    case Some(token) =>
      match ValidateToken(token, AccessKey, now)
      case Panics => Abort
      case Rejected => Deny(StatusUnauthorized, "Invalid access token")
      case Accepted(claims) =>
        if requireAdmin && !IsAdmin(claims) then Deny(StatusForbidden, "Admin only")
        else Pass(claims)
  }

  /** A refresh token never gets through the gate, whatever the route requires. */
  lemma RefreshTokenNeverPasses(username: string, issuedAt: int, requireAdmin: bool, now: int)
    ensures Authorize(Some(IssueRefresh(username, issuedAt)), requireAdmin, now) == Deny(StatusUnauthorized, "Invalid access token")
  {

  }

  /** A live access token passes an admin-only gate exactly when it was issued for the admin role, and 403s otherwise. */
  lemma AdminGateDecidesOnIssuedRole(username: string, role: string, issuedAt: int, now: int)
    requires now < issuedAt + AccessLifetime
    ensures Authorize(Some(IssueAccess(username, role, issuedAt)), true, now) ==
      if role == "admin" then Pass(Claims(username, Some(role), Some(issuedAt + AccessLifetime)))
      else Deny(StatusForbidden, "Admin only")
  {
  }

  /** An access token stops passing the gate at its expiry, whatever its signature. */
  lemma ExpiredAccessTokenIsRejected(username: string, role: string, issuedAt: int, requireAdmin: bool, now: int)
    requires issuedAt + AccessLifetime <= now
    ensures Authorize(Some(IssueAccess(username, role, issuedAt)), requireAdmin, now) == Deny(StatusUnauthorized, "Invalid access token")
  {
  }
}
