/**
 * Access and refresh tokens (JSON Web Tokens, RFC 7519, signed with HS256 as in
 * section 3.2 of RFC 7518), modelled abstractly: a token is the claim set it
 * carries together with the secret it was signed with. The HMAC itself and the
 * compact serialisation are not modelled; signing is deterministic, so two
 * tokens with the same key and the same claims are the same token.
 */
module Tokens {
  import opened Wrappers

  /** A signing secret. */
  type Key = seq<char>

  /** The secret for access tokens. */
  const AccessKey: Key := "your_access_secret"
  /** The secret for refresh tokens. */
  const RefreshKey: Key := "your_refresh_secret"

  /** Token lifetimes in seconds: 15 minutes and 7 days. */
  const AccessLifetime: int := 15 * 60
  const RefreshLifetime: int := 7 * 24 * 60 * 60

  /**
   * The claim set of a token. Access tokens carry a role, refresh tokens do not;
   * `exp` is the expiry as Unix seconds (section 4.1.4 of RFC 7519).
   */
  datatype Claims = Claims(username: string, role: Option<string>, exp: Option<int>)

  /** A presented token string: either a well-formed signed token, or any other string. */
  datatype Token =
    | Signed(key: Key, claims: Claims)
    | Malformed(raw: string)

  /** The expiry check: a token without `exp` never expires, otherwise it is live strictly before `exp`. */
  predicate Unexpired(c: Claims, now: int)
  {
    c.exp.None? || now < c.exp.value
  }

  /**
   * Parses and verifies a token against one secret: it yields the claims only
   * when the token was signed with exactly that secret and has not expired.
   */
  function Validate(t: Token, key: Key, now: int): (r: Option<Claims>)
    ensures r.Some? ==> t == Signed(key, r.value) && Unexpired(r.value, now)
    ensures t.Signed? && t.key == key && Unexpired(t.claims, now) ==> r.Some?
  {
    match t
    case Signed(k, c) => if k == key && Unexpired(c, now) then Some(c) else None
    case Malformed(_) => None
  }

  /** The number of `.` separators in a string. */
  function Dots(s: string): nat
  {
    if s == [] then 0 else (if s[|s| - 1] == '.' then 1 else 0) + Dots(s[..|s| - 1])
  }

  /**
   * The string splits into exactly three `.`-separated segments (header,
   * payload, signature). Every signed token does; for any other string the
   * parser returns no token object at all, only an error.
   */
  predicate Segmented(t: Token)
  {
    t.Signed? || Dots(t.raw) == 2
  }

  /** What `validateToken` comes to: the claims, a validation error, or a panic. */
  datatype Check = Accepted(claims: Claims) | Rejected | Panics

  /**
   * `validateToken`: the parser's verdict, read through the returned token
   * object. When the string does not have three segments that object is nil
   * and reading its claims panics.
   */
  function ValidateToken(t: Token, key: Key, now: int): (r: Check)
    ensures r.Panics? <==> !Segmented(t)
    ensures r.Accepted? <==> Validate(t, key, now).Some?
    ensures r.Accepted? ==> Validate(t, key, now) == Some(r.claims)
  {
    if !Segmented(t) then Panics
    else
      match Validate(t, key, now)
      case None => Rejected
      case Some(claims) => Accepted(claims)
  }

  /** An empty cookie panics, while a three-segment string that is no signed token is merely rejected. */
  lemma OnlyUnsegmentedStringsPanic(key: Key, now: int)
    ensures ValidateToken(Malformed(""), key, now) == Panics
    ensures ValidateToken(Malformed("abc"), key, now) == Panics
    ensures ValidateToken(Malformed("a.b.c"), key, now) == Rejected
  {
    assert Dots("abc") == Dots("ab") == Dots("a") == 0 by {
      assert "abc"[..2] == "ab";
      assert "ab"[..1] == "a";
      assert "a"[..0] == "";
    }
    assert Dots("a.b.c") == 2 by {
      assert "a.b.c"[..4] == "a.b.";
      assert "a.b."[..3] == "a.b";
      assert "a.b"[..2] == "a.";
      assert "a."[..1] == "a";
      assert "a"[..0] == "";
    }
  }

  /** Mints an access token: username, role and an expiry 15 minutes ahead, signed with the access secret. */
  function IssueAccess(username: string, role: string, now: int): (t: Token)
    ensures forall key, at {:trigger Validate(t, key, at)} ::
      Validate(t, key, at) ==
        if key == AccessKey && at < now + AccessLifetime
        then Some(Claims(username, Some(role), Some(now + AccessLifetime)))
        else None
  {
    Signed(AccessKey, Claims(username, Some(role), Some(now + AccessLifetime)))
  }

  /** Mints a refresh token: username and an expiry 7 days ahead, signed with the refresh secret. */
  function IssueRefresh(username: string, now: int): (t: Token)
    ensures forall key, at {:trigger Validate(t, key, at)} ::
      Validate(t, key, at) ==
        if key == RefreshKey && at < now + RefreshLifetime
        then Some(Claims(username, None, Some(now + RefreshLifetime)))
        else None
  {
    Signed(RefreshKey, Claims(username, None, Some(now + RefreshLifetime)))
  }

  /** The two secrets differ. */
  lemma KeysDiffer()
    ensures AccessKey != RefreshKey
  {
    assert AccessKey[5] != RefreshKey[5];
  }

  /** No token validates under both secrets: a refresh token is never an access token and vice versa. */
  lemma SecretIsolation(t: Token, at: int, at': int)
    ensures Validate(t, AccessKey, at).Some? ==> Validate(t, RefreshKey, at').None?
    ensures Validate(t, RefreshKey, at).Some? ==> Validate(t, AccessKey, at').None?
  {

  }

  /** Refresh tokens are never accepted where an access token is expected. */
  lemma RefreshTokenIsNoAccessToken(username: string, issuedAt: int, at: int)
    ensures Validate(IssueRefresh(username, issuedAt), AccessKey, at).None?
  {

  }

  /** Access tokens are never accepted where a refresh token is expected. */
  lemma AccessTokenIsNoRefreshToken(username: string, role: string, issuedAt: int, at: int)
    ensures Validate(IssueAccess(username, role, issuedAt), RefreshKey, at).None?
  {

  }
}
