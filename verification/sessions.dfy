/**
 * The session manager: login (check credentials, issue a token pair, record the
 * refresh token) and refresh (validate, check the store, re-read the role,
 * rotate), as pure transitions `(store, request, now) -> (response, store')`.
 */
module Sessions {
  import opened Wrappers
  import opened Tokens
  import opened RefreshStore
  import opened Http

  /** A row of the `users` table. */
  datatype User = User(passwordHash: string, role: string)

  type Users = map<string, User>

  /** The password comparison (bcrypt in the deployed server): does `password` match `hash`? */
  type PasswordCheck = (string, string) -> bool

  /** A response together with the refresh store it leaves behind. */
  datatype Step = Step(response: Response, store: Store)

  /** `SELECT role FROM users WHERE username = ?` with its error ignored: the empty role when the user is gone. */
  function RoleOf(users: Users, username: string): string
  {
    if username in users then users[username].role else ""
  }

  /** The credentials name a known user and the password matches that user's hash. */
  predicate Authentic(users: Users, matches: PasswordCheck, username: string, password: string)
  {
    username in users && matches(users[username].passwordHash, password)
  }

  /** `POST /login`. */
  function Login(users: Users, store: Store, matches: PasswordCheck, username: string, password: string, now: int): (out: Step)
    ensures out.response.Issued? <==> Authentic(users, matches, username, password)
    ensures !Authentic(users, matches, username, password) ==>
      out == Step(Error(StatusUnauthorized, "Invalid credentials"), store)
    ensures out.response.Issued? ==>
      && out.response.message == "Login successful"
      && Validate(out.response.access, AccessKey, now) == Some(Claims(username, Some(users[username].role), Some(now + AccessLifetime)))
      && Validate(out.response.refresh, RefreshKey, now) == Some(Claims(username, None, Some(now + RefreshLifetime)))
      && out.store == store + [Row(username, out.response.refresh, now + RefreshLifetime)]
  {
    if username !in users then
      Step(Error(StatusUnauthorized, "Invalid credentials"), store)
    else if !matches(users[username].passwordHash, password) then
      Step(Error(StatusUnauthorized, "Invalid credentials"), store)
    else
      var access := IssueAccess(username, users[username].role, now);
      var refresh := IssueRefresh(username, now);
      Step(Issued(access, refresh, "Login successful"), store + [Row(username, refresh, now + RefreshLifetime)])
  }

  /** The presented refresh token validates and the store holds it for the user it names. */
  predicate Redeemable(store: Store, cookie: Option<Token>, now: int)
  {
    && cookie.Some?
    && Validate(cookie.value, RefreshKey, now).Some?
    && Holds(store, cookie.value.claims.username, cookie.value)
  }

  /** `POST /refresh`, given the `refresh_token` cookie if the request carries one. */
  function Refresh(users: Users, store: Store, cookie: Option<Token>, now: int): (out: Step)
    ensures out.response.Issued? <==> Redeemable(store, cookie, now)
    ensures cookie.None? ==> out == Step(Error(StatusUnauthorized, "Refresh token missing"), store)
    ensures cookie.Some? && !Segmented(cookie.value) ==> out == Step(Aborted, store)
    ensures cookie.Some? && Segmented(cookie.value) && Validate(cookie.value, RefreshKey, now).None? ==>
      out == Step(Error(StatusUnauthorized, "Invalid refresh token"), store)
    ensures cookie.Some? && Validate(cookie.value, RefreshKey, now).Some? && !Redeemable(store, cookie, now) ==>
      out == Step(Error(StatusUnauthorized, "Refresh token not found"), store)
  {
    match cookie
    case None => Step(Error(StatusUnauthorized, "Refresh token missing"), store)
    case Some(presented) =>
      match ValidateToken(presented, RefreshKey, now)
      case Panics => Step(Aborted, store)
      case Rejected => Step(Error(StatusUnauthorized, "Invalid refresh token"), store)
      case Accepted(claims) =>
        var username := claims.username;
        if CountMatching(store, username, presented) == 0 then
          Step(Error(StatusUnauthorized, "Refresh token not found"), store)
        else
          var role := RoleOf(users, username);
          var access := IssueAccess(username, role, now);
          var refresh := IssueRefresh(username, now);
          Step(Issued(access, refresh, "Token refreshed"), Rotate(store, Row(username, refresh, now + RefreshLifetime)))
  }

  /** An unknown user and a wrong password are indistinguishable to the caller, and neither changes the store. */
  lemma LoginFailuresIndistinguishable(users: Users, store: Store, matches: PasswordCheck,
                                       unknown: string, password: string, known: string, wrong: string, now: int)
    requires unknown !in users
    requires known in users && !matches(users[known].passwordHash, wrong)
    ensures Login(users, store, matches, unknown, password, now) == Login(users, store, matches, known, wrong, now)
    ensures Login(users, store, matches, unknown, password, now).store == store
  {
  }

  /** A successful login adds exactly one row, for the user, and keeps every earlier row (including the user's own). */
  lemma LoginKeepsEarlierSessions(users: Users, store: Store, matches: PasswordCheck, username: string, password: string, now: int)
    requires Authentic(users, matches, username, password)
    ensures var out := Login(users, store, matches, username, password, now);
      && RowsOf(out.store, username) == RowsOf(store, username) + [Row(username, IssueRefresh(username, now), now + RefreshLifetime)]
      && forall other :: other != username ==> RowsOf(out.store, other) == RowsOf(store, other)
  {
    var out := Login(users, store, matches, username, password, now);
    var row := Row(username, IssueRefresh(username, now), now + RefreshLifetime);
    assert out.store == store + [row];
    RowsOfAppend(store, row, username);
    forall other | other != username
      ensures RowsOf(out.store, other) == RowsOf(store, other)
    {
      RowsOfAppend(store, row, other);
    }
  }

  /**
   * A successful refresh issues tokens for the user the presented token names,
   * with the role re-read from the users table (empty if the user is gone),
   * and leaves that user exactly one row, holding the new refresh token, while
   * every other user's rows stay as they were.
   */
  lemma RefreshRotates(users: Users, store: Store, presented: Token, now: int)
    requires Redeemable(store, Some(presented), now)
    ensures var username := presented.claims.username;
      var out := Refresh(users, store, Some(presented), now);
      && out.response == Issued(IssueAccess(username, if username in users then users[username].role else "", now), IssueRefresh(username, now), "Token refreshed")
      && Validate(out.response.access, AccessKey, now) == Some(Claims(username, Some(if username in users then users[username].role else ""), Some(now + AccessLifetime)))
      && RowsOf(out.store, username) == [Row(username, IssueRefresh(username, now), now + RefreshLifetime)]
      && forall other :: other != username ==> RowsOf(out.store, other) == RowsOf(store, other)
  {
    var username := presented.claims.username;
    RotationLeavesOneRow(store, Row(username, IssueRefresh(username, now), now + RefreshLifetime));
  }

  /**
   * Replay rejection: once a refresh has rotated a token out, presenting that
   * token again (with any users table, at any later time) fails with "Refresh
   * token not found" while it still validates, and "Invalid refresh token"
   * once it has expired. It requires that the rotation produced a different
   * token, which is the case whenever the presented token was not itself
   * issued during the same second.
   */
  lemma RotatedTokenIsRejected(users: Users, store: Store, presented: Token, now: int, users': Users, later: int)
    requires Redeemable(store, Some(presented), now)
    requires Refresh(users, store, Some(presented), now).response.refresh != presented
    ensures var again := Refresh(users', Refresh(users, store, Some(presented), now).store, Some(presented), later);
      && again.store == Refresh(users, store, Some(presented), now).store
      && again.response == Error(StatusUnauthorized,
           if Validate(presented, RefreshKey, later).Some? then "Refresh token not found" else "Invalid refresh token")
  {

  }

  /**
   * The boundary of replay rejection: a refresh token issued in the same second
   * as the refresh that redeems it is re-issued unchanged (signing is
   * deterministic and `exp` has one-second resolution), so it stays redeemable.
   */
  lemma SameSecondRefreshReissuesToken(users: Users, store: Store, username: string, now: int, users': Users)
    requires Holds(store, username, IssueRefresh(username, now))
    ensures var out := Refresh(users, store, Some(IssueRefresh(username, now)), now);
      && out.response.Issued?
      && out.response.refresh == IssueRefresh(username, now)
      && Refresh(users', out.store, Some(IssueRefresh(username, now)), now).response.Issued?
  {

  }

  /**
   * Every stored row holds the refresh token issued to its user, expiring when the row does,
   * and was issued no later than `now`.
   */
  predicate WellFormed(store: Store, now: int)
  {
    forall r :: r in store ==>
      r.token == IssueRefresh(r.username, r.expiresAt - RefreshLifetime) && r.expiresAt <= now + RefreshLifetime
  }

  /**
   * Login and refresh at `now`, on a store well formed at an earlier `before`, only ever store
   * refresh tokens issued for the row's own user and expiry, at a time no later than `now`.
   */
  lemma TransitionsKeepStoreWellFormed(users: Users, store: Store, matches: PasswordCheck,
                                       username: string, password: string, cookie: Option<Token>,
                                       before: int, now: int)
    requires WellFormed(store, before) && before <= now
    ensures WellFormed(Login(users, store, matches, username, password, now).store, now)
    ensures WellFormed(Refresh(users, store, cookie, now).store, now)
  {
  }

  /** In a well-formed store every redeemable token is a refresh token the server issued to that user during the last 7 days. */
  lemma RedeemedTokenWasIssuedByServer(store: Store, presented: Token, now: int)
    requires WellFormed(store, now)
    requires Redeemable(store, Some(presented), now)
    ensures exists issuedAt :: now - RefreshLifetime < issuedAt <= now && presented == IssueRefresh(presented.claims.username, issuedAt)
  {

  }
}
