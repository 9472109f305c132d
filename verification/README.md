# goFileServer authentication core, modelled in Dafny

goFileServer is a small HTTP file-storage service. Users log in and get a short-lived
access token and a long-lived refresh token as cookies. They then upload, download, list
and (admins only) delete files. This project models the part of `main.go` that has real
logic:

- **Tokens** (`tokens.dfy`). An access token carries `{username, role, exp = now + 15 min}`
  and is signed with the access secret. A refresh token carries `{username, exp = now + 7 days}`
  and is signed with the refresh secret. Both are JSON Web Tokens (RFC 7519) using HS256
  (section 3.2 of RFC 7518). A token is modelled as the pair (secret, claims), and signing is
  deterministic. Validation accepts a token only under the secret that signed it, and only
  strictly before its `exp`. The JWT library does not require `exp`, so a signed token
  without one never expires. A cookie that does not split into three `.`-separated segments
  makes the parser return no token object, and `validateToken` then panics reading its claims;
  the model carries this as its own outcome (`Tokens.ValidateToken`).
- **Refresh store** (`store.dfy`). The `refresh_tokens` table is a sequence of rows
  `(username, token, expiresAt)`. The code issues three statements against it: the
  `(username, token)` existence count, the per-user delete, and the insert.
- **Sessions** (`sessions.dfy`). Login and refresh are pure transitions
  `(users, store, request, now) -> (response, store')`. The password comparison (bcrypt) is
  passed in as a function.
- **Auth gate** (`gate.dfy`). This is the middleware's decision on the `access_token` cookie:
  401 when it is missing, a panic when it is not three segments, 401 when it is otherwise invalid
  or expired, and 403 when admin is required and the role claim is not `"admin"`. Otherwise the
  wrapped handler runs. `net/http` recovers a handler's panic, logs it and closes the connection
  without a response; the model's response for that is `Aborted`, and the state is unchanged.
- **Routes and dispatch** (`server.dfy`). This holds the route table, the gate in front of
  each file route, and one request served against `(users, store)`. The file and static
  handlers are passed in as a function.
- **Upload admission** (`uploads.dfy`). This is the `useType` settings table, the checks
  made before a file is saved, the saved name (a nanosecond timestamp followed by the original
  file's extension) and which decoder `createThumbnail` picks for it: JPEG for a lower-cased
  `.jpg` or `.jpeg`, PNG for `.png`, none for any other extension or a non-image.
- **Pagination** (`paging.dfy`). This is the defaulting of `page` and `pageSize` and the row
  offset. Go's 64-bit `int` wrap-around is modelled explicitly.

Time is an explicit `now: int` in Unix seconds. One `now` per request stands for the several
`time.Now()` reads the code makes while serving it: in `generateAccessToken` and
`generateRefreshToken` (main.go:55, 64), for `expires_at` (main.go:102, 160), and inside the
JWT library's expiry check. They are taken to fall in the same second. In particular the
"same second" of `Sessions.SameSecondRefreshReissuesToken` is the second read by
`generateRefreshToken`.

Behaviours of the code that the proofs make visible:

- Login appends a row and keeps the user's earlier rows, so repeated logins give a user
  several live refresh tokens. A refresh deletes all of that user's rows and inserts one.
- The `expires_at` column is written but never read, and no row is removed because it expired.
  A user's rows are deleted only when that user refreshes, and then all of them go, expired or
  not. Until then a stored row is redeemable exactly while its JWT validates.
- Replay rejection depends on the rotated token being different from the presented one. The
  `exp` claim has one-second resolution and HS256 is deterministic. So a refresh token that is
  redeemed in the same second it was issued is re-issued unchanged and stays redeemable
  (`Sessions.SameSecondRefreshReissuesToken`). Otherwise the old token is rejected
  (`Sessions.RotatedTokenIsRejected`).
- On refresh the role is re-read from the users table. If the user has since been deleted, the
  lookup error is ignored, and the new access token carries the empty role.
- The offset `(page - 1) * pageSize` is computed in 64-bit `int` and can wrap. For example,
  page 2^62 + 1 with page size 4 gets offset 0 (`Paging.OffsetWrapsAround`). Negative pages
  and page sizes are passed through unclamped.

Choices the code makes, which the model keeps:

- The code treats roles as free strings, not a closed `{user, admin}` enumeration. A missing
  role claim counts as "not admin".
- The code ignores signing and store errors instead of reporting them as internal errors.
- The code keeps earlier sessions on login rather than enforcing one session per user.
- The code runs the refresh delete and insert as two separate statements with no transaction.
  The sequential model treats them as one step.

## Model

| member | source | states |
|---|---|---|
| Tokens.Validate | main.go:70-78 | a token yields claims only when it was signed with exactly the given secret and is not expired, and then it yields the claims it was signed with |
| Tokens.ValidateToken | main.go:70-78 | `validateToken` panics exactly for a string that is not three `.`-separated segments; otherwise it accepts exactly what `Validate` accepts, with the same claims, and rejects the rest |
| Tokens.OnlyUnsegmentedStringsPanic | main.go:70-78 | the empty cookie and "abc" make `validateToken` panic, while the three-segment "a.b.c" is merely rejected |
| Tokens.IssueAccess | main.go:51-59 | the access token validates only under the access secret, only strictly before now + 15 minutes, and then carries the username and role |
| Tokens.IssueRefresh | main.go:61-68 | the refresh token validates only under the refresh secret, only strictly before now + 7 days, and carries the username and no role |
| Tokens.KeysDiffer | main.go:25-26 | the access secret and the refresh secret are different |
| Tokens.SecretIsolation | main.go:70-78 | no token validates under both secrets, at any two times |
| Tokens.RefreshTokenIsNoAccessToken | main.go:61-68 | a refresh token never validates where an access token is checked |
| Tokens.AccessTokenIsNoRefreshToken | main.go:51-59 | an access token never validates where a refresh token is checked |
| RefreshStore.CountMatching | main.go:144-146 | the count is non-zero exactly when some row pairs that username with that token |
| RefreshStore.DeleteUser | main.go:158 | the rows left are exactly the rows of other users |
| RefreshStore.Rotate | main.go:157-160 | after delete-then-insert the table holds the new row and exactly the other users' rows, and grows by at most one row |
| RefreshStore.RowsOfDeleteUser | main.go:158 | the per-user delete empties that user's rows and leaves every other user's rows, in order, as they were |
| RefreshStore.RowsOfAppend | main.go:102 | inserting a row adds it to its own user's rows only |
| RefreshStore.RotationLeavesOneRow | main.go:157-160 | after delete-then-insert the user holds exactly the new row and every other user's rows are unchanged |
| Sessions.Login | main.go:81-106 | login issues tokens exactly when the user exists and the password matches; otherwise it returns 401 "Invalid credentials" and the store is unchanged; on success the access token carries the user and the stored role, the refresh token carries the user and no role, and exactly one row (user, new refresh token, now + 7 days) is appended |
| Sessions.Refresh | main.go:129-164 | the checks run in order: a missing cookie gives 401 "Refresh token missing", a cookie that is not three segments panics (`Aborted`), a failed validation gives 401 "Invalid refresh token", no (username, token) row gives 401 "Refresh token not found", and each leaves the store unchanged; tokens are issued exactly when all three pass |
| Sessions.LoginFailuresIndistinguishable | main.go:86-96 | an unknown username and a wrong password produce the identical result, and the store is unchanged |
| Sessions.LoginKeepsEarlierSessions | main.go:98-102 | a successful login appends one row for the user and keeps all earlier rows, including the user's own |
| Sessions.RefreshRotates | main.go:142-160 | a successful refresh issues tokens for the username in the presented token, with the role re-read from the users table (empty if the user is gone); afterwards that user has exactly one row, holding the new token, and other users' rows are untouched |
| Sessions.RotatedTokenIsRejected | main.go:136-160 | once rotated out, the presented token fails a later refresh with "Refresh token not found" while it still validates, or with "Invalid refresh token" once expired, and that later refresh changes nothing |
| Sessions.SameSecondRefreshReissuesToken | main.go:61-68 | a refresh token redeemed in the second it was issued is re-issued unchanged and stays redeemable |
| Sessions.TransitionsKeepStoreWellFormed | main.go:98-102 | login and refresh at `now`, on a store well formed at any earlier time, store only refresh tokens issued for the row's own user, expiring when the row does, and issued no later than `now` |
| Sessions.RedeemedTokenWasIssuedByServer | main.go:136-149 | in a store well formed at `now`, every redeemable token is a refresh token issued to that user at a time in (now - 7 days, now] |
| Gate.Authorize | main.go:167-189 | a missing cookie gives 401 "Access token missing", a cookie that is not three segments panics (`Abort`), any other invalid or expired token gives 401 "Invalid access token", an admin requirement with a non-admin role gives 403 "Admin only"; the request passes exactly otherwise, and then with the claims of a token signed by the access secret |
| Gate.RefreshTokenNeverPasses | main.go:175-179 | a refresh token is always refused as an invalid access token |
| Gate.AdminGateDecidesOnIssuedRole | main.go:181-184 | a live access token passes the admin gate exactly when it was issued with role "admin", and gets 403 otherwise |
| Gate.ExpiredAccessTokenIsRejected | main.go:175-179 | an access token is refused from its expiry on |
| Server.ExactPathsAreNotStatic | main.go:400-408 | neither "/refresh" nor "/download" starts with "/static/", so the exact routes and the static prefix never overlap |
| Server.RouteOf | main.go:400-408 | each exact route is chosen exactly for its own path, and the static route exactly for paths starting with "/static/"; any other path has no route |
| Server.GuardOf | main.go:400-408 | only the delete route needs the admin gate, and exactly login, refresh and static are open |
| Server.DispatchOf | main.go:400-408 | a gated handler is reached only with a valid access cookie; the delete handler is reached exactly for "/delete" with a token that passes the admin gate; denials happen only on gated routes |
| Server.Serve | main.go:400-405 | serving never changes the users table; only login and refresh change the store, so the gate and the file handlers leave it alone; a denial becomes the matching error response |
| Server.OnlyDeleteRequiresAdmin | main.go:402-405 | among all paths, only "/delete" requires admin, and exactly "/upload", "/download" and "/files" require sign-in |
| Server.GatedHandlerRunsOnlyWhenAdmitted | main.go:167-189 | on a gated route the handler's response is returned exactly when the gate passes, otherwise the gate's error, and the state is unchanged either way |
| Server.ServeLogin | main.go:400 | "/login" with good credentials returns the user's token pair and appends the user's row |
| Server.ServeRefresh | main.go:401 | "/refresh" with a redeemable token returns a fresh pair and rotates the user's rows |
| Server.ServeRetiredRefresh | main.go:144-149 | "/refresh" with a live token the store does not hold returns 401 "Refresh token not found" and changes nothing |
| Server.RefreshedAccessTokenOpensGatedRoutes | main.go:154 | the access token issued by a refresh opens every signed-in route until it expires |
| Server.LoginThenDelete | main.go:404 | after login, "/delete" with the new access token reaches the delete handler exactly when the user's role is "admin", and gives 403 "Admin only" otherwise |
| Server.RotationScenario | main.go:129-164 | after login, a refresh and another refresh in order, the second one in a later second than the login, the login's original refresh token is rejected as not found, with the state unchanged |
| Uploads.Allowed | main.go:214-221 | the scan finds the content type exactly when it is in the list |
| Uploads.UploadCategories | main.go:36-39 | there are exactly two categories, profile and document, stored under uploads/<category>, accepting image/jpeg and image/png, and application/pdf |
| Strings.Ext | main.go:229 | `filepath.Ext`: the extension is a suffix of the name that starts with "." and has no other "." or "/"; it is empty exactly when the last path element has no "." |
| Strings.ExtOfExtension | main.go:229 | whatever precedes it, a final "." followed by neither "." nor "/" is the whole extension |
| Strings.Decimal | main.go:229 | `%d` of a non-negative number is a non-empty run of decimal digits, with no leading zero, whose value is that number |
| Uploads.SavedName | main.go:229 | the saved name is exactly the timestamp's decimal digits followed by the original name's extension: it starts with the digits, has that extension, and is no longer than the two together |
| Uploads.SavedNameKeepsDecoder | main.go:229-242 | deciding on the saved name picks the same decoder as deciding on the original name would |
| Uploads.NamesWithoutExtensionGetNone | main.go:259-266 | a file whose name has no extension gets no thumbnail, whatever its content type |
| Uploads.ExtensionPicksDecoder | main.go:241-266 | for an image (a content type starting with "image/"), only the original name's final extension matters and only up to letter case: ".jpg"/".jpeg" give JPEG, ".png" PNG, anything else none |
| Uploads.UpperCaseExtensionsMatch | main.go:259 | ".JPG", ".Jpeg" and ".PNG" lower to the three accepted extensions, ".GIF" to none of them |
| Uploads.Screen | main.go:200-225 | the checks pass exactly for profile with image/jpeg or image/png, and for document with application/pdf; otherwise 400 "Invalid useType", then "File missing", then "Unsupported file type", in that order |
| Uploads.Save | main.go:227-243 | a saved file keeps its directory and content type, is named `SavedName(stamp, filename)`, the timestamp's digits followed by the original extension, and its decoder follows the lower-cased extension for images only |
| Uploads.Admit | main.go:200-243 | an upload is admitted exactly for profile with image/jpeg or image/png, and for document with application/pdf, with the refusals in order otherwise; an admitted file goes to uploads/<useType> under a name with its original extension; documents get no decoder, and a profile image gets the JPEG decoder exactly for a lower-cased ".jpg"/".jpeg" extension and the PNG decoder exactly for ".png" |
| Paging.Wrap | main.go:345 | 64-bit wrap-around keeps in-range values and differs from the exact value by a multiple of 2^64 |
| Paging.Paginate | main.go:336-345 | page 0 becomes 1 and pageSize 0 becomes 10, other values are kept; the offset always agrees with (page - 1) * pageSize modulo 2^64, and equals it when nothing overflows |
| Paging.WrappedProductIsCongruent | main.go:345 | a wrapped product of wrapped factors still agrees with the exact product modulo 2^64 |
| Paging.PagesAreAdjacent | main.go:345-347 | without overflow, page p + 1 starts exactly pageSize rows after page p |
| Paging.NegativesAreNotClamped | main.go:336-345 | negative values pass through, so page -1 of size 10 has offset -20; zero values take the defaults |
| Paging.OffsetWrapsAround | main.go:345 | page 2^62 + 1 of size 4 wraps to offset 0, the same offset as page 1 |

## Left out

- HMAC-SHA256 and the JWT compact encoding are not modelled. A token is its (secret, claims) pair, or a `Malformed` string that validates under no secret. The `alg` header, `nbf` and `iat` claims, and claim values of unexpected JSON types are not modelled either.
- Tokens.Validate, Sessions.Refresh: several strings validate to one (secret, claims) pair, because the JWT library decodes base64 segments non-strictly, so the unused trailing bits of the signature segment may vary. The store compares the raw cookie string (main.go:145) and so matches only the exact string that was issued; such a variant validates but is "Refresh token not found". The model has one string per (secret, claims) pair, so it does not represent these variants.
- bcrypt is not modelled. Password checking is the function parameter `matches(hash, password)`.
- MySQL is not modelled. The tables are an in-memory map and sequence, and database errors are not modelled: login's failed user lookup is "no such user", and refresh's failed role lookup is "empty role".
- A validly signed refresh token whose `username` claim is not a string makes the Go type assertion at main.go:142 panic. This is not representable, because the claim is a string in the model.
- Cookie and JSON plumbing are not modelled: `setTokenCookies`, with max-ages 900 and 604800 seconds, and `respondWithJSON`/`respondWithError`. A response records only its status, message and tokens.
- The file work of the handlers is not modelled: writing an upload's bytes, `downloadHandler`, `deleteHandler`, the listing query, `logFileHistory`, and the decoding, resizing and writing inside `createThumbnail`. These are file-system, image-codec and database side effects. They sit behind the `handler` parameter of `Server.Serve`.
- `toInt`/`toInt64` are not modelled. `page` and `pageSize` arrive already parsed, as 64-bit values. Go's `int` is taken to be 64 bits wide.
- `ParseMultipartForm` and its memory limit are not modelled, and neither is the MySQL error on a negative LIMIT or OFFSET.
- Go's `ServeMux` path cleaning and redirects are not modelled. The route table matches exact paths and the `/static/` prefix.
- Concurrency between handlers is not modelled. Requests are served one at a time, and the refresh delete and insert are one step.
- Uploads.Admit, Uploads.Save: the chosen decoder may still fail on the file's bytes, and then `createThumbnail` returns without a thumbnail (main.go:268-270). The model says which decoder is tried, not whether a thumbnail is written.
- Strings.Lower: `strings.ToLower` is Unicode-aware, the model lowers ASCII letters only. The two agree on whether a string lowers to ".jpg", ".jpeg" or ".png", because the only non-ASCII characters that lower into ASCII become `i` or `k`.
- Uploads.SavedName: the timestamp is a non-negative number of nanoseconds, so the clock is taken to read after 1970.
- Sessions.Login, Sessions.Refresh, RefreshStore.CountMatching, RefreshStore.DeleteUser: SQL `=` on usernames and tokens is taken as exact string equality, that is, a binary collation. MySQL's default `_ci` collations would also match strings that differ in letter case or trailing spaces. The schema is not part of this model.
- Signing errors are not modelled: signing is total, because the code discards its errors.
- The browser scripts under `static/assets/` are not modelled. They are DOM and network code.
