/**
 * The `refresh_tokens` table as an in-memory sequence of rows, with the three
 * statements the session code issues against it: the existence count, the
 * per-user delete and the insert.
 */
module RefreshStore {
  import opened Tokens

  /** One row: the user, the refresh token string, and its expiry (Unix seconds). */
  datatype Row = Row(username: string, token: Token, expiresAt: int)

  type Store = seq<Row>

  /** Some row pairs this user with exactly this token. */
  predicate Holds(s: Store, username: string, token: Token)
  {
    exists r :: r in s && r.username == username && r.token == token
  }

  /** `SELECT COUNT(*) FROM refresh_tokens WHERE username = ? AND token = ?`. */
  function CountMatching(s: Store, username: string, token: Token): (n: nat)
    ensures n > 0 <==> Holds(s, username, token)
    ensures n <= |s|
  {
    if s == [] then 0
    else
      assert forall r :: r in s <==> r == s[0] || r in s[1..];
      (if s[0].username == username && s[0].token == token then 1 else 0)
        + CountMatching(s[1..], username, token)
  }

  /** `DELETE FROM refresh_tokens WHERE username = ?`: every row of the user goes, the rest keep their order. */
  function DeleteUser(s: Store, username: string): (r: Store)
    ensures forall row :: row in r <==> row in s && row.username != username
    ensures |r| <= |s|
  {
    if s == [] then []
    else
      assert forall row :: row in s <==> row == s[0] || row in s[1..];
      (if s[0].username == username then [] else [s[0]]) + DeleteUser(s[1..], username)
  }

  /** The rows belonging to one user, in store order (a view used to state properties). */
  function RowsOf(s: Store, username: string): (r: Store)
    ensures forall row :: row in r <==> row in s && row.username == username
  {
    if s == [] then []
    else
      assert forall row :: row in s <==> row == s[0] || row in s[1..];
      (if s[0].username == username then [s[0]] else []) + RowsOf(s[1..], username)
  }

  /** Delete every row of the new row's user, then insert the new row: the refresh rotation. */
  function Rotate(s: Store, row: Row): (r: Store)
    ensures forall x :: x in r <==> x == row || (x in s && x.username != row.username)
    ensures |r| <= |s| + 1
  {
    DeleteUser(s, row.username) + [row]
  }

  lemma {:induction false} RowsOfConcat(a: Store, b: Store, username: string)
    ensures RowsOf(a + b, username) == RowsOf(a, username) + RowsOf(b, username)
  {
    if a == [] {
      assert a + b == b;
    } else {
      assert (a + b)[0] == a[0];
      assert (a + b)[1..] == a[1..] + b;
      RowsOfConcat(a[1..], b, username);
    }
  }

  /** Deleting one user's rows empties that user's view and leaves every other user's view as it was. */
  lemma {:induction false} RowsOfDeleteUser(s: Store, deleted: string, username: string)
    ensures RowsOf(DeleteUser(s, deleted), username) == if deleted == username then [] else RowsOf(s, username)
  {
    if s != [] {
      var head: Store := if s[0].username == deleted then [] else [s[0]];
      RowsOfConcat(head, DeleteUser(s[1..], deleted), username);
      RowsOfDeleteUser(s[1..], deleted, username);
      assert RowsOf(head, username) == if s[0].username == deleted || s[0].username != username then [] else [s[0]];
    }
  }

  /** Appending a row only adds it to its own user's view. */
  lemma RowsOfAppend(s: Store, row: Row, username: string)
    ensures RowsOf(s + [row], username) == RowsOf(s, username) + (if row.username == username then [row] else [])
  {
    RowsOfConcat(s, [row], username);
  }

  /** After rotation the user holds exactly the new row; every other user's rows are untouched. */
  lemma RotationLeavesOneRow(s: Store, row: Row)
    ensures RowsOf(Rotate(s, row), row.username) == [row]
    ensures forall username :: username != row.username ==> RowsOf(Rotate(s, row), username) == RowsOf(s, username)
  {
    RowsOfAppend(DeleteUser(s, row.username), row, row.username);
    RowsOfDeleteUser(s, row.username, row.username);
    forall username | username != row.username
      ensures RowsOf(Rotate(s, row), username) == RowsOf(s, username)
    {
      RowsOfAppend(DeleteUser(s, row.username), row, username);
      RowsOfDeleteUser(s, row.username, username);
    }
  }

}
