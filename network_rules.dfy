/**
 * The rules of the social network's views (network/views.py) that do
 * not depend on the store: the existence-check-then-flip toggle used by
 * follow and like, and the input checks of `register` and `new_post`.
 */
module NetworkRules {
  import opened Wrappers
  import opened NetworkModels

  /** `xs` with every occurrence of `x` removed, the rest in order. */
  function Without<T(==)>(xs: seq<T>, x: T): (r: seq<T>)
    ensures forall y :: y in r ==> y in xs && y != x
    ensures forall y :: y in xs && y != x ==> y in r
    ensures x !in xs ==> r == xs
  {
    if xs == [] then []
    else (if xs[0] == x then [] else [xs[0]]) + Without(xs[1..], x)
  }

  /** Delete the row if it exists, otherwise create it at the end. */
  function Toggle<T(==)>(rows: seq<T>, row: T): (r: seq<T>)
  {
    if row in rows then Without(rows, row) else rows + [row]
  }

  /** Toggling flips the toggled row's presence and no other row's. */
  lemma ToggleFlips<T>(rows: seq<T>, row: T, other: T)
    ensures row in Toggle(rows, row) <==> row !in rows
    ensures other != row ==> (other in Toggle(rows, row) <==> other in rows)
  {
  }

  lemma {:induction false} WithoutKeepsNoDup<T>(xs: seq<T>, x: T)
    requires NoDup(xs)
    ensures NoDup(Without(xs, x))
    ensures multiset(Without(xs, x)) == multiset(xs)[x := 0]
  {
    if xs != [] {
      var tail := xs[1..];
      assert xs == [xs[0]] + tail;
      NoDupTail(xs);
      WithoutKeepsNoDup(tail, x);
      var h: seq<T> := if xs[0] == x then [] else [xs[0]];
      assert Without(xs, x) == h + Without(tail, x);
      ConcatDistinct(h, Without(tail, x));
    }
  }

  /** In a list without repeats an element occurs at most once. */
  lemma {:induction false} NoDupCount<T>(xs: seq<T>, x: T)
    requires NoDup(xs)
    ensures multiset(xs)[x] <= 1
  {
    if xs != [] {
      var tail := xs[1..];
      assert xs == [xs[0]] + tail;
      NoDupTail(xs);
      NoDupCount(tail, x);
    }
  }

  /** Toggling keeps at most one row per pair. */
  lemma ToggleKeepsNoDup<T>(rows: seq<T>, row: T)
    requires NoDup(rows)
    ensures NoDup(Toggle(rows, row))
  {
    if row in rows {
      WithoutKeepsNoDup(rows, row);
    } else {
      var r := rows + [row];
      forall i, j | 0 <= i < j < |r| ensures r[i] != r[j] {
        if j == |rows| {
          assert r[i] == rows[i] && rows[i] in rows;
        }
      }
    }
  }

  /** Toggling twice restores the same rows; when the row was absent, in the same order. */
  lemma ToggleTwice<T>(rows: seq<T>, row: T)
    requires NoDup(rows)
    ensures multiset(Toggle(Toggle(rows, row), row)) == multiset(rows)
    ensures row !in rows ==> Toggle(Toggle(rows, row), row) == rows
  {
    if row in rows {
      WithoutKeepsNoDup(rows, row);
      NoDupCount(rows, row);
      assert multiset(rows)[row] == 1;
      assert row !in Without(rows, row);
      assert Toggle(Toggle(rows, row), row) == Without(rows, row) + [row];
      assert multiset(rows)[row := 0] + multiset{row} == multiset(rows);
    } else {
      assert row in rows + [row];
      WithoutAppend(rows, row);
    }
  }

  lemma {:induction false} WithoutAppend<T>(xs: seq<T>, x: T)
    requires x !in xs
    ensures Without(xs + [x], x) == xs
  {
    if xs != [] {
      assert (xs + [x])[1..] == xs[1..] + [x];
      WithoutAppend(xs[1..], x);
    } else {
      assert Without([x], x) == [] + Without([], x);
    }
  }

  /** `register`'s checks, in order, before any user is created: the message shown, or None when all pass. */
  function RegisterCheck(username: string, email: string, password: string, confirmation: string): (r: Option<string>)
    ensures r.None? <==> username != "" && email != "" && password != "" && confirmation != "" && password == confirmation
    ensures username == "" ==> r == Some("Username cannot be empty.")
    ensures username != "" && email == "" ==> r == Some("Email cannot be empty.")
    ensures username != "" && email != "" && (password == "" || confirmation == "") ==> r == Some("Password cannot be empty.")
    ensures r == Some("Passwords must match.") <==>
              username != "" && email != "" && password != "" && confirmation != "" && password != confirmation
  {
    if username == "" then Some("Username cannot be empty.")
    else if email == "" then Some("Email cannot be empty.")
    else if password == "" || confirmation == "" then Some("Password cannot be empty.")
    else if password != confirmation then Some("Passwords must match.")
    else None
  }

  /** `new_post`'s check: both fields must be non-empty (not stripped). */
  function NewPostCheck(title: string, contents: string): (r: Option<string>)
    ensures r.None? <==> title != "" && contents != ""
    ensures r.Some? ==> r.value == "Fields cannot be empty!"
  {
    if title == "" || contents == "" then Some("Fields cannot be empty!") else None
  }
}
