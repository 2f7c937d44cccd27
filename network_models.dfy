/**
 * The social network's records (network/models.py) and the projections
 * its managers compute over them: the people a user follows, the people
 * following a user, and the usernames of a post's likers. Each projection
 * is a list with one element per matching row, in row order.
 */
module NetworkModels {

  type UserId = nat
  type PostId = nat

  /** `Post.title` is a `CharField(max_length=128)`. */
  const PostTitleMax := 128

  /** One `Post` row (timestamps left out). */
  datatype Post = Post(user: UserId, title: string, contents: string)

  /** `Post.serialize()` without the two formatted dates. */
  datatype PostJson = PostJson(userId: UserId, title: string, contents: string)

  /** One `FollowUser` row: `user` follows `profile`. */
  datatype FollowUser = FollowUser(user: UserId, profile: UserId)

  /** One `Like` row: `user` likes `post`. */
  datatype Like = Like(post: PostId, user: UserId)

  /** No element occurs twice. */
  predicate NoDup<T(==)>(xs: seq<T>)
  {
    forall i, j :: 0 <= i < j < |xs| ==> xs[i] != xs[j]
  }

  /** Distinct usernames: no two users share one. */
  predicate Injective(names: map<UserId, string>)
  {
    forall a, b :: a in names && b in names && a != b ==> names[a] != names[b]
  }

  function Serialize(p: Post): (j: PostJson)
    ensures j.userId == p.user && j.title == p.title && j.contents == p.contents
  {
    PostJson(p.user, p.title, p.contents)
  }

  /** `serialize_following(p)`: the profile of every row whose user is `p`, once per such row. */
  function SerializeFollowing(rows: seq<FollowUser>, p: UserId): (ids: seq<UserId>)
    ensures forall q :: q in ids <==> FollowUser(p, q) in rows
    ensures forall q :: multiset(ids)[q] == multiset(rows)[FollowUser(p, q)]
    ensures |ids| <= |rows|
  {
    if rows == [] then []
    else
      assert rows == [rows[0]] + rows[1..];
      (if rows[0].user == p then [rows[0].profile] else []) + SerializeFollowing(rows[1..], p)
  }

  /** `serialize_followers(p)`: the user of every row whose profile is `p`, once per such row. */
  function SerializeFollowers(rows: seq<FollowUser>, p: UserId): (ids: seq<UserId>)
    ensures forall q :: q in ids <==> FollowUser(q, p) in rows
    ensures forall q :: multiset(ids)[q] == multiset(rows)[FollowUser(q, p)]
    ensures |ids| <= |rows|
  {
    if rows == [] then []
    else
      assert rows == [rows[0]] + rows[1..];
      (if rows[0].profile == p then [rows[0].user] else []) + SerializeFollowers(rows[1..], p)
  }

  /** `b` is among the people `a` follows exactly when `a` is among `b`'s followers. */
  lemma FollowDuality(rows: seq<FollowUser>, a: UserId, b: UserId)
    ensures b in SerializeFollowing(rows, a) <==> a in SerializeFollowers(rows, b)
  {
  }

  /** With at most one row per pair, neither projection repeats an id. */
  lemma {:induction false} ProjectionsDistinct(rows: seq<FollowUser>, p: UserId)
    requires NoDup(rows)
    ensures NoDup(SerializeFollowing(rows, p))
    ensures NoDup(SerializeFollowers(rows, p))
  {
    if rows != [] {
      var tail := rows[1..];
      NoDupTail(rows);
      ProjectionsDistinct(tail, p);
      var hf: seq<UserId> := if rows[0].user == p then [rows[0].profile] else [];
      var tf := SerializeFollowing(tail, p);
      assert SerializeFollowing(rows, p) == hf + tf;
      assert hf != [] ==> hf[0] !in tf;
      ConcatDistinct(hf, tf);
      var hr: seq<UserId> := if rows[0].profile == p then [rows[0].user] else [];
      var tr := SerializeFollowers(tail, p);
      assert SerializeFollowers(rows, p) == hr + tr;
      assert hr != [] ==> hr[0] !in tr;
      ConcatDistinct(hr, tr);
    }
  }

  /** A list of at most one element followed by a distinct list it does not occur in is distinct. */
  lemma ConcatDistinct<T>(h: seq<T>, t: seq<T>)
    requires |h| <= 1 && NoDup(t)
    requires h != [] ==> h[0] !in t
    ensures NoDup(h + t)
  {
    var s := h + t;
    forall i, j | 0 <= i < j < |s| ensures s[i] != s[j] {
      if i < |h| {
        assert s[j] == t[j - 1] && t[j - 1] in t;
      } else {
        assert s[i] == t[i - |h|] && s[j] == t[j - |h|];
      }
    }
  }

  /** The set of elements of a list. */
  function Elems<T>(xs: seq<T>): set<T>
  {
    set x | x in xs
  }

  /** A list without repeats has as many elements as the set of its elements. */
  lemma {:induction false} DistinctLength<T>(xs: seq<T>)
    requires NoDup(xs)
    ensures |Elems(xs)| == |xs|
  {
    if xs != [] {
      var tail := xs[1..];
      NoDupTail(xs);
      DistinctLength(tail);
      assert Elems(xs) == Elems(tail) + {xs[0]};
    }
  }

  /** The rows saying that `p` follows someone. */
  function RowsFrom(rows: seq<FollowUser>, p: UserId): set<FollowUser>
  {
    set r | r in rows && r.user == p
  }

  /** The rows saying that someone follows `p`. */
  function RowsTo(rows: seq<FollowUser>, p: UserId): set<FollowUser>
  {
    set r | r in rows && r.profile == p
  }

  /**
   * With at most one row per pair, `len(following)` is the number of
   * FollowUser rows from `p` and the number of distinct people `p`
   * follows; likewise for the followers.
   */
  lemma FollowingCount(rows: seq<FollowUser>, p: UserId)
    requires NoDup(rows)
    ensures |SerializeFollowing(rows, p)| == |RowsFrom(rows, p)|
    ensures |SerializeFollowers(rows, p)| == |RowsTo(rows, p)|
    ensures |SerializeFollowing(rows, p)| == |Elems(SerializeFollowing(rows, p))|
    ensures |SerializeFollowers(rows, p)| == |Elems(SerializeFollowers(rows, p))|
  {
    ProjectionsDistinct(rows, p);
    DistinctLength(SerializeFollowing(rows, p));
    DistinctLength(SerializeFollowers(rows, p));
    FollowingRowCount(rows, p);
    FollowersRowCount(rows, p);
  }

  lemma {:induction false} FollowingRowCount(rows: seq<FollowUser>, p: UserId)
    requires NoDup(rows)
    ensures |SerializeFollowing(rows, p)| == |RowsFrom(rows, p)|
  {
    if rows != [] {
      NoDupTail(rows);
      FollowingRowCount(rows[1..], p);
      RowsSplit(rows, p);
    }
  }

  lemma {:induction false} FollowersRowCount(rows: seq<FollowUser>, p: UserId)
    requires NoDup(rows)
    ensures |SerializeFollowers(rows, p)| == |RowsTo(rows, p)|
  {
    if rows != [] {
      NoDupTail(rows);
      FollowersRowCount(rows[1..], p);
      RowsSplit(rows, p);
    }
  }

  /** The matching rows of a list are those of its tail plus, when it matches, its head, which the tail lacks. */
  lemma RowsSplit(rows: seq<FollowUser>, p: UserId)
    requires rows != [] && rows[0] !in rows[1..]
    ensures rows[0] !in RowsFrom(rows[1..], p) && rows[0] !in RowsTo(rows[1..], p)
    ensures RowsFrom(rows, p) == RowsFrom(rows[1..], p) + (if rows[0].user == p then {rows[0]} else {})
    ensures RowsTo(rows, p) == RowsTo(rows[1..], p) + (if rows[0].profile == p then {rows[0]} else {})
  {
    assert forall r :: r in rows <==> r == rows[0] || r in rows[1..];
  }

  /** Dropping the head of a list without repeats leaves one without repeats that lacks the head. */
  lemma NoDupTail<T>(xs: seq<T>)
    requires xs != [] && NoDup(xs)
    ensures NoDup(xs[1..]) && xs[0] !in xs[1..]
  {
    var tail := xs[1..];
    forall i, j | 0 <= i < j < |tail| ensures tail[i] != tail[j] {
      assert tail[i] == xs[i + 1] && tail[j] == xs[j + 1];
    }
    forall k | 0 <= k < |tail| ensures tail[k] != xs[0] {
      assert tail[k] == xs[k + 1];
    }
  }

  /** `serialize_likes(post)`: the username of every Like row for `post`. */
  function SerializeLikes(rows: seq<Like>, names: map<UserId, string>, post: PostId): (likers: seq<string>)
    requires forall l :: l in rows ==> l.user in names
    ensures forall u :: u in names && Like(post, u) in rows ==> names[u] in likers
    ensures forall n :: n in likers ==> exists u :: u in names && names[u] == n && Like(post, u) in rows
    ensures |likers| <= |rows|
  {
    if rows == [] then []
    else (if rows[0].post == post then [names[rows[0].user]] else []) + SerializeLikes(rows[1..], names, post)
  }

  /** The Like rows for `post`. */
  function LikeRows(rows: seq<Like>, post: PostId): set<Like>
  {
    set l | l in rows && l.post == post
  }

  /** With at most one Like row per pair, `len(serialize_likes(post))` is the number of Like rows for `post`. */
  lemma {:induction false} LikeCount(rows: seq<Like>, names: map<UserId, string>, post: PostId)
    requires forall l :: l in rows ==> l.user in names
    requires NoDup(rows)
    ensures |SerializeLikes(rows, names, post)| == |LikeRows(rows, post)|
  {
    if rows != [] {
      NoDupTail(rows);
      LikeCount(rows[1..], names, post);
      LikeRowsSplit(rows, post);
    }
  }

  /** The Like rows for `post` in a list are those of its tail plus, when it is for `post`, its head, which the tail lacks. */
  lemma LikeRowsSplit(rows: seq<Like>, post: PostId)
    requires rows != [] && rows[0] !in rows[1..]
    ensures rows[0] !in LikeRows(rows[1..], post)
    ensures LikeRows(rows, post) == LikeRows(rows[1..], post) + (if rows[0].post == post then {rows[0]} else {})
  {
    assert forall l :: l in rows <==> l == rows[0] || l in rows[1..];
  }

  /** With distinct usernames, a username is among the likers exactly when that user has a Like row. */
  lemma LikedByNameIffRow(rows: seq<Like>, names: map<UserId, string>, post: PostId, u: UserId)
    requires forall l :: l in rows ==> l.user in names
    requires Injective(names) && u in names
    ensures names[u] in SerializeLikes(rows, names, post) <==> Like(post, u) in rows
  {
  }
}
