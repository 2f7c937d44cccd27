/**
 * The social network's views (network/views.py) over an in-memory store:
 * posts (a post's id is its position), FollowUser rows and Like rows,
 * plus the registered users' usernames. `actor` is the requesting user,
 * None when anonymous; an authenticated user is always registered.
 */
module NetworkViews {
  import opened Wrappers
  import opened NetworkModels
  import opened NetworkRules

  /** The body of the follow GET response. */
  datatype FollowResponse = FollowResponse(
    following: seq<UserId>,
    followers: seq<UserId>,
    isFollowing: Option<bool>,   // present only when `user_logged_in` is true
    userLoggedIn: bool)

  /** The body of the like GET response. */
  datatype LikeResponse = LikeResponse(likeCount: nat, isLiked: bool, likedBy: seq<string>)

  datatype NetworkError =
    | Message(text: string)  // a JSON `error` field or a re-rendered form message
    | PostNotFound           // `Post.objects.get` raises DoesNotExist
    | UserNotFound           // `User.objects.get(username=...)` raises DoesNotExist
    | AnonymousLookup        // the follow PUT queries with an anonymous user and fails

  const NotAuthorised := "You are not authorised for this action."
  const NoSuchPost := "Post does not exist."
  const MustLogIn := "You must log in to like a post!"

  class Network {
    const usernames: map<UserId, string>
    var posts: seq<Post>
    var follows: seq<FollowUser>
    var likes: seq<Like>

    ghost predicate Valid()
      reads this
    {
      && Injective(usernames)
      && NoDup(follows)
      && NoDup(likes)
      && (forall f :: f in follows ==> f.user in usernames && f.profile in usernames)
      && (forall l :: l in likes ==> l.user in usernames)
    }

    /** An authenticated request comes from a registered user. */
    predicate Known(actor: Option<UserId>)
    {
      actor.Some? ==> actor.value in usernames
    }

    constructor (usernames: map<UserId, string>)
      requires Injective(usernames)
      ensures Valid() && this.usernames == usernames
      ensures posts == [] && follows == [] && likes == []
    {
      this.usernames := usernames;
      posts := [];
      follows := [];
      likes := [];
    }

    /** `new_post` (POST): a post by `actor`, unless a field is empty. */
    method NewPost(actor: UserId, title: string, contents: string) returns (r: Result<PostId, NetworkError>)
      requires Valid()
      modifies this
      ensures Valid()
      ensures follows == old(follows) && likes == old(likes)
      ensures NewPostCheck(title, contents).Some? ==>
                r == Err(Message(NewPostCheck(title, contents).value)) && posts == old(posts)
      ensures NewPostCheck(title, contents).None? ==>
                r == Ok(|old(posts)|) && posts == old(posts) + [Post(actor, title, contents)]
    {
      match NewPostCheck(title, contents)
      case Some(m) =>
        r := Err(Message(m));
      case None =>
        posts := posts + [Post(actor, title, contents)];
        r := Ok(|posts| - 1);
    }

    /**
     * `follow` (GET): an unknown profile is an error; otherwise both lists,
     * and `is_following` only for a signed-in user other than the profile.
     */
    function FollowGet(actor: Option<UserId>, profile: UserId): (r: Result<FollowResponse, NetworkError>)
      reads this
      ensures r.Err? <==> profile !in usernames
      ensures r.Err? ==> r.error == UserNotFound
      ensures r.Ok? ==> r.value.following == SerializeFollowing(follows, profile)
      ensures r.Ok? ==> r.value.followers == SerializeFollowers(follows, profile)
      ensures r.Ok? ==> (r.value.userLoggedIn <==> actor.Some? && actor.value != profile)
      ensures r.Ok? ==> (r.value.isFollowing.Some? <==> r.value.userLoggedIn)
      ensures r.Ok? && r.value.isFollowing.Some? ==>
                (r.value.isFollowing.value <==> FollowUser(actor.value, profile) in follows)
    {
      if profile !in usernames then Err(UserNotFound)
      else
        var following := SerializeFollowing(follows, profile);
        var followers := SerializeFollowers(follows, profile);
        if actor.Some? && actor.value != profile then
          Ok(FollowResponse(following, followers, Some(FollowUser(actor.value, profile) in follows), true))
        else
          Ok(FollowResponse(following, followers, None, false))
    }

    /**
     * `follow` (PUT): an unknown profile is an error; otherwise delete the
     * (actor, profile) row if it exists, else create it, and report the new state.
     */
    method FollowPut(actor: Option<UserId>, profile: UserId) returns (r: Result<bool, NetworkError>)
      requires Valid() && Known(actor)
      modifies this
      ensures Valid()
      ensures posts == old(posts) && likes == old(likes)
      ensures profile !in usernames ==> r == Err(UserNotFound) && follows == old(follows)
      ensures profile in usernames && actor.None? ==> r == Err(AnonymousLookup) && follows == old(follows)
      ensures profile in usernames && actor.Some? ==>
                && follows == Toggle(old(follows), FollowUser(actor.value, profile))
                && r == Ok(FollowUser(actor.value, profile) in follows)
                && r == Ok(FollowUser(actor.value, profile) !in old(follows))
    {
      if profile !in usernames {
        return Err(UserNotFound);
      }
      if actor.None? {
        return Err(AnonymousLookup);
      }
      var row := FollowUser(actor.value, profile);
      ToggleKeepsNoDup(follows, row);
      ToggleFlips(follows, row, row);
      if row in follows {
        follows := Without(follows, row);
        r := Ok(false);
      } else {
        follows := follows + [row];
        r := Ok(true);
      }
    }

    /** `edit` (GET): the post to pre-fill the form, for its author only. */
    function EditGet(actor: Option<UserId>, id: PostId): (r: Result<PostJson, NetworkError>)
      reads this
      ensures id >= |posts| ==> r == Err(PostNotFound)
      ensures id < |posts| ==> (r.Ok? <==> actor == Some(posts[id].user))
      ensures r.Ok? ==> r.value == Serialize(posts[id])
      ensures id < |posts| && r.Err? ==> r == Err(Message(NotAuthorised))
    {
      if id >= |posts| then Err(PostNotFound)
      else if actor != Some(posts[id].user) then Err(Message(NotAuthorised))
      else Ok(Serialize(posts[id]))
    }

    /** `edit` (POST): the author's new title and contents replace the old ones exactly; nobody else may edit. */
    method EditPost(actor: Option<UserId>, id: PostId, title: string, contents: string)
      returns (r: Result<PostJson, NetworkError>)
      requires Valid()
      modifies this
      ensures Valid()
      ensures follows == old(follows) && likes == old(likes)
      ensures id >= |old(posts)| ==> r == Err(PostNotFound) && posts == old(posts)
      ensures id < |old(posts)| && actor != Some(old(posts)[id].user) ==>
                r == Err(Message(NotAuthorised)) && posts == old(posts)
      ensures id < |old(posts)| && actor == Some(old(posts)[id].user) ==>
                && posts == old(posts)[id := Post(old(posts)[id].user, title, contents)]
                && r == Ok(PostJson(actor.value, title, contents))
    {
      if id >= |posts| {
        return Err(PostNotFound);
      }
      var post := posts[id];
      if actor != Some(post.user) {
        return Err(Message(NotAuthorised));
      }
      post := post.(title := title, contents := contents);
      posts := posts[id := post];
      r := Ok(Serialize(post));
    }

    /** `like` (GET): the number of likes, whether `actor` is among the likers, and their usernames. */
    function LikeGet(actor: Option<UserId>, id: PostId): (r: Result<LikeResponse, NetworkError>)
      requires Valid() && Known(actor)
      reads this
      ensures id >= |posts| <==> r == Err(Message(NoSuchPost))
      ensures r.Ok? ==> r.value.likedBy == SerializeLikes(likes, usernames, id)
      ensures r.Ok? ==> r.value.likeCount == |r.value.likedBy| == |LikeRows(likes, id)|
      ensures r.Ok? ==> (r.value.isLiked <==> actor.Some? && Like(id, actor.value) in likes)
    {
      if id >= |posts| then Err(Message(NoSuchPost))
      else
        var likers := SerializeLikes(likes, usernames, id);
        LikeCount(likes, usernames, id);
        if actor.Some? then
          LikedByNameIffRow(likes, usernames, id, actor.value);
          Ok(LikeResponse(|likers|, usernames[actor.value] in likers, likers))
        else Ok(LikeResponse(|likers|, false, likers))
    }

    /** `like` (PUT): a signed-in user's like of an existing post is flipped; `post_liked` is the new state. */
    method LikePut(actor: Option<UserId>, id: PostId) returns (r: Result<bool, NetworkError>)
      requires Valid() && Known(actor)
      modifies this
      ensures Valid()
      ensures posts == old(posts) && follows == old(follows)
      ensures id >= |posts| ==> r == Err(Message(NoSuchPost)) && likes == old(likes)
      ensures id < |posts| && actor.None? ==> r == Err(Message(MustLogIn)) && likes == old(likes)
      ensures id < |posts| && actor.Some? ==>
                && likes == Toggle(old(likes), Like(id, actor.value))
                && r == Ok(Like(id, actor.value) in likes)
    {
      if id >= |posts| {
        return Err(Message(NoSuchPost));
      }
      var likers := SerializeLikes(likes, usernames, id);
      if actor.None? {
        return Err(Message(MustLogIn));
      }
      var user := actor.value;
      var row := Like(id, user);
      LikedByNameIffRow(likes, usernames, id, user);
      ToggleKeepsNoDup(likes, row);
      ToggleFlips(likes, row, row);
      if usernames[user] in likers {
        likes := Without(likes, row);
        r := Ok(false);
      } else {
        likes := likes + [row];
        r := Ok(true);
      }
    }
  }

  /** A follow GET right after a follow PUT by the same user reports what the PUT returned. */
  lemma FollowGetAgreesWithPut(rows: seq<FollowUser>, actor: UserId, profile: UserId)
    ensures var after := Toggle(rows, FollowUser(actor, profile));
      && (actor in SerializeFollowers(after, profile) <==> FollowUser(actor, profile) !in rows)
      && (profile in SerializeFollowing(after, actor) <==> FollowUser(actor, profile) !in rows)
  {
    ToggleFlips(rows, FollowUser(actor, profile), FollowUser(actor, profile));
  }
}
