/** The post handlers: creation, the feed and per-user filters, the like
    toggle, comments and soft deletion. The collection applies no order to
    the filtered reads, so they are modelled as sets of post ids. */
module Posts {
  import opened Common
  import opened UserModel
  import opened Notifications
  import opened PostModel

  /** `fetchFindData({ author, isDelete: false })`. */
  function UserPosts(posts: Posts, author: Id): set<Id> {
    set p | p in posts && !posts[p].isDelete && posts[p].author == author
  }

  /** getUserPosts: the requested author's posts that are not soft-deleted. */
  function GetUserPosts(posts: Posts, author: Id): (r: set<Id>)
    ensures forall p :: p in r <==> p in posts && posts[p].author == author && !posts[p].isDelete
  {
    UserPosts(posts, author)
  }

  /** The non-deleted posts whose author is one of `authors`. */
  function PostsBy(posts: Posts, authors: seq<Id>): set<Id> {
    set p | p in posts && !posts[p].isDelete && posts[p].author in authors
  }

  /** getFeedPosts: the non-deleted posts authored by the user or by anyone
      they follow. An unknown user makes `user.followings` throw: 404. */
  function Feed(users: Users, posts: Posts, id: Id): (r: Option<set<Id>>)
    ensures r.Some? <==> id in users
    ensures r.Some? ==> forall p :: p in r.value <==>
              p in posts && !posts[p].isDelete &&
              (posts[p].author == id || posts[p].author in users[id].followings)
  {
    if id in users then Some(PostsBy(posts, users[id].followings + [id])) else None
  }

  /** The union of each author's own posts. */
  function UnionOfUserPosts(posts: Posts, authors: seq<Id>): set<Id> {
    if |authors| == 0 then {} else UserPosts(posts, authors[0]) + UnionOfUserPosts(posts, authors[1..])
  }

  lemma {:induction false} UnionOfUserPostsIsPostsBy(posts: Posts, authors: seq<Id>)
    ensures UnionOfUserPosts(posts, authors) == PostsBy(posts, authors)
  {
    if |authors| > 0 {
      UnionOfUserPostsIsPostsBy(posts, authors[1..]);
      assert forall a :: a in authors <==> a == authors[0] || a in authors[1..];
    }
  }

  /** The feed is the user's own posts together with the posts each
      followed user would see on their own page. */
  lemma FeedIsUnionOfUserPosts(users: Users, posts: Posts, id: Id)
    requires id in users
    ensures Feed(users, posts, id) == Some(UserPosts(posts, id) + UnionOfUserPosts(posts, users[id].followings))
  {
    var fs := users[id].followings;
    UnionOfUserPostsIsPostsBy(posts, fs);
    assert PostsBy(posts, fs + [id]) == UserPosts(posts, id) + PostsBy(posts, fs) by {
      assert forall a :: a in fs + [id] <==> a == id || a in fs;
    }
  }

  /** createPost: a new post by the authenticated user with empty likes and
      no comments; the image URL is set only when a file was uploaded. */
  function CreatePost(posts: Posts, author: Id, description: Option<string>,
                      upload: Option<string>, newId: Id, now: int): (r: (Posts, Post))
    requires newId !in posts
    ensures r.0 == posts[newId := r.1]
    ensures r.1.author == author && r.1.content == description && r.1.image == upload
    ensures r.1.likes == map[] && r.1.comments == [] && !r.1.isDelete
  {
    var p := Post(description, author, upload, map[], [], now, false);
    (posts[newId := p], p)
  }

  /** A freshly created post shows on its author's page and in the feed of
      the author and of every follower. */
  lemma CreatedPostVisible(users: Users, posts: Posts, author: Id, description: Option<string>,
                           upload: Option<string>, newId: Id, now: int, reader: Id)
    requires newId !in posts
    requires reader in users && (reader == author || author in users[reader].followings)
    ensures newId in UserPosts(CreatePost(posts, author, description, upload, newId, now).0, author)
    ensures newId in Feed(users, CreatePost(posts, author, description, upload, newId, now).0, reader).value
  {
  }

  /** `if (likes.get(u)) likes.delete(u) else likes.set(u, true)`. */
  function Toggle(likes: map<Id, bool>, u: Id): (r: map<Id, bool>)
    ensures Liked(likes, u) ==> u !in r
    ensures !Liked(likes, u) ==> Liked(r, u)
    ensures forall k | k != u :: (k in r <==> k in likes) && (k in r ==> r[k] == likes[k])
  {
    if Liked(likes, u) then likes - {u} else likes[u := true]
  }

  /** Toggling twice restores the map exactly when the key was absent or
      held `true`; a stored `false` comes back as an absent key. */
  lemma ToggleTwice(likes: map<Id, bool>, u: Id)
    ensures Toggle(Toggle(likes, u), u) == likes <==> !(u in likes && !likes[u])
    ensures Toggle(Toggle(likes, u), u) == likes - {u} || Toggle(Toggle(likes, u), u) == likes
  {
    var t := Toggle(Toggle(likes, u), u);
    if u in likes && !likes[u] {
      assert u !in t;
    } else if u in likes {
      assert t == likes;
    } else {
      assert t == likes;
    }
  }

  datatype LikeOutcome = LikeOutcome(
    posts: Posts,
    emitted: seq<Notification>,
    status: int,
    candidates: set<Id>)

  /** likePost. A missing post makes `post.likes` throw: 404. A missing
      `userId` is read as no like, and then `likes.set` rejects the
      non-string key and throws before anything is saved: 404. Otherwise the
      like is toggled and a notification to the author is saved only when
      the like is added. The body sent is element 0 of the author's
      non-deleted posts in the collection's unspecified order; `candidates`
      is the set it is taken from, which need not contain the liked post. */
  function LikePost(posts: Posts, id: Id, userId: Option<Id>): (r: LikeOutcome)
    ensures id !in posts || userId.None? ==> r == LikeOutcome(posts, [], NOT_FOUND, {})
    ensures id in posts && userId.Some? ==>
              && r.status == OK
              && r.posts == posts[id := posts[id].(likes := Toggle(posts[id].likes, userId.value))]
              && r.candidates == UserPosts(r.posts, posts[id].author)
              && r.emitted == (if Liked(posts[id].likes, userId.value) then []
                               else [LikeNotice(posts[id].author, userId.value, id)])
  {
    if id !in posts || userId.None? then LikeOutcome(posts, [], NOT_FOUND, {})
    else
      var post := posts[id];
      var u := userId.value;
      var emitted := if Liked(post.likes, u) then [] else [LikeNotice(post.author, u, id)];
      var s := posts[id := post.(likes := Toggle(post.likes, u))];
      LikeOutcome(s, emitted, OK, UserPosts(s, post.author))
  }

  /** Liking twice from a clean state restores every post and saves exactly
      one notification, on the first call. */
  lemma LikeTwiceRestores(posts: Posts, id: Id, userId: Id)
    requires id in posts && userId !in posts[id].likes
    ensures LikePost(LikePost(posts, id, Some(userId)).posts, id, Some(userId)).posts == posts
    ensures LikePost(posts, id, Some(userId)).emitted == [LikeNotice(posts[id].author, userId, id)]
    ensures LikePost(LikePost(posts, id, Some(userId)).posts, id, Some(userId)).emitted == []
  {
    ToggleTwice(posts[id].likes, userId);
    var s := LikePost(posts, id, Some(userId)).posts;
    assert s[id := s[id].(likes := Toggle(s[id].likes, userId))] == posts[id := posts[id]];
    assert posts[id := posts[id]] == posts;
  }

  /** A like changes no post's visibility: every user page is as before. */
  lemma LikeKeepsPages(posts: Posts, id: Id, userId: Option<Id>, author: Id)
    ensures UserPosts(LikePost(posts, id, userId).posts, author) == UserPosts(posts, author)
  {
  }

  datatype CommentOutcome = CommentOutcome(
    posts: Posts,
    emitted: seq<Notification>,
    status: int,
    body: Option<Post>)

  /** postComment. A missing post makes `post.comments` throw: 404. The
      comment goes to the front of the list (newest first) and a comment
      notification to the author is always saved, also when the author
      comments on their own post. A missing commenter makes that
      notification fail its required `friend`: 404 and nothing saved. The
      body is the post re-read by id; `{ isDelete: false }` is passed there
      as a projection, not a filter, so a soft-deleted post is still sent. */
  function PostComment(posts: Posts, id: Id, comment: Option<string>, userId: Option<Id>, now: int): (r: CommentOutcome)
    ensures id !in posts || userId.None? ==> r == CommentOutcome(posts, [], NOT_FOUND, None)
    ensures id in posts && userId.Some? ==>
              && r.status == OK
              && r.posts.Keys == posts.Keys
              && r.posts[id].comments == [NewComment(comment, userId.value, now)] + posts[id].comments
              && r.posts[id] == posts[id].(comments := r.posts[id].comments)
              && (forall p | p in posts && p != id :: r.posts[p] == posts[p])
              && r.emitted == [CommentNotice(posts[id].author, userId.value, id)]
              && r.body == Some(r.posts[id])
  {
    if id !in posts || userId.None? then CommentOutcome(posts, [], NOT_FOUND, None)
    else
      var post := posts[id];
      var saved := post.(comments := [NewComment(comment, userId.value, now)] + post.comments);
      CommentOutcome(posts[id := saved], [CommentNotice(post.author, userId.value, id)], OK, Some(saved))
  }

  /** A comment changes no post's visibility: every user page is as before. */
  lemma CommentKeepsPages(posts: Posts, id: Id, comment: Option<string>, userId: Option<Id>, now: int, author: Id)
    ensures UserPosts(PostComment(posts, id, comment, userId, now).posts, author) == UserPosts(posts, author)
  {
  }

  /** Comments are kept newest first: after two comments the later one
      heads the list, followed by the earlier one and then the older ones. */
  lemma CommentsNewestFirst(posts: Posts, id: Id, c1: Option<string>, u1: Id, t1: int,
                            c2: Option<string>, u2: Id, t2: int)
    requires id in posts
    ensures var s := PostComment(PostComment(posts, id, c1, Some(u1), t1).posts, id, c2, Some(u2), t2).posts;
            s[id].comments == [NewComment(c2, u2, t2), NewComment(c1, u1, t1)] + posts[id].comments
  {
  }

  datatype DeleteOutcome = DeleteOutcome(posts: Posts, visible: set<Id>)

  /** deletePost: set the soft-delete flag, with no check of who asks; an
      unknown id updates nothing. The body is every non-deleted post. */
  function DeletePost(posts: Posts, postId: Id): (r: DeleteOutcome)
    ensures r.posts.Keys == posts.Keys
    ensures postId in posts ==> r.posts[postId] == posts[postId].(isDelete := true)
    ensures forall p | p in posts && p != postId :: r.posts[p] == posts[p]
    ensures forall p :: p in r.visible <==> p in r.posts && !r.posts[p].isDelete
  {
    var s := if postId in posts then posts[postId := posts[postId].(isDelete := true)] else posts;
    DeleteOutcome(s, set p | p in s && !s[p].isDelete)
  }

  /** After a delete the record is still stored but no longer appears on any
      user page or in any feed; deleting again changes nothing. */
  lemma DeleteHides(users: Users, posts: Posts, postId: Id, author: Id, reader: Id)
    requires postId in posts
    ensures postId in DeletePost(posts, postId).posts
    ensures postId !in UserPosts(DeletePost(posts, postId).posts, author)
    ensures reader in users ==> postId !in Feed(users, DeletePost(posts, postId).posts, reader).value
    ensures DeletePost(DeletePost(posts, postId).posts, postId) == DeletePost(posts, postId)
  {
    var s := DeletePost(posts, postId).posts;
    assert s[postId := s[postId].(isDelete := true)] == s;
  }
}
