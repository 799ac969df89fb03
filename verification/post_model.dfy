/** The Post document and its embedded comments, with the schema's defaults. */
module PostModel {
  import opened Common

  /** An embedded comment; the schema stores its text under `coment`. */
  datatype Comment = Comment(text: Option<string>, author: Id, createdAt: int, isDelete: bool)

  /** A post. `author` is required, so it is never absent; `likes` maps a
      user id to a boolean, presence of `true` meaning "liked". */
  datatype Post = Post(
    content: Option<string>,
    author: Id,
    image: Option<string>,
    likes: map<Id, bool>,
    comments: seq<Comment>,
    createdAt: int,
    isDelete: bool)

  /** The posts collection, keyed by `_id`. */
  type Posts = map<Id, Post>

  /** A comment as the schema fills it in: stamped now, not deleted. */
  function NewComment(text: Option<string>, author: Id, now: int): Comment {
    Comment(text, author, now, false)
  }

  /** `likes.get(u)` is truthy. */
  predicate Liked(likes: map<Id, bool>, u: Id) {
    u in likes && likes[u]
  }
}
