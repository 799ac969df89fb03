/** The Notification documents the follow, like and comment handlers create. */
module Notifications {
  import opened Common

  /** `tag` is the stored `type` string (the comment one is capitalised),
      `user` the recipient, `friend` the actor, `postId` the post concerned. */
  datatype Notification = Notification(
    tag: string, user: Id, friend: Id, postId: Option<Id>, content: string)

  function FollowNotice(user: Id, friend: Id): Notification {
    Notification("follow", user, friend, None, "Started Following You")
  }

  function LikeNotice(user: Id, friend: Id, post: Id): Notification {
    Notification("like", user, friend, Some(post), "Liked your post")
  }

  function CommentNotice(user: Id, friend: Id, post: Id): Notification {
    Notification("Comment", user, friend, Some(post), "commented on your post")
  }
}
