# socialelite_server — a Dafny model of its core

This project models the server side of a small social network (Express + Mongoose + socket.io):

- **Follow graph** (`controllers/users.js`). It covers follow, follow-back and unfollow on the
  `followers`/`followings` arrays of the User model. It also covers suggestions, follower and
  following counts, and profile updates (trimmed fields and an optional password change).
- **Posts** (`controllers/posts.js`, `models/post.js`). It covers creating a post, the feed
  (own posts plus followed authors' posts), a user's page, like toggling with its
  notification, comments with their notification, and soft deletion.
- **Presence registry** (`index.js`). This is the in-memory list of `{urId, socketId}` entries
  that socket.io events `addUser`, `sendMessage` and `disconnect` act on.
- **Conversations** (`controllers/conversation.js`). It covers get-or-create of a two-member
  conversation, and listing the conversations a user belongs to.
- **Auth** (`controllers/auth.js`, `models/User.js`). It covers the registration validators and
  conflict checks, OTP email verification, forgot/reset password with the reset validators,
  and Google sign-in.

The model is functional:

- The users and posts collections are maps from id to record (`Users`, `Posts`).
- Conversations and presence entries are sequences in insertion order.
- Every handler is a pure function from the state and the request to an outcome. The outcome
  holds the new state, the notifications it emits, the HTTP status and the reply.
- Mongoose semantics that matter are written out:
  - `save()` on a loaded document writes only the paths that changed;
  - `required` and `unique` schema fields are enforced by `UserModel.Save`;
  - the second argument of `fetchFindByIdData` is a projection, not a filter.
- The `express-validator` chains report every failing validator, in chain order.
- bcrypt is modelled as an abstract digest: `Hash(s)` is a `Digest`, and `compare` is
  `Matches(plain, d)`, which holds iff `Hash(plain) == d`.
- Fresh ObjectIds, the OTP, the random reset text, the uploaded picture URL, the `isEmail`
  verdict, the verified Google payload and the clock are parameters.

The model follows the code in these details, which a reader might not expect:

- `followFriend`, `followBackFriend` and `unFollowFriend` check the friend first and persist
  the friend's change before they check that the acting user exists. A missing actor
  therefore yields 400 *after* the friend's `followers` array has been written.
- The suggestions query excludes exactly `followings ∪ {id}`. It is the same in every handler
  that computes it.
- Unfollow removes only the first occurrence (`indexOf` + `splice`).
- `createConverstation` matches with `$all`. Any stored conversation whose members include
  both ids is returned, including a larger group. The first such conversation in storage
  order is returned.
- `resetPassword` never deletes the reset token, and the token model has no expiry. After one
  successful `forgotpassword`, every later request for that user is refused
  (`Auth.ForgotLockedAfterReset`).
- An unfollow of oneself, by a user who follows themself, answers 500 with half of its writes
  applied. `user` and `friend` are two loaded copies of one document. A `splice` makes
  Mongoose `$set` the whole array under a `__v` version check, so the second save fails with
  a VersionError. The self-edge then stays on the `followings` side only, which is the one
  case where an unfollow breaks the mutual graph (`FollowGraph.UnfollowPreservesGraph`). A
  self-follow uses `$push`, which is not version-checked, so it completes.
- `likePost` with no `userId` in the body answers 404 and saves nothing. Mongoose maps
  accept only string keys.

## Model

| member | source | states |
|---|---|---|
| Seqs.IndexOf | controllers/users.js:182 | the index found holds the value and no earlier position does |
| Seqs.RemoveFirst | controllers/users.js:181-183 | an absent value leaves the array unchanged; otherwise the result is one shorter and its multiset is the input's minus one copy of the value |
| Seqs.RemoveFirstKeepsOrder | controllers/users.js:181-183 | splicing out the first occurrence keeps the other elements in their original order |
| Seqs.RemoveFirstOfAppended | controllers/users.js:181-194 | removing a value that was just pushed onto an array not holding it gives back the original array |
| Seqs.AppendNoDup | controllers/users.js:122-123 | pushing a value only when it is absent keeps an array duplicate-free |
| Seqs.RemoveFirstNoDup | controllers/users.js:181-183 | on a duplicate-free array, splicing removes the value completely and keeps every other element |
| Seqs.DistinctCard | controllers/users.js:11-16 | a duplicate-free array has as many elements as its set of ids, which is what a count of matching documents sees |
| Text.Trim | controllers/users.js:301-304 | the result is the infix of the input with every leading and trailing ECMAScript white-space or line-terminator removed; it is empty iff the input is all white space |
| Text.TrimIdempotent | controllers/users.js:301-304 | trimming an already trimmed string changes nothing |
| UserModel.NewUser | models/User.js:22-33 | the given fields are kept; an absent picture defaults to the empty string and absent follow arrays to empty arrays; the verified flag starts cleared |
| UserModel.Save | models/User.js:5-18 | a save succeeds iff username and email are non-empty and neither clashes with another user's; on success exactly that record is stored; uniqueness of usernames and emails is preserved |
| UserModel.FindByEmail | controllers/auth.js:212 | with unique emails, the user found has that email, and none is found iff no user has it |
| FollowGraph.Hydrate | controllers/users.js:141-155 | ids map in order to their users' `{_id, username, name, picturePath}`; a dangling id makes the whole lookup fail (the destructuring throws) |
| FollowGraph.FollowingCount | controllers/users.js:11-13 | the following count is at most the number of users, and zero iff no user lists the id among their followers |
| FollowGraph.FollowersCount | controllers/users.js:14-16 | the followers count is at most the number of users, and zero iff no user lists the id among their followings |
| FollowGraph.GetSuggestions | controllers/users.js:54-64 | there is an answer iff the user exists; a user is suggested iff they exist, are not the caller and are not in the caller's `followings` |
| FollowGraph.Respond | controllers/users.js:141-166 | building the reply changes neither the users nor the notifications; 200 iff both id lists hydrate, else 500; on 200 the reply holds the two hydrated lists, the reloaded user, and suggestions exactly when the handler computes them, equal to the suggestions handler's answer |
| FollowGraph.Follow | controllers/users.js:113-170 | a missing friend gives 400 with nothing changed; a missing actor gives 400 after the friend's write; the actor is appended to the friend's `followers` and the friend to the actor's `followings` only when absent; one "Started Following You" notice iff the actor was newly appended; no other record or field changes; when both exist, the reply is the one built from the updated followings and the followers as loaded before the write (so a self-follow shows the stale list): 200 with both hydrated lists and the reloaded user, or 500 when an id does not resolve |
| FollowGraph.FollowBack | controllers/users.js:229-284 | the same writes and statuses as follow, and never a notification; when both exist, the same reply as follow plus the suggestions |
| FollowGraph.UnlinkWrites | controllers/users.js:177-194 | only the friend's `followers` and the actor's `followings` change, each losing the first occurrence of the other id |
| FollowGraph.Unfollow | controllers/users.js:172-227 | a missing friend gives 400 with nothing changed; otherwise the first occurrence of each id is spliced from the other's array, with the same missing-actor order as follow, and no notification; a user listed in both of their own arrays who unfollows themself gets 500 with only the followers splice written; otherwise, when both exist, the reply is built from the spliced followings and the loaded followers, with the suggestions |
| FollowGraph.FollowIdempotent | controllers/users.js:122-139 | following twice leaves the same users as following once, and the second call emits nothing |
| FollowGraph.FollowUnfollowRoundTrip | controllers/users.js:181-194 | for two different users with neither link present, unfollow after follow restores every user record exactly |
| FollowGraph.UnfollowUndoesAppend | controllers/users.js:181-194 | for two different users, splicing out two freshly pushed ids restores the users they were pushed onto |
| FollowGraph.FollowPreservesGraph | controllers/users.js:122-139 | follow keeps the graph mutual (a in b's followers iff b in a's followings) and duplicate-free |
| FollowGraph.UnfollowPreservesGraph | controllers/users.js:172-194 | unfollow keeps the graph mutual and duplicate-free iff it is not a self-following user unfollowing themself (that case's failed second save leaves a one-sided edge) |
| FollowGraph.CountsMatchOwnArrays | controllers/users.js:11-16 | on a mutual, duplicate-free graph without dangling ids, the two counts equal the lengths of the user's own `followings` and `followers` |
| FollowGraph.SuggestionsAfterFollow | controllers/users.js:57-59 | after a follow between existing users, the suggestions are the previous ones minus the friend |
| FollowGraph.SuggestionsAfterUnfollow | controllers/users.js:210-212 | after unfollowing a different user on a mutual, duplicate-free graph, that user is suggested again |
| ProfileUpdate.Merged | controllers/users.js:301-304 | merging the text fields never touches the password or the `followers`/`followings` arrays |
| ProfileUpdate.ChangePassword | controllers/users.js:305-325 | no old password leaves the user as is; a missing stored password gives 404 (bcrypt throws); a mismatch gives 400; new different from confirm gives 400; a missing confirmation gives 404; otherwise the password becomes the hash of the confirmation |
| ProfileUpdate.Commit | controllers/users.js:321-325 | 200 with exactly the updated record stored iff the save succeeds; otherwise 404 with nothing changed; uniqueness is preserved |
| ProfileUpdate.UpdateUser | controllers/users.js:286-327 | no reply for an unknown user; 404 for a missing body field; state changes only on 200; each stored field is the trimmed input when non-blank, else the old value; a password change happens only after a matching old password with equal new and confirm; 400 exactly for a bad old password or a confirm mismatch; username/email uniqueness is preserved; a form whose password step succeeds and whose record passes the save checks is stored and answered 200 with that record; a missing stored password or a missing confirmation gives 404 with nothing changed, and so does a username or email clash on save |
| ProfileUpdate.BlankUpdateKeepsUser | controllers/users.js:301-304 | an update whose fields are all blank or white space and carries no old password stores the same user again |
| ProfileUpdate.UpdateIdempotent | controllers/users.js:299-322 | without a password change, a form whose merged record passes the save checks is answered 200 with that record; sending any such form twice leaves the same state as sending it once |
| ProfileUpdate.MergedTwice | controllers/users.js:301-304 | merging the same form twice equals merging it once |
| Posts.GetUserPosts | controllers/posts.js:59-68 | a post is listed iff its author is the user and it is not deleted |
| Posts.Feed | controllers/posts.js:41-57 | there is a feed iff the user exists; a post is in it iff it is not deleted and its author is the user or one of their followings |
| Posts.UnionOfUserPostsIsPostsBy | controllers/posts.js:46-51 | the union of each author's page equals the `$in` query over those authors |
| Posts.FeedIsUnionOfUserPosts | controllers/posts.js:41-68 | the feed is exactly the union of the user's own page and the pages of everyone they follow |
| Posts.CreatePost | controllers/posts.js:11-38 | the new post is stored under a fresh id with the given author, content and image, no likes, no comments, not deleted; no other post changes |
| Posts.CreatedPostVisible | controllers/posts.js:16-51 | a freshly created post appears on its author's page and in the feed of the author and of every follower |
| Posts.Toggle | controllers/posts.js:76-81 | a truthy like is deleted; otherwise the like is set to true; other users' likes are untouched |
| Posts.ToggleTwice | controllers/posts.js:76-81 | toggling twice restores the likes map unless it held an explicit `false` for that user |
| Posts.LikePost | controllers/posts.js:71-106 | an unknown post or a missing `userId` gives 404 with nothing changed; otherwise the like is toggled, a "Liked your post" notice goes to the author only when a like is added, and the reply is drawn from the author's visible posts |
| Posts.LikeTwiceRestores | controllers/posts.js:76-96 | liking twice restores the posts when no explicit `false` was stored, with exactly one notification in total |
| Posts.LikeKeepsPages | controllers/posts.js:92-100 | liking changes no page or feed membership |
| Posts.PostComment | controllers/posts.js:109-134 | an unknown post or a missing commenter gives 404 with nothing saved; otherwise the comment is prepended, a "commented on your post" notice goes to the author, and the post is returned even when soft-deleted |
| Posts.CommentKeepsPages | controllers/posts.js:109-134 | commenting changes no page or feed membership |
| Posts.CommentsNewestFirst | controllers/posts.js:114 | after two comments the later one heads the list, then the earlier one, then the older ones |
| Posts.DeletePost | controllers/posts.js:136-145 | the post is flagged deleted and kept; the reply is exactly the set of non-deleted posts; an unknown id changes nothing |
| Posts.DeleteHides | controllers/posts.js:139-140 | after deletion the record still exists but is on no page and in no feed, and deleting again changes nothing |
| Presence.AddUser | index.js:59-62 | a user already online keeps their first socket; otherwise one entry is appended; at most one entry per user is preserved |
| Presence.RemoveUser | index.js:64-66 | an entry survives iff its socket id differs from the disconnected one |
| Presence.RemoveUserAppend | index.js:64-66 | filtering distributes over concatenation |
| Presence.RemoveUnknownSocket | index.js:64-66 | removing a socket id nobody holds leaves the list unchanged |
| Presence.RemoveUserKeepsOnePerUser | index.js:64-66 | disconnecting keeps at most one entry per user |
| Presence.GetUser | index.js:68-70 | there is an answer iff the user is online, and it is that user's first entry |
| Presence.Step | index.js:72-95 | `addUser` leaves the list `AddUser` makes and `disconnect` the list `RemoveUser` makes, each broadcast to everyone; a message leaves the list unchanged and is delivered to the receiver's first socket only if they are online |
| Presence.StepKeepsOnePerUser | index.js:72-95 | every event keeps at most one entry per user |
| Presence.RunKeepsOnePerUser | index.js:57-95 | any sequence of events keeps at most one entry per user |
| Presence.SecondTabGoesUnseen | index.js:59-94 | a second socket for the same user is ignored, and closing the first socket leaves the user offline although the second socket is still open |
| Conversations.FindPair | controllers/conversation.js:9-11 | there is an answer iff some conversation's members include both ids, and it is the first such one |
| Conversations.GetOrCreate | controllers/conversation.js:3-29 | an existing match is returned with nothing changed; otherwise a new conversation `[id, friendId]` is appended and returned |
| Conversations.GetOrCreateStable | controllers/conversation.js:9-15 | calling again with the same pair, in either order, returns the same conversation and adds nothing |
| Conversations.FindPairSymmetric | controllers/conversation.js:10 | the `$all` match does not depend on the order of the two ids |
| Conversations.GetOrCreateKeepsOnePerPair | controllers/conversation.js:9-24 | if no pair was held by two conversations before, none is after |
| Conversations.Involving | controllers/conversation.js:31-40 | a conversation is listed iff the user is among its members |
| Auth.ValidUsernameRanges | controllers/auth.js:31-35 | the username check is exactly `/^[a-z0-9_.]+$/`: non-empty, and only lower-case letters, digits, `_` and `.` |
| Auth.RegisterErrors | controllers/auth.js:30-48 | the error list is empty iff username, email and password length are all valid; each of the three messages appears iff its check fails, once, and nothing else appears; the username message comes first and the length message last |
| Auth.ResetErrors | controllers/auth.js:271-288 | the error list is empty iff the password has length 8 or more, an upper-case letter and one of `!@#$%^&*(),.?":{}\|<>`; each message appears iff its rule fails, once, and nothing else appears; length first, symbol last |
| Auth.Register | controllers/auth.js:16-113 | no picture gives 500; validation errors give 400 with the messages; a taken username gives 409 before a taken email is checked; 200 iff every check passes and the email is non-empty; then the user is stored with the hashed password and an OTP digest is kept; uniqueness is preserved |
| Auth.VerifyEmail | controllers/auth.js:116-167 | unknown, already verified and tokenless requests give 400 in that order; a missing code gives 500; a wrong code gives 400; on 200 the user is verified and the token deleted; nothing else changes |
| Auth.RegisterThenVerify | controllers/auth.js:80-140 | after a successful registration, the mailed OTP verifies the new user |
| Auth.ForgotPassword | controllers/auth.js:209-249 | an unknown email gives 400 "User not found"; an outstanding reset token gives 400 "After one hour you can try!"; otherwise 200 and a token digest is stored for that user |
| Auth.ResetPassword | controllers/auth.js:252-313 | missing token or id, unknown user, no reset token, wrong token give 400 with their messages in that order; failing password rules give 400 with the rule messages; on 200 only the password changes, to the hash of the new one; the reset token is never removed |
| Auth.ForgotLockedAfterReset | controllers/auth.js:212-293 | after a granted forgot-password request and a reset with that token, a new forgot-password request for the same email still gets 400 |
| Auth.GoogleLogin | controllers/auth.js:333-360 | an unverifiable token gives 401; a known email gives 200 with nothing changed; for a new email, 200 iff the name and email are non-empty and the name is free, and then exactly one user is added under the fresh id, built from the profile's name, email and picture with the schema defaults; otherwise 401 "Invalid token" with nothing changed; uniqueness is preserved |
| Auth.GoogleLoginOnce | controllers/auth.js:341-355 | a second sign-in with the same profile changes nothing, so one user is created at most |

## Left out

- `login`, `updateProPic`, `getUsers`, `getUser`'s record lookup and `getUserFollowers`
  (beyond the counts they share with `getUser`): plain reads or a single-field write of an
  uploaded URL.
- `getUserFriends` and `getNotifications`: reads over the same arrays, plus Mongo sorting and
  population.
- The messages controller and routes: context only.
- Persistence, query ordering and `populate`: collections are maps or sequences. A query
  returns a set of ids. Replies carry ids or records, not populated documents.
- bcrypt salting, JWT signing, Google token verification, Cloudinary uploads and nodemailer:
  external calls. Their results are parameters or are dropped.
- OTP generation, `crypto.randomBytes`, ObjectId generation and `Date.now`: these are
  parameters. New ids come with a freshness precondition.
- `isEmail`: its verdict is the `emailValid` parameter.
- validator.js `isLength` counts code points minus U+FE0E/U+FE0F. The model counts code points.
- The schema's `min`/`max` string options: Mongoose does not enforce them on strings.
- Socket.io transport: the model covers only the list and the emits.
- Interleaving of concurrent requests: each handler is atomic.
- CastError for malformed ids (a 404 or 500 reply): ids are naturals.
- Request fields of non-string JSON types: not modelled.
- Follow-array saves: modelled as never failing, except the self-unfollow version conflict
  described above. They touch no unique or required path of a loaded valid user, and two
  different users are two different documents.
- The `verified` flag is set and read by the handlers but is not declared in the User schema.
  The model stores it as a field. Under the strict schema the program never persists the flag,
  so a second verification with the same token gets "Sorry token not found", where the model
  can answer "User already verified".
- Posts.LikePost: the reply is `populatedPost[0]` of an unsorted query. The model states only
  that it comes from the author's visible posts, not which one.
- Posts.LikeTwiceRestores: its precondition asks that the user has no entry in the likes map.
  A like stored as explicit `false` is not restored by two likes; `Posts.ToggleTwice` states
  exactly when two toggles restore the map.
- Conversations.GetOrCreate: Mongo's storage order is modelled as insertion order.
