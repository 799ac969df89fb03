/** The follow graph kept in the users' `followers` and `followings`
    arrays: follow, unfollow and follow-back, the suggestions and counts
    derived from the arrays, and the hydrated lists the handlers return. */
module FollowGraph {
  import opened Common
  import opened Seqs
  import opened UserModel
  import opened Notifications

  /** The `{ _id, username, name, picturePath }` projection of a user. */
  datatype Profile = Profile(id: Id, username: string, name: Option<string>, picturePath: string)

  function Project(id: Id, u: User): Profile {
    Profile(id, u.username, u.name, u.picturePath)
  }

  /** Loads every id with `findById` and projects it, in order. A dangling
      id loads as null and destructuring it throws, so the whole list fails. */
  function Hydrate(users: Users, ids: seq<Id>): (r: Option<seq<Profile>>)
    ensures r.Some? <==> forall i | 0 <= i < |ids| :: ids[i] in users
    ensures r.Some? ==> |r.value| == |ids|
    ensures r.Some? ==> forall i | 0 <= i < |ids| ::
              ids[i] in users && r.value[i] == Project(ids[i], users[ids[i]])
  {
    if |ids| == 0 then Some([])
    else if ids[0] !in users then None
    else
      match Hydrate(users, ids[1..])
      case None => None
      case Some(rest) => Some([Project(ids[0], users[ids[0]])] + rest)
  }

  /** `User.find({ _id: { $nin: [...following, id] } })`, as a set: the
      collection applies no order. */
  function Suggestions(users: Users, id: Id, following: seq<Id>): set<Id> {
    set k | k in users && k !in following && k != id
  }

  /** The suggestions handler: an unknown user makes `currentUser.followings`
      throw (reported as 404, here None). */
  function GetSuggestions(users: Users, id: Id): (r: Option<set<Id>>)
    ensures r.Some? <==> id in users
    ensures r.Some? ==> forall k :: k in r.value <==> k in users && k != id && k !in users[id].followings
  {
    if id in users then Some(Suggestions(users, id, users[id].followings)) else None
  }

  /** `countDocuments({ followers: id })`: the users whose followers list `id`. */
  function FollowingSet(users: Users, id: Id): set<Id> {
    set u | u in users && id in users[u].followers
  }

  /** `countDocuments({ followings: id })`: the users whose followings list `id`. */
  function FollowersSet(users: Users, id: Id): set<Id> {
    set u | u in users && id in users[u].followings
  }

  /** The profile's `followingCount`. */
  function FollowingCount(users: Users, id: Id): (n: nat)
    ensures n <= |users|
    ensures n == 0 <==> forall u | u in users :: id !in users[u].followers
  {
    SubsetCard(FollowingSet(users, id), users.Keys);
    NonEmptyCard(FollowingSet(users, id));
    assert forall u | u in users :: u in FollowingSet(users, id) <==> id in users[u].followers;
    |FollowingSet(users, id)|
  }

  /** The profile's `followersCount`. */
  function FollowersCount(users: Users, id: Id): (n: nat)
    ensures n <= |users|
    ensures n == 0 <==> forall u | u in users :: id !in users[u].followings
  {
    SubsetCard(FollowersSet(users, id), users.Keys);
    NonEmptyCard(FollowersSet(users, id));
    assert forall u | u in users :: u in FollowersSet(users, id) <==> id in users[u].followings;
    |FollowersSet(users, id)|
  }

  /** A subset is no larger than its superset. */
  lemma SubsetCard(a: set<Id>, b: set<Id>)
    requires a <= b
    ensures |a| <= |b|
  {
    if a != {} {
      var x :| x in a;
      SubsetCard(a - {x}, b - {x});
    }
  }

  /** A set with a member has a positive size. */
  lemma NonEmptyCard(a: set<Id>)
    ensures |a| == 0 <==> forall x :: x !in a
  {
    if x :| x in a {
      assert |a - {x}| == |a| - 1;
    }
  }

  /** `a` lists `b` among its followings. */
  predicate Follows(users: Users, a: Id, b: Id) {
    a in users && b in users[a].followings
  }

  /** `b` lists `a` among its followers. */
  predicate FollowedBy(users: Users, b: Id, a: Id) {
    b in users && a in users[b].followers
  }

  /** Both sides of every edge between stored users agree. */
  ghost predicate Consistent(users: Users) {
    forall a, b | a in users && b in users :: Follows(users, a, b) <==> FollowedBy(users, b, a)
  }

  /** No follow array repeats an id. */
  ghost predicate Distinct(users: Users) {
    forall a | a in users :: NoDup(users[a].followers) && NoDup(users[a].followings)
  }

  /** The graph invariant the follow handlers maintain. */
  ghost predicate Graph(users: Users) {
    Consistent(users) && Distinct(users)
  }

  /** Every id in a follow array names a stored user. */
  ghost predicate Closed(users: Users) {
    forall a | a in users ::
      (forall x | x in users[a].followers :: x in users) &&
      (forall x | x in users[a].followings :: x in users)
  }

  /** What the follow handlers send back on success. */
  datatype Reply = Reply(
    followings: seq<Profile>,
    followers: seq<Profile>,
    suggestions: Option<set<Id>>,
    updatedUser: User)

  /** The store after the handler, the notifications it saved, the status
      it sent and, on 200, the body. */
  datatype Outcome = Outcome(users: Users, emitted: seq<Notification>, status: int, reply: Option<Reply>)

  /** The tail the three handlers share: hydrate the followings and the
      followers (either failing gives 500), compute the suggestions if
      asked, and reload the user. */
  function Respond(users: Users, emitted: seq<Notification>, id: Id,
                   followings: seq<Id>, followers: seq<Id>, withSuggestions: bool): (r: Outcome)
    requires id in users
    ensures r.users == users && r.emitted == emitted
    ensures r.status == OK || r.status == SERVER_ERROR
    ensures r.status == OK <==> r.reply.Some?
    ensures r.status == OK <==> Hydrate(users, followings).Some? && Hydrate(users, followers).Some?
    ensures r.status == OK ==>
              && r.reply.value.followings == Hydrate(users, followings).value
              && r.reply.value.followers == Hydrate(users, followers).value
              && r.reply.value.updatedUser == users[id]
              && (r.reply.value.suggestions.Some? <==> withSuggestions)
              && (withSuggestions ==> r.reply.value.suggestions == GetSuggestions(users, id))
  {
    var f1 := Hydrate(users, followings);
    var f2 := Hydrate(users, followers);
    if f1.None? || f2.None? then Outcome(users, emitted, SERVER_ERROR, None)
    else
      var sugg := if withSuggestions then Some(Suggestions(users, id, users[id].followings)) else None;
      Outcome(users, emitted, OK, Some(Reply(f1.value, f2.value, sugg, users[id])))
  }

  /** The body shared by follow and follow-back. Both documents are loaded
      first. The friend's followers gain `id` if absent (a notification is
      saved then, unless this is a follow-back); only after that is the
      actor checked, so a missing actor leaves the friend's write in place.
      Each save writes only the modified array, so when `id == friendId`
      both writes land on the one document, while the response still shows
      the followers array as loaded. */
  function Link(users: Users, id: Id, friendId: Id, back: bool): Outcome {
    if friendId !in users then Outcome(users, [], BAD_REQUEST, None)
    else
      var friend := users[friendId];
      var added := id !in friend.followers;
      var s1 := if added then users[friendId := friend.(followers := friend.followers + [id])] else users;
      var emitted := if added && !back then [FollowNotice(friendId, id)] else [];
      if id !in users then Outcome(s1, emitted, BAD_REQUEST, None)
      else
        var user := users[id];
        var followings := if friendId in user.followings then user.followings else user.followings + [friendId];
        var s2 := s1[id := s1[id].(followings := followings)];
        Respond(s2, emitted, id, followings, user.followers, back)
  }

  /** followFriend. */
  function Follow(users: Users, id: Id, friendId: Id): (r: Outcome)
    ensures friendId !in users ==> r == Outcome(users, [], BAD_REQUEST, None)
    ensures r.status == BAD_REQUEST <==> friendId !in users || id !in users
    ensures r.users.Keys == users.Keys
    ensures friendId in users ==>
              r.users[friendId].followers ==
                (if id in users[friendId].followers then users[friendId].followers
                 else users[friendId].followers + [id])
    ensures friendId in users && id in users ==>
              r.users[id].followings ==
                (if friendId in users[id].followings then users[id].followings
                 else users[id].followings + [friendId])
    ensures r.emitted == (if friendId in users && id !in users[friendId].followers
                          then [FollowNotice(friendId, id)] else [])
    ensures forall k | k in users && k != friendId :: r.users[k].followers == users[k].followers
    ensures forall k | k in users && k != id :: r.users[k].followings == users[k].followings
    ensures forall k | k in users ::
              r.users[k] == users[k].(followers := r.users[k].followers, followings := r.users[k].followings)
    ensures friendId in users && id in users ==>
              r == Respond(r.users, r.emitted, id, r.users[id].followings, users[id].followers, false)
  {
    Link(users, id, friendId, false)
  }

  /** followBackFriend: the same writes as a follow, never a notification,
      and the reply carries suggestions. */
  function FollowBack(users: Users, id: Id, friendId: Id): (r: Outcome)
    ensures r.users == Follow(users, id, friendId).users
    ensures r.status == Follow(users, id, friendId).status
    ensures r.emitted == []
    ensures friendId in users && id in users ==>
              r == Respond(r.users, [], id, r.users[id].followings, users[id].followers, true)
  {
    Link(users, id, friendId, true)
  }

  /** An actor unfollowing themself while listed in both of their own
      arrays. `user` and `friend` are then two loaded copies of one
      document, and both get spliced. A splice makes Mongoose `$set` the
      whole array under a `__v` version check; the first save bumps `__v`,
      so the second copy's save fails with a VersionError. */
  predicate SelfConflict(users: Users, id: Id, friendId: Id) {
    id == friendId && id in users && id in users[id].followers && id in users[id].followings
  }

  /** unFollowFriend: drop the first occurrence of `id` from the friend's
      followers, then (if the actor exists) the first occurrence of
      `friendId` from the actor's followings; no notification. On a
      self-conflict the second save throws: 500, with only the followers
      splice written. */
  function Unfollow(users: Users, id: Id, friendId: Id): (r: Outcome)
    ensures friendId !in users ==> r == Outcome(users, [], BAD_REQUEST, None)
    ensures r.status == BAD_REQUEST <==> friendId !in users || id !in users
    ensures r.users.Keys == users.Keys
    ensures r.emitted == []
    ensures friendId in users ==>
              r.users[friendId].followers == RemoveFirst(users[friendId].followers, id)
    ensures friendId in users && id in users && !SelfConflict(users, id, friendId) ==>
              r.users[id].followings == RemoveFirst(users[id].followings, friendId)
    ensures SelfConflict(users, id, friendId) ==>
              r.status == SERVER_ERROR && r.reply.None? && r.users[id].followings == users[id].followings
    ensures forall k | k in users && k != friendId :: r.users[k].followers == users[k].followers
    ensures forall k | k in users && k != id :: r.users[k].followings == users[k].followings
    ensures forall k | k in users ::
              r.users[k] == users[k].(followers := r.users[k].followers, followings := r.users[k].followings)
    ensures friendId in users && id in users && !SelfConflict(users, id, friendId) ==>
              r == Respond(r.users, [], id, r.users[id].followings, users[id].followers, true)
  {
    if friendId !in users then Outcome(users, [], BAD_REQUEST, None)
    else if SelfConflict(users, id, friendId) then
      var friend := users[friendId];
      Outcome(users[friendId := friend.(followers := RemoveFirst(friend.followers, id))], [], SERVER_ERROR, None)
    else
      var s := UnlinkWrites(users, id, friendId);
      if id !in users then Outcome(s, [], BAD_REQUEST, None)
      else Respond(s, [], id, s[id].followings, users[id].followers, true)
  }

  /** The writes of an unfollow once the friend is known: the friend's
      followers lose `id`, then, if the actor exists, the actor's followings
      lose `friendId`. */
  function UnlinkWrites(users: Users, id: Id, friendId: Id): (s: Users)
    requires friendId in users
    ensures s.Keys == users.Keys
    ensures s[friendId].followers == RemoveFirst(users[friendId].followers, id)
    ensures id in users ==> s[id].followings == RemoveFirst(users[id].followings, friendId)
    ensures forall k | k in users && k != friendId :: s[k].followers == users[k].followers
    ensures forall k | k in users && k != id :: s[k].followings == users[k].followings
    ensures forall k | k in users ::
              s[k] == users[k].(followers := s[k].followers, followings := s[k].followings)
  {
    var friend := users[friendId];
    var s1 := users[friendId := friend.(followers := RemoveFirst(friend.followers, id))];
    if id !in users then s1
    else s1[id := s1[id].(followings := RemoveFirst(users[id].followings, friendId))]
  }

  /** A second follow changes no array and saves no second notification. */
  lemma FollowIdempotent(users: Users, id: Id, friendId: Id)
    ensures Follow(Follow(users, id, friendId).users, id, friendId).users == Follow(users, id, friendId).users
    ensures Follow(Follow(users, id, friendId).users, id, friendId).emitted == []
  {
    var s1 := Follow(users, id, friendId).users;
    var s2 := Follow(s1, id, friendId).users;
    forall k | k in s1
      ensures s2[k] == s1[k]
    {
    }
  }

  /** Following another user one did not follow and then unfollowing
      restores both arrays. A self-follow is not undone this way: its
      unfollow is a self-conflict (see `SelfConflict`). */
  lemma FollowUnfollowRoundTrip(users: Users, id: Id, friendId: Id)
    requires id in users && friendId in users && id != friendId
    requires id !in users[friendId].followers && friendId !in users[id].followings
    ensures Unfollow(Follow(users, id, friendId).users, id, friendId).users == users
  {
    UnfollowUndoesAppend(users, Follow(users, id, friendId).users, id, friendId);
  }

  /** The unfollow half of the round trip, for any store that differs from
      `users` exactly by the two appends a fresh follow makes. */
  lemma UnfollowUndoesAppend(users: Users, s1: Users, id: Id, friendId: Id)
    requires id in users && friendId in users && id != friendId
    requires id !in users[friendId].followers && friendId !in users[id].followings
    requires s1.Keys == users.Keys
    requires s1[friendId].followers == users[friendId].followers + [id]
    requires s1[id].followings == users[id].followings + [friendId]
    requires forall k | k in users && k != friendId :: s1[k].followers == users[k].followers
    requires forall k | k in users && k != id :: s1[k].followings == users[k].followings
    requires forall k | k in users ::
               s1[k] == users[k].(followers := s1[k].followers, followings := s1[k].followings)
    ensures Unfollow(s1, id, friendId).users == users
  {
    var s2 := Unfollow(s1, id, friendId).users;
    RemoveFirstOfAppended(users[friendId].followers, id);
    RemoveFirstOfAppended(users[id].followings, friendId);
    forall k | k in s2
      ensures s2[k].followers == users[k].followers
      ensures s2[k].followings == users[k].followings
    {
      if k == friendId {
        assert s2[k].followers == RemoveFirst(s1[k].followers, id);
      } else {
        assert s2[k].followers == s1[k].followers;
      }
      if k == id {
        assert s2[k].followings == RemoveFirst(s1[k].followings, friendId);
      } else {
        assert s2[k].followings == s1[k].followings;
      }
    }
    forall k | k in s2
      ensures s2[k] == users[k].(followers := s2[k].followers, followings := s2[k].followings)
    {
      assert s2[k] == s1[k].(followers := s2[k].followers, followings := s2[k].followings);
    }
    SameArraysSameUsers(s2, users);
  }

  /** Two stores with the same keys that agree on both follow arrays and on
      every other field are equal. */
  lemma SameArraysSameUsers(s: Users, t: Users)
    requires s.Keys == t.Keys
    requires forall k | k in s :: s[k].followers == t[k].followers && s[k].followings == t[k].followings
    requires forall k | k in s :: s[k] == t[k].(followers := s[k].followers, followings := s[k].followings)
    ensures s == t
  {
    assert forall k | k in s :: s[k] == t[k];
  }

  /** A follow keeps both sides of every edge in step and every array
      duplicate-free, including when the actor is missing or is the friend. */
  lemma FollowPreservesGraph(users: Users, id: Id, friendId: Id)
    requires Graph(users)
    ensures Graph(Follow(users, id, friendId).users)
  {
    var s := Follow(users, id, friendId).users;
    if friendId in users {
      if id !in users[friendId].followers {
        AppendNoDup(users[friendId].followers, id);
      }
      if id in users && friendId !in users[id].followings {
        AppendNoDup(users[id].followings, friendId);
      }
      forall a, b | a in s && b in s
        ensures Follows(s, a, b) <==> FollowedBy(s, b, a)
      {
        assert Follows(s, a, b) <==> Follows(users, a, b) || (a == id && b == friendId);
        assert FollowedBy(s, b, a) <==> FollowedBy(users, b, a) || (a == id && b == friendId);
      }
    }
  }

  /** An unfollow keeps the graph invariant (with duplicate-free arrays,
      removing the first occurrence removes the edge on both sides) except
      when a user who follows themself unfollows themself: the failed second
      save leaves the self-edge on the followings side only. */
  lemma UnfollowPreservesGraph(users: Users, id: Id, friendId: Id)
    requires Graph(users)
    ensures Graph(Unfollow(users, id, friendId).users) <==> !(id == friendId && Follows(users, id, id))
  {
    var s := Unfollow(users, id, friendId).users;
    if id == friendId && Follows(users, id, id) {
      assert FollowedBy(users, id, id);
      RemoveFirstNoDup(users[id].followers, id);
      assert Follows(s, id, id) && !FollowedBy(s, id, id);
    } else if friendId in users {
      RemoveFirstNoDup(users[friendId].followers, id);
      if id in users {
        RemoveFirstNoDup(users[id].followings, friendId);
      }
      forall a, b | a in s && b in s
        ensures Follows(s, a, b) <==> FollowedBy(s, b, a)
      {
        assert Follows(s, a, b) <==> Follows(users, a, b) && !(a == id && b == friendId);
        assert FollowedBy(s, b, a) <==> FollowedBy(users, b, a) && !(a == id && b == friendId);
      }
    }
  }

  /** Counting from the other side of the graph agrees with the user's own
      arrays when the graph is consistent, duplicate-free and closed. */
  lemma CountsMatchOwnArrays(users: Users, id: Id)
    requires Graph(users) && Closed(users) && id in users
    ensures FollowingCount(users, id) == |users[id].followings|
    ensures FollowersCount(users, id) == |users[id].followers|
  {
    var u := users[id];
    assert FollowingSet(users, id) == Elems(u.followings) by {
      forall v | v in users
        ensures id in users[v].followers <==> v in u.followings
      {
        assert Follows(users, id, v) <==> FollowedBy(users, v, id);
      }
    }
    assert FollowersSet(users, id) == Elems(u.followers) by {
      forall v | v in users
        ensures id in users[v].followings <==> v in u.followers
      {
        assert Follows(users, v, id) <==> FollowedBy(users, id, v);
      }
    }
    DistinctCard(u.followings);
    DistinctCard(u.followers);
  }

  /** A followed user disappears from the actor's suggestions. */
  lemma SuggestionsAfterFollow(users: Users, id: Id, friendId: Id)
    requires id in users && friendId in users
    ensures GetSuggestions(Follow(users, id, friendId).users, id) ==
              Some(GetSuggestions(users, id).value - {friendId})
  {
    var s := Follow(users, id, friendId).users;
    var g := users[id].followings;
    assert s[id].followings == (if friendId in g then g else g + [friendId]);
    var lhs := Suggestions(s, id, s[id].followings);
    var rhs := Suggestions(users, id, g) - {friendId};
    forall k
      ensures k in lhs <==> k in rhs
    {
      assert k in s[id].followings <==> k in g || k == friendId;
    }
    assert lhs == rhs;
  }

  /** On a consistent graph an unfollow puts the friend back among the
      actor's suggestions. */
  lemma SuggestionsAfterUnfollow(users: Users, id: Id, friendId: Id)
    requires Graph(users) && id in users && friendId in users && id != friendId
    ensures friendId in GetSuggestions(Unfollow(users, id, friendId).users, id).value
  {
    var s := Unfollow(users, id, friendId).users;
    RemoveFirstNoDup(users[id].followings, friendId);
    assert friendId !in s[id].followings;
  }
}
