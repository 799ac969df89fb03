/** The User document and the users collection, with the schema's defaults,
    its required fields and its two unique indexes. */
module UserModel {
  import opened Common

  /** A user document. `name`, `bio` and `password` may be absent (Google
      sign-ups have none of them); `verified` is the flag the e-mail check
      sets, kept abstract because the schema does not declare it. */
  datatype User = User(
    username: string,
    name: Option<string>,
    email: string,
    password: Option<Digest>,
    picturePath: string,
    followers: seq<Id>,
    followings: seq<Id>,
    bio: Option<string>,
    verified: bool)

  /** The users collection, keyed by `_id`. */
  type Users = map<Id, User>

  /** `new User({...})`: absent follow arrays default to empty, an absent
      picture to the empty string; the flag starts cleared. */
  function NewUser(username: string, email: string, name: Option<string>,
                   password: Option<Digest>, picturePath: Option<string>,
                   followers: Option<seq<Id>>, followings: Option<seq<Id>>,
                   bio: Option<string>): (u: User)
    ensures u.username == username && u.email == email && u.name == name
    ensures u.password == password && u.bio == bio
    ensures u.picturePath == (if picturePath.Some? then picturePath.value else "")
    ensures followers.None? ==> u.followers == []
    ensures followings.None? ==> u.followings == []
    ensures followers.Some? ==> u.followers == followers.value
    ensures followings.Some? ==> u.followings == followings.value
    ensures !u.verified
  {
    User(username, name, email, password,
         if picturePath.Some? then picturePath.value else "",
         if followers.Some? then followers.value else [],
         if followings.Some? then followings.value else [],
         bio, false)
  }

  /** The unique indexes on username and on email hold across the collection. */
  ghost predicate UniqueKeys(users: Users) {
    forall a, b | a in users && b in users && a != b ::
      users[a].username != users[b].username && users[a].email != users[b].email
  }

  /** No document other than `id` already carries `u`'s username or email. */
  ghost predicate NoClash(users: Users, id: Id, u: User) {
    forall k | k in users && k != id ::
      users[k].username != u.username && users[k].email != u.email
  }

  predicate UsernameTaken(users: Users, username: string) {
    exists k | k in users :: users[k].username == username
  }

  predicate EmailTaken(users: Users, email: string) {
    exists k | k in users :: users[k].email == email
  }

  datatype SaveError = MissingField | DuplicateKey

  /** `doc.save()` of `u` under `_id == id`: the required validators on
      username and email (an empty string fails them), then the unique
      indexes against every other document. */
  function Save(users: Users, id: Id, u: User): (r: Result<Users, SaveError>)
    ensures r.Ok? <==> u.username != "" && u.email != "" && NoClash(users, id, u)
    ensures r.Ok? ==> r.value == users[id := u]
    ensures r.Ok? && UniqueKeys(users) ==> UniqueKeys(r.value)
    ensures (u.username == "" || u.email == "") ==> r == Err(MissingField)
  {
    if u.username == "" || u.email == "" then Err(MissingField)
    else if exists k | k in users && k != id ::
              users[k].username == u.username || users[k].email == u.email
    then Err(DuplicateKey)
    else Ok(users[id := u])
  }

  /** `User.findOne({ email })`; the unique index makes the match unique. */
  function FindByEmail(users: Users, email: string): (r: Option<Id>)
    requires UniqueKeys(users)
    ensures r.Some? <==> EmailTaken(users, email)
    ensures r.Some? ==> r.value in users && users[r.value].email == email
  {
    if EmailTaken(users, email) then
      var k :| k in users && users[k].email == email; Some(k)
    else None
  }
}
