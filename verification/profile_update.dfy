/** The profile update handler: field merge with trimming, the optional
    password change, and the save under the unique indexes. */
module ProfileUpdate {
  import opened Common
  import opened Text
  import opened UserModel

  /** The request body; a field the client left out is None. */
  datatype UpdateForm = UpdateForm(
    name: Option<string>,
    username: Option<string>,
    email: Option<string>,
    bio: Option<string>,
    oldPassword: Option<string>,
    newPassword: Option<string>,
    confirmPassword: Option<string>)

  /** What the client receives. For an unknown user the handler returns
      without answering at all. On 200 the body is the saved user. */
  datatype Answer = NoAnswer | Answer(status: int, saved: Option<User>)

  datatype UpdateOutcome = UpdateOutcome(users: Users, answer: Answer)

  /** `input.trim() || current` for a required string field. */
  function MergeText(input: string, current: string): string {
    var t := Trim(input);
    if t != "" then t else current
  }

  /** `input.trim() || current` for an optional string field. */
  function MergeOptional(input: string, current: Option<string>): Option<string> {
    var t := Trim(input);
    if t != "" then Some(t) else current
  }

  /** All four profile fields were sent; `.trim()` on a missing one throws. */
  predicate FieldsPresent(form: UpdateForm) {
    form.username.Some? && form.name.Some? && form.bio.Some? && form.email.Some?
  }

  /** The user with the four profile fields merged from the form. */
  function Merged(u: User, form: UpdateForm): (m: User)
    requires FieldsPresent(form)
    ensures m.password == u.password && m.followers == u.followers && m.followings == u.followings
  {
    u.(username := MergeText(form.username.value, u.username),
       name := MergeOptional(form.name.value, u.name),
       bio := MergeOptional(form.bio.value, u.bio),
       email := MergeText(form.email.value, u.email))
  }

  /** `user.save()` and its answer: a unique-index or required-field
      failure lands in the handler's catch, which answers 404. */
  function Commit(users: Users, id: Id, u: User): (r: UpdateOutcome)
    ensures r == UpdateOutcome(users[id := u], Answer(OK, Some(u))) ||
            r == UpdateOutcome(users, Answer(NOT_FOUND, None))
    ensures r.answer == Answer(OK, Some(u)) <==> Save(users, id, u).Ok?
    ensures UniqueKeys(users) ==> UniqueKeys(r.users)
  {
    match Save(users, id, u)
    case Ok(s) => UpdateOutcome(s, Answer(OK, Some(u)))
    case Err(_) => UpdateOutcome(users, Answer(NOT_FOUND, None))
  }

  /** The optional password change on the merged user: when an old
      password is given it must match the stored digest (a missing digest
      makes the comparison throw: 404), the new password must equal its
      confirmation (else 400), and the confirmation is hashed (a missing one
      makes hashing throw: 404). The error carries the status sent. */
  function ChangePassword(u: User, form: UpdateForm): (r: Result<User, int>)
    ensures r.Ok? && Truthy(form.oldPassword) ==>
              && u.password == Some(Hash(form.oldPassword.value))
              && form.newPassword == form.confirmPassword
              && form.confirmPassword.Some?
              && r.value == u.(password := Some(Hash(form.confirmPassword.value)))
    ensures !Truthy(form.oldPassword) ==> r == Ok(u)
    ensures Truthy(form.oldPassword) && u.password.Some? && Matches(form.oldPassword.value, u.password.value) &&
            form.newPassword == form.confirmPassword && form.confirmPassword.Some? ==>
              r == Ok(u.(password := Some(Hash(form.confirmPassword.value))))
    ensures Truthy(form.oldPassword) && u.password.None? ==> r == Err(NOT_FOUND)
    ensures Truthy(form.oldPassword) && u.password.Some? && Matches(form.oldPassword.value, u.password.value) &&
            form.newPassword == form.confirmPassword && form.confirmPassword.None? ==>
              r == Err(NOT_FOUND)
    ensures Truthy(form.oldPassword) && u.password.Some? ==>
              (r == Err(BAD_REQUEST) <==>
                 !Matches(form.oldPassword.value, u.password.value) ||
                 form.newPassword != form.confirmPassword)
    ensures r.Err? ==> r.error == BAD_REQUEST || r.error == NOT_FOUND
  {
    if !Truthy(form.oldPassword) then Ok(u)
    else if u.password.None? then Err(NOT_FOUND)
    else if !Matches(form.oldPassword.value, u.password.value) then Err(BAD_REQUEST)
    else if form.newPassword != form.confirmPassword then Err(BAD_REQUEST)
    else if form.confirmPassword.None? then Err(NOT_FOUND)
    else Ok(u.(password := Some(Hash(form.confirmPassword.value))))
  }

  /** updateUser. */
  function UpdateUser(users: Users, id: Id, form: UpdateForm): (r: UpdateOutcome)
    ensures id !in users ==> r == UpdateOutcome(users, NoAnswer)
    ensures id in users && !FieldsPresent(form) ==> r == UpdateOutcome(users, Answer(NOT_FOUND, None))
    ensures r.users != users ==> r.answer.Answer? && r.answer.status == OK
    ensures r.answer.Answer? && r.answer.status == OK ==>
              && id in users && FieldsPresent(form) && r.answer.saved.Some?
              && r.users == users[id := r.answer.saved.value]
              && r.users[id].username == (if Trim(form.username.value) != "" then Trim(form.username.value) else users[id].username)
              && r.users[id].name == (if Trim(form.name.value) != "" then Some(Trim(form.name.value)) else users[id].name)
              && r.users[id].bio == (if Trim(form.bio.value) != "" then Some(Trim(form.bio.value)) else users[id].bio)
              && r.users[id].email == (if Trim(form.email.value) != "" then Trim(form.email.value) else users[id].email)
              && r.users[id].followers == users[id].followers
              && r.users[id].followings == users[id].followings
    ensures r.answer.Answer? && r.answer.status == OK && Truthy(form.oldPassword) ==>
              && users[id].password == Some(Hash(form.oldPassword.value))
              && form.newPassword == form.confirmPassword
              && form.confirmPassword.Some?
              && r.users[id].password == Some(Hash(form.confirmPassword.value))
    ensures r.answer.Answer? && r.answer.status == OK && !Truthy(form.oldPassword) ==>
              r.users[id].password == users[id].password
    ensures id in users && FieldsPresent(form) && Truthy(form.oldPassword) && users[id].password.Some? ==>
              (r.answer == Answer(BAD_REQUEST, None) <==>
                 !Matches(form.oldPassword.value, users[id].password.value) ||
                 form.newPassword != form.confirmPassword)
    ensures id in users && FieldsPresent(form) && ChangePassword(Merged(users[id], form), form).Ok? &&
            Save(users, id, ChangePassword(Merged(users[id], form), form).value).Ok? ==>
              var v := ChangePassword(Merged(users[id], form), form).value;
              r == UpdateOutcome(users[id := v], Answer(OK, Some(v)))
    ensures id in users && FieldsPresent(form) && ChangePassword(Merged(users[id], form), form).Err? ==>
              r == UpdateOutcome(users, Answer(ChangePassword(Merged(users[id], form), form).error, None))
    ensures id in users && FieldsPresent(form) && ChangePassword(Merged(users[id], form), form).Ok? &&
            Save(users, id, ChangePassword(Merged(users[id], form), form).value).Err? ==>
              r == UpdateOutcome(users, Answer(NOT_FOUND, None))
    ensures UniqueKeys(users) ==> UniqueKeys(r.users)
  {
    if id !in users then UpdateOutcome(users, NoAnswer)
    else if !FieldsPresent(form) then UpdateOutcome(users, Answer(NOT_FOUND, None))
    else
      match ChangePassword(Merged(users[id], form), form)
      case Err(code) => UpdateOutcome(users, Answer(code, None))
      case Ok(u) => Commit(users, id, u)
  }

  /** A form whose four fields are blank (or only spaces) and that asks for
      no password change saves the user unchanged. */
  lemma BlankUpdateKeepsUser(users: Users, id: Id, form: UpdateForm)
    requires UniqueKeys(users) && id in users
    requires users[id].username != "" && users[id].email != ""
    requires FieldsPresent(form) && !Truthy(form.oldPassword)
    requires Trim(form.username.value) == "" && Trim(form.name.value) == ""
    requires Trim(form.bio.value) == "" && Trim(form.email.value) == ""
    ensures UpdateUser(users, id, form) == UpdateOutcome(users, Answer(OK, Some(users[id])))
  {
    assert Merged(users[id], form) == users[id];
    assert users[id := users[id]] == users;
  }

  /** Without a password change, a form whose merged record passes the
      save checks is accepted, and sending any such form a second time
      changes nothing: a rejected form already changed nothing the first time. */
  lemma UpdateIdempotent(users: Users, id: Id, form: UpdateForm)
    requires id in users && FieldsPresent(form) && !Truthy(form.oldPassword)
    ensures Save(users, id, Merged(users[id], form)).Ok? ==>
              UpdateUser(users, id, form).answer == Answer(OK, Some(Merged(users[id], form)))
    ensures UpdateUser(UpdateUser(users, id, form).users, id, form).users == UpdateUser(users, id, form).users
  {
    var m := Merged(users[id], form);
    assert ChangePassword(m, form) == Ok(m);
    if Save(users, id, m).Ok? {
      var s := users[id := m];
      assert UpdateUser(users, id, form).users == s;
      MergedTwice(users[id], form);
      SaveAgain(users, id, m);
      assert Commit(s, id, m) == UpdateOutcome(s, Answer(OK, Some(m)));
    } else {
      assert UpdateUser(users, id, form).users == users;
    }
  }

  /** Merging the same form into an already merged user changes nothing. */
  lemma MergedTwice(u: User, form: UpdateForm)
    requires FieldsPresent(form)
    ensures Merged(Merged(u, form), form) == Merged(u, form)
  {
  }

  /** A save that succeeded succeeds again on its own result. */
  lemma SaveAgain(users: Users, id: Id, u: User)
    requires Save(users, id, u).Ok?
    ensures Save(users[id := u], id, u) == Ok(users[id := u])
  {
    assert users[id := u][id := u] == users[id := u];
  }
}
