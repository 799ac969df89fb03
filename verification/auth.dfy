/** The account flows: registration with its validators, e-mail
    verification by one-time code, forgotten-password and reset, and Google
    sign-in. Verification and reset tokens are keyed by the user (`seller`)
    they were issued for; codes are compared through the abstract digest. */
module Auth {
  import opened Common
  import opened UserModel

  /** Users together with the outstanding verification and reset tokens. */
  datatype Store = Store(users: Users, verification: map<Id, Digest>, reset: map<Id, Digest>)

  /** The store afterwards, the status sent and the messages in its body. */
  datatype Outcome = Outcome(store: Store, status: int, messages: seq<string>)

  const USERNAME_CHARS: string := "abcdefghijklmnopqrstuvwxyz0123456789_."
  const RESET_SYMBOLS: string := "!@#$%^&*(),.?\":{}|<>"

  const MSG_USERNAME: string := "Username must contain only lowercase letters, underscores, dots, and numbers"
  const MSG_EMAIL: string := "Invalid email address"
  const MSG_LENGTH: string := "Password must be at least 8 characters long"
  const MSG_UPPER: string := "Password must contain at least one uppercase letter"
  const MSG_SYMBOL: string := "Password must contain at least one symbol (!@#$%^&*(),.?\":{}|<>)"

  /** The registration pattern `/^[a-z0-9_.]+$/`. */
  predicate ValidUsername(s: string) {
    |s| > 0 && forall i | 0 <= i < |s| :: s[i] in USERNAME_CHARS
  }

  /** The pattern spelled out as character ranges. */
  lemma ValidUsernameRanges(s: string)
    ensures ValidUsername(s) <==>
              |s| > 0 && forall i | 0 <= i < |s| ::
                ('a' <= s[i] <= 'z' || '0' <= s[i] <= '9' || s[i] == '_' || s[i] == '.')
  {
    forall c: char
      ensures c in USERNAME_CHARS <==> ('a' <= c <= 'z' || '0' <= c <= '9' || c == '_' || c == '.')
    {
      if 'a' <= c <= 'z' {
        assert USERNAME_CHARS[c as int - 'a' as int] == c;
      } else if '0' <= c <= '9' {
        assert USERNAME_CHARS[26 + c as int - '0' as int] == c;
      }
    }
  }

  /** `isLength({ min: 8 })`. */
  predicate LongEnough(p: string) {
    |p| >= 8
  }

  /** `matches(/[A-Z]/)`. */
  predicate HasUpper(p: string) {
    exists i | 0 <= i < |p| :: 'A' <= p[i] <= 'Z'
  }

  /** `matches(/[!@#$%^&*(),.?":{}|<>]/)`. */
  predicate HasSymbol(p: string) {
    exists i | 0 <= i < |p| :: p[i] in RESET_SYMBOLS
  }

  /** The messages of the registration validators that fail, in the order
      they were declared (all failures are reported). */
  function RegisterErrors(username: string, emailValid: bool, password: string): (r: seq<string>)
    ensures r == [] <==> ValidUsername(username) && emailValid && LongEnough(password)
    ensures MSG_USERNAME in r <==> !ValidUsername(username)
    ensures MSG_EMAIL in r <==> !emailValid
    ensures MSG_LENGTH in r <==> !LongEnough(password)
    ensures forall m | m in r :: m == MSG_USERNAME || m == MSG_EMAIL || m == MSG_LENGTH
    ensures forall i, j | 0 <= i < j < |r| :: r[i] != r[j]
    ensures !ValidUsername(username) ==> r[0] == MSG_USERNAME
    ensures !LongEnough(password) ==> r[|r| - 1] == MSG_LENGTH
  {
    (if ValidUsername(username) then [] else [MSG_USERNAME]) +
    (if emailValid then [] else [MSG_EMAIL]) +
    (if LongEnough(password) then [] else [MSG_LENGTH])
  }

  /** The messages of the reset-password validator chain that fail, in
      order: length, then upper-case letter, then symbol. */
  function ResetErrors(password: string): (r: seq<string>)
    ensures r == [] <==> LongEnough(password) && HasUpper(password) && HasSymbol(password)
    ensures MSG_LENGTH in r <==> !LongEnough(password)
    ensures MSG_UPPER in r <==> !HasUpper(password)
    ensures MSG_SYMBOL in r <==> !HasSymbol(password)
    ensures forall m | m in r :: m == MSG_LENGTH || m == MSG_UPPER || m == MSG_SYMBOL
    ensures forall i, j | 0 <= i < j < |r| :: r[i] != r[j]
    ensures !LongEnough(password) ==> r[0] == MSG_LENGTH
    ensures !HasSymbol(password) ==> r[|r| - 1] == MSG_SYMBOL
  {
    (if LongEnough(password) then [] else [MSG_LENGTH]) +
    (if HasUpper(password) then [] else [MSG_UPPER]) +
    (if HasSymbol(password) then [] else [MSG_SYMBOL])
  }

  /** The registration form; follow arrays left out of the body are None. */
  datatype Registration = Registration(
    username: string,
    email: string,
    password: string,
    followings: Option<seq<Id>>,
    followers: Option<seq<Id>>)

  /** register. `picture` is the uploaded picture's URL, None when no file
      came (the upload then throws: 500); `emailValid` is the e-mail
      validator's verdict; `otp` is the generated one-time code. */
  function Register(s: Store, form: Registration, picture: Option<string>, emailValid: bool,
                    otp: string, newId: Id): (r: Outcome)
    requires newId !in s.users
    ensures picture.None? ==> r == Outcome(s, SERVER_ERROR, ["Server error"])
    ensures picture.Some? && RegisterErrors(form.username, emailValid, form.password) != [] ==>
              r == Outcome(s, BAD_REQUEST, RegisterErrors(form.username, emailValid, form.password))
    ensures r.status == CONFLICT <==>
              picture.Some? && RegisterErrors(form.username, emailValid, form.password) == [] &&
              (UsernameTaken(s.users, form.username) || EmailTaken(s.users, form.email))
    ensures r.status == CONFLICT ==>
              r.store == s &&
              r.messages == (if UsernameTaken(s.users, form.username)
                             then ["User Name Already Exists!"] else ["User Already Exists!"])
    ensures r.status == OK <==>
              picture.Some? && RegisterErrors(form.username, emailValid, form.password) == [] &&
              !UsernameTaken(s.users, form.username) && !EmailTaken(s.users, form.email) &&
              form.email != ""
    ensures r.status == OK ==>
              && r.store.users.Keys == s.users.Keys + {newId}
              && (forall k | k in s.users :: r.store.users[k] == s.users[k])
              && r.store.users[newId].username == form.username
              && r.store.users[newId].email == form.email
              && r.store.users[newId].password == Some(Hash(form.password))
              && r.store.users[newId].picturePath == picture.value
              && r.store.users[newId].followers == (if form.followers.Some? then form.followers.value else [])
              && r.store.users[newId].followings == (if form.followings.Some? then form.followings.value else [])
              && !r.store.users[newId].verified
              && r.store.verification == s.verification[newId := Hash(otp)]
              && r.store.reset == s.reset
    ensures r.status != OK ==> r.store == s
    ensures UniqueKeys(s.users) ==> UniqueKeys(r.store.users)
  {
    if picture.None? then Outcome(s, SERVER_ERROR, ["Server error"])
    else
      var errors := RegisterErrors(form.username, emailValid, form.password);
      if errors != [] then Outcome(s, BAD_REQUEST, errors)
      else if UsernameTaken(s.users, form.username) then Outcome(s, CONFLICT, ["User Name Already Exists!"])
      else if EmailTaken(s.users, form.email) then Outcome(s, CONFLICT, ["User Already Exists!"])
      else
        var u := NewUser(form.username, form.email, Some(""), Some(Hash(form.password)), picture,
                         form.followers, form.followings, Some(""));
        match Save(s.users, newId, u)
        case Err(_) => Outcome(s, SERVER_ERROR, ["Server error"])
        case Ok(users) =>
          Outcome(s.(users := users, verification := s.verification[newId := Hash(otp)]), OK, ["Please check your email"])
  }

  /** verifyEmail, with its checks in order: unknown user, already verified,
      no token, missing code (the comparison throws: 500), wrong code; then
      mark the user verified and delete the token. */
  function VerifyEmail(s: Store, id: Id, otp: Option<string>): (r: Outcome)
    ensures id !in s.users ==> r == Outcome(s, BAD_REQUEST, ["User not found"])
    ensures id in s.users && s.users[id].verified ==> r == Outcome(s, BAD_REQUEST, ["User already verified"])
    ensures id in s.users && !s.users[id].verified && id !in s.verification ==>
              r == Outcome(s, BAD_REQUEST, ["Sorry token not found"])
    ensures id in s.users && !s.users[id].verified && id in s.verification && otp.None? ==>
              r == Outcome(s, SERVER_ERROR, ["Internal server error"])
    ensures id in s.users && !s.users[id].verified && id in s.verification && otp.Some? &&
            !Matches(otp.value, s.verification[id]) ==>
              r == Outcome(s, BAD_REQUEST, ["Token is not valid"])
    ensures r.status == OK <==>
              id in s.users && !s.users[id].verified && id in s.verification &&
              otp.Some? && Matches(otp.value, s.verification[id])
    ensures r.status == OK ==>
              r.store == Store(s.users[id := s.users[id].(verified := true)], s.verification - {id}, s.reset)
    ensures r.status != OK ==> r.store == s
  {
    if id !in s.users then Outcome(s, BAD_REQUEST, ["User not found"])
    else if s.users[id].verified then Outcome(s, BAD_REQUEST, ["User already verified"])
    else if id !in s.verification then Outcome(s, BAD_REQUEST, ["Sorry token not found"])
    else if otp.None? then Outcome(s, SERVER_ERROR, ["Internal server error"])
    else if !Matches(otp.value, s.verification[id]) then Outcome(s, BAD_REQUEST, ["Token is not valid"])
    else
      Outcome(Store(s.users[id := s.users[id].(verified := true)], s.verification - {id}, s.reset), OK, [])
  }

  /** A successful registration can be verified with the code that was
      sent, and only once. */
  lemma RegisterThenVerify(s: Store, form: Registration, picture: Option<string>, emailValid: bool,
                           otp: string, newId: Id)
    requires newId !in s.users
    requires Register(s, form, picture, emailValid, otp, newId).status == OK
    ensures VerifyEmail(Register(s, form, picture, emailValid, otp, newId).store, newId, Some(otp)).status == OK
    ensures var t := VerifyEmail(Register(s, form, picture, emailValid, otp, newId).store, newId, Some(otp)).store;
            VerifyEmail(t, newId, Some(otp)) == Outcome(t, BAD_REQUEST, ["User already verified"])
  {
  }

  /** forgotpassword: unknown e-mail, or a reset token already outstanding,
      is refused; otherwise exactly one token is stored for the user. */
  function ForgotPassword(s: Store, email: string, random: string): (r: Outcome)
    requires UniqueKeys(s.users)
    ensures !EmailTaken(s.users, email) ==> r == Outcome(s, BAD_REQUEST, ["User not found"])
    ensures (exists k | k in s.users :: s.users[k].email == email && k in s.reset) ==>
              r == Outcome(s, BAD_REQUEST, ["After one hour you can try!"])
    ensures r.status == OK <==>
              exists k | k in s.users :: s.users[k].email == email && k !in s.reset
    ensures r.status == OK ==>
              r.store.users == s.users && r.store.verification == s.verification &&
              exists k | k in s.users && s.users[k].email == email ::
                k !in s.reset && r.store.reset == s.reset[k := Hash(random)]
    ensures r.status != OK ==> r.store == s
  {
    match FindByEmail(s.users, email)
    case None => Outcome(s, BAD_REQUEST, ["User not found"])
    case Some(k) =>
      if k in s.reset then Outcome(s, BAD_REQUEST, ["After one hour you can try!"])
      else Outcome(s.(reset := s.reset[k := Hash(random)]), OK, ["Check your email to reset password"])
  }

  /** resetPassword, with its checks in order: token and id both given,
      known user, a stored reset token, a matching token, then the password
      rules. Success replaces the password digest and leaves the reset
      token in place. */
  function ResetPassword(s: Store, token: Option<string>, id: Option<Id>, password: string): (r: Outcome)
    ensures !Truthy(token) || id.None? ==> r == Outcome(s, BAD_REQUEST, ["Invalid request"])
    ensures Truthy(token) && id.Some? && id.value !in s.users ==> r == Outcome(s, BAD_REQUEST, ["User not found"])
    ensures Truthy(token) && id.Some? && id.value in s.users && id.value !in s.reset ==>
              r == Outcome(s, BAD_REQUEST, ["Reset token is not found"])
    ensures Truthy(token) && id.Some? && id.value in s.users && id.value in s.reset &&
            !Matches(token.value, s.reset[id.value]) ==>
              r == Outcome(s, BAD_REQUEST, ["Token is not valid"])
    ensures Truthy(token) && id.Some? && id.value in s.users && id.value in s.reset &&
            Matches(token.value, s.reset[id.value]) && ResetErrors(password) != [] ==>
              r == Outcome(s, BAD_REQUEST, ResetErrors(password))
    ensures r.status == OK <==>
              Truthy(token) && id.Some? && id.value in s.users && id.value in s.reset &&
              Matches(token.value, s.reset[id.value]) && ResetErrors(password) == []
    ensures r.status == OK ==>
              r.store == s.(users := s.users[id.value := s.users[id.value].(password := Some(Hash(password)))])
    ensures r.store.reset == s.reset
    ensures r.status != OK ==> r.store == s
  {
    if !Truthy(token) || id.None? then Outcome(s, BAD_REQUEST, ["Invalid request"])
    else if id.value !in s.users then Outcome(s, BAD_REQUEST, ["User not found"])
    else if id.value !in s.reset then Outcome(s, BAD_REQUEST, ["Reset token is not found"])
    else if !Matches(token.value, s.reset[id.value]) then Outcome(s, BAD_REQUEST, ["Token is not valid"])
    else
      var errors := ResetErrors(password);
      if errors != [] then Outcome(s, BAD_REQUEST, errors)
      else
        var u := s.users[id.value];
        Outcome(s.(users := s.users[id.value := u.(password := Some(Hash(password)))]), OK, ["Email has been send"])
  }

  /** Because a reset leaves its token behind, once a user has asked for a
      reset every later request is refused, also after the reset went
      through. */
  lemma ForgotLockedAfterReset(s: Store, email: string, random: string, password: string, random2: string)
    requires UniqueKeys(s.users)
    requires ForgotPassword(s, email, random).status == OK
    ensures var k := FindByEmail(s.users, email).value;
            var s1 := ForgotPassword(s, email, random).store;
            var s2 := ResetPassword(s1, Some(random), Some(k), password).store;
            ForgotPassword(s2, email, random2) == Outcome(s2, BAD_REQUEST, ["After one hour you can try!"])
  {
    var k := FindByEmail(s.users, email).value;
    var s1 := ForgotPassword(s, email, random).store;
    assert k in s1.reset;
    var s2 := ResetPassword(s1, Some(random), Some(k), password).store;
    assert s2.users[k].email == email && k in s2.reset;
    assert EmailTaken(s2.users, email);
    assert UniqueKeys(s2.users);
    var k' := FindByEmail(s2.users, email).value;
    assert s2.users[k'].email == email;
    assert k' == k;
  }

  /** What a verified Google token carries. */
  datatype GoogleProfile = GoogleProfile(name: string, email: string, picture: string)

  /** googleLogin. An unverifiable token (None) is 401. A known e-mail logs
      in without writing. Otherwise a user is created with the Google name
      as username; a save failure (the name already taken, or missing) also
      lands in the catch and is reported as 401. */
  function GoogleLogin(s: Store, payload: Option<GoogleProfile>, newId: Id): (r: Outcome)
    requires newId !in s.users
    ensures payload.None? ==> r == Outcome(s, UNAUTHORIZED, ["Invalid token"])
    ensures payload.Some? && EmailTaken(s.users, payload.value.email) ==> r == Outcome(s, OK, [])
    ensures r.status != OK ==> r.store == s
    ensures r.store != s ==>
              && payload.Some? && !EmailTaken(s.users, payload.value.email)
              && newId in r.store.users
              && r.store == s.(users := s.users[newId := r.store.users[newId]])
              && r.store.users[newId].username == payload.value.name
              && r.store.users[newId].email == payload.value.email
              && r.store.users[newId].picturePath == payload.value.picture
              && r.store.users[newId].followers == [] && r.store.users[newId].followings == []
              && r.store.users[newId].password.None?
    ensures payload.Some? && !EmailTaken(s.users, payload.value.email) &&
            (payload.value.name == "" || payload.value.email == "" || UsernameTaken(s.users, payload.value.name)) ==>
              r == Outcome(s, UNAUTHORIZED, ["Invalid token"])
    ensures payload.Some? && !EmailTaken(s.users, payload.value.email) && r.status == OK ==>
              r.store == s.(users := s.users[newId := NewUser(payload.value.name, payload.value.email, None, None,
                                                              Some(payload.value.picture), None, None, None)])
    ensures payload.Some? && !EmailTaken(s.users, payload.value.email) ==>
              (r.status == OK <==> payload.value.name != "" && payload.value.email != "" &&
                                   !UsernameTaken(s.users, payload.value.name))
    ensures UniqueKeys(s.users) ==> UniqueKeys(r.store.users)
  {
    if payload.None? then Outcome(s, UNAUTHORIZED, ["Invalid token"])
    else
      var g := payload.value;
      if EmailTaken(s.users, g.email) then Outcome(s, OK, [])
      else
        var u := NewUser(g.name, g.email, None, None, Some(g.picture), None, None, None);
        match Save(s.users, newId, u)
        case Err(_) => Outcome(s, UNAUTHORIZED, ["Invalid token"])
        case Ok(users) => Outcome(s.(users := users), OK, [])
  }

  /** Signing in with Google twice creates at most one account. */
  lemma GoogleLoginOnce(s: Store, g: GoogleProfile, n1: Id, n2: Id)
    requires n1 !in s.users && n2 !in GoogleLogin(s, Some(g), n1).store.users
    ensures var t := GoogleLogin(s, Some(g), n1).store;
            GoogleLogin(t, Some(g), n2).store == t
  {
    var t := GoogleLogin(s, Some(g), n1).store;
    if t != s {
      assert t.users[n1].email == g.email;
    }
  }
}
