/** `AuthService.register` and `login` (backend/src/auth/auth.service.ts) over
    an in-memory user table. bcrypt and JWT signing are the parameters `hash`,
    `verify` and `sign`; the fresh user id comes from the caller. */
module Auth {
  import opened Wrappers
  import opened Text
  import opened Errors

  datatype User = User(id: string, email: string, passwordHash: string, name: Option<string>)

  datatype RegisterDto = RegisterDto(email: string, password: string, name: Option<string>)
  datatype LoginDto = LoginDto(email: string, password: string)

  /** The JWT claims: `sub` is the user id. */
  datatype JwtPayload = JwtPayload(sub: string, email: string)

  /** The user part of the auth result: no password hash. */
  datatype PublicUser = PublicUser(id: string, email: string, name: Option<string>)
  datatype AuthResult = AuthResult(accessToken: string, user: PublicUser)

  const ConflictMessage: string := "User with this email already exists"
  const InvalidCredentialsMessage: string := "Invalid email or password"

  /** The database's unique constraints on `id` and `email`. */
  predicate WellFormed(users: seq<User>) {
    forall i, j :: 0 <= i < j < |users| ==> users[i].id != users[j].id && users[i].email != users[j].email
  }

  /** `findUnique({ where: { email } })`. */
  function FindByEmail(users: seq<User>, email: string): (r: Option<User>)
    ensures r.Some? ==> r.value in users && r.value.email == email
    ensures r.None? <==> forall u :: u in users ==> u.email != email
  {
    if |users| == 0 then None
    else if users[0].email == email then Some(users[0])
    else
      assert forall u :: u in users <==> u == users[0] || u in users[1..];
      FindByEmail(users[1..], email)
  }

  /** `buildAuthResult(user)`: the public fields and a token signed over the
      stored id and email. */
  function BuildAuthResult(u: User, sign: JwtPayload -> string): (r: AuthResult)
    ensures r.user.id == u.id && r.user.email == u.email && r.user.name == u.name
    ensures r.accessToken == sign(JwtPayload(u.id, u.email))
  {
    AuthResult(sign(JwtPayload(u.id, u.email)), PublicUser(u.id, u.email, u.name))
  }

  datatype RegisterOutcome = RegisterOutcome(users: seq<User>, result: Result<AuthResult, Exception>)

  /** `register(dto)`: 409 when the lower-cased email is taken; otherwise one
      new user with the lower-cased email and the hash of the password. */
  function Register(users: seq<User>, dto: RegisterDto, newId: string,
                    hash: string -> string, sign: JwtPayload -> string): (o: RegisterOutcome)
    ensures (exists u :: u in users && u.email == ToLower(dto.email)) <==> o.result.Failure?
    ensures o.result.Failure? ==> o.users == users && o.result.error == Conflict(ConflictMessage)
    ensures o.result.Success? ==>
              var u := User(newId, ToLower(dto.email), hash(dto.password), dto.name);
              && o.users == users + [u]
              && o.result.value == BuildAuthResult(u, sign)
  {
    var email := ToLower(dto.email);
    if FindByEmail(users, email).Some? then RegisterOutcome(users, Failure(Conflict(ConflictMessage)))
    else
      var u := User(newId, email, hash(dto.password), dto.name);
      RegisterOutcome(users + [u], Success(BuildAuthResult(u, sign)))
  }

  /** `login(dto)`: the user found by lower-cased email whose stored hash
      verifies the password, or one and the same 401 otherwise. The table is
      only read. */
  function Login(users: seq<User>, dto: LoginDto, verify: (string, string) -> bool,
                 sign: JwtPayload -> string): (r: Result<AuthResult, Exception>)
    ensures r.Success? ==> exists u :: u in users && u.email == ToLower(dto.email)
                                       && verify(dto.password, u.passwordHash)
                                       && r.value == BuildAuthResult(u, sign)
    ensures r.Failure? ==> r.error == Unauthorized(InvalidCredentialsMessage)
    ensures (forall u :: u in users ==> u.email != ToLower(dto.email)) ==> r.Failure?
    ensures WellFormed(users) ==>
              (r.Success? <==> exists u :: u in users && u.email == ToLower(dto.email)
                                           && verify(dto.password, u.passwordHash))
  {
    var found := FindByEmail(users, ToLower(dto.email));
    assert WellFormed(users) && found.Some? ==>
             forall w :: w in users && w.email == found.value.email ==> w == found.value by {
      if WellFormed(users) && found.Some? { EmailsIdentifyUsers(users, found.value); }
    }
    match found
    case None => Failure(Unauthorized(InvalidCredentialsMessage))
    case Some(u) =>
      if !verify(dto.password, u.passwordHash) then Failure(Unauthorized(InvalidCredentialsMessage))
      else Success(BuildAuthResult(u, sign))
  }

  /** In a well-formed table an email names at most one user. */
  lemma EmailsIdentifyUsers(users: seq<User>, u: User)
    requires WellFormed(users) && u in users
    ensures forall w :: w in users && w.email == u.email ==> w == u
  {
    forall w | w in users && w.email == u.email ensures w == u {
      var i :| 0 <= i < |users| && users[i] == u;
      var j :| 0 <= j < |users| && users[j] == w;
      assert i == j;
    }
  }

  /** Emails are compared after lower-casing: addresses that differ only in
      case log in to the same account and collide on registration. */
  lemma EmailCaseInsensitive(users: seq<User>, email1: string, email2: string, password: string,
                             name: Option<string>, newId: string,
                             verify: (string, string) -> bool, hash: string -> string,
                             sign: JwtPayload -> string)
    requires ToLower(email1) == ToLower(email2)
    ensures Login(users, LoginDto(email1, password), verify, sign)
            == Login(users, LoginDto(email2, password), verify, sign)
    ensures var o := Register(users, RegisterDto(email1, password, name), newId, hash, sign);
            o.result.Success? ==>
              Register(o.users, RegisterDto(email2, password, name), newId, hash, sign).result
              == Failure(Conflict(ConflictMessage))
  {
    var o := Register(users, RegisterDto(email1, password, name), newId, hash, sign);
    if o.result.Success? {
      assert o.users[|users|] in o.users;
    }
  }

  /** An unknown email and a wrong password are indistinguishable. */
  lemma LoginFailuresIndistinguishable(users: seq<User>, unknown: LoginDto, wrong: LoginDto,
                                       verify: (string, string) -> bool, sign: JwtPayload -> string)
    requires forall u :: u in users ==> u.email != ToLower(unknown.email)
    requires forall u :: u in users && u.email == ToLower(wrong.email) ==> !verify(wrong.password, u.passwordHash)
    ensures Login(users, unknown, verify, sign) == Login(users, wrong, verify, sign)
  {
  }

  /** `register` keeps ids and emails unique, given a fresh id. */
  lemma RegisterPreservesWellFormed(users: seq<User>, dto: RegisterDto, newId: string,
                                    hash: string -> string, sign: JwtPayload -> string)
    requires WellFormed(users)
    requires forall u :: u in users ==> u.id != newId
    ensures WellFormed(Register(users, dto, newId, hash, sign).users)
  {
    var o := Register(users, dto, newId, hash, sign);
    if o.result.Success? {
      forall i, j | 0 <= i < j < |o.users|
        ensures o.users[i].id != o.users[j].id && o.users[i].email != o.users[j].email
      {
        assert o.users[i] == users[i];
        assert users[i] in users;
        if j < |users| { assert o.users[j] == users[j]; }
      }
    }
  }

  /** Every stored email is already in lower case. */
  predicate EmailsLowerCase(users: seq<User>)
  {
    forall u :: u in users ==> ToLower(u.email) == u.email
  }

  /** `register` stores only lower-cased emails, so a table that starts in
      lower case stays so. */
  lemma RegisterKeepsEmailsLowerCase(users: seq<User>, dto: RegisterDto, newId: string,
                                     hash: string -> string, sign: JwtPayload -> string)
    requires EmailsLowerCase(users)
    ensures EmailsLowerCase(Register(users, dto, newId, hash, sign).users)
  {
  }

  /** Registering then logging in with the same password (under any casing of
      the email) returns the new account, provided the hash verifies its own
      password. */
  lemma RegisterThenLogin(users: seq<User>, dto: RegisterDto, newId: string, loginEmail: string,
                          hash: string -> string, verify: (string, string) -> bool,
                          sign: JwtPayload -> string)
    requires ToLower(loginEmail) == ToLower(dto.email)
    requires verify(dto.password, hash(dto.password))
    requires Register(users, dto, newId, hash, sign).result.Success?
    ensures Login(Register(users, dto, newId, hash, sign).users,
                  LoginDto(loginEmail, dto.password), verify, sign)
            == Register(users, dto, newId, hash, sign).result
  {
    var o := Register(users, dto, newId, hash, sign);
    var u := User(newId, ToLower(dto.email), hash(dto.password), dto.name);
    assert o.users[|users|] == u;
    forall w | w in o.users && w.email == ToLower(dto.email) ensures w == u {
      if w in users {
        assert false;
      }
    }
  }
}
