/** `services/auth_service.py`: registration, login, token refresh and
    lookup, as a sequential state machine over the `users` collection. */
module AuthService {

  import opened Results
  import opened Json
  import opened Timestamps
  import opened Helpers
  import opened Exceptions
  import opened UserModel
  import opened Tokens

  /** What the service takes from code it does not contain: bcrypt, the
      character class `\d` matches, and the token lifetimes the application
      configuration resolves (`Configured()` as written). */
  datatype Platform = Platform(bcrypt: Bcrypt, isDecimal: char -> bool, jwt: Lifetimes)

  /** The collection after an operation, and what the operation returned or
      raised. */
  datatype Step<T> = Step(store: Db, result: Result<T, AppError>)

  const InvalidEmailFormat := "Invalid email format"
  const InvalidRole := "Invalid role. Must be teacher, student, or admin"
  const EmailExists := "User with this email already exists"
  const InvalidCredentials := "Invalid email or password"
  const UserNotFound := "User not found"
  const BearerType := "Bearer"

  /** `profile or {}`: a missing or empty profile becomes `{}`. */
  function ProfileOrEmpty(profile: Option<map<string, Value>>): map<string, Value> {
    if profile.Some? && |profile.value| > 0 then profile.value else map[]
  }

  // ---------------------------------------------------------------------
  // register_user
  // ---------------------------------------------------------------------

  /** `register_user(email, password, role, profile)`. `salt` stands for
      `bcrypt.gensalt()` and `now` for `datetime.utcnow()`. */
  function RegisterUser(s: Db, p: Platform, email: string, password: string, role: string,
                        profile: Option<map<string, Value>>, salt: string, now: DateTime): (r: Step<User>)
    ensures r.result.Err? ==> r.store == s
    ensures !RegexAccepts(email) ==> r.result == Err(ValidationError(InvalidEmailFormat))
    ensures RegexAccepts(email) && !StrongPassword(password, p.isDecimal)
      ==> r.result == Err(ValidationError(ValidatePassword(password, p.isDecimal).1.value))
    ensures RegexAccepts(email) && StrongPassword(password, p.isDecimal) && role !in RoleChoices
      ==> r.result == Err(ValidationError(InvalidRole))
    ensures RegexAccepts(email) && StrongPassword(password, p.isDecimal) && role in RoleChoices && EmailTaken(s, email)
      ==> r.result == Err(ConflictError(EmailExists))
    ensures r.result.Ok?
      <==> RegexAccepts(email) && StrongPassword(password, p.isDecimal) && role in RoleChoices && !EmailTaken(s, email)
  {
    ValidateEmailMatchesRegex(email);
    if !ValidateEmail(email) then Step(s, Err(ValidationError(InvalidEmailFormat)))
    else
      var (valid, message) := ValidatePassword(password, p.isDecimal);
      if !valid then Step(s, Err(ValidationError(message.value)))
      else match ParseRole(role)
        case None => Step(s, Err(ValidationError(InvalidRole)))
        case Some(r) =>
          if FindByEmail(s, email).Some? then Step(s, Err(ConflictError(EmailExists)))
          else
            var u := Save(SetPassword(NewUser(s.nextId, email, r, now, ProfileOrEmpty(profile)), p.bcrypt, password, salt), now);
            Step(Insert(s, u), Ok(u))
  }

  /** A successful registration adds exactly one document, under a new id,
      holding the given email and role, the profile (or `{}`), the default
      settings, both timestamps at `now`, no last login, and a hash that the
      password checks against. */
  lemma RegisterCreates(s: Db, p: Platform, email: string, password: string, role: string,
                        profile: Option<map<string, Value>>, salt: string, now: DateTime)
    ensures var r := RegisterUser(s, p, email, password, role, profile, salt, now);
      r.result.Ok? ==>
      var u := r.result.value;
      && u.id !in s.users
      && r.store.users == s.users[u.id := u]
      && |r.store.users| == |s.users| + 1
      && u.email == email && RoleName(u.role) == role
      && u.profile == (if profile.Some? then profile.value else map[])
      && u.settings == DefaultSettings()
      && u.createdAt == Some(now) && u.updatedAt == Some(now) && u.lastLogin == None
      && (HashRoundTrip(p.bcrypt) ==> CheckPassword(u, p.bcrypt, password))
  {
    var r := RegisterUser(s, p, email, password, role, profile, salt, now);
    if r.result.Ok? {
      var u := r.result.value;
      assert u.id == s.nextId;
    }
  }

  /** Once an email is registered, registering it again fails with a
      conflict, whatever the role or profile, if the other inputs are valid. */
  lemma RegisterTwiceConflicts(s: Db, p: Platform, email: string, password: string, role: string,
                               profile: Option<map<string, Value>>, salt: string, now: DateTime,
                               password2: string, role2: string, profile2: Option<map<string, Value>>,
                               salt2: string, now2: DateTime)
    requires StrongPassword(password2, p.isDecimal) && role2 in RoleChoices
    ensures var r1 := RegisterUser(s, p, email, password, role, profile, salt, now);
      var r2 := RegisterUser(r1.store, p, email, password2, role2, profile2, salt2, now2);
      r1.result.Ok? ==> r2.result == Err(ConflictError(EmailExists)) && r2.store == r1.store
  {
    var r := RegisterUser(s, p, email, password, role, profile, salt, now);
    if r.result.Ok? {
      var u := r.result.value;
      assert r.store.users[u.id].email == email;
    }
  }

  // ---------------------------------------------------------------------
  // login_user
  // ---------------------------------------------------------------------

  /** The dictionary `login_user` returns. */
  datatype LoginResult = LoginResult(accessToken: Token, refreshToken: Token, tokenType: string,
                                     expiresIn: int, user: map<string, Value>)

  /** `login_user(email, password)`. */
  function LoginUser(s: Db, p: Platform, email: string, password: string, now: DateTime): (r: Step<LoginResult>)
    ensures r.result.Err? ==> r.store == s && r.result.error == AuthenticationError(InvalidCredentials)
    ensures r.result.Ok?
      <==> exists id | id in s.users :: s.users[id].email == email && CheckPassword(s.users[id], p.bcrypt, password)
    ensures r.result.Ok? ==>
      && r.result.value.accessToken.lifetime == p.jwt.access
      && r.result.value.refreshToken.lifetime == p.jwt.refresh
      && r.result.value.expiresIn == ReportedExpiresIn
  {
    match FindByEmail(s, email)
    case None => Step(s, Err(AuthenticationError(InvalidCredentials)))
    case Some(u) =>
      if !CheckPassword(u, p.bcrypt, password) then Step(s, Err(AuthenticationError(InvalidCredentials)))
      else
        var logged := Save(u.(lastLogin := Some(now)), now);
        Step(Put(s, logged), Ok(LoginResult(
          CreateAccessToken(IdText(logged.id), now, p.jwt),
          CreateRefreshToken(IdText(logged.id), now, p.jwt),
          BearerType, ReportedExpiresIn, UserModel.ToDict(logged))))
  }

  /** An unknown email and a wrong password are reported identically. */
  lemma LoginFailuresIndistinguishable(s: Db, p: Platform, unknown: string, known: string,
                                       wrong: string, anyPassword: string, now: DateTime)
    requires !EmailTaken(s, unknown)
    requires forall id | id in s.users && s.users[id].email == known :: !CheckPassword(s.users[id], p.bcrypt, wrong)
    ensures LoginUser(s, p, unknown, anyPassword, now) == LoginUser(s, p, known, wrong, now)
  {
  }

  /** Logging in as the document `id` with its password touches that
      document alone, setting `last_login` and `updated_at` to `now`, and
      returns a Bearer pair of tokens for `str(id)` living the platform's
      `jwt.access` and `jwt.refresh` lifetimes, with `expires_in` the literal
      900 and the updated document's dictionary. */
  lemma LoginUpdatesOnlyThatUser(s: Db, p: Platform, email: string, password: string, now: DateTime, id: Id)
    requires id in s.users && s.users[id].email == email
    ensures var r := LoginUser(s, p, email, password, now);
      r.result.Ok? <==> CheckPassword(s.users[id], p.bcrypt, password)
    ensures var r := LoginUser(s, p, email, password, now);
      var logged := s.users[id].(lastLogin := Some(now), updatedAt := Some(now));
      r.result.Ok? ==>
        && r.store.users == s.users[id := logged]
        && r.store.nextId == s.nextId
        && r.result.value.accessToken == Token(Access, IdText(id), now, p.jwt.access)
        && r.result.value.refreshToken == Token(Refresh, IdText(id), now, p.jwt.refresh)
        && r.result.value.tokenType == "Bearer"
        && r.result.value.expiresIn == 900
        && r.result.value.user == UserModel.ToDict(logged)
  {
    var found := FindByEmail(s, email);
    assert found == Some(s.users[id]);
  }

  // ---------------------------------------------------------------------
  // refresh_access_token / get_user_by_id
  // ---------------------------------------------------------------------

  /** The dictionary `refresh_access_token` returns. */
  datatype RefreshResult = RefreshResult(accessToken: Token, expiresIn: int)

  /** `refresh_access_token(user_id)`: reads the collection, never writes it
      (the signature returns no new collection). */
  function RefreshAccessToken(s: Db, jwt: Lifetimes, userId: string, now: DateTime): (r: Result<RefreshResult, AppError>)
    ensures r.Err? <==> forall id | id in s.users :: IdText(id) != userId
    ensures r.Err? ==> r.error == AuthenticationError(UserNotFound)
    ensures r.Ok? ==> r.value == RefreshResult(Token(Access, userId, now, jwt.access), 900)
  {
    match FindByIdText(s, userId)
    case None => Err(AuthenticationError(UserNotFound))
    case Some(u) => Ok(RefreshResult(CreateAccessToken(IdText(u.id), now, jwt), ReportedExpiresIn))
  }

  /** Under the configuration as written, a successful login hands out an
      access token that lives sixty times the `expires_in` it reports. */
  lemma LoginLifetimeAsConfigured(s: Db, p: Platform, email: string, password: string, now: DateTime)
    requires p.jwt == Configured()
    ensures var r := LoginUser(s, p, email, password, now);
      r.result.Ok? ==>
        && r.result.value.accessToken.lifetime == 60 * r.result.value.expiresIn
        && r.result.value.accessToken.lifetime != r.result.value.expiresIn
  {
    var r := LoginUser(s, p, email, password, now);
    if r.result.Ok? {
      var id :| id in s.users && s.users[id].email == email && CheckPassword(s.users[id], p.bcrypt, password);
      LoginUpdatesOnlyThatUser(s, p, email, password, now, id);
    }
  }

  /** Under the intended configuration, the access token a login hands out
      lives exactly the `expires_in` it reports. */
  lemma LoginLifetimeAsIntended(s: Db, p: Platform, email: string, password: string, now: DateTime)
    requires p.jwt == Intended()
    ensures var r := LoginUser(s, p, email, password, now);
      r.result.Ok? ==> r.result.value.accessToken.lifetime == r.result.value.expiresIn
  {
    var r := LoginUser(s, p, email, password, now);
    if r.result.Ok? {
      var id :| id in s.users && s.users[id].email == email && CheckPassword(s.users[id], p.bcrypt, password);
      LoginUpdatesOnlyThatUser(s, p, email, password, now, id);
    }
  }

  /** The same for a refresh: as written the new access token outlives its
      reported `expires_in` sixtyfold; as intended the two agree. */
  lemma RefreshLifetimes(s: Db, userId: string, now: DateTime)
    ensures var r := RefreshAccessToken(s, Configured(), userId, now);
      r.Ok? ==> r.value.accessToken.lifetime == 60 * r.value.expiresIn
    ensures var r := RefreshAccessToken(s, Intended(), userId, now);
      r.Ok? ==> r.value.accessToken.lifetime == r.value.expiresIn
  {
  }

  /** `get_user_by_id(user_id)`: the document whose `str(id)` is `userId`,
      or none. */
  function GetUserById(s: Db, userId: string): (r: Option<User>)
    ensures r.Some? <==> exists id | id in s.users :: IdText(id) == userId
    ensures r.Some? ==> r.value.id in s.users && s.users[r.value.id] == r.value && IdText(r.value.id) == userId
  {
    FindByIdText(s, userId)
  }

  // ---------------------------------------------------------------------
  // The service as a state machine
  // ---------------------------------------------------------------------

  datatype Request =
    | Register(email: string, password: string, role: string, profile: Option<map<string, Value>>, salt: string)
    | Login(email: string, password: string)
    | RefreshToken(userId: string)
    | Lookup(userId: string)

  datatype Response =
    | Registered(registered: Result<User, AppError>)
    | LoggedIn(loggedIn: Result<LoginResult, AppError>)
    | Refreshed(refreshed: Result<RefreshResult, AppError>)
    | Found(found: Option<User>)

  /** One request against the collection, at clock reading `now`. */
  function Apply(s: Db, p: Platform, req: Request, now: DateTime): (Db, Response) {
    match req
    case Register(email, password, role, profile, salt) =>
      var r := RegisterUser(s, p, email, password, role, profile, salt, now);
      (r.store, Registered(r.result))
    case Login(email, password) =>
      var r := LoginUser(s, p, email, password, now);
      (r.store, LoggedIn(r.result))
    case RefreshToken(userId) => (s, Refreshed(RefreshAccessToken(s, p.jwt, userId, now)))
    case Lookup(userId) => (s, Found(GetUserById(s, userId)))
  }

  /** Requests served one after another, each with its own clock reading. */
  function Run(s: Db, p: Platform, reqs: seq<(Request, DateTime)>): Db
    decreases |reqs|
  {
    if |reqs| == 0 then s else Run(Apply(s, p, reqs[0].0, reqs[0].1).0, p, reqs[1..])
  }

  /** What a request may never change about a stored document: it stays, with
      its id, email, role, hash and creation time. */
  ghost predicate Keeps(before: Db, after: Db) {
    forall id | id in before.users ::
      && id in after.users
      && after.users[id].email == before.users[id].email
      && after.users[id].role == before.users[id].role
      && after.users[id].passwordHash == before.users[id].passwordHash
      && after.users[id].createdAt == before.users[id].createdAt
  }

  /** Writing one document that keeps its stored email, role, hash and
      creation time, or adding a new one, keeps every stored document. */
  lemma UpdateKeeps(before: Db, after: Db, u: User)
    requires after.users == before.users[u.id := u]
    requires u.id in before.users ==>
      var old_ := before.users[u.id];
      u.email == old_.email && u.role == old_.role && u.passwordHash == old_.passwordHash && u.createdAt == old_.createdAt
    ensures Keeps(before, after)
  {
  }

  lemma RegisterKeeps(s: Db, p: Platform, email: string, password: string, role: string,
                      profile: Option<map<string, Value>>, salt: string, now: DateTime)
    ensures var r := RegisterUser(s, p, email, password, role, profile, salt, now);
      Keeps(s, r.store) && r.store.nextId >= s.nextId
  {
    var r := RegisterUser(s, p, email, password, role, profile, salt, now);
    if r.result.Ok? {
      RegisterCreates(s, p, email, password, role, profile, salt, now);
      var u := r.result.value;
      assert u.id == s.nextId;
      UpdateKeeps(s, r.store, u);
    }
  }

  lemma LoginKeeps(s: Db, p: Platform, email: string, password: string, now: DateTime)
    ensures var r := LoginUser(s, p, email, password, now);
      Keeps(s, r.store) && r.store.nextId == s.nextId
  {
    var r := LoginUser(s, p, email, password, now);
    if r.result.Ok? {
      var id :| id in s.users && s.users[id].email == email && CheckPassword(s.users[id], p.bcrypt, password);
      LoginUpdatesOnlyThatUser(s, p, email, password, now, id);
      UpdateKeeps(s, r.store, s.users[id].(lastLogin := Some(now), updatedAt := Some(now)));
    }
  }

  lemma ApplyKeeps(s: Db, p: Platform, req: Request, now: DateTime)
    ensures Keeps(s, Apply(s, p, req, now).0)
    ensures Apply(s, p, req, now).0.nextId >= s.nextId
  {
    match req
    case Register(email, password, role, profile, salt) =>
      RegisterKeeps(s, p, email, password, role, profile, salt, now);
    case Login(email, password) =>
      LoginKeeps(s, p, email, password, now);
    case RefreshToken(_) =>
    case Lookup(_) =>
  }

  /** No sequence of requests deletes a document or changes its email, role,
      hash or creation time, and ids are never reused. */
  lemma {:induction false} RunKeeps(s: Db, p: Platform, reqs: seq<(Request, DateTime)>)
    ensures Keeps(s, Run(s, p, reqs))
    ensures Run(s, p, reqs).nextId >= s.nextId
    decreases |reqs|
  {
    if |reqs| > 0 {
      var next := Apply(s, p, reqs[0].0, reqs[0].1).0;
      ApplyKeeps(s, p, reqs[0].0, reqs[0].1);
      RunKeeps(next, p, reqs[1..]);
    }
  }
}
