/** `models/user.py`: the user document, its password handling, its public
    dictionary form, and the collection that holds the documents. */
module UserModel {

  import opened Results
  import opened Json
  import opened Digits
  import opened Timestamps

  // ---------------------------------------------------------------------
  // Roles: `StringField(choices=['teacher', 'student', 'admin'])`
  // ---------------------------------------------------------------------

  datatype Role = Teacher | Student | Admin

  function RoleName(r: Role): string {
    match r
    case Teacher => "teacher"
    case Student => "student"
    case Admin => "admin"
  }

  /** The role strings the field accepts, in declaration order. */
  const RoleChoices: seq<string> := ["teacher", "student", "admin"]

  /** The role a string names; None for any string outside the choices. */
  function ParseRole(s: string): (r: Option<Role>)
    ensures r.Some? <==> s in RoleChoices
    ensures r.Some? ==> RoleName(r.value) == s
  {
    if s == "teacher" then Some(Teacher)
    else if s == "student" then Some(Student)
    else if s == "admin" then Some(Admin)
    else None
  }

  lemma RoleNameRoundTrip(r: Role)
    ensures ParseRole(RoleName(r)) == Some(r)
    ensures RoleName(r) in RoleChoices
  {
  }

  // ---------------------------------------------------------------------
  // bcrypt, seen only through `hashpw` and `checkpw`
  // ---------------------------------------------------------------------

  /** The two bcrypt entry points the record uses. The salt comes from
      `bcrypt.gensalt()`, which draws randomness, so callers pass it in. */
  datatype Bcrypt = Bcrypt(hashpw: (string, string) -> string, checkpw: (string, string) -> bool)

  /** The one property of bcrypt the record relies on: a password checks
      against any hash made from it, whatever the salt. */
  ghost predicate HashRoundTrip(b: Bcrypt) {
    forall password, salt :: b.checkpw(password, b.hashpw(password, salt))
  }

  // ---------------------------------------------------------------------
  // The document
  // ---------------------------------------------------------------------

  /** A document id. MongoDB assigns ObjectIds; this model numbers documents
      in creation order. */
  type Id = nat

  /** `str(user.id)`, the identity written into tokens and dictionaries. */
  function IdText(id: Id): string {
    Decimal(id)
  }

  datatype User = User(
    id: Id,
    email: string,
    passwordHash: string,
    role: Role,
    profile: map<string, Value>,
    settings: map<string, Value>,
    createdAt: Option<DateTime>,
    updatedAt: Option<DateTime>,
    lastLogin: Option<DateTime>)

  /** The default of the `settings` field. */
  function DefaultSettings(): map<string, Value> {
    map["notifications" := Object(map["email" := Bool(true), "in_app" := Bool(true)])]
  }

  /** `User(email=..., role=..., profile=...)`: `settings` takes its default,
      `created_at` and `updated_at` take the clock's reading, `last_login` is
      unset, and so is the hash until `set_password` runs. */
  function NewUser(id: Id, email: string, role: Role, now: DateTime, profile: map<string, Value> := map[]): User {
    User(id, email, "", role, profile, DefaultSettings(), Some(now), Some(now), None)
  }

  /** A new document's profile is `{}` unless one is given, and its settings
      enable both notification channels. */
  lemma NewUserDefaults(id: Id, email: string, role: Role, now: DateTime)
    ensures NewUser(id, email, role, now).profile == map[]
    ensures var u := NewUser(id, email, role, now);
      && u.settings.Keys == {"notifications"}
      && u.settings["notifications"].Object?
      && u.settings["notifications"].fields == map["email" := Bool(true), "in_app" := Bool(true)]
    ensures NewUser(id, email, role, now).lastLogin == None
  {
  }

  /** `set_password`: the hash of the password under a fresh salt replaces
      the stored hash. */
  function SetPassword(u: User, b: Bcrypt, password: string, salt: string): User {
    u.(passwordHash := b.hashpw(password, salt))
  }

  /** `check_password`. */
  function CheckPassword(u: User, b: Bcrypt, password: string): bool {
    b.checkpw(password, u.passwordHash)
  }

  /** After `set_password(p)`, `check_password(p)` holds, and only the hash
      has changed. */
  lemma SetThenCheck(u: User, b: Bcrypt, password: string, salt: string)
    requires HashRoundTrip(b)
    ensures CheckPassword(SetPassword(u, b, password, salt), b, password)
    ensures SetPassword(u, b, password, salt).(passwordHash := u.passwordHash) == u
  {
  }

  /** `save()` before the write: `updated_at` becomes the clock's reading and
      no other field changes. */
  function Save(u: User, now: DateTime): (r: User)
    ensures r.updatedAt == Some(now)
    ensures r.(updatedAt := u.updatedAt) == u
  {
    u.(updatedAt := Some(now))
  }

  // ---------------------------------------------------------------------
  // to_dict
  // ---------------------------------------------------------------------

  /** The keys `to_dict` writes. */
  const PublicKeys: set<string> :=
    {"id", "email", "role", "profile", "settings", "created_at", "updated_at", "last_login"}

  /** `dt.isoformat() if dt else None`. */
  function IsoOrNull(dt: Option<DateTime>): Value {
    match dt
    case None => Null
    case Some(t) => Str(IsoFormat(t))
  }

  /** A timestamp and its dictionary value determine each other. */
  lemma IsoOrNullInjective(a: Option<DateTime>, b: Option<DateTime>)
    ensures IsoOrNull(a) == IsoOrNull(b) <==> a == b
  {
    if a.Some? && b.Some? && IsoOrNull(a) == IsoOrNull(b) {
      IsoRoundTrip(a.value);
      IsoRoundTrip(b.value);
    }
  }

  /** `to_dict()`: the record's public fields, without the password hash. */
  function ToDict(u: User): (r: map<string, Value>)
    ensures r.Keys == PublicKeys
    ensures "password_hash" !in r
    ensures r["id"].Str? && ParseDecimal(r["id"].s) == Some(u.id)
    ensures r["role"].Str? && ParseRole(r["role"].s) == Some(u.role)
    ensures r["email"] == Str(u.email)
    ensures r["created_at"] == IsoOrNull(u.createdAt)
    ensures r["updated_at"] == IsoOrNull(u.updatedAt)
    ensures r["last_login"] == IsoOrNull(u.lastLogin)
  {
    DecimalRoundTrip(u.id);
    RoleNameRoundTrip(u.role);
    map[
      "id" := Str(IdText(u.id)),
      "email" := Str(u.email),
      "role" := Str(RoleName(u.role)),
      "profile" := Object(u.profile),
      "settings" := Object(u.settings),
      "created_at" := IsoOrNull(u.createdAt),
      "updated_at" := IsoOrNull(u.updatedAt),
      "last_login" := IsoOrNull(u.lastLogin)
    ]
  }

  /** The dictionary does not depend on the password hash at all. */
  lemma ToDictHidesHash(u: User, hash: string)
    ensures ToDict(u.(passwordHash := hash)) == ToDict(u)
  {
  }

  /** The dictionary keeps everything but the hash: two records with the same
      dictionary differ at most in their hashes. */
  lemma ToDictDeterminesRecord(u: User, v: User)
    ensures ToDict(u) == ToDict(v) ==> u.(passwordHash := v.passwordHash) == v
  {
    if ToDict(u) != ToDict(v) { return; }
    var du, dv := ToDict(u), ToDict(v);
    assert Some(u.id) == ParseDecimal(du["id"].s) == Some(v.id);
    assert Some(u.role) == ParseRole(du["role"].s) == Some(v.role);
    assert du["profile"] == Object(u.profile) && dv["profile"] == Object(v.profile);
    assert du["settings"] == Object(u.settings) && dv["settings"] == Object(v.settings);
    IsoOrNullInjective(u.createdAt, v.createdAt);
    IsoOrNullInjective(u.updatedAt, v.updatedAt);
    IsoOrNullInjective(u.lastLogin, v.lastLogin);
  }

  // ---------------------------------------------------------------------
  // The `users` collection
  // ---------------------------------------------------------------------

  /** The collection: documents by id, and the id the next insert receives. */
  datatype Store = Store(users: map<Id, User>, nextId: Id)

  /** The unique index on `email`. */
  predicate UniqueEmails(users: map<Id, User>) {
    forall a, b | a in users && b in users && users[a].email == users[b].email :: a == b
  }

  /** Every document sits under its own id, ids are below the next one to be
      assigned, and no two documents share an email. */
  predicate WellFormed(s: Store) {
    && (forall id | id in s.users :: id < s.nextId && s.users[id].id == id)
    && UniqueEmails(s.users)
  }

  /** A collection as the database keeps it. */
  type Db = s: Store | WellFormed(s) witness Store(map[], 0)

  ghost predicate EmailTaken(s: Store, email: string) {
    exists id | id in s.users :: s.users[id].email == email
  }

  /** The first id in `[from, to)` whose document has this email. */
  function ScanEmail(users: map<Id, User>, email: string, from: nat, to: nat): (r: Option<Id>)
    decreases to - from
    ensures r.Some? ==> from <= r.value < to && r.value in users && users[r.value].email == email
    ensures r.None? ==> forall id | from <= id < to && id in users :: users[id].email != email
  {
    if from >= to then None
    else if from in users && users[from].email == email then Some(from)
    else ScanEmail(users, email, from + 1, to)
  }

  /** `User.objects(email=email).first()`. */
  function FindByEmail(s: Db, email: string): (r: Option<User>)
    ensures r.None? <==> !EmailTaken(s, email)
    ensures r.Some? ==> r.value.id in s.users && s.users[r.value.id] == r.value && r.value.email == email
  {
    match ScanEmail(s.users, email, 0, s.nextId)
    case None => None
    case Some(id) => Some(s.users[id])
  }

  /** `User.objects(id=user_id).first()` for the identity text of a token:
      the document whose `str(id)` is exactly that text, if any. */
  function FindByIdText(s: Db, text: string): (r: Option<User>)
    ensures r.Some? ==> r.value.id in s.users && s.users[r.value.id] == r.value && IdText(r.value.id) == text
    ensures r.Some? ==> forall id | id in s.users && IdText(id) == text :: id == r.value.id
    ensures r.None? ==> forall id | id in s.users :: IdText(id) != text
  {
    match ParseDecimal(text)
    case None =>
      assert forall id: Id :: ParseDecimal(IdText(id)) == Some(id) by {
        forall id: Id ensures ParseDecimal(IdText(id)) == Some(id) {
          DecimalRoundTrip(id);
        }
      }
      None
    case Some(id) =>
      DecimalOfParse(text);
      assert forall other: Id | IdText(other) == text :: other == id by {
        forall other: Id | IdText(other) == text ensures other == id {
          DecimalInjective(other, id);
        }
      }
      if id in s.users then Some(s.users[id]) else None
  }

  /** The first `save()` of a new document: it receives the next id. The
      caller has checked that its email is free, as the unique index would. */
  function Insert(s: Db, u: User): (r: Db)
    requires u.id == s.nextId && !EmailTaken(s, u.email)
    ensures r.users == s.users[u.id := u] && r.nextId == s.nextId + 1
  {
    Store(s.users[u.id := u], s.nextId + 1)
  }

  /** A later `save()` of a stored document whose email is unchanged. */
  function Put(s: Db, u: User): (r: Db)
    requires u.id in s.users && s.users[u.id].email == u.email
    ensures r.users == s.users[u.id := u] && r.nextId == s.nextId
  {
    Store(s.users[u.id := u], s.nextId)
  }
}
