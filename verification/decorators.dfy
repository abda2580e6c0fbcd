/** `utils/decorators.py`: the role guard wrapped around protected routes
    and the lenient current-user lookup. */
module Decorators {

  import opened Results
  import opened Json
  import opened Helpers
  import opened UserModel
  import AuthService

  /** The decorator's argument: a single role string or a list of them. */
  datatype AllowedRoles = OneRole(role: string) | RoleList(roles: seq<string>)

  /** A single role string becomes a one-element list; a list is kept. */
  function Normalize(allowed: AllowedRoles): seq<string> {
    match allowed
    case OneRole(role) => [role]
    case RoleList(roles) => roles
  }

  /** Because of the normalisation, a single role admits only itself: list
      membership, never the substring test `in` would do on a bare string. */
  lemma OneRoleAdmitsOnlyItself(role: string, candidate: string)
    ensures candidate in Normalize(OneRole(role)) <==> candidate == role
  {
  }

  /** `sep.join(xs)`. */
  function Join(sep: string, xs: seq<string>): string {
    if |xs| == 0 then "" else if |xs| == 1 then xs[0] else xs[0] + sep + Join(sep, xs[1..])
  }

  /** `t` occurs in `s` starting at position `k`. */
  predicate OccursAt(s: string, t: string, k: int) {
    0 <= k && k + |t| <= |s| && s[k..k + |t|] == t
  }

  /** Every joined string appears in the result. */
  lemma {:induction false} JoinContains(sep: string, xs: seq<string>, i: nat)
    requires i < |xs|
    ensures exists k :: OccursAt(Join(sep, xs), xs[i], k)
  {
    var j := Join(sep, xs);
    if i == 0 {
      assert OccursAt(j, xs[0], 0);
    } else {
      JoinContains(sep, xs[1..], i - 1);
      var rest := Join(sep, xs[1..]);
      var k :| OccursAt(rest, xs[i], k);
      var off := |xs[0]| + |sep|;
      assert j == xs[0] + sep + rest;
      assert j[off + k..off + k + |xs[i]|] == rest[k..k + |xs[i]|];
      assert OccursAt(j, xs[i], off + k);
    }
  }

  const AccessDeniedPrefix := "Access denied. Required roles: "

  /** The 403 message: the prefix and the allowed roles joined by `", "`. */
  function ForbiddenMessage(allowed: AllowedRoles): string {
    AccessDeniedPrefix + Join(", ", Normalize(allowed))
  }

  /** The message names every allowed role; for a single role it is exactly
      the prefix followed by that role. */
  lemma ForbiddenMessageListsRoles(allowed: AllowedRoles, i: nat)
    requires i < |Normalize(allowed)|
    ensures exists k :: |AccessDeniedPrefix| <= k && OccursAt(ForbiddenMessage(allowed), Normalize(allowed)[i], k)
    ensures allowed.OneRole? ==> ForbiddenMessage(allowed) == AccessDeniedPrefix + allowed.role
  {
    var xs := Normalize(allowed);
    JoinContains(", ", xs, i);
    var j := Join(", ", xs);
    var k :| OccursAt(j, xs[i], k);
    var m := ForbiddenMessage(allowed);
    assert m[|AccessDeniedPrefix| + k..|AccessDeniedPrefix| + k + |xs[i]|] == j[k..k + |xs[i]|];
    assert OccursAt(m, xs[i], |AccessDeniedPrefix| + k);
  }

  /** What `verify_jwt_in_request()` and `get_jwt_identity()` yielded: the
      identity of a valid token, or a rejection raised by the library. */
  datatype JwtCheck = Verified(identity: string) | Rejected

  /** The guard's outcome: run the route with the user, answer with a JSON
      body and status, or let the library's token error propagate. */
  datatype GuardOutcome = Proceed(user: User) | Deny(body: Value, status: int) | JwtError

  /** The literal error body the decorator builds. */
  function ErrorBody(code: string, message: string): Value {
    Object(map["success" := Bool(false), "error" := Object(map["code" := Str(code), "message" := Str(message)])])
  }

  /** `role_required(allowed_roles)` applied to a request: token, then user,
      then role. */
  function RoleRequired(allowed: AllowedRoles, s: Db, jwt: JwtCheck): (g: GuardOutcome)
    ensures jwt.Rejected? <==> g.JwtError?
    ensures jwt.Verified? && (forall id | id in s.users :: IdText(id) != jwt.identity)
      ==> g == Deny(ErrorResponse(Str("UNAUTHORIZED"), Str(AuthService.UserNotFound)).0, 401)
    ensures g.Proceed?
      <==> jwt.Verified? && exists id | id in s.users :: IdText(id) == jwt.identity && RoleName(s.users[id].role) in Normalize(allowed)
    ensures g.Proceed? ==> g.user.id in s.users && s.users[g.user.id] == g.user && IdText(g.user.id) == jwt.identity
    ensures g.Deny? ==> g.status == 401 || g.status == 403
    ensures g.Deny? && g.status == 401 ==> forall id | id in s.users :: IdText(id) != jwt.identity
    ensures g.Deny? && g.status == 403
      ==> g.body == ErrorResponse(Str("FORBIDDEN"), Str(ForbiddenMessage(allowed))).0
          && exists id | id in s.users :: IdText(id) == jwt.identity && RoleName(s.users[id].role) !in Normalize(allowed)
  {
    var roles := Normalize(allowed);
    match jwt
    case Rejected => JwtError
    case Verified(identity) =>
      match FindByIdText(s, identity)
      case None => Deny(ErrorBody("UNAUTHORIZED", AuthService.UserNotFound), 401)
      case Some(user) =>
        if RoleName(user.role) !in roles then Deny(ErrorBody("FORBIDDEN", ForbiddenMessage(allowed)), 403)
        else Proceed(user)
  }

  /** `get_current_user()`: the user a valid token names, or None on any
      failure; it never raises. */
  function GetCurrentUser(s: Db, jwt: JwtCheck): (r: Option<User>)
    ensures r.Some? <==> jwt.Verified? && exists id | id in s.users :: IdText(id) == jwt.identity
    ensures r.Some? ==> r.value.id in s.users && s.users[r.value.id] == r.value && IdText(r.value.id) == jwt.identity
  {
    match jwt
    case Rejected => None
    case Verified(identity) => FindByIdText(s, identity)
  }
}
