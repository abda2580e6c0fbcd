/** Properties of the operations used together: what a client sees when it
    registers, logs in, refreshes and calls a guarded route in sequence. */
module Flows {

  import opened Results
  import opened Json
  import opened Timestamps
  import opened UserModel
  import opened Tokens
  import opened AuthService
  import opened Decorators
  import Digits

  /** With a sound bcrypt, logging in with the credentials just registered
      succeeds, and the tokens and dictionary name the new document. */
  lemma RegisterThenLogin(s: Db, p: Platform, email: string, password: string, role: string,
                          profile: Option<map<string, Value>>, salt: string, now: DateTime, later: DateTime)
    requires HashRoundTrip(p.bcrypt)
    ensures var reg := RegisterUser(s, p, email, password, role, profile, salt, now);
      reg.result.Ok? ==>
      var id := reg.result.value.id;
      var login := LoginUser(reg.store, p, email, password, later);
      && login.result.Ok?
      && login.result.value.accessToken.identity == IdText(id)
      && login.result.value.refreshToken.identity == IdText(id)
      && login.result.value.user["id"].Str?
      && Digits.ParseDecimal(login.result.value.user["id"].s) == Some(id)
  {
    var reg := RegisterUser(s, p, email, password, role, profile, salt, now);
    if reg.result.Err? { return; }
    var u := reg.result.value;
    RegisterCreates(s, p, email, password, role, profile, salt, now);
    assert u.id in reg.store.users && reg.store.users[u.id] == u;
    assert CheckPassword(u, p.bcrypt, password);
    LoginUpdatesOnlyThatUser(reg.store, p, email, password, later, u.id);
  }

  /** The id a login reports is stable: logging in again with the same
      credentials names the same document. */
  lemma LoginTwiceSameUser(s: Db, p: Platform, email: string, password: string, now: DateTime, later: DateTime)
    ensures var first := LoginUser(s, p, email, password, now);
      var second := LoginUser(first.store, p, email, password, later);
      first.result.Ok? ==>
      && second.result.Ok?
      && second.result.value.accessToken.identity == first.result.value.accessToken.identity
      && second.result.value.user["id"] == first.result.value.user["id"]
  {
    var first := LoginUser(s, p, email, password, now);
    if first.result.Err? { return; }
    var id :| id in s.users && s.users[id].email == email && CheckPassword(s.users[id], p.bcrypt, password);
    LoginUpdatesOnlyThatUser(s, p, email, password, now, id);
    LoginUpdatesOnlyThatUser(first.store, p, email, password, later, id);
  }

  /** An access token from a login gets past the guard's user check: the
      guard either runs the route for that very document or refuses it with
      403 because of its role, never with 401. */
  lemma LoginThenGuard(s: Db, p: Platform, email: string, password: string, now: DateTime, allowed: AllowedRoles)
    ensures var r := LoginUser(s, p, email, password, now);
      r.result.Ok? ==>
      var g := RoleRequired(allowed, r.store, Verified(r.result.value.accessToken.identity));
      && (g.Proceed? || (g.Deny? && g.status == 403))
      && (g.Proceed? ==> g.user.email == email && g.user.lastLogin == Some(now))
  {
    var r := LoginUser(s, p, email, password, now);
    if r.result.Err? { return; }
    var id :| id in s.users && s.users[id].email == email && CheckPassword(s.users[id], p.bcrypt, password);
    LoginUpdatesOnlyThatUser(s, p, email, password, now, id);
    var identity := r.result.value.accessToken.identity;
    assert id in r.store.users && IdText(id) == identity;
    var g := RoleRequired(allowed, r.store, Verified(identity));
    if g.Proceed? {
      Digits.DecimalInjective(g.user.id, id);
      assert r.store.users[id].lastLogin == Some(now);
    }
  }

  /** The refresh token from a login can be exchanged for an access token
      for the same identity. */
  lemma LoginThenRefresh(s: Db, p: Platform, email: string, password: string, now: DateTime, later: DateTime)
    ensures var r := LoginUser(s, p, email, password, now);
      r.result.Ok? ==>
      var refreshed := RefreshAccessToken(r.store, p.jwt, r.result.value.refreshToken.identity, later);
      refreshed.Ok? && refreshed.value.accessToken == Token(Access, r.result.value.accessToken.identity, later, p.jwt.access)
  {
    var r := LoginUser(s, p, email, password, now);
    if r.result.Err? { return; }
    var id :| id in s.users && s.users[id].email == email && CheckPassword(s.users[id], p.bcrypt, password);
    LoginUpdatesOnlyThatUser(s, p, email, password, now, id);
    assert id in r.store.users && IdText(id) == r.result.value.refreshToken.identity;
  }
}
