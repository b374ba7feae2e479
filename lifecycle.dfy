/**
 * Properties that span several handlers: credentials stored by signup are
 * accepted by login, a refresh token handed out by login can be exchanged at
 * once for an access token the guard accepts, and whether a refresh token
 * also passes the guard depends on REFRESH_TOKEN_SECRET being set.
 */
module Lifecycle {
  import opened Options
  import opened Collaborators
  import opened Store
  import opened Http
  import opened Issuance
  import opened Renewal
  import opened Guard

  /**
   * Logging in with the credentials a signup just stored passes the credential
   * check, and succeeds with an access token for the new user's id once the
   * store and both signs work and the login mints a refresh token not yet stored.
   */
  lemma SignupThenLogin(db: Db, deps: Deps, name: string, email: string, password: string, ctx1: Ctx, ctx2: Ctx)
    requires HasherSound(deps.hasher)
    requires Signup(db, deps, name, email, password, ctx1).response.status == 201
    requires FindUserByEmail !in ctx2.down
    ensures var db1 := Signup(db, deps, name, email, password, ctx1).db;
            var o := Login(db1, deps, email, password, ctx2);
            var access := deps.codec.sign(Payload(Some(db.nextId)), deps.env.jwtSecret, None, ctx2.now);
            var refresh := deps.codec.sign(Payload(Some(db.nextId)), RefreshSecret(deps.env), Some(RefreshTtl(deps.env)), ctx2.now);
            o.response.status != 401 &&
            (CreateRefreshToken !in ctx2.down && access.Some? && refresh.Some? && refresh.value !in db1.tokens ==>
               o.response == Response(200, AccessToken(access.value), refresh))
  {
  }

  /**
   * A login in the same instant as the signup it follows fails with 500: both
   * requests sign the same `{ id }` at the same time, so the login mints the very
   * refresh token the signup stored, and the unique token column refuses it.
   */
  lemma SameInstantLoginCollides(db: Db, deps: Deps, name: string, email: string, password: string, ctx1: Ctx, ctx2: Ctx)
    requires HasherSound(deps.hasher)
    requires Signup(db, deps, name, email, password, ctx1).response.status == 201
    requires ctx2.now == ctx1.now
    ensures var db1 := Signup(db, deps, name, email, password, ctx1).db;
            Login(db1, deps, email, password, ctx2) == Outcome(ServerError, db1)
  {
  }

  /**
   * At the instant of a successful login, presenting its refresh cookie to
   * `/refresh` yields a new access token, and the guard admits that token for the
   * same user at that instant.
   */
  lemma LoginThenRefresh(db: Db, deps: Deps, email: string, password: string, ctx: Ctx, down: set<StoreCall>, scheme: string)
    requires Valid(db) && deps.env.jwtSecret != ""
    requires Sound(deps.codec, {AccessTtl, RefreshTtl(deps.env)})
    requires Login(db, deps, email, password, ctx).response.status == 200
    requires FindRefreshToken !in down && FindUserById !in down
    requires ' ' !in scheme
    ensures var o := Login(db, deps, email, password, ctx);
            var r := Refresh(RefreshRequest(o.response.refreshCookie, None, None), o.db, deps.env, deps.codec, ctx.now, down);
            r.status == 200 && r.body.AccessToken? &&
            Authenticate(Some(scheme + " " + r.body.token), deps.env, deps.codec, ctx.now) ==
              Admit(Payload(Some(db.users[email].id)))
  {
    var o := Login(db, deps, email, password, ctx);
    var id := db.users[email].id;
    var p := Payload(Some(id));
    var rt := o.response.refreshCookie.value;
    var req := RefreshRequest(o.response.refreshCookie, None, None);
    assert rt == deps.codec.sign(p, RefreshSecret(deps.env), Some(RefreshTtl(deps.env)), ctx.now).value;
    assert deps.codec.verify(rt, RefreshSecret(deps.env), ctx.now) == Some(p);
    assert PresentedToken(req) == Some(rt);
    assert LiveRecord(o.db, rt);
    assert o.db.users[email].id == id;
    var access := deps.codec.sign(p, deps.env.jwtSecret, Some(AccessTtl), ctx.now);
    assert access.Some? && deps.codec.verify(access.value, deps.env.jwtSecret, ctx.now) == Some(p);
    RefreshSucceedsWhen(req, o.db, deps.env, deps.codec, ctx.now, down, id);
    BearerTokenOf(scheme, access.value, []);
    assert scheme + " " + access.value + [] == scheme + " " + access.value;
  }

  /**
   * With REFRESH_TOKEN_SECRET set and different from JWT_SECRET, a refresh token
   * from a successful login is refused by the guard, whatever the time.
   */
  lemma RefreshTokenRejectedAsAccess(db: Db, deps: Deps, email: string, password: string, ctx: Ctx, scheme: string, now: Time)
    requires Sound(deps.codec, {AccessTtl, RefreshTtl(deps.env)}) && Separate(deps.codec)
    requires RefreshSecret(deps.env) != deps.env.jwtSecret && RefreshSecret(deps.env) != ""
    requires Login(db, deps, email, password, ctx).response.status == 200
    requires ' ' !in scheme
    ensures var rt := Login(db, deps, email, password, ctx).response.refreshCookie.value;
            Authenticate(Some(scheme + " " + rt), deps.env, deps.codec, now) == Deny(Reply(403, InvalidToken))
  {
    var o := Login(db, deps, email, password, ctx);
    var p := Payload(Some(db.users[email].id));
    var rt := o.response.refreshCookie.value;
    var minted := deps.codec.sign(p, RefreshSecret(deps.env), Some(RefreshTtl(deps.env)), ctx.now);
    assert rt == minted.value;
    assert deps.codec.verify(minted.value, deps.env.jwtSecret, now).None?;
    BearerTokenOf(scheme, rt, []);
    assert scheme + " " + rt + [] == scheme + " " + rt;
  }

  /**
   * With REFRESH_TOKEN_SECRET unset, both kinds of token are signed under
   * JWT_SECRET, and the guard admits a refresh token as if it were an access token.
   */
  lemma FallbackSecretAdmitsRefreshToken(db: Db, deps: Deps, email: string, password: string, ctx: Ctx, scheme: string)
    requires Sound(deps.codec, {AccessTtl, RefreshTtl(deps.env)})
    requires deps.env.refreshSecret == "" && deps.env.jwtSecret != ""
    requires Login(db, deps, email, password, ctx).response.status == 200
    requires ' ' !in scheme
    ensures var rt := Login(db, deps, email, password, ctx).response.refreshCookie.value;
            Authenticate(Some(scheme + " " + rt), deps.env, deps.codec, ctx.now) == Admit(Payload(Some(db.users[email].id)))
  {
    var o := Login(db, deps, email, password, ctx);
    var p := Payload(Some(db.users[email].id));
    var rt := o.response.refreshCookie.value;
    assert RefreshSecret(deps.env) == deps.env.jwtSecret;
    var minted := deps.codec.sign(p, deps.env.jwtSecret, Some(RefreshTtl(deps.env)), ctx.now);
    assert rt == minted.value;
    assert deps.codec.verify(rt, deps.env.jwtSecret, ctx.now) == Some(p);
    BearerTokenOf(scheme, rt, []);
    assert scheme + " " + rt + [] == scheme + " " + rt;
  }
}
