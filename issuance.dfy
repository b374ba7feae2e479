/**
 * What `/signup` and `/login` (backend/index.js) do to the store and answer,
 * as functions of the store snapshot before the request. The handlers in
 * module Backend are proved to produce exactly these outcomes.
 */
module Issuance {
  import opened Options
  import opened Collaborators
  import opened Store
  import opened Http

  /** A handler's answer together with the store it leaves behind. */
  datatype Outcome = Outcome(response: Response, db: Db)

  /** The record a successful signup or login adds for the refresh token it minted. */
  function SessionOf(id: UserId): (r: RefreshRecord) {
    RefreshRecord(id, false)
  }

  /**
   * The shared tail of both handlers: sign an access token (JWT_SECRET, no expiry)
   * and a refresh token (the refresh secret, REFRESH_TOKEN_EXPIRES or 7 days),
   * store the refresh token, answer `status` with the access token and set the
   * refresh cookie. A throwing sign or insert (including an insert of a token
   * value already stored, which the unique column refuses) is a 500.
   */
  function IssueTokens(db: Db, deps: Deps, id: UserId, status: nat, ctx: Ctx): (o: Outcome)
    ensures o.db.users == db.users && o.db.nextId == db.nextId
    ensures o.response.status == status || o == Outcome(ServerError, db)
    ensures status != 500 ==>
              var access := deps.codec.sign(Payload(Some(id)), deps.env.jwtSecret, None, ctx.now);
              var refresh := deps.codec.sign(Payload(Some(id)), RefreshSecret(deps.env), Some(RefreshTtl(deps.env)), ctx.now);
              // Success exactly when both signs work and the insert of a not-yet-stored token works.
              (o.response.status == status <==>
                 access.Some? && refresh.Some? && CreateRefreshToken !in ctx.down && refresh.value !in db.tokens) &&
              (o.response.status == status ==>
                 o.response == Response(status, AccessToken(access.value), refresh) &&
                 o.db.tokens == db.tokens[refresh.value := SessionOf(id)])
  {
    match deps.codec.sign(Payload(Some(id)), deps.env.jwtSecret, None, ctx.now)
    case None => Outcome(ServerError, db)
    case Some(access) =>
      match deps.codec.sign(Payload(Some(id)), RefreshSecret(deps.env), Some(RefreshTtl(deps.env)), ctx.now)
      case None => Outcome(ServerError, db)
      case Some(refresh) =>
        if CreateRefreshToken in ctx.down || refresh in db.tokens then Outcome(ServerError, db)
        else Outcome(Response(status, AccessToken(access), Some(refresh)),
                     db.(tokens := db.tokens[refresh := SessionOf(id)]))
  }

  /** The row a successful signup creates: the next id, and the hash of the password, never the password. */
  function NewUser(db: Db, deps: Deps, name: string, email: string, password: string, ctx: Ctx): (u: User)
    ensures u.id == db.nextId && u.name == name && u.email == email
    ensures u.password == deps.hasher.hash(password, ctx.salt)
    // The id generator hands out an id no stored user has.
    ensures Valid(db) ==> forall e :: e in db.users ==> db.users[e].id != u.id
  {
    User(db.nextId, name, email, deps.hasher.hash(password, ctx.salt))
  }

  /** `POST /signup`. */
  function Signup(db: Db, deps: Deps, name: string, email: string, password: string, ctx: Ctx): (o: Outcome)
    // A duplicate email is a 400 that changes nothing.
    ensures FindUserByEmail !in ctx.down && email in db.users ==> o == Outcome(Reply(400, UserExists), db)
    ensures o.response.status == 400 ==> o.db == db
    // 201 exactly when the email is new, the store calls work, both signs work and the minted refresh token is not yet stored.
    ensures var access := deps.codec.sign(Payload(Some(db.nextId)), deps.env.jwtSecret, None, ctx.now);
            var refresh := deps.codec.sign(Payload(Some(db.nextId)), RefreshSecret(deps.env), Some(RefreshTtl(deps.env)), ctx.now);
            (o.response.status == 201 <==>
               FindUserByEmail !in ctx.down && email !in db.users && CreateUser !in ctx.down &&
               access.Some? && refresh.Some? && CreateRefreshToken !in ctx.down && refresh.value !in db.tokens) &&
            // The answer carries the access token for `{ id }` of the new user and sets its refresh token as the cookie.
            (o.response.status == 201 ==> o.response == Response(201, AccessToken(access.value), refresh))
    // Success adds exactly one user, with a fresh id and the hashed password, and exactly one live session for it.
    ensures o.response.status == 201 ==>
              email !in db.users &&
              o.db.users == db.users[email := NewUser(db, deps, name, email, password, ctx)] &&
              o.db.nextId == db.nextId + 1 &&
              o.response.refreshCookie.Some? && o.response.refreshCookie.value !in db.tokens &&
              o.db.tokens == db.tokens[o.response.refreshCookie.value := SessionOf(db.nextId)]
    // 400 exactly for a duplicate email.
    ensures o.response.status == 400 <==> FindUserByEmail !in ctx.down && email in db.users
    // Every other failure is the same 500. No failure adds a session; only one after the
    // user insert leaves that user, and the advanced id generator, behind.
    ensures o.response.status == 500 ==>
              o.response == ServerError &&
              o.db == (if FindUserByEmail !in ctx.down && email !in db.users && CreateUser !in ctx.down
                       then db.(users := db.users[email := NewUser(db, deps, name, email, password, ctx)], nextId := db.nextId + 1)
                       else db)
    ensures o.response.status in {201, 400, 500}
    ensures Valid(db) ==> Valid(o.db)
  {
    if FindUserByEmail in ctx.down then Outcome(ServerError, db)
    else if email in db.users then Outcome(Reply(400, UserExists), db)
    else if CreateUser in ctx.down then Outcome(ServerError, db)
    else
      var user := NewUser(db, deps, name, email, password, ctx);
      IssueTokens(db.(users := db.users[email := user], nextId := db.nextId + 1), deps, user.id, 201, ctx)
  }

  /** `POST /login`. */
  function Login(db: Db, deps: Deps, email: string, password: string, ctx: Ctx): (o: Outcome)
    // An unknown email and a wrong password get the identical answer, and neither changes the store.
    ensures FindUserByEmail !in ctx.down &&
            (email !in db.users || !deps.hasher.compare(password, db.users[email].password)) ==>
              o == Outcome(Reply(401, InvalidCredentials), db)
    ensures o.response.status == 401 ==> o == Outcome(Reply(401, InvalidCredentials), db)
    ensures o.response.status == 401 <==>
              FindUserByEmail !in ctx.down && (email !in db.users || !deps.hasher.compare(password, db.users[email].password))
    // 200 exactly when the password matches, the store calls work, both signs work and the minted refresh token is not yet stored.
    ensures email in db.users ==>
              var id := db.users[email].id;
              var access := deps.codec.sign(Payload(Some(id)), deps.env.jwtSecret, None, ctx.now);
              var refresh := deps.codec.sign(Payload(Some(id)), RefreshSecret(deps.env), Some(RefreshTtl(deps.env)), ctx.now);
              (o.response.status == 200 <==>
                 FindUserByEmail !in ctx.down && deps.hasher.compare(password, db.users[email].password) &&
                 access.Some? && refresh.Some? && CreateRefreshToken !in ctx.down && refresh.value !in db.tokens) &&
              // The answer carries the access token for `{ id }` of that user and sets its refresh token as the cookie.
              (o.response.status == 200 ==> o.response == Response(200, AccessToken(access.value), refresh))
    // Success checked the password and adds one live session for that user; users and earlier sessions are untouched.
    ensures o.response.status == 200 ==>
              email in db.users && deps.hasher.compare(password, db.users[email].password) &&
              o.db.users == db.users && o.db.nextId == db.nextId &&
              o.response.refreshCookie.Some? && o.response.refreshCookie.value !in db.tokens &&
              o.db.tokens == db.tokens[o.response.refreshCookie.value := SessionOf(db.users[email].id)]
    // Every other failure is the same 500, and no failure changes the store.
    ensures o.response.status == 500 ==> o == Outcome(ServerError, db)
    ensures o.response.status != 200 ==> o.db == db
    ensures o.response.status in {200, 401, 500}
  {
    if FindUserByEmail in ctx.down then Outcome(ServerError, db)
    else if email !in db.users then Outcome(Reply(401, InvalidCredentials), db)
    else if !deps.hasher.compare(password, db.users[email].password) then Outcome(Reply(401, InvalidCredentials), db)
    else IssueTokens(db, deps, db.users[email].id, 200, ctx)
  }

  /** A successful login revokes and removes nothing: every earlier record is still there, unchanged. */
  lemma LoginKeepsSessions(db: Db, deps: Deps, email: string, password: string, ctx: Ctx, token: string)
    requires token in db.tokens
    ensures var o := Login(db, deps, email, password, ctx);
            token in o.db.tokens && o.db.tokens[token] == db.tokens[token]
  {
  }
}
