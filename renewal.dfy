/**
 * `refreshHandler` (backend/middleware/refreshToken.js): exchanges a stored,
 * unrevoked, verifiable refresh token of an existing user for a new access
 * token. It only reads the store, so it is a function of a store snapshot:
 * there is no new store to return, and the presented token is not rotated.
 */
module Renewal {
  import opened Options
  import opened Collaborators
  import opened Store
  import opened Http

  /** Where a refresh token may arrive: the `refreshToken` cookie, the `x-refresh-token` header, the `refreshToken` body field. */
  datatype RefreshRequest = RefreshRequest(cookie: Option<string>, header: Option<string>, body: Option<string>)

  /** A JavaScript-truthy string: present and non-empty. */
  predicate Truthy(v: Option<string>) {
    v.Some? && v.value != ""
  }

  /** `cookie || header || body`: the first truthy source, in that order. */
  function PresentedToken(req: RefreshRequest): (t: Option<string>)
    ensures t.Some? ==> t.value != "" && (t == req.cookie || t == req.header || t == req.body)
    ensures t.None? <==> !Truthy(req.cookie) && !Truthy(req.header) && !Truthy(req.body)
    ensures Truthy(req.cookie) ==> t == req.cookie
    ensures t.Some? && t != req.cookie ==> !Truthy(req.cookie)
    ensures t.Some? && t != req.cookie && t != req.header ==> !Truthy(req.cookie) && !Truthy(req.header) && t == req.body
  {
    if Truthy(req.cookie) then req.cookie
    else if Truthy(req.header) then req.header
    else if Truthy(req.body) then req.body
    else None
  }

  /** The store-side half of a refresh token's validity: a record exists and is not revoked. */
  predicate LiveRecord(db: Db, token: string) {
    token in db.tokens && !db.tokens[token].revoked
  }

  /**
   * `refreshHandler`. Any throw inside its try block (a failing store call,
   * a payload without a usable id, a failing sign) becomes 403.
   */
  function Refresh(req: RefreshRequest, db: Db, env: Env, codec: Codec, now: Time, down: set<StoreCall>): (r: Response)
    requires UniqueIds(db.users)
    // Without a token the store is never consulted.
    ensures PresentedToken(req).None? <==> r == Reply(401, NoRefreshToken)
    // A missing or revoked record is refused before any signature check.
    ensures PresentedToken(req).Some? && FindRefreshToken !in down && !LiveRecord(db, PresentedToken(req).value) ==>
              r == Reply(403, InvalidRefreshToken)
    // Store presence alone is never sufficient.
    ensures PresentedToken(req).Some? && codec.verify(PresentedToken(req).value, RefreshSecret(env), now).None? ==>
              r.status != 200
    // A verified token whose user is gone is a 404, and only that is.
    ensures r.status == 404 <==>
              PresentedToken(req).Some? && FindRefreshToken !in down && FindUserById !in down &&
              LiveRecord(db, PresentedToken(req).value) &&
              codec.verify(PresentedToken(req).value, RefreshSecret(env), now).Some? &&
              codec.verify(PresentedToken(req).value, RefreshSecret(env), now).value.id.Some? &&
              UserWithId(db.users, codec.verify(PresentedToken(req).value, RefreshSecret(env), now).value.id.value).None?
    // Every other refusal, including a failing lookup or sign and a payload without an id, is the catch-all 403.
    ensures PresentedToken(req).Some? && r.status != 200 && r.status != 404 ==> r == Reply(403, InvalidRefreshToken)
    ensures r.status == 404 ==> r == Reply(404, UserNotFound)
    ensures r.status in {200, 401, 403, 404}
    ensures r.refreshCookie.None?
  {
    match PresentedToken(req)
    case None => Reply(401, NoRefreshToken)
    case Some(token) =>
      if FindRefreshToken in down || !LiveRecord(db, token) then Reply(403, InvalidRefreshToken)
      else
        match codec.verify(token, RefreshSecret(env), now)
        case None => Reply(403, InvalidRefreshToken)
        case Some(payload) =>
          if payload.id.None? || FindUserById in down then Reply(403, InvalidRefreshToken)
          else
            match UserWithId(db.users, payload.id.value)
            case None => Reply(404, UserNotFound)
            case Some(user) =>
              match codec.sign(Payload(Some(user.id)), env.jwtSecret, Some(AccessTtl), now)
              case None => Reply(403, InvalidRefreshToken)
              case Some(access) => Response(200, AccessToken(access), None)
  }

  /**
   * A successful refresh passed every check in order and returns an access token
   * signed under JWT_SECRET for the payload's user, with a 15-minute expiry.
   */
  lemma RefreshSucceeds(req: RefreshRequest, db: Db, env: Env, codec: Codec, now: Time, down: set<StoreCall>)
    requires UniqueIds(db.users)
    requires Refresh(req, db, env, codec, now, down).status == 200
    ensures PresentedToken(req).Some?
    ensures var token := PresentedToken(req).value;
            var payload := codec.verify(token, RefreshSecret(env), now);
            FindRefreshToken !in down && FindUserById !in down && LiveRecord(db, token) &&
            payload.Some? && payload.value.id.Some? &&
            (exists e :: e in db.users && db.users[e].id == payload.value.id.value) &&
            codec.sign(payload.value, env.jwtSecret, Some(AccessTtl), now).Some? &&
            Refresh(req, db, env, codec, now, down).body ==
              AccessToken(codec.sign(payload.value, env.jwtSecret, Some(AccessTtl), now).value)
  {
  }

  /** The converse: when every check passes, the refresh succeeds with exactly that token. */
  lemma RefreshSucceedsWhen(req: RefreshRequest, db: Db, env: Env, codec: Codec, now: Time, down: set<StoreCall>, id: UserId)
    requires UniqueIds(db.users)
    requires PresentedToken(req).Some? && LiveRecord(db, PresentedToken(req).value)
    requires FindRefreshToken !in down && FindUserById !in down
    requires codec.verify(PresentedToken(req).value, RefreshSecret(env), now) == Some(Payload(Some(id)))
    requires exists e :: e in db.users && db.users[e].id == id
    requires codec.sign(Payload(Some(id)), env.jwtSecret, Some(AccessTtl), now).Some?
    ensures Refresh(req, db, env, codec, now, down) ==
              Response(200, AccessToken(codec.sign(Payload(Some(id)), env.jwtSecret, Some(AccessTtl), now).value), None)
  {
  }

  /** The handler trusts the token's payload, not the record's owner: who the record names does not change the outcome. */
  lemma RefreshIgnoresRecordOwner(req: RefreshRequest, db: Db, env: Env, codec: Codec, now: Time, down: set<StoreCall>,
                                  token: string, owner: UserId)
    requires UniqueIds(db.users)
    requires token in db.tokens
    ensures var db2 := db.(tokens := db.tokens[token := db.tokens[token].(userId := owner)]);
            Refresh(req, db2, env, codec, now, down) == Refresh(req, db, env, codec, now, down)
  {
  }
}
