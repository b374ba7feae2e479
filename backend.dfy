/**
 * The Express server of backend/index.js as an object: the two tables it
 * changes in place (users, refresh tokens) and the stand-in for the fresh-id
 * generator are its fields; the environment, token library and hasher are fixed at
 * construction. `/signup` and `/login` step through their lookups and inserts
 * and are proved to produce the outcomes module Issuance describes; `/refresh`
 * and `/users` only read the fields.
 */
module Backend {
  import opened Options
  import opened Collaborators
  import opened Store
  import opened Http
  import Issuance
  import Renewal
  import Guard

  class Server {
    var users: map<string, User>
    var tokens: map<string, RefreshRecord>
    var nextId: UserId
    const deps: Deps

    /** The store as a value. */
    function Snapshot(): (db: Db)
      reads this
    {
      Db(users, tokens, nextId)
    }

    ghost predicate Valid()
      reads this
    {
      Store.Valid(Snapshot())
    }

    /** A server over empty tables; the id generator's first value is arbitrary and taken to be 1. */
    constructor (deps: Deps)
      ensures Valid()
      ensures Snapshot() == Db(map[], map[], 1) && this.deps == deps
    {
      users, tokens, nextId := map[], map[], 1;
      this.deps := deps;
    }

    /** Sign both tokens, insert the refresh record, answer `status`. */
    method IssueTokens(id: UserId, status: nat, ctx: Ctx) returns (res: Response)
      modifies this`tokens
      ensures Issuance.Outcome(res, Snapshot()) == Issuance.IssueTokens(old(Snapshot()), deps, id, status, ctx)
    {
      var access := deps.codec.sign(Payload(Some(id)), deps.env.jwtSecret, None, ctx.now);
      if access.None? {
        return ServerError;
      }
      var refresh := deps.codec.sign(Payload(Some(id)), RefreshSecret(deps.env), Some(RefreshTtl(deps.env)), ctx.now);
      if refresh.None? {
        return ServerError;
      }
      if CreateRefreshToken in ctx.down || refresh.value in tokens {
        return ServerError;
      }
      tokens := tokens[refresh.value := Issuance.SessionOf(id)];
      res := Response(status, AccessToken(access.value), refresh);
    }

    /** `POST /signup`. */
    method Signup(name: string, email: string, password: string, ctx: Ctx) returns (res: Response)
      requires Valid()
      modifies this
      ensures Valid()
      ensures Issuance.Outcome(res, Snapshot()) == Issuance.Signup(old(Snapshot()), deps, name, email, password, ctx)
    {
      if FindUserByEmail in ctx.down {
        return ServerError;
      }
      if email in users {
        return Reply(400, UserExists);
      }
      var hashed := deps.hasher.hash(password, ctx.salt);
      if CreateUser in ctx.down {
        return ServerError;
      }
      var user := User(nextId, name, email, hashed);
      users := users[email := user];
      nextId := nextId + 1;
      res := IssueTokens(user.id, 201, ctx);
    }

    /** `POST /login`. */
    method Login(email: string, password: string, ctx: Ctx) returns (res: Response)
      requires Valid()
      modifies this
      ensures Valid()
      ensures Issuance.Outcome(res, Snapshot()) == Issuance.Login(old(Snapshot()), deps, email, password, ctx)
    {
      if FindUserByEmail in ctx.down {
        return ServerError;
      }
      if email !in users {
        return Reply(401, InvalidCredentials);
      }
      var user := users[email];
      var valid := deps.hasher.compare(password, user.password);
      if !valid {
        return Reply(401, InvalidCredentials);
      }
      res := IssueTokens(user.id, 200, ctx);
    }

    /** `POST /refresh`: reads the tables and writes nothing. */
    method Refresh(req: Renewal.RefreshRequest, ctx: Ctx) returns (res: Response)
      requires Valid()
      ensures res == Renewal.Refresh(req, Snapshot(), deps.env, deps.codec, ctx.now, ctx.down)
    {
      res := Renewal.Refresh(req, Snapshot(), deps.env, deps.codec, ctx.now, ctx.down);
    }

    /** `GET /users`, behind `authenticateToken`. */
    method Users(authorization: Option<string>, ctx: Ctx) returns (res: Response)
      ensures res == Guard.ListUsers(authorization, Snapshot(), deps.env, deps.codec, ctx.now, ctx.down)
    {
      res := Guard.ListUsers(authorization, Snapshot(), deps.env, deps.codec, ctx.now, ctx.down);
    }
  }
}
