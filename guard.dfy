/**
 * The access guard `authenticateToken` and the protected `/users` listing
 * (backend/index.js). The guard takes the second space-separated field of the
 * Authorization header, whatever the first field says, and verifies it under
 * the access secret; it consults no store.
 */
module Guard {
  import opened Options
  import opened Collaborators
  import opened Store
  import opened Http
  import opened Fields

  /** `authHeader && authHeader.split(' ')[1]`, kept only when truthy. */
  function BearerToken(header: Option<string>): (t: Option<string>)
    ensures t.Some? ==> header.Some? && t.value != "" && ' ' !in t.value &&
                        |Split(header.value, ' ')| >= 2 && t.value == Split(header.value, ' ')[1]
    ensures t.None? && header.Some? && |Split(header.value, ' ')| >= 2 ==> Split(header.value, ' ')[1] == ""
  {
    if header.None? || header.value == "" then None
    else
      var fields := Split(header.value, ' ');
      if |fields| < 2 || fields[1] == "" then None else Some(fields[1])
  }

  /** Where a token the guard extracts sits in the header: right after the first space, up to the next space or the end. */
  lemma BearerTokenLocated(h: string, t: string)
    requires BearerToken(Some(h)) == Some(t)
    ensures t != "" && ' ' !in t
    ensures exists i :: 0 <= i && i + 1 + |t| <= |h| && ' ' !in h[..i] && h[i] == ' ' &&
                        h[i + 1..i + 1 + |t|] == t && (i + 1 + |t| == |h| || h[i + 1 + |t|] == ' ')
  {
    var fields := Split(h, ' ');
    JoinSplit(h, ' ');
    var scheme := fields[0];
    var tail := if |fields| == 2 then [] else [' '] + Join(fields[2..], ' ');
    assert fields[1..][1..] == fields[2..];
    assert h == scheme + [' '] + t + tail;
    var i := |scheme|;
    assert h[..i] == scheme;
    assert h[i] == ' ';
    assert h[i + 1..i + 1 + |t|] == t;
    assert h[i + 1 + |t|..] == tail;
    if tail != [] {
      assert h[i + 1 + |t|] == tail[0] == ' ';
    }
    assert 0 <= i && i + 1 + |t| <= |h| && ' ' !in h[..i] && h[i] == ' ' &&
           h[i + 1..i + 1 + |t|] == t && (i + 1 + |t| == |h| || h[i + 1 + |t|] == ' ');
  }

  /** Conversely, any header of the form `scheme token` or `scheme token rest` yields `token`. */
  lemma BearerTokenOf(scheme: string, t: string, tail: string)
    requires ' ' !in scheme && ' ' !in t && t != ""
    requires tail == [] || tail[0] == ' '
    ensures BearerToken(Some(scheme + " " + t + tail)) == Some(t)
  {
    var h := scheme + " " + t + tail;
    assert h == scheme + [' '] + (t + tail);
    SplitAt(scheme, t + tail, ' ');
    if tail == [] {
      assert t + tail == t;
      SplitPlain(t, ' ');
    } else {
      assert t + tail == t + [' '] + tail[1..];
      SplitAt(t, tail[1..], ' ');
    }
  }

  /** The guard either answers the request itself or calls `next()` once, with `req.user` set. */
  datatype Gate = Deny(response: Response) | Admit(user: Payload)

  /** `authenticateToken`: 401 without a token, 403 when it does not verify under JWT_SECRET, otherwise admit with the verified payload. */
  function Authenticate(header: Option<string>, env: Env, codec: Codec, now: Time): (g: Gate)
    ensures BearerToken(header).None? <==> g == Deny(Reply(401, NoTokenProvided))
    ensures g == Deny(Reply(403, InvalidToken)) <==>
              BearerToken(header).Some? && codec.verify(BearerToken(header).value, env.jwtSecret, now).None?
    ensures g.Admit? ==>
              BearerToken(header).Some? && codec.verify(BearerToken(header).value, env.jwtSecret, now) == Some(g.user)
    ensures g.Deny? ==> g.response == Reply(401, NoTokenProvided) || g.response == Reply(403, InvalidToken)
  {
    match BearerToken(header)
    case None => Deny(Reply(401, NoTokenProvided))
    case Some(token) =>
      match codec.verify(token, env.jwtSecret, now)
      case None => Deny(Reply(403, InvalidToken))
      case Some(user) => Admit(user)
  }

  /** The selected columns of a user row. */
  function Project(u: User): (p: PublicUser)
    ensures p.id == u.id && p.name == u.name && p.email == u.email
  {
    PublicUser(u.id, u.name, u.email)
  }

  /** The password never reaches the listing: users that differ only in it project alike. */
  lemma ProjectHidesPassword(u: User, password: string)
    ensures Project(u.(password := password)) == Project(u)
  {
  }

  /** `findMany({ select: { id, name, email } })`: one entry per stored user, made only of stored users' public columns. */
  function Directory(users: map<string, User>): (list: set<PublicUser>)
    ensures forall e :: e in users ==> Project(users[e]) in list
    ensures forall p :: p in list ==> exists e :: e in users && p.id == users[e].id &&
                                                  p.name == users[e].name && p.email == users[e].email
  {
    set e | e in users :: Project(users[e])
  }

  /** `GET /users`: the guard runs first; the listing is read only once it admits the request. */
  function ListUsers(header: Option<string>, db: Db, env: Env, codec: Codec, now: Time, down: set<StoreCall>): (r: Response)
    ensures Authenticate(header, env, codec, now).Deny? ==> r == Authenticate(header, env, codec, now).response
    ensures r.status == 200 <==> Authenticate(header, env, codec, now).Admit? && FindManyUsers !in down
    ensures r.status == 200 ==> r.body == UserList(Directory(db.users)) && r.refreshCookie.None?
    ensures Authenticate(header, env, codec, now).Admit? && FindManyUsers in down ==> r == ServerError
    ensures r.status in {200, 401, 403, 500}
  {
    match Authenticate(header, env, codec, now)
    case Deny(response) => response
    case Admit(_) =>
      if FindManyUsers in down then ServerError
      else Response(200, UserList(Directory(db.users)), None)
  }
}
