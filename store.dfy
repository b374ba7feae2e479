/**
 * The two tables the handlers use, as a snapshot: users keyed by their unique
 * email, refresh-token records keyed by the token value, and `nextId`, a
 * stand-in for the database's fresh-id generator (only freshness is relied on).
 */
module Store {
  import opened Options
  import opened Collaborators

  datatype User = User(id: UserId, name: string, email: string, password: string)

  /** The columns `/users` selects: never the password hash. */
  datatype PublicUser = PublicUser(id: UserId, name: string, email: string)

  datatype RefreshRecord = RefreshRecord(userId: UserId, revoked: bool)

  datatype Db = Db(users: map<string, User>, tokens: map<string, RefreshRecord>, nextId: UserId)

  /** The primary key: no two users share an id. */
  ghost predicate UniqueIds(users: map<string, User>) {
    forall e1, e2 :: e1 in users && e2 in users && users[e1].id == users[e2].id ==> e1 == e2
  }

  /** The store's integrity constraints: rows are keyed by their own email, ids are unique and below `nextId`. */
  ghost predicate Valid(db: Db) {
    (forall e :: e in db.users ==> db.users[e].email == e && db.users[e].id < db.nextId) &&
    UniqueIds(db.users)
  }

  /** `findUnique({ where: { id } })`. */
  function UserWithId(users: map<string, User>, id: UserId): (r: Option<User>)
    requires UniqueIds(users)
    ensures r.Some? <==> exists e :: e in users && users[e].id == id
    ensures r.Some? ==> r.value.id == id && exists e :: e in users && users[e] == r.value
  {
    if exists e :: e in users && users[e].id == id then
      var e :| e in users && users[e].id == id;
      Some(users[e])
    else
      None
  }
}
