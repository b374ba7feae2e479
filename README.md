# Credential lifecycle of the cap4 Express backend, in Dafny

This project models how the backend issues, stores, renews and checks credentials:

- `/signup` and `/login` in `backend/index.js` check the user table, hash or compare the password, mint an access token and a refresh token, store a refresh-token record, and answer with the access token plus a refresh cookie.
- `refreshHandler` in `backend/middleware/refreshToken.js` exchanges a presented refresh token for a new 15-minute access token. It checks, in order, that a token was presented, that a live record exists, that the signature verifies, and that the user exists.
- `authenticateToken` reads the bearer token from the `Authorization` header and gates `GET /users`. That route lists users without their password hashes.

## How the model is built

- **Store.** The Prisma client is the class `Backend.Server`. Its fields are the user table (a map from email to user), the refresh-token table (a map from token value to `{userId, revoked}`) and `nextId`, a stand-in for the database's fresh-id generator. `Signup` and `Login` are methods that update these fields step by step. Each method is proved to produce exactly the outcome (response plus new store) given by the functions `Issuance.Signup` and `Issuance.Login`. The properties are proved about those functions.
- **Pure handlers.** `Renewal.Refresh` and `Guard.Authenticate` / `Guard.ListUsers` are functions over a store snapshot. Refresh returns no new store, so it cannot write to it, and it never rotates the presented token. The server's `Refresh` and `Users` methods carry no `modifies` clause.
- **Libraries.** The token library and the password hasher are function-valued parameters (`Collaborators.Codec`, `Collaborators.Hasher`). Every property holds for every codec and hasher, except where a lemma states its assumption as a precondition:
  - `Sound(codec, ttls)`: for tokens without an expiry and for the expiries in `ttls`, signing with a non-empty secret succeeds, and the token is non-empty, has no spaces, and verifies under the same secret at the moment of issue. The lemmas in `Lifecycle` take `ttls` to be `'15m'` and the configured refresh expiry. They therefore assume that `REFRESH_TOKEN_EXPIRES` (or `'7d'`) is a positive duration that jsonwebtoken accepts. An expiry such as `'abc'` makes `sign` throw, and `'0'` gives a token that has already expired when issued; the model leaves both unconstrained.
  - `Separate(codec)`: a token never verifies under a different secret.
  - `HasherSound(hasher)`: compare accepts the password a hash was made from.
- **Parameters for the outside world.**
  - The clock (`now`) and bcrypt's random salt are parameters.
  - Environment variables are an `Env` value. The empty string stands for an unset variable, since both are falsy in `||`.
  - A failing store call is modelled as the set `down` of calls that throw during the request.
- **Errors.** Every thrown error lands in the handler's catch-all branch: 500 in signup and login, 403 in refresh. This includes a failing `sign`, a token payload without a usable `id`, and a refresh token value that is already stored, which the unique `token` column refuses.

## Behaviour of the code that the model keeps

- Access tokens minted by signup and login carry no expiry. Only the token minted by refresh gets `'15m'`.
- A duplicate signup is answered with 400.
- The refresh secret falls back to `JWT_SECRET`. `Lifecycle.RefreshTokenRejectedAsAccess` shows that the guard refuses a refresh token only when the two secrets differ. `Lifecycle.FallbackSecretAdmitsRefreshToken` shows that with `REFRESH_TOKEN_SECRET` unset, the guard admits a refresh token as an access token.
- The guard never checks the word `Bearer`: any first field is accepted.
- Refresh trusts the payload's `id`, not the stored record's `userId` (`Renewal.RefreshIgnoresRecordOwner`).
- A signup that fails after the user insert (a sign or the refresh-record insert throws) answers 500 but leaves the new user in the store.
- A login in the same instant as the signup before it answers 500 (`Lifecycle.SameInstantLoginCollides`). Both requests sign the same `{ id }` at the same time, so the login mints the refresh token the signup already stored. The unique `token` column then refuses the insert. In jsonwebtoken, `iat` has one-second resolution, so "the same instant" means the same second. The collision follows from the model and from that one-second `iat`.

## Model

| member | source | states |
|---|---|---|
| Store.UserWithId | backend/middleware/refreshToken.js:15 | lookup by primary key: finds a user exactly when one has that id, and returns that stored row |
| Fields.Split | backend/index.js:90 | `split(' ')` yields at least one field and no field contains the separator |
| Fields.JoinSplit | backend/index.js:90 | splitting loses nothing: joining the fields with the separator gives back the header |
| Fields.SplitJoin | backend/index.js:90 | the inverse round trip: separator-free fields, joined and split again, come back unchanged |
| Fields.SplitAt | backend/index.js:90 | a separator-free prefix followed by the separator is split off as exactly the first field |
| Guard.BearerToken | backend/index.js:89-92 | a token is extracted only from a present header; it is the header's second space-separated field, non-empty and space-free; an empty second field yields none |
| Guard.BearerTokenLocated | backend/index.js:89-92 | a token the guard extracts is non-empty, space-free, and sits right after the header's first space, ending at the next space or at the end |
| Guard.BearerTokenOf | backend/index.js:89-92 | conversely, any header `scheme token[ rest]` yields `token`, whatever the scheme word |
| Guard.Authenticate | backend/index.js:88-103 | 401 "No token provided" exactly when no token; 403 "Invalid token" exactly when it fails to verify under JWT_SECRET; otherwise admits with the verified payload as `req.user` |
| Guard.Project | backend/index.js:108-112 | a listing entry carries the row's id, name and email |
| Guard.ProjectHidesPassword | backend/index.js:108-112 | the password never reaches a listing entry: users differing only in it project alike |
| Guard.Directory | backend/index.js:107-113 | every stored user appears, and every entry is the id, name and email of a stored user (the type has no password) |
| Guard.ListUsers | backend/index.js:105-118 | when the guard denies, its response is returned unchanged and the store is not read; 200 exactly when admitted and the listing succeeds, with the directory as body; an admitted request whose listing throws is 500 "Server error" |
| Renewal.PresentedToken | backend/middleware/refreshToken.js:5 | the first truthy of cookie, `x-refresh-token` header and body field, in that order; none when all are falsy |
| Renewal.Refresh | backend/middleware/refreshToken.js:4-25 | 401 exactly when no token; a missing or revoked record is 403 before any signature check; a token that does not verify is never 200; 404 "User not found" exactly when a live, verified token names no user; every other refusal of a presented token (a failing lookup, a token that does not verify, a payload without an id, a failing sign) is the same 403 "Invalid refresh token"; never sets a cookie |
| Renewal.RefreshSucceeds | backend/middleware/refreshToken.js:9-22 | a 200 passed every check (live record, verified payload with an id, existing user) and carries `sign({id}, JWT_SECRET, '15m')` |
| Renewal.RefreshSucceedsWhen | backend/middleware/refreshToken.js:9-22 | conversely, when every check passes the answer is 200 with exactly that access token |
| Renewal.RefreshIgnoresRecordOwner | backend/middleware/refreshToken.js:9-15 | changing the stored record's owner does not change the outcome: the payload's id decides |
| Collaborators.RefreshSecret | backend/middleware/refreshToken.js:12 | `REFRESH_TOKEN_SECRET` when set, otherwise `JWT_SECRET` (the same expression as backend/index.js:45 and :75); empty only when both are unset |
| Collaborators.RefreshTtl | backend/index.js:45 | `REFRESH_TOKEN_EXPIRES` when set, otherwise `'7d'`; never empty |
| Issuance.NewUser | backend/index.js:32-40 | the inserted row has the next id, the given name and email, and the hash of the password; the id is one no stored user has |
| Issuance.IssueTokens | backend/index.js:42-49 | signup's tail, and login's at backend/index.js:72-79: answers `status` exactly when both signs work and a not-yet-stored token is inserted; users and `nextId` untouched; on success the body is the access token signed under JWT_SECRET without expiry, the cookie is the refresh token signed under REFRESH_TOKEN_SECRET or JWT_SECRET with the configured expiry, and exactly one fresh live record is added; otherwise 500 and nothing changes |
| Issuance.Signup | backend/index.js:19-53 | 400 "User already exists" exactly for a duplicate email, changing nothing; 201 exactly when the email is new, the store calls and both signs work and the minted refresh token is not yet stored; the 201 carries the access token signed for `{ id }` of the new user and sets its refresh token as the cookie; 201 adds exactly one user (next id, hashed password) and exactly one live session for it; every other failure is 500 "Server error" and adds no session: a failure after the user insert leaves exactly that user (and the advanced `nextId`) behind, any earlier one leaves the store as it was; keeps the store's integrity constraints |
| Issuance.Login | backend/index.js:55-83 | 401 "Invalid credentials" exactly when the lookup works and the email is unknown or the password does not match, identical in both cases and changing nothing; 200 exactly when the password matches, the store calls and both signs work and the minted refresh token is not yet stored; the 200 carries the access token signed for `{ id }` of that user and sets its refresh token as the cookie, adding one live session and leaving users untouched; every other failure is 500 "Server error"; every non-200 leaves the store as it was |
| Issuance.LoginKeepsSessions | backend/index.js:75-76 | a login never removes or revokes an earlier refresh record |
| Backend.Server.constructor | backend/index.js:12 | a server over empty tables satisfies the store invariant |
| Backend.Server.IssueTokens | backend/index.js:42-49 | the tail shared by signup and login (also backend/index.js:72-79): changes only the token table, exactly as `Issuance.IssueTokens` says |
| Backend.Server.Signup | backend/index.js:19-53 | the step-by-step handler yields exactly the response and store of `Issuance.Signup` and keeps the invariant |
| Backend.Server.Login | backend/index.js:55-83 | the step-by-step handler yields exactly the response and store of `Issuance.Login` and keeps the invariant |
| Backend.Server.Refresh | backend/index.js:86 | answers as `Renewal.Refresh` on the current tables and modifies nothing |
| Backend.Server.Users | backend/index.js:105-118 | answers as `Guard.ListUsers` on the current tables and modifies nothing |
| Lifecycle.SignupThenLogin | backend/index.js:67-79 | a login with the credentials a signup stored passes the password check, and answers 200 with an access token for the new user's id once the store and both signs work and its refresh token is not yet stored |
| Lifecycle.SameInstantLoginCollides | backend/index.js:75-76 | a login in the same instant as the signup before it mints the refresh token already stored and answers 500 |
| Lifecycle.LoginThenRefresh | backend/middleware/refreshToken.js:5-22 | at the instant of a login, its refresh cookie yields a 200 with a new access token, and the guard admits that token for the same user (assumes a refresh expiry the library accepts) |
| Lifecycle.RefreshTokenRejectedAsAccess | backend/index.js:96-98 | with distinct secrets, the guard answers 403 to a refresh token from login, at any time (assumes a refresh expiry the library accepts) |
| Lifecycle.FallbackSecretAdmitsRefreshToken | backend/index.js:75 | with REFRESH_TOKEN_SECRET unset, the guard admits a refresh token as an access token (assumes a refresh expiry the library accepts) |

## Left out

- Transport: the React client (`vite/src/App.jsx`), `app.use` registration, CORS, cookie parsing, the cookie's options (`httpOnly`, `sameSite`, `maxAge`) and `app.listen`. The model keeps only which refresh token is set as the cookie.
- Library internals: JWT cryptography and encoding, expiry strings such as `'7d'` and `'15m'` (passed to the codec as text), bcrypt's algorithm and cost factor 10, and all wall-clock checks. Expiry is part of the codec's `verify` at the given `now`.
- Body fields that are missing or not strings: inputs are strings. A library or store call that throws on such input is covered only through the `down` set of failing calls (500) or a failing `sign` / `verify`.
- Prisma as a database client: the store is in memory. Its failures appear only as the catch-all branches. The unique email constraint is an invariant (`Store.Valid`), not a separate failure.
- The race between two concurrent signups for the same email (check, then insert). Requests are modelled one at a time.
- The id scheme: the Prisma schema is not part of this model, and backend/index.js only reads `user.id` back from the insert. Ids are modelled as naturals handed out by the counter `nextId`, and only their freshness (the last `ensures` of `Issuance.NewUser`) is relied on.
- dotenv loading: the secrets and the refresh expiry are an `Env` value.
- The order of rows returned by `findMany`: `Guard.Directory` is a set.
- Revocation: nothing in the source sets `revoked`. The model only reads the flag.
- The callback form of `jwt.verify` and the call to `next()`: the guard is a function whose single `Admit` result stands for one call of `next()` with `req.user` set.
