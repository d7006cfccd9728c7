# Linkfy backend: authentication, profiles and ordered links

A Dafny model of the request-handling core of the Linkfy backend (a Go/gin
service). It covers three areas:

- **Authentication** (`routes/auth/handler.go`). Five endpoints run fixed,
  early-returning step sequences over two stores: activation tokens keyed by
  (email, token type) and users keyed by email. The endpoints request an
  activation code, register, log in, reset a password and refresh a token pair.
- **Profiles** (`routes/linkfy/*.go`). This part has the username rule, an
  in-memory profile table with its unique `id` and `username`, and the
  handlers. The handlers check the caller's claims, the UUID path parameter
  and the request body, in that order. They fill in the default avatar and
  bio and forward the table's errors with their own status.
- **Ordered links** (`routes/linkfy-link/*.go`). `CreateLinks` replaces a
  profile's links inside a transaction and gives link `i` the display order
  `i`. `GetLinkByLinkfyID` reads the links back in display order.

Each handler is a method of a class whose fields are its collaborators. The
stores are classes with `map` or `seq` fields that the methods reassign. A
handler's contract gives the exact response for every step at which the
chain can stop. It also gives the exact new store content, or says the
store is unchanged. The services the handlers call are fields of a
datatype whose values are functions. Being functions makes them
deterministic; no other property of them is assumed except where a row
below says so:

- validation;
- hashing and hash verification;
- JWT issue and parsing;
- email templates and sending.

Some inputs come from outside the program and are parameters:

- the random activation code, new row ids and the clock;
- the result of JSON binding (`Bound` / `BindError`);
- the refresh cookie;
- the token claims set by the middleware;
- the database failures of the link table (`TxFault`, `ReadFault`) and of the
  user lookups that `RequestToken` and `Login` branch on (`lookupFault`).

Files:

- `http.dfy`: error, result, response, binding and claims types.
- `auth_store.dfy`: the token and user stores.
- `auth_handler.dfy`: the authentication endpoints.
- `username.dfy`: the username rule.
- `uuid.dfy`: the UUID path check.
- `linkfy_store.dfy`: the profile table.
- `linkfy_handler.dfy`: the profile endpoints.
- `link_store.dfy`: the link table.
- `link_handler.dfy`: the link endpoints.

Behaviour of the source that the contracts make explicit:

- `Login` answers 401 both for an unknown email and for a wrong password. The
  two replies carry different messages: the user store's own message, and
  "hash tidak valid".
- A registration-code request for a registered email answers 409 with the
  message "test 1 2 3". A failed existence lookup gives the same 409.
- A password-reset request treats a failed existence lookup as "registered".
  It goes on to generate, store and send a reset code even for an email that
  belongs to no user.
- Neither `Register` nor `ForgetPassword` consumes the activation token.
- `UpdateLinkfy` on the profile table matches on the profile id alone. The
  caller's user id is passed down but plays no part, so any authenticated
  user can edit any profile. `DeleteLinkfy`, in contrast, needs both.
- `CreateLinks` does not check that the caller owns the profile whose links
  it replaces.
- `CheckUsername` applies no username rule. A name that `UsernameSanitize`
  refuses can still be reported as available.
- `CheckUsernameExists` discards the answer of its query and always
  succeeds.
- The 500 branch of `UsernameSanitize` ("Error validating username") cannot
  be reached: the pattern is a constant that compiles.

## Model

| member | source | states |
|---|---|---|
| AuthStore.AuthDb.CheckExistingEmail | routes/auth/repository.go:13-15 | A database error is returned as it is. Otherwise it fails with 409 "Email already registered" exactly when some stored user has the email. |
| AuthStore.AuthDb.SaveActivationToken | routes/auth/repository.go:17-19 | Upsert: the new token replaces any earlier one for the same (email, type); users unchanged. |
| AuthStore.AuthDb.GetActivationToken | routes/auth/repository.go:21-23 | Returns the stored code of a token with that email and type, or 404 exactly when no such token exists. |
| AuthStore.AuthDb.CreateUser | routes/auth/repository.go:25-27 | 409 and nothing changes when the email is taken; otherwise exactly one user is added under that email. |
| AuthStore.AuthDb.GetUserByEmail | routes/auth/repository.go:29-31 | A database error is returned as it is. Otherwise the user returned has the requested email, and the result is 404 exactly when no user has it. |
| AuthStore.AuthDb.UpdateUserPassword | routes/auth/repository.go:33-35 | 404 for an unknown email; otherwise only that user's password hash changes. |
| AuthHandlers.AuthHandler.RequestToken | routes/auth/handler.go:43-151 | The type whitelist is checked first (400). A registration gives 409 when the email is known or the lookup fails. A reset gives 404 only when the lookup succeeds and finds no user; a failed lookup lets it through. Neither refusal saves anything. Only the hashed code is stored, under the path type, for 15 minutes. The save happens before the email is sent, and a send failure forwards its error but keeps the token. Users never change. |
| AuthHandlers.AuthHandler.Register | routes/auth/handler.go:163-237 | Looks the code up under "registration" and forwards each failing step's error. A user is written only after validation and verification succeed and the password is hashed. The user stores the password's hash, and the reply is 201. Tokens are not consumed. |
| AuthHandlers.AuthHandler.Login | routes/auth/handler.go:249-302 | Read-only. Any failed user lookup gives 401 with the store's message, whether the email is unknown or the database failed. A failed hash verification also gives 401. Success is 200 with the issued pair, type "Bearer" and expiry 900. |
| AuthHandlers.AuthHandler.ForgetPassword | routes/auth/handler.go:314-383 | Checks the password pair before reading any store, then reads the code under "forget-password". After verification only that email's password hash changes. Tokens are not consumed. |
| AuthHandlers.AuthHandler.RefreshToken | routes/auth/handler.go:395-443 | A missing cookie gives 400 and invalid claims are forwarded. The new pair is issued for the claims' user id and email and returned with 200, "Bearer" and 900. |
| AuthHandlers.AuthHandler.ResetCodeOnFailedLookup | routes/auth/handler.go:74-145 | When the existence lookup fails for an email that belongs to no user, a reset code is still hashed and stored for it. The reply is the email sender's error, or 200 when the email goes out. |
| AuthHandlers.AuthHandler.RegistrationRoundTrip | routes/auth/handler.go:43-237 | Request a code, register with it, request again. Registration gives 201 whatever the email sender did, the new user carries the password's hash, and the second request gives 409. Afterwards the store is valid, users has exactly the new user added, and tokens has exactly the hashed registration code stored under (email, "registration"). This holds whenever a hash verifies against its own secret. |
| LinkfyService.PatternMeansCharset | routes/linkfy/service.go:30 | The anchored pattern `^[a-zA-Z0-9.-]+$` accepts exactly the non-empty strings made only of class characters. |
| LinkfyService.UsernameSanitize | routes/linkfy/service.go:18-39 | The checks run in order: empty, then a space, then the character class, each a 400 with its own message. The result is `None` iff the string is non-empty and every character is a letter, digit, '.' or '-'. |
| LinkfyService.PunctuationOnlyAccepted | routes/linkfy/service.go:30-38 | There is no positional rule: any non-empty string of dots and hyphens is accepted. |
| UuidText.ParseUuid | routes/linkfy/handler.go:120-126 | Succeeds iff the text is the 8-4-4-4-12 hexadecimal form. The result is again in that form, with every hex letter in lower case. |
| UuidText.ParseUuidIgnoresCase | routes/linkfy/handler.go:120-126 | Two spellings of a UUID that differ only in the case of their hex letters parse to the same UUID. |
| UuidText.ParseUuidSameIff | routes/linkfy/handler.go:120-126 | Two UUID texts parse to the same UUID iff they agree position by position once hex letters are lower-cased. Distinct UUIDs stay distinct. |
| UuidText.ParseUuidCanonical | routes/linkfy/handler.go:120-126 | A parsed UUID parses to itself, so an id stored in canonical form is found again under its own text. |
| LinkfyStore.CountUsername | routes/linkfy/posgres.go:190-200 | The count is positive iff some row has the username. |
| LinkfyStore.InsertNewestFirst | routes/linkfy/posgres.go:103-139 | Inserting one row into a list sorted newest first keeps it sorted and adds exactly that row (multiset). |
| LinkfyStore.RemoveKeyed | routes/linkfy/posgres.go:206-228 | Removing one row keeps ids and usernames unique and removes exactly the rows with that id. |
| LinkfyStore.OwnedByMembers | routes/linkfy/posgres.go:103-139 | The rows selected for a user are exactly the table's rows with that user id. |
| LinkfyStore.LinkfyPostgres.CreateLinkfy | routes/linkfy/posgres.go:22-44 | A clash gives 409 "Username already exists" and the table is unchanged. Otherwise exactly the new row is appended, with both timestamps set to now. Uniqueness is preserved. |
| LinkfyStore.LinkfyPostgres.GetLinkfyByID | routes/linkfy/posgres.go:47-72 | Returns a table row with that id, or 404 exactly when none exists. |
| LinkfyStore.LinkfyPostgres.GetLinkfyByUsername | routes/linkfy/posgres.go:75-100 | Returns a table row with that username, or 404 exactly when none exists. |
| LinkfyStore.LinkfyPostgres.GetAllLinkfyByUserID | routes/linkfy/posgres.go:103-139 | The result is a permutation of the user's rows, contains exactly them, and is ordered by `created_at` descending. |
| LinkfyStore.LinkfyPostgres.UpdateLinkfy | routes/linkfy/posgres.go:142-174 | Matches on the id alone: 404 when no row has it, then 409 when another row has the username. Otherwise only that row's username, avatar, name and bio change, and uniqueness is preserved. |
| LinkfyStore.LinkfyPostgres.DeleteLinkfy | routes/linkfy/posgres.go:206-228 | Removes a row only when both id and owner match, and removes exactly that row. Otherwise it gives 404 and removes nothing. |
| LinkfyStore.LinkfyPostgres.CheckUsernameExists | routes/linkfy/posgres.go:177-187 | Always succeeds, whether or not the username exists. |
| LinkfyStore.LinkfyPostgres.CheckUsernameNotExists | routes/linkfy/posgres.go:189-203 | 409 "Username already exists" iff at least one row has the username. |
| LinkfyHandlers.LinkfyHandler.CreateLinkfy | routes/linkfy/handler.go:47-103 | The guards run in order: 401 for missing claims, 400 for a bad body, then the username rule's error forwarded unchanged. The stored owner is the claims' user id. A missing avatar or bio gets its default, and a supplied one is kept. A clash is forwarded as 409 and success is 201. |
| LinkfyHandlers.LinkfyHandler.GetLinkfyByID | routes/linkfy/handler.go:118-140 | A non-UUID id gives 400; an unknown id is forwarded as 404; otherwise 200 with a row of that id. |
| LinkfyHandlers.LinkfyHandler.CreateThenFetch | routes/linkfy/handler.go:47-140 | After a successful create, a fetch by the new id, spelled in any letter case, returns 200 with exactly the created profile: the owner comes from the claims and the defaults are filled in. Afterwards the table is valid and is the old table with exactly that row appended. |
| LinkfyHandlers.LinkfyHandler.GetLinkfyByUsername | routes/linkfy/handler.go:153-168 | An unknown username is forwarded as 404; otherwise 200 with the row of that username. |
| LinkfyHandlers.LinkfyHandler.GetAllLinkfy | routes/linkfy/handler.go:180-201 | 401 without claims; otherwise 200 with exactly the caller's profiles, newest first. |
| LinkfyHandlers.LinkfyHandler.UpdateLinkfy | routes/linkfy/handler.go:219-282 | The guards run in order: 401 for claims, 400 for the UUID, 400 for the body, then the username rule. The defaults are filled in. The table's 404 or 409 is forwarded with nothing changed. Success is 200 with only that row's editable columns changed. |
| LinkfyHandlers.LinkfyHandler.CheckUsername | routes/linkfy/handler.go:295-315 | No authentication and no username rule: 409 iff some profile has the name, otherwise 200 "Username is available". |
| LinkfyHandlers.LinkfyHandler.DeleteLinkfy | routes/linkfy/handler.go:331-361 | 401 for missing claims and 400 for a bad UUID. If the caller owns a profile with that id, it alone is removed (200). Otherwise 404 and nothing is removed. |
| LinkStore.RowsOfWithout | routes/linkfy-link/postgres.go:29-32 | After the delete the profile has no links and every other profile keeps its own. |
| LinkStore.RowsOfNewRows | routes/linkfy-link/postgres.go:50-54 | The inserted rows all belong to the profile being replaced. |
| LinkStore.ReplaceLinksRows | routes/linkfy-link/postgres.go:20-69 | After a committed replace the profile's links are exactly the new rows, with link `i` at display order `i`. Every other profile's links are untouched. |
| LinkStore.ReadAfterReplace | routes/linkfy-link/postgres.go:20-110 | Round trip: reading a profile's links after replacing them returns the links written, in the same order and field by field. |
| LinkStore.ReplaceWithNothing | routes/linkfy-link/postgres.go:29-50 | Replacing with an empty list clears the profile's links. |
| LinkStore.LinkfyLinkPostgres.CreateLinks | routes/linkfy-link/postgres.go:20-69 | All or nothing. A failure at begin, delete, prepare, any insert or commit returns that step's 500 error and leaves the table exactly as before. Success leaves the table as the replacement. The per-profile display order stays 0, 1, 2, ... |
| LinkStore.LinkfyLinkPostgres.GetLinkByLinkfyID | routes/linkfy-link/postgres.go:72-110 | Query, scan and iteration failures give their 500 errors. Otherwise the result holds all the profile's links, and element `k` is the link with display order `k`. A profile with no links reads as an empty list. |
| LinkHandlers.ToLinkModels | routes/linkfy-link/handler.go:67-75 | The converted list has the request's length, and element `i` carries request element `i`'s name, URL and icon URL. |
| LinkHandlers.LinkfyLinkHandler.CreateLinks | routes/linkfy-link/handler.go:40-88 | 401 for missing claims, then 400 for an empty id, then 400 for a bad body, each changing nothing. A store error is forwarded with the table unchanged. On 201 the table is exactly `ReplaceLinks` of the old table with the requested links, so the profile's links are the requested ones in request order, and other profiles are untouched. |
| LinkHandlers.LinkfyLinkHandler.GetLinksByLinkfyID | routes/linkfy-link/handler.go:102-119 | Forwards the store's error, or returns 200 with the profile's links in display order. |
| LinkHandlers.PostThenGet | routes/linkfy-link/handler.go:40-119 | Posting links and then getting them returns 201, then 200 with the posted links in the posted order. Afterwards the table is valid and is exactly `ReplaceLinks` of the old table with the posted links. |

## Left out

- Route registration (`RegisterRoutes`), the `New...` constructors, logging and JSON encoding.
- The middleware that extracts the token claims is not part of this model. The claims are a parameter.
- The implementations of hashing, hash verification, activation-code generation, JWT signing and parsing, the input validators, the email templates and email sending are not part of this model. They are function-valued fields; only `AuthHandlers.AuthHandler.RegistrationRoundTrip` assumes a law of them: a hash verifies against the secret it was made from.
- AuthHandlers.AuthService: hashing is a salted, randomised operation in the source, but a function-valued field makes it deterministic, so the same secret always hashes to the same text. No contract relies on this; `RegistrationRoundTrip` relies only on the verification law.
- Gin's JSON binding, including `binding:"required"` tags, is an input. The body is either bound or a binding error with its text.
- The database behind `routes/auth/repository.go` is not part of this model. Its stores follow the contract the handler relies on: an upsert of the token, 404 for a missing token or user, 409 for a second account with the same email. Expiry of activation tokens is enforced there and is not modelled; the expiry is only stored.
- AuthStore.AuthDb: the database failures of `GetActivationToken`, `CreateUser` and `UpdateUserPassword` are not modelled. These fail here only on their key conditions. `Register` and `ForgetPassword` forward such an error unchanged, as they do the modelled ones.
- AuthStore.AuthDb.SaveActivationToken: cannot fail in this model. The handler's reply to a failed save, the store's status with "Gagal menyimpan token", is not represented.
- Database infrastructure failures of the profile table (connection and query errors, 500) are not modelled. The link table models them because there rollback is the property of interest.
- LinkfyStore.LinkfyPostgres.CreateLinkfy: the database generates the row id, which here is a parameter required to be a UUID in canonical lower-case form, as the `uuid` column returns it; the table invariant keeps every stored id in that form. An id equal to an existing one is refused with the same 409 as a username clash, to keep the primary key unique.
- LinkfyStore.LinkfyPostgres.GetAllLinkfyByUserID: rows with equal `created_at` may come back in any order, as with SQL. The contract states the order only up to such ties.
- LinkfyService.UsernameSanitize: the 500 path for a pattern that fails to compile is not modelled, because the pattern is a constant that compiles.
- UuidText.ParseUuid: accepts only the 36-character hyphenated form. The braced, `urn:uuid:` and 32-digit spellings that the UUID library also accepts are not modelled.
- LinkStore.LinkfyLinkPostgres: the profile key of the link table is compared as exact text. The path parameter names a profile id, a UUID, but the type of the `linkfy_id` column is not in the source. If the column is a `uuid`, the database would treat two letter-case spellings of one UUID as the same profile and would refuse text that is not a UUID. Neither is represented: two spellings are two keys here, "other profiles are untouched" ranges over spellings, and a refusal of malformed text appears only as an unnamed `TxFault` or `ReadFault`.
- LinkStore.LinkfyLinkPostgres.GetLinkByLinkfyID: the generated link id and `created_at` columns are not returned by the model.
- LinkStore.LinkfyLinkPostgres.CreateLinks: a commit failure is modelled as publishing nothing. The source does not roll back explicitly after a failed commit.
- Concurrency between requests is not modelled. Each handler call runs alone against the stores.
