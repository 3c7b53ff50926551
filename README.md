# Dessert API: record lifecycle and authentication, modelled in Dafny

This project models the part of a small Express/Mongoose API that manages
desserts (`Postre`) and users (`Usuario`). It covers three controllers:

- `postres.controller.js`: list, create, update, soft delete, restore and purge desserts.
- `user.controller.js`: list, soft delete, restore and purge users.
- `auth.controller.js`: register and log in.

The Mongo database is modelled as an in-memory collection per model. A collection is a map from
identifier to document plus a counter that hands out identifiers. Both collections live
in one `Database` object that the three controller classes share. Each controller
also has its own mutable `responseAPI` envelope `{ data, msg, status }`, just as each
source module does.

Files:

- `credentials.dfy`: bcrypt's `hashSync` and `compareSync` as `Hash(secret, salt)` and
  `Verify(secret, digest)`. The salt (bcrypt's randomness) is a parameter.
- `documents.dfy`: the store operations the handlers use:
  `find()`, `findOne(filter)`, `findById`, `save` of a new document, and `save` of a loaded one.
- `lifecycle.dfy`: soft delete, restore and purge, the same for both collections.
  It also defines runs of arbitrary operations, and proves that a purged identifier never comes back.
- `models.dfy`: the two schemas, the dessert form, JavaScript truthiness, the
  update merge, and the user projection without `clave`.
- `accounts.dfy`: registration and login as functions of the user collection.
  It proves that names stay unique and that `isLogged` never returns to false over any run of the user handlers.
- `responses.dfy`: the envelope, response bodies, and the "sticky" `status` field.
- `database.dfy`: the shared `Database` class.
- `postres_controller.dfy`, `user_controller.dfy`, `auth_controller.dfy`: one class per
  controller module, with one method per handler. Each method states the new collection and the new envelope, and the
  HTTP status and body it answers with.
- `walkthrough.dfy`: a client that registers a user and logs in, soft deletes, restores and
  purges, checking each answer against the controllers' contracts only.

Conventions:

- The clock is a `now: nat` parameter.
- The uploaded image is `file: Option<string>`. `None` is a request without an upload.
- Every handler takes `storeFails: bool`: whether the database throws on this request.
  When it does, the handler lands in its catch block. It answers 500 with the envelope and writes nothing.
- Document identifiers are naturals handed out in increasing order.
  The model fixes the store's natural order (what `find()` and `findOne()` scan) to ascending identifier order, that is, insertion order.

What the code does that a reader may not expect; the model follows the code. Where a JSDoc block says otherwise, the bullet names it:

- The user controller's answers (list, soft delete, restore, purge) carry the stored
  user documents with their password digest. Only the two authentication handlers strip `clave`.
- A not-found, duplicate-name or bad-password answer is a bare `{ error }` object, not an envelope.
  A successful login answers `{ usuario }` and only updates `msg` in the module's envelope.
- `status` is never reset to "ok" in the dessert and user controllers, although the `responseAPI` JSDoc (controllers/postres.controller.js:43-49) describes it as the state of the response. After one failure, every
  later answer of that module says "error", successful ones included (`Responses.ErrorStatusIsSticky`).
  `createUser` is the only handler that sets "ok" again.
  A catch block also leaves the previous request's `data` in the envelope it sends.
- A duplicate registration answers 404.
- No handler changes `updated_at`, although the schemas' JSDoc calls it the time of the last update (models/usuario.js:12, models/postre.js:18).
- The dessert schema and its JSDoc call its creation timestamp `create_at` (models/postre.js:17, 34); the user schema calls it `created_at`. The model's `Document` has one field, `created_at`, for both.

## Model

| member | source | states |
|---|---|---|
| `Credentials.Hash` | controllers/auth.controller.js:175 | the stored digest verifies against the password it was made from |
| `Credentials.VerifyAcceptsOnlyItsSecret` | controllers/auth.controller.js:90 | a digest verifies a password if and only if it is the password that was hashed |
| `Credentials.SaltedDigestsDiffer` | controllers/auth.controller.js:175 | hashing one password with two salts stores two different digests |
| `Documents.EntriesBelow` | controllers/postres.controller.js:70 | lists exactly the stored documents below a bound, each with its own content, in strictly ascending id order |
| `Documents.FindAll` | controllers/postres.controller.js:70 | `find()` returns every stored document, soft-deleted ones included, each once, in the model's ascending identifier order, with no `deleted_at` filter |
| `Documents.FirstMatch` | controllers/auth.controller.js:74 | the position found is the first whose body matches the filter, or the end if none does |
| `Documents.FindOne` | controllers/auth.controller.js:158 | `findOne` is null if and only if no stored document matches; otherwise it is a stored match with no earlier match in natural order |
| `Documents.FindById` | controllers/postres.controller.js:196 | `findById` finds a document if and only if the id is stored, and it is the stored document |
| `Documents.Insert` | models/postre.js:34-45 | a save adds exactly one document under a fresh id, with the given fields, both timestamps = now and `deleted_at` null; the others are unchanged |
| `Documents.Replace` | controllers/postres.controller.js:240 | saving a loaded document changes only its schema fields; ids, timestamps and other documents are unchanged |
| `Lifecycle.SoftDelete` | controllers/postres.controller.js:340 | `$set deleted_at = now` changes that field of that document only; an unknown id changes nothing |
| `Lifecycle.Restore` | controllers/postres.controller.js:396 | `$set deleted_at = null` clears that field of that document only, whatever it held; an unknown id changes nothing |
| `Lifecycle.Purge` | controllers/postres.controller.js:284 | `findByIdAndDelete` removes exactly that id; all other documents are unchanged |
| `Lifecycle.RestoreUndoesSoftDelete` | controllers/user.controller.js:128 | soft delete followed by restore gives back the original active record and collection |
| `Lifecycle.SoftDeleteThenRestore` | controllers/postres.controller.js:396 | for any record, soft-deleted or not, soft delete followed by restore equals restore alone: only `deleted_at` changes, and it ends up null |
| `Lifecycle.RestoreIdempotent` | controllers/postres.controller.js:396 | restoring twice is the same as restoring once |
| `Lifecycle.SoftDeleteRefreshes` | controllers/postres.controller.js:340 | a second soft delete only replaces the timestamp |
| `Lifecycle.Apply` | controllers/postres.controller.js:133-407 | no handler step reuses an identifier or brings a removed one back |
| `Lifecycle.Run` | controllers/postres.controller.js:133-407 | every run of handler steps keeps identifiers below the counter |
| `Lifecycle.GoneStaysGone` | controllers/postres.controller.js:133-407 | a dessert identifier that is no longer stored stays absent after any sequence of creates, saves, soft deletes, restores and purges |
| `Lifecycle.PurgeIsTerminal` | controllers/postres.controller.js:284-295 | after a purge, `findById` on that id finds nothing, whatever follows, so update, delete, restore and purge all answer 404 |
| `Models.NewPostre` | controllers/postres.controller.js:133-142 | the created dessert holds the six body fields as given, the upload's file name and the given owner |
| `Models.Truthy` | controllers/postres.controller.js:212-234 | of the values a body field can hold, exactly undefined and the empty string are falsy and skip the assignment |
| `Models.Pick` | controllers/postres.controller.js:212-214 | a supplied value replaces the stored one exactly when it is truthy |
| `Models.Merge` | controllers/postres.controller.js:212-234 | each of the six fields changes only to a truthy supplied value, and always does when one is supplied; image and owner never change |
| `Models.MergeFalsyFormKeeps` | controllers/postres.controller.js:212-234 | an update whose values are all empty or absent leaves the dessert unchanged |
| `Models.MergeIdempotent` | controllers/postres.controller.js:212-234 | sending the same update twice gives the same dessert as sending it once |
| `Models.Public` | controllers/auth.controller.js:100 | the returned user carries every field of the stored user except `clave` |
| `Models.PublicForgetsOnlyClave` | controllers/auth.controller.js:197 | two user documents look the same to a caller if and only if they differ at most in `clave` |
| `Models.NewUsuario` | controllers/auth.controller.js:180-187 | a new account stores the given name, digest, image and description, with `isAdmin` and `isLogged` false |
| `Accounts.FindByNombre` | controllers/auth.controller.js:74 | the name lookup is null if and only if no stored user, soft-deleted or not, has that name |
| `Accounts.FindByNombreSole` | controllers/auth.controller.js:74 | when exactly one stored user has a name, the lookup returns that user |
| `Accounts.FindByNombreUnique` | controllers/auth.controller.js:74 | with unique names, the lookup returns the one user with that name |
| `Accounts.Register` | controllers/auth.controller.js:153-192 | a taken name (any deletion state) gives Duplicate; otherwise a missing upload fails; otherwise exactly one user is added, with `Hash(clave)`, not admin, not logged in, `deleted_at` null |
| `Accounts.RegisterKeepsNamesUnique` | controllers/auth.controller.js:158-170 | registration preserves uniqueness of `nombre` |
| `Accounts.Login` | controllers/auth.controller.js:69-122 | an unknown name gives UnknownUser; a failed password check gives WrongPassword; success sets `isLogged` of the user found and changes nothing else; `deleted_at` is not consulted |
| `Accounts.RegisterThenLogin` | controllers/auth.controller.js:90-95 | registering and then logging in with the same name and password succeeds for the new user and leaves it logged in |
| `Accounts.SoftDeletedUserCanLogIn` | controllers/auth.controller.js:74-95 | a soft-deleted user with the right password still logs in |
| `Accounts.WrongPasswordChangesNothing` | controllers/auth.controller.js:113-122 | a wrong password for a stored name is refused for that user |
| `Accounts.UserStep` | controllers/user.controller.js:60-216 | no user handler reuses an identifier or changes a stored user's name; the steps are the user controller's soft delete, restore and purge and the sign-up (controllers/auth.controller.js:153-192) and login (controllers/auth.controller.js:69-95) handlers |
| `Accounts.RunUsers` | controllers/user.controller.js:60-216 | every run of user handlers, the sign-up and login handlers of controllers/auth.controller.js included, keeps identifiers below the counter |
| `Accounts.UserStepKeepsNamesUnique` | controllers/auth.controller.js:158-170 | each user handler preserves uniqueness of names |
| `Accounts.NamesStayUnique` | controllers/auth.controller.js:158-170 | any sequence of registrations, logins, soft deletes, restores and purges keeps names unique |
| `Accounts.UserStepKeepsLoggedIn` | controllers/auth.controller.js:94-95 | no user handler sets `isLogged` of a stored user back to false |
| `Accounts.LoggedInStaysLoggedIn` | controllers/auth.controller.js:94-95 | once logged in, a user stays logged in for as long as it is stored, whatever handlers run |
| `Accounts.PurgedUserStaysGone` | controllers/user.controller.js:182-193 | a user identifier that is no longer stored stays absent after any sequence of sign-ups, logins, soft deletes, restores and purges of users |
| `Accounts.PurgeUserIsTerminal` | controllers/user.controller.js:172-216 | after `deleteUserForever`, `findById` on that id finds nothing whatever user handlers follow, so delete, restore and purge of it answer 404 |
| `Responses.Initial` | controllers/postres.controller.js:50-54 | the envelope starts as empty data, empty message, status "ok" |
| `Responses.Succeed` | controllers/postres.controller.js:87-89 | a success path overwrites `data` and `msg` and keeps `status` |
| `Responses.Fail` | controllers/postres.controller.js:98-102 | a catch block overwrites `msg`, sets `status` to "error" and keeps the previous `data` |
| `Responses.ErrorStatusIsSticky` | controllers/postres.controller.js:94-104 | after any failure, the module's envelope says "error" from then on, successes included |
| `Responses.ErrorStaysError` | controllers/user.controller.js:95-105 | once "error", the status stays "error" |
| `Persistence.Database.constructor` | models/usuario.js:40 | the shared database starts with both collections empty and well formed |
| `Postres.PostresController.constructor` | controllers/postres.controller.js:50-54 | the dessert controller starts with the initial envelope |
| `Postres.PostresController.GetAllPostres` | controllers/postres.controller.js:64-106 | answers 200 with every dessert, soft-deleted ones included (an empty list too), or 500 when the store throws; nothing is written |
| `Postres.PostresController.CreatePostre` | controllers/postres.controller.js:116-171 | inserts the new dessert (body fields, upload name, unchecked owner, `deleted_at` null) and answers 200; without an upload it answers 500 and inserts nothing; users untouched |
| `Postres.PostresController.UpdatePostre` | controllers/postres.controller.js:181-264 | an unknown id answers 404 and changes nothing; otherwise saves `Merge(stored, form)` and answers 200 with it; users untouched |
| `Postres.PostresController.DeletePostreForever` | controllers/postres.controller.js:274-318 | an unknown id answers 404; otherwise removes the dessert and answers 200 with the removed record |
| `Postres.PostresController.DeletePostre` | controllers/postres.controller.js:328-374 | an unknown id answers 404; otherwise sets only `deleted_at` to now and answers 200 with the updated record |
| `Postres.PostresController.RestorePostre` | controllers/postres.controller.js:384-429 | an unknown id answers 404; otherwise sets `deleted_at` to null and answers 200 with the record |
| `UserHandlers.UserController.constructor` | controllers/user.controller.js:46-50 | the user controller starts with the initial envelope |
| `UserHandlers.UserController.GetAllUsers` | controllers/user.controller.js:226-264 | answers 200 with every user, soft-deleted ones included, or 500 when the store throws; nothing is written |
| `UserHandlers.UserController.DeleteUser` | controllers/user.controller.js:60-106 | an unknown id answers 404; otherwise sets only `deleted_at` to now; desserts untouched |
| `UserHandlers.UserController.RestoreUser` | controllers/user.controller.js:116-162 | an unknown id answers 404; otherwise sets `deleted_at` to null; desserts untouched |
| `UserHandlers.UserController.DeleteUserForever` | controllers/user.controller.js:172-216 | an unknown id answers 404; otherwise removes the user; desserts that name it as owner are untouched |
| `Auth.AuthController.constructor` | controllers/auth.controller.js:46-50 | the authentication controller starts with the initial envelope |
| `Auth.AuthController.LoginUser` | controllers/auth.controller.js:61-135 | an unknown name answers 404 and a wrong password 401, both writing nothing; success sets `isLogged` and answers 200 with the user without `clave` |
| `Auth.AuthController.CreateUser` | controllers/auth.controller.js:148-221 | a taken name answers 404; without an upload, 500; otherwise adds exactly the registered user and answers 200 without `clave` and with status "ok"; names stay unique |

## Left out

- Store order: MongoDB promises no order for an unsorted `find()` or `findOne()`; the model fixes it to ascending identifier order. Only the order of the listings depends on this, and `findOne`'s pick among users sharing a name, which the unique-name invariant rules out.
- Express routing, static files, the unmatched-route 404 and the middlewares (logging, headers, error handler): dispatch glue with no state.
- `next(error)` being called beside `res.status(...)`, and the catch blocks of `restorePostre` and `getAllUsers` (controllers/user.controller.js:254-263) not setting `error.status`: both only concern the error middleware.
- The 404 branches of `getAllPostres` and `getAllUsers`: `find()` always yields a list (possibly empty), so these branches cannot be reached in the model.
- Store exceptions are one boolean per request (`storeFails`), taken to happen before anything is written. A failure between the lookup and the save of one request is not told apart from one at the lookup.
- Malformed ids and schema casting errors (a non-ObjectId `userId` or path id) reach the catch block in the source. They are covered only by `storeFails`.
- bcrypt's salting scheme and work factor: the digest model is collision-free, so a digest verifies only its own password.
- Credentials.VerifyAcceptsOnlyItsSecret: bcrypt hashes only the first 72 bytes of a password, so two passwords that share those bytes verify against each other's digest; the model tells them apart.
- Credentials.Hash: the model's digest `Digest(preimage, salt)` keeps the password itself, so the user controller's answers in the model carry the password where the source's carry a one-way bcrypt digest. Only equality of digests and `Verify` are meant to be read from it.
- Models.Truthy: body fields are modelled as strings or undefined only. The update handler reads a JSON body, so the source also skips a field sent as JSON `0`, `false` or `null`; those values, and the string conversion Mongoose applies to a truthy number or boolean, are not modelled.

- Absent `nombre` or `clave` in a registration or login body. In the source, an undefined filter value or `hashSync(undefined)` depends on library behaviour. The model takes both as strings.
- Real `Date` values: time is a natural number supplied by the caller.
- `delete usuario.clave` on a Mongoose document: modelled as the `Public` projection.
- Console logging and `req.usuario = usuario` in `loginUser`: no effect on stored state or on the answer.
- Concurrency: interleaved load-then-save sequences and cross-request sharing of `responseAPI` are not modelled; handlers run one at a time.
- Configuration, connection setup and file upload to disk (`multer`): I/O. The upload is its file name.
