# Blog API authentication and posts: a Dafny model

This project models the core of a small Express/MongoDB blog API with
JSON Web Token sessions. It covers four things:

- the refresh-token state machine of the authentication controller (register, login, refresh, logout);
- the shape and invariants of the `User` collection;
- the two token helpers;
- the post controller's authorization and update rules, the request-body validator chains, and proofs about each of these.

## How the model is built

- **Users collection**: `map<UserId, User>`. A `User` holds the name, the email, the bcrypt hash and an optional refresh token: a single slot that is `None` for `null` or absent.
- **`UserModel.StoreInvariant`**: every document is well formed (required fields non-empty, name trimmed, email lower-cased), emails are unique, and every stored refresh token names its holder as subject. Together these make the slot single-holder.
- **Handlers as functions**: each handler is a ghost function from the collection before the request to a `Step(reply, users)`: `AuthController.Register`, `Login`, `Refresh`, `Logout`. A `Reply` carries the HTTP status (`Status()`) and the message.
- **Handlers as methods**: the class `AuthController.AuthService` keeps the collection in a field and implements the handlers as methods. Each method looks up a user, updates its `refreshToken` and writes it back, and is proved equal to the function and to keep the invariant. The lemmas in `AuthProperties` relate several requests.
- **bcrypt**: an oracle `Hasher(hash, compare)`. `Sound` says a password matches its own hash. `Binding` says no other password does, and is used only for the wrong-password lemma.
- **JWT**: a token is `Jwt(secret, id, iat, exp)` or any other string (`Malformed`). Verifying a token compares secrets and checks `now < exp`. The token carries no randomness: two tokens for one user, signed with the same secret in the same second, are the same string. The model does not assume that two logins produce different tokens.
- **Email lookup at login**: `findOne({ email })` at `src/controllers/auth.controller.js:37` passes the raw request email. Mongoose casts query filters through the schema, so the schema's `lowercase` setter applies to the filter too. The model therefore compares `Lower(request email)` with the stored email.
- **Request bodies**: a body field is a `Field<T>` that is `Absent` (`undefined`), `Null` or `Given(v)`, because bcrypt, express-validator and the query filters treat these cases differently.
- **`undefined` filters**: a lookup whose filter value is `undefined` (logout or login without the field) returns whatever the library returns. The model takes that result as the input `undefinedMatch` and claims no property about it.
- **Environment inputs**: the generated `_id`s, the bcrypt salt, the clock (whole seconds) and the requester id set by the authentication middleware are all inputs.
- **Posts**: the posts collection is `map<PostId, Post>` inside `PostController.PostStore`, whose methods update it as the handlers do.
- **Validators**: `registerValidation`, `loginValidation`, `createPostValidation` and `updatePostValidation` are pure functions. Each returns the error messages its chain collects, or the accepted (sanitized) body. No route applies any of these chains, so the model never assumes a validator guards a controller.

Behaviours of the code worth noting:

- Register answers 500 for a duplicate email and for every other failure. It has no separate duplicate or validation error.
- The controller accepts an empty password, since bcrypt hashes `""`. Only the unwired validator refuses it.
- A refresh token is not rotated. It can be used again and again until it expires or is overwritten.
- A refreshed access token equals the login's access token when both are signed in the same second.

## Model

| member | source | states |
|---|---|---|
| `Token.Verify` | src/controllers/auth.controller.js:93-99 | verification succeeds exactly when the token is a JWT signed with the given secret and the clock is before `exp`, and then yields the token's `id` |
| `Token.GenerateAccessToken` | src/utils/token.js:4-10 | the token carries the user id; it verifies against the access secret from issue until 30 seconds later and never after; with distinct secrets it never verifies against the refresh secret |
| `Token.GenerateRefreshToken` | src/utils/token.js:12-18 | the token carries the user id; it verifies against the refresh secret for 7 days (604800 s) after issue and never after; with distinct secrets it never verifies against the access secret |
| `Token.RefreshTokensEqualIff` | src/utils/token.js:12-18 | two refresh tokens are the same string exactly when they are for the same user and the same second |
| `Token.AccessIsNotRefresh` | src/utils/token.js:4-18 | with distinct secrets an access token is never equal to a refresh token |
| `Strings.Trim` | src/models/User.js:9-13 | the result is a contiguous middle part of the name with only whitespace cut from either end, has no whitespace at either end, keeps an already trimmed name, and is empty exactly when the name is all whitespace |
| `Strings.Lower` | src/models/User.js:14-19 | each character is kept, except an ASCII capital, which becomes its lower-case letter; so the result has the same length and no capital, and a lower-case string is kept |
| `Strings.LowerIgnoresAsciiCase` | src/models/User.js:17-18 | two emails that differ only in ASCII case lower-case to the same string |
| `Strings.MeasuredLength` | src/validators/auth.validator.js:14 | the length `isLength` measures is at most the number of code points and equals it when there is no variation selector; a single character measures 0 exactly when it is a variation selector (U+FE0E or U+FE0F) |
| `Strings.MeasuredLengthAppend` | src/validators/auth.validator.js:14 | the measured length is additive over concatenation, so each character counts 1 except a variation selector, which counts 0 |
| `UserModel.StoreInvariant` | src/models/User.js:9-26 | every stored user has a non-empty trimmed name, a non-empty lower-cased email and a non-empty password; no two users share an email; a stored refresh token is a JWT whose subject is its holder |
| `UserModel.CreateUser` | src/models/User.js:7-31 | the insert succeeds exactly when name (after trim), email and password hash are present and non-empty and neither the `_id` nor the lower-cased email is taken; the stored document is well formed, trimmed, lower-cased and has no refresh token |
| `UserModel.FindByEmail` | src/controllers/auth.controller.js:37 | the lookup finds a user whose email is the lower-cased request email, and finds none exactly when no such user exists |
| `UserModel.FindByRefreshToken` | src/controllers/auth.controller.js:85 | the lookup finds a user whose slot holds the filter value, and finds none exactly when no user holds it |
| `UserModel.EmailLookupUnique` | src/models/User.js:14-19 | under the invariant the email lookup has exactly one possible answer (unique index) |
| `UserModel.TokenLookupUnique` | src/controllers/auth.controller.js:85-90 | under the invariant a token is held by one user at most, its subject, so the token lookup has one possible answer |
| `UserModel.CreatePreservesInvariant` | src/models/User.js:7-31 | inserting an accepted document keeps the collection invariant |
| `UserModel.SetTokenPreservesInvariant` | src/models/User.js:24-26 | writing a token issued to the holder into its slot, or clearing the slot, keeps the invariant |
| `AuthController.UndefinedLookup` | src/controllers/auth.controller.js:119-121 | an assumed lookup result for an `undefined` filter is used only when it names a stored user |
| `AuthController.LoginLookup` | src/controllers/auth.controller.js:34-37 | the login lookup is the email lookup for a given email, names a stored user, and finds nobody for `null` |
| `AuthController.LogoutLookup` | src/controllers/auth.controller.js:119-121 | the logout lookup is the token lookup for a given token, the lookup of an empty slot for `null`, and names a stored user |
| `AuthController.Register` | src/controllers/auth.controller.js:9-30 | 201 exactly when a password is given and the insert of its hash succeeds; the new user is exactly the document the insert accepted (trimmed name, lower-cased email, the hash of the password, no refresh token) and is the only addition; every failure is 500 and leaves the collection unchanged |
| `AuthController.Login` | src/controllers/auth.controller.js:32-69 | 400 "User not found" exactly when the lookup fails; 500 when a user is found but no password was sent; 400 "Invalid credentials" exactly when `compare` fails; on every failure the collection is unchanged; on success both tokens are for the found user at `now`, that user's slot holds exactly the returned refresh token and no other user changes |
| `AuthController.Refresh` | src/controllers/auth.controller.js:74-114 | the collection never changes; 401 exactly for a falsy token; 200 exactly when some user holds the token and it verifies against the refresh secret; then the new access token is for that holder; every other case is 403 |
| `AuthController.Logout` | src/controllers/auth.controller.js:117-135 | always 200; the user set is unchanged; only the user the lookup finds has its slot cleared, and every other document is untouched |
| `AuthController.AuthService.RegisterUser` | src/controllers/auth.controller.js:9-30 | hashes, inserts into the collection field and replies exactly as `Register`, keeping the invariant |
| `AuthController.AuthService.LoginUser` | src/controllers/auth.controller.js:32-69 | looks the user up, sets its `refreshToken` and saves, replying and updating exactly as `Login`, keeping the invariant |
| `AuthController.AuthService.RefreshAccessToken` | src/controllers/auth.controller.js:74-114 | replies exactly as `Refresh` without changing the collection |
| `AuthController.AuthService.LogoutUser` | src/controllers/auth.controller.js:117-135 | clears the found user's `refreshToken` and saves, exactly as `Logout`, keeping the invariant |
| `AuthProperties.HandlePreservesInvariant` | src/controllers/auth.controller.js:9-135 | every handler keeps the collection invariant |
| `AuthProperties.RunPreservesInvariant` | src/controllers/auth.controller.js:9-135 | the invariant holds after any sequence of requests |
| `AuthProperties.AcceptedRefreshTokenIsStored` | src/controllers/auth.controller.js:85-104 | a token that refresh accepts is a refresh-secret JWT, not expired, sitting in its subject's slot, and the new access token is for that subject |
| `AuthProperties.RegisterThenLogin` | src/controllers/auth.controller.js:14-62 | after a successful registration, logging in with the same email and password succeeds with tokens for the new user |
| `AuthProperties.DuplicateEmailRejected` | src/models/User.js:14-19 | a registration whose email equals a stored one up to ASCII case answers 500 and changes nothing |
| `AuthProperties.WrongPasswordRejected` | src/controllers/auth.controller.js:45-51 | with a collision-free hasher, any other password answers 400 "Invalid credentials" and changes nothing |
| `AuthProperties.LogoutClearsToken` | src/controllers/auth.controller.js:119-125 | after logout with a token no user holds it |
| `AuthProperties.LogoutRevokes` | src/controllers/auth.controller.js:119-125 | after logout with a token, refresh with it answers 403 (401 for the empty string) |
| `AuthProperties.LogoutIdempotent` | src/controllers/auth.controller.js:117-135 | logging out twice with the same body leaves what logging out once left |
| `AuthProperties.LoginThenRefresh` | src/controllers/auth.controller.js:54-104 | the refresh token a login returns is accepted exactly until seven days after issue, mints access tokens for the same user, and is otherwise refused with 403 |
| `AuthProperties.SecondLoginRevokesFirst` | src/controllers/auth.controller.js:57-59 | after a second login of the same user the first refresh token is accepted exactly when both logins fell in the same second (identical tokens) and it has not expired |
| `AuthProperties.WorkedExample` | src/controllers/auth.controller.js:9-135 | from an empty collection: register 201 storing only the hash, login 200 on the registered collection, refresh within the refresh token's lifetime 200 (new access token exactly when in a later second), logout 200, refresh again 403 |
| `PostController.Updated` | src/controllers/post.controller.js:66-67 | a field is replaced only by a truthy value, otherwise kept; the author never changes |
| `PostController.UpdateIdempotent` | src/controllers/post.controller.js:66-67 | applying the same update twice equals applying it once |
| `PostController.PostsBy` | src/controllers/post.controller.js:36-38 | exactly the posts whose author is the given user, with their stored values |
| `PostController.PostsByAfterCreate` | src/controllers/post.controller.js:7-11 | a created post joins its author's posts and no other author's posts change |
| `PostController.PostsByAfterDelete` | src/controllers/post.controller.js:100 | a deleted post leaves its author's posts and nothing else changes |
| `PostController.PostStore.CreatePost` | src/controllers/post.controller.js:3-20 | adds exactly one post, authored by the requester (500 and no change for a taken `_id`) |
| `PostController.PostStore.GetAllPosts` | src/controllers/post.controller.js:22-33 | returns every post unchanged |
| `PostController.PostStore.GetMyPosts` | src/controllers/post.controller.js:34-45 | returns exactly the posts whose author is the requester |
| `PostController.PostStore.UpdatePost` | src/controllers/post.controller.js:46-81 | 500 for a non-ObjectId path, 404 for a missing post, 403 for a non-author, each with no change; otherwise only that post changes, to the truthy-or-keep update |
| `PostController.PostStore.DeletePost` | src/controllers/post.controller.js:83-111 | 500, 404 and 403 as for update with no change; otherwise exactly that post is removed |
| `ValidationChain.Failing` | src/validators/auth.validator.js:3-23 | the reported messages are exactly those of the chain's rules that fail, and none are reported exactly when every rule holds |
| `AuthValidator.RegisterErrors` | src/validators/auth.validator.js:3-18 | each message appears exactly when its rule fails (empty name, empty email, bad email format, empty password, length under 6, no A-Z, no 0-9), and none appears exactly when all rules hold |
| `AuthValidator.RegisterValidation` | src/validators/auth.validator.js:3-18 | accepted exactly when name and email are non-empty, the email has email format and the password is strong; the accepted body carries the normalized email and a password of at least 6 characters |
| `AuthValidator.LoginErrors` | src/validators/auth.validator.js:20-23 | each of the two messages appears exactly when its rule fails |
| `AuthValidator.LoginValidation` | src/validators/auth.validator.js:20-23 | accepted exactly for an email in email format and a non-empty password, with no strength rules, body unchanged |
| `AuthValidator.RegisterRulesImplyLoginRules` | src/validators/auth.validator.js:3-23 | every body the registration rules accept passes the login rules |
| `AuthValidator.ExamplePasswords` | src/validators/auth.validator.js:12-16 | "Secret1" is strong; "secret1" fails only the capital rule, "Secretx" only the digit rule, "Sec1" only the length rule |
| `AuthValidator.UnguardedRegisterAcceptsWeakPassword` | src/routes/auth.routes.js:10 | the unguarded register handler stores a user with a one-letter password that the registration rules reject |
| `PostValidator.CreatePostErrors` | src/validators/post.validator.js:3-7 | each message appears exactly when its field is missing or empty |
| `PostValidator.CreatePostValidation` | src/validators/post.validator.js:3-7 | accepted exactly when both title and content are non-empty strings |
| `PostValidator.UpdatePostErrors` | src/validators/post.validator.js:9-12 | a message appears exactly when its field is present (including `null`) but empty |
| `PostValidator.UpdatePostValidation` | src/validators/post.validator.js:9-12 | accepted exactly when each field is absent or a non-empty string |
| `PostValidator.CreateRulesImplyUpdateRules` | src/validators/post.validator.js:3-12 | every body valid for create is valid for update |
| `PostValidator.ValidUpdateReplacesPresentFields` | src/validators/post.validator.js:9-12 | on a body the update rules accept, a present field replaces the stored one, an absent one keeps it, and the author never changes |

## Left out

- The authentication middleware: `src/middleware/auth.middleware.js` is not part of this model. The requester id it sets is an input, and the `/profile` route that echoes it is not modelled.
- Bootstrap: the database connection, `process.exit`, port listening and middleware registration (`src/config/db.js`, `src/server.js`, `src/app.js`). These are I/O.
- The `validate` middleware: it is a two-branch wrapper over the library's result. The rules it reports are modelled in the validator functions.
- Cryptography: bcrypt internals (cost factor, salting, the 72-byte input limit) and JWT signatures and their encoding. bcrypt is an oracle and a signature is the secret it was made with. `Binding` ignores bcrypt collisions.
- `isEmail` and `normalizeEmail`: left uninterpreted.
- Mongoose details: `populate` in `getAllPosts`, the `timestamps` fields, and server or database failures other than the named ones. The `Post` schema (`src/models/Post.js`) is not part of this model, so `createPost` stores the title and content as given.
- Concurrency and timing: async/await, the `jwt.verify` callback (modelled as a sequential call), and races between concurrent requests for one user (last write wins).
- Request-body values that are not strings or `null`, such as numbers, arrays and objects. This includes query-operator objects, which Mongoose passes through into a filter.
- Response formatting: the shape of error responses, and `res.json(500)` in the error path of `getMyPosts` (`PostController.PostStore.GetMyPosts` has no error path).
- Configuration: missing or empty signing secrets, for which `jwt.sign` throws. The secrets are fixed configuration.
- Strings.Lower: lower-cases ASCII letters only, because JavaScript's full Unicode case mapping is not modelled.
- AuthController.UndefinedLookup: no property is claimed about a lookup on an `undefined` filter. How Mongoose translates such a filter is library behaviour, so the result is an input.
