# User registration and login, modelled in Dafny

This project models the credential-issuing core of an e-book API service:

- the `createUser` handler (registration). It checks that name, email and password
  are present. It then checks the email format and the password length. Next it looks
  for an account with the same email, hashes the password with bcrypt, creates the
  account and signs a JSON Web Token for it.
- the `loginUser` handler (authentication). It checks that email and password are
  present. It then looks the account up, compares the password with the stored digest
  and signs a token.
- the application-wide `globalErrorHandler`, which turns the error a handler passes to
  `next` into the JSON error response.

Each handler is a pure function. Its inputs are the request body, the account store (a
map from email to account) and what each collaborator call does when it is made. That
is: the database lookup throws or not, bcrypt's hash returns a digest or throws,
`create` returns the new id or throws, bcrypt's compare returns true, false or throws,
and `sign` returns or throws. Its result is the outcome (a direct response, or an error
handed to `next`), the new store and the list of collaborator calls made, in order.
Recording the calls is what lets the model state that nothing runs after a failing step.

Modules:

- `Wrappers`: `Option` for absent JSON fields. `Reply` for "returned a value or threw".
- `JsString`: the code points of the regular-expression class `\s`, JavaScript's
  UTF-16 `length`, and the truthiness of a string field.
- `EmailFormat`: the language of `^[^\s@]+@[^\s@]+\.[^\s@]+$` as a predicate
  (`IsValidEmail`), and a single-pass matcher proved to accept exactly that language.
- `Pipeline`: a flow read as a list of checks run in order. The first check that fails
  decides the error, and its trace of calls is the run's trace.
- `Tokens`: token claims `{sub, iat, exp}` and the seven-day lifetime (604800 s).
- `UserController`: `CreateUser` and `LoginUser`, with the branches, statuses and
  messages of the handlers.
- `UserControllerSteps`: each handler's steps as a check table, and lemmas that the
  nested handler and the table agree on every input.
- `UserControllerProperties`: the promises of both handlers as all-input lemmas, plus
  one worked session of requests.
- `ErrorHandler`: `globalErrorHandler`.
- `ClientResponse`: the response the client finally gets, combining a handler with the
  error handler.

Three behaviours of the handlers that a reader might not expect:

- A failing `create` answers 500 "Error creating user", including when the store
  rejects a duplicate email. It never answers 409.
- Login answers 404 for an unknown email and 401 for a wrong password.
- Login checks only that the fields are present. It does not check the email format or
  the password length.

## Model

| member | source | states |
|---|---|---|
| `JsString.Utf16Length` | src/user/userController.ts:24 | `password.length` counts UTF-16 code units: at least one and at most two per character, and exactly one per character when none lies outside the Basic Multilingual Plane |
| `EmailFormat.MatchEmail` | src/user/userController.ts:18-19 | a single left-to-right scan accepts a string exactly when it satisfies `EmailFormat.IsValidEmail`, the predicate `CreateUser` uses for the pattern `^[^\s@]+@[^\s@]+\.[^\s@]+$`: a non-empty run without whitespace or '@', then '@', a non-empty run, a '.', and a non-empty run (both directions) |
| `EmailFormat.SplitShape` | src/user/userController.ts:18 | a string the pattern matches has no whitespace and exactly one '@', the one that splits local part from domain |
| `EmailFormat.WhitespaceRejects` | src/user/userController.ts:18 | any `\s` character anywhere makes the pattern fail |
| `EmailFormat.MisplacedAtRejects` | src/user/userController.ts:18 | a leading '@' or a second '@' makes the pattern fail |
| `EmailFormat.ScanFindsMatch` | src/user/userController.ts:18-19 | once the scan has located the only '@' and the first dot that could separate the domain, every matching string has that dot before its last character, so the scan accepts it |
| `EmailFormat.Examples` | src/user/userController.ts:18-21 | "a@b.com" is accepted; "abc", "a@b.", "a@.b", "@b.com" and "a b@c.d" are rejected |
| `Tokens.Issue` | src/user/userController.ts:60-68 | a claims constructor, not a proved property: the token `sign({sub}, key, {expiresIn: "7d"})` produces holds the subject, an `iat` equal to the clock value `sign` returns, and an `exp` seven days (604800 s) later |
| `Pipeline.RunStopsAtFirstFailure` | src/user/userController.ts:13-76 | in a chain of steps with early return, the first failing step decides the error and the calls made are exactly those made up to it |
| `Pipeline.RunCompletes` | src/user/userController.ts:58-73 | when every step passes, the chain ends without error, having made every call |
| `Pipeline.RunCallsPrefix` | src/user/userController.ts:28-76 | when each step only adds calls, whatever a run calls is a prefix of the full list of calls; `RegistrationCallsFollowPlan` is derived from it |
| `UserController.CreateUser` | src/user/userController.ts:9-77 | registration keeps every account filed under its own email, and either leaves the store alone or adds exactly the one account for the submitted email, built from the create result, name, email and hash output. Errors are 400, 409 or 500. Success is 201 with a token naming the new account and lasting 604800 s |
| `UserController.LoginUser` | src/user/userController.ts:79-130 | login never changes the store. Errors are 400, 401, 404 or 500. Success is 200 only for a stored email whose password compared true, with a token naming that account and lasting 604800 s |
| `UserControllerSteps.CreateUserFollowsChecks` | src/user/userController.ts:13-76 | on every input, registration hands on exactly the error of the first failing step (fields, email format, length, lookup error, existing email, hash, create, sign). It succeeds exactly when no step fails, and makes exactly that step's calls |
| `UserControllerSteps.CreateUserPastValidation` | src/user/userController.ts:28-76 | the same agreement for bodies that pass the input checks |
| `UserControllerSteps.LoginUserFollowsChecks` | src/user/userController.ts:82-129 | on every input, login hands on exactly the error of the first failing step (fields, lookup error, unknown email, compare error, mismatch, sign). It succeeds exactly when none fails, and makes exactly that step's calls |
| `UserControllerProperties.RegistrationValidationOrder` | src/user/userController.ts:13-26 | a missing or empty field gives "All fields are required" first, then a bad email gives "Invalid email format", then a short password gives the length error. All three are 400, with no call and no store change. Calls are made exactly when the body passes all three |
| `UserControllerProperties.PasswordLengthBoundary` | src/user/userController.ts:24-26 | a password of length 8 passes the length check and reaches the lookup; length 7 is refused with the length error |
| `UserControllerProperties.RegistrationLookup` | src/user/userController.ts:28-36 | a lookup error gives 500 "Error checking existing user"; a stored email gives 409. In both cases the only call made is the lookup, and the store is unchanged |
| `UserControllerProperties.RegistrationCreate` | src/user/userController.ts:38-56 | a hash error gives 500 with no create. Create receives the submitted name and email and the hash output. A create error gives 500 "Error creating user" with the store unchanged |
| `UserControllerProperties.ConflictOnlyFromLookup` | src/user/userController.ts:31-33 | the 409 answer happens exactly when the body is valid, the lookup works and the email is already stored |
| `UserControllerProperties.RegistrationSuccess` | src/user/userController.ts:58-73 | success implies a valid body and a new email, status 201, "User created successfully", exactly one more account, every planned call made, and a token whose subject is the created id and whose exp − iat is seven days |
| `UserControllerProperties.SignFailureKeepsAccount` | src/user/userController.ts:48-56 | when signing fails after create succeeded, the answer is 500 "Error generating token" and the new account stays in the store |
| `UserControllerProperties.RegistrationChecksGrow` | src/user/userController.ts:28-68 | each registration step's calls extend those of the step before |
| `UserControllerProperties.RegistrationCallsFollowPlan` | src/user/userController.ts:28-68 | the calls registration makes are always a prefix of lookup, hash, create, sign, derived from `RegistrationChecksGrow`, `Pipeline.RunCallsPrefix` and `CreateUserFollowsChecks` |
| `UserControllerProperties.LoginOrder` | src/user/userController.ts:82-108 | missing fields give 400. Then a lookup error gives 500, an unknown email 404, a compare error 500, a mismatch 401 and a signing error 500, in that order |
| `UserControllerProperties.LoginSuccess` | src/user/userController.ts:110-125 | login succeeds exactly when both fields are present, the lookup finds the email, the password matches and signing works. It then answers 200 "Login successful" with a seven-day token for the stored account's id |
| `UserControllerProperties.LoginSkipsFormatChecks` | src/user/userController.ts:82-84 | an email the registration pattern refuses, with a one-character password, still logs in |
| `UserControllerProperties.Session` | src/user/userController.ts:9-130 | a worked session: a first registration succeeds, a second with the same email gets 409, the right password logs in, a wrong one gets 401, an unknown email gets 404, and empty fields get 400 with nothing changed |
| `ErrorHandler.GlobalErrorHandler` | src/middlewares/globalErrorHandler.ts:5-17 | the status is the error's status code when it is set and non-zero, otherwise 500. The message is the error's message. The stack is sent only when the environment is exactly "development", and is "" otherwise |
| `ClientResponse.Deliver` | src/middlewares/globalErrorHandler.ts:11-16 | a direct response reaches the client unchanged. An error with a non-zero status reaches the client with that status and message. Outside development an error body never carries a stack |
| `ClientResponse.RegistrationStatusReachesClient` | src/middlewares/globalErrorHandler.ts:11 | every registration outcome reaches the client with the status and message the handler chose; the 500 fallback never applies |
| `ClientResponse.LoginStatusReachesClient` | src/middlewares/globalErrorHandler.ts:11 | every login outcome reaches the client with the status and message the handler chose |

## Left out

- Express itself is not modelled: `req`, `res`, `next`, routing and the app in `src/app.ts`. The request body is a record of optional strings. The response is a datatype.
- Request fields that are JSON values other than strings (numbers, objects) are not modelled. A field is a string or absent.
- The database connection (`src/config/db.ts`) and environment loading (`src/config/config.ts`) are not modelled. The environment name is a plain input.
- The signing key is not modelled. It only affects whether `sign` throws, and that is an input.
- The account model, its schema and any unique index are not part of this model. The store is a map keyed by exact email, so it holds at most one account per email.
- bcrypt is not modelled: salt, cost factor 10 and constant-time compare. Hash and compare results are inputs. No claim about hash irreversibility is made, because the handlers cannot show one.
- jsonwebtoken is not modelled: its encoding and HMAC signature. A token is its claims; the value `sign` returns is the clock reading in seconds.
- Token verification is not modelled. The handlers never verify a token.
- Concurrency is not modelled: the race between lookup and create under parallel registrations, and the scheduling of `await`. Each request runs alone against the store.
- A `create` that fails after the write partly took effect is not modelled. A failing create leaves the store unchanged.
- An exception thrown by `res.json` inside the signing `try` block is not modelled. It would also be reported as a signing error.
- Express rejecting an out-of-range status in `res.status` is not modelled. `createUser` sets 201 itself, `loginUser` leaves Express's default 200, and the error statuses 400, 401, 404, 409 and 500 are carried by the errors handed to `next` and set by the error handler; all of these are in range.
- Regular-expression matching runs on Unicode scalar values rather than UTF-16 code units. For well-formed text this gives the same result for this pattern, because surrogate halves are neither whitespace nor '@' nor '.'.
- Strings holding an unpaired surrogate (a JSON field such as `"\ud800"`) are not modelled: a Dafny string holds only Unicode scalar values. JavaScript counts such a surrogate as one code unit of `length`, and it matches `[^\s@]`.
- `JsString.IsWhitespace` is a fixed list: the ECMAScript WhiteSpace and LineTerminator code points of current Unicode.
