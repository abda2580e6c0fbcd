# Smart-Eval authentication core in Dafny

A model of the authentication and authorisation core of the Smart-Eval Flask
backend, with proofs of its properties:

- the input validators and response envelopes of `utils/helpers.py`;
- the exception classes of `utils/exceptions.py`;
- the `User` document of `models/user.py` and the `users` collection it lives in;
- registration, login, token refresh and lookup in `services/auth_service.py`;
- the `role_required` guard and `get_current_user` of `utils/decorators.py`.

Everything is sequential and functional. The collection is an immutable value:
a map from document id to `User`, plus the next id to assign. It is the subset
type `UserModel.Db`, whose constraint is the unique index on `email` and
id-consistency. Every operation takes the collection and returns the new one,
so each one has to prove it keeps emails unique.

Operations return `Result` values where the source raises. bcrypt, the token
library, the token lifetimes of the configuration, the clock and the salt
generator are parameters:

- `UserModel.Bcrypt` holds `hashpw` and `checkpw` as plain function values.
  Their one assumed property, `HashRoundTrip`, is a predicate that only lemmas
  require.
- A token is the term `Token(class, identity, issuedAt, lifetime)`.
- The lifetimes come from the `jwt` field of `AuthService.Platform`.
  `Tokens.Configured()` is the configuration as written in `app/config.py`: the
  access setting is read as minutes, so 900 gives 54000 seconds.
  `Tokens.Intended()` reads that setting as seconds.
- `now` stands for `datetime.utcnow()` and `salt` for `bcrypt.gensalt()`.
- The guard receives the outcome of `verify_jwt_in_request()` as a `JwtCheck`.

Python's `\d` matches every Unicode decimal digit. The password check
therefore takes that class as a parameter, `isDecimal`.

Other modelling choices:

- The email pattern is a hand-written recogniser, `Helpers.ValidateEmail`. It
  is proved equal to the regular expression read as a language, including the
  quirk that `$` also matches before one final newline. `"a@b.co\n"` is
  accepted, as in the source.
- MongoDB ObjectIds are numbered in creation order. `str(user.id)` is their
  canonical decimal text, and lookups by an identity string parse that text
  back.
- Datetimes are records with the ranges Python enforces. `isoformat()` is
  written out, and a parser is proved to be its exact inverse.

Modules: `Results`, `Json`, `Digits`, `Timestamps` (support); `Helpers`,
`Exceptions`, `UserModel`, `Tokens`, `AuthService`, `Decorators` (one per
source component); `Flows` (properties of operations used in sequence).

## Model

| member | source | states |
|---|---|---|
| `Helpers.ValidateEmailMatchesRegex` | smart-eval-backend/utils/helpers.py:18-19 | the hand-written recogniser accepts exactly the strings `re.match` accepts for the pattern: local part, `@`, domain, final dot, two or more letters, optionally one final newline |
| `Helpers.AcceptedEmailShape` | smart-eval-backend/utils/helpers.py:18-19 | an accepted address (less the final newline) has exactly one `@`, a non-empty local part from `[a-zA-Z0-9._%+-]`, at least one domain character before its last dot, and at least two ASCII letters after that dot |
| `Helpers.FindFirst` | smart-eval-backend/utils/helpers.py:41-47 | the `re.search` scan: the position found is the leftmost character in the class; none found means no character is in it |
| `Helpers.ValidatePassword` | smart-eval-backend/utils/helpers.py:38-50 | `(True, None)` exactly when the length is at least 8 and there is an A-Z, an a-z and a `\d` character; any length below 8 gives the too-short message whatever the content |
| `Helpers.PasswordFirstFailure` | smart-eval-backend/utils/helpers.py:38-48 | the message is rule i's exactly when rule i fails and every earlier rule (length, upper, lower, digit) holds |
| `Helpers.FormatDatetime` | smart-eval-backend/utils/helpers.py:63-65 | `None` iff `None`; otherwise the text ends in `Z` and what precedes it parses back to the same datetime |
| `Helpers.SuccessResponseReads` | smart-eval-backend/utils/helpers.py:68-88 | the envelope reads back as `success = true`, the data unchanged, `meta` present iff truthy; the status is the argument, 200 by default |
| `Helpers.ErrorResponseReads` | smart-eval-backend/utils/helpers.py:91-115 | the envelope reads back as `success = false`, code and message unchanged, `details` present iff truthy; the status is the argument, 400 by default |
| `Exceptions.ClassStatus` | smart-eval-backend/utils/exceptions.py:8-45 | the base class is a 5xx error and each of the five subclasses a 4xx error |
| `Exceptions.ClassStatusTable` | smart-eval-backend/utils/exceptions.py:23-45 | the codes are 500, 400, 401, 403, 404 and 409, and no two classes share one |
| `Exceptions.Raise` | smart-eval-backend/utils/exceptions.py:10-15 | any explicit status code replaces the class default; `None` keeps the default |
| `Exceptions.ToDict` | smart-eval-backend/utils/exceptions.py:17-20 | keys are the payload's plus `message`; `message` is the exception's own, overriding the payload's; every other payload entry is kept; no payload gives exactly `{message: m}` |
| `UserModel.ParseRole` | smart-eval-backend/models/user.py:14 | a role string is accepted iff it is one of `teacher`, `student`, `admin`, and then names that role |
| `UserModel.NewUserDefaults` | smart-eval-backend/models/user.py:17-30 | a new document has profile `{}`, settings `{notifications: {email: true, in_app: true}}` and no last login |
| `UserModel.SetThenCheck` | smart-eval-backend/models/user.py:41-51 | under the bcrypt round trip, `check_password(p)` holds after `set_password(p)`, and only the hash changed |
| `UserModel.Save` | smart-eval-backend/models/user.py:66-69 | `updated_at` becomes the clock reading and no other field changes |
| `UserModel.ToDict` | smart-eval-backend/models/user.py:53-64 | the keys are exactly the eight public ones, never `password_hash`; the id text parses back to the id and the role text to the role |
| `UserModel.ToDictHidesHash` | smart-eval-backend/models/user.py:53-64 | the dictionary does not depend on the password hash |
| `UserModel.ToDictDeterminesRecord` | smart-eval-backend/models/user.py:53-64 | two documents with equal dictionaries differ at most in their hashes |
| `UserModel.IsoOrNullInjective` | smart-eval-backend/models/user.py:61-63 | an absent timestamp maps to `None`, and a timestamp and its dictionary value determine each other |
| `Timestamps.IsoRoundTrip` | smart-eval-backend/models/user.py:61-63 | parsing the `isoformat()` text of a datetime gives back that datetime |
| `Timestamps.IsoParseExact` | smart-eval-backend/models/user.py:61-63 | the parser accepts only text that `isoformat()` writes |
| `UserModel.FindByEmail` | smart-eval-backend/services/auth_service.py:76 | `User.objects(email=...).first()` finds nothing iff no document has the email, else a stored document with that email |
| `UserModel.FindByIdText` | smart-eval-backend/services/auth_service.py:114 | `User.objects(id=...).first()` finds the unique stored document whose canonical `str(id)` is the text, or nothing when there is none; other spellings of an id are not modelled (see Left out) |
| `UserModel.Insert` | smart-eval-backend/models/user.py:12 | the first save of a document whose email is free adds it under the next id and keeps emails unique |
| `AuthService.RegisterUser` | smart-eval-backend/services/auth_service.py:32-58 | checks in order: email format, password strength (its message), role, existing email (conflict); every failure leaves the collection unchanged; success iff all four pass |
| `AuthService.RegisterCreates` | smart-eval-backend/services/auth_service.py:50-58 | success adds exactly one document under a new id with the given email and role, profile or `{}`, default settings, both timestamps now, and a hash the password checks against |
| `AuthService.RegisterTwiceConflicts` | smart-eval-backend/services/auth_service.py:46-47 | registering a registered email again fails with the conflict, whatever role and profile, and changes nothing |
| `AuthService.LoginUser` | smart-eval-backend/services/auth_service.py:76-98 | succeeds iff some document has the email and the password checks; every failure is the same `Invalid email or password` error and changes nothing; on success the access and refresh tokens live the platform's configured lifetimes and `expires_in` is the literal 900 |
| `AuthService.LoginFailuresIndistinguishable` | smart-eval-backend/services/auth_service.py:76-82 | an unknown email and a wrong password produce identical results |
| `AuthService.LoginUpdatesOnlyThatUser` | smart-eval-backend/services/auth_service.py:84-98 | success rewrites only that document's `last_login` and `updated_at`; the access and refresh tokens are for `str(id)` and live the configured access and refresh lifetimes; the type is `Bearer` and `expires_in` is the literal 900, whatever the configuration |
| `AuthService.RefreshAccessToken` | smart-eval-backend/services/auth_service.py:114-123 | fails with `User not found` iff no document has that id text; otherwise a fresh access token for that identity with the configured access lifetime, and `expires_in` 900 |
| `AuthService.LoginLifetimeAsConfigured` | smart-eval-backend/services/auth_service.py:89-96 | under the configuration as written, a login's access token lives sixty times the `expires_in` it reports, so the two disagree |
| `AuthService.LoginLifetimeAsIntended` | smart-eval-backend/services/auth_service.py:89-96 | under the intended configuration, a login's access token lives exactly the `expires_in` it reports |
| `AuthService.RefreshLifetimes` | smart-eval-backend/services/auth_service.py:118-123 | a refreshed access token lives sixty times its `expires_in` as configured, and exactly its `expires_in` as intended |
| `AuthService.GetUserById` | smart-eval-backend/services/auth_service.py:136 | side-effect-free: the stored document whose id text matches, or none iff there is none |
| `AuthService.RunKeeps` | smart-eval-backend/services/auth_service.py:32-98 | no sequence of requests deletes a document, changes its email, role, hash or creation time, or lowers the next id |
| `Decorators.OneRoleAdmitsOnlyItself` | smart-eval-backend/utils/decorators.py:21-22 | a single role string is wrapped in a list, so it admits exactly itself, not its substrings |
| `Decorators.JoinContains` | smart-eval-backend/utils/decorators.py:50 | every role joined by `", ".join` occurs in the result |
| `Decorators.ForbiddenMessageListsRoles` | smart-eval-backend/utils/decorators.py:50 | the 403 message names every allowed role after the `Access denied. Required roles: ` prefix; for one role it is exactly prefix plus role |
| `Decorators.RoleRequired` | smart-eval-backend/utils/decorators.py:26-54 | token, then user, then role: a bad token propagates; a missing user gives 401 `User not found` before any role check; the route runs iff the user exists and its role is allowed, otherwise 403 with the envelope `error_response` would build |
| `Decorators.GetCurrentUser` | smart-eval-backend/utils/decorators.py:67-72 | never fails: the user a valid token names, or none on any rejection or missing user |
| `Flows.RegisterThenLogin` | smart-eval-backend/services/auth_service.py:50-98 | under the bcrypt round trip, logging in with freshly registered credentials succeeds, and tokens and dictionary name the new document |
| `Flows.LoginTwiceSameUser` | smart-eval-backend/services/auth_service.py:76-98 | a second login with the same credentials names the same document |
| `Flows.LoginThenGuard` | smart-eval-backend/utils/decorators.py:28-54 | a login's access token never meets the guard's 401: the route runs for that document or is refused with 403 |
| `Flows.LoginThenRefresh` | smart-eval-backend/services/auth_service.py:114-123 | a login's refresh token identity yields a new access token for the same identity, with the same configured lifetime as the login's access token |
| `Tokens.ConfiguredLifetimeDisagrees` | smart-eval-backend/app/config.py:30 | by default the configured access lifetime is 54000 seconds, sixty times the 900 reported, and the refresh lifetime is seven days |
| `Tokens.IntendedLifetimeAgrees` | smart-eval-backend/app/config.py:30 | by default the intended access lifetime is the 900 seconds reported, with the same refresh lifetime |

## Left out

- HTTP routes, the app factory, error handlers, CORS, configuration loading and the marshmallow schemas: framework wiring. `logout` is a no-op.
- bcrypt's salting and hashing: abstract functions. The round trip is assumed by the lemmas that need it, never by an operation.
- JWT signing, decoding, expiry and the access/refresh class check happen inside `flask_jwt_extended`. The guard takes their verdict as `JwtCheck`, and the library's own error responses are not modelled.
- Decorators.RoleRequired: the wrapped route's own result is not modelled; `Proceed` carries the user it would run for.
- UserModel.FindByIdText: an identity string that is not a well-formed ObjectId makes mongoengine raise instead of returning nothing. The model answers "no such document". `get_current_user` swallows that exception anyway; in `role_required` and `refresh_access_token` it would surface as a 500. Ids are numbers here, and their only text is the canonical `str(id)`. So a well-formed but non-canonical spelling is not modelled: upper-case hex is an example. MongoDB finds the document for such a spelling; the model answers "no such document". Identities in tokens the service issues are always canonical.
- mongoengine's own validation on `save()` is not modelled. That includes `EmailField`'s separate email check and `DictField`'s rejection of a truthy non-dictionary profile. Profiles are typed as dictionaries.
- Concurrency: the check-then-insert in `register_user` relies on the unique index when requests run in parallel. The model is sequential, so `UserModel.Insert` requires a free email.
- The clock: each operation reads `now` once. The source reads it up to three times in `register_user`, so there `created_at` and `updated_at` can differ by microseconds. The model makes no `updated_at >= created_at` claim, which would need a monotonic clock.
- `User` before `set_password`: the unset hash is `""` here and `None` in Python. A document is never saved in that state.
- Python's `\d` class is the parameter `isDecimal`; the Unicode digit table is not enumerated.
- Exception payloads given as sequences of pairs, and non-string messages, are not modelled; payloads are dictionaries.
- JSON floats are not modelled.
- UserModel.Insert, UserModel.Put: the collection keeps what is written, microseconds included. MongoDB stores a datetime as int64 milliseconds and `save()` does not reload, so a document read back has its timestamps cut to the millisecond. The dictionary of a document read back (as `login_user` returns it) therefore differs from the model's below the millisecond. An example is a registration at `12:00:00.123456` followed by a login: the source reports `created_at` as `...12:00:00.123000`, and the model as `...12:00:00.123456`. Below one millisecond the source prints no fraction at all. The model keeps microseconds so that `isoformat()` and its parser stay exact inverses over every Python datetime.

## Findings

| source | as written | input that shows it | evidently intended | confidence | as-written member | corrected member |
|---|---|---|---|---|---|---|
| smart-eval-backend/app/config.py:30 | `timedelta(minutes=900)`: access tokens live 15 hours | the default configuration; `login_user` reports `expires_in: 900` (seconds) | fifteen minutes, as the line's comment and `expires_in` say | high; not executed | `AuthService.LoginLifetimeAsConfigured` | `AuthService.LoginLifetimeAsIntended` |

The operations issue tokens with whatever lifetimes the platform holds. With
`Tokens.Configured()`, the program as written, the access token outlives its
reported `expires_in` sixtyfold (`AuthService.LoginLifetimeAsConfigured`,
`AuthService.RefreshLifetimes`). With `Tokens.Intended()` the two agree
(`AuthService.LoginLifetimeAsIntended`). `Tokens.ConfiguredLifetimeDisagrees`
and `Tokens.IntendedLifetimeAgrees` give the default values.
