# User accounts, movie validation and token endpoints of a Go JSON API, in Dafny

This project models the core of a Go JSON API for movies and user accounts:

- **Validation.** The field validator accumulates messages. The model covers
  the checks on e-mail addresses, plaintext passwords, whole users and
  movies, in source order. For each field, the first failing check's message
  wins.
- **Password credential.** A user has a password record, updated in place.
  `Set` hashes a new plaintext and stores the plaintext with its hash.
  `Matches` compares a plaintext against the stored hash.
- **Token endpoints.**
  - Authentication signs JWT session claims.
  - Password reset issues a reset token and mails it.
  - Activation issues an activation token and mails it.

  Each endpoint is a straight chain of early returns. The HTTP plumbing is
  stripped off, and each one ends in an `Outcome`:
  - a validation failure carrying the validator's errors;
  - invalid credentials;
  - not found;
  - a server error;
  - a created session carrying the claims and the signed token;
  - an accepted request carrying its message and the mail task sent in the
    background.

Modules:

- `Prelude` (`prelude.dfy`): Go's nil-able values and `(T, error)` results,
  an opaque `error`, and the `int32`/`int64` ranges.
- `Validator` (`validator.dfy`):
  - the validator object, whose error map the `AddError`/`Check` methods
    update in place;
  - `RunRules`, which folds a list of checks over an error map. It is built
    on `RunPrefix`, which runs only the first `n` checks;
  - the general lemmas about that fold: first error wins, messages already
    recorded are kept, the keys it adds, and valid iff every check holds.
- `Users` (`users.dfy`):
  - the `Password` class, with its `Set` and `Matches` methods;
  - the `User` record;
  - `ValidateEmail`, `ValidatePasswordPlainText` and `ValidateUser`. Each
    runs its own `Check` calls on a validator object and is proved equal to
    the fold of its rule list.
- `Movies` (`movies.dfy`): `ValidateMovie`, with the same pattern, and its
  per-field lemmas.
- `Strconv` (`strconv.dfy`): `strconv.FormatInt(i, 10)`, which gives the
  session subject. A decimal parser is its partner, and a lemma proves the
  round trip.
- `TokenHandlers` (`tokens.dfy`):
  - the three handlers as methods that follow the source step by step, each
    with its own validator object;
  - the functions `Authenticate`, `RequestPasswordReset` and
    `RequestActivation`, which state each handler's outcome. Each method is
    proved equal to its function;
  - lemmas stating what those outcomes promise.

Collaborators that sit outside this code are parameters:

- bcrypt hashing: `Generator`;
- bcrypt comparison: `Comparer`;
- the e-mail regular expression: `Pattern`;
- the user table's `GetByEmail`: `UserLookup`;
- the token store's `Tokens.New`: `TokenIssuer`;
- the JWT HMAC signer with its secret: `Signer`;
- the clock: `now`, in Unix seconds.

Strings are byte strings: one element per byte, so `|s|` is Go's `len(s)`.

`Set` keeps the plaintext in the record after hashing succeeds, as the code
does (internal/data/users.go:37), even though a credential is meant to hold
only the hash once the request completes. The model follows the code.

## Model

| member | source | states |
|---|---|---|
| `Validator.Validator.constructor` | cmd/api/tokens.go:25 | `validator.New()` starts with no errors |
| `Validator.Validator.Valid` | cmd/api/tokens.go:28-31 | valid iff no field has a recorded error |
| `Validator.Validator.AddError` | cmd/api/tokens.go:107 | records the message only if the field has none yet (first error wins), other fields untouched |
| `Validator.Validator.Check` | internal/data/users.go:56-57 | records the message exactly when the condition is false, with `AddError`'s first-error-wins rule |
| `Validator.RunRulesFirstFailure` | internal/data/movies.go:18-32 | after a run of checks, a field that had no message holds the message of the first check that failed for it |
| `Validator.RunRulesKeeps` | internal/data/movies.go:18-32 | a message already recorded for a field is never overwritten by later checks |
| `Validator.RunRulesNoFailure` | internal/data/movies.go:18-32 | a field no check fails for keeps exactly what it had (absent stays absent) |
| `Validator.RunRulesKeys` | internal/data/movies.go:18-32 | the fields with messages afterwards are exactly those that had one plus those some check failed for |
| `Validator.RunRulesKeysWithin` | internal/data/movies.go:18-32 | checks on a set of fields record messages only under those fields |
| `Validator.RunRulesValid` | internal/data/movies.go:18-32 | from a fresh validator, nothing is recorded iff every check holds |
| `Validator.RunRulesAppend` | internal/data/users.go:66-74 | running one list of checks after another is running their concatenation, which is how `ValidateUser` composes `ValidateEmail` and `ValidatePasswordPlainText` |
| `Users.Password.Set` | internal/data/users.go:31-40 | on a hashing error, returns it and leaves plaintext and hash unchanged; otherwise returns no error and stores exactly the plaintext and its cost-12 hash |
| `Users.Password.Matches` | internal/data/users.go:42-53 | a successful compare gives (true, nil), a mismatch (false, nil), any other compare error (false, that error); never true with an error |
| `Users.SetThenMatches` | internal/data/users.go:31-53 | after a successful `Set(p)`, `Matches(p)` gives (true, nil) for any hash/compare pair where a hash compares equal to its own plaintext; after a failed `Set` the record is unchanged, after a successful one it holds the plaintext and its hash |
| `Users.ValidateEmail` | internal/data/users.go:55-58 | the validator's new errors are the old ones with the two e-mail checks run in order |
| `Users.ValidatePasswordPlainText` | internal/data/users.go:60-64 | the validator's new errors are the old ones with the three password checks run in order |
| `Users.ValidateUser` | internal/data/users.go:66-78 | name, e-mail length, the e-mail checks, then the password checks only when a plaintext is present; requires the hash the source panics without |
| `Users.EmptyEmailMustBeProvided` | internal/data/users.go:55-58 | an empty e-mail records "must be provided", whatever the pattern says |
| `Users.EmailRulesPass` | internal/data/users.go:55-58 | no e-mail error iff the address is non-empty and matches the pattern; no other field touched |
| `Users.PasswordRulesPass` | internal/data/users.go:60-64 | no password error iff 8 to 32 bytes inclusive; an empty password records "must be provided"; no other field touched |
| `Users.UserEmailTooLong` | internal/data/users.go:67-70 | an e-mail over 500 bytes records "must not be more than 500 characters", since that check precedes `ValidateEmail` |
| `Users.UserPasswordChecked` | internal/data/users.go:72-74 | a password error is recorded iff a plaintext is present and it is not 8 to 32 bytes |
| `Movies.ValidateMovie` | internal/data/movies.go:18-32 | the validator's new errors are the old ones with the ten movie checks run in order |
| `Movies.MovieValidIff` | internal/data/movies.go:18-32 | a fresh validator stays empty iff title non-empty and under 500 bytes, year after 1888, runtime positive, genres present, 1 to 5 of them, no duplicates |
| `Movies.MovieErrorKeys` | internal/data/movies.go:18-32 | errors appear only under title, year, runtime and genres |
| `Movies.MovieTitleRule` | internal/data/movies.go:19-20 | empty title records "must be provided"; a non-empty title is error-free iff shorter than 500 bytes |
| `Movies.MovieYearRule` | internal/data/movies.go:21-22 | year 0 records "must be provided"; otherwise an error iff the year is 1888 or earlier |
| `Movies.MovieRuntimeRule` | internal/data/movies.go:24-25 | runtime 0 records "must be provided"; otherwise an error iff negative |
| `Movies.MovieGenresRule` | internal/data/movies.go:27-31 | nil genres record "must be provided"; otherwise error-free iff 1 to 5 genres without duplicates |
| `Strconv.Decimal` | cmd/api/tokens.go:55 | the base-10 text of a natural number is non-empty, all digits, with no leading zero unless it is "0" |
| `Strconv.FormatInt` | cmd/api/tokens.go:55 | the text starts with a minus sign iff the number is negative |
| `Strconv.FormatIntRoundTrip` | cmd/api/tokens.go:55 | parsing the decimal text of an `int64` gives the number back |
| `Strconv.FormatIntInjective` | cmd/api/tokens.go:55 | two ids have the same subject text iff they are equal |
| `TokenHandlers.SessionClaims` | cmd/api/tokens.go:54-60 | subject is `FormatInt` of the user id and reads back as the user id, issued = not-before = now, expires = now + 24 h, issuer "agung96tm.com", audiences exactly ["agung96tm.com"] |
| `TokenHandlers.CreateAuthentication` | cmd/api/tokens.go:13-77 | the handler's outcome is `Authenticate` of its input and collaborators |
| `TokenHandlers.CreatePasswordResetToken` | cmd/api/tokens.go:79-130 | the handler's outcome is `RequestPasswordReset` of its input and collaborators |
| `TokenHandlers.CreateActivationToken` | cmd/api/tokens.go:132-186 | the handler's outcome is `RequestActivation` of its input and collaborators |
| `TokenHandlers.EmailErrorsEmpty` | cmd/api/tokens.go:90-94 | an e-mail-only request passes validation iff the address is non-empty and matches; errors only under "email" |
| `TokenHandlers.AuthenticationErrorsEmpty` | cmd/api/tokens.go:25-28 | authentication input passes iff the address is non-empty and matches and the password has 8 to 32 bytes; errors only under "email" and "password" |
| `TokenHandlers.AuthenticationRejectsBeforeLookup` | cmd/api/tokens.go:25-31 | invalid input gets the validator's errors whatever the user table, bcrypt, signer and clock are: no lookup shapes the answer |
| `TokenHandlers.AuthenticationInvalidCredentials` | cmd/api/tokens.go:33-52 | invalid credentials iff the input is valid and the address is unknown or the password mismatches: both get the same answer |
| `TokenHandlers.AuthenticationServerError` | cmd/api/tokens.go:33-66 | a server error iff the input is valid and the lookup fails other than not-found, the compare fails other than a mismatch, or signing fails; the server error carries that failure's own error |
| `TokenHandlers.AuthenticationCreated` | cmd/api/tokens.go:44-76 | a session is created iff the input is valid, the address names a user whose password matches and signing succeeds; it then carries that user's session claims and the token the signer produced from them |
| `TokenHandlers.ResetRejectsBeforeLookup` | cmd/api/tokens.go:90-94 | an address that fails validation gets the validator's errors whatever the user table and the token store are: no lookup shapes the answer |
| `TokenHandlers.ActivationRejectsBeforeLookup` | cmd/api/tokens.go:143-148 | an address that fails validation gets the validator's errors whatever the user table and the token store are: no lookup shapes the answer |
| `TokenHandlers.PasswordResetOutcomes` | cmd/api/tokens.go:96-127 | for an address that passes validation: database error: server error carrying it; unknown address: not found; inactive user: "user is not activated" under "email"; accepted iff active and a 24 h password-reset token is issued, whose text goes to the user's address in the reset mail |
| `TokenHandlers.ActivationOutcomes` | cmd/api/tokens.go:150-183 | for an address that passes validation: database error: server error carrying it; unknown address: "user is not activated"; active user: "user is activated"; accepted iff inactive and a 24 h activation token is issued, whose text goes to the user's address in the activation mail |
| `TokenHandlers.ResetIssueFailureSendsNoMail` | cmd/api/tokens.go:112-116 | when issuing the reset token fails, no mail is sent, and a valid request from an active user ends in a server error carrying the store's error |
| `TokenHandlers.ActivationIssueFailureSendsNoMail` | cmd/api/tokens.go:168-172 | when issuing the activation token fails, no mail is sent, and a valid request from an inactive user ends in a server error carrying the store's error |
| `TokenHandlers.ResponseHidesToken` | cmd/api/tokens.go:118-129 | an accepted reset or activation response is the fixed message whatever token was issued; the token is only in the mail data |

## Left out

- Reading and decoding the JSON request body (`readJSON`), and the bad-request answer to a malformed body. Each handler starts from the decoded input.
- Writing the response (`writeJSON`), and the server-error answer when writing fails after the status has been chosen. Both are output I/O.
- `UserModel.Insert`, `GetByEmail`, `Update` and `GetForToken`: SQL with context timeouts. `GetByEmail` is a parameter returning the user, not-found, or another error.
- bcrypt and JWT HMAC-SHA256 signing: foreign cryptography. They are abstract functions. `Users.SetThenMatches` assumes only that a generated hash compares equal to its own plaintext.
- `Tokens.New` and the token model: the token store is not part of this model. It is a parameter taking the user id, the lifetime and the scope, and returning a token or an error. The string values of the scope constants are not modelled.
- `app.background`, the mailer and the logging of mail errors: concurrency and SMTP. The mail appears only as the task value in the outcome.
- `validator.EmailRX` and the validator package's own code: the pattern is an abstract predicate. `Unique` is modelled as "no value occurs twice".
- `TokenHandlers.SessionClaims`: the three clock reads are one `now`, in whole seconds. The source reads the clock three times, so issued and not-before could differ by the time between the reads.
- The `User` creation time, and the `Movie` id, creation time and version: no modelled operation reads them.
- The `Runtime` type's own file is not part of this model. The movie runtime is an `int32`, and only its comparisons with zero are used.
- The wording of some messages does not match the checks. Examples are "must not be lower than 32 characters" on an upper bound and "must not be more than 1888 long" on a lower bound. The messages are kept verbatim, and the lemmas state the behaviour.
- `Users.ValidateUser`: the source panics on a missing hash after running its checks. The model requires a hash instead of modelling the panic.
