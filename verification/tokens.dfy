/** The token endpoints (cmd/api/tokens.go) with their HTTP plumbing
    stripped: each handler validates its input, looks the user up by e-mail,
    checks the password or the activation flag, then signs session claims or
    issues a token, and ends in one `Outcome`.

    The collaborators the handlers call are parameters: the user table
    (`Users.GetByEmail`), bcrypt's compare, the JWT signer with its secret,
    the token store (`Tokens.New`) and the clock. Each handler is a method
    that follows the source step by step, with its own validator object, and
    is proved equal to a function stating the outcome; the lemmas below
    state what those outcomes promise. */
module TokenHandlers {
  import opened Prelude
  import opened Validator
  import opened Users
  import opened Strconv

  /** What `Users.GetByEmail` returns: the user, `ErrRecordNotFound`, or any
      other database error. */
  datatype Lookup = Found(user: User) | RecordNotFound | LookupFailed(err: Error)

  /** `app.models.Users.GetByEmail`. */
  type UserLookup = string -> Lookup

  /** The token scopes of the data package. */
  datatype Scope = Activation | Authentication | PasswordReset

  /** A Go `time.Duration`, in nanoseconds. */
  type Duration = int

  /** `time.Hour`. */
  const Hour: Duration := 3_600_000_000_000

  /** The lifetime every handler asks for: `24 * time.Hour`. */
  const TokenTTL: Duration := 24 * Hour

  /** The same 24 hours in whole seconds, the unit of JWT numeric times. */
  const SessionSeconds := 24 * 60 * 60

  /** The issuer and the only audience of a session token. */
  const Issuer := "agung96tm.com"

  /** The part of a stored token the handlers use. */
  datatype Token = Token(plainText: string)

  /** `app.models.Tokens.New(userID, ttl, scope)`. */
  type TokenIssuer = (int64, Duration, Scope) -> Result<Token>

  /** The registered JWT claims the authentication handler fills in; times are
      seconds since the Unix epoch. */
  datatype Claims = Claims(subject: string, issued: int, notBefore: int, expires: int,
                           issuer: string, audiences: seq<string>)

  /** `claims.HMACSign(jwt.HS256, secret)`, the secret included. */
  type Signer = Claims -> Result<seq<bv8>>

  /** The e-mail `app.background` sends: recipient, template and data. */
  datatype MailTask = MailTask(recipient: string, template: string, data: map<string, string>)

  /** The authentication request body. */
  datatype Credentials = Credentials(email: string, password: string)

  /** How a handler ends: the response it writes and, for the token mails,
      the background task it starts. */
  datatype Outcome =
    | FailedValidation(errors: Errors)             // 422 with the validator's errors
    | InvalidCredentials                           // 401
    | NotFound                                     // 404
    | ServerError(err: Error)                      // 500
    | Created(claims: Claims, token: seq<bv8>)     // 201 {"authentication_token": token}
    | Accepted(message: string, mail: MailTask)    // 202 {"message": message}, mail sent in the background

  const ResetMessage := "Success to Send Reset Password"
  const ActivationMessage := "success send email activation"
  const NotActivated := "user is not activated"
  const AlreadyActivated := "user is activated"

  /** The password record a lookup result exposes to bcrypt. */
  function PasswordOf(found: Lookup): set<object>
  {
    if found.Found? then {found.user.password} else {}
  }

  /** The claims of a session for user `id` created at `now`. */
  function SessionClaims(id: int64, now: int): (c: Claims)
    ensures c.subject == FormatInt(id) && ParseInt(c.subject) == Some(id as int)
    ensures c.notBefore == c.issued == now && c.expires == now + SessionSeconds
    ensures c.issuer == Issuer && c.audiences == [Issuer]
  {
    FormatIntRoundTrip(id);
    Claims(FormatInt(id), now, now, now + SessionSeconds, Issuer, [Issuer])
  }

  /** The validator's errors for an authentication request. */
  function AuthenticationErrors(input: Credentials, emailRX: Pattern): Errors
  {
    RunRules(RunRules(map[], EmailRules(input.email, emailRX)), PasswordRules(input.password))
  }

  /** The validator's errors for a request naming only an e-mail address. */
  function EmailErrors(email: string, emailRX: Pattern): Errors
  {
    RunRules(map[], EmailRules(email, emailRX))
  }

  /** The outcome of `createAuthenticationHandler`. */
  function Authenticate(input: Credentials, emailRX: Pattern, getByEmail: UserLookup,
                        compare: Comparer, sign: Signer, now: int): Outcome
    reads PasswordOf(getByEmail(input.email))
  {
    var errors := AuthenticationErrors(input, emailRX);
    if errors != map[] then FailedValidation(errors)
    else match getByEmail(input.email)
      case RecordNotFound => InvalidCredentials
      case LookupFailed(e) => ServerError(e)
      case Found(user) =>
        match compare(user.password.Stored(), input.password)
        case Failed(e) => ServerError(e)
        case Mismatch => InvalidCredentials
        case Equal =>
          var claims := SessionClaims(user.id, now);
          match sign(claims)
          case Err(e) => ServerError(e)
          case Ok(jwt) => Created(claims, jwt)
  }

  /** The outcome of `createPasswordResetTokenHandler`. */
  function RequestPasswordReset(email: string, emailRX: Pattern, getByEmail: UserLookup,
                                issue: TokenIssuer): Outcome
  {
    var errors := EmailErrors(email, emailRX);
    if errors != map[] then FailedValidation(errors)
    else match getByEmail(email)
      case RecordNotFound => NotFound
      case LookupFailed(e) => ServerError(e)
      case Found(user) =>
        if !user.activated then FailedValidation(map["email" := NotActivated])
        else match issue(user.id, TokenTTL, PasswordReset)
          case Err(e) => ServerError(e)
          case Ok(token) =>
            Accepted(ResetMessage,
                     MailTask(user.email, "token_password_reset", map["passwordResetToken" := token.plainText]))
  }

  /** The outcome of `createActivationTokenHandler`. */
  function RequestActivation(email: string, emailRX: Pattern, getByEmail: UserLookup,
                             issue: TokenIssuer): Outcome
  {
    var errors := EmailErrors(email, emailRX);
    if errors != map[] then FailedValidation(errors)
    else match getByEmail(email)
      case RecordNotFound => FailedValidation(map["email" := NotActivated])
      case LookupFailed(e) => ServerError(e)
      case Found(user) =>
        if user.activated then FailedValidation(map["email" := AlreadyActivated])
        else match issue(user.id, TokenTTL, Activation)
          case Err(e) => ServerError(e)
          case Ok(token) =>
            Accepted(ActivationMessage,
                     MailTask(user.email, "token_activation", map["activationToken" := token.plainText]))
  }

  /** `createAuthenticationHandler`, step by step. */
  method CreateAuthentication(input: Credentials, emailRX: Pattern, getByEmail: UserLookup,
                              compare: Comparer, sign: Signer, now: int)
    returns (outcome: Outcome)
    ensures outcome == Authenticate(input, emailRX, getByEmail, compare, sign, now)
  {
    var v := new Validator();
    ValidateEmail(v, input.email, emailRX);
    ValidatePasswordPlainText(v, input.password);
    if !v.Valid() {
      return FailedValidation(v.errors);
    }

    var found := getByEmail(input.email);
    if found.RecordNotFound? {
      return InvalidCredentials;
    } else if found.LookupFailed? {
      return ServerError(found.err);
    }
    var user := found.user;

    var matched, err := user.password.Matches(input.password, compare);
    if err.Some? {
      return ServerError(err.value);
    }
    if !matched {
      return InvalidCredentials;
    }

    var claims := SessionClaims(user.id, now);
    var signed := sign(claims);
    if signed.Err? {
      return ServerError(signed.error);
    }
    return Created(claims, signed.value);
  }

  /** `createPasswordResetTokenHandler`, step by step. */
  method CreatePasswordResetToken(email: string, emailRX: Pattern, getByEmail: UserLookup,
                                  issue: TokenIssuer)
    returns (outcome: Outcome)
    ensures outcome == RequestPasswordReset(email, emailRX, getByEmail, issue)
  {
    var v := new Validator();
    ValidateEmail(v, email, emailRX);
    if !v.Valid() {
      return FailedValidation(v.errors);
    }

    var found := getByEmail(email);
    if found.RecordNotFound? {
      return NotFound;
    } else if found.LookupFailed? {
      return ServerError(found.err);
    }
    var user := found.user;
    if !user.activated {
      v.AddError("email", NotActivated);
      return FailedValidation(v.errors);
    }

    var token := issue(user.id, TokenTTL, PasswordReset);
    if token.Err? {
      return ServerError(token.error);
    }
    var mail := MailTask(user.email, "token_password_reset", map["passwordResetToken" := token.value.plainText]);
    return Accepted(ResetMessage, mail);
  }

  /** `createActivationTokenHandler`, step by step. */
  method CreateActivationToken(email: string, emailRX: Pattern, getByEmail: UserLookup,
                               issue: TokenIssuer)
    returns (outcome: Outcome)
    ensures outcome == RequestActivation(email, emailRX, getByEmail, issue)
  {
    var v := new Validator();
    ValidateEmail(v, email, emailRX);
    if !v.Valid() {
      return FailedValidation(v.errors);
    }

    var found := getByEmail(email);
    if found.RecordNotFound? {
      v.AddError("email", NotActivated);
      return FailedValidation(v.errors);
    } else if found.LookupFailed? {
      return ServerError(found.err);
    }
    var user := found.user;
    if user.activated {
      v.AddError("email", AlreadyActivated);
      return FailedValidation(v.errors);
    }

    var token := issue(user.id, TokenTTL, Activation);
    if token.Err? {
      return ServerError(token.error);
    }
    var mail := MailTask(user.email, "token_activation", map["activationToken" := token.value.plainText]);
    return Accepted(ActivationMessage, mail);
  }

  /** An e-mail-only request passes validation iff the address is non-empty
      and matches the pattern; any error is under "email". */
  lemma EmailErrorsEmpty(email: string, emailRX: Pattern)
    ensures EmailErrors(email, emailRX) == map[] <==> email != "" && emailRX(email)
    ensures EmailErrors(email, emailRX).Keys <= {"email"}
  {
    EmailRulesPass(map[], email, emailRX);
  }

  /** Authentication input passes validation iff the address is non-empty and
      matches the pattern and the password has 8 to 32 bytes; errors are only
      under "email" and "password". */
  lemma AuthenticationErrorsEmpty(input: Credentials, emailRX: Pattern)
    ensures AuthenticationErrors(input, emailRX) == map[] <==>
              input.email != "" && emailRX(input.email) && 8 <= |input.password| <= 32
    ensures AuthenticationErrors(input, emailRX).Keys <= {"email", "password"}
  {
    var mid := RunRules(map[], EmailRules(input.email, emailRX));
    EmailRulesPass(map[], input.email, emailRX);
    PasswordRulesPass(mid, input.password);
    if "email" in mid {
      RunRulesKeeps(mid, PasswordRules(input.password), "email");
    }
  }

  /** Invalid input is answered with the validator's errors whatever the
      user table, bcrypt, the signer and the clock would say: no lookup
      takes part in the answer. */
  lemma AuthenticationRejectsBeforeLookup(input: Credentials, emailRX: Pattern,
                                          getByEmail: UserLookup, compare: Comparer, sign: Signer, now: int,
                                          otherLookup: UserLookup, otherCompare: Comparer, otherSign: Signer, otherNow: int)
    requires !(input.email != "" && emailRX(input.email) && 8 <= |input.password| <= 32)
    ensures Authenticate(input, emailRX, getByEmail, compare, sign, now) ==
            Authenticate(input, emailRX, otherLookup, otherCompare, otherSign, otherNow) ==
            FailedValidation(AuthenticationErrors(input, emailRX))
  {
    AuthenticationErrorsEmpty(input, emailRX);
  }

  /** An unknown address and a wrong password get the same answer, so the
      response does not reveal which addresses have accounts. */
  lemma AuthenticationInvalidCredentials(input: Credentials, emailRX: Pattern, getByEmail: UserLookup,
                                         compare: Comparer, sign: Signer, now: int)
    ensures var found := getByEmail(input.email);
            Authenticate(input, emailRX, getByEmail, compare, sign, now) == InvalidCredentials <==>
              AuthenticationErrors(input, emailRX) == map[] &&
              (found.RecordNotFound? ||
               (found.Found? && compare(found.user.password.Stored(), input.password) == Mismatch))
  {
  }

  /** A database error other than not-found, a bcrypt error other than a
      mismatch, or a signing error is a server error, never an
      invalid-credentials answer, and the server error carries that error. */
  lemma AuthenticationServerError(input: Credentials, emailRX: Pattern, getByEmail: UserLookup,
                                  compare: Comparer, sign: Signer, now: int)
    ensures var found := getByEmail(input.email);
            Authenticate(input, emailRX, getByEmail, compare, sign, now).ServerError? <==>
              AuthenticationErrors(input, emailRX) == map[] &&
              (found.LookupFailed? ||
               (found.Found? && compare(found.user.password.Stored(), input.password).Failed?) ||
               (found.Found? && compare(found.user.password.Stored(), input.password) == Equal &&
                sign(SessionClaims(found.user.id, now)).Err?))
    ensures var r := Authenticate(input, emailRX, getByEmail, compare, sign, now);
            var found := getByEmail(input.email);
            AuthenticationErrors(input, emailRX) == map[] ==>
              (found.LookupFailed? ==> r == ServerError(found.err)) &&
              (found.Found? && compare(found.user.password.Stored(), input.password).Failed? ==>
                 r == ServerError(compare(found.user.password.Stored(), input.password).err)) &&
              (found.Found? && compare(found.user.password.Stored(), input.password) == Equal &&
               sign(SessionClaims(found.user.id, now)).Err? ==>
                 r == ServerError(sign(SessionClaims(found.user.id, now)).error))
  {
  }

  /** A session is created exactly for valid input naming a user whose
      password matches, when signing succeeds; it then carries the session
      claims for that user and the token signed from them: subject the
      decimal text of the user's id, valid from now for 24 hours, issued by
      and for "agung96tm.com". */
  lemma AuthenticationCreated(input: Credentials, emailRX: Pattern, getByEmail: UserLookup,
                              compare: Comparer, sign: Signer, now: int)
    ensures var r := Authenticate(input, emailRX, getByEmail, compare, sign, now);
            var found := getByEmail(input.email);
            r.Created? <==>
              input.email != "" && emailRX(input.email) && 8 <= |input.password| <= 32 &&
              found.Found? && compare(found.user.password.Stored(), input.password) == Equal &&
              sign(SessionClaims(found.user.id, now)).Ok?
    ensures var r := Authenticate(input, emailRX, getByEmail, compare, sign, now);
            var found := getByEmail(input.email);
            r.Created? ==>
              found.Found? &&
              r == Created(SessionClaims(found.user.id, now), sign(SessionClaims(found.user.id, now)).value) &&
              r.claims.subject == FormatInt(found.user.id) &&
              ParseInt(r.claims.subject) == Some(found.user.id as int) &&
              r.claims.issued == r.claims.notBefore == now &&
              r.claims.expires == now + SessionSeconds &&
              r.claims.issuer == "agung96tm.com" && r.claims.audiences == ["agung96tm.com"]
  {
    AuthenticationErrorsEmpty(input, emailRX);
  }

  /** Password reset: an address that fails validation is answered with the
      validator's errors whatever the user table and the token store would
      say. */
  lemma ResetRejectsBeforeLookup(email: string, emailRX: Pattern, getByEmail: UserLookup, issue: TokenIssuer,
                                 otherLookup: UserLookup, otherIssue: TokenIssuer)
    requires !(email != "" && emailRX(email))
    ensures RequestPasswordReset(email, emailRX, getByEmail, issue) ==
            RequestPasswordReset(email, emailRX, otherLookup, otherIssue) ==
            FailedValidation(EmailErrors(email, emailRX))
  {
    EmailErrorsEmpty(email, emailRX);
  }

  /** Activation: an address that fails validation is answered with the
      validator's errors whatever the user table and the token store would
      say. */
  lemma ActivationRejectsBeforeLookup(email: string, emailRX: Pattern, getByEmail: UserLookup, issue: TokenIssuer,
                                      otherLookup: UserLookup, otherIssue: TokenIssuer)
    requires !(email != "" && emailRX(email))
    ensures RequestActivation(email, emailRX, getByEmail, issue) ==
            RequestActivation(email, emailRX, otherLookup, otherIssue) ==
            FailedValidation(EmailErrors(email, emailRX))
  {
    EmailErrorsEmpty(email, emailRX);
  }

  /** Password reset, for an address that passes validation: a database
      error is a server error carrying it, an unknown address is not found, an inactive user gets "user is not activated",
      and only an active user is sent a token, one issued for password reset
      with a 24-hour lifetime. */
  lemma PasswordResetOutcomes(email: string, emailRX: Pattern, getByEmail: UserLookup, issue: TokenIssuer)
    requires email != "" && emailRX(email)
    ensures var r := RequestPasswordReset(email, emailRX, getByEmail, issue);
            var found := getByEmail(email);
            (found.RecordNotFound? ==> r == NotFound) &&
            (found.LookupFailed? ==> r == ServerError(found.err)) &&
            (found.Found? && !found.user.activated ==> r == FailedValidation(map["email" := "user is not activated"])) &&
            (r.Accepted? <==> found.Found? && found.user.activated &&
                              issue(found.user.id, 24 * Hour, PasswordReset).Ok?) &&
            (r.Accepted? ==>
               r.mail == MailTask(found.user.email, "token_password_reset",
                                  map["passwordResetToken" := issue(found.user.id, 24 * Hour, PasswordReset).value.plainText]))
  {
    EmailErrorsEmpty(email, emailRX);
  }

  /** Activation, for an address that passes validation: a database error
      is a server error carrying it, an unknown address gets "user is not
      activated", an active user gets "user is activated",
      and only an inactive user is sent a token, one issued for activation
      with a 24-hour lifetime. */
  lemma ActivationOutcomes(email: string, emailRX: Pattern, getByEmail: UserLookup, issue: TokenIssuer)
    requires email != "" && emailRX(email)
    ensures var r := RequestActivation(email, emailRX, getByEmail, issue);
            var found := getByEmail(email);
            (found.RecordNotFound? ==> r == FailedValidation(map["email" := "user is not activated"])) &&
            (found.LookupFailed? ==> r == ServerError(found.err)) &&
            (found.Found? && found.user.activated ==> r == FailedValidation(map["email" := "user is activated"])) &&
            (r.Accepted? <==> found.Found? && !found.user.activated &&
                              issue(found.user.id, 24 * Hour, Activation).Ok?) &&
            (r.Accepted? ==>
               r.mail == MailTask(found.user.email, "token_activation",
                                  map["activationToken" := issue(found.user.id, 24 * Hour, Activation).value.plainText]))
  {
    EmailErrorsEmpty(email, emailRX);
  }

  /** Password reset: when the token store fails to issue a reset token, no
      mail is sent, and a valid request from an active user ends in a server
      error carrying the store's error. */
  lemma ResetIssueFailureSendsNoMail(email: string, emailRX: Pattern, getByEmail: UserLookup, issue: TokenIssuer)
    requires getByEmail(email).Found?
    requires issue(getByEmail(email).user.id, TokenTTL, PasswordReset).Err?
    ensures !RequestPasswordReset(email, emailRX, getByEmail, issue).Accepted?
    ensures email != "" && emailRX(email) && getByEmail(email).user.activated ==>
              RequestPasswordReset(email, emailRX, getByEmail, issue) ==
                ServerError(issue(getByEmail(email).user.id, TokenTTL, PasswordReset).error)
  {
    EmailErrorsEmpty(email, emailRX);
  }

  /** Activation: when the token store fails to issue an activation token,
      no mail is sent, and a valid request from an inactive user ends in a
      server error carrying the store's error. */
  lemma ActivationIssueFailureSendsNoMail(email: string, emailRX: Pattern, getByEmail: UserLookup, issue: TokenIssuer)
    requires getByEmail(email).Found?
    requires issue(getByEmail(email).user.id, TokenTTL, Activation).Err?
    ensures !RequestActivation(email, emailRX, getByEmail, issue).Accepted?
    ensures email != "" && emailRX(email) && !getByEmail(email).user.activated ==>
              RequestActivation(email, emailRX, getByEmail, issue) ==
                ServerError(issue(getByEmail(email).user.id, TokenTTL, Activation).error)
  {
    EmailErrorsEmpty(email, emailRX);
  }

  /** The response to a reset or activation request is the fixed message
      alone: two requests that differ only in the token issued get the same
      response, and the token appears only in the mail. */
  lemma ResponseHidesToken(email: string, emailRX: Pattern, getByEmail: UserLookup,
                           issue: TokenIssuer, otherIssue: TokenIssuer)
    ensures var r1 := RequestPasswordReset(email, emailRX, getByEmail, issue);
            var r2 := RequestPasswordReset(email, emailRX, getByEmail, otherIssue);
            r1.Accepted? && r2.Accepted? ==> r1.message == r2.message == "Success to Send Reset Password"
    ensures var r1 := RequestActivation(email, emailRX, getByEmail, issue);
            var r2 := RequestActivation(email, emailRX, getByEmail, otherIssue);
            r1.Accepted? && r2.Accepted? ==> r1.message == r2.message == "success send email activation"
  {
  }
}
