/** Users and their password credential (internal/data/users.go): setting and
    checking a password against its bcrypt hash, and the validation rules
    for e-mail addresses, plaintext passwords and whole users. bcrypt itself
    is not part of this model: hashing and comparing are abstract
    collaborators passed in as functions. Strings stand for Go strings, one
    element per byte, so `|s|` is Go's `len(s)`. */
module Users {
  import opened Prelude
  import opened Validator

  /** A bcrypt hash as stored in `password_hash`. */
  type Hash = seq<bv8>

  /** The work factor passed to `bcrypt.GenerateFromPassword`. */
  const BcryptCost := 12

  /** `bcrypt.GenerateFromPassword(plaintext, cost)`. As a function it is
      deterministic: hashing the same plaintext twice gives the same hash
      here, whereas bcrypt draws a fresh random salt on every call. */
  type Generator = (string, int) -> Result<Hash>

  /** What `bcrypt.CompareHashAndPassword` reports: success, the
      mismatch error, or any other error (a malformed hash, say). */
  datatype Compared = Equal | Mismatch | Failed(err: Error)

  /** `bcrypt.CompareHashAndPassword(hash, plaintext)`. */
  type Comparer = (Hash, string) -> Compared

  /** The `password` record of a user: the plaintext, present only while a
      new password is being set, and its hash (nil until one is set). */
  class Password {
    var plainText: Option<string>
    var hash: Option<Hash>

    /** The bytes handed to bcrypt; a nil hash reads as an empty slice. */
    function Stored(): Hash
      reads this
    {
      if hash.Some? then hash.value else []
    }

    /** `Set`: hash the plaintext; only when hashing succeeds are the
        plaintext and the hash stored, otherwise the error is returned and
        the record is left as it was. */
    method Set(plainText: string, generate: Generator) returns (err: Option<Error>)
      modifies this
      ensures generate(plainText, BcryptCost).Err? ==>
                err == Some(generate(plainText, BcryptCost).error) &&
                this.plainText == old(this.plainText) && hash == old(hash)
      ensures generate(plainText, BcryptCost).Ok? ==>
                err == None &&
                this.plainText == Some(plainText) &&
                hash == Some(generate(plainText, BcryptCost).value)
    {
      var generated := generate(plainText, BcryptCost);
      if generated.Err? {
        return Some(generated.error);
      }
      this.plainText := Some(plainText);
      hash := Some(generated.value);
      return None;
    }

    /** `Matches`: a successful compare is a match, a mismatch is "no match"
        without an error, and any other compare error is passed on; a match
        never comes with an error. */
    method Matches(plainText: string, compare: Comparer) returns (matched: bool, err: Option<Error>)
      ensures matched <==> compare(Stored(), plainText) == Equal
      ensures err.Some? <==> compare(Stored(), plainText).Failed?
      ensures err.Some? ==> err.value == compare(Stored(), plainText).err
      ensures !(matched && err.Some?)
    {
      var outcome := compare(Stored(), plainText);
      match outcome {
        case Equal => return true, None;
        case Mismatch => return false, None;
        case Failed(e) => return false, Some(e);
      }
    }
  }

  /** `User`: the fields the core reads. Its password record is an object
      because `Set` updates it in place through the user. */
  datatype User = User(id: int64, name: string, email: string, password: Password, activated: bool, version: int)

  /** After a successful `Set(p)`, `Matches(p)` reports a match without an
      error, for any bcrypt pair where a generated hash compares equal to its
      own plaintext; after a failed `Set` the record is unchanged. */
  method SetThenMatches(p: Password, plainText: string, generate: Generator, compare: Comparer)
    returns (err: Option<Error>, matched: bool, matchErr: Option<Error>)
    requires generate(plainText, BcryptCost).Ok? ==>
               compare(generate(plainText, BcryptCost).value, plainText) == Equal
    modifies p
    ensures err.None? ==> matched && matchErr.None?
    ensures err.None? <==> generate(plainText, BcryptCost).Ok?
    ensures generate(plainText, BcryptCost).Ok? ==>
              p.plainText == Some(plainText) && p.hash == Some(generate(plainText, BcryptCost).value)
    ensures err.Some? ==> p.hash == old(p.hash) && p.plainText == old(p.plainText)
  {
    err := p.Set(plainText, generate);
    matched, matchErr := p.Matches(plainText, compare);
  }

  /** The checks of `ValidateEmail`, in source order. */
  function EmailRules(email: string, emailRX: Pattern): seq<Rule>
  {
    [ Rule(email != "", "email", "must be provided"),
      Rule(emailRX(email), "email", "must be a valid email") ]
  }

  /** The checks of `ValidatePasswordPlainText`, in source order. */
  function PasswordRules(password: string): seq<Rule>
  {
    [ Rule(password != "", "password", "must be provided"),
      Rule(|password| >= 8, "password", "must be more than 8 characters"),
      Rule(|password| <= 32, "password", "must not be lower than 32 characters") ]
  }

  /** The checks `ValidateUser` makes itself before `ValidateEmail`. */
  function UserHeadRules(name: string, email: string): seq<Rule>
  {
    [ Rule(name != "", "name", "must be provided"),
      Rule(|email| <= 500, "email", "must not be more than 500 characters") ]
  }

  /** The checks of `ValidateUser`, in source order: the password rules run
      only when a plaintext is present. */
  function UserRules(name: string, email: string, plainText: Option<string>, emailRX: Pattern): seq<Rule>
  {
    UserHeadRules(name, email)
    + EmailRules(email, emailRX)
    + (if plainText.Some? then PasswordRules(plainText.value) else [])
  }

  /** `ValidateEmail`: runs the e-mail checks against `v`. */
  method ValidateEmail(v: Validator, email: string, emailRX: Pattern)
    modifies v
    ensures v.errors == RunRules(old(v.errors), EmailRules(email, emailRX))
  {
    ghost var start := v.errors;
    var rules := EmailRules(email, emailRX);
    v.Check(rules[0].ok, rules[0].key, rules[0].message);
    assert v.errors == RunPrefix(start, rules, 1);
    v.Check(rules[1].ok, rules[1].key, rules[1].message);
  }

  /** `ValidatePasswordPlainText`: runs the password checks against `v`. */
  method ValidatePasswordPlainText(v: Validator, password: string)
    modifies v
    ensures v.errors == RunRules(old(v.errors), PasswordRules(password))
  {
    ghost var start := v.errors;
    var rules := PasswordRules(password);
    v.Check(rules[0].ok, rules[0].key, rules[0].message);
    assert v.errors == RunPrefix(start, rules, 1);
    v.Check(rules[1].ok, rules[1].key, rules[1].message);
    assert v.errors == RunPrefix(start, rules, 2);
    v.Check(rules[2].ok, rules[2].key, rules[2].message);
  }

  /** `ValidateUser`: name, e-mail length, e-mail, then the password when a
      plaintext is present. The source panics on a nil hash, so a hash is
      required of the caller. */
  method ValidateUser(v: Validator, u: User, emailRX: Pattern)
    requires u.password.hash.Some?
    modifies v
    ensures v.errors == RunRules(old(v.errors), UserRules(u.name, u.email, u.password.plainText, emailRX))
  {
    ghost var start := v.errors;
    var head := UserHeadRules(u.name, u.email);
    v.Check(head[0].ok, head[0].key, head[0].message);
    assert v.errors == RunPrefix(start, head, 1);
    v.Check(head[1].ok, head[1].key, head[1].message);
    ValidateEmail(v, u.email, emailRX);
    RunRulesAppend(start, head, EmailRules(u.email, emailRX));
    ghost var tail: seq<Rule> := if u.password.plainText.Some? then PasswordRules(u.password.plainText.value) else [];
    if u.password.plainText.Some? {
      ValidatePasswordPlainText(v, u.password.plainText.value);
    }
    RunRulesAppend(start, head + EmailRules(u.email, emailRX), tail);
  }

  /** An empty e-mail records "must be provided"; the pattern message that
      follows is not recorded, whatever the pattern says. */
  lemma EmptyEmailMustBeProvided(errors: Errors, emailRX: Pattern)
    requires "email" !in errors
    ensures var r := RunRules(errors, EmailRules("", emailRX));
            "email" in r && r["email"] == "must be provided"
  {
    RunRulesFirstFailure(errors, EmailRules("", emailRX), "email", 0);
  }

  /** The e-mail checks leave no e-mail error iff the address is non-empty
      and matches the pattern, and they touch no other field. */
  lemma EmailRulesPass(errors: Errors, email: string, emailRX: Pattern)
    requires "email" !in errors
    ensures var r := RunRules(errors, EmailRules(email, emailRX));
            ("email" !in r <==> email != "" && emailRX(email)) &&
            r.Keys <= errors.Keys + {"email"}
  {
    var rules := EmailRules(email, emailRX);
    RunRulesKeys(errors, rules);
    if email == "" {
      RunRulesFirstFailure(errors, rules, "email", 0);
    } else if !emailRX(email) {
      RunRulesFirstFailure(errors, rules, "email", 1);
    } else {
      RunRulesNoFailure(errors, rules, "email");
    }
  }

  /** The password checks leave no password error iff the password has 8 to
      32 bytes inclusive; an empty password records "must be provided"; no
      other field is touched. */
  lemma PasswordRulesPass(errors: Errors, password: string)
    requires "password" !in errors
    ensures var r := RunRules(errors, PasswordRules(password));
            ("password" !in r <==> 8 <= |password| <= 32) &&
            (password == "" ==> "password" in r && r["password"] == "must be provided") &&
            r.Keys <= errors.Keys + {"password"}
  {
    var rules := PasswordRules(password);
    RunRulesKeys(errors, rules);
    if password == "" {
      RunRulesFirstFailure(errors, rules, "password", 0);
    } else if |password| < 8 {
      RunRulesFirstFailure(errors, rules, "password", 1);
    } else if |password| > 32 {
      RunRulesFirstFailure(errors, rules, "password", 2);
    } else {
      RunRulesNoFailure(errors, rules, "password");
    }
  }

  /** In `ValidateUser` the length check runs before `ValidateEmail`, so an
      e-mail over 500 bytes is reported as too long. */
  lemma UserEmailTooLong(errors: Errors, name: string, email: string, plainText: Option<string>, emailRX: Pattern)
    requires "email" !in errors
    requires |email| > 500
    ensures var r := RunRules(errors, UserRules(name, email, plainText, emailRX));
            "email" in r && r["email"] == "must not be more than 500 characters"
  {
    var rules := UserRules(name, email, plainText, emailRX);
    assert rules[0].key == "name";
    RunRulesFirstFailure(errors, rules, "email", 1);
  }

  /** `ValidateUser` reports a password error only when a plaintext is
      present and it is not 8 to 32 bytes long. */
  lemma UserPasswordChecked(errors: Errors, name: string, email: string, plainText: Option<string>, emailRX: Pattern)
    requires "password" !in errors
    ensures var r := RunRules(errors, UserRules(name, email, plainText, emailRX));
            "password" in r <==> plainText.Some? && !(8 <= |plainText.value| <= 32)
  {
    var head := UserHeadRules(name, email) + EmailRules(email, emailRX);
    var tail := if plainText.Some? then PasswordRules(plainText.value) else [];
    RunRulesAppend(errors, head, tail);
    RunRulesNoFailure(errors, head, "password");
    var mid := RunRules(errors, head);
    if plainText.Some? {
      PasswordRulesPass(mid, plainText.value);
    }
  }
}
