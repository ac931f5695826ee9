/** The field-level validation accumulator used by every input-facing
    operation. The validator package itself is not part of this model; it is
    modelled from how the core uses it: a map from field name to the first
    message recorded for that field, `AddError` and `Check` that never
    overwrite a recorded message, and `Valid` that holds iff nothing was
    recorded. */
module Validator {

  /** Field name to the first message recorded for it (`v.Errors`). */
  type Errors = map<string, string>

  /** `validator.Matches(value, validator.EmailRX)`: the e-mail pattern is not
      part of this model, so it is passed in as an abstract predicate. */
  type Pattern = string -> bool

  /** `validator.Unique`: no value occurs twice. */
  predicate Unique(values: seq<string>)
  {
    forall i, j :: 0 <= i < j < |values| ==> values[i] != values[j]
  }

  /** The effect of `AddError(key, message)` on the error map: the message is
      recorded only if the field has none yet (first error wins). */
  function Recorded(errors: Errors, key: string, message: string): (r: Errors)
    ensures key in r && r[key] == (if key in errors then errors[key] else message)
    ensures forall k :: k in errors ==> k in r && r[k] == errors[k]
    ensures r.Keys == errors.Keys + {key}
  {
    if key in errors then errors else errors[key := message]
  }

  /** The effect of `Check(ok, key, message)`: `AddError` when `ok` is false. */
  function Checked(errors: Errors, ok: bool, key: string, message: string): (r: Errors)
    ensures r.Keys == errors.Keys + (if ok then {} else {key})
    ensures forall k :: k in errors ==> r[k] == errors[k]
    ensures !ok && key !in errors ==> r[key] == message
  {
    if ok then errors else Recorded(errors, key, message)
  }

  /** One `v.Check(ok, key, message)` call of a validation rule. */
  datatype Rule = Rule(ok: bool, key: string, message: string)

  /** A rule that fails and so would record a message for `key`. */
  predicate Fails(rule: Rule, key: string)
  {
    !rule.ok && rule.key == key
  }

  /** The error map after running the first `n` of `rules`, in order,
      against `errors`. */
  function RunPrefix(errors: Errors, rules: seq<Rule>, n: nat): Errors
    requires n <= |rules|
  {
    if n == 0 then errors
    else Checked(RunPrefix(errors, rules, n - 1), rules[n - 1].ok, rules[n - 1].key, rules[n - 1].message)
  }

  /** The error map after running all of `rules` in order against `errors`. */
  function RunRules(errors: Errors, rules: seq<Rule>): Errors
  {
    RunPrefix(errors, rules, |rules|)
  }

  /** `i` is the first rule, in order, that fails for `key`. */
  ghost predicate FirstFailing(rules: seq<Rule>, key: string, i: int)
  {
    0 <= i < |rules| && Fails(rules[i], key) &&
    forall j :: 0 <= j < i ==> !Fails(rules[j], key)
  }

  /** The keys of the failing rules among the first `n`. */
  ghost function FailingKeys(rules: seq<Rule>, n: nat): set<string>
    requires n <= |rules|
  {
    set i | 0 <= i < n && !rules[i].ok :: rules[i].key
  }

  /** Only the first `n` rules matter to `RunPrefix(errors, rules, n)`. */
  lemma {:induction false} RunPrefixSame(errors: Errors, a: seq<Rule>, b: seq<Rule>, n: nat)
    requires n <= |a| && n <= |b|
    requires forall i :: 0 <= i < n ==> a[i] == b[i]
    ensures RunPrefix(errors, a, n) == RunPrefix(errors, b, n)
  {
    if n > 0 {
      RunPrefixSame(errors, a, b, n - 1);
    }
  }

  /** Running `a` and then the first `m` rules of `b`. */
  lemma {:induction false} RunPrefixAppend(errors: Errors, a: seq<Rule>, b: seq<Rule>, m: nat)
    requires m <= |b|
    ensures RunPrefix(errors, a + b, |a| + m) == RunPrefix(RunRules(errors, a), b, m)
  {
    if m == 0 {
      RunPrefixSame(errors, a + b, a, |a|);
    } else {
      RunPrefixAppend(errors, a, b, m - 1);
      assert (a + b)[|a| + m - 1] == b[m - 1];
    }
  }

  /** Running rules one list after another is running their concatenation. */
  lemma RunRulesAppend(errors: Errors, a: seq<Rule>, b: seq<Rule>)
    ensures RunRules(errors, a + b) == RunRules(RunRules(errors, a), b)
  {
    RunPrefixAppend(errors, a, b, |b|);
  }

  /** A message already recorded is never overwritten. */
  lemma {:induction false} RunPrefixKeeps(errors: Errors, rules: seq<Rule>, n: nat, key: string)
    requires n <= |rules|
    requires key in errors
    ensures key in RunPrefix(errors, rules, n) && RunPrefix(errors, rules, n)[key] == errors[key]
  {
    if n > 0 {
      RunPrefixKeeps(errors, rules, n - 1, key);
    }
  }

  /** A field no rule among the first `n` fails for keeps exactly what it had. */
  lemma {:induction false} RunPrefixNoFailure(errors: Errors, rules: seq<Rule>, n: nat, key: string)
    requires n <= |rules|
    requires forall j :: 0 <= j < n ==> !Fails(rules[j], key)
    ensures key in RunPrefix(errors, rules, n) <==> key in errors
    ensures key in errors ==> RunPrefix(errors, rules, n)[key] == errors[key]
  {
    if n > 0 {
      RunPrefixNoFailure(errors, rules, n - 1, key);
      assert !Fails(rules[n - 1], key);
    }
  }

  /** A field with no message yet ends up with the message of the first rule
      that fails for it, once that rule has run. */
  lemma {:induction false} RunPrefixFirstFailure(errors: Errors, rules: seq<Rule>, n: nat, key: string, i: int)
    requires n <= |rules|
    requires key !in errors
    requires FirstFailing(rules, key, i) && i < n
    ensures key in RunPrefix(errors, rules, n) && RunPrefix(errors, rules, n)[key] == rules[i].message
  {
    if n == i + 1 {
      RunPrefixNoFailure(errors, rules, i, key);
    } else {
      RunPrefixFirstFailure(errors, rules, n - 1, key, i);
    }
  }

  /** A field with no message yet ends up with the message of the first rule
      that fails for it. */
  lemma RunRulesFirstFailure(errors: Errors, rules: seq<Rule>, key: string, i: int)
    requires key !in errors
    requires FirstFailing(rules, key, i)
    ensures key in RunRules(errors, rules) && RunRules(errors, rules)[key] == rules[i].message
  {
    RunPrefixFirstFailure(errors, rules, |rules|, key, i);
  }

  /** A field no rule fails for keeps exactly what it had. */
  lemma RunRulesNoFailure(errors: Errors, rules: seq<Rule>, key: string)
    requires forall j :: 0 <= j < |rules| ==> !Fails(rules[j], key)
    ensures key in RunRules(errors, rules) <==> key in errors
    ensures key in errors ==> RunRules(errors, rules)[key] == errors[key]
  {
    RunPrefixNoFailure(errors, rules, |rules|, key);
  }

  /** A message already recorded is never overwritten. */
  lemma RunRulesKeeps(errors: Errors, rules: seq<Rule>, key: string)
    requires key in errors
    ensures key in RunRules(errors, rules) && RunRules(errors, rules)[key] == errors[key]
  {
    RunPrefixKeeps(errors, rules, |rules|, key);
  }

  /** The fields with a message after the first `n` rules are those that had
      one and those some of those rules fail for. */
  lemma {:induction false} RunPrefixKeys(errors: Errors, rules: seq<Rule>, n: nat)
    requires n <= |rules|
    ensures RunPrefix(errors, rules, n).Keys == errors.Keys + FailingKeys(rules, n)
  {
    if n > 0 {
      RunPrefixKeys(errors, rules, n - 1);
      var last := rules[n - 1];
      assert FailingKeys(rules, n) == FailingKeys(rules, n - 1) + (if last.ok then {} else {last.key}) by {
        forall k | k in FailingKeys(rules, n)
          ensures k in FailingKeys(rules, n - 1) + (if last.ok then {} else {last.key})
        {
          var i :| 0 <= i < n && !rules[i].ok && rules[i].key == k;
          if i < n - 1 {
            assert k in FailingKeys(rules, n - 1);
          }
        }
        if !last.ok {
          assert last.key in FailingKeys(rules, n);
        }
      }
    }
  }

  /** The fields with a message afterwards are those that had one and those
      some rule fails for. */
  lemma RunRulesKeys(errors: Errors, rules: seq<Rule>)
    ensures RunRules(errors, rules).Keys == errors.Keys + FailingKeys(rules, |rules|)
  {
    RunPrefixKeys(errors, rules, |rules|);
  }

  /** Rules whose keys all lie in `fields` record messages only under those
      fields. */
  lemma RunRulesKeysWithin(errors: Errors, rules: seq<Rule>, fields: set<string>)
    requires forall i :: 0 <= i < |rules| ==> rules[i].key in fields
    ensures RunRules(errors, rules).Keys <= errors.Keys + fields
  {
    RunRulesKeys(errors, rules);
  }

  /** Starting from a fresh validator, nothing is recorded iff every rule holds. */
  lemma RunRulesValid(rules: seq<Rule>)
    ensures RunRules(map[], rules) == map[] <==> forall i :: 0 <= i < |rules| ==> rules[i].ok
  {
    RunRulesKeys(map[], rules);
    if exists i :: 0 <= i < |rules| && !rules[i].ok {
      var i :| 0 <= i < |rules| && !rules[i].ok;
      assert rules[i].key in FailingKeys(rules, |rules|);
    }
  }

  /** `validator.Validator`: the error map of one validation pass. */
  class Validator {
    var errors: Errors

    /** `validator.New()`: no errors recorded. */
    constructor ()
      ensures errors == map[]
    {
      errors := map[];
    }

    /** `v.Valid()`: holds iff no field has a recorded error. */
    function Valid(): (ok: bool)
      reads this
      ensures ok <==> errors == map[]
    {
      |errors| == 0
    }

    /** `v.AddError(key, message)`: first error per field wins. */
    method AddError(key: string, message: string)
      modifies this
      ensures errors == Recorded(old(errors), key, message)
    {
      if key !in errors {
        errors := errors[key := message];
      }
    }

    /** `v.Check(ok, key, message)`: records only when `ok` is false. */
    method Check(ok: bool, key: string, message: string)
      modifies this
      ensures errors == Checked(old(errors), ok, key, message)
    {
      if !ok {
        AddError(key, message);
      }
    }
  }
}
