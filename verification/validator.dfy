/**
 * Validators and the fluent validator builder. A validator maps a value
 * to a ValidationResult. The builder collects one check per rule method
 * into a list; the validator it builds runs every check on the value and
 * gathers the errors of those that fail, in the order the rules were added.
 * `and` chains two validators and stops at the first that fails.
 */
module Validators {
  import opened Wrappers
  import opened JavaText
  import opened Validation
  import opened Patterns

  /** The value a validator is given: a Java reference (None is null), seen through its toString(). */
  type Value = Option<string>

  /** Validator<T>: a check from a value to a result. */
  type Validator<-T> = T -> ValidationResult

  /**
   * a.and(b): passes exactly when both pass; when a fails its result is
   * returned unchanged (b's errors are never merged in), and when a passes
   * the result is b's.
   */
  function And<T(!new)>(a: Validator<T>, b: Validator<T>): (r: Validator<T>)
    ensures forall x :: r(x).valid <==> a(x).valid && b(x).valid
    ensures forall x :: !a(x).valid ==> r(x) == a(x)
    ensures forall x :: a(x).valid ==> r(x) == b(x)
  {
    x => if !a(x).valid then a(x) else b(x)
  }

  /** Chaining is associative: grouping does not change any result. */
  lemma AndAssociative<T(!new)>(a: Validator<T>, b: Validator<T>, c: Validator<T>, x: T)
    ensures And(And(a, b), c)(x) == And(a, And(b, c))(x)
  {
  }

  /** One check of the builder: the rule methods, each adding one of these. */
  datatype Rule =
    | NotNull
    | NotEmpty
    | Matches(pattern: Pattern, message: string)
    | MinLength(min: int)
    | MaxLength(max: int)
    | Custom(condition: Value -> bool, message: string)

  /** The result one check gives for a value; every error it reports names the builder's field. */
  function RuleResult(field: string, rule: Rule, v: Value): (r: ValidationResult)
    ensures r.valid ==> r.errors == []
    ensures !r.valid ==> |r.errors| == 1 && r.errors[0].field == field
  {
    match rule
    case NotNull =>
      if v.None? then Invalid(field, "Este campo es obligatorio") else Valid()
    case NotEmpty =>
      if v.None? || IsBlank(v.value) then Invalid(field, "Este campo no puede estar vacío") else Valid()
    case Matches(p, message) =>
      if v.Some? && !FullMatch(p, v.value) then Invalid(field, message) else Valid()
    case MinLength(min) =>
      if v.Some? && |v.value| < min then Invalid(field, "Debe tener al menos " + IntToString(min) + " caracteres")
      else Valid()
    case MaxLength(max) =>
      if v.Some? && |v.value| > max then Invalid(field, "No puede exceder " + IntToString(max) + " caracteres")
      else Valid()
    case Custom(condition, message) =>
      if !condition(v) then Invalid(field, message) else Valid()
  }

  /** Which checks fail on which values. */
  lemma RuleFailsExactly(field: string, rule: Rule, v: Value)
    ensures rule.NotNull? ==> (!RuleResult(field, rule, v).valid <==> v.None?)
    ensures rule.NotEmpty? ==> (!RuleResult(field, rule, v).valid <==> v.None? || Trim(v.value) == [])
    ensures rule.Matches? || rule.MinLength? || rule.MaxLength? ==> (v.None? ==> RuleResult(field, rule, v).valid)
    ensures rule.MinLength? && v.Some? ==> (!RuleResult(field, rule, v).valid <==> |v.value| < rule.min)
    ensures rule.MaxLength? && v.Some? ==> (!RuleResult(field, rule, v).valid <==> |v.value| > rule.max)
    ensures rule.Custom? ==> (!RuleResult(field, rule, v).valid <==> !rule.condition(v))
  {
  }

  /** The errors one check contributes: none when it passes, its result's errors when it fails. */
  function CheckErrors(field: string, rule: Rule, v: Value): seq<ValidationError> {
    var r := RuleResult(field, rule, v);
    if r.valid then [] else r.errors
  }

  /** The errors of the failing checks, concatenated in the order the checks were added. */
  function RuleErrors(field: string, rules: seq<Rule>, v: Value): seq<ValidationError> {
    if rules == [] then []
    else RuleErrors(field, rules[..|rules| - 1], v) + CheckErrors(field, rules[|rules| - 1], v)
  }

  /** What the built validator returns: valid() when no check failed, otherwise invalid(all errors). */
  function RunRules(field: string, rules: seq<Rule>, v: Value): (r: ValidationResult)
    ensures r.errors == RuleErrors(field, rules, v)
    ensures r.valid <==> r.errors == []
  {
    var errors := RuleErrors(field, rules, v);
    if errors == [] then Valid() else InvalidWith(errors)
  }

  /** The errors of two lists of checks are those of the first, then those of the second. */
  lemma {:induction false} RuleErrorsAppend(field: string, a: seq<Rule>, b: seq<Rule>, v: Value)
    ensures RuleErrors(field, a + b, v) == RuleErrors(field, a, v) + RuleErrors(field, b, v)
    decreases |b|
  {
    if b == [] {
      assert a + b == a;
    } else {
      assert (a + b)[..|a + b| - 1] == a + b[..|b| - 1];
      RuleErrorsAppend(field, a, b[..|b| - 1], v);
    }
  }

  /** The errors of a first check, then those of the checks after it. */
  lemma RuleErrorsCons(field: string, rule: Rule, rest: seq<Rule>, v: Value)
    ensures RuleErrors(field, [rule] + rest, v) == CheckErrors(field, rule, v) + RuleErrors(field, rest, v)
  {
    RuleErrorsAppend(field, [rule], rest, v);
    assert [rule][..0] == [];
  }

  /** A check contributes no error exactly when it passes. */
  lemma CheckErrorsEmptyIff(field: string, rule: Rule, v: Value)
    ensures CheckErrors(field, rule, v) == [] <==> RuleResult(field, rule, v).valid
  {
    var r := RuleResult(field, rule, v);
    if !r.valid {
      assert |r.errors| == 1;
    }
  }

  /** notEmpty contributes no error exactly on a present, non-blank value. */
  lemma NotEmptyPasses(field: string, v: Value)
    ensures CheckErrors(field, NotEmpty, v) == [] <==> v.Some? && !IsBlank(v.value)
  {
    CheckErrorsEmptyIff(field, NotEmpty, v);
  }

  /** minLength(min) contributes no error exactly on null or a value at least min long. */
  lemma MinLengthPasses(field: string, min: int, v: Value)
    ensures CheckErrors(field, MinLength(min), v) == [] <==> v.None? || |v.value| >= min
  {
    CheckErrorsEmptyIff(field, MinLength(min), v);
  }

  /** maxLength(max) contributes no error exactly on null or a value at most max long. */
  lemma MaxLengthPasses(field: string, max: int, v: Value)
    ensures CheckErrors(field, MaxLength(max), v) == [] <==> v.None? || |v.value| <= max
  {
    CheckErrorsEmptyIff(field, MaxLength(max), v);
  }

  /** matches(p, message) contributes no error exactly on null or a value the pattern matches in full. */
  lemma MatchesPasses(field: string, p: Pattern, message: string, v: Value)
    ensures CheckErrors(field, Matches(p, message), v) == [] <==> v.None? || FullMatch(p, v.value)
  {
    CheckErrorsEmptyIff(field, Matches(p, message), v);
  }

  /** notEmpty on a blank value: its one error. */
  lemma NotEmptyFailsOnBlank(field: string, s: string)
    requires IsBlank(s)
    ensures CheckErrors(field, NotEmpty, Some(s)) == [ValidationError(field, "Este campo no puede estar vacío")]
  {
  }

  /** minLength(min) on a shorter value: its one error, which names min. */
  lemma MinLengthFailsOnShort(field: string, min: int, s: string)
    requires |s| < min
    ensures CheckErrors(field, MinLength(min), Some(s)) ==
              [ValidationError(field, "Debe tener al menos " + IntToString(min) + " caracteres")]
  {
  }

  /** matches(p, message) on a value the pattern does not match: its one error, with the given message. */
  lemma MatchesFailsOnMismatch(field: string, p: Pattern, message: string, s: string)
    requires !FullMatch(p, s)
    ensures CheckErrors(field, Matches(p, message), Some(s)) == [ValidationError(field, message)]
  {
  }

  /** The errors of two checks: the first's, then the second's. */
  lemma RuleErrorsOfTwo(field: string, a: Rule, b: Rule, v: Value)
    ensures RuleErrors(field, [a, b], v) == CheckErrors(field, a, v) + CheckErrors(field, b, v)
  {
    RuleErrorsCons(field, a, [b], v);
    RuleErrorsCons(field, b, [], v);
    assert [a, b] == [a] + [b];
    assert [b] == [b] + [];
  }

  /** The errors of four checks, in the order they were added. */
  lemma RuleErrorsOfFour(field: string, a: Rule, b: Rule, c: Rule, d: Rule, v: Value)
    ensures RuleErrors(field, [a, b, c, d], v) ==
              CheckErrors(field, a, v) + CheckErrors(field, b, v) + CheckErrors(field, c, v) + CheckErrors(field, d, v)
  {
    RuleErrorsAppend(field, [a, b], [c, d], v);
    RuleErrorsOfTwo(field, a, b, v);
    RuleErrorsOfTwo(field, c, d, v);
    assert [a, b, c, d] == [a, b] + [c, d];
  }

  /** Every check of a list passes exactly when every check but the last passes, and the last one too. */
  lemma AllPassSplit(field: string, rules: seq<Rule>, v: Value)
    requires rules != []
    ensures var init := rules[..|rules| - 1];
      (forall i :: 0 <= i < |rules| ==> RuleResult(field, rules[i], v).valid) <==>
      (forall i :: 0 <= i < |init| ==> RuleResult(field, init[i], v).valid) && RuleResult(field, rules[|rules| - 1], v).valid
  {
    var init := rules[..|rules| - 1];
    assert forall i :: 0 <= i < |init| ==> init[i] == rules[i];
  }

  /** No error is reported exactly when every check passes. */
  lemma {:induction false} NoErrorsIffAllPass(field: string, rules: seq<Rule>, v: Value)
    ensures RuleErrors(field, rules, v) == [] <==> forall i :: 0 <= i < |rules| ==> RuleResult(field, rules[i], v).valid
    decreases |rules|
  {
    if rules != [] {
      var init := rules[..|rules| - 1];
      NoErrorsIffAllPass(field, init, v);
      CheckErrorsEmptyIff(field, rules[|rules| - 1], v);
      AllPassSplit(field, rules, v);
    }
  }

  /** The built validator passes exactly when every registered check passes. */
  lemma RunRulesValidIff(field: string, rules: seq<Rule>, v: Value)
    ensures RunRules(field, rules, v).valid <==> forall i :: 0 <= i < |rules| ==> RuleResult(field, rules[i], v).valid
    ensures RunRules(field, rules, v).errors == RuleErrors(field, rules, v)
  {
    NoErrorsIffAllPass(field, rules, v);
  }

  /** Every error the built validator reports names the builder's field. */
  lemma {:induction false} ErrorsNameTheField(field: string, rules: seq<Rule>, v: Value)
    ensures forall e :: e in RuleErrors(field, rules, v) ==> e.field == field
    decreases |rules|
  {
    if rules != [] {
      ErrorsNameTheField(field, rules[..|rules| - 1], v);
    }
  }

  /** There is one error per failing check. */
  lemma {:induction false} OneErrorPerFailure(field: string, rules: seq<Rule>, v: Value)
    ensures |RuleErrors(field, rules, v)| == |FailingChecks(field, rules, v)|
    decreases |rules|
  {
    if rules != [] {
      OneErrorPerFailure(field, rules[..|rules| - 1], v);
    }
  }

  /** The positions of the checks that fail on v, in order. */
  function FailingChecks(field: string, rules: seq<Rule>, v: Value): seq<nat> {
    if rules == [] then []
    else
      FailingChecks(field, rules[..|rules| - 1], v) +
      (if RuleResult(field, rules[|rules| - 1], v).valid then [] else [|rules| - 1])
  }

  /** ValidatorBuilder: the field name and the live list of checks. */
  class ValidatorBuilder {
    const fieldName: string
    var rules: seq<Rule>

    /** forField(name): a builder for that field with no checks. */
    constructor ForField(fieldName: string)
      ensures this.fieldName == fieldName && rules == []
    {
      this.fieldName := fieldName;
      rules := [];
    }

    method NotNull() returns (b: ValidatorBuilder)
      modifies this
      ensures b == this && rules == old(rules) + [Rule.NotNull]
    {
      rules := rules + [Rule.NotNull];
      b := this;
    }

    method NotEmpty() returns (b: ValidatorBuilder)
      modifies this
      ensures b == this && rules == old(rules) + [Rule.NotEmpty]
    {
      rules := rules + [Rule.NotEmpty];
      b := this;
    }

    method Matches(pattern: Pattern, message: string) returns (b: ValidatorBuilder)
      modifies this
      ensures b == this && rules == old(rules) + [Rule.Matches(pattern, message)]
    {
      rules := rules + [Rule.Matches(pattern, message)];
      b := this;
    }

    method MinLength(min: int) returns (b: ValidatorBuilder)
      modifies this
      ensures b == this && rules == old(rules) + [Rule.MinLength(min)]
    {
      rules := rules + [Rule.MinLength(min)];
      b := this;
    }

    method MaxLength(max: int) returns (b: ValidatorBuilder)
      modifies this
      ensures b == this && rules == old(rules) + [Rule.MaxLength(max)]
    {
      rules := rules + [Rule.MaxLength(max)];
      b := this;
    }

    method Custom(condition: Value -> bool, message: string) returns (b: ValidatorBuilder)
      modifies this
      ensures b == this && rules == old(rules) + [Rule.Custom(condition, message)]
    {
      rules := rules + [Rule.Custom(condition, message)];
      b := this;
    }

    /** build(): a validator that reads this builder's list each time it runs. */
    method Build() returns (v: BuiltValidator)
      ensures fresh(v) && v.source == this
    {
      v := new BuiltValidator(this);
    }
  }

  /** The validator build() returns: a closure over its builder. */
  class BuiltValidator {
    const source: ValidatorBuilder

    constructor (source: ValidatorBuilder)
      ensures this.source == source
    {
      this.source := source;
    }

    /** validate(value): every check in turn, collecting the errors of those that fail. */
    method Validate(v: Value) returns (r: ValidationResult)
      ensures r == RunRules(source.fieldName, source.rules, v)
    {
      var rules := source.rules;
      var allErrors := [];
      for i := 0 to |rules|
        invariant allErrors == RuleErrors(source.fieldName, rules[..i], v)
      {
        assert rules[..i + 1][..i] == rules[..i];
        var result := RuleResult(source.fieldName, rules[i], v);
        if !result.valid {
          allErrors := allErrors + result.errors;
        }
      }
      assert rules[..|rules|] == rules;
      r := if allErrors == [] then Valid() else InvalidWith(allErrors);
    }
  }

  /** A check added after build() is applied by the validator built before it. */
  method CheckAddedAfterBuildApplies(b: ValidatorBuilder, min: int, v: Value) returns (r: ValidationResult)
    modifies b
    ensures r == RunRules(b.fieldName, old(b.rules) + [MinLength(min)], v)
  {
    var built := b.Build();
    var same := b.MinLength(min);
    r := built.Validate(v);
  }
}
