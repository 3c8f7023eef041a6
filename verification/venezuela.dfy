/**
 * The Venezuelan validator: normalisation of cédulas and telephone
 * numbers, the three validators built on the patterns, and the
 * validate-and-normalise operations that either return the normalised
 * value or throw a ValidationException (Failure here).
 */
module Venezuela {
  import opened Wrappers
  import opened JavaText
  import opened Validation
  import opened Patterns
  import opened Validators

  const CedulaField := "Cédula"
  const CedulaFormatMessage := "Formato inválido. Use: V-12345678 o E-12345678"
  const TelefonoField := "Teléfono"
  const TelefonoFormatMessage := "Formato inválido. Use: 0412-1234567 o 0212-1234567"
  const NombreField := "Nombre"
  const NombreFormatMessage := "Solo puede contener letras y espacios"

  /** The checks cedulaValidator registers, in order. */
  const CedulaRules: seq<Rule> := [NotEmpty, Matches(CedulaPattern, CedulaFormatMessage)]

  /** The checks nombreValidator registers, in order. */
  const NombreRules: seq<Rule> := [NotEmpty, MinLength(3), MaxLength(100), Matches(NombrePattern, NombreFormatMessage)]

  /** cedulaValidator(): a fresh builder for "Cédula" with notEmpty then the cédula pattern. */
  method CedulaValidator() returns (v: BuiltValidator)
    ensures fresh(v) && v.source.fieldName == CedulaField && v.source.rules == CedulaRules
  {
    var b := new ValidatorBuilder.ForField(CedulaField);
    b := b.NotEmpty();
    b := b.Matches(CedulaPattern, CedulaFormatMessage);
    v := b.Build();
  }

  /** nombreValidator(): notEmpty, minLength(3), maxLength(100), then the name pattern. */
  method NombreValidator() returns (v: BuiltValidator)
    ensures fresh(v) && v.source.fieldName == NombreField && v.source.rules == NombreRules
  {
    var b := new ValidatorBuilder.ForField(NombreField);
    b := b.NotEmpty();
    b := b.MinLength(3);
    b := b.MaxLength(100);
    b := b.Matches(NombrePattern, NombreFormatMessage);
    v := b.Build();
  }

  /** telefonoValidator(): a null or blank number is accepted; otherwise it must match the pattern. */
  function TelefonoValidator(): (check: Validator<Value>)
    ensures forall v: Value :: check(v).valid <==> v.None? || IsBlank(v.value) || IsTelefono(v.value)
    ensures forall v: Value :: !check(v).valid ==> check(v).errors == [ValidationError(TelefonoField, TelefonoFormatMessage)]
  {
    (v: Value) => if v.None? || IsBlank(v.value) then Valid()
         else if !IsTelefono(v.value) then Invalid(TelefonoField, TelefonoFormatMessage)
         else Valid()
  }

  /** No ASCII lower-case letter in s. */
  predicate NoLowerCase(s: string) {
    forall i :: 0 <= i < |s| ==> !('a' <= s[i] <= 'z')
  }

  /** normalizarCedula: trimmed, upper-cased, spaces removed, '-' after the letter when there is none. */
  function NormalizarCedula(cedula: Option<string>): (r: Option<string>)
    ensures r.None? <==> cedula.None?
  {
    match cedula
    case None => None
    case Some(s) =>
      var n := RemoveChar(ToUpper(Trim(s)), ' ');
      Some(if '-' !in n && |n| > 1 then [n[0]] + "-" + n[1..] else n)
  }

  /**
   * What normalisation leaves: no space, no lower-case letter, no
   * trimmable char at either end, and a '-' unless one char at most.
   */
  predicate IsNormalCedula(m: string) {
    ' ' !in m && NoLowerCase(m) &&
    (m == [] || (!IsTrimmed(m[0]) && !IsTrimmed(m[|m| - 1]))) &&
    ('-' in m || |m| <= 1)
  }

  /** Upper-casing leaves no lower-case letter. */
  lemma UpperHasNoLower(t: string)
    ensures NoLowerCase(ToUpper(t))
  {
    var u := ToUpper(t);
    forall i | 0 <= i < |u|
      ensures !('a' <= u[i] <= 'z')
    {
      assert u[i] == UpperChar(t[i]);
    }
  }

  /** Removing a char keeps a string free of lower-case letters. */
  lemma {:induction false} RemoveCharHasNoLower(s: string, c: char)
    requires NoLowerCase(s)
    ensures NoLowerCase(RemoveChar(s, c))
  {
    if s != [] {
      assert NoLowerCase(s[1..]) by {
        forall i | 0 <= i < |s[1..]|
          ensures !('a' <= s[1..][i] <= 'z')
        {
          assert s[1..][i] == s[i + 1];
        }
      }
      RemoveCharHasNoLower(s[1..], c);
    }
  }

  /** The space-free upper-cased text before the dash is inserted has the normal form's ends. */
  lemma SpacesRemovedEnds(u: string)
    requires u == [] || (!IsTrimmed(u[0]) && !IsTrimmed(u[|u| - 1]))
    ensures var n := RemoveChar(u, ' '); n == [] || (!IsTrimmed(n[0]) && !IsTrimmed(n[|n| - 1]))
  {
    if u != [] {
      RemoveCharKeepsLast(u, ' ');
    }
  }

  /** Inserting '-' after the first char of a normal-looking text gives the normal form. */
  lemma DashInsertedIsNormal(n: string)
    requires ' ' !in n && NoLowerCase(n) && |n| > 1
    requires !IsTrimmed(n[0]) && !IsTrimmed(n[|n| - 1])
    ensures IsNormalCedula([n[0]] + "-" + n[1..])
  {
    var m := [n[0]] + "-" + n[1..];
    assert m[1] == '-';
    forall i | 0 <= i < |m|
      ensures m[i] != ' ' && !('a' <= m[i] <= 'z')
    {
      if i >= 2 {
        assert m[i] == n[i - 1];
      }
    }
  }

  /** Upper-casing a text with untrimmable ends gives a text with no lower-case letter and untrimmable ends. */
  lemma UpperKeepsEnds(t: string)
    requires t == [] || (!IsTrimmed(t[0]) && !IsTrimmed(t[|t| - 1]))
    ensures var u := ToUpper(t); NoLowerCase(u) && (u == [] || (!IsTrimmed(u[0]) && !IsTrimmed(u[|u| - 1])))
  {
    UpperHasNoLower(t);
  }

  /** Trimming, upper-casing and removing spaces leaves no space, no lower-case letter, no trimmable end. */
  lemma SpaceFreeUpperTrimmed(s: string)
    ensures var n := RemoveChar(ToUpper(Trim(s)), ' ');
            ' ' !in n && NoLowerCase(n) && (n == [] || (!IsTrimmed(n[0]) && !IsTrimmed(n[|n| - 1])))
  {
    var u := ToUpper(Trim(s));
    UpperKeepsEnds(Trim(s));
    RemoveCharHasNoLower(u, ' ');
    SpacesRemovedEnds(u);
  }

  /** The '-' rule turns a space-free, upper-case text with untrimmable ends into the normal form. */
  lemma DashRuleIsNormal(n: string)
    requires ' ' !in n && NoLowerCase(n) && (n == [] || (!IsTrimmed(n[0]) && !IsTrimmed(n[|n| - 1])))
    ensures IsNormalCedula(if '-' !in n && |n| > 1 then [n[0]] + "-" + n[1..] else n)
  {
    if '-' !in n && |n| > 1 {
      DashInsertedIsNormal(n);
    }
  }

  /** Every normalised cédula has the normal form. */
  lemma NormalizedIsNormal(s: string)
    ensures IsNormalCedula(NormalizarCedula(Some(s)).value)
  {
    SpaceFreeUpperTrimmed(s);
    DashRuleIsNormal(RemoveChar(ToUpper(Trim(s)), ' '));
  }

  /** A cédula in normal form is left unchanged. */
  lemma NormalIsFixed(m: string)
    requires IsNormalCedula(m)
    ensures NormalizarCedula(Some(m)) == Some(m)
  {
    TrimOfTrimmed(m);
    assert ToUpper(m) == m;
    RemoveCharAbsent(m, ' ');
  }

  /** normalizarCedula is idempotent. */
  lemma NormalizarCedulaIdempotent(cedula: Option<string>)
    ensures NormalizarCedula(NormalizarCedula(cedula)) == NormalizarCedula(cedula)
  {
    if cedula.Some? {
      NormalizedIsNormal(cedula.value);
      NormalIsFixed(NormalizarCedula(cedula).value);
    }
  }

  /** The cédula validator reports the errors of notEmpty, then those of the pattern check. */
  lemma CedulaErrors(n: Value)
    ensures RuleErrors(CedulaField, CedulaRules, n) ==
              CheckErrors(CedulaField, NotEmpty, n) + CheckErrors(CedulaField, Matches(CedulaPattern, CedulaFormatMessage), n)
  {
    RuleErrorsOfTwo(CedulaField, NotEmpty, Matches(CedulaPattern, CedulaFormatMessage), n);
  }

  /** The cédula validator passes exactly on a present value that matches the pattern. */
  lemma CedulaRulesPass(n: Value)
    ensures RunRules(CedulaField, CedulaRules, n).valid <==> n.Some? && IsCedula(n.value)
  {
    CedulaErrors(n);
    if n.Some? && IsCedula(n.value) {
      BlankIffAllTrimmable(n.value);
    }
  }

  /** The result validarYNormalizarCedula promises: the normalised value, or the validator's errors. */
  function CedulaOutcome(cedula: Option<string>): Result<Option<string>, ValidationException> {
    var n := NormalizarCedula(cedula);
    match ThrowIfInvalid(RunRules(CedulaField, CedulaRules, n))
    case Some(e) => Failure(e)
    case None => Success(n)
  }

  /** validarYNormalizarCedula: normalise, run a fresh cédula validator, throw if it fails. */
  method ValidarYNormalizarCedula(cedula: Option<string>) returns (r: Result<Option<string>, ValidationException>)
    ensures r == CedulaOutcome(cedula)
  {
    var normalized := NormalizarCedula(cedula);
    var validator := CedulaValidator();
    var result := validator.Validate(normalized);
    var thrown := ThrowIfInvalid(result);
    r := if thrown.Some? then Failure(thrown.value) else Success(normalized);
  }

  /** A cédula is accepted exactly when it is present and its normalised form matches the pattern. */
  lemma CedulaAcceptedIff(cedula: Option<string>)
    ensures CedulaOutcome(cedula).Success? <==> cedula.Some? && IsCedula(NormalizarCedula(cedula).value)
    ensures CedulaOutcome(cedula).Success? ==> CedulaOutcome(cedula).value == NormalizarCedula(cedula)
  {
    CedulaRulesPass(NormalizarCedula(cedula));
  }

  /** V-12345678 or E-1234567: an upper-case letter, '-', then seven or eight digits. */
  predicate IsCanonicalCedula(s: string) {
    (|s| == 9 || |s| == 10) && (s[0] == 'V' || s[0] == 'E') && s[1] == '-' && AllDigits(s[2..])
  }

  /** A normal-form text that matches the cédula pattern is canonical. */
  lemma NormalMatchIsCanonical(m: string)
    requires IsNormalCedula(m) && IsCedula(m)
    ensures IsCanonicalCedula(m)
  {
    DashOnlySecond(m);
  }

  /** In a text the cédula pattern matches, a '-' can only stand second. */
  lemma DashOnlySecond(m: string)
    requires IsCedula(m)
    ensures |m| >= 2 && (m[1] != '-' ==> '-' !in m)
  {
    if m[1] != '-' {
      DigitsExclude(m[1..], '-');
      assert m == [m[0]] + m[1..];
    }
  }

  /** Every cédula validarYNormalizarCedula returns has the canonical form. */
  lemma CedulaAcceptedIsCanonical(cedula: Option<string>)
    requires CedulaOutcome(cedula).Success?
    ensures CedulaOutcome(cedula).value.Some? && IsCanonicalCedula(CedulaOutcome(cedula).value.value)
  {
    CedulaAcceptedIff(cedula);
    NormalizedIsNormal(cedula.value);
    NormalMatchIsCanonical(NormalizarCedula(cedula).value);
  }

  /** Normalising a text that trimming leaves alone, that upper-casing maps to u, and u holds no space. */
  lemma NormalizeSteps(s: string, u: string)
    requires Trim(s) == s && ToUpper(s) == u && RemoveChar(u, ' ') == u
    ensures NormalizarCedula(Some(s)) == Some(if '-' !in u && |u| > 1 then [u[0]] + "-" + u[1..] else u)
  {
  }

  /** An optional '-' then digits: no char is a space or a lower-case letter. */
  lemma DashThenDigits(dash: string, digits: string)
    requires dash == "" || dash == "-"
    requires AllDigits(digits)
    ensures forall i :: 0 <= i < |dash + digits| ==> (dash + digits)[i] != ' ' && !('a' <= (dash + digits)[i] <= 'z')
  {
    if dash == "" {
      assert dash + digits == digits;
    } else {
      forall i | 0 <= i < |dash + digits|
        ensures (dash + digits)[i] != ' ' && !('a' <= (dash + digits)[i] <= 'z')
      {
        if i > 0 {
          assert (dash + digits)[i] == digits[i - 1];
        }
      }
    }
  }

  /** Upper-casing changes the first char only when the others are not lower-case. */
  lemma UpperOfFirst(s: string)
    requires s != []
    requires forall i :: 1 <= i < |s| ==> !('a' <= s[i] <= 'z')
    ensures ToUpper(s) == [UpperChar(s[0])] + s[1..]
  {
    assert forall i :: 0 <= i < |s[1..]| ==> s[1..][i] == s[i + 1];
    UpperOfUpper(s[1..]);
  }

  /** A text with untrimmable ends whose first char is not lower-case or a space and whose others are neither. */
  predicate UpperReady(s: string) {
    s != [] && !IsTrimmed(s[0]) && !IsTrimmed(s[|s| - 1]) && UpperChar(s[0]) != ' ' &&
    forall i :: 1 <= i < |s| ==> s[i] != ' ' && !('a' <= s[i] <= 'z')
  }

  /** Such a text is only upper-cased at its first char, then the '-' rule applies. */
  lemma NormalizeUpperReady(s: string)
    requires UpperReady(s)
    ensures var u := [UpperChar(s[0])] + s[1..];
            NormalizarCedula(Some(s)) == Some(if '-' !in u && |u| > 1 then [u[0]] + "-" + u[1..] else u)
  {
    var u := [UpperChar(s[0])] + s[1..];
    TrimOfTrimmed(s);
    UpperOfFirst(s);
    forall i | 0 <= i < |u|
      ensures u[i] != ' '
    {
      if i > 0 {
        assert u[i] == s[i];
      }
    }
    RemoveCharAbsentAt(u, ' ');
    NormalizeSteps(s, u);
  }

  /** A letter V or E of either case, an optional '-' and digits is ready for upper-casing. */
  lemma CedulaShapeReady(letter: char, dash: string, digits: string)
    requires IsCedulaLetter(letter) && (dash == "" || dash == "-")
    requires |digits| >= 1 && AllDigits(digits)
    ensures UpperReady([letter] + (dash + digits))
  {
    var rest := dash + digits;
    var s := [letter] + rest;
    DashThenDigits(dash, digits);
    assert s[|s| - 1] == digits[|digits| - 1];
    forall i | 1 <= i < |s|
      ensures s[i] != ' ' && !('a' <= s[i] <= 'z')
    {
      assert s[i] == rest[i - 1];
    }
  }

  /**
   * A letter V or E of either case, an optional '-' and digits: trimming
   * keeps it, upper-casing changes the letter only, and no space is
   * removed, so only the '-' rule is left to apply.
   */
  lemma CedulaShapeSteps(letter: char, dash: string, digits: string)
    requires IsCedulaLetter(letter) && (dash == "" || dash == "-")
    requires |digits| >= 1 && AllDigits(digits)
    ensures var u := [UpperChar(letter)] + (dash + digits);
            NormalizarCedula(Some([letter] + (dash + digits))) == Some(if '-' !in u && |u| > 1 then [u[0]] + "-" + u[1..] else u)
  {
    var s := [letter] + (dash + digits);
    assert s[0] == letter && s[1..] == dash + digits;
    CedulaShapeReady(letter, dash, digits);
    NormalizeUpperReady(s);
  }

  /** A char that is not '-' followed by digits holds no '-'. */
  lemma NoDashBeforeDigits(c: char, digits: string)
    requires c != '-' && AllDigits(digits)
    ensures '-' !in [c] + digits
  {
    DigitsExclude(digits, '-');
  }

  /** The '-' rule on a char other than '-', an optional '-' and digits puts exactly one '-' after the char. */
  lemma DashRuleOnShape(c: char, dash: string, digits: string)
    requires c != '-' && (dash == "" || dash == "-")
    requires |digits| >= 1 && AllDigits(digits)
    ensures var u := [c] + (dash + digits);
            (if '-' !in u && |u| > 1 then [u[0]] + "-" + u[1..] else u) == [c, '-'] + digits
  {
    var u := [c] + (dash + digits);
    if dash == "" {
      assert dash + digits == digits;
      NoDashBeforeDigits(c, digits);
      assert [u[0]] + "-" + u[1..] == [c, '-'] + digits;
    } else {
      assert u[1] == '-';
      assert '-' in u;
      assert u == [c, '-'] + digits;
    }
  }

  /** A letter V or E of either case, an optional '-' and the digits normalise to the upper-case letter, '-', the digits. */
  lemma CedulaShapeNormalizes(letter: char, dash: string, digits: string)
    requires IsCedulaLetter(letter) && (dash == "" || dash == "-")
    requires |digits| >= 1 && AllDigits(digits)
    ensures NormalizarCedula(Some([letter] + dash + digits)) == Some([UpperChar(letter), '-'] + digits)
  {
    assert [letter] + dash + digits == [letter] + (dash + digits);
    DashRuleOnShape(UpperChar(letter), dash, digits);
    CedulaShapeSteps(letter, dash, digits);
  }

  /** A letter V or E of either case, an optional '-' and seven or eight digits: accepted, as the canonical form. */
  lemma CedulaShapesAccepted(letter: char, dash: string, digits: string)
    requires IsCedulaLetter(letter) && (dash == "" || dash == "-")
    requires (|digits| == 7 || |digits| == 8) && AllDigits(digits)
    ensures CedulaOutcome(Some([letter] + dash + digits)) == Success(Some([UpperChar(letter), '-'] + digits))
  {
    var m := [UpperChar(letter), '-'] + digits;
    CedulaShapeNormalizes(letter, dash, digits);
    assert m[2..] == digits;
    assert IsCedula(m);
    CedulaAcceptedIff(Some([letter] + dash + digits));
  }

  /** A null cédula gives one error, "not empty": the pattern check skips null. */
  lemma NullCedulaOneError()
    ensures CedulaOutcome(None) == Failure(FromErrors([ValidationError(CedulaField, "Este campo no puede estar vacío")]))
  {
    var errors := [ValidationError(CedulaField, "Este campo no puede estar vacío")];
    CedulaErrors(None);
    assert CheckErrors(CedulaField, NotEmpty, None) == errors;
    assert CheckErrors(CedulaField, Matches(CedulaPattern, CedulaFormatMessage), None) == [];
    assert RunRules(CedulaField, CedulaRules, None) == InvalidWith(errors);
  }

  /** A blank cédula gives two errors: "not empty", then the format. */
  lemma BlankCedulaTwoErrors(s: string)
    requires IsBlank(s)
    ensures CedulaOutcome(Some(s)) == Failure(FromErrors([ValidationError(CedulaField, "Este campo no puede estar vacío"),
                                                          ValidationError(CedulaField, CedulaFormatMessage)]))
  {
    var errors := [ValidationError(CedulaField, "Este campo no puede estar vacío"),
                   ValidationError(CedulaField, CedulaFormatMessage)];
    assert NormalizarCedula(Some(s)) == Some("");
    assert IsBlank("");
    CedulaErrors(Some(""));
    assert CheckErrors(CedulaField, NotEmpty, Some("")) == errors[..1];
    assert CheckErrors(CedulaField, Matches(CedulaPattern, CedulaFormatMessage), Some("")) == errors[1..];
    assert RunRules(CedulaField, CedulaRules, Some("")) == InvalidWith(errors);
  }

  /** normalizarTelefono: null when null or blank; else trimmed, \s removed, '-' after four chars when 11 long with none. */
  function NormalizarTelefono(telefono: Option<string>): (r: Option<string>)
    ensures r.None? <==> telefono.None? || IsBlank(telefono.value)
  {
    if telefono.None? || IsBlank(telefono.value) then None
    else
      var n := RemoveRegexSpaces(Trim(telefono.value));
      Some(if '-' !in n && |n| == 11 then n[..4] + "-" + n[4..] else n)
  }

  /** A number that is not blank normalises to a text that is not blank either. */
  lemma NormalizedTelefonoNotBlank(t: string)
    requires !IsBlank(t)
    ensures !IsBlank(NormalizarTelefono(Some(t)).value)
  {
    var trimmed := Trim(t);
    var n := RemoveRegexSpaces(trimmed);
    assert trimmed != [] && !IsRegexSpace(trimmed[0]);
    assert n == [trimmed[0]] + RemoveRegexSpaces(trimmed[1..]);
    var m := NormalizarTelefono(Some(t)).value;
    if '-' !in n && |n| == 11 {
      assert m == n[..4] + "-" + n[4..];
      assert m[0] == n[0];
    } else {
      assert m == n;
    }
    StartKeptNotBlank(m);
  }

  /**
   * validarYNormalizarTelefono: null for a null or blank number, without
   * validating; otherwise the normalised number, or the validator's error.
   */
  function ValidarYNormalizarTelefono(telefono: Option<string>): (r: Result<Option<string>, ValidationException>)
    ensures telefono.None? || IsBlank(telefono.value) ==> r == Success(None)
    ensures r.Success? && r.value.Some? ==> r.value == NormalizarTelefono(telefono)
    ensures r.Failure? ==> r.error.errors == [ValidationError(TelefonoField, TelefonoFormatMessage)]
  {
    if telefono.None? || IsBlank(telefono.value) then Success(None)
    else
      var normalized := NormalizarTelefono(telefono);
      match ThrowIfInvalid(TelefonoValidator()(normalized))
      case Some(e) => Failure(e)
      case None => Success(normalized)
  }

  /** A number is accepted exactly when it is null, blank, or its normalised form matches the pattern. */
  lemma TelefonoAcceptedIff(telefono: Option<string>)
    ensures ValidarYNormalizarTelefono(telefono).Success? <==>
              telefono.None? || IsBlank(telefono.value) || IsTelefono(NormalizarTelefono(telefono).value)
  {
    if telefono.Some? && !IsBlank(telefono.value) {
      NormalizedTelefonoNotBlank(telefono.value);
    }
  }

  /** 0412-1234567: '0', a listed area code, '-', seven digits. */
  predicate IsCanonicalTelefono(s: string) {
    |s| == 12 && s[0] == '0' && IsAreaCode(s[1..4]) && s[4] == '-' && AllDigits(s[5..])
  }

  /** A space-free number, dashed when 11 long without '-', that matches the pattern is canonical. */
  lemma DashedMatchIsCanonical(n: string)
    requires forall i :: 0 <= i < |n| ==> !IsRegexSpace(n[i])
    requires var m := if '-' !in n && |n| == 11 then n[..4] + "-" + n[4..] else n; IsTelefono(m)
    ensures IsCanonicalTelefono(if '-' !in n && |n| == 11 then n[..4] + "-" + n[4..] else n)
  {
    var inserted := '-' !in n && |n| == 11;
    var m := if inserted then n[..4] + "-" + n[4..] else n;
    if m[4] != '-' {
      assert !inserted;
      assert !IsRegexSpace(m[4]);
      assert AllDigits(m[4..]) && |m| == 11;
      forall i | 0 <= i < |m|
        ensures m[i] != '-'
      {
        if 1 <= i < 4 {
          assert m[i] == m[1..4][i - 1];
        } else if 4 <= i {
          assert m[i] == m[4..][i - 4];
        }
      }
      assert false;
    }
  }

  /** Every number validarYNormalizarTelefono returns has the canonical 12-char form. */
  lemma TelefonoAcceptedIsCanonical(telefono: Option<string>)
    requires ValidarYNormalizarTelefono(telefono).Success? && ValidarYNormalizarTelefono(telefono).value.Some?
    ensures IsCanonicalTelefono(ValidarYNormalizarTelefono(telefono).value.value)
  {
    TelefonoAcceptedIff(telefono);
    DashedMatchIsCanonical(RemoveRegexSpaces(Trim(telefono.value)));
  }

  /** An accepted number is stored as none exactly when it is blank, and otherwise in canonical form. */
  lemma TelefonoAcceptedShape(t: string)
    requires ValidarYNormalizarTelefono(Some(t)).Success?
    ensures var r := ValidarYNormalizarTelefono(Some(t)).value;
      (r.None? <==> IsBlank(t)) && (r.Some? ==> IsCanonicalTelefono(r.value))
  {
    if !IsBlank(t) {
      NormalizedTelefonoNotBlank(t);
      TelefonoAcceptedIsCanonical(Some(t));
    }
  }

  /** Normalising a number that is not blank and whose trimmed, \s-free form is n. */
  lemma NormalizeTelefonoSteps(t: string, n: string)
    requires !IsBlank(t) && RemoveRegexSpaces(Trim(t)) == n
    ensures NormalizarTelefono(Some(t)) == Some(if '-' !in n && |n| == 11 then n[..4] + "-" + n[4..] else n)
  {
  }

  /** '0' then a listed area code: four digits. */
  lemma AreaCodeHead(code: string)
    requires IsAreaCode(code)
    ensures |"0" + code| == 4 && AllDigits("0" + code)
  {
    AllDigitsAppend("0", code);
  }

  /** '0', an area code, a separator and digits is neither blank nor trimmable at its ends. */
  lemma TelefonoShapeTrimmed(code: string, sep: string, digits: string)
    requires IsAreaCode(code) && |digits| == 7 && AllDigits(digits)
    ensures !IsBlank("0" + code + sep + digits)
    ensures Trim("0" + code + sep + digits) == "0" + code + sep + digits
  {
    var s := "0" + code + sep + digits;
    assert s[0] == '0';
    assert s[|s| - 1] == digits[6];
    StartKeptNotBlank(s);
    TrimOfTrimmed(s);
  }

  /** A one-char separator loses its \s char and keeps its '-'. */
  lemma SeparatorSpacesRemoved(sep: string)
    requires sep == "" || sep == "-" || (|sep| == 1 && IsRegexSpace(sep[0]))
    ensures RemoveRegexSpaces(sep) == (if sep == "-" then "-" else "")
  {
  }

  /** Removing \s from '0', an area code, a separator and digits leaves the digits and any '-'. */
  lemma TelefonoShapeSpacesRemoved(code: string, sep: string, digits: string)
    requires IsAreaCode(code) && |digits| == 7 && AllDigits(digits)
    requires sep == "" || sep == "-" || (|sep| == 1 && IsRegexSpace(sep[0]))
    ensures RemoveRegexSpaces(Trim("0" + code + sep + digits)) == "0" + code + (if sep == "-" then "-" else "") + digits
  {
    var head := "0" + code;
    TelefonoShapeTrimmed(code, sep, digits);
    AreaCodeHead(code);
    RemoveRegexSpacesAbsent(head);
    RemoveRegexSpacesAbsent(digits);
    SeparatorSpacesRemoved(sep);
    RemoveRegexSpacesAppend(head + sep, digits);
    RemoveRegexSpacesAppend(head, sep);
  }

  /** Four digits, an optional '-' and seven digits end up with the '-' after the fourth. */
  lemma TelefonoDashRule(head: string, mid: string, digits: string)
    requires |head| == 4 && AllDigits(head) && |digits| == 7 && AllDigits(digits)
    requires mid == "" || mid == "-"
    ensures var n := head + mid + digits;
            (if '-' !in n && |n| == 11 then n[..4] + "-" + n[4..] else n) == head + "-" + digits
  {
    var n := head + mid + digits;
    if mid == "" {
      assert n == head + digits;
      AllDigitsAppend(head, digits);
      DigitsExclude(n, '-');
      assert n[..4] == head && n[4..] == digits;
    } else {
      assert n[4] == '-';
    }
  }

  /** '0', a listed area code, then '-', one \s char or nothing, then seven digits normalise to the dashed form. */
  lemma TelefonoShapeNormalizes(code: string, sep: string, digits: string)
    requires IsAreaCode(code) && |digits| == 7 && AllDigits(digits)
    requires sep == "" || sep == "-" || (|sep| == 1 && IsRegexSpace(sep[0]))
    ensures !IsBlank("0" + code + sep + digits)
    ensures NormalizarTelefono(Some("0" + code + sep + digits)) == Some("0" + code + "-" + digits)
  {
    var mid := if sep == "-" then "-" else "";
    AreaCodeHead(code);
    TelefonoDashRule("0" + code, mid, digits);
    TelefonoShapeTrimmed(code, sep, digits);
    TelefonoShapeSpacesRemoved(code, sep, digits);
    NormalizeTelefonoSteps("0" + code + sep + digits, "0" + code + mid + digits);
  }

  /** A number that is not blank, normalises to m, and m matches the pattern: accepted as m. */
  lemma TelefonoAcceptedSteps(t: string, m: string)
    requires !IsBlank(t) && NormalizarTelefono(Some(t)) == Some(m) && IsTelefono(m)
    ensures ValidarYNormalizarTelefono(Some(t)) == Success(Some(m))
  {
  }

  /** The dashed form matches the telephone pattern. */
  lemma DashedTelefonoMatches(code: string, digits: string)
    requires IsAreaCode(code) && |digits| == 7 && AllDigits(digits)
    ensures IsTelefono("0" + code + "-" + digits)
  {
    var m := "0" + code + "-" + digits;
    assert m[1..4] == code && m[4] == '-' && m[5..] == digits;
  }

  /** The accepted number shapes: 0, an area code, then '-', one \s char or nothing, then seven digits. */
  lemma TelefonoShapesAccepted(code: string, sep: string, digits: string)
    requires IsAreaCode(code) && |digits| == 7 && AllDigits(digits)
    requires sep == "" || sep == "-" || (|sep| == 1 && IsRegexSpace(sep[0]))
    ensures ValidarYNormalizarTelefono(Some("0" + code + sep + digits)) == Success(Some("0" + code + "-" + digits))
  {
    TelefonoShapeNormalizes(code, sep, digits);
    DashedTelefonoMatches(code, digits);
    TelefonoAcceptedSteps("0" + code + sep + digits, "0" + code + "-" + digits);
  }

  /** The name validator reports, in order, the errors of notEmpty, minLength, maxLength and the pattern. */
  lemma NombreErrors(n: Value)
    ensures RuleErrors(NombreField, NombreRules, n) ==
              CheckErrors(NombreField, NotEmpty, n) + CheckErrors(NombreField, MinLength(3), n) +
              CheckErrors(NombreField, MaxLength(100), n) + CheckErrors(NombreField, Matches(NombrePattern, NombreFormatMessage), n)
  {
    RuleErrorsOfFour(NombreField, NotEmpty, MinLength(3), MaxLength(100), Matches(NombrePattern, NombreFormatMessage), n);
  }

  /** The name validator reports no error exactly on a non-blank name of 3 to 100 letters and \s chars. */
  lemma NombreRulesPass(n: Value)
    ensures RuleErrors(NombreField, NombreRules, n) == [] <==>
              n.Some? && !IsBlank(n.value) && 3 <= |n.value| <= 100 && IsNombre(n.value)
  {
    NombreErrors(n);
    NotEmptyPasses(NombreField, n);
    MinLengthPasses(NombreField, 3, n);
    MaxLengthPasses(NombreField, 100, n);
    MatchesPasses(NombreField, NombrePattern, NombreFormatMessage, n);
  }

  /** The result validarNombre promises: nothing, or the validator's errors. */
  function NombreOutcome(nombre: Option<string>): Option<ValidationException> {
    ThrowIfInvalid(RunRules(NombreField, NombreRules, nombre))
  }

  /** validarNombre: run a fresh name validator and throw if it fails. */
  method ValidarNombre(nombre: Option<string>) returns (thrown: Option<ValidationException>)
    ensures thrown == NombreOutcome(nombre)
  {
    var validator := NombreValidator();
    var result := validator.Validate(nombre);
    thrown := ThrowIfInvalid(result);
  }

  /** A name is accepted exactly when it is non-blank, 3 to 100 chars long, and only letters and \s. */
  lemma NombreAcceptedIff(nombre: Option<string>)
    ensures NombreOutcome(nombre).None? <==>
              nombre.Some? && !IsBlank(nombre.value) && 3 <= |nombre.value| <= 100 && IsNombre(nombre.value)
  {
    NombreRulesPass(nombre);
  }

  const EmptyNombreErrors := [ValidationError(NombreField, "Este campo no puede estar vacío"),
                               ValidationError(NombreField, "Debe tener al menos 3 caracteres"),
                               ValidationError(NombreField, NombreFormatMessage)]

  /** The minimum-length message for 3. */
  lemma MinLengthMessageOfThree()
    ensures "Debe tener al menos " + IntToString(3) + " caracteres" == "Debe tener al menos 3 caracteres"
  {
    assert DigitChar(3) == '3';
    assert NatToString(3) == "3";
  }

  /** On an empty name, notEmpty, minLength(3) and the pattern fail; maxLength(100) passes. */
  lemma EmptyNombreChecks()
    ensures RuleErrors(NombreField, NombreRules, Some("")) == EmptyNombreErrors
  {
    EmptyNombreNotEmpty();
    EmptyNombreMinLength();
    EmptyNombreMaxLength();
    EmptyNombreMatches();
    NombreErrors(Some(""));
  }

  /** notEmpty fails on an empty name. */
  lemma EmptyNombreNotEmpty()
    ensures CheckErrors(NombreField, NotEmpty, Some("")) == [EmptyNombreErrors[0]]
  {
    EmptyIsBlank();
    NotEmptyFailsOnBlank(NombreField, "");
  }

  /** minLength(3) fails on an empty name. */
  lemma EmptyNombreMinLength()
    ensures CheckErrors(NombreField, MinLength(3), Some("")) == [EmptyNombreErrors[1]]
  {
    MinLengthFailsOnShort(NombreField, 3, "");
    MinLengthMessageOfThree();
  }

  /** maxLength(100) passes on an empty name. */
  lemma EmptyNombreMaxLength()
    ensures CheckErrors(NombreField, MaxLength(100), Some("")) == []
  {
    MaxLengthPasses(NombreField, 100, Some(""));
  }

  /** The name pattern fails on an empty name. */
  lemma EmptyNombreMatches()
    ensures CheckErrors(NombreField, Matches(NombrePattern, NombreFormatMessage), Some("")) == [EmptyNombreErrors[2]]
  {
    assert !IsNombre("");
    MatchesFailsOnMismatch(NombreField, NombrePattern, NombreFormatMessage, "");
  }

  /** An empty name fails three checks, reported in order: empty, too short, not letters. */
  lemma EmptyNombreThreeErrors()
    ensures NombreOutcome(Some("")) == Some(FromErrors(EmptyNombreErrors))
  {
    EmptyNombreChecks();
  }
}
