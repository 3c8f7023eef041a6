/**
 * Validation results and the validation exception: the error record
 * (field, message), the immutable result of one validation, and the
 * exception that carries a list of errors together with the message
 * built from them.
 */
module Validation {
  import opened Wrappers
  import opened JavaText

  /** ValidationException.ValidationError: the field that failed and why. */
  datatype ValidationError = ValidationError(field: string, message: string) {
    /** toString(): the field, a colon and a space, then the message. */
    function ToString(): (s: string)
      ensures |s| == |field| + 2 + |message|
      ensures s[..|field|] == field && s[|field|..|field| + 2] == ": " && s[|field| + 2..] == message
    {
      field + ": " + message
    }
  }

  /**
   * Two strings that both split at their first occurrence of sep agree
   * on the parts before and after it.
   */
  lemma {:induction false} SplitAtFirst(a: string, x: string, c: string, y: string, sep: char)
    requires sep !in a && sep !in c
    requires a + [sep] + x == c + [sep] + y
    ensures a == c && x == y
  {
    var s := a + [sep] + x;
    assert s[|a|] == sep;
    assert s[|c|] == sep;
    assert |a| == |c|;
    assert a == s[..|a|] == c;
    assert x == s[|a| + 1..] == y;
  }

  /** When fields hold no colon, an error's text determines the error. */
  lemma ToStringDeterminesError(a: ValidationError, b: ValidationError)
    requires ':' !in a.field && ':' !in b.field
    requires a.ToString() == b.ToString()
    ensures a == b
  {
    assert a.ToString() == a.field + [':'] + (" " + a.message);
    assert b.ToString() == b.field + [':'] + (" " + b.message);
    SplitAtFirst(a.field, " " + a.message, b.field, " " + b.message, ':');
    assert a.message == (" " + a.message)[1..];
    assert b.message == (" " + b.message)[1..];
  }

  /** ValidationResult: whether the validation passed, and its errors, stored as given. */
  datatype ValidationResult = ValidationResult(valid: bool, errors: seq<ValidationError>)

  /** valid(): passed, no errors, so throwIfInvalid has nothing to throw. */
  function Valid(): (r: ValidationResult)
    ensures r.valid && r.errors == []
    ensures ThrowIfInvalid(r).None?
  {
    ValidationResult(true, [])
  }

  /**
   * invalid(field, message): failed with exactly that one error; what
   * throwIfInvalid throws for it is the field exception for that error.
   */
  function Invalid(field: string, message: string): (r: ValidationResult)
    ensures !r.valid && r.errors == [ValidationError(field, message)]
    ensures ThrowIfInvalid(r) == Some(ForField(field, message))
  {
    ValidationResult(false, [ValidationError(field, message)])
  }

  /**
   * invalid(errors): failed with exactly that list, even an empty one;
   * throwIfInvalid throws the list exception for it.
   */
  function InvalidWith(errors: seq<ValidationError>): (r: ValidationResult)
    ensures !r.valid && r.errors == errors
    ensures ThrowIfInvalid(r) == Some(FromErrors(errors))
  {
    ValidationResult(false, errors)
  }

  /** ValidationException: the message it was built with and its own copy of the errors. */
  datatype ValidationException = ValidationException(message: string, errors: seq<ValidationError>) {
    /** hasErrors(): whether the list is not empty. */
    predicate HasErrors() {
      errors != []
    }

    /** getErrorCount(): the size of the list; zero exactly when there are no errors. */
    function ErrorCount(): (n: nat)
      ensures n == 0 <==> !HasErrors()
    {
      |errors|
    }
  }

  /** "Campo '<field>': <message>", the text of a single-field error. */
  function FieldMessage(field: string, message: string): string {
    "Campo '" + field + "': " + message
  }

  /** One line of the many-errors message. */
  function ErrorLine(e: ValidationError): string {
    "  - " + e.field + ": " + e.message + "\n"
  }

  /** The lines of the many-errors message, in the order of the errors. */
  function ErrorLines(errors: seq<ValidationError>): string {
    if errors == [] then "" else ErrorLines(errors[..|errors| - 1]) + ErrorLine(errors[|errors| - 1])
  }

  const ManyErrorsHeader := "Errores de validación:\n"

  /** The exception message buildMessage produces for a list of errors. */
  function MessageFor(errors: seq<ValidationError>): string {
    if errors == [] then "Error de validación"
    else if |errors| == 1 then FieldMessage(errors[0].field, errors[0].message)
    else ManyErrorsHeader + ErrorLines(errors)
  }

  /** buildMessage: the StringBuilder loop over the errors. */
  method BuildMessage(errors: seq<ValidationError>) returns (s: string)
    ensures s == MessageFor(errors)
  {
    if errors == [] {
      return "Error de validación";
    }
    if |errors| == 1 {
      var error := errors[0];
      return FieldMessage(error.field, error.message);
    }
    s := ManyErrorsHeader;
    for i := 0 to |errors|
      invariant s == ManyErrorsHeader + ErrorLines(errors[..i])
    {
      assert errors[..i + 1][..i] == errors[..i];
      s := s + ErrorLine(errors[i]);
    }
    assert errors[..|errors|] == errors;
  }

  /** The lines of two lists of errors are the lines of the first, then of the second. */
  lemma {:induction false} ErrorLinesAppend(a: seq<ValidationError>, b: seq<ValidationError>)
    ensures ErrorLines(a + b) == ErrorLines(a) + ErrorLines(b)
    decreases |b|
  {
    if b != [] {
      var b' := b[..|b| - 1];
      assert (a + b)[..|a + b| - 1] == a + b';
      ErrorLinesAppend(a, b');
    } else {
      assert a + b == a;
    }
  }

  /** With two or more errors, every error has its own line in the message, in list order. */
  lemma ManyErrorsListsEach(errors: seq<ValidationError>, i: int)
    requires |errors| >= 2 && 0 <= i < |errors|
    ensures OccursAt(MessageFor(errors), ErrorLine(errors[i]),
                     |ManyErrorsHeader| + |ErrorLines(errors[..i])|)
  {
    assert errors == errors[..i] + [errors[i]] + errors[i + 1..];
    ErrorLinesAppend(errors[..i] + [errors[i]], errors[i + 1..]);
    ErrorLinesAppend(errors[..i], [errors[i]]);
    assert [errors[i]][..0] == [];
    var pre := ManyErrorsHeader + ErrorLines(errors[..i]);
    assert MessageFor(errors) == pre + ErrorLine(errors[i]) + ErrorLines(errors[i + 1..]);
  }

  /**
   * ValidationException(message): the message as given and one error under
   * the field "general"; unlike the other constructors, the message is not
   * the one buildMessage would give that error.
   */
  function FromMessage(message: string): (e: ValidationException)
    ensures e.errors == [ValidationError("general", message)] && e.message == message
    ensures e.HasErrors() && e.ErrorCount() == 1
    ensures e.message != MessageFor(e.errors)
  {
    ValidationException(message, [ValidationError("general", message)])
  }

  /** ValidationException(field, message): one error; its message is the one buildMessage gives that error. */
  function ForField(field: string, message: string): (e: ValidationException)
    ensures e.message == MessageFor(e.errors)
    ensures e.ErrorCount() == 1 && e.errors[0] == ValidationError(field, message)
  {
    ValidationException(FieldMessage(field, message), [ValidationError(field, message)])
  }

  /** ValidationException(errors): the message buildMessage builds from the list, and a copy of it. */
  function FromErrors(errors: seq<ValidationError>): (e: ValidationException)
    ensures e.message == MessageFor(errors)
    ensures e.HasErrors() <==> errors != []
    ensures e.ErrorCount() == |errors| && e.errors == errors
  {
    ValidationException(MessageFor(errors), errors)
  }

  /** throwIfInvalid: the exception carrying the result's errors, exactly when it did not pass. */
  function ThrowIfInvalid(r: ValidationResult): (o: Option<ValidationException>)
    ensures o.Some? <==> !r.valid
    ensures o.Some? ==> o.value.errors == r.errors && o.value.message == MessageFor(r.errors)
  {
    if !r.valid then Some(FromErrors(r.errors)) else None
  }

  /** requiredField(field): one error for the field, and the message buildMessage gives it. */
  function RequiredField(field: string): (e: ValidationException)
    ensures e.errors == [ValidationError(field, "Este campo es obligatorio")]
    ensures e.message == MessageFor(e.errors)
  {
    ForField(field, "Este campo es obligatorio")
  }

  /** invalidFormat(field, expected): one error for the field naming the expected format. */
  function InvalidFormat(field: string, expected: string): (e: ValidationException)
    ensures e.ErrorCount() == 1 && e.errors[0].field == field
    ensures e.errors[0].message == "Formato inválido. Se espera: " + expected
    ensures e.message == MessageFor(e.errors)
  {
    ForField(field, "Formato inválido. Se espera: " + expected)
  }

  /** invalidLength(field, min, max): one error for the field naming both bounds. */
  function InvalidLength(field: string, min: int, max: int): (e: ValidationException)
    ensures e.ErrorCount() == 1 && e.errors[0].field == field
    ensures e.errors[0].message == "Debe tener entre " + IntToString(min) + " y " + IntToString(max) + " caracteres"
    ensures e.message == MessageFor(e.errors)
  {
    ForField(field, "Debe tener entre " + (IntToString(min) + " y " + IntToString(max)) + " caracteres")
  }

  /** The decimal rendering of a number holds no space. */
  lemma NoSpaceInNumber(n: int)
    ensures ' ' !in IntToString(n)
  {
    var d := NatToString(if n < 0 then -n else n);
    assert forall i :: 0 <= i < |d| ==> d[i] != ' ';
    if n < 0 {
      assert IntToString(n) == "-" + d;
    }
  }

  /** Two numbers joined by " y " can be read back from the text. */
  lemma RangeTextNamesBounds(min: int, max: int, min': int, max': int)
    requires IntToString(min) + " y " + IntToString(max) == IntToString(min') + " y " + IntToString(max')
    ensures min == min' && max == max'
  {
    var a, b := IntToString(min), IntToString(max);
    var c, d := IntToString(min'), IntToString(max');
    NoSpaceInNumber(min);
    NoSpaceInNumber(min');
    assert a + " y " + b == a + [' '] + ("y " + b);
    assert c + " y " + d == c + [' '] + ("y " + d);
    SplitAtFirst(a, "y " + b, c, "y " + d, ' ');
    assert b == ("y " + b)[2..];
    assert d == ("y " + d)[2..];
    IntToStringInjective(min, min');
    IntToStringInjective(max, max');
  }

  /** Equal texts with the same prefix and suffix have the same middle. */
  lemma {:induction false} SameMiddle(p: string, r: string, r': string, q: string)
    requires p + r + q == p + r' + q
    ensures r == r'
  {
    var m := p + r + q;
    assert r == m[|p|..|m| - |q|];
    assert r' == (p + r' + q)[|p|..|m| - |q|];
  }

  /** The length message names its bounds: different bounds give different messages. */
  lemma InvalidLengthNamesBounds(field: string, min: int, max: int, min': int, max': int)
    requires InvalidLength(field, min, max).errors == InvalidLength(field, min', max').errors
    ensures min == min' && max == max'
  {
    SameMiddle("Debe tener entre ", IntToString(min) + " y " + IntToString(max),
               IntToString(min') + " y " + IntToString(max'), " caracteres");
    RangeTextNamesBounds(min, max, min', max');
  }

  /** "• <message>" then sep: one item of an error dialog's bullet list. */
  function Bullet(e: ValidationError, sep: string): string {
    "• " + e.message + sep
  }

  /** The bullet list of an error dialog, one item per error, in order. */
  function Bullets(errors: seq<ValidationError>, sep: string): string {
    if errors == [] then "" else Bullets(errors[..|errors| - 1], sep) + Bullet(errors[|errors| - 1], sep)
  }

  /** The bullet list of two lists of errors is that of the first, then that of the second. */
  lemma {:induction false} BulletsAppend(a: seq<ValidationError>, b: seq<ValidationError>, sep: string)
    ensures Bullets(a + b, sep) == Bullets(a, sep) + Bullets(b, sep)
    decreases |b|
  {
    if b != [] {
      var b' := b[..|b| - 1];
      assert (a + b)[..|a + b| - 1] == a + b';
      BulletsAppend(a, b', sep);
    } else {
      assert a + b == a;
    }
  }

  /** Every error has its own item in the bullet list, after the items of the errors before it. */
  lemma BulletsListEach(errors: seq<ValidationError>, sep: string, i: int)
    requires 0 <= i < |errors|
    ensures OccursAt(Bullets(errors, sep), Bullet(errors[i], sep), |Bullets(errors[..i], sep)|)
  {
    assert errors == errors[..i] + [errors[i]] + errors[i + 1..];
    BulletsAppend(errors[..i] + [errors[i]], errors[i + 1..], sep);
    BulletsAppend(errors[..i], [errors[i]], sep);
    assert [errors[i]][..0] == [];
    var pre := Bullets(errors[..i], sep);
    assert Bullets(errors, sep) == pre + Bullet(errors[i], sep) + Bullets(errors[i + 1..], sep);
  }

  /** How many times c occurs in s. */
  function CountChar(s: string, c: char): nat {
    if s == [] then 0 else CountChar(s[..|s| - 1], c) + (if s[|s| - 1] == c then 1 else 0)
  }

  lemma {:induction false} CountCharAppend(s: string, t: string, c: char)
    ensures CountChar(s + t, c) == CountChar(s, c) + CountChar(t, c)
    decreases |t|
  {
    if t == [] {
      assert s + t == s;
    } else {
      assert (s + t)[..|s + t| - 1] == s + t[..|t| - 1];
      CountCharAppend(s, t[..|t| - 1], c);
    }
  }

  lemma {:induction false} CountCharAbsent(s: string, c: char)
    requires c !in s
    ensures CountChar(s, c) == 0
    decreases |s|
  {
    if s != [] {
      CountCharAbsent(s[..|s| - 1], c);
    }
  }

  /** An item whose message and separator hold no bullet has exactly one. */
  lemma BulletHasOne(e: ValidationError, sep: string)
    requires '•' !in sep && '•' !in e.message
    ensures CountChar(Bullet(e, sep), '•') == 1
  {
    assert Bullet(e, sep) == "• " + (e.message + sep);
    CountCharAppend("• ", e.message + sep, '•');
    CountCharAppend(e.message, sep, '•');
    CountCharAbsent(e.message, '•');
    CountCharAbsent(sep, '•');
    assert "• "[..1] == "•";
    assert "•"[..0] == "";
  }

  /** When neither the messages nor the separator hold a bullet, the list has one bullet per error. */
  lemma {:induction false} OneBulletPerError(errors: seq<ValidationError>, sep: string)
    requires '•' !in sep
    requires forall i :: 0 <= i < |errors| ==> '•' !in errors[i].message
    ensures CountChar(Bullets(errors, sep), '•') == |errors|
    decreases |errors|
  {
    if errors != [] {
      var init := errors[..|errors| - 1];
      OneBulletPerError(init, sep);
      CountCharAppend(Bullets(init, sep), Bullet(errors[|errors| - 1], sep), '•');
      BulletHasOne(errors[|errors| - 1], sep);
    }
  }
}
