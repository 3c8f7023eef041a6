/**
 * ToastNotification: the text of a toast, the default titles of the
 * one-argument overloads, and the toast that presents a
 * ValidationException. Showing is deferred to the event queue and only
 * happens when the owner component is displayable; here that is a
 * parameter, and the result is what would be shown, or None.
 */
module Toasts {
  import opened Wrappers
  import opened JavaText
  import opened Validation

  datatype ToastType = SuccessType | InfoType | WarningType | ErrorType

  /** A toast as it reaches the screen: a typed text, or a titled panel holding HTML. */
  datatype Shown =
    | Plain(kind: ToastType, text: Option<string>)
    | Custom(title: string, html: string)

  /** How `%s` renders a reference: its text, or "null". */
  function FormatArg(s: Option<string>): string {
    s.GetOr("null")
  }

  const TitledOpen := "<html><body style='width: 280px;'><b>"
  const TitledMiddle := "</b><br>"
  const TitledClose := "</body></html>"

  /** formatMessage(title, message): the message alone without a title, otherwise an HTML body with a bold title. */
  function FormatMessage(title: Option<string>, message: Option<string>): (r: Option<string>)
    ensures title.None? || IsBlank(title.value) ==> r == message
    ensures title.Some? && !IsBlank(title.value) ==>
              r == Some(TitledOpen + title.value + TitledMiddle + FormatArg(message) + TitledClose)
    ensures title.Some? && !IsBlank(title.value) ==>
              r.Some? && |r.value| > |title.value| + |FormatArg(message)|
  {
    if title.None? || IsBlank(title.value) then message
    else Some(TitledOpen + title.value + TitledMiddle + FormatArg(message) + TitledClose)
  }

  /** A title without '<' and the message can be read back from the formatted text. */
  lemma FormattedDeterminesParts(t: string, m: string, t': string, m': string)
    requires '<' !in t && '<' !in t'
    requires TitledOpen + t + TitledMiddle + m + TitledClose == TitledOpen + t' + TitledMiddle + m' + TitledClose
    ensures t == t' && m == m'
  {
    var x := "/b><br>" + m + TitledClose;
    var y := "/b><br>" + m' + TitledClose;
    assert TitledOpen + t + TitledMiddle + m + TitledClose == TitledOpen + (t + ['<'] + x);
    assert TitledOpen + t' + TitledMiddle + m' + TitledClose == TitledOpen + (t' + ['<'] + y);
    SameMiddle(TitledOpen, t + ['<'] + x, t' + ['<'] + y, "");
    SplitAtFirst(t, x, t', y, '<');
    SameMiddle("/b><br>", m, m', TitledClose);
  }

  /** show(owner, type, title, message): the formatted text, if the owner can display it. */
  function Show(displayable: bool, kind: ToastType, title: Option<string>, message: Option<string>): (r: Option<Shown>)
    ensures r.Some? <==> displayable
    ensures r.Some? ==> r.value == Plain(kind, FormatMessage(title, message))
  {
    if displayable then Some(Plain(kind, FormatMessage(title, message))) else None
  }

  /** The titles the one-argument overloads supply; each opens with a visible char. */
  function DefaultTitle(kind: ToastType): (t: string)
    ensures t != [] && !IsTrimmed(t[0])
  {
    match kind
    case SuccessType => "Éxito"
    case InfoType => "Información"
    case WarningType => "Advertencia"
    case ErrorType => "Error"
  }

  /** showSuccess/showInfo/showWarning/showError(owner, message): the typed show with the default title. */
  function ShowDefault(displayable: bool, kind: ToastType, message: Option<string>): (r: Option<Shown>)
    ensures r.Some? <==> displayable
    ensures r.Some? ==> r.value.Plain? && r.value.kind == kind && r.value.text.Some?
  {
    var t := DefaultTitle(kind);
    StartKeptNotBlank(t);
    Show(displayable, kind, Some(t), message)
  }

  /** A default title is never blank, so a toast of a one-argument overload always carries its title in bold. */
  lemma DefaultTitleShown(displayable: bool, kind: ToastType, message: Option<string>)
    requires displayable
    ensures ShowDefault(displayable, kind, message) ==
              Some(Plain(kind, Some(TitledOpen + DefaultTitle(kind) + TitledMiddle + FormatArg(message) + TitledClose)))
  {
    StartKeptNotBlank(DefaultTitle(kind));
  }

  const ValidationTitle := "Error de Validación"
  const ValidationListTitle := "Errores de Validación"
  const ValidationListBody := "<html><body style='width: 300px;'>"
  const ValidationListHeader := "<b>Por favor corrija los siguientes errores:</b>"
  const ValidationListOpen := ValidationListBody + ValidationListHeader + "<br><br>"

  /** The HTML list the many-errors toast shows: a header, one "• message<br>" per error, then the closing tags. */
  function ValidationListHtml(errors: seq<ValidationError>): string {
    ValidationListOpen + Bullets(errors, "<br>") + TitledClose
  }

  /** showValidationErrors: one error shown as an error toast; any other count, zero included, as the HTML list. */
  function ValidationToast(displayable: bool, errors: seq<ValidationError>): (r: Option<Shown>)
    ensures r.Some? <==> displayable
    ensures displayable && |errors| == 1 ==>
              r == Show(true, ErrorType, Some(ValidationTitle), Some(errors[0].message))
    ensures displayable && |errors| != 1 ==> r == Some(Custom(ValidationListTitle, ValidationListHtml(errors)))
  {
    if |errors| == 1 then Show(displayable, ErrorType, Some(ValidationTitle), Some(errors[0].message))
    else if displayable then Some(Custom(ValidationListTitle, ValidationListHtml(errors)))
    else None
  }

  /** showValidationErrors, with the list built in a StringBuilder loop. */
  method ShowValidationErrors(displayable: bool, e: ValidationException) returns (r: Option<Shown>)
    ensures r == ValidationToast(displayable, e.errors)
  {
    if e.ErrorCount() == 1 {
      var error := e.errors[0];
      return Show(displayable, ErrorType, Some(ValidationTitle), Some(error.message));
    }
    var message := ValidationListOpen;
    for i := 0 to |e.errors|
      invariant message == ValidationListOpen + Bullets(e.errors[..i], "<br>")
    {
      assert e.errors[..i + 1][..i] == e.errors[..i];
      message := message + "• " + e.errors[i].message + "<br>";
    }
    assert e.errors[..|e.errors|] == e.errors;
    message := message + TitledClose;
    r := if displayable then Some(Custom(ValidationListTitle, message)) else None;
  }

  /** With no error at all the list toast still appears, holding the header alone. */
  lemma NoErrorsHeaderOnly(displayable: bool)
    requires displayable
    ensures ValidationToast(displayable, []) == Some(Custom(ValidationListTitle, ValidationListOpen + TitledClose))
  {
    assert ValidationListHtml([]) == ValidationListOpen + "" + TitledClose;
    assert ValidationListOpen + "" == ValidationListOpen;
  }

  /** In the list toast every error's message has its own item, in the order of the errors. */
  lemma ListToastItemsInOrder(errors: seq<ValidationError>, i: int)
    requires 0 <= i < |errors|
    ensures OccursAt(ValidationListHtml(errors), "• " + errors[i].message + "<br>",
                     |ValidationListOpen| + |Bullets(errors[..i], "<br>")|)
  {
    var b := Bullets(errors, "<br>");
    BulletsListEach(errors, "<br>", i);
    var k := |Bullets(errors[..i], "<br>")|;
    var item := Bullet(errors[i], "<br>");
    assert b[k..k + |item|] == item;
    var html := ValidationListHtml(errors);
    assert html == ValidationListOpen + b + TitledClose;
    assert html[|ValidationListOpen| + k..|ValidationListOpen| + k + |item|] == b[k..k + |item|];
  }

  /** The opening html of the list toast holds no bullet. */
  lemma BodyHasNoBullet()
    ensures CountChar(ValidationListBody, '•') == 0
  {
    CountCharAbsent(ValidationListBody, '•');
  }

  /** Nor does its bold header. */
  lemma HeaderHasNoBullet()
    ensures CountChar(ValidationListHeader, '•') == 0
  {
    HeaderLacksBullet();
    CountCharAbsent(ValidationListHeader, '•');
  }

  /** The bold header, read in two halves, holds no bullet char. */
  lemma HeaderLacksBullet()
    ensures '•' !in ValidationListHeader
  {
    var front, back := "<b>Por favor corrija ", "los siguientes errores:</b>";
    assert ValidationListHeader == front + back;
    assert '•' !in front;
    assert '•' !in back;
  }

  /** The fixed parts of the list toast hold no bullet. */
  lemma FramingHasNoBullet()
    ensures CountChar(ValidationListOpen, '•') == 0 && CountChar(TitledClose, '•') == 0
  {
    BodyHasNoBullet();
    HeaderHasNoBullet();
    CountCharAbsent("<br><br>", '•');
    CountCharAppend(ValidationListBody, ValidationListHeader, '•');
    CountCharAppend(ValidationListBody + ValidationListHeader, "<br><br>", '•');
    CountCharAbsent(TitledClose, '•');
  }

  /** When no message holds a bullet, the list toast holds one bullet per error. */
  lemma ListToastOneBulletPerError(errors: seq<ValidationError>)
    requires forall i :: 0 <= i < |errors| ==> '•' !in errors[i].message
    ensures CountChar(ValidationListHtml(errors), '•') == |errors|
  {
    var b := Bullets(errors, "<br>");
    OneBulletPerError(errors, "<br>");
    FramingHasNoBullet();
    CountCharAppend(ValidationListOpen + b, TitledClose, '•');
    CountCharAppend(ValidationListOpen, b, '•');
  }
}
