/**
 * The create/edit client modal, without Swing: building a client from
 * the widget texts with the Venezuelan validator, saving it through the
 * repository, and the dialogs it shows. The repository's answer and the
 * date parser are parameters; the modal's own state is the save button,
 * whether it asked its controller to close, the callbacks made, the
 * repository calls made and the dialogs shown.
 */
module ClienteModals {
  import opened Wrappers
  import opened JavaText
  import opened Validation
  import opened Validators
  import opened Patterns
  import opened Venezuela
  import opened Clientes
  import opened ClienteEntry

  /** The client a build produced, and the ValidationException it threw, if any. */
  datatype Built = Built(data: ClienteData, thrown: Option<ValidationException>)

  /**
   * buildAndValidateCliente on a client holding `start`: cédula, then
   * name, then telephone, each written as soon as it passes; the first
   * failure throws, leaving the fields written so far; then address,
   * hair type, extensions and the five dates.
   */
  function BuildCliente(start: ClienteData, f: Fields, parse: DateParser): (b: Built)
    ensures b.data.id == start.id
    ensures b.thrown.Some? ==>
      b.data.direccion == start.direccion && b.data.tipoCabello == start.tipoCabello &&
      b.data.tipoExtensiones == start.tipoExtensiones && b.data.fechaCumpleanos == start.fechaCumpleanos &&
      b.data.fechaUltimoTinte == start.fechaUltimoTinte && b.data.fechaUltimoQuimico == start.fechaUltimoQuimico &&
      b.data.fechaUltimaKeratina == start.fechaUltimaKeratina &&
      b.data.fechaUltimoMantenimiento == start.fechaUltimoMantenimiento
  {
    match CedulaOutcome(Some(f.cedula))
    case Failure(e) => Built(start, Some(e))
    case Success(cedula) =>
      var withCedula := start.(cedula := cedula);
      var nombre := Trim(f.nombre);
      match NombreOutcome(Some(nombre))
      case Some(e) => Built(withCedula, Some(e))
      case None =>
        var withNombre := withCedula.(nombreCompleto := Some(nombre));
        match ValidarYNormalizarTelefono(Some(f.telefono))
        case Failure(e) => Built(withNombre, Some(e))
        case Success(telefono) =>
          var rest := withNombre.(telefono := telefono, direccion := Some(Trim(f.direccion)),
                                  tipoCabello := f.tipoCabello, tipoExtensiones := Some(Trim(f.tipoExtensiones)));
          Built(WithDates(rest, f, parse), None)
  }

  /** A build succeeds exactly when the cédula, the trimmed name and the telephone are each accepted. */
  lemma BuildAcceptedIff(start: ClienteData, f: Fields, parse: DateParser)
    ensures BuildCliente(start, f, parse).thrown.None? <==>
              IsCedula(NormalizarCedula(Some(f.cedula)).value) &&
              !IsBlank(Trim(f.nombre)) && 3 <= |Trim(f.nombre)| <= 100 && IsNombre(Trim(f.nombre)) &&
              (IsBlank(f.telefono) || IsTelefono(NormalizarTelefono(Some(f.telefono)).value))
  {
    CedulaAcceptedIff(Some(f.cedula));
    NombreAcceptedIff(Some(Trim(f.nombre)));
    TelefonoAcceptedIff(Some(f.telefono));
  }

  /** What a successful build stores: canonical cédula and telephone, the trimmed texts, the selection, the dates; the id is kept. */
  lemma BuiltClienteShape(start: ClienteData, f: Fields, parse: DateParser)
    requires BuildCliente(start, f, parse).thrown.None?
    ensures var d := BuildCliente(start, f, parse).data;
      d.id == start.id &&
      d.cedula.Some? && IsCanonicalCedula(d.cedula.value) &&
      d.nombreCompleto == Some(Trim(f.nombre)) && 3 <= |Trim(f.nombre)| <= 100 && IsNombre(Trim(f.nombre)) &&
      (d.telefono.None? <==> IsBlank(f.telefono)) &&
      (d.telefono.Some? ==> IsCanonicalTelefono(d.telefono.value)) &&
      d.direccion == Some(Trim(f.direccion)) && d.tipoCabello == f.tipoCabello &&
      d.tipoExtensiones == Some(Trim(f.tipoExtensiones)) &&
      d.fechaCumpleanos == DateFromText(f.cumpleanos, parse) &&
      d.fechaUltimoMantenimiento == DateFromText(f.ultimoMantenimiento, parse)
  {
    BuiltCopiesTexts(start, f, parse);
    BuiltValidatedFields(start, f, parse);
  }

  /** The fields a successful build copies without validating them. */
  lemma BuiltCopiesTexts(start: ClienteData, f: Fields, parse: DateParser)
    requires BuildCliente(start, f, parse).thrown.None?
    ensures var d := BuildCliente(start, f, parse).data;
      d.id == start.id && d.nombreCompleto == Some(Trim(f.nombre)) &&
      d.direccion == Some(Trim(f.direccion)) && d.tipoCabello == f.tipoCabello &&
      d.tipoExtensiones == Some(Trim(f.tipoExtensiones)) &&
      d.fechaCumpleanos == DateFromText(f.cumpleanos, parse) &&
      d.fechaUltimoMantenimiento == DateFromText(f.ultimoMantenimiento, parse)
  {
    BuiltFromOutcomes(start, f, parse);
    var rest := start.(cedula := CedulaOutcome(Some(f.cedula)).value, nombreCompleto := Some(Trim(f.nombre)),
                       telefono := ValidarYNormalizarTelefono(Some(f.telefono)).value,
                       direccion := Some(Trim(f.direccion)), tipoCabello := f.tipoCabello,
                       tipoExtensiones := Some(Trim(f.tipoExtensiones)));
    assert BuildCliente(start, f, parse).data == WithDates(rest, f, parse);
  }

  /** The fields a successful build validated: a canonical cédula, an accepted name, a canonical telephone or none for a blank one. */
  lemma BuiltValidatedFields(start: ClienteData, f: Fields, parse: DateParser)
    requires BuildCliente(start, f, parse).thrown.None?
    ensures var d := BuildCliente(start, f, parse).data;
      d.cedula.Some? && IsCanonicalCedula(d.cedula.value) &&
      3 <= |Trim(f.nombre)| <= 100 && IsNombre(Trim(f.nombre)) &&
      (d.telefono.None? <==> IsBlank(f.telefono)) &&
      (d.telefono.Some? ==> IsCanonicalTelefono(d.telefono.value))
  {
    BuiltFromOutcomes(start, f, parse);
    CedulaAcceptedIsCanonical(Some(f.cedula));
    NombreAcceptedIff(Some(Trim(f.nombre)));
    TelefonoAcceptedShape(f.telefono);
  }

  /** A successful build passed all three checks and stored what the cédula and telephone checks returned. */
  lemma BuiltFromOutcomes(start: ClienteData, f: Fields, parse: DateParser)
    requires BuildCliente(start, f, parse).thrown.None?
    ensures CedulaOutcome(Some(f.cedula)).Success? && NombreOutcome(Some(Trim(f.nombre))).None?
    ensures ValidarYNormalizarTelefono(Some(f.telefono)).Success?
    ensures BuildCliente(start, f, parse).data.cedula == CedulaOutcome(Some(f.cedula)).value
    ensures BuildCliente(start, f, parse).data.telefono == ValidarYNormalizarTelefono(Some(f.telefono)).value
  {
  }

  /** A rejected cédula throws its own errors, all naming the cédula field, and writes nothing. */
  lemma CedulaRejectedWritesNothing(start: ClienteData, f: Fields, parse: DateParser)
    requires CedulaOutcome(Some(f.cedula)).Failure?
    ensures BuildCliente(start, f, parse).data == start
    ensures var e := BuildCliente(start, f, parse).thrown;
      e.Some? && e.value.errors != [] && forall err :: err in e.value.errors ==> err.field == CedulaField
  {
    ErrorsNameTheField(CedulaField, CedulaRules, NormalizarCedula(Some(f.cedula)));
  }

  /** A rejected name throws errors naming the name field; the normalised cédula has already been written. */
  lemma NombreRejectedKeepsCedula(start: ClienteData, f: Fields, parse: DateParser)
    requires CedulaOutcome(Some(f.cedula)).Success? && NombreOutcome(Some(Trim(f.nombre))).Some?
    ensures var b := BuildCliente(start, f, parse);
      b.data == start.(cedula := b.data.cedula) &&
      b.data.cedula.Some? && IsCanonicalCedula(b.data.cedula.value) &&
      b.thrown.Some? && b.thrown.value.errors != [] && forall err :: err in b.thrown.value.errors ==> err.field == NombreField
  {
    CedulaAcceptedIsCanonical(Some(f.cedula));
    ErrorsNameTheField(NombreField, NombreRules, Some(Trim(f.nombre)));
  }

  /** A rejected telephone throws its one format error; cédula and trimmed name have already been written. */
  lemma TelefonoRejectedKeepsEarlierFields(start: ClienteData, f: Fields, parse: DateParser)
    requires CedulaOutcome(Some(f.cedula)).Success? && NombreOutcome(Some(Trim(f.nombre))).None?
    requires ValidarYNormalizarTelefono(Some(f.telefono)).Failure?
    ensures var b := BuildCliente(start, f, parse);
      b.data == start.(cedula := b.data.cedula, nombreCompleto := Some(Trim(f.nombre))) &&
      b.data.cedula.Some? && IsCanonicalCedula(b.data.cedula.value) &&
      b.thrown == Some(ValidarYNormalizarTelefono(Some(f.telefono)).error) &&
      b.thrown.value.errors == [ValidationError(TelefonoField, TelefonoFormatMessage)]
  {
    CedulaAcceptedIsCanonical(Some(f.cedula));
  }

  const ValidationDialogTitle := "Errores de Validación"
  const ValidationDialogHeader := "Por favor corrija los siguientes errores:\n\n"

  /** The text of the validation dialog: the header, then one "• message" line per error. */
  function ValidationDialogText(errors: seq<ValidationError>): (t: string)
    ensures |t| >= |ValidationDialogHeader| && t[..|ValidationDialogHeader|] == ValidationDialogHeader
    ensures errors == [] <==> t == ValidationDialogHeader
  {
    ValidationDialogHeader + Bullets(errors, "\n")
  }

  /** Every error's message has its own line in the dialog, in the order of the errors. */
  lemma DialogLinesInOrder(errors: seq<ValidationError>, i: int)
    requires 0 <= i < |errors|
    ensures OccursAt(ValidationDialogText(errors), "• " + errors[i].message + "\n",
                     |ValidationDialogHeader| + |Bullets(errors[..i], "\n")|)
  {
    var b := Bullets(errors, "\n");
    BulletsListEach(errors, "\n", i);
    var k := |Bullets(errors[..i], "\n")|;
    var item := Bullet(errors[i], "\n");
    assert b[k..k + |item|] == item;
    var text := ValidationDialogText(errors);
    assert text[|ValidationDialogHeader| + k..|ValidationDialogHeader| + k + |item|] == b[k..k + |item|];
  }

  /** When no message holds a bullet, the dialog holds one bullet per error. */
  lemma DialogOneBulletPerError(errors: seq<ValidationError>)
    requires forall i :: 0 <= i < |errors| ==> '•' !in errors[i].message
    ensures CountChar(ValidationDialogText(errors), '•') == |errors|
  {
    OneBulletPerError(errors, "\n");
    CountCharAppend(ValidationDialogHeader, Bullets(errors, "\n"), '•');
    CountCharAbsent(ValidationDialogHeader, '•');
  }


  datatype MessageType = WarningMessage | ErrorMessage

  /** A JOptionPane message dialog. */
  datatype Dialog = Dialog(title: string, message: string, kind: MessageType)

  /**
   * What create or update did: stored, or the exception it threw, by the
   * catch clause that takes it. A stored create carries the generated key
   * the driver handed back, if it handed one back; update reads none.
   */
  datatype RepoOutcome =
    | Stored(generatedId: Option<int>)
    | Duplicado(cedula: string)
    | NoEncontrado
    | OtroCliente(message: string)
    | Inesperado(detail: Option<string>)

  datatype RepoCall = Create(data: ClienteData) | Update(data: ClienteData)

  /**
   * The client as it stands after a stored save: create writes the
   * generated key into the client's id, when there is one; update and a
   * create without a key leave the client as it was sent.
   */
  function AfterSave(data: ClienteData, creating: bool, outcome: RepoOutcome): (d: ClienteData)
    requires outcome.Stored?
    ensures d.(id := data.id) == data
    ensures creating && outcome.generatedId.Some? ==> d.id == outcome.generatedId.value
    ensures !creating || outcome.generatedId.None? ==> d == data
  {
    if creating && outcome.generatedId.Some? then data.(id := outcome.generatedId.value) else data
  }

  /** The error dialog text for each exception guardarCliente catches after validation. */
  function SaveErrorMessage(outcome: RepoOutcome): (m: string)
    requires !outcome.Stored?
    ensures outcome.Duplicado? ==> |outcome.cedula| <= |m| && m[|m| - |outcome.cedula|..] == outcome.cedula
    ensures outcome.OtroCliente? ==> |outcome.message| <= |m| && m[|m| - |outcome.message|..] == outcome.message
    ensures outcome.Inesperado? ==>
      |outcome.detail.GetOr("null")| <= |m| && m[|m| - |outcome.detail.GetOr("null")|..] == outcome.detail.GetOr("null")
  {
    match outcome
    case Duplicado(cedula) => "Ya existe un cliente con la cédula: " + cedula
    case NoEncontrado => "No se encontró el cliente a actualizar. Recargue la lista."
    case OtroCliente(message) => "Error al procesar el cliente: " + message
    case Inesperado(detail) => "Error inesperado: " + detail.GetOr("null")
  }

  class ClienteModal {
    /** The client being edited, or None when creating. */
    const clienteActual: Option<Cliente>
    const hasCallback: bool
    var saveEnabled: bool
    var closeRequested: bool
    var notified: seq<ClienteData>
    var repoCalls: seq<RepoCall>
    var dialogs: seq<Dialog>

    /** The objects guardarCliente may write: the edited client, if any. */
    function Edited(): set<object> {
      if clienteActual.Some? then {clienteActual.value} else {}
    }

    /** The fields a build starts from: the edited client's, or those of `new Cliente()`. */
    function StartData(): ClienteData
      reads Edited()
    {
      if clienteActual.Some? then clienteActual.value.Data() else EmptyCliente
    }

    constructor (cliente: Option<Cliente>, hasCallback: bool)
      ensures clienteActual == cliente && this.hasCallback == hasCallback
      ensures saveEnabled && !closeRequested && notified == [] && repoCalls == [] && dialogs == []
    {
      clienteActual := cliente;
      this.hasCallback := hasCallback;
      saveEnabled, closeRequested := true, false;
      notified, repoCalls, dialogs := [], [], [];
    }

    /**
     * buildAndValidateCliente: writes into the edited client itself, or
     * into a new one, field by field; `thrown` is the ValidationException
     * that stopped it.
     */
    method BuildAndValidateCliente(f: Fields, parse: DateParser, ghost start: ClienteData) returns (c: Cliente, thrown: Option<ValidationException>)
      requires start == StartData()
      modifies Edited()
      ensures clienteActual.Some? ==> c == clienteActual.value
      ensures clienteActual.None? ==> fresh(c)
      ensures Built(c.Data(), thrown) == BuildCliente(start, f, parse)
    {
      if clienteActual.Some? {
        c := clienteActual.value;
      } else {
        c := new Cliente.Empty();
      }
      var cedula := ValidarYNormalizarCedula(Some(f.cedula));
      if cedula.Failure? {
        return c, Some(cedula.error);
      }
      c.SetCedula(cedula.value);
      var nombre := Trim(f.nombre);
      thrown := ValidarNombre(Some(nombre));
      if thrown.Some? {
        return;
      }
      c.SetNombreCompleto(Some(nombre));
      var telefono := ValidarYNormalizarTelefono(Some(f.telefono));
      if telefono.Failure? {
        return c, Some(telefono.error);
      }
      c.SetTelefono(telefono.value);
      c.SetDireccion(Some(Trim(f.direccion)));
      c.SetTipoCabello(f.tipoCabello);
      c.SetTipoExtensiones(Some(Trim(f.tipoExtensiones)));
      c.SetFechaCumpleanos(DateFromText(f.cumpleanos, parse));
      c.SetFechaUltimoTinte(DateFromText(f.ultimoTinte, parse));
      c.SetFechaUltimoQuimico(DateFromText(f.ultimoQuimico, parse));
      c.SetFechaUltimaKeratina(DateFromText(f.ultimaKeratina, parse));
      c.SetFechaUltimoMantenimiento(DateFromText(f.ultimoMantenimiento, parse));
    }

    /** showValidationErrors: the message built line by line. */
    static method ValidationMessage(e: ValidationException) returns (message: string)
      ensures message == ValidationDialogText(e.errors)
    {
      message := ValidationDialogHeader;
      for i := 0 to |e.errors|
        invariant message == ValidationDialogHeader + Bullets(e.errors[..i], "\n")
      {
        assert e.errors[..i + 1][..i] == e.errors[..i];
        message := message + "• " + e.errors[i].message + "\n";
      }
      assert e.errors[..|e.errors|] == e.errors;
    }

    /**
     * What guardarCliente leaves behind once the build `b` is made, given
     * the repository calls, callbacks, close request and dialogs before it:
     * a thrown validation shows its dialog and nothing else; otherwise the
     * client goes to create or update, and a stored client, with the id
     * create gave it, is passed to the callback (when there is one) and
     * closes the modal, while any other answer shows its error dialog.
     */
    ghost predicate SavedAfter(b: Built, outcome: RepoOutcome, repoCalls0: seq<RepoCall>, notified0: seq<ClienteData>,
                               closed0: bool, dialogs0: seq<Dialog>)
      reads this`repoCalls, this`notified, this`closeRequested, this`dialogs
    {
      if b.thrown.Some? then
        repoCalls == repoCalls0 && notified == notified0 && closeRequested == closed0 &&
        dialogs == dialogs0 + [Dialog(ValidationDialogTitle, ValidationDialogText(b.thrown.value.errors), WarningMessage)]
      else
        repoCalls == repoCalls0 + [if clienteActual.None? then Create(b.data) else Update(b.data)] &&
        if outcome.Stored? then
          closeRequested && dialogs == dialogs0 &&
          notified == notified0 + (if hasCallback then [AfterSave(b.data, clienteActual.None?, outcome)] else [])
        else
          closeRequested == closed0 && notified == notified0 &&
          dialogs == dialogs0 + [Dialog("Error", SaveErrorMessage(outcome), ErrorMessage)]
    }

    /**
     * The part of guardarCliente after the build: the validation dialog
     * when the build threw, otherwise the repository call and what follows
     * its answer.
     */
    method Persist(data: ClienteData, thrown: Option<ValidationException>, outcome: RepoOutcome)
      modifies this`saveEnabled, this`repoCalls, this`notified, this`closeRequested, this`dialogs
      ensures saveEnabled
      ensures SavedAfter(Built(data, thrown), outcome, old(repoCalls), old(notified), old(closeRequested), old(dialogs))
    {
      if thrown.Some? {
        var message := ValidationMessage(thrown.value);
        dialogs := dialogs + [Dialog(ValidationDialogTitle, message, WarningMessage)];
        saveEnabled := true;
        return;
      }
      if clienteActual.None? {
        repoCalls := repoCalls + [Create(data)];
      } else {
        repoCalls := repoCalls + [Update(data)];
      }
      if outcome.Stored? {
        var saved := data;
        if clienteActual.None? && outcome.generatedId.Some? {
          saved := saved.(id := outcome.generatedId.value);
        }
        if hasCallback {
          notified := notified + [saved];
        }
        closeRequested := true;
      } else {
        dialogs := dialogs + [Dialog("Error", SaveErrorMessage(outcome), ErrorMessage)];
      }
      saveEnabled := true;
    }

    /**
     * guardarCliente, with the repository's answer to create (when not
     * editing) or update (when editing). The button is disabled for the
     * save and enabled again whatever happens; the callback and the
     * close request follow only a stored client. `b` is the build it made.
     */
    method GuardarCliente(f: Fields, parse: DateParser, outcome: RepoOutcome) returns (ghost b: Built)
      modifies this, Edited()
      ensures b == BuildCliente(old(StartData()), f, parse)
      ensures saveEnabled
      ensures clienteActual.Some? ==> clienteActual.value.Data() == b.data
      ensures SavedAfter(b, outcome, old(repoCalls), old(notified), old(closeRequested), old(dialogs))
    {
      ghost var start := StartData();
      assert this !in Edited();
      saveEnabled := false;
      var c, thrown := BuildAndValidateCliente(f, parse, start);
      var data := c.Data();
      b := Built(data, thrown);
      Persist(data, thrown, outcome);
    }
  }
}
