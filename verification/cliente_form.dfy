/**
 * The client form panel, without Swing: the texts its widgets hold, the
 * client it edits, and whether the cédula field is editable. loadData
 * writes a client into the widgets; getData runs the two required-field
 * checks and writes the trimmed texts and the dates back into the edited
 * client or a new one. Formatting and parsing a date are parameters.
 */
module ClienteForms {
  import opened Wrappers
  import opened JavaText
  import opened Clientes
  import opened ClienteEntry

  /** `setText(s)`: a null text shows as the empty text. */
  function TextOf(s: Option<string>): string {
    s.GetOr("")
  }

  /** setLocalDate: the formatted date, or the empty text for no date. */
  function DateText(d: Option<Date>, format: DateFormatter): (s: string)
    ensures d.None? ==> s == ""
    ensures d.Some? ==> s == format(d.value)
  {
    if d.Some? then format(d.value) else ""
  }

  /** The widgets of a form with nothing loaded: empty texts, the first hair type of the combo box selected. */
  const BlankFields := Fields("", "", "", "", Some(TipoCabelloValues[0]), "", "", "", "", "", "")

  /** The widgets after loadData: the client's texts and dates, or the blank form for no client. */
  function LoadedFields(c: Option<ClienteData>, format: DateFormatter): (r: Fields)
    ensures c.None? ==> r == BlankFields
    ensures c.Some? ==>
      r.cedula == c.value.cedula.GetOr("") && r.nombre == c.value.nombreCompleto.GetOr("") &&
      r.telefono == c.value.telefono.GetOr("") && r.direccion == c.value.direccion.GetOr("") &&
      r.tipoCabello == c.value.tipoCabello && r.tipoExtensiones == c.value.tipoExtensiones.GetOr("")
    ensures c.Some? ==>
      r.cumpleanos == DateText(c.value.fechaCumpleanos, format) &&
      r.ultimoTinte == DateText(c.value.fechaUltimoTinte, format) &&
      r.ultimoQuimico == DateText(c.value.fechaUltimoQuimico, format) &&
      r.ultimaKeratina == DateText(c.value.fechaUltimaKeratina, format) &&
      r.ultimoMantenimiento == DateText(c.value.fechaUltimoMantenimiento, format)
  {
    if c.None? then BlankFields
    else
      var d := c.value;
      Fields(TextOf(d.cedula), TextOf(d.nombreCompleto), TextOf(d.telefono), TextOf(d.direccion),
             d.tipoCabello, TextOf(d.tipoExtensiones),
             DateText(d.fechaCumpleanos, format), DateText(d.fechaUltimoTinte, format),
             DateText(d.fechaUltimoQuimico, format), DateText(d.fechaUltimaKeratina, format),
             DateText(d.fechaUltimoMantenimiento, format))
  }

  const CedulaRequired := "La cédula es obligatoria."
  const NombreRequired := "El nombre es obligatorio."

  /** The two checks getData makes before writing anything, cédula first: the message it throws, or None. */
  function FormError(f: Fields): (r: Option<string>)
    ensures r.None? <==> !IsBlank(f.cedula) && !IsBlank(f.nombre)
    ensures IsBlank(f.cedula) ==> r == Some(CedulaRequired)
    ensures !IsBlank(f.cedula) && IsBlank(f.nombre) ==> r == Some(NombreRequired)
  {
    if IsBlank(f.cedula) then Some(CedulaRequired)
    else if IsBlank(f.nombre) then Some(NombreRequired)
    else None
  }

  /** What getData writes over `start`: every text trimmed, blank ones included, the selection as it is, the dates; the id is kept. */
  function FormData(start: ClienteData, f: Fields, parse: DateParser): (d: ClienteData)
    ensures d.id == start.id && d.tipoCabello == f.tipoCabello
    ensures d.cedula.Some? && d.nombreCompleto.Some? && d.telefono.Some? && d.direccion.Some? && d.tipoExtensiones.Some?
  {
    var texts := start.(cedula := Some(Trim(f.cedula)), nombreCompleto := Some(Trim(f.nombre)),
                        telefono := Some(Trim(f.telefono)), direccion := Some(Trim(f.direccion)),
                        tipoCabello := f.tipoCabello, tipoExtensiones := Some(Trim(f.tipoExtensiones)));
    WithDates(texts, f, parse)
  }

  /** A blank form is refused for its cédula before its name is looked at. */
  lemma BlankFormNeedsCedula(format: DateFormatter)
    ensures FormError(LoadedFields(None, format)) == Some(CedulaRequired)
  {
    assert Trim("") == "";
  }

  /** getData accepts the texts exactly when neither the cédula nor the name is blank. */
  lemma FormAcceptedIff(f: Fields)
    ensures FormError(f).None? <==> !IsBlank(f.cedula) && !IsBlank(f.nombre)
    ensures FormError(f) == Some(CedulaRequired) <==> IsBlank(f.cedula)
    ensures FormError(f) == Some(NombreRequired) <==> !IsBlank(f.cedula) && IsBlank(f.nombre)
  {
    assert CedulaRequired != NombreRequired by {
      assert CedulaRequired[3] != NombreRequired[3];
    }
  }

  /** Every text getData stores is present and already trimmed, and the id is never touched. */
  lemma FormDataTrimmed(start: ClienteData, f: Fields, parse: DateParser)
    ensures var d := FormData(start, f, parse);
      d.id == start.id &&
      d.cedula.Some? && Trim(d.cedula.value) == d.cedula.value &&
      d.nombreCompleto.Some? && Trim(d.nombreCompleto.value) == d.nombreCompleto.value &&
      d.telefono.Some? && Trim(d.telefono.value) == d.telefono.value &&
      d.direccion.Some? && Trim(d.direccion.value) == d.direccion.value &&
      d.tipoExtensiones.Some? && Trim(d.tipoExtensiones.value) == d.tipoExtensiones.value
  {
    TrimIdempotent(f.cedula);
    TrimIdempotent(f.nombre);
    TrimIdempotent(f.telefono);
    TrimIdempotent(f.direccion);
    TrimIdempotent(f.tipoExtensiones);
  }

  /** The date written by setLocalDate reads back through getLocalDate. */
  predicate DateRoundTrips(d: Option<Date>, format: DateFormatter, parse: DateParser) {
    d.Some? ==> format(d.value) != [] && Trim(format(d.value)) == format(d.value) && parse(format(d.value)) == d
  }

  /** A present text is its own trim. */
  predicate TextTrimmed(s: Option<string>) {
    s.Some? ==> Trim(s.value) == s.value
  }

  /** A trimmed text shown in a widget reads back trimmed as itself; a null one as the empty text. */
  lemma TextReadsBack(s: Option<string>)
    requires TextTrimmed(s)
    ensures Trim(TextOf(s)) == TextOf(s)
  {
    if s.None? {
      assert Trim("") == "";
    }
  }

  /** A date shown by setLocalDate is read back by getLocalDate as itself. */
  lemma DateReadsBack(d: Option<Date>, format: DateFormatter, parse: DateParser)
    requires DateRoundTrips(d, format, parse)
    ensures DateFromText(DateText(d, format), parse) == d
  {
    DateRoundTrip(d, format, parse);
  }

  /**
   * Loading a client and reading the form back gives the client again,
   * null texts aside: a null text comes back as the empty text.
   */
  lemma LoadThenGet(d: ClienteData, format: DateFormatter, parse: DateParser)
    requires TextTrimmed(d.cedula) && TextTrimmed(d.nombreCompleto) && TextTrimmed(d.telefono)
    requires TextTrimmed(d.direccion) && TextTrimmed(d.tipoExtensiones)
    requires DateRoundTrips(d.fechaCumpleanos, format, parse) && DateRoundTrips(d.fechaUltimoTinte, format, parse)
    requires DateRoundTrips(d.fechaUltimoQuimico, format, parse) && DateRoundTrips(d.fechaUltimaKeratina, format, parse)
    requires DateRoundTrips(d.fechaUltimoMantenimiento, format, parse)
    ensures FormData(d, LoadedFields(Some(d), format), parse) ==
              d.(cedula := Some(TextOf(d.cedula)), nombreCompleto := Some(TextOf(d.nombreCompleto)),
                 telefono := Some(TextOf(d.telefono)), direccion := Some(TextOf(d.direccion)),
                 tipoExtensiones := Some(TextOf(d.tipoExtensiones)))
  {
    var f := LoadedFields(Some(d), format);
    TextReadsBack(d.cedula);
    TextReadsBack(d.nombreCompleto);
    TextReadsBack(d.telefono);
    TextReadsBack(d.direccion);
    TextReadsBack(d.tipoExtensiones);
    DateReadsBack(d.fechaCumpleanos, format, parse);
    DateReadsBack(d.fechaUltimoTinte, format, parse);
    DateReadsBack(d.fechaUltimoQuimico, format, parse);
    DateReadsBack(d.fechaUltimaKeratina, format, parse);
    DateReadsBack(d.fechaUltimoMantenimiento, format, parse);
  }

  /** A loaded client passes the checks of getData exactly when its cédula and its name are present and not blank. */
  lemma LoadedClientChecks(d: ClienteData, format: DateFormatter)
    ensures var e := FormError(LoadedFields(Some(d), format));
      (d.cedula.None? || IsBlank(d.cedula.value) ==> e == Some(CedulaRequired)) &&
      (d.cedula.Some? && !IsBlank(d.cedula.value) && (d.nombreCompleto.None? || IsBlank(d.nombreCompleto.value)) ==>
         e == Some(NombreRequired)) &&
      (d.cedula.Some? && !IsBlank(d.cedula.value) && d.nombreCompleto.Some? && !IsBlank(d.nombreCompleto.value) ==>
         e == None)
  {
    assert Trim("") == "";
  }

  /** With no null text, a loaded client reads back unchanged. */
  lemma LoadThenGetUnchanged(d: ClienteData, format: DateFormatter, parse: DateParser)
    requires d.cedula.Some? && d.nombreCompleto.Some? && d.telefono.Some? && d.direccion.Some? && d.tipoExtensiones.Some?
    requires TextTrimmed(d.cedula) && TextTrimmed(d.nombreCompleto) && TextTrimmed(d.telefono)
    requires TextTrimmed(d.direccion) && TextTrimmed(d.tipoExtensiones)
    requires DateRoundTrips(d.fechaCumpleanos, format, parse) && DateRoundTrips(d.fechaUltimoTinte, format, parse)
    requires DateRoundTrips(d.fechaUltimoQuimico, format, parse) && DateRoundTrips(d.fechaUltimaKeratina, format, parse)
    requires DateRoundTrips(d.fechaUltimoMantenimiento, format, parse)
    ensures FormData(d, LoadedFields(Some(d), format), parse) == d
  {
    LoadThenGet(d, format, parse);
    var texts := d.(cedula := Some(TextOf(d.cedula)), nombreCompleto := Some(TextOf(d.nombreCompleto)),
                    telefono := Some(TextOf(d.telefono)), direccion := Some(TextOf(d.direccion)),
                    tipoExtensiones := Some(TextOf(d.tipoExtensiones)));
    assert texts == d;
  }

  /** Reading the form, loading what was read and reading again gives the same client. */
  lemma GetLoadGetStable(start: ClienteData, f: Fields, format: DateFormatter, parse: DateParser)
    requires var d := FormData(start, f, parse);
      DateRoundTrips(d.fechaCumpleanos, format, parse) && DateRoundTrips(d.fechaUltimoTinte, format, parse) &&
      DateRoundTrips(d.fechaUltimoQuimico, format, parse) && DateRoundTrips(d.fechaUltimaKeratina, format, parse) &&
      DateRoundTrips(d.fechaUltimoMantenimiento, format, parse)
    ensures var d := FormData(start, f, parse);
      FormData(d, LoadedFields(Some(d), format), parse) == d
  {
    var d := FormData(start, f, parse);
    FormDataTrimmed(start, f, parse);
    LoadThenGetUnchanged(d, format, parse);
  }

  class ClienteForm {
    var clienteActual: Option<Cliente>
    var fields: Fields
    var cedulaEnabled: bool

    /** The object getData may write: the loaded client, if any. */
    function Edited(): set<object>
      reads this
    {
      if clienteActual.Some? then {clienteActual.value} else {}
    }

    /** The fields getData starts from: the loaded client's, or those of `new Cliente()`. */
    function StartData(): ClienteData
      reads this, Edited()
    {
      if clienteActual.Some? then clienteActual.value.Data() else EmptyCliente
    }

    /** A new panel: nothing loaded, empty texts, the first hair type selected, the cédula editable. */
    constructor ()
      ensures clienteActual.None? && fields == BlankFields && cedulaEnabled
    {
      clienteActual := None;
      fields := BlankFields;
      cedulaEnabled := true;
    }

    /** loadData(c): every widget written from the client, or cleared; the cédula editable only for a new client. */
    method LoadData(c: Option<Cliente>, format: DateFormatter)
      modifies this`clienteActual, this`fields, this`cedulaEnabled
      ensures clienteActual == c
      ensures fields == LoadedFields(if c.Some? then Some(c.value.Data()) else None, format)
      ensures cedulaEnabled <==> c.None?
    {
      clienteActual := c;
      if c.Some? {
        var d := c.value;
        fields := fields.(cedula := TextOf(d.cedula));
        fields := fields.(nombre := TextOf(d.nombreCompleto));
        fields := fields.(telefono := TextOf(d.telefono));
        fields := fields.(direccion := TextOf(d.direccion));
        fields := fields.(tipoCabello := d.tipoCabello);
        fields := fields.(tipoExtensiones := TextOf(d.tipoExtensiones));
        fields := fields.(cumpleanos := DateText(d.fechaCumpleanos, format));
        fields := fields.(ultimoTinte := DateText(d.fechaUltimoTinte, format));
        fields := fields.(ultimoQuimico := DateText(d.fechaUltimoQuimico, format));
        fields := fields.(ultimaKeratina := DateText(d.fechaUltimaKeratina, format));
        fields := fields.(ultimoMantenimiento := DateText(d.fechaUltimoMantenimiento, format));
        cedulaEnabled := false;
      } else {
        fields := fields.(cedula := "", nombre := "", telefono := "", direccion := "");
        fields := fields.(tipoCabello := Some(TipoCabelloValues[0]));
        fields := fields.(tipoExtensiones := "");
        fields := fields.(cumpleanos := "", ultimoTinte := "", ultimoQuimico := "");
        fields := fields.(ultimaKeratina := "", ultimoMantenimiento := "");
        cedulaEnabled := true;
      }
    }

    /**
     * getData: the exception's message when the cédula or the name is
     * blank, with nothing written; otherwise the loaded client, or a new
     * one, with every widget's value written into it.
     */
    method GetData(parse: DateParser) returns (r: Result<Cliente, string>)
      modifies Edited()
      ensures FormError(fields).Some? ==> r == Failure(FormError(fields).value) && unchanged(Edited())
      ensures FormError(fields).None? ==> r.Success? && r.value.Data() == FormData(old(StartData()), fields, parse)
      ensures FormError(fields).None? && clienteActual.Some? ==> r == Success(clienteActual.value)
      ensures FormError(fields).None? && clienteActual.None? ==> fresh(r.value)
    {
      var f := fields;
      if IsBlank(f.cedula) {
        return Failure(CedulaRequired);
      }
      if IsBlank(f.nombre) {
        return Failure(NombreRequired);
      }
      var c: Cliente;
      if clienteActual.Some? {
        c := clienteActual.value;
      } else {
        c := new Cliente.Empty();
      }
      assert this as object != c as object;
      c.SetCedula(Some(Trim(f.cedula)));
      c.SetNombreCompleto(Some(Trim(f.nombre)));
      c.SetTelefono(Some(Trim(f.telefono)));
      c.SetDireccion(Some(Trim(f.direccion)));
      c.SetTipoCabello(f.tipoCabello);
      c.SetTipoExtensiones(Some(Trim(f.tipoExtensiones)));
      c.SetFechaCumpleanos(DateFromText(f.cumpleanos, parse));
      c.SetFechaUltimoTinte(DateFromText(f.ultimoTinte, parse));
      c.SetFechaUltimoQuimico(DateFromText(f.ultimoQuimico, parse));
      c.SetFechaUltimaKeratina(DateFromText(f.ultimaKeratina, parse));
      c.SetFechaUltimoMantenimiento(DateFromText(f.ultimoMantenimiento, parse));
      r := Success(c);
    }
  }
}
