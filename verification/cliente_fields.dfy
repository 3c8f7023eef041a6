/**
 * What the client modal and the client form have in common: the texts
 * their widgets hold, and the reading of an optional dd/MM/yyyy date
 * field. Parsing and formatting a date belong to java.time and are
 * parameters here.
 */
module ClienteEntry {
  import opened Wrappers
  import opened JavaText
  import opened Clientes

  /** The text of every text widget, and the hair type the combo box has selected (None: no selection). */
  datatype Fields = Fields(
    cedula: string,
    nombre: string,
    telefono: string,
    direccion: string,
    tipoCabello: Option<TipoCabello>,
    tipoExtensiones: string,
    cumpleanos: string,
    ultimoTinte: string,
    ultimoQuimico: string,
    ultimaKeratina: string,
    ultimoMantenimiento: string)

  /** `LocalDate.parse(text, dd/MM/yyyy)`: the date, or None where it throws DateTimeParseException. */
  type DateParser = string -> Option<Date>

  /** `date.format(dd/MM/yyyy)`. */
  type DateFormatter = Date -> string

  /** getDateField / getLocalDate: trim; no date for an empty text or one that does not parse; never an error. */
  function DateFromText(text: string, parse: DateParser): (d: Option<Date>)
    ensures d.None? <==> IsBlank(text) || parse(Trim(text)).None?
    ensures d.Some? ==> d == parse(Trim(text))
  {
    var t := Trim(text);
    if t == [] then None else parse(t)
  }

  /** Blanks around a date text make no difference. */
  lemma DateIgnoresSurroundingBlanks(text: string, parse: DateParser)
    ensures DateFromText(text, parse) == DateFromText(Trim(text), parse)
  {
    TrimIdempotent(text);
  }

  /** A date written with the formatter reads back as itself, when the formatter's text is one the parser takes back. */
  lemma DateRoundTrip(d: Option<Date>, format: DateFormatter, parse: DateParser)
    requires d.Some? ==> format(d.value) != [] && Trim(format(d.value)) == format(d.value) && parse(format(d.value)) == d
    ensures DateFromText(if d.Some? then format(d.value) else "", parse) == d
  {
    if d.None? {
      assert Trim("") == "";
    }
  }

  /** The five dates of a record read from the five date fields. */
  function WithDates(c: ClienteData, f: Fields, parse: DateParser): (r: ClienteData)
    ensures r.fechaCumpleanos == DateFromText(f.cumpleanos, parse)
    ensures r.fechaUltimoTinte == DateFromText(f.ultimoTinte, parse)
    ensures r.fechaUltimoQuimico == DateFromText(f.ultimoQuimico, parse)
    ensures r.fechaUltimaKeratina == DateFromText(f.ultimaKeratina, parse)
    ensures r.fechaUltimoMantenimiento == DateFromText(f.ultimoMantenimiento, parse)
    ensures r.(fechaCumpleanos := c.fechaCumpleanos, fechaUltimoTinte := c.fechaUltimoTinte,
               fechaUltimoQuimico := c.fechaUltimoQuimico, fechaUltimaKeratina := c.fechaUltimaKeratina,
               fechaUltimoMantenimiento := c.fechaUltimoMantenimiento) == c
  {
    c.(fechaCumpleanos := DateFromText(f.cumpleanos, parse),
       fechaUltimoTinte := DateFromText(f.ultimoTinte, parse),
       fechaUltimoQuimico := DateFromText(f.ultimoQuimico, parse),
       fechaUltimaKeratina := DateFromText(f.ultimaKeratina, parse),
       fechaUltimoMantenimiento := DateFromText(f.ultimoMantenimiento, parse))
  }
}
