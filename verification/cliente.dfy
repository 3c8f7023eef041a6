/**
 * The client record of the salon: the hair-type enumeration with its
 * labels and enum names, the calendar date the record stores, and the
 * mutable Cliente object with its two constructors, its setters and the
 * birthday check.
 */
module Clientes {
  import opened Wrappers

  /** TipoCabello: four constants, in declaration order. */
  datatype TipoCabello = Corto | Mediano | Largo | ConExtensiones {
    /** toString(): the label given to the constant, capitalised and ending in a lower-case letter. */
    function Label(): (l: string)
      ensures |l| >= 5 && 'A' <= l[0] <= 'Z' && 'a' <= l[|l| - 1] <= 'z'
    {
      match this
      case Corto => "Corto"
      case Mediano => "Mediano"
      case Largo => "Largo"
      case ConExtensiones => "Con Extensiones"
    }

    /** name(): the identifier of the constant, which persistence writes: upper-case letters and underscores only. */
    function Name(): (n: string)
      ensures |n| >= 5 && forall i :: 0 <= i < |n| ==> 'A' <= n[i] <= 'Z' || n[i] == '_'
    {
      match this
      case Corto => "CORTO"
      case Mediano => "MEDIANO"
      case Largo => "LARGO"
      case ConExtensiones => "CON_EXTENSIONES"
    }

    /** ordinal(): the position of the constant in declaration order. */
    function Ordinal(): (i: nat)
      ensures i < |TipoCabelloValues| && TipoCabelloValues[i] == this
    {
      match this
      case Corto => 0
      case Mediano => 1
      case Largo => 2
      case ConExtensiones => 3
    }
  }

  /** values(): the constants in declaration order. */
  const TipoCabelloValues: seq<TipoCabello> := [Corto, Mediano, Largo, ConExtensiones]

  /** There are exactly four constants, each listed once. */
  lemma ValuesListEachOnce(t: TipoCabello)
    ensures |TipoCabelloValues| == 4
    ensures t in TipoCabelloValues
    ensures forall i, j :: 0 <= i < j < |TipoCabelloValues| ==> TipoCabelloValues[i] != TipoCabelloValues[j]
  {
    assert TipoCabelloValues[t.Ordinal()] == t;
  }

  /** Distinct constants have distinct labels: toString() is injective. */
  lemma LabelsDistinct(a: TipoCabello, b: TipoCabello)
    requires a.Label() == b.Label()
    ensures a == b
  {
  }

  /** valueOf(name): the constant with that name, or None where valueOf throws IllegalArgumentException. */
  function ValueOf(name: string): (t: Option<TipoCabello>)
    ensures t.Some? ==> t.value.Name() == name
  {
    if name == "CORTO" then Some(Corto)
    else if name == "MEDIANO" then Some(Mediano)
    else if name == "LARGO" then Some(Largo)
    else if name == "CON_EXTENSIONES" then Some(ConExtensiones)
    else None
  }

  /** Writing name() and reading it back with valueOf gives the same constant. */
  lemma NameRoundTrip(t: TipoCabello)
    ensures ValueOf(t.Name()) == Some(t)
  {
  }

  /** A label is not a name: valueOf rejects every label. */
  lemma LabelIsNotAName(t: TipoCabello)
    ensures ValueOf(t.Label()) == None
  {
  }

  /** java.time.LocalDate by its year, month (1..12) and day of month. */
  datatype Date = Date(year: int, month: int, day: int)

  /** Every field of a Cliente; None stands for null. */
  datatype ClienteData = ClienteData(
    id: int,
    cedula: Option<string>,
    nombreCompleto: Option<string>,
    telefono: Option<string>,
    direccion: Option<string>,
    tipoCabello: Option<TipoCabello>,
    tipoExtensiones: Option<string>,
    fechaCumpleanos: Option<Date>,
    fechaUltimoTinte: Option<Date>,
    fechaUltimoQuimico: Option<Date>,
    fechaUltimaKeratina: Option<Date>,
    fechaUltimoMantenimiento: Option<Date>)

  /** The fields of `new Cliente()`: id 0, every reference null. */
  const EmptyCliente: ClienteData := ClienteData(0, None, None, None, None, None, None, None, None, None, None, None)

  /** Whether a birthday falls on the given day: same month and day of month, any year; never for a null birthday. */
  predicate IsBirthday(birthday: Option<Date>, today: Date) {
    birthday.Some? && birthday.value.month == today.month && birthday.value.day == today.day
  }

  /** The year of either date plays no part. */
  lemma BirthdayIgnoresYear(b: Date, today: Date, y: int, y': int)
    ensures IsBirthday(Some(b), today) <==> IsBirthday(Some(b.(year := y)), today.(year := y'))
  {
  }

  /** A client without a birthday never has a birthday today. */
  lemma NoBirthdayNeverToday(today: Date)
    ensures !IsBirthday(None, today)
  {
  }

  /** A birthday is today exactly when it is the same date moved to today's year. */
  lemma BirthdayIffSameDateThisYear(b: Date, today: Date)
    ensures IsBirthday(Some(b), today) <==> b.(year := today.year) == today
  {
  }

  class Cliente {
    var id: int
    var cedula: Option<string>
    var nombreCompleto: Option<string>
    var telefono: Option<string>
    var direccion: Option<string>
    var tipoCabello: Option<TipoCabello>
    var tipoExtensiones: Option<string>
    var fechaCumpleanos: Option<Date>
    var fechaUltimoTinte: Option<Date>
    var fechaUltimoQuimico: Option<Date>
    var fechaUltimaKeratina: Option<Date>
    var fechaUltimoMantenimiento: Option<Date>

    /** Every field, as the getters return them. */
    function Data(): ClienteData
      reads this
    {
      ClienteData(id, cedula, nombreCompleto, telefono, direccion, tipoCabello, tipoExtensiones,
                  fechaCumpleanos, fechaUltimoTinte, fechaUltimoQuimico, fechaUltimaKeratina, fechaUltimoMantenimiento)
    }

    /** `new Cliente()`: the Java defaults. */
    constructor Empty()
      ensures Data() == EmptyCliente
    {
      id := 0;
      cedula, nombreCompleto, telefono, direccion := None, None, None, None;
      tipoCabello, tipoExtensiones := None, None;
      fechaCumpleanos, fechaUltimoTinte, fechaUltimoQuimico := None, None, None;
      fechaUltimaKeratina, fechaUltimoMantenimiento := None, None;
    }

    /** The twelve-argument constructor: each argument in its own field. */
    constructor (id: int, cedula: Option<string>, nombreCompleto: Option<string>, telefono: Option<string>,
                 direccion: Option<string>, tipoCabello: Option<TipoCabello>, tipoExtensiones: Option<string>,
                 fechaCumpleanos: Option<Date>, fechaUltimoTinte: Option<Date>, fechaUltimoQuimico: Option<Date>,
                 fechaUltimaKeratina: Option<Date>, fechaUltimoMantenimiento: Option<Date>)
      ensures Data() == ClienteData(id, cedula, nombreCompleto, telefono, direccion, tipoCabello, tipoExtensiones,
                                    fechaCumpleanos, fechaUltimoTinte, fechaUltimoQuimico, fechaUltimaKeratina,
                                    fechaUltimoMantenimiento)
    {
      this.id := id;
      this.cedula := cedula;
      this.nombreCompleto := nombreCompleto;
      this.telefono := telefono;
      this.direccion := direccion;
      this.tipoCabello := tipoCabello;
      this.tipoExtensiones := tipoExtensiones;
      this.fechaCumpleanos := fechaCumpleanos;
      this.fechaUltimoTinte := fechaUltimoTinte;
      this.fechaUltimoQuimico := fechaUltimoQuimico;
      this.fechaUltimaKeratina := fechaUltimaKeratina;
      this.fechaUltimoMantenimiento := fechaUltimoMantenimiento;
    }

    method SetId(id: int)
      modifies this
      ensures Data() == old(Data()).(id := id)
    {
      this.id := id;
    }

    method SetCedula(cedula: Option<string>)
      modifies this
      ensures Data() == old(Data()).(cedula := cedula)
    {
      this.cedula := cedula;
    }

    method SetNombreCompleto(nombreCompleto: Option<string>)
      modifies this
      ensures Data() == old(Data()).(nombreCompleto := nombreCompleto)
    {
      this.nombreCompleto := nombreCompleto;
    }

    method SetTelefono(telefono: Option<string>)
      modifies this
      ensures Data() == old(Data()).(telefono := telefono)
    {
      this.telefono := telefono;
    }

    method SetDireccion(direccion: Option<string>)
      modifies this
      ensures Data() == old(Data()).(direccion := direccion)
    {
      this.direccion := direccion;
    }

    method SetTipoCabello(tipoCabello: Option<TipoCabello>)
      modifies this
      ensures Data() == old(Data()).(tipoCabello := tipoCabello)
    {
      this.tipoCabello := tipoCabello;
    }

    method SetTipoExtensiones(tipoExtensiones: Option<string>)
      modifies this
      ensures Data() == old(Data()).(tipoExtensiones := tipoExtensiones)
    {
      this.tipoExtensiones := tipoExtensiones;
    }

    method SetFechaCumpleanos(fecha: Option<Date>)
      modifies this
      ensures Data() == old(Data()).(fechaCumpleanos := fecha)
    {
      fechaCumpleanos := fecha;
    }

    method SetFechaUltimoTinte(fecha: Option<Date>)
      modifies this
      ensures Data() == old(Data()).(fechaUltimoTinte := fecha)
    {
      fechaUltimoTinte := fecha;
    }

    method SetFechaUltimoQuimico(fecha: Option<Date>)
      modifies this
      ensures Data() == old(Data()).(fechaUltimoQuimico := fecha)
    {
      fechaUltimoQuimico := fecha;
    }

    method SetFechaUltimaKeratina(fecha: Option<Date>)
      modifies this
      ensures Data() == old(Data()).(fechaUltimaKeratina := fecha)
    {
      fechaUltimaKeratina := fecha;
    }

    method SetFechaUltimoMantenimiento(fecha: Option<Date>)
      modifies this
      ensures Data() == old(Data()).(fechaUltimoMantenimiento := fecha)
    {
      fechaUltimoMantenimiento := fecha;
    }

    /** esCumpleanosHoy(), with today's date passed in rather than read from the clock. */
    method EsCumpleanosHoy(today: Date) returns (b: bool)
      ensures b == IsBirthday(fechaCumpleanos, today)
    {
      if fechaCumpleanos.None? {
        return false;
      }
      b := today.month == fechaCumpleanos.value.month && today.day == fechaCumpleanos.value.day;
    }
  }
}
