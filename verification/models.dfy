/** The data model of the cafeteria (src/models.py): the three enumerations,
    the customer variants, menu entries, order lines, the order record and
    its two derived properties, `timestamp` and `hora_estimada_entrega`.
    Money is held in integer cents. */
module Models {
  import opened Wrappers
  import opened Text

  // ---------- Enumerations and their `.value` strings ----------

  datatype TipoCliente = ALUMNO | PROFESOR | ADMINISTRATIVO {
    function Value(): string {
      match this
      case ALUMNO => "alumno"
      case PROFESOR => "profesor"
      case ADMINISTRATIVO => "administrativo"
    }
  }

  datatype FormaPago = EFECTIVO | TARJETA | CREDITO {
    function Value(): string {
      match this
      case EFECTIVO => "efectivo"
      case TARJETA => "tarjeta"
      case CREDITO => "credito"
    }
  }

  datatype TipoEntrega = AULA | CAFETERIA {
    function Value(): string {
      match this
      case AULA => "aula"
      case CAFETERIA => "cafeteria"
    }
  }

  /** Lookup by value, `TipoCliente(s)`: the member whose `.value` is `s`. */
  function TipoClienteDeValor(s: string): (r: Option<TipoCliente>)
    ensures forall t: TipoCliente :: r == Some(t) <==> t.Value() == s
  {
    if s == "alumno" then Some(ALUMNO)
    else if s == "profesor" then Some(PROFESOR)
    else if s == "administrativo" then Some(ADMINISTRATIVO)
    else None
  }

  function FormaPagoDeValor(s: string): (r: Option<FormaPago>)
    ensures forall f: FormaPago :: r == Some(f) <==> f.Value() == s
  {
    if s == "efectivo" then Some(EFECTIVO)
    else if s == "tarjeta" then Some(TARJETA)
    else if s == "credito" then Some(CREDITO)
    else None
  }

  function TipoEntregaDeValor(s: string): (r: Option<TipoEntrega>)
    ensures forall e: TipoEntrega :: r == Some(e) <==> e.Value() == s
  {
    if s == "aula" then Some(AULA)
    else if s == "cafeteria" then Some(CAFETERIA)
    else None
  }

  // ---------- Customers ----------

  /** The customer hierarchy `Cliente` / `Alumno` / `Profesor` /
      `Administrativo` as one sum type. The `tipo` field of the base class is
      not stored: each variant fixes it, as the intended constructors do. */
  datatype Cliente =
    | Alumno(idPublico: string, nombre: string, carrera: string,
             fechaNacimiento: string, creditoDisponible: int)
    | Profesor(idPublico: string, nombre: string, turno: string,
               estudioProfesional: string)
    | Administrativo(idPublico: string, nombre: string, puesto: string)
  {
    function Tipo(): (t: TipoCliente)
      ensures t == ALUMNO <==> Alumno?
      ensures t == PROFESOR <==> Profesor?
      ensures t == ADMINISTRATIVO <==> Administrativo?
    {
      match this
      case Alumno(_, _, _, _, _) => ALUMNO
      case Profesor(_, _, _, _) => PROFESOR
      case Administrativo(_, _, _) => ADMINISTRATIVO
    }
  }

  /** The value types of the three customer catalogs. */
  type ClienteAlumno = c: Cliente | c.Alumno? witness Alumno("", "", "", "", 0)
  type ClienteProfesor = c: Cliente | c.Profesor? witness Profesor("", "", "", "")
  type ClienteAdministrativo = c: Cliente | c.Administrativo? witness Administrativo("", "", "")

  // ---------- Menu entries and order lines ----------

  /** A dish or drink; `precio` is the unit price in cents. */
  datatype MenuItem = MenuItem(clave: string, nombre: string, precio: int)

  datatype OrdenItem = OrdenItem(claveItem: string, cantidad: int)

  // ---------- Clock readings and their text forms ----------

  /** A reading of the clock, `datetime.now()`, down to the second. */
  datatype Instante = Instante(year: nat, month: nat, day: nat,
                               hour: nat, minute: nat, second: nat)
  {
    /** Field ranges of a `datetime` whose year `%Y` prints with four digits. */
    predicate WellFormed() {
      && 1000 <= year <= 9999 && 1 <= month <= 12 && 1 <= day <= 31
      && hour < 24 && minute < 60 && second < 60
    }

    /** `strftime("%Y-%m-%d")` */
    function Fecha(): string {
      FormatFecha(year, month, day)
    }

    /** `strftime("%H:%M")` */
    function Hora(): string {
      FormatHora(hour, minute)
    }

    /** `strftime("%Y%m%d%H%M%S")` */
    function Sello(): (s: string)
      ensures |s| == 14 && AllDigits(s)
    {
      Fixed(year, 4) + Fixed(month, 2) + Fixed(day, 2)
      + Fixed(hour, 2) + Fixed(minute, 2) + Fixed(second, 2)
    }
  }

  function FormatFecha(year: nat, month: nat, day: nat): string {
    Fixed(year, 4) + "-" + Fixed(month, 2) + "-" + Fixed(day, 2)
  }

  function FormatHora(hour: nat, minute: nat): string {
    Fixed(hour, 2) + ":" + Fixed(minute, 2)
  }

  /** What `strptime(…, "%Y-%m-%d %H:%M")` yields: a `datetime` with seconds 0. */
  datatype FechaHora = FechaHora(year: nat, month: nat, day: nat, hour: nat, minute: nat)
  {
    predicate InRange() {
      && 1 <= year <= 9999 && 1 <= month <= 12 && 1 <= day <= 31 && hour < 24 && minute < 60
    }

    function Texto(): string {
      FormatFecha(year, month, day) + " " + FormatHora(hour, minute)
    }
  }

  /** `datetime.strptime(s, "%Y-%m-%d %H:%M")` on zero-padded fields; `None`
      where Python raises `ValueError`. */
  function ParseFechaHora(s: string): (r: Option<FechaHora>)
    ensures r.Some? ==> r.value.InRange() && r.value.Texto() == s
  {
    if && |s| == 16 && s[4] == '-' && s[7] == '-' && s[10] == ' ' && s[13] == ':'
       && AllDigits(s[0..4]) && AllDigits(s[5..7]) && AllDigits(s[8..10])
       && AllDigits(s[11..13]) && AllDigits(s[14..16])
    then
      var fh := FechaHora(ParseNat(s[0..4]), ParseNat(s[5..7]), ParseNat(s[8..10]),
                          ParseNat(s[11..13]), ParseNat(s[14..16]));
      if fh.InRange() then
        TextoDeCampos(s);
        Some(fh)
      else None
    else None
  }

  /** A string of the shape `DDDD-DD-DD DD:DD` is the text of its own fields. */
  lemma TextoDeCampos(s: string)
    requires |s| == 16 && s[4] == '-' && s[7] == '-' && s[10] == ' ' && s[13] == ':'
    requires AllDigits(s[0..4]) && AllDigits(s[5..7]) && AllDigits(s[8..10])
    requires AllDigits(s[11..13]) && AllDigits(s[14..16])
    ensures FechaHora(ParseNat(s[0..4]), ParseNat(s[5..7]), ParseNat(s[8..10]),
                      ParseNat(s[11..13]), ParseNat(s[14..16])).Texto() == s
  {
    FixedOfParse(s[0..4]);
    FixedOfParse(s[5..7]);
    FixedOfParse(s[8..10]);
    FixedOfParse(s[11..13]);
    FixedOfParse(s[14..16]);
    var fecha := s[0..4] + "-" + s[5..7] + "-" + s[8..10];
    var hora := s[11..13] + ":" + s[14..16];
    assert fecha == s[..10];
    assert hora == s[11..];
    assert s == s[..10] + " " + s[11..];
  }

  /** Parsing the text of an in-range reading gives the reading back. */
  lemma ParseTexto(fh: FechaHora)
    requires fh.InRange()
    ensures ParseFechaHora(fh.Texto()) == Some(fh)
  {
    var s := fh.Texto();
    assert s[0..4] == Fixed(fh.year, 4);
    assert s[5..7] == Fixed(fh.month, 2);
    assert s[8..10] == Fixed(fh.day, 2);
    assert s[11..13] == Fixed(fh.hour, 2);
    assert s[14..16] == Fixed(fh.minute, 2);
    ParseFixed(fh.year, 4);
    ParseFixed(fh.month, 2);
    ParseFixed(fh.day, 2);
    ParseFixed(fh.hour, 2);
    ParseFixed(fh.minute, 2);
  }

  /** Reads a zero-padded `HH:MM` with an hour below 24 and a minute below 60,
      giving the minute of the day it names. */
  function ParseHora(s: string): (r: Option<nat>)
    ensures r.Some? ==> r.value < 1440
  {
    if |s| == 5 && s[2] == ':' && AllDigits(s[0..2]) && AllDigits(s[3..5])
       && ParseNat(s[0..2]) < 24 && ParseNat(s[3..5]) < 60
    then Some(ParseNat(s[0..2]) * 60 + ParseNat(s[3..5]))
    else None
  }

  /** The `HH:MM` text of a minute of the day. */
  function HoraDelDia(m: nat): (s: string)
    requires m < 1440
    ensures ParseHora(s) == Some(m)
  {
    var s := FormatHora(m / 60, m % 60);
    assert s[0..2] == Fixed(m / 60, 2) && s[3..5] == Fixed(m % 60, 2);
    ParseFixed(m / 60, 2);
    ParseFixed(m % 60, 2);
    s
  }

  // ---------- Orders ----------

  /** A complete order. `total` is in cents; `aula` is absent unless given. */
  datatype Orden = Orden(
    idOrden: string,
    clienteTipo: TipoCliente,
    clienteId: string,
    items: seq<OrdenItem>,
    fechaSolicitud: string,
    horaSolicitud: string,
    formaPago: FormaPago,
    total: int,
    tiempoEstimadoMin: int,
    entrega: TipoEntrega,
    aula: Option<string> := None)
  {
    /** The `timestamp` property: request date and time read back with
        `%Y-%m-%d %H:%M`; `None` where `strptime` raises. */
    function Timestamp(): (r: Option<FechaHora>)
      ensures r.Some? ==> r.value.InRange()
      ensures r.Some? ==> |fechaSolicitud| == 10 && |horaSolicitud| == 5
      ensures r.Some? ==> FormatHora(r.value.hour, r.value.minute) == horaSolicitud
      ensures r.Some? ==> FormatFecha(r.value.year, r.value.month, r.value.day) == fechaSolicitud
    {
      var s := fechaSolicitud + " " + horaSolicitud;
      var r := ParseFechaHora(s);
      if r.Some? then
        // The only blank of a well-formed reading sits at index 10.
        assert s[|fechaSolicitud|] == ' ';
        assert |fechaSolicitud| == 10;
        assert fechaSolicitud == s[..10] && horaSolicitud == s[11..];
        r
      else r
    }

    /** The `hora_estimada_entrega` property: the request time plus the
        estimated minutes, wrapped round the 24-hour clock, as `HH:MM`. */
    function HoraEstimadaEntrega(): (r: Option<string>)
      ensures r.Some? <==> Timestamp().Some?
      ensures r.Some? ==>
        var t := Timestamp().value;
        ParseHora(r.value) == Some((t.hour * 60 + t.minute + tiempoEstimadoMin) % 1440)
    {
      match Timestamp()
      case None => None
      case Some(t) => Some(HoraDelDia((t.hour * 60 + t.minute + tiempoEstimadoMin) % 1440))
    }
  }

  /** The ready time is always a well-formed clock reading, even past midnight. */
  lemma HoraEstimadaBienFormada(o: Orden)
    ensures o.HoraEstimadaEntrega().Some? ==>
            var h := o.HoraEstimadaEntrega().value;
            |h| == 5 && h[2] == ':' && AllDigits(h[0..2]) && AllDigits(h[3..5])
            && ParseNat(h[0..2]) < 24 && ParseNat(h[3..5]) < 60
  {
  }

  lemma MinutoDelDia(h: nat, mi: nat)
    requires h < 24 && mi < 60
    ensures h * 60 + mi < 1440
    ensures (h * 60 + mi) % 1440 == h * 60 + mi
    ensures (h * 60 + mi) / 60 == h && (h * 60 + mi) % 60 == mi
  {
  }

  /** With no preparation time the ready time is the request time. */
  lemma {:induction false} HoraEstimadaSinDemora(o: Orden)
    requires o.tiempoEstimadoMin == 0 && o.Timestamp().Some?
    ensures o.HoraEstimadaEntrega() == Some(o.horaSolicitud)
  {
    var t := o.Timestamp().value;
    var m := t.hour * 60 + t.minute;
    MinutoDelDia(t.hour, t.minute);
    assert o.HoraEstimadaEntrega() == Some(HoraDelDia(m));
    assert HoraDelDia(m) == FormatHora(m / 60, m % 60);
  }

  /** The request date and time written from a clock reading are read back
      by `timestamp` as that reading, minus its seconds. */
  lemma TimestampDeInstante(o: Orden, ahora: Instante)
    requires ahora.WellFormed()
    requires o.fechaSolicitud == ahora.Fecha() && o.horaSolicitud == ahora.Hora()
    ensures o.Timestamp() == Some(FechaHora(ahora.year, ahora.month, ahora.day,
                                            ahora.hour, ahora.minute))
  {
    ParseTexto(FechaHora(ahora.year, ahora.month, ahora.day, ahora.hour, ahora.minute));
  }
}
