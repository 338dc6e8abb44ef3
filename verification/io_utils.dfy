/** The pure parts of src/io_utils.py: how the loaders turn table rows into
    catalog entries, and how `guardar_orden` turns an order into a row and
    decides whether to write the header. Files are sequences of rows; a row is
    a sequence of cell strings. */
module IoUtils {
  import opened Wrappers
  import opened Text
  import opened Models
  import opened Services

  // ---------- Loaders ----------

  /** Raw rows of the four catalog tables; prices and credit already in cents. */
  datatype FilaMenu = FilaMenu(clave: string, nombre: string, precio: int)
  datatype FilaAlumno = FilaAlumno(matricula: string, nombre: string, carrera: string,
                                   fechaNacimiento: string, creditoDisponible: int)
  datatype FilaProfesor = FilaProfesor(numeroEmpleado: string, nombre: string, turno: string,
                                       estudioProfesional: string)
  datatype FilaAdministrativo = FilaAdministrativo(numeroEmpleado: string, nombre: string,
                                                   puesto: string)

  /** The loaders' loop `d[clave(fila)] = crear(fila)` over the rows in order. */
  function Indexar<R, V>(filas: seq<R>, clave: R -> string, crear: R -> V): (m: map<string, V>)
    ensures m.Keys == set i | 0 <= i < |filas| :: clave(filas[i])
    decreases |filas|
  {
    if |filas| == 0 then map[]
    else
      var n := |filas| - 1;
      var previo := Indexar(filas[..n], clave, crear);
      assert (set i | 0 <= i < |filas| :: clave(filas[i]))
             == (set i | 0 <= i < n :: clave(filas[..n][i])) + {clave(filas[n])} by {
        assert forall i :: 0 <= i < n ==> filas[..n][i] == filas[i];
      }
      previo[clave(filas[n]) := crear(filas[n])]
  }

  /** Every entry holds the record built from some row carrying its key. */
  lemma {:induction false} IndexarDeAlgunaFila<R, V>(filas: seq<R>, clave: R -> string, crear: R -> V, k: string)
    requires k in Indexar(filas, clave, crear)
    ensures exists i :: 0 <= i < |filas| && clave(filas[i]) == k
                        && Indexar(filas, clave, crear)[k] == crear(filas[i])
    decreases |filas|
  {
    var n := |filas| - 1;
    if clave(filas[n]) != k {
      IndexarDeAlgunaFila(filas[..n], clave, crear, k);
      var i :| 0 <= i < n && clave(filas[..n][i]) == k
               && Indexar(filas[..n], clave, crear)[k] == crear(filas[..n][i]);
      assert filas[..n][i] == filas[i];
    }
  }

  /** A property every row's key and record have holds of every entry. */
  lemma IndexarPreserva<R, V>(filas: seq<R>, clave: R -> string, crear: R -> V, p: (string, V) -> bool)
    requires forall i :: 0 <= i < |filas| ==> p(clave(filas[i]), crear(filas[i]))
    ensures forall k :: k in Indexar(filas, clave, crear) ==> p(k, Indexar(filas, clave, crear)[k])
  {
    forall k | k in Indexar(filas, clave, crear)
      ensures p(k, Indexar(filas, clave, crear)[k])
    {
      IndexarDeAlgunaFila(filas, clave, crear, k);
    }
  }

  /** A key holds the record of the last row that carried it. */
  lemma {:induction false} IndexarUltimaFila<R, V>(filas: seq<R>, clave: R -> string, crear: R -> V, i: nat)
    requires i < |filas|
    requires forall j :: i < j < |filas| ==> clave(filas[j]) != clave(filas[i])
    ensures Indexar(filas, clave, crear)[clave(filas[i])] == crear(filas[i])
    decreases |filas|
  {
    var n := |filas| - 1;
    if i < n {
      assert forall j :: i < j < n ==> filas[..n][j] == filas[j];
      IndexarUltimaFila(filas[..n], clave, crear, i);
      assert filas[..n][i] == filas[i];
    }
  }

  /** No later row carries the key of row `i`. */
  predicate UltimaDeSuClave<R>(filas: seq<R>, clave: R -> string, i: nat)
    requires i < |filas|
  {
    forall j :: i < j < |filas| ==> clave(filas[j]) != clave(filas[i])
  }

  /** Both directions at once: every entry comes from a row with its key, and
      a row that no later row overrides is what its key holds. */
  lemma IndexarFilas<R, V>(filas: seq<R>, clave: R -> string, crear: R -> V)
    ensures forall k :: k in Indexar(filas, clave, crear) ==>
                          exists i :: 0 <= i < |filas| && clave(filas[i]) == k &&
                                      Indexar(filas, clave, crear)[k] == crear(filas[i])
    ensures forall i :: 0 <= i < |filas| && UltimaDeSuClave(filas, clave, i) ==>
                          Indexar(filas, clave, crear)[clave(filas[i])] == crear(filas[i])
  {
    forall k | k in Indexar(filas, clave, crear)
      ensures exists i :: 0 <= i < |filas| && clave(filas[i]) == k
                          && Indexar(filas, clave, crear)[k] == crear(filas[i])
    {
      IndexarDeAlgunaFila(filas, clave, crear, k);
    }
    forall i | 0 <= i < |filas| && UltimaDeSuClave(filas, clave, i)
      ensures Indexar(filas, clave, crear)[clave(filas[i])] == crear(filas[i])
    {
      IndexarUltimaFila(filas, clave, crear, i);
    }
  }

  /** The index of the first row carrying key `k`, or `|filas|` when none does. */
  function PrimeraVez<R>(filas: seq<R>, clave: R -> string, k: string): (p: nat)
    ensures p <= |filas|
    ensures p < |filas| ==> clave(filas[p]) == k
    ensures forall a :: 0 <= a < p ==> clave(filas[a]) != k
    decreases |filas|
  {
    if |filas| == 0 then 0
    else
      var n := |filas| - 1;
      var p := PrimeraVez(filas[..n], clave, k);
      assert forall a :: 0 <= a < n ==> filas[..n][a] == filas[a];
      if p < n then p else if clave(filas[n]) == k then n else |filas|
  }

  /** The keys in the order a Python dict first saw them: a key that comes
      back keeps the place of its first row. */
  function OrdenInsercion<R>(filas: seq<R>, clave: R -> string): (ks: seq<string>)
    ensures Distinct(ks)
    ensures (set k | k in ks) == set i | 0 <= i < |filas| :: clave(filas[i])
    ensures forall i, j :: 0 <= i < j < |ks| ==>
      PrimeraVez(filas, clave, ks[i]) < PrimeraVez(filas, clave, ks[j]) < |filas|
    decreases |filas|
  {
    if |filas| == 0 then []
    else
      var n := |filas| - 1;
      var ks := OrdenInsercion(filas[..n], clave);
      assert (set i | 0 <= i < |filas| :: clave(filas[i]))
             == (set i | 0 <= i < n :: clave(filas[..n][i])) + {clave(filas[n])} by {
        assert forall i :: 0 <= i < n ==> filas[..n][i] == filas[i];
      }
      assert filas == filas[..n] + [filas[n]];
      PrimeraVezEnPrefijo(filas[..n], filas[n], clave, ks);
      if clave(filas[n]) in ks then ks
      else
        assert PrimeraVez(filas, clave, clave(filas[n])) == n by {
          assert PrimeraVez(filas[..n], clave, clave(filas[n])) == n;
        }
        ks + [clave(filas[n])]
  }

  /** Keys already seen before the last row keep their first index. */
  lemma PrimeraVezEnPrefijo<R>(previo: seq<R>, ultima: R, clave: R -> string, ks: seq<string>)
    requires (set k | k in ks) == set i | 0 <= i < |previo| :: clave(previo[i])
    ensures forall i :: 0 <= i < |ks| ==>
      PrimeraVez(previo + [ultima], clave, ks[i]) == PrimeraVez(previo, clave, ks[i]) < |previo|
  {
    var filas := previo + [ultima];
    assert filas[..|previo|] == previo;
    forall i | 0 <= i < |ks|
      ensures PrimeraVez(previo, clave, ks[i]) < |previo|
    {
      var k := ks[i];
      var vistas := set j | 0 <= j < |previo| :: clave(previo[j]);
      assert k in (set x | x in ks);
      assert k in vistas;
      var a :| 0 <= a < |previo| && clave(previo[a]) == k;
    }
  }

  function MenuItemDeFila(f: FilaMenu): MenuItem {
    MenuItem(Strip(f.clave), Strip(f.nombre), f.precio)
  }

  function AlumnoDeFila(f: FilaAlumno): ClienteAlumno {
    Alumno(Strip(f.matricula), Strip(f.nombre), Strip(f.carrera),
           Strip(f.fechaNacimiento), f.creditoDisponible)
  }

  function ProfesorDeFila(f: FilaProfesor): ClienteProfesor {
    Profesor(Strip(f.numeroEmpleado), Strip(f.nombre), Strip(f.turno),
             Strip(f.estudioProfesional))
  }

  function AdministrativoDeFila(f: FilaAdministrativo): ClienteAdministrativo {
    Administrativo(Strip(f.numeroEmpleado), Strip(f.nombre), Strip(f.puesto))
  }

  function ClaveMenu(f: FilaMenu): string { f.clave }
  function MatriculaAlumno(f: FilaAlumno): string { f.matricula }
  function EmpleadoProfesor(f: FilaProfesor): string { f.numeroEmpleado }
  function EmpleadoAdministrativo(f: FilaAdministrativo): string { f.numeroEmpleado }

  /** `cargar_menu`: keyed by the raw `clave` cell, holding trimmed text. */
  function CargarMenu(filas: seq<FilaMenu>): (m: map<string, MenuItem>)
    ensures m.Keys == set i | 0 <= i < |filas| :: filas[i].clave
    ensures forall k :: k in m ==> m[k].clave == Strip(k) && Stripped(m[k].nombre)
    ensures forall k :: k in m ==>
                          exists i :: 0 <= i < |filas| && filas[i].clave == k &&
                                      m[k] == MenuItem(Strip(filas[i].clave), Strip(filas[i].nombre), filas[i].precio)
    ensures forall i :: 0 <= i < |filas| && UltimaDeSuClave(filas, ClaveMenu, i) ==>
                          m[filas[i].clave] == MenuItem(Strip(filas[i].clave), Strip(filas[i].nombre), filas[i].precio)
  {
    IndexarPreserva(filas, ClaveMenu, MenuItemDeFila,
                    (k, v: MenuItem) => v.clave == Strip(k) && Stripped(v.nombre));
    IndexarFilas(filas, ClaveMenu, MenuItemDeFila);
    Indexar(filas, ClaveMenu, MenuItemDeFila)
  }

  /** `cargar_alumnos`: keyed by the raw `matricula` cell, holding trimmed text. */
  function CargarAlumnos(filas: seq<FilaAlumno>): (m: map<string, ClienteAlumno>)
    ensures m.Keys == set i | 0 <= i < |filas| :: filas[i].matricula
    ensures forall k :: k in m ==>
      && m[k].idPublico == Strip(k) && Stripped(m[k].nombre)
      && Stripped(m[k].carrera) && Stripped(m[k].fechaNacimiento)
    ensures forall k :: k in m ==>
                          exists i :: 0 <= i < |filas| && filas[i].matricula == k &&
                                      m[k] == Alumno(Strip(filas[i].matricula), Strip(filas[i].nombre), Strip(filas[i].carrera),
                                                     Strip(filas[i].fechaNacimiento), filas[i].creditoDisponible)
    ensures forall i :: 0 <= i < |filas| && UltimaDeSuClave(filas, MatriculaAlumno, i) ==>
                          m[filas[i].matricula] == Alumno(Strip(filas[i].matricula), Strip(filas[i].nombre), Strip(filas[i].carrera),
                                                     Strip(filas[i].fechaNacimiento), filas[i].creditoDisponible)
  {
    IndexarPreserva(filas, MatriculaAlumno, AlumnoDeFila,
                    (k, v: ClienteAlumno) => v.idPublico == Strip(k) && Stripped(v.nombre)
                                             && Stripped(v.carrera) && Stripped(v.fechaNacimiento));
    IndexarFilas(filas, MatriculaAlumno, AlumnoDeFila);
    Indexar(filas, MatriculaAlumno, AlumnoDeFila)
  }

  /** `cargar_profesores`: keyed by the raw `numero_empleado` cell. */
  function CargarProfesores(filas: seq<FilaProfesor>): (m: map<string, ClienteProfesor>)
    ensures m.Keys == set i | 0 <= i < |filas| :: filas[i].numeroEmpleado
    ensures forall k :: k in m ==>
      && m[k].idPublico == Strip(k) && Stripped(m[k].nombre)
      && Stripped(m[k].turno) && Stripped(m[k].estudioProfesional)
    ensures forall k :: k in m ==>
                          exists i :: 0 <= i < |filas| && filas[i].numeroEmpleado == k &&
                                      m[k] == Profesor(Strip(filas[i].numeroEmpleado), Strip(filas[i].nombre), Strip(filas[i].turno),
                                                       Strip(filas[i].estudioProfesional))
    ensures forall i :: 0 <= i < |filas| && UltimaDeSuClave(filas, EmpleadoProfesor, i) ==>
                          m[filas[i].numeroEmpleado] == Profesor(Strip(filas[i].numeroEmpleado), Strip(filas[i].nombre), Strip(filas[i].turno),
                                                       Strip(filas[i].estudioProfesional))
  {
    IndexarPreserva(filas, EmpleadoProfesor, ProfesorDeFila,
                    (k, v: ClienteProfesor) => v.idPublico == Strip(k) && Stripped(v.nombre)
                                               && Stripped(v.turno) && Stripped(v.estudioProfesional));
    IndexarFilas(filas, EmpleadoProfesor, ProfesorDeFila);
    Indexar(filas, EmpleadoProfesor, ProfesorDeFila)
  }

  /** `cargar_administrativos`: keyed by the raw `numero_empleado` cell. */
  function CargarAdministrativos(filas: seq<FilaAdministrativo>): (m: map<string, ClienteAdministrativo>)
    ensures m.Keys == set i | 0 <= i < |filas| :: filas[i].numeroEmpleado
    ensures forall k :: k in m ==>
      m[k].idPublico == Strip(k) && Stripped(m[k].nombre) && Stripped(m[k].puesto)
    ensures forall k :: k in m ==>
                          exists i :: 0 <= i < |filas| && filas[i].numeroEmpleado == k &&
                                      m[k] == Administrativo(Strip(filas[i].numeroEmpleado), Strip(filas[i].nombre),
                                                             Strip(filas[i].puesto))
    ensures forall i :: 0 <= i < |filas| && UltimaDeSuClave(filas, EmpleadoAdministrativo, i) ==>
                          m[filas[i].numeroEmpleado] == Administrativo(Strip(filas[i].numeroEmpleado), Strip(filas[i].nombre),
                                                             Strip(filas[i].puesto))
  {
    IndexarPreserva(filas, EmpleadoAdministrativo, AdministrativoDeFila,
                    (k, v: ClienteAdministrativo) => v.idPublico == Strip(k) && Stripped(v.nombre)
                                                     && Stripped(v.puesto));
    IndexarFilas(filas, EmpleadoAdministrativo, AdministrativoDeFila);
    Indexar(filas, EmpleadoAdministrativo, AdministrativoDeFila)
  }

  /** The service as the entry point builds it from the four tables, with the
      menu listed in load order. */
  function CafeteriaDeTablas(menu: seq<FilaMenu>, alumnos: seq<FilaAlumno>,
                             profesores: seq<FilaProfesor>,
                             administrativos: seq<FilaAdministrativo>): (c: Cafeteria)
    ensures c.MenuEnOrden()
    ensures c.menu == CargarMenu(menu) && c.alumnos == CargarAlumnos(alumnos)
    ensures c.profesores == CargarProfesores(profesores)
    ensures c.administrativos == CargarAdministrativos(administrativos)
    ensures forall i, j :: 0 <= i < j < |c.claves| ==>
      PrimeraVez(menu, ClaveMenu, c.claves[i]) < PrimeraVez(menu, ClaveMenu, c.claves[j]) < |menu|
  {
    Cafeteria(CargarMenu(menu), OrdenInsercion(menu, ClaveMenu),
              CargarAlumnos(alumnos), CargarProfesores(profesores),
              CargarAdministrativos(administrativos))
  }

  // ---------- The items cell ----------

  /** One line as `clave:cantidad`. */
  function TextoItem(it: OrdenItem): string {
    it.claveItem + ":" + IntDecimal(it.cantidad)
  }

  function TextosItems(items: seq<OrdenItem>): (ts: seq<string>)
    ensures |ts| == |items|
    ensures forall i :: 0 <= i < |items| ==> ts[i] == TextoItem(items[i])
    decreases |items|
  {
    if |items| == 0 then [] else [TextoItem(items[0])] + TextosItems(items[1..])
  }

  /** The `items` cell: the lines as `clave:cantidad`, joined by `|`. */
  function CeldaItems(items: seq<OrdenItem>): (s: string)
    ensures s == "" <==> |items| == 0
  {
    var ts := TextosItems(items);
    if |items| > 0 then
      assert ':' in ts[0];
      CeldaNoVacia(ts);
      Join(ts, '|')
    else Join(ts, '|')
  }

  lemma {:induction false} CeldaNoVacia(ts: seq<string>)
    requires |ts| > 0 && |ts[0]| > 0
    ensures Join(ts, '|') != ""
  {
    if |ts| > 1 {
      assert |Join(ts, '|')| >= |ts[0]|;
    }
  }

  /** Reads one `clave:cantidad` piece. */
  function LeerItem(p: string): Option<OrdenItem> {
    var campos := Split(p, ':');
    if |campos| == 2 && ParseInt(campos[1]).Some? then
      Some(OrdenItem(campos[0], ParseInt(campos[1]).value))
    else None
  }

  function LeerItems(ps: seq<string>): (r: Option<seq<OrdenItem>>)
    ensures r.Some? ==> |r.value| == |ps|
    decreases |ps|
  {
    if |ps| == 0 then Some([])
    else match (LeerItem(ps[0]), LeerItems(ps[1..]))
      case (Some(it), Some(resto)) => Some([it] + resto)
      case _ => None
  }

  /** Splits an `items` cell on `|` and then on `:`; the empty cell is the
      empty list of lines (Python's `"".split("|")` is `[""]`, not `[]`). */
  function LeerCeldaItems(s: string): Option<seq<OrdenItem>> {
    if s == "" then Some([]) else LeerItems(Split(s, '|'))
  }

  /** No key contains either separator. */
  predicate ClavesSinSeparadores(items: seq<OrdenItem>) {
    forall i :: 0 <= i < |items| ==> ':' !in items[i].claveItem && '|' !in items[i].claveItem
  }

  lemma SinSeparadorEnNumero(n: int, c: char)
    requires c == ':' || c == '|'
    ensures c !in IntDecimal(n)
  {
  }

  lemma LeerItemDeTexto(it: OrdenItem)
    requires ':' !in it.claveItem
    ensures LeerItem(TextoItem(it)) == Some(it)
  {
    var num := IntDecimal(it.cantidad);
    SinSeparadorEnNumero(it.cantidad, ':');
    assert TextoItem(it) == it.claveItem + [':'] + num;
    SplitAtFirstSeparator(it.claveItem, ':', num);
    SplitWithoutSeparator(num, ':');
    ParseIntDecimal(it.cantidad);
  }

  lemma {:induction false} LeerItemsDeTextos(items: seq<OrdenItem>)
    requires ClavesSinSeparadores(items)
    ensures LeerItems(TextosItems(items)) == Some(items)
    decreases |items|
  {
    if |items| > 0 {
      LeerItemDeTexto(items[0]);
      LeerItemsDeTextos(items[1..]);
      var ts := TextosItems(items);
      assert ts[1..] == TextosItems(items[1..]);
      assert items == [items[0]] + items[1..];
    }
  }

  /** The items cell reads back as the original lines, in order, whenever no
      key contains `:` or `|`. */
  lemma LeerCeldaItemsDeCelda(items: seq<OrdenItem>)
    requires ClavesSinSeparadores(items)
    ensures LeerCeldaItems(CeldaItems(items)) == Some(items)
  {
    if |items| > 0 {
      var ts := TextosItems(items);
      forall i | 0 <= i < |ts| ensures '|' !in ts[i] {
        SinSeparadorEnNumero(items[i].cantidad, '|');
      }
      SplitJoin(ts, '|');
      LeerItemsDeTextos(items);
    }
  }

  // ---------- The total cell: "{:.2f}" of the total in cents ----------

  /** The unsigned part of a two-decimal numeral for `n` cents. */
  function Cuerpo(n: nat): (s: string)
    ensures |s| >= 4 && s[|s| - 3] == '.' && IsDigit(s[0])
  {
    Decimal(n / 100) + "." + Fixed(n % 100, 2)
  }

  /** `"{:.2f}".format(total)` for a total of `c` cents. */
  function FormatoCentavos(c: int): (s: string)
    ensures |s| >= 4 && s[|s| - 3] == '.'
    ensures c < 0 <==> s[0] == '-'
  {
    if c < 0 then "-" + Cuerpo(-c) else Cuerpo(c)
  }

  function LeerCuerpo(s: string): Option<nat> {
    if |s| >= 4 && s[|s| - 3] == '.' && AllDigits(s[..|s| - 3]) && AllDigits(s[|s| - 2..])
    then Some(ParseNat(s[..|s| - 3]) * 100 + ParseNat(s[|s| - 2..]))
    else None
  }

  /** Reads a numeral with exactly two decimals back into cents. */
  function LeerCentavos(s: string): Option<int> {
    if |s| > 0 && s[0] == '-' then
      match LeerCuerpo(s[1..])
      case Some(v) => Some(-(v as int))
      case None => None
    else
      match LeerCuerpo(s)
      case Some(v) => Some(v as int)
      case None => None
  }

  lemma LeerCuerpoDeCuerpo(n: nat)
    ensures LeerCuerpo(Cuerpo(n)) == Some(n)
  {
    var s := Cuerpo(n);
    assert s[..|s| - 3] == Decimal(n / 100);
    assert s[|s| - 2..] == Fixed(n % 100, 2);
    ParseDecimal(n / 100);
    ParseFixed(n % 100, 2);
  }

  /** The total cell reads back as the total. */
  lemma LeerCentavosDeFormato(c: int)
    ensures LeerCentavos(FormatoCentavos(c)) == Some(c)
  {
    var s := FormatoCentavos(c);
    if c < 0 {
      LeerCuerpoDeCuerpo(-c);
      assert s == "-" + Cuerpo(-c);
      assert s[1..] == Cuerpo(-c);
    } else {
      LeerCuerpoDeCuerpo(c);
      assert s == Cuerpo(c) && s[0] != '-';
    }
  }

  // ---------- The order row and the file ----------

  /** The column names, in the order `guardar_orden` writes them. */
  const Campos: seq<string> := [
    "id_orden", "cliente_tipo", "cliente_id", "items",
    "fecha_solicitud", "hora_solicitud", "forma_pago",
    "total", "tiempo_estimado_min", "entrega", "aula", "hora_estimada_entrega"
  ]

  /** `orden.aula or ""`: blank when absent or empty. */
  function CeldaAula(aula: Option<string>): (s: string)
    ensures s == "" <==> aula.None? || aula.value == ""
    ensures aula.Some? ==> s == aula.value
  {
    if aula.Some? then aula.value else ""
  }

  /** A dict with one entry per column name. */
  function Diccionario(idOrden: string, clienteTipo: string, clienteId: string, items: string,
                       fechaSolicitud: string, horaSolicitud: string, formaPago: string,
                       total: string, tiempoEstimadoMin: string, entrega: string, aula: string,
                       horaEstimadaEntrega: string): (d: map<string, string>)
    ensures d.Keys == set c | c in Campos
  {
    map["id_orden" := idOrden,
        "cliente_tipo" := clienteTipo,
        "cliente_id" := clienteId,
        "items" := items,
        "fecha_solicitud" := fechaSolicitud,
        "hora_solicitud" := horaSolicitud,
        "forma_pago" := formaPago,
        "total" := total,
        "tiempo_estimado_min" := tiempoEstimadoMin,
        "entrega" := entrega,
        "aula" := aula,
        "hora_estimada_entrega" := horaEstimadaEntrega]
  }

  /** The dict `guardar_orden` hands to the writer, keyed by column name, with
      `hora` as the derived ready time. */
  function Registro(o: Orden, hora: string): (d: map<string, string>)
    ensures d.Keys == set c | c in Campos
  {
    Diccionario(idOrden := o.idOrden,
                clienteTipo := o.clienteTipo.Value(),
                clienteId := o.clienteId,
                items := CeldaItems(o.items),
                fechaSolicitud := o.fechaSolicitud,
                horaSolicitud := o.horaSolicitud,
                formaPago := o.formaPago.Value(),
                total := FormatoCentavos(o.total),
                tiempoEstimadoMin := IntDecimal(o.tiempoEstimadoMin),
                entrega := o.entrega.Value(),
                aula := CeldaAula(o.aula),
                horaEstimadaEntrega := hora)
  }

  /** Twelve cells listed in the order of `Campos` are the dict's values
      looked up by the column names. */
  lemma FilaSegunDiccionario(c0: string, c1: string, c2: string, c3: string,
                              c4: string, c5: string, c6: string, c7: string,
                              c8: string, c9: string, c10: string, c11: string)
    ensures forall i :: 0 <= i < |Campos| ==>
      Fila12(c0, c1, c2, c3, c4, c5, c6, c7, c8, c9, c10, c11)[i]
      == Diccionario(c0, c1, c2, c3, c4, c5, c6, c7, c8, c9, c10, c11)[Campos[i]]
  {
  }

  /** `DictWriter` writes the dict's values in the order of `Campos`. */
  lemma CeldasSegunRegistro(o: Orden, hora: string)
    ensures |Celdas(o, hora)| == |Campos|
    ensures forall i :: 0 <= i < |Campos| ==> Celdas(o, hora)[i] == Registro(o, hora)[Campos[i]]
  {
    FilaSegunDiccionario(o.idOrden, o.clienteTipo.Value(), o.clienteId, CeldaItems(o.items),
                         o.fechaSolicitud, o.horaSolicitud, o.formaPago.Value(),
                         FormatoCentavos(o.total), IntDecimal(o.tiempoEstimadoMin),
                         o.entrega.Value(), CeldaAula(o.aula), hora);
  }

  /** The data row of an order, cell by cell in the order of `Campos`; `None`
      where computing `hora_estimada_entrega` raises. */
  function FilaOrden(o: Orden): (r: Option<seq<string>>)
    ensures r.Some? <==> o.HoraEstimadaEntrega().Some?
    ensures r.Some? ==> |r.value| == |Campos|
    ensures r.Some? ==> r.value[1] == o.clienteTipo.Value() && r.value[1] != Campos[1]
    ensures r.Some? ==> r.value[11] == o.HoraEstimadaEntrega().value
    ensures r.Some? ==> forall i :: 0 <= i < |Campos| ==>
                          r.value[i] == Registro(o, o.HoraEstimadaEntrega().value)[Campos[i]]
  {
    var h := o.HoraEstimadaEntrega();
    if h.None? then None
    else
      assert o.clienteTipo.Value() != Campos[1];
      CeldasSegunRegistro(o, h.value);
      Some(Celdas(o, h.value))
  }

  /** Reads a data row back into an order; the derived last cell is skipped
      and a blank `aula` cell reads as absent. */
  function LeerFila(f: seq<string>): Option<Orden> {
    if |f| != 12 then None
    else
      var tipo := TipoClienteDeValor(f[1]);
      var items := LeerCeldaItems(f[3]);
      var forma := FormaPagoDeValor(f[6]);
      var total := LeerCentavos(f[7]);
      var tiempo := ParseInt(f[8]);
      var entrega := TipoEntregaDeValor(f[9]);
      if tipo.Some? && items.Some? && forma.Some? && total.Some? && tiempo.Some? && entrega.Some? then
        Some(Orden(f[0], tipo.value, f[2], items.value, f[4], f[5], forma.value,
                   total.value, tiempo.value, entrega.value,
                   if f[10] == "" then None else Some(f[10])))
      else None
  }

  /** An order with a blank `aula` normalised to absent, as the file keeps it. */
  function SinAulaVacia(o: Orden): Orden {
    if o.aula == Some("") then o.(aula := None) else o
  }

  /** A row of twelve cells. It exists for the proofs: its contract names each
      cell by index, so that they never unfold a twelve-element display. */
  function Fila12(c0: string, c1: string, c2: string, c3: string, c4: string, c5: string,
                  c6: string, c7: string, c8: string, c9: string, c10: string, c11: string): (f: seq<string>)
    ensures |f| == 12 && f[0] == c0 && f[1] == c1 && f[2] == c2 && f[3] == c3
    ensures f[4] == c4 && f[5] == c5 && f[6] == c6 && f[7] == c7
    ensures f[8] == c8 && f[9] == c9 && f[10] == c10 && f[11] == c11
  {
    [c0, c1, c2, c3, c4, c5, c6, c7, c8, c9, c10, c11]
  }

  /** The cells of an order's row, with any text in the derived last cell. */
  function Celdas(o: Orden, hora: string): seq<string> {
    Fila12(o.idOrden, o.clienteTipo.Value(), o.clienteId, CeldaItems(o.items),
           o.fechaSolicitud, o.horaSolicitud, o.formaPago.Value(),
           FormatoCentavos(o.total), IntDecimal(o.tiempoEstimadoMin),
           o.entrega.Value(), CeldaAula(o.aula), hora)
  }

  /** A row whose cells read back as the fields of `o` reads back as `o`. */
  lemma LeerFilaDeCampos(f: seq<string>, o: Orden)
    requires |f| == 12 && f[0] == o.idOrden && f[2] == o.clienteId
    requires f[4] == o.fechaSolicitud && f[5] == o.horaSolicitud
    requires TipoClienteDeValor(f[1]) == Some(o.clienteTipo)
    requires LeerCeldaItems(f[3]) == Some(o.items)
    requires FormaPagoDeValor(f[6]) == Some(o.formaPago)
    requires LeerCentavos(f[7]) == Some(o.total)
    requires ParseInt(f[8]) == Some(o.tiempoEstimadoMin)
    requires TipoEntregaDeValor(f[9]) == Some(o.entrega)
    requires (if f[10] == "" then None else Some(f[10])) == SinAulaVacia(o).aula
    ensures LeerFila(f) == Some(SinAulaVacia(o))
  {
  }

  /** Reading the cells back ignores the derived last cell. */
  lemma LeerCeldas(o: Orden, hora: string)
    requires ClavesSinSeparadores(o.items)
    ensures LeerFila(Celdas(o, hora)) == Some(SinAulaVacia(o))
  {
    LeerCeldaItemsDeCelda(o.items);
    LeerCentavosDeFormato(o.total);
    ParseIntDecimal(o.tiempoEstimadoMin);
    LeerFilaDeCampos(Celdas(o, hora), o);
  }

  /** Every stored field of an order survives a write and a read, as long as
      no item key contains `:` or `|`. */
  lemma LeerFilaDeFilaOrden(o: Orden)
    requires ClavesSinSeparadores(o.items)
    ensures FilaOrden(o).Some? ==> LeerFila(FilaOrden(o).value) == Some(SinAulaVacia(o))
  {
    if FilaOrden(o).Some? {
      assert FilaOrden(o).value == Celdas(o, o.HoraEstimadaEntrega().value);
      LeerCeldas(o, o.HoraEstimadaEntrega().value);
    }
  }

  /** The file after a call to `guardar_orden`, and whether the data row got
      written (the header is written before the row is built). */
  datatype Guardado = Guardado(archivo: seq<seq<string>>, escrito: bool)

  /** `guardar_orden`: opening with `append` keeps the file, otherwise it is
      truncated; an empty file first gets the header; then the order's row. */
  function GuardarOrden(archivo: seq<seq<string>>, o: Orden, append: bool := true): (r: Guardado)
    ensures var inicial := if append then archivo else [];
      && |inicial| <= |r.archivo| && r.archivo[..|inicial|] == inicial
      && |r.archivo| == |inicial| + (if |inicial| == 0 then 1 else 0) + (if r.escrito then 1 else 0)
      && (|inicial| == 0 ==> r.archivo[0] == Campos)
    ensures r.escrito <==> o.HoraEstimadaEntrega().Some?
    ensures r.escrito ==> r.archivo[|r.archivo| - 1] == FilaOrden(o).value
  {
    var inicial := if append then archivo else [];
    var conEncabezado := if |inicial| == 0 then [Campos] else inicial;
    match FilaOrden(o)
    case None => Guardado(conEncabezado, false)
    case Some(fila) => Guardado(conEncabezado + [fila], true)
  }

  /** A file holds the header once, as its first row, and no other row. */
  predicate EncabezadoUnico(archivo: seq<seq<string>>) {
    |archivo| > 0 ==>
      archivo[0] == Campos && forall i :: 1 <= i < |archivo| ==> archivo[i] != Campos
  }

  /** Appending orders to a file that began empty never repeats the header. */
  lemma GuardarConservaEncabezado(archivo: seq<seq<string>>, o: Orden, append: bool)
    requires EncabezadoUnico(archivo)
    ensures EncabezadoUnico(GuardarOrden(archivo, o, append).archivo)
  {
    var r := GuardarOrden(archivo, o, append);
    if r.escrito {
      var fila := FilaOrden(o).value;
      assert fila[1] != Campos[1];
    }
  }
}
