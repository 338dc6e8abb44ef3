/** The order-construction service `CafeteriaService` (src/services.py):
    catalog queries, the pricing, timing and payment rules, and `crear_orden`,
    which runs its guards in a fixed order and only then debits credit.

    The service's four catalogs are injected (the intended constructor) and
    the only state that changes is a student's credit, so the service is a
    value and `CrearOrden` returns the service as it is after the call. */
module Services {
  import opened Wrappers
  import opened Text
  import opened Models

  /** The `ValueError`s the service raises, one constructor per message. */
  datatype Falla =
    | OrdenVacia            // "La orden debe contener al menos un artículo."
    | FaltaAula             // "Debe especificar el aula para entrega en aula."
    | ClienteNoEncontrado   // "Cliente no encontrado."
    | ClaveInexistente(clave: string)  // "Clave de menú inexistente: <clave>"
    | CreditoNoPermitido    // "El pago con crédito solo aplica a alumnos."
    | CreditoInsuficiente   // "Crédito insuficiente del alumno."

  /** The service's catalogs. `claves` is the insertion order of `menu`,
      the order in which a Python dict lists its values. */
  datatype Cafeteria = Cafeteria(
    menu: map<string, MenuItem>,
    claves: seq<string>,
    alumnos: map<string, ClienteAlumno>,
    profesores: map<string, ClienteProfesor>,
    administrativos: map<string, ClienteAdministrativo>)
  {
    /** `claves` lists every menu key exactly once. */
    predicate MenuEnOrden() {
      Distinct(claves) && menu.Keys == set k | k in claves
    }
  }

  // ---------- Queries ----------

  /** `listar_menu`: every menu entry once, in insertion order. */
  function ListarMenu(c: Cafeteria): (r: seq<MenuItem>)
    requires c.MenuEnOrden()
    ensures |r| == |c.menu| == |c.claves|
    ensures forall i :: 0 <= i < |r| ==> r[i] == c.menu[c.claves[i]]
    ensures forall k :: k in c.menu ==> c.menu[k] in r
    ensures forall i :: 0 <= i < |r| ==> r[i] in c.menu.Values
  {
    DistinctCardinality(c.claves);
    assert c.menu.Keys == set x | x in c.claves;
    var r := seq(|c.claves|, i requires 0 <= i < |c.claves| => c.menu[c.claves[i]]);
    assert forall k :: k in c.menu ==> c.menu[k] in r by {
      forall k | k in c.menu
        ensures c.menu[k] in r
      {
        assert k in set x | x in c.claves;
        var i :| 0 <= i < |c.claves| && c.claves[i] == k;
        assert r[i] == c.menu[k];
      }
    }
    r
  }

  /** `buscar_cliente`: the entry of the catalog that `tipo` selects, or
      `None` when the id is not in it. */
  function BuscarCliente(c: Cafeteria, tipo: TipoCliente, id: string): (r: Option<Cliente>)
    ensures r.Some? ==> r.value.Tipo() == tipo
    ensures tipo == ALUMNO ==>
      (r.Some? <==> id in c.alumnos) && (r.Some? ==> r.value == c.alumnos[id])
    ensures tipo == PROFESOR ==>
      (r.Some? <==> id in c.profesores) && (r.Some? ==> r.value == c.profesores[id])
    ensures tipo == ADMINISTRATIVO ==>
      (r.Some? <==> id in c.administrativos) && (r.Some? ==> r.value == c.administrativos[id])
  {
    match tipo
    case ALUMNO => if id in c.alumnos then Some(c.alumnos[id]) else None
    case PROFESOR => if id in c.profesores then Some(c.profesores[id]) else None
    case ADMINISTRATIVO => if id in c.administrativos then Some(c.administrativos[id]) else None
  }

  // ---------- Pricing ----------

  predicate ClavesEnMenu(menu: map<string, MenuItem>, items: seq<OrdenItem>) {
    forall i :: 0 <= i < |items| ==> items[i].claveItem in menu
  }

  function Monto(menu: map<string, MenuItem>, it: OrdenItem): int
    requires it.claveItem in menu
  {
    menu[it.claveItem].precio * it.cantidad
  }

  /** Σ precio × cantidad, accumulated left to right as the source's loop does. */
  function Importe(menu: map<string, MenuItem>, items: seq<OrdenItem>): int
    requires ClavesEnMenu(menu, items)
    decreases |items|
  {
    if |items| == 0 then 0
    else Importe(menu, items[..|items| - 1]) + Monto(menu, items[|items| - 1])
  }

  lemma {:induction false} ImporteConcat(menu: map<string, MenuItem>, a: seq<OrdenItem>, b: seq<OrdenItem>)
    requires ClavesEnMenu(menu, a) && ClavesEnMenu(menu, b)
    ensures ClavesEnMenu(menu, a + b)
    ensures Importe(menu, a + b) == Importe(menu, a) + Importe(menu, b)
    decreases |b|
  {
    assert ClavesEnMenu(menu, a + b) by {
      forall i | 0 <= i < |a + b| ensures (a + b)[i].claveItem in menu {
        if i >= |a| { assert (a + b)[i] == b[i - |a|]; }
      }
    }
    if |b| > 0 {
      var b' := b[..|b| - 1];
      assert ClavesEnMenu(menu, b');
      ImporteConcat(menu, a, b');
      assert (a + b)[..|a + b| - 1] == a + b';
      assert (a + b)[|a + b| - 1] == b[|b| - 1];
      assert Importe(menu, b) == Importe(menu, b') + Monto(menu, b[|b| - 1]);
    } else {
      assert a + b == a;
    }
  }

  /** `calcular_total`: fails at the first line whose key is not on the menu,
      naming that key; otherwise the sum of the line amounts. */
  function CalcularTotal(menu: map<string, MenuItem>, items: seq<OrdenItem>): (r: Result<int, Falla>)
    ensures r.Success? <==> ClavesEnMenu(menu, items)
    ensures r.Success? ==> r.value == Importe(menu, items)
    ensures r.Failure? ==>
      exists i :: 0 <= i < |items| && items[i].claveItem !in menu
                  && (forall j :: 0 <= j < i ==> items[j].claveItem in menu)
                  && r.error == ClaveInexistente(items[i].claveItem)
    decreases |items|
  {
    if |items| == 0 then Success(0)
    else if items[0].claveItem !in menu then Failure(ClaveInexistente(items[0].claveItem))
    else
      assert items == [items[0]] + items[1..];
      match CalcularTotal(menu, items[1..])
      case Failure(e) =>
        assert exists i :: 0 <= i < |items| && items[i].claveItem !in menu
                  && (forall j :: 0 <= j < i ==> items[j].claveItem in menu)
                  && e == ClaveInexistente(items[i].claveItem);
        Failure(e)
      case Success(t) =>
        ImporteConcat(menu, [items[0]], items[1..]);
        Success(Monto(menu, items[0]) + t)
  }

  /** Removing one line takes exactly its amount off the sum. */
  lemma ImporteSinLinea(menu: map<string, MenuItem>, b: seq<OrdenItem>, j: nat)
    requires j < |b| && ClavesEnMenu(menu, b)
    ensures ClavesEnMenu(menu, b[..j] + b[j + 1..])
    ensures Importe(menu, b) == Monto(menu, b[j]) + Importe(menu, b[..j] + b[j + 1..])
  {
    assert ClavesEnMenu(menu, b[..j]) && ClavesEnMenu(menu, b[j + 1..]);
    ImporteConcat(menu, b[..j], [b[j]]);
    ImporteConcat(menu, b[..j] + [b[j]], b[j + 1..]);
    ImporteConcat(menu, b[..j], b[j + 1..]);
    assert b == b[..j] + [b[j]] + b[j + 1..];
  }

  /** Sequences with the same multiset have the same elements. */
  lemma MismosElementos<T>(a: seq<T>, b: seq<T>)
    requires multiset(a) == multiset(b)
    ensures forall x :: x in a <==> x in b
  {
    forall x ensures x in a <==> x in b {
      assert x in a <==> x in multiset(a);
      assert x in b <==> x in multiset(b);
    }
  }

  /** Taking the same element off two permutations of each other leaves
      permutations of each other. */
  lemma SinComun<T>(a: seq<T>, b: seq<T>, j: nat)
    requires multiset(a) == multiset(b) && |a| > 0 && j < |b| && b[j] == a[0]
    ensures multiset(a[1..]) == multiset(b[..j] + b[j + 1..])
  {
    var x := a[0];
    assert b == b[..j] + [b[j]] + b[j + 1..];
    assert a == [x] + a[1..];
    assert multiset(b) == multiset(b[..j]) + multiset([x]) + multiset(b[j + 1..]);
    assert multiset(b[..j] + b[j + 1..]) == multiset(b[..j]) + multiset(b[j + 1..]);
    assert multiset(a[1..]) == multiset(a) - multiset([x]);
  }

  /** Lines that are a permutation of priceable lines are priceable, to the
      same sum. */
  lemma {:induction false} ImportePermutacion(menu: map<string, MenuItem>, a: seq<OrdenItem>, b: seq<OrdenItem>)
    requires multiset(a) == multiset(b) && ClavesEnMenu(menu, a)
    ensures ClavesEnMenu(menu, b) && Importe(menu, a) == Importe(menu, b)
    decreases |a|
  {
    MismosElementos(a, b);
    forall i | 0 <= i < |b| ensures b[i].claveItem in menu {
      assert b[i] in a;
    }
    if |a| > 0 {
      assert a[0] in multiset(b);
      var j :| 0 <= j < |b| && b[j] == a[0];
      SinComun(a, b, j);
      ImporteSinLinea(menu, b, j);
      ImporteSinLinea(menu, a, 0);
      assert a[..0] + a[1..] == a[1..];
      ImportePermutacion(menu, a[1..], b[..j] + b[j + 1..]);
    }
  }

  /** The total does not depend on the order of the lines. */
  lemma CalcularTotalPermutacion(menu: map<string, MenuItem>, a: seq<OrdenItem>, b: seq<OrdenItem>)
    requires multiset(a) == multiset(b)
    ensures CalcularTotal(menu, a).Success? <==> CalcularTotal(menu, b).Success?
    ensures CalcularTotal(menu, a).Success? ==> CalcularTotal(menu, a) == CalcularTotal(menu, b)
  {
    if ClavesEnMenu(menu, a) {
      ImportePermutacion(menu, a, b);
    } else if ClavesEnMenu(menu, b) {
      ImportePermutacion(menu, b, a);
    }
  }

  // ---------- Preparation time ----------

  /** Σ cantidad over the lines. */
  function Unidades(items: seq<OrdenItem>): int
    decreases |items|
  {
    if |items| == 0 then 0 else Unidades(items[..|items| - 1]) + items[|items| - 1].cantidad
  }

  lemma {:induction false} UnidadesConcat(a: seq<OrdenItem>, b: seq<OrdenItem>)
    ensures Unidades(a + b) == Unidades(a) + Unidades(b)
    decreases |b|
  {
    if |b| > 0 {
      UnidadesConcat(a, b[..|b| - 1]);
      assert (a + b)[..|a + b| - 1] == a + b[..|b| - 1];
      assert (a + b)[|a + b| - 1] == b[|b| - 1];
    } else {
      assert a + b == a;
    }
  }

  lemma {:induction false} UnidadesPositivas(b: seq<OrdenItem>)
    requires forall i :: 0 <= i < |b| ==> b[i].cantidad > 0
    ensures Unidades(b) >= |b|
    decreases |b|
  {
    if |b| > 0 {
      UnidadesPositivas(b[..|b| - 1]);
    }
  }

  /** `estimar_tiempo`: five minutes of base plus three per unit, counting at
      least one unit. */
  function EstimarTiempo(items: seq<OrdenItem>): (r: int)
    ensures r >= 8
    ensures Unidades(items) <= 1 ==> r == 8
    ensures Unidades(items) >= 1 ==> r == 5 + 3 * Unidades(items)
  {
    var unidades := Unidades(items);
    5 + 3 * (if unidades > 1 then unidades else 1)
  }

  /** More units never take less time. */
  lemma EstimarTiempoMonotono(a: seq<OrdenItem>, b: seq<OrdenItem>)
    requires Unidades(a) <= Unidades(b)
    ensures EstimarTiempo(a) <= EstimarTiempo(b)
  {
  }

  /** Adding lines of positive quantity never shortens the estimate; each
      added unit costs three minutes once there is at least one unit. */
  lemma EstimarTiempoAlAgregar(a: seq<OrdenItem>, b: seq<OrdenItem>)
    requires forall i :: 0 <= i < |b| ==> b[i].cantidad > 0
    ensures EstimarTiempo(a) <= EstimarTiempo(a + b)
    ensures Unidades(a) >= 1 ==> EstimarTiempo(a + b) == EstimarTiempo(a) + 3 * Unidades(b)
  {
    UnidadesConcat(a, b);
    UnidadesPositivas(b);
  }

  // ---------- Payment ----------

  /** `validar_pago`: credit is for students only and must cover the total;
      cash and card are always accepted. */
  function ValidarPago(cliente: Cliente, forma: FormaPago, total: int): (r: Outcome<Falla>)
    ensures forma != CREDITO ==> r == Pass
    ensures forma == CREDITO && !cliente.Alumno? ==> r == Fail(CreditoNoPermitido)
    ensures forma == CREDITO && cliente.Alumno? ==>
      (r == Pass <==> total <= cliente.creditoDisponible)
      && (r != Pass ==> r == Fail(CreditoInsuficiente))
  {
    if forma == CREDITO then
      if cliente.Tipo() != ALUMNO then Fail(CreditoNoPermitido)
      else if cliente.creditoDisponible < total then Fail(CreditoInsuficiente)
      else Pass
    else Pass
  }

  /** The debit is made on the catalog entry the customer was found in. */
  predicate EsEntradaDe(c: Cafeteria, clienteId: string, cliente: Cliente) {
    cliente.Alumno? ==> clienteId in c.alumnos && c.alumnos[clienteId] == cliente
  }

  /** `aplicar_pago`: for a student paying by credit, the student's credit
      becomes old − total; nothing else changes. */
  function AplicarPago(c: Cafeteria, clienteId: string, cliente: Cliente,
                       forma: FormaPago, total: int): (r: Cafeteria)
    requires forma == CREDITO ==> EsEntradaDe(c, clienteId, cliente)
    ensures r.menu == c.menu && r.claves == c.claves
    ensures r.profesores == c.profesores && r.administrativos == c.administrativos
    ensures r.alumnos.Keys == c.alumnos.Keys
    ensures forall k :: k in c.alumnos && k != clienteId ==> r.alumnos[k] == c.alumnos[k]
    ensures forma == CREDITO && cliente.Alumno? ==>
      r.alumnos[clienteId] == cliente.(creditoDisponible := cliente.creditoDisponible - total)
    ensures !(forma == CREDITO && cliente.Alumno?) ==> r == c
  {
    if forma == CREDITO && cliente.Alumno? then
      var debitado: ClienteAlumno := cliente.(creditoDisponible := cliente.creditoDisponible - total);
      c.(alumnos := c.alumnos[clienteId := debitado])
    else c
  }

  /** A debit that `validar_pago` allowed leaves a non-negative balance. */
  lemma PagoValidadoNoSobregira(c: Cafeteria, clienteId: string, cliente: Cliente, total: int)
    requires EsEntradaDe(c, clienteId, cliente) && cliente.Alumno?
    requires ValidarPago(cliente, CREDITO, total) == Pass
    ensures AplicarPago(c, clienteId, cliente, CREDITO, total).alumnos[clienteId].creditoDisponible
            == c.alumnos[clienteId].creditoDisponible - total >= 0
  {
  }

  // ---------- Order assembly ----------

  /** The list comprehension of `crear_orden`: one line per input pair whose
      quantity is positive, in input order. */
  function Normalizar(items: seq<(string, int)>): (r: seq<OrdenItem>)
    ensures |r| <= |items|
    ensures forall i :: 0 <= i < |r| ==> r[i].cantidad > 0
    decreases |items|
  {
    if |items| == 0 then []
    else if items[0].1 > 0 then [OrdenItem(items[0].0, items[0].1)] + Normalizar(items[1..])
    else Normalizar(items[1..])
  }

  /** Every line comes from an input pair, and every pair with a positive
      quantity gives a line. */
  lemma {:induction false} NormalizarMiembros(items: seq<(string, int)>)
    ensures forall i :: 0 <= i < |Normalizar(items)| ==>
      (Normalizar(items)[i].claveItem, Normalizar(items)[i].cantidad) in items
    ensures forall i :: 0 <= i < |items| && items[i].1 > 0 ==>
      OrdenItem(items[i].0, items[i].1) in Normalizar(items)
    decreases |items|
  {
    if |items| > 0 {
      NormalizarMiembros(items[1..]);
      var r := Normalizar(items);
      var resto := Normalizar(items[1..]);
      assert forall i :: 1 <= i < |items| ==> items[i] == items[1..][i - 1];
      assert forall x :: x in items[1..] ==> x in items;
      if items[0].1 > 0 {
        assert r == [OrdenItem(items[0].0, items[0].1)] + resto;
        assert forall i :: 1 <= i < |r| ==> r[i] == resto[i - 1];
      } else {
        assert r == resto;
      }
    }
  }

  /** Normalising a concatenation normalises each part. */
  lemma {:induction false} NormalizarConcat(a: seq<(string, int)>, b: seq<(string, int)>)
    ensures Normalizar(a + b) == Normalizar(a) + Normalizar(b)
    decreases |a|
  {
    if |a| > 0 {
      NormalizarConcat(a[1..], b);
      assert (a + b)[1..] == a[1..] + b;
      assert (a + b)[0] == a[0];
      if a[0].1 > 0 {
        var x := [OrdenItem(a[0].0, a[0].1)];
        assert x + (Normalizar(a[1..]) + Normalizar(b)) == (x + Normalizar(a[1..])) + Normalizar(b);
      }
    } else {
      assert a + b == b;
    }
  }

  /** With only positive quantities nothing is dropped. */
  lemma {:induction false} NormalizarSinFiltro(items: seq<(string, int)>)
    requires forall i :: 0 <= i < |items| ==> items[i].1 > 0
    ensures |Normalizar(items)| == |items|
    ensures forall i :: 0 <= i < |items| ==>
      Normalizar(items)[i] == OrdenItem(items[i].0, items[i].1)
    decreases |items|
  {
    if |items| > 0 {
      NormalizarSinFiltro(items[1..]);
    }
  }

  /** With no positive quantity every line is dropped. */
  lemma {:induction false} NormalizarTodoFiltrado(items: seq<(string, int)>)
    requires forall i :: 0 <= i < |items| ==> items[i].1 <= 0
    ensures Normalizar(items) == []
    decreases |items|
  {
    if |items| > 0 {
      NormalizarTodoFiltrado(items[1..]);
    }
  }

  /** The order id `ORD-<YYYYMMDDHHMMSS>-<cliente_id>`. */
  function IdOrden(ahora: Instante, clienteId: string): (id: string)
    ensures |id| == 19 + |clienteId|
    ensures id[..4] == "ORD-" && id[18] == '-' && id[19..] == clienteId
    ensures id[4..18] == ahora.Sello() && AllDigits(id[4..18])
  {
    "ORD-" + ahora.Sello() + "-" + clienteId
  }

  /** Reads an order id back into its clock reading and customer id. */
  function LeerIdOrden(id: string): Option<(Instante, string)> {
    if |id| >= 19 && id[..4] == "ORD-" && AllDigits(id[4..18]) && id[18] == '-' then
      var d := id[4..18];
      assert AllDigits(d[0..4]) && AllDigits(d[4..6]) && AllDigits(d[6..8]);
      assert AllDigits(d[8..10]) && AllDigits(d[10..12]) && AllDigits(d[12..14]);
      Some((Instante(ParseNat(d[0..4]), ParseNat(d[4..6]), ParseNat(d[6..8]),
                     ParseNat(d[8..10]), ParseNat(d[10..12]), ParseNat(d[12..14])),
            id[19..]))
    else None
  }

  /** The id determines the clock reading (to the second) and the customer. */
  lemma LeerIdOrdenDeIdOrden(ahora: Instante, clienteId: string)
    requires ahora.WellFormed()
    ensures LeerIdOrden(IdOrden(ahora, clienteId)) == Some((ahora, clienteId))
  {
    var d := ahora.Sello();
    var pre := Fixed(ahora.year, 4) + Fixed(ahora.month, 2) + Fixed(ahora.day, 2)
               + Fixed(ahora.hour, 2) + Fixed(ahora.minute, 2);
    assert d == pre + Fixed(ahora.second, 2);
    assert d[..12] == pre;
    assert d[0..4] == Fixed(ahora.year, 4);
    assert d[4..6] == Fixed(ahora.month, 2);
    assert d[6..8] == Fixed(ahora.day, 2);
    assert d[8..10] == Fixed(ahora.hour, 2);
    assert d[10..12] == Fixed(ahora.minute, 2);
    assert d[12..14] == Fixed(ahora.second, 2);
    ParseFixed(ahora.year, 4);
    ParseFixed(ahora.month, 2);
    ParseFixed(ahora.day, 2);
    ParseFixed(ahora.hour, 2);
    ParseFixed(ahora.minute, 2);
    ParseFixed(ahora.second, 2);
  }

  /** The outcome of `crear_orden`: the order or the error it raised, and the
      service as the call leaves it. */
  datatype Salida = Salida(orden: Result<Orden, Falla>, servicio: Cafeteria)

  predicate FaltaAulaEn(entrega: TipoEntrega, aula: Option<string>) {
    entrega == AULA && (aula.None? || aula.value == "")
  }

  /** `crear_orden`, with the clock reading `ahora` passed in. */
  function CrearOrden(c: Cafeteria, clienteTipo: TipoCliente, clienteId: string,
                      items: seq<(string, int)>, formaPago: FormaPago,
                      entrega: TipoEntrega, ahora: Instante,
                      aula: Option<string> := None): (r: Salida)
    // The guards, in order.
    ensures |items| == 0 ==> r.orden == Failure(OrdenVacia)
    ensures |items| > 0 && FaltaAulaEn(entrega, aula) ==> r.orden == Failure(FaltaAula)
    ensures |items| > 0 && !FaltaAulaEn(entrega, aula) && BuscarCliente(c, clienteTipo, clienteId).None?
            ==> r.orden == Failure(ClienteNoEncontrado)
    ensures |items| > 0 && !FaltaAulaEn(entrega, aula) && BuscarCliente(c, clienteTipo, clienteId).Some?
            && CalcularTotal(c.menu, Normalizar(items)).Failure?
            ==> r.orden == Failure(CalcularTotal(c.menu, Normalizar(items)).error)
    ensures |items| > 0 && !FaltaAulaEn(entrega, aula) && BuscarCliente(c, clienteTipo, clienteId).Some?
            && CalcularTotal(c.menu, Normalizar(items)).Success?
            && ValidarPago(BuscarCliente(c, clienteTipo, clienteId).value, formaPago,
                           CalcularTotal(c.menu, Normalizar(items)).value).Fail?
            ==> r.orden == Failure(ValidarPago(BuscarCliente(c, clienteTipo, clienteId).value, formaPago,
                                               CalcularTotal(c.menu, Normalizar(items)).value).error)
    // A request that passes every guard succeeds.
    ensures r.orden.Success? <==>
      && |items| > 0 && !FaltaAulaEn(entrega, aula)
      && BuscarCliente(c, clienteTipo, clienteId).Some?
      && CalcularTotal(c.menu, Normalizar(items)).Success?
      && ValidarPago(BuscarCliente(c, clienteTipo, clienteId).value, formaPago,
                     CalcularTotal(c.menu, Normalizar(items)).value) == Pass
    // A failed call changes nothing.
    ensures r.orden.Failure? ==> r.servicio == c
    // A successful call passed every guard and built the order from its arguments.
    ensures r.orden.Success? ==>
      var o := r.orden.value;
      && |items| > 0 && !FaltaAulaEn(entrega, aula)
      && BuscarCliente(c, clienteTipo, clienteId).Some?
      && ValidarPago(BuscarCliente(c, clienteTipo, clienteId).value, formaPago, o.total) == Pass
      && o.items == Normalizar(items)
      && CalcularTotal(c.menu, o.items) == Success(o.total)
      && o.tiempoEstimadoMin == EstimarTiempo(o.items)
      && o.idOrden == IdOrden(ahora, clienteId)
      && o.clienteTipo == clienteTipo && o.clienteId == clienteId
      && o.formaPago == formaPago && o.entrega == entrega && o.aula == aula
      && o.fechaSolicitud == ahora.Fecha() && o.horaSolicitud == ahora.Hora()
    // Only a student's credit moves, and only when paying by credit.
    ensures r.orden.Success? ==>
      && r.servicio.menu == c.menu && r.servicio.claves == c.claves
      && r.servicio.profesores == c.profesores
      && r.servicio.administrativos == c.administrativos
      && r.servicio.alumnos.Keys == c.alumnos.Keys
      && (forall k :: k in c.alumnos && k != clienteId ==> r.servicio.alumnos[k] == c.alumnos[k])
    ensures r.orden.Success? && formaPago != CREDITO ==> r.servicio == c
    ensures r.orden.Success? && formaPago == CREDITO ==>
      && clienteTipo == ALUMNO && clienteId in c.alumnos
      && r.servicio.alumnos[clienteId]
         == c.alumnos[clienteId].(creditoDisponible := c.alumnos[clienteId].creditoDisponible - r.orden.value.total)
      && r.servicio.alumnos[clienteId].creditoDisponible >= 0
  {
    if |items| == 0 then Salida(Failure(OrdenVacia), c)
    else if FaltaAulaEn(entrega, aula) then Salida(Failure(FaltaAula), c)
    else match BuscarCliente(c, clienteTipo, clienteId)
      case None => Salida(Failure(ClienteNoEncontrado), c)
      case Some(cliente) =>
        var lineas := Normalizar(items);
        match CalcularTotal(c.menu, lineas)
        case Failure(e) => Salida(Failure(e), c)
        case Success(total) =>
          match ValidarPago(cliente, formaPago, total)
          case Fail(e) => Salida(Failure(e), c)
          case Pass =>
            var tiempo := EstimarTiempo(lineas);
            var id := IdOrden(ahora, clienteId);
            var despues := AplicarPago(c, clienteId, cliente, formaPago, total);
            Salida(Success(Orden(id, clienteTipo, clienteId, lineas, ahora.Fecha(), ahora.Hora(),
                                 formaPago, total, tiempo, entrega, aula)),
                   despues)
  }

  /** A student whose credit covers an order of known keys, paying by credit,
      gets the order and is left with the credit minus the total. */
  lemma CrearOrdenConCredito(c: Cafeteria, clienteId: string, items: seq<(string, int)>,
                             entrega: TipoEntrega, ahora: Instante, aula: Option<string>)
    requires |items| > 0 && !FaltaAulaEn(entrega, aula)
    requires clienteId in c.alumnos
    requires ClavesEnMenu(c.menu, Normalizar(items))
    requires Importe(c.menu, Normalizar(items)) <= c.alumnos[clienteId].creditoDisponible
    ensures var r := CrearOrden(c, ALUMNO, clienteId, items, CREDITO, entrega, ahora, aula);
            && r.orden.Success?
            && r.orden.value.total == Importe(c.menu, Normalizar(items))
            && r.servicio.alumnos[clienteId].creditoDisponible
               == c.alumnos[clienteId].creditoDisponible - Importe(c.menu, Normalizar(items))
  {
  }

  /** When every quantity is non-positive the order still goes through, with
      no lines, a zero total and the eight-minute floor. */
  lemma CrearOrdenSinLineasPositivas(c: Cafeteria, clienteTipo: TipoCliente, clienteId: string,
                                     items: seq<(string, int)>, formaPago: FormaPago,
                                     entrega: TipoEntrega, ahora: Instante, aula: Option<string>)
    requires |items| > 0 && forall i :: 0 <= i < |items| ==> items[i].1 <= 0
    requires !FaltaAulaEn(entrega, aula)
    requires BuscarCliente(c, clienteTipo, clienteId).Some?
    requires ValidarPago(BuscarCliente(c, clienteTipo, clienteId).value, formaPago, 0) == Pass
    ensures var r := CrearOrden(c, clienteTipo, clienteId, items, formaPago, entrega, ahora, aula);
            && r.orden.Success?
            && r.orden.value.items == [] && r.orden.value.total == 0
            && r.orden.value.tiempoEstimadoMin == 8
  {
    NormalizarTodoFiltrado(items);
  }

  /** A successful order records the clock reading: its id reads back to it
      and its `timestamp` recovers it to the minute, so its ready time exists. */
  lemma CrearOrdenSellada(c: Cafeteria, clienteTipo: TipoCliente, clienteId: string,
                          items: seq<(string, int)>, formaPago: FormaPago,
                          entrega: TipoEntrega, ahora: Instante, aula: Option<string>)
    requires ahora.WellFormed()
    requires CrearOrden(c, clienteTipo, clienteId, items, formaPago, entrega, ahora, aula).orden.Success?
    ensures var o := CrearOrden(c, clienteTipo, clienteId, items, formaPago, entrega, ahora, aula).orden.value;
            && LeerIdOrden(o.idOrden) == Some((ahora, clienteId))
            && o.Timestamp() == Some(FechaHora(ahora.year, ahora.month, ahora.day, ahora.hour, ahora.minute))
            && o.HoraEstimadaEntrega().Some?
  {
    var o := CrearOrden(c, clienteTipo, clienteId, items, formaPago, entrega, ahora, aula).orden.value;
    LeerIdOrdenDeIdOrden(ahora, clienteId);
    TimestampDeInstante(o, ahora);
  }
}
