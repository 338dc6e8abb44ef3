/** The demonstration order: a student pays two `A01` and one `B01` from
    credit, delivered to room `B-203`, with a menu priced in cents. */
module Scenarios {
  import opened Wrappers
  import opened Models
  import opened Services
  import opened IoUtils

  const Cafe := MenuItem("A01", "Cafe americano", 1000)
  const Torta := MenuItem("B01", "Torta de jamon", 2500)
  const Ana: ClienteAlumno := Alumno("2023001", "Ana", "Sistemas", "2004-05-01", 10000)

  function Servicio(credito: int): Cafeteria {
    Cafeteria(map["A01" := Cafe, "B01" := Torta], ["A01", "B01"],
              map["2023001" := Ana.(creditoDisponible := credito)], map[], map[])
  }

  const Ahora := Instante(2025, 3, 14, 10, 30, 5)
  const Pedido: seq<(string, int)> := [("A01", 2), ("B01", 1)]

  /** With enough credit the order goes through, costs 45.00, takes 14
      minutes and leaves the student 55.00. */
  lemma DemoConCredito()
    ensures var r := CrearOrden(Servicio(10000), ALUMNO, "2023001", Pedido, CREDITO, AULA, Ahora, Some("B-203"));
            && r.orden.Success?
            && r.orden.value.total == 4500
            && r.orden.value.tiempoEstimadoMin == 14
            && r.servicio.alumnos["2023001"].creditoDisponible == 5500
  {
    var lineas := [OrdenItem("A01", 2), OrdenItem("B01", 1)];
    assert Normalizar(Pedido) == lineas;
    assert Importe(Servicio(10000).menu, lineas) == 4500;
    assert Unidades(lineas) == 3;
  }

  /** With 10.00 of credit the same order is refused and nothing changes. */
  lemma DemoSinCredito()
    ensures var r := CrearOrden(Servicio(1000), ALUMNO, "2023001", Pedido, CREDITO, AULA, Ahora, Some("B-203"));
            r.orden == Failure(CreditoInsuficiente) && r.servicio == Servicio(1000)
  {
    var lineas := [OrdenItem("A01", 2), OrdenItem("B01", 1)];
    assert Normalizar(Pedido) == lineas;
    assert Importe(Servicio(1000).menu, lineas) == 4500;
  }

  /** A key missing from the menu is reported by name. */
  lemma DemoClaveInexistente()
    ensures CrearOrden(Servicio(10000), ALUMNO, "2023001", [("Z99", 1)], EFECTIVO, CAFETERIA, Ahora).orden
            == Failure(ClaveInexistente("Z99"))
  {
    assert Normalizar([("Z99", 1)]) == [OrdenItem("Z99", 1)];
  }

  /** The items cell of the demonstration order. */
  lemma DemoCeldaItems()
    ensures CeldaItems([OrdenItem("A01", 2), OrdenItem("B01", 1)]) == "A01:2|B01:1"
  {
    assert Text.DigitChar(2) == '2' && Text.DigitChar(1) == '1';
    assert Text.IntDecimal(2) == "2" && Text.IntDecimal(1) == "1";
    assert TextoItem(OrdenItem("A01", 2)) == "A01:2";
    assert TextoItem(OrdenItem("B01", 1)) == "B01:1";
    assert TextosItems([OrdenItem("A01", 2), OrdenItem("B01", 1)]) == ["A01:2", "B01:1"];
  }
}
