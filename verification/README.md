# Cafeteria orders in Dafny

A model of the order core of the school cafeteria system (`almaconalep/cafeteria`).
The service `CafeteriaService` holds four catalogs: the menu, students, teachers and
administrative staff. It takes an order request (a customer type and id, a list of
`(clave, cantidad)` pairs, a payment form and a delivery mode) and works as follows:

- It checks the request in a fixed order.
- It drops the lines whose quantity is not positive.
- It prices the remaining lines against the menu.
- It checks that the payment is allowed: credit is for students only and must cover
  the total.
- It estimates the preparation time: 5 minutes plus 3 per unit, counting at least
  one unit.
- It stamps the order with the clock and builds the id `ORD-<YYYYMMDDHHMMSS>-<id>`.
- Only then does it debit a student's credit.

An order also derives its request `timestamp` and its estimated ready time `HH:MM`.
The I/O module loads the catalogs from tables, trimming the text cells. It saves an
order as one CSV row, writing the header first when the file is empty.

Modules:

- `Wrappers`: `Option`, `Result` and `Outcome`. They stand for the source's `None`
  returns and its `ValueError` raises.
- `Text`: the Python string primitives the code relies on, each with its inverse or
  its law:
  - `str.strip()`;
  - `str(int)`;
  - the zero-padded `strftime` fields;
  - `str.join`, and the `str.split` that the model's readers use to undo it (the
    code itself never splits).
- `Models`: the enums with their `.value` strings and the customer hierarchy as one
  sum type. Also menu items, order lines and orders, with the `timestamp` and
  `hora_estimada_entrega` properties.
- `Services`: `CafeteriaService`. The service is an immutable value, and `CrearOrden`
  returns the order (or the error) together with the service as the call leaves it.
- `IoUtils`: the loaders, and the row that `guardar_orden` writes. Each loader states
  which row every entry comes from. The row and its `items`, `total` and `id` cells
  each have a reader that recovers what was written; the loaders have none.
- `Scenarios`: the demonstration order, with a 10.00 and a 25.00 menu entry and a
  student with 100.00 of credit.

Modelling choices:

- Money is an integer number of cents. Rounding to two decimals is then the identity,
  and `"{:.2f}"` is a numeral with exactly two decimals.
- The clock reading `datetime.now()` is the parameter `ahora` of `CrearOrden`.
- Each `Alumno`, `Profesor` and `Administrativo` class defines a method spelled
  `_init_`, and so does the service. Python never calls a method with that name as a
  constructor. The model gives these classes the behaviour the methods evidently
  intend:
  - the service's catalogs are its fields;
  - a customer's `tipo` is fixed by its variant (`Cliente.Tipo`).

  As written, the generated dataclass constructors do not accept the keyword
  `matricula` or `numero_empleado`, so the loaders' calls would raise.
- The code has no second emptiness check after the non-positive quantities are
  filtered out. An order whose quantities are all zero or negative goes through,
  with no lines, a total of 0 and 8 minutes (`Services.CrearOrdenSinLineasPositivas`).
  The model follows the code here.
- `guardar_orden` writes the header before it computes `hora_estimada_entrega`. When
  that property raises, the header stays in the file and no row follows.
  `IoUtils.GuardarOrden` models this.

## Model

| member | source | states |
|---|---|---|
| `Text.Strip` | src/io_utils.py:13 | `strip()` returns an infix of the input with no whitespace at either end and only whitespace cut off on both sides |
| `Text.StripIdempotent` | src/io_utils.py:13-14 | trimming a trimmed cell changes nothing |
| `Text.SplitJoin` | src/io_utils.py:78 | splitting a `|`-join recovers the parts when no part contains the separator |
| `Text.ParseIntDecimal` | src/io_utils.py:88 | `str(n)` of any integer reads back as `n` |
| `Text.ParseFixed` | src/models.py:114 | a zero-padded `strftime` field of a number that fits reads back as that number |
| `Models.TipoClienteDeValor` | src/models.py:8-12 | lookup by value gives exactly the customer type whose `.value` is the string |
| `Models.FormaPagoDeValor` | src/models.py:15-19 | lookup by value gives exactly the payment form whose `.value` is the string |
| `Models.TipoEntregaDeValor` | src/models.py:22-25 | lookup by value gives exactly the delivery mode whose `.value` is the string |
| `Models.Cliente.Tipo` | src/models.py:53-80 | a customer's `tipo` is `ALUMNO`, `PROFESOR` or `ADMINISTRATIVO` exactly when it is a student, teacher or staff member |
| `Models.ParseFechaHora` | src/models.py:108 | a string `strptime` accepts has in-range fields (year 1 to 9999, as `datetime` allows) and is their own zero-padded text |
| `Models.ParseTexto` | src/models.py:108 | the text of any in-range date and time (years 1 to 9999) parses back to it |
| `Models.HoraDelDia` | src/models.py:114 | `%H:%M` of a minute of the day reads back as that minute |
| `Models.Orden.Timestamp` | src/models.py:105-108 | when `timestamp` succeeds, the stored date and time are exactly the zero-padded text of its fields |
| `Models.Orden.HoraEstimadaEntrega` | src/models.py:110-114 | the ready time exists iff `timestamp` does, and names the minute of the day request time plus estimate, modulo 24 hours |
| `Models.HoraEstimadaBienFormada` | src/models.py:110-114 | whenever it exists, the ready time is a valid `HH:MM`, even past midnight |
| `Models.HoraEstimadaSinDemora` | src/models.py:113-114 | with an estimate of zero minutes the ready time equals the request time |
| `Models.TimestampDeInstante` | src/models.py:105-108 | a date and time written from a clock reading are read back by `timestamp` as that reading without its seconds |
| `Services.ListarMenu` | src/services.py:19-21 | the listing has one element per menu entry: its i-th element is the entry of the i-th key in the menu's insertion order, so it holds every menu item and nothing else |
| `Services.BuscarCliente` | src/services.py:23-31 | a customer is found iff the id is in the catalog the type selects; the result is that entry and has the requested type |
| `Services.CalcularTotal` | src/services.py:34-41 | pricing succeeds iff every key is on the menu, giving Σ precio × cantidad; otherwise it names the first unknown key |
| `Services.ImporteConcat` | src/services.py:36-40 | the total of two lists of lines is the sum of their totals |
| `Services.ImportePermutacion` | src/services.py:36-40 | reordering priceable lines keeps them priceable and keeps the total |
| `Services.CalcularTotalPermutacion` | src/services.py:34-41 | the outcome of pricing does not depend on the order of the lines |
| `Services.UnidadesConcat` | src/services.py:45 | the unit count of two lists of lines is the sum of their counts |
| `Services.EstimarTiempo` | src/services.py:43-46 | the estimate is 8 minutes for at most one unit and 5 + 3 × units otherwise, never below 8 |
| `Services.EstimarTiempoMonotono` | src/services.py:43-46 | more units never give a shorter estimate |
| `Services.EstimarTiempoAlAgregar` | src/services.py:43-46 | adding lines of positive quantity never shortens the estimate, and adds 3 minutes per unit once there is one |
| `Services.ValidarPago` | src/services.py:48-55 | cash and card always pass; credit fails for non-students and passes for a student iff the credit covers the total |
| `Services.AplicarPago` | src/services.py:57-60 | paying by credit sets the student's credit to old minus total; nothing else in the service changes |
| `Services.PagoValidadoNoSobregira` | src/services.py:48-60 | a debit that `validar_pago` allowed leaves a non-negative credit |
| `Services.Normalizar` | src/services.py:77 | there are at most as many lines as pairs, and every line has a positive quantity |
| `Services.NormalizarMiembros` | src/services.py:77 | every line comes from an input pair, and every pair with a positive quantity gives a line |
| `Services.NormalizarConcat` | src/services.py:77 | the filter works pair by pair, so normalising a concatenation normalises each part |
| `Services.NormalizarSinFiltro` | src/services.py:77 | with only positive quantities every pair becomes its line, in order |
| `Services.NormalizarTodoFiltrado` | src/services.py:77 | with no positive quantity no line remains |
| `Services.IdOrden` | src/services.py:84 | the id is `ORD-`, the 14-digit stamp, `-`, then the customer id |
| `Services.LeerIdOrdenDeIdOrden` | src/services.py:84 | the id determines the clock reading to the second and the customer id |
| `Services.CrearOrden` | src/services.py:62-100 | the call succeeds iff every guard passes (lines given, room given for classroom delivery, customer found, every key priced, payment allowed); the guards fire in source order with their errors; a failed call changes nothing; a successful one builds the order from the filtered lines, total, estimate, id and clock, and changes only the paying student's credit, leaving it non-negative |
| `Services.CrearOrdenConCredito` | src/services.py:72-86 | a student whose credit covers the priced lines gets the order, charged that total, and is debited exactly that total |
| `Services.CrearOrdenSinLineasPositivas` | src/services.py:67-83 | a request whose quantities are all non-positive still succeeds, with no lines, total 0 and 8 minutes |
| `Services.CrearOrdenSellada` | src/services.py:82-94 | a created order's id reads back to the clock reading, its `timestamp` recovers it to the minute, and its ready time exists |
| `IoUtils.Indexar` | src/io_utils.py:11-16 | the loaded dictionary has exactly the raw key cells of the rows as keys |
| `IoUtils.IndexarDeAlgunaFila` | src/io_utils.py:11-16 | every entry is the record built from some row carrying that key |
| `IoUtils.IndexarUltimaFila` | src/io_utils.py:11-16 | with a repeated key, the last row carrying it wins |
| `IoUtils.IndexarFilas` | src/io_utils.py:11-16 | both of the above for every key and every row at once |
| `IoUtils.PrimeraVez` | src/io_utils.py:11-12 | the index it gives is the first row carrying the key, or the row count when no row does |
| `IoUtils.OrdenInsercion` | src/io_utils.py:11-12 | the insertion order lists each distinct key exactly once, ordered by the row where the key first appears, as a `dict` keeps keys that are assigned again in their first place |
| `IoUtils.CargarMenu` | src/io_utils.py:5-17 | the menu is keyed by the raw `clave` cells; every entry is the item of some row with that key, with trimmed `clave` and name and the row's price; the last row with a key is the one kept |
| `IoUtils.CargarAlumnos` | src/io_utils.py:19-32 | students are keyed by the raw `matricula` cells; every entry is the student of some row with that key, with trimmed text fields and the row's credit; the last row with a key is the one kept |
| `IoUtils.CargarProfesores` | src/io_utils.py:34-46 | teachers are keyed by the raw `numero_empleado` cells; every entry is the teacher of some row with that key, with trimmed text fields; the last row with a key is the one kept |
| `IoUtils.CargarAdministrativos` | src/io_utils.py:48-59 | staff are keyed by the raw `numero_empleado` cells; every entry is the staff member of some row with that key, with trimmed text fields; the last row with a key is the one kept |
| `IoUtils.CafeteriaDeTablas` | src/services.py:11-16 | the service built from the four tables holds the loaded catalogs, and lists the menu keys once each, in the order of the rows where they first appear |
| `IoUtils.CeldaItems` | src/io_utils.py:78 | the items cell is empty exactly for an order without lines |
| `IoUtils.LeerCeldaItemsDeCelda` | src/io_utils.py:78 | the items cell reads back as the original lines, in order, when no key contains `:` or `|` |
| `IoUtils.FormatoCentavos` | src/io_utils.py:87 | the total cell has a point three places from the end and starts with `-` iff the total is negative |
| `IoUtils.LeerCentavosDeFormato` | src/io_utils.py:87 | the total cell reads back as the total |
| `IoUtils.CeldaAula` | src/io_utils.py:90 | the `aula` cell is blank exactly when the room is absent or empty, and the room otherwise |
| `IoUtils.FilaOrden` | src/io_utils.py:69-92 | a row exists iff the ready time does; it has the twelve columns, and each cell is the dict's value under the column name at that place in `campos`, so the customer-type cell differs from the header's and the ready time is last |
| `IoUtils.CeldasSegunRegistro` | src/io_utils.py:69-92 | `DictWriter` lays out the name-keyed dict of the order in the order of `campos` |
| `IoUtils.LeerFilaDeFilaOrden` | src/io_utils.py:78-92 | whenever the row exists, every stored field of the order survives writing and reading it (an empty room reads as absent) |
| `IoUtils.GuardarOrden` | src/io_utils.py:61-92 | the file keeps its earlier rows (or is truncated), gains the header iff it started empty, and gains the order's row iff the ready time exists |
| `IoUtils.GuardarConservaEncabezado` | src/io_utils.py:74-76 | saving orders into a file whose only header is its first row never adds a second header |
| `Scenarios.DemoConCredito` | tests/demo.py:21-28 | two `A01` at 10.00 and one `B01` at 25.00 on credit cost 45.00, take 14 minutes and leave 55.00 of 100.00 |
| `Scenarios.DemoSinCredito` | src/services.py:54-55 | the same order with 10.00 of credit fails with insufficient credit and changes nothing |
| `Scenarios.DemoClaveInexistente` | src/services.py:38-39 | an unknown key `Z99` is reported by name |
| `Scenarios.DemoCeldaItems` | src/io_utils.py:78 | the demonstration's lines serialise as `A01:2|B01:1` |

## Left out

- File I/O, the CSV dialect and `f.tell()` are not modelled. A table is a sequence of
  parsed rows and a file is a sequence of rows of cells. The emptiness test of
  `f.tell() == 0` is "the row sequence is empty". Quoting and escaping of cells by the
  `csv` module are not modelled.
- `float(...)` parsing of prices and credit, floating-point arithmetic and the
  half-even rounding of `round(x, 2)` are not modelled. Money is exact cents.
- `datetime.now()` is not modelled; the clock reading is an argument.
- Only the terminal UI and its prompts live in `src/main.py`, and that file is not
  part of this model.
- `Models.ParseFechaHora`: it accepts only zero-padded fields, while `strptime` also
  accepts one-digit fields. It accepts exactly one blank between date and time, while
  the blank in the `strptime` format matches any run of whitespace. It also checks field
  ranges but not calendar validity (for example February 30). The order dates the service writes are always zero-padded and
  valid, so created orders are unaffected.
- `Models.Orden.HoraEstimadaEntrega`: the `OverflowError` of adding minutes past
  year 9999 is not modelled. Neither is the one a negative estimate causes by going
  below year 1. Only the time of day is kept, and it wraps round midnight either way.
- `Models.TimestampDeInstante`: clock readings are restricted to years 1000-9999.
  `%Y` pads years below 1000 in a platform-dependent way.
- `Services.BuscarCliente`: the final `return None`, reached by a type outside the
  enum, has no counterpart. The enum has exactly three members.
- `Services.AplicarPago`: the source mutates the `Alumno` object it is given, and that
  object is the catalog's own entry. The model names the entry by a `clienteId`
  parameter, requires (`EsEntradaDe`) that the customer is the catalog entry under that
  id, and replaces that entry. Its only caller, `crear_orden`, passes the customer that
  `buscar_cliente` returned for that id (src/services.py:72 and 86), so it meets this.
- `IoUtils.LeerCeldaItems`: it reads the empty cell as no lines, while Python's
  `"".split("|")` is `[""]`, one empty part. An order whose quantities are all
  non-positive writes that empty cell. The source itself never reads the cell back.
- `Services.IdOrden`: uniqueness of ids across orders made in the same second is not
  promised by the source and is not stated.
- The texts of the `ValueError` messages are kept only as comments on the `Falla`
  constructors.
- The `assert isinstance(cliente, Alumno)` in `validar_pago` always holds once the
  type check passes. The sum type makes it part of `ValidarPago`'s contract.
- Unicode handling beyond the characters `str.isspace()` accepts is not modelled.
  Strings are sequences of characters, with no encoding.
- The catalog data files that the demonstration script loads are not part of this model.
  The prices and the credit in `Scenarios` are illustrative. Only the unit count of the
  demonstration order, and so its 14 minutes, follows from the script itself.
