# Veterinary appointments: the dual-store handlers and the request validators

This project models the appointment ("cita") core of a veterinary clinic
backend. An appointment lives in two stores:

- a relational row keyed by its numeric id, holding the scheduling fields and
  the status `estadoCita`;
- a companion document keyed by the decimal text of that id (`idCitaSql`),
  holding the clinical free text, its own status `estado` and the attendance
  flag `asistio`.

The model covers the handlers of `src/controller/cita.controller.js` and the
validation chains of `src/router/cita.router.js`.

## Files and modules

- `wrappers.dfy`: `Option`.
- `decimal_text.dfy` (`DecimalText`): `Number#toString` on ids, the canonical
  decimal parse, and the integer syntax `[-+]?[0-9]+` the validators accept.
  It also holds the round trips between them.
- `js_values.dfy` (`JsValues`): untyped JSON values and three JavaScript
  operations on them. These are truthiness (`!x`), the default `x || d`, and
  conversion to text.
- `cita_controller.dfy` (`CitaController`):
  - both stores as a `Store` value;
  - one pure transition per write handler: `Crear`, `Actualizar` and `Eliminar`;
  - class `Citas`, whose fields `rows`, `docs` and `nextId` are changed one
    store at a time by `CrearCita`, `ActualizarCita` and `EliminarCita`, each
    proved equal to its transition;
  - the read path `DescifrarSeguro`, `Completar` and `MostrarCitas`.
- `cita_router.dfy` (`CitaRouter`): the four validation chains as predicates,
  and the characterisation of the hour pattern.

Behaviour pinned down by the contracts:

- Create writes `estadoCita = "programada"` in the row but
  `estado = "pendiente"` in the document.
- Update resets the row status to `"programada"` and `asistio` to false. It
  leaves the document `estado` alone, so a cancelled appointment's document
  stays `"cancelada"` (`ActualizarTrasEliminar`).
- Cancel deletes nothing.
- Create and update check only that the five required fields are truthy, and
  answer 400 when one is falsy, whatever the id. Cancel checks nothing.
- When the required fields are truthy, update on an unknown id changes
  nothing and answers 200. Cancel on an unknown id always changes nothing and
  answers 200.
- The handlers never read the validation outcome, so the validators are
  standalone predicates (`ValidacionNoConsultada`).

Two points where the rules' own wording promises more than the code does; the
model follows the code:

- The routes at `src/router/cita.router.js:164`, `:167` and `:182` install
  the chains in front of the handlers, but nothing imports
  `validationResult`, so no handler turns a failed rule into a 400.
- The hour rule's message says "La hora debe tener formato HH:MM válido"
  (`src/router/cita.router.js:44`), but its pattern also accepts a one-digit
  hour (`9:30`).

Parameters stand for what the code gets from outside:

- the timestamp `now` (`new Date().toLocaleString()`);
- the relational create's failure `sqlError`;
- the decryption routine `descifrar` (a partial function, `None` when it throws);
- the outcome of the clock-dependent date rule `fechaValida`.

The auto-increment of the relational id is the field `nextId`.

## Model

| member | source | states |
|---|---|---|
| `CitaController.DescifrarSeguro` | src/controller/cita.controller.js:8-15 | a null or empty column gives `''`; a failed decryption gives `''`; otherwise the decrypted text |
| `CitaController.DescifrarSinDato` | src/controller/cita.controller.js:10 | for a null or empty column the result is `''` whatever the decryption routine would do, so it is not consulted |
| `CitaController.Completar` | src/controller/cita.controller.js:35-65 | the merged element keeps the row's columns (spread), decrypts the client, pet, service-name and staff columns, passes `precio` through, and has `detallesMongo` null exactly when no document is keyed by the decimal text of the id, else the document's eight clinical fields |
| `CitaController.MostrarCitas` | src/controller/cita.controller.js:34-69 | the list has the same length and order as the joined rows, element i being row i merged |
| `CitaController.Crear` | src/controller/cita.controller.js:77-124 | a falsy required field gives 400 and no change; a failed relational create gives 500 with its message and no document write; otherwise a row under the fresh id with `programada`, creation time, staff defaulting to null, and a document under the id's decimal text with `pendiente`, `asistio` false and missing clinical fields defaulted to `''`/`[]`, 201 with the id; nothing existing is overwritten and the store invariant is kept |
| `CitaController.Actualizar` | src/controller/cita.controller.js:127-176 | 400 and no change on a falsy required field; otherwise 200; a matched row gets the new scheduling fields and `programada`, keeping its timestamps; a matched document gets the new clinical fields and `asistio` false, keeping `estado`, `fechaReal` and `idCitaSql`; no key is added or removed; an unmatched id changes nothing |
| `CitaController.Eliminar` | src/controller/cita.controller.js:179-206 | always 200; deletes nothing; sets only the row's status to `cancelada` and its update time, and only the document's `estado` to `cancelada`; an unmatched id changes nothing |
| `CitaController.ActualizarOtraCita` | src/controller/cita.controller.js:140-195 | updating or cancelling one id leaves every other id's row and document unchanged |
| `CitaController.EliminarIdempotente` | src/controller/cita.controller.js:184-195 | cancelling twice with the same timestamp gives the same state and reply as cancelling once |
| `CitaController.ActualizarTrasEliminar` | src/controller/cita.controller.js:140-195 | after cancel then update, the row is `programada` while the document stays `cancelada` |
| `CitaController.CrearLuegoMostrar` | src/controller/cita.controller.js:36-110 | after a successful create, the stored row for the new id is `programada`, a listed element whose row is that stored row shows `programada`, and its details are `pendiente` and not attended |
| `CitaController.EliminarLuegoMostrar` | src/controller/cita.controller.js:184-195 | a cancelled appointment is still listed at its place, with details `cancelada` |
| `CitaController.Citas.CrearCita` | src/controller/cita.controller.js:88-115 | writing the row, then the document, yields exactly the state and reply of `Crear`, and keeps the store invariant |
| `CitaController.Citas.ActualizarCita` | src/controller/cita.controller.js:140-167 | the two sequential updates yield exactly the state and reply of `Actualizar` |
| `CitaController.Citas.EliminarCita` | src/controller/cita.controller.js:184-197 | the two sequential updates yield exactly the state and reply of `Eliminar` |
| `DecimalText.ParseDecimalOfDecimal` | src/controller/cita.controller.js:100 | the decimal text of an id parses back to that id |
| `DecimalText.DecimalOfParseDecimal` | src/controller/cita.controller.js:37 | every canonical decimal text is the text of its value |
| `CitaController.ClavesDecimales` | src/controller/cita.controller.js:100 | in a valid store every document key is the decimal text of an id below `nextId` |
| `DecimalText.DecimalInjective` | src/controller/cita.controller.js:193 | distinct ids have distinct document keys |
| `DecimalText.IntegerValueOfIntText` | src/router/cita.router.js:18 | the text of an integer below 10^21 in magnitude reads back under the integer syntax as that integer; the exponent text of a larger one does not read as an integer at all |
| `DecimalText.ExponentTextPow10` | src/controller/cita.controller.js:101 | the text of 10^k in exponent form is `1e+k` |
| `CitaController.Obligatorios` | src/controller/cita.controller.js:84 | defines the one check create and update make: the five required fields are all truthy |
| `CitaRouter.HoraTexto` | src/router/cita.router.js:43 | defines the hour pattern: a one-digit hour, a two-digit hour starting 0 or 1, or 20 to 23, then a colon and two minute digits 00 to 59 |
| `CitaRouter.ValidacionCrearCita` | src/router/cita.router.js:16-76 | defines the create chain: positive integer ids, the date rule, the hour pattern, an optional positive staff id, optional texts within 255/500/300/500 characters, optional treatments list |
| `CitaRouter.ValidacionActualizarCita` | src/router/cita.router.js:79-85 | defines the update chain: the path id rule followed by the whole create chain |
| `CitaRouter.ValidacionEliminarCita` | src/router/cita.router.js:88-92 | defines the delete chain: the path id rule only |
| `CitaRouter.ValidacionCambiarEstado` | src/router/cita.router.js:95-108 | defines the change-status chain: the path id rule, the five-value status enum, optional observations of at most 500 characters |
| `CitaRouter.HoraCaracterizacion` | src/router/cita.router.js:42-44 | the hour pattern matches a text exactly when it is the `HH:MM` or (hour below 10) `H:MM` spelling of an hour below 24 and a minute below 60 |
| `CitaRouter.HoraGrafias` | src/router/cita.router.js:43 | every such spelling matches and reads back as its hour and minute |
| `CitaRouter.HoraEjemplos` | src/router/cita.router.js:43 | `09:30`, `9:30`, `23:59`, `0:00` pass; `24:00`, `9:60`, `09:3`, ` 9:30` fail |
| `CitaRouter.IdPositivo` | src/router/cita.router.js:17-27 | a numeric id passes exactly when it is at least 1 and below 10^21 (larger ones print in exponent form); a decimal path id passes exactly when it is at least 1 |
| `CitaRouter.IdExponente` | src/router/cita.router.js:17-19 | 10^21 as a number prints as `1e+21` and fails the id rule |
| `CitaRouter.CrearCitaDecodificada` | src/router/cita.router.js:16-76 | on a decoded body the create chain holds exactly when the three ids are at least 1 and below 10^21, the date rule holds, the hour matches, an absent staff id passes or else it is at least 1 and below 10^21, the present text fields are within 255/500/300/500 characters, and the treatments are absent or a list |
| `CitaRouter.ActualizarIncluyeCrear` | src/router/cita.router.js:79-85 | the update chain is the path-id rule plus the create chain, so every request valid for update has a body valid for create |
| `CitaRouter.CambiarEstadoTextos` | src/router/cita.router.js:95-108 | the change-status chain holds exactly when the path id is at least 1, the status is one of the five values, and observations are absent or at most 500 characters |
| `CitaRouter.ValidacionNoConsultada` | src/router/cita.router.js:164 | a body the create chain rejects is still created with 201, since the handler does not read the chain's outcome |

## Left out

- HTTP plumbing: route registration, `req`/`res`, JSON serialisation. A reply is a status, a message, an optional id and an optional error text.
- The placeholder routes that only answer a fixed message. They have no behaviour.
- The SQL JOIN and its `ORDER BY fecha DESC, hora DESC`. The joined, ordered rows are the input of `MostrarCitas`.
- ORM and document-driver coercions. Field values are stored as given. The path `idCita` is taken as an already converted non-negative integer. Non-numeric or non-canonical path texts such as `"007"` are not modelled.
- The decryption algorithm. It is a parameter that may fail.
- The clock. Timestamps are parameters, and the date rule (ISO 8601 calendar date, not before today's local midnight) is the boolean `fechaValida`.
- Datastore failures other than the relational create's: a failing document write, a failing update or cancel, a failing list query. None of these is modelled.
- The concurrent fan-out of the document lookups. It is an order-preserving map.
- Logging.
- Non-integer JSON numbers (fractions, `NaN`, infinities). `Num` carries an integer-valued number; the rounding of integers beyond 2^53 to the nearest double is not modelled.
- `DecimalText.NatText`: from 2^53 in magnitude the model's number text uses the integer's exact digits, in plain and exponent form alike. JavaScript prints the shortest digits that identify the double and pads with zeros. For example, `String(2**64)` is `"18446744073709552000"`, while the model writes `"18446744073709551616"`. So the stored `idCliente`/`idMascota` texts of the documents (`NuevoDoc`, `DocActualizado`) can differ from JavaScript's for such ids. The validators are not affected, because every digit string passes the integer syntax.
- `CitaRouter.LongitudMax`: text length is `|s|`, the number of Unicode code points, which agrees with the library on surrogate pairs (a pair counts as one). Releases of the library that also discount the variation selectors U+FE0E and U+FE0F are not modelled: a text of 255 "❤️" is 510 code points here and fails the 255 limit, while such a release counts 255. A lone surrogate such as `"\ud800"` in JSON input is not a Dafny string and is not modelled.
- JSON objects inside a body are one opaque value, whose text is `[object Object]`.
- Schema defaults: the create handler sets neither the row's `updateCita` nor the document's `fechaReal`. Their values come from table and document schema defaults, and neither schema is part of this model, so both are taken as absent (`None` and `Undefined`).
- A duplicate document with the same `idCitaSql`: the document store is a map, and the store invariant rules duplicates out.
