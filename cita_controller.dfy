/**
  The appointment ("cita") handlers over two datastores: a relational table of
  appointment rows keyed by their numeric id, and a document collection of
  clinical details keyed by the decimal text of that id (`idCitaSql`).

  Each handler is a pure transition on `Store` (Crear, Actualizar, Eliminar),
  whose contract states the outcome field by field, and a method of class
  `Citas` that performs the same writes one store at a time and is proved
  equal to the transition. The list handler is the pure function
  MostrarCitas over the rows the relational JOIN returns.
 */
module CitaController {
  import opened Wrappers
  import opened DecimalText
  import opened JsValues

  const Programada: string := "programada"
  const Cancelada: string := "cancelada"
  const Pendiente: string := "pendiente"

  const MsgObligatorios: string := "Cliente, mascota, servicio, fecha y hora son obligatorios"
  const MsgCreada: string := "Cita creada exitosamente"
  const MsgErrorCrear: string := "Error al crear la cita"
  const MsgActualizada: string := "Cita actualizada exitosamente"
  const MsgEliminada: string := "Cita eliminada exitosamente"

  /** The request body of create and update, as decoded JSON; absent fields are `Undefined`. */
  datatype CitaBody = CitaBody(
    idCliente: JsValue, idMascota: JsValue, idServicio: JsValue,
    fecha: JsValue, hora: JsValue, usuarioIdUser: JsValue,
    motivo: JsValue, sintomas: JsValue, diagnosticoPrevio: JsValue,
    tratamientosAnteriores: JsValue, notasAdicionales: JsValue)

  /** A relational appointment row (its id is the key of `Store.rows`). */
  datatype Row = Row(
    idCliente: JsValue, idMascota: JsValue, idServicio: JsValue,
    fecha: JsValue, hora: JsValue, estadoCita: string, usuarioIdUser: JsValue,
    createCita: Option<string>, updateCita: Option<string>)

  /** A clinical-detail document. */
  datatype Doc = Doc(
    idCitaSql: string, idCliente: string, idMascota: string,
    motivo: JsValue, sintomas: JsValue, diagnosticoPrevio: JsValue,
    tratamientosAnteriores: JsValue, estado: string, notasAdicionales: JsValue,
    asistio: bool, fechaReal: JsValue)

  /** Both stores, and the next id the relational auto-increment hands out. */
  datatype Store = Store(rows: map<nat, Row>, docs: map<string, Doc>, nextId: nat)

  /** The HTTP outcome: status, message, the new id (create) and the error text (500). */
  datatype Reply = Reply(status: int, message: string, idCita: Option<nat>, error: Option<string>)

  datatype Transition = Transition(store: Store, reply: Reply)

  /** Every row id was handed out by the auto-increment; every document is
      filed under its own `idCitaSql`, the decimal text of such an id. */
  predicate ValidStore(s: Store)
  {
    && (forall k :: k in s.rows ==> k < s.nextId)
    && (forall key :: key in s.docs ==>
          ParseDecimal(key).Some? && ParseDecimal(key).value < s.nextId && s.docs[key].idCitaSql == key)
  }

  /** In a valid store every document key is the decimal text of an id below
      `nextId`, the key the create handler wrote for that id. */
  lemma {:induction false} ClavesDecimales(s: Store, key: string)
    requires ValidStore(s) && key in s.docs
    ensures exists id: nat :: id < s.nextId && key == Decimal(id)
  {
    DecimalOfParseDecimal(key);
    var id := ParseDecimal(key).value;
    assert id < s.nextId && key == Decimal(id);
  }

  /** The one check the create and update handlers make: the five required fields are truthy. */
  predicate Obligatorios(b: CitaBody)
  {
    Truthy(b.idCliente) && Truthy(b.idMascota) && Truthy(b.idServicio) && Truthy(b.fecha) && Truthy(b.hora)
  }

  /** `stored` is `given || empty`. */
  predicate ConDefecto(stored: JsValue, given: JsValue, empty: JsValue)
  {
    if Truthy(given) then stored == given else stored == empty
  }

  function NuevaFila(b: CitaBody, now: string): Row
  {
    Row(b.idCliente, b.idMascota, b.idServicio, b.fecha, b.hora, Programada,
        Or(b.usuarioIdUser, Null), Some(now), None)
  }

  function NuevoDoc(id: nat, b: CitaBody): Doc
  {
    Doc(Decimal(id), ToText(b.idCliente), ToText(b.idMascota),
        Or(b.motivo, Str("")), Or(b.sintomas, Str("")), Or(b.diagnosticoPrevio, Str("")),
        Or(b.tratamientosAnteriores, Arr([])), Pendiente, Or(b.notasAdicionales, Str("")),
        false, Undefined)
  }

  /** crearCita: check, relational create (which may fail with `sqlError`),
      then the companion document under the new id. */
  function Crear(s: Store, b: CitaBody, now: string, sqlError: Option<string>): (r: Transition)
    ensures !Obligatorios(b) ==> r.store == s && r.reply == Reply(400, MsgObligatorios, None, None)
    ensures Obligatorios(b) && sqlError.Some? ==> r.store == s && r.reply == Reply(500, MsgErrorCrear, None, sqlError)
    ensures Obligatorios(b) && sqlError.None? ==>
      var id := s.nextId;
      && r.reply == Reply(201, MsgCreada, Some(id), None)
      && r.store.nextId == id + 1
      && r.store.rows.Keys == s.rows.Keys + {id}
      && r.store.docs.Keys == s.docs.Keys + {Decimal(id)}
      && var row := r.store.rows[id];
      && row.estadoCita == Programada
      && row.createCita == Some(now) && row.updateCita == None
      && ConDefecto(row.usuarioIdUser, b.usuarioIdUser, Null)
      && row.idCliente == b.idCliente && row.idMascota == b.idMascota && row.idServicio == b.idServicio
      && row.fecha == b.fecha && row.hora == b.hora
      && var doc := r.store.docs[Decimal(id)];
      && doc.idCitaSql == Decimal(id)
      && doc.idCliente == ToText(b.idCliente) && doc.idMascota == ToText(b.idMascota)
      && doc.estado == Pendiente && !doc.asistio && doc.fechaReal == Undefined
      && ConDefecto(doc.motivo, b.motivo, Str(""))
      && ConDefecto(doc.sintomas, b.sintomas, Str(""))
      && ConDefecto(doc.diagnosticoPrevio, b.diagnosticoPrevio, Str(""))
      && ConDefecto(doc.tratamientosAnteriores, b.tratamientosAnteriores, Arr([]))
      && ConDefecto(doc.notasAdicionales, b.notasAdicionales, Str(""))
    // On a consistent store the new id and its key are fresh, so nothing is overwritten.
    ensures ValidStore(s) && Obligatorios(b) && sqlError.None? ==>
      && s.nextId !in s.rows && Decimal(s.nextId) !in s.docs
      && (forall k :: k in s.rows ==> r.store.rows[k] == s.rows[k])
      && (forall key :: key in s.docs ==> r.store.docs[key] == s.docs[key])
    ensures ValidStore(s) ==> ValidStore(r.store)
  {
    if !Obligatorios(b) then
      Transition(s, Reply(400, MsgObligatorios, None, None))
    else if sqlError.Some? then
      Transition(s, Reply(500, MsgErrorCrear, None, sqlError))
    else
      var id := s.nextId;
      ParseDecimalOfDecimal(id);
      Transition(Store(s.rows[id := NuevaFila(b, now)], s.docs[Decimal(id) := NuevoDoc(id, b)], id + 1),
                 Reply(201, MsgCreada, Some(id), None))
  }

  function FilaActualizada(row: Row, b: CitaBody): Row
  {
    row.(idCliente := b.idCliente, idMascota := b.idMascota, idServicio := b.idServicio,
         fecha := b.fecha, hora := b.hora, estadoCita := Programada,
         usuarioIdUser := Or(b.usuarioIdUser, Null))
  }

  function DocActualizado(doc: Doc, b: CitaBody): Doc
  {
    doc.(idCliente := ToText(b.idCliente), idMascota := ToText(b.idMascota),
         motivo := Or(b.motivo, Str("")), sintomas := Or(b.sintomas, Str("")),
         diagnosticoPrevio := Or(b.diagnosticoPrevio, Str("")),
         tratamientosAnteriores := Or(b.tratamientosAnteriores, Arr([])),
         notasAdicionales := Or(b.notasAdicionales, Str("")), asistio := false)
  }

  /** actualizarCita: check, relational update where `idCita` matches, then
      document update where `idCitaSql` matches; an unmatched id changes nothing. */
  function Actualizar(s: Store, idCita: nat, b: CitaBody): (r: Transition)
    ensures !Obligatorios(b) ==> r.store == s && r.reply == Reply(400, MsgObligatorios, None, None)
    ensures Obligatorios(b) ==> r.reply == Reply(200, MsgActualizada, None, None)
    ensures r.store.rows.Keys == s.rows.Keys && r.store.docs.Keys == s.docs.Keys && r.store.nextId == s.nextId
    ensures forall k :: k in s.rows && k != idCita ==> r.store.rows[k] == s.rows[k]
    ensures forall key :: key in s.docs && key != Decimal(idCita) ==> r.store.docs[key] == s.docs[key]
    ensures Obligatorios(b) && idCita in s.rows ==>
      var was := s.rows[idCita];
      var row := r.store.rows[idCita];
      && row.estadoCita == Programada
      && row.createCita == was.createCita && row.updateCita == was.updateCita
      && ConDefecto(row.usuarioIdUser, b.usuarioIdUser, Null)
      && row.idCliente == b.idCliente && row.idMascota == b.idMascota && row.idServicio == b.idServicio
      && row.fecha == b.fecha && row.hora == b.hora
    ensures Obligatorios(b) && Decimal(idCita) in s.docs ==>
      var was := s.docs[Decimal(idCita)];
      var doc := r.store.docs[Decimal(idCita)];
      && !doc.asistio
      && doc.estado == was.estado && doc.fechaReal == was.fechaReal && doc.idCitaSql == was.idCitaSql
      && doc.idCliente == ToText(b.idCliente) && doc.idMascota == ToText(b.idMascota)
      && ConDefecto(doc.motivo, b.motivo, Str(""))
      && ConDefecto(doc.sintomas, b.sintomas, Str(""))
      && ConDefecto(doc.diagnosticoPrevio, b.diagnosticoPrevio, Str(""))
      && ConDefecto(doc.tratamientosAnteriores, b.tratamientosAnteriores, Arr([]))
      && ConDefecto(doc.notasAdicionales, b.notasAdicionales, Str(""))
    ensures idCita !in s.rows && Decimal(idCita) !in s.docs ==> r.store == s
    ensures ValidStore(s) ==> ValidStore(r.store)
  {
    if !Obligatorios(b) then
      Transition(s, Reply(400, MsgObligatorios, None, None))
    else
      var rows := if idCita in s.rows then s.rows[idCita := FilaActualizada(s.rows[idCita], b)] else s.rows;
      var key := Decimal(idCita);
      var docs := if key in s.docs then s.docs[key := DocActualizado(s.docs[key], b)] else s.docs;
      Transition(Store(rows, docs, s.nextId), Reply(200, MsgActualizada, None, None))
  }

  /** eliminarCita: a soft cancel of the row (status and update time) and of
      the document (status); nothing is deleted. */
  function Eliminar(s: Store, idCita: nat, now: string): (r: Transition)
    ensures r.reply == Reply(200, MsgEliminada, None, None)
    ensures r.store.rows.Keys == s.rows.Keys && r.store.docs.Keys == s.docs.Keys && r.store.nextId == s.nextId
    ensures forall k :: k in s.rows && k != idCita ==> r.store.rows[k] == s.rows[k]
    ensures forall key :: key in s.docs && key != Decimal(idCita) ==> r.store.docs[key] == s.docs[key]
    ensures idCita in s.rows ==>
      r.store.rows[idCita] == s.rows[idCita].(estadoCita := Cancelada, updateCita := Some(now))
    ensures Decimal(idCita) in s.docs ==>
      r.store.docs[Decimal(idCita)] == s.docs[Decimal(idCita)].(estado := Cancelada)
    ensures idCita !in s.rows && Decimal(idCita) !in s.docs ==> r.store == s
    ensures ValidStore(s) ==> ValidStore(r.store)
  {
    var rows := if idCita in s.rows
                then s.rows[idCita := s.rows[idCita].(estadoCita := Cancelada, updateCita := Some(now))]
                else s.rows;
    var key := Decimal(idCita);
    var docs := if key in s.docs then s.docs[key := s.docs[key].(estado := Cancelada)] else s.docs;
    Transition(Store(rows, docs, s.nextId), Reply(200, MsgEliminada, None, None))
  }

  /** Updating (or cancelling) one appointment leaves every other appointment's
      row and document as they were. */
  lemma ActualizarOtraCita(s: Store, idCita: nat, b: CitaBody, other: nat, now: string)
    requires other != idCita
    ensures var t := Actualizar(s, idCita, b).store;
      && (other in s.rows ==> t.rows[other] == s.rows[other])
      && (Decimal(other) in s.docs ==> t.docs[Decimal(other)] == s.docs[Decimal(other)])
    ensures var t := Eliminar(s, idCita, now).store;
      && (other in s.rows ==> t.rows[other] == s.rows[other])
      && (Decimal(other) in s.docs ==> t.docs[Decimal(other)] == s.docs[Decimal(other)])
  {
    DecimalInjective(other, idCita);
  }

  /** Cancelling twice with the same timestamp is the same as cancelling once. */
  lemma EliminarIdempotente(s: Store, idCita: nat, now: string)
    ensures Eliminar(Eliminar(s, idCita, now).store, idCita, now) == Eliminar(s, idCita, now)
  {
  }

  /** The stores disagree after an update of a cancelled appointment: the row
      is back to "programada" but the document keeps "cancelada". */
  lemma ActualizarTrasEliminar(s: Store, idCita: nat, now: string, b: CitaBody)
    requires idCita in s.rows && Decimal(idCita) in s.docs && Obligatorios(b)
    ensures var t := Actualizar(Eliminar(s, idCita, now).store, idCita, b).store;
      t.rows[idCita].estadoCita == Programada && t.docs[Decimal(idCita)].estado == Cancelada
      && t.rows[idCita].updateCita == Some(now)
  {
  }

  // ---------------------------------------------------------------------------
  // The list handler (mostrarCitas)
  // ---------------------------------------------------------------------------

  /** One row of the relational JOIN: the appointment columns `c.*` and the
      joined (encrypted) display columns; `veterinario` is null when no user
      is assigned. */
  datatype FilaUnida = FilaUnida(
    idCita: nat, cita: Row,
    nombreCliente: Option<string>, cedulaCliente: Option<string>,
    nombreMascota: Option<string>, especie: Option<string>,
    nombreServicio: Option<string>, precioServicio: JsValue,
    veterinario: Option<string>)

  datatype Cliente = Cliente(nombre: string, cedula: string)
  datatype Mascota = Mascota(nombre: string, especie: string)
  datatype Servicio = Servicio(nombre: string, precio: JsValue)

  /** The eight clinical fields copied from a document. */
  datatype Detalles = Detalles(
    motivo: JsValue, sintomas: JsValue, diagnosticoPrevio: JsValue,
    tratamientosAnteriores: JsValue, estado: string, notasAdicionales: JsValue,
    asistio: bool, fechaReal: JsValue)

  /** One element of the list response: the joined row spread out (`...cita`,
      so the raw display columns stay), the decrypted groups, and the details. */
  datatype CitaCompleta = CitaCompleta(
    idCita: nat, cita: Row,
    nombreCliente: Option<string>, cedulaCliente: Option<string>,
    nombreMascota: Option<string>, especie: Option<string>,
    nombreServicio: Option<string>, precioServicio: JsValue,
    cliente: Cliente, mascota: Mascota, servicio: Servicio,
    veterinario: string, detallesMongo: Option<Detalles>)

  /** descifrarSeguro: decrypt a display column, with the empty text for a
      null or empty column and for a failed decryption. */
  function DescifrarSeguro(dato: Option<string>, descifrar: string -> Option<string>): (r: string)
    ensures dato.None? || dato == Some("") ==> r == ""
    ensures dato.Some? && dato.value != "" && descifrar(dato.value).None? ==> r == ""
    ensures dato.Some? && dato.value != "" && descifrar(dato.value).Some? ==> r == descifrar(dato.value).value
  {
    if dato.None? || dato.value == "" then ""
    else match descifrar(dato.value)
         case Some(plain) => plain
         case None => ""
  }

  /** Without a (non-empty) ciphertext the decryption routine is never consulted. */
  lemma DescifrarSinDato(dato: Option<string>, d1: string -> Option<string>, d2: string -> Option<string>)
    requires dato.None? || dato == Some("")
    ensures DescifrarSeguro(dato, d1) == DescifrarSeguro(dato, d2) == ""
  {
  }

  function DetallesDe(d: Doc): Detalles
  {
    Detalles(d.motivo, d.sintomas, d.diagnosticoPrevio, d.tratamientosAnteriores,
             d.estado, d.notasAdicionales, d.asistio, d.fechaReal)
  }

  /** The per-row step of mostrarCitas: look up the document by the decimal
      text of the id and merge. */
  function Completar(f: FilaUnida, docs: map<string, Doc>, descifrar: string -> Option<string>): (r: CitaCompleta)
    ensures r.idCita == f.idCita && r.cita == f.cita
    ensures r.nombreCliente == f.nombreCliente && r.cedulaCliente == f.cedulaCliente
    ensures r.nombreMascota == f.nombreMascota && r.especie == f.especie
    ensures r.nombreServicio == f.nombreServicio && r.precioServicio == f.precioServicio
    ensures r.cliente == Cliente(DescifrarSeguro(f.nombreCliente, descifrar), DescifrarSeguro(f.cedulaCliente, descifrar))
    ensures r.mascota == Mascota(DescifrarSeguro(f.nombreMascota, descifrar), DescifrarSeguro(f.especie, descifrar))
    ensures r.servicio == Servicio(DescifrarSeguro(f.nombreServicio, descifrar), f.precioServicio)
    ensures r.veterinario == DescifrarSeguro(f.veterinario, descifrar)
    ensures r.detallesMongo.None? <==> Decimal(f.idCita) !in docs
    ensures r.detallesMongo.Some? ==>
      var d := docs[Decimal(f.idCita)];
      var det := r.detallesMongo.value;
      && det.motivo == d.motivo && det.sintomas == d.sintomas
      && det.diagnosticoPrevio == d.diagnosticoPrevio && det.tratamientosAnteriores == d.tratamientosAnteriores
      && det.estado == d.estado && det.notasAdicionales == d.notasAdicionales
      && det.asistio == d.asistio && det.fechaReal == d.fechaReal
  {
    var key := Decimal(f.idCita);
    CitaCompleta(
      f.idCita, f.cita,
      f.nombreCliente, f.cedulaCliente, f.nombreMascota, f.especie, f.nombreServicio, f.precioServicio,
      Cliente(DescifrarSeguro(f.nombreCliente, descifrar), DescifrarSeguro(f.cedulaCliente, descifrar)),
      Mascota(DescifrarSeguro(f.nombreMascota, descifrar), DescifrarSeguro(f.especie, descifrar)),
      Servicio(DescifrarSeguro(f.nombreServicio, descifrar), f.precioServicio),
      DescifrarSeguro(f.veterinario, descifrar),
      if key in docs then Some(DetallesDe(docs[key])) else None)
  }

  /** mostrarCitas: every joined row, in the order the query returned them, merged. */
  function MostrarCitas(filas: seq<FilaUnida>, docs: map<string, Doc>, descifrar: string -> Option<string>): (r: seq<CitaCompleta>)
    ensures |r| == |filas|
    ensures forall i :: 0 <= i < |filas| ==> r[i] == Completar(filas[i], docs, descifrar)
  {
    if filas == [] then []
    else [Completar(filas[0], docs, descifrar)] + MostrarCitas(filas[1..], docs, descifrar)
  }

  /** After a successful create, listing a joined row for the new id shows the
      row as "programada" and its details as "pendiente", not attended. */
  lemma CrearLuegoMostrar(s: Store, b: CitaBody, now: string, f: FilaUnida, descifrar: string -> Option<string>)
    requires ValidStore(s) && Obligatorios(b) && f.idCita == s.nextId
    ensures var t := Crear(s, b, now, None).store;
      var c := Completar(f, t.docs, descifrar);
      && t.rows[f.idCita].estadoCita == Programada
      && (f.cita == t.rows[f.idCita] ==> c.cita.estadoCita == Programada)
      && c.detallesMongo.Some? && c.detallesMongo.value.estado == Pendiente && !c.detallesMongo.value.asistio
  {
  }

  /** A cancelled appointment is still listed, with "cancelada" details. */
  lemma EliminarLuegoMostrar(s: Store, idCita: nat, now: string, filas: seq<FilaUnida>,
                             i: nat, descifrar: string -> Option<string>)
    requires i < |filas| && filas[i].idCita == idCita && Decimal(idCita) in s.docs
    ensures var r := MostrarCitas(filas, Eliminar(s, idCita, now).store.docs, descifrar);
      |r| == |filas| && r[i].idCita == idCita
      && r[i].detallesMongo.Some? && r[i].detallesMongo.value.estado == Cancelada
  {
  }

  // ---------------------------------------------------------------------------
  // The two stores as mutable state
  // ---------------------------------------------------------------------------

  class Citas {
    var rows: map<nat, Row>
    var docs: map<string, Doc>
    var nextId: nat

    function State(): Store
      reads this
    {
      Store(rows, docs, nextId)
    }

    ghost predicate Valid()
      reads this
    {
      ValidStore(State())
    }

    constructor ()
      ensures Valid() && rows == map[] && docs == map[] && nextId == 1
    {
      rows := map[];
      docs := map[];
      nextId := 1;
    }

    /** crearCita: write the row, then the document keyed by the new id. */
    method CrearCita(b: CitaBody, now: string, sqlError: Option<string>) returns (reply: Reply)
      requires Valid()
      modifies this
      ensures Valid()
      ensures Transition(State(), reply) == Crear(old(State()), b, now, sqlError)
    {
      if !Obligatorios(b) {
        return Reply(400, MsgObligatorios, None, None);
      }
      if sqlError.Some? {
        return Reply(500, MsgErrorCrear, None, sqlError);
      }
      var id := nextId;
      rows := rows[id := NuevaFila(b, now)];
      nextId := nextId + 1;
      docs := docs[Decimal(id) := NuevoDoc(id, b)];
      reply := Reply(201, MsgCreada, Some(id), None);
      assert Transition(State(), reply) == Crear(old(State()), b, now, sqlError);
    }

    /** actualizarCita: update the row where the id matches, then the document. */
    method ActualizarCita(idCita: nat, b: CitaBody) returns (reply: Reply)
      requires Valid()
      modifies this
      ensures Valid()
      ensures Transition(State(), reply) == Actualizar(old(State()), idCita, b)
    {
      if !Obligatorios(b) {
        return Reply(400, MsgObligatorios, None, None);
      }
      if idCita in rows {
        rows := rows[idCita := FilaActualizada(rows[idCita], b)];
      }
      var key := Decimal(idCita);
      if key in docs {
        docs := docs[key := DocActualizado(docs[key], b)];
      }
      reply := Reply(200, MsgActualizada, None, None);
    }

    /** eliminarCita: mark the row, then the document, as cancelled. */
    method EliminarCita(idCita: nat, now: string) returns (reply: Reply)
      requires Valid()
      modifies this
      ensures Valid()
      ensures Transition(State(), reply) == Eliminar(old(State()), idCita, now)
    {
      if idCita in rows {
        rows := rows[idCita := rows[idCita].(estadoCita := Cancelada, updateCita := Some(now))];
      }
      var key := Decimal(idCita);
      if key in docs {
        docs := docs[key := docs[key].(estado := Cancelada)];
      }
      reply := Reply(200, MsgEliminada, None, None);
    }
  }
}
