/**
  The request-validation chains of the appointment routes, as predicates over
  the decoded request. The routes install these chains in front of the
  handlers but nothing ever reads their outcome, so they are standalone
  predicates here: CitaController's transitions do not depend on them
  (ValidacionNoConsultada exhibits a request they reject that the create
  handler accepts).

  Each standard check is applied to the text of the value, and to every
  element when the value is an array; `optional()` skips only an absent
  (undefined) field.
 */
module CitaRouter {
  import opened DecimalText
  import opened JsValues
  import opened Wrappers
  import CitaController

  /** A standard check `p` applied to a field value. */
  predicate Every(v: JsValue, p: string -> bool)
  {
    match v
    case Arr(items) => forall i :: 0 <= i < |items| ==> p(ToText(items[i]))
    case _ => p(ToText(v))
  }

  /** `.optional()` before a check whose outcome is `ok`. */
  predicate Opcional(v: JsValue, ok: bool)
  {
    v.Undefined? || ok
  }

  /** `isInt({ min: 1 })` on a text. */
  predicate EnteroMin1(s: string)
  {
    IntegerValue(s).Some? && IntegerValue(s).value >= 1
  }

  predicate EsIdPositivo(v: JsValue) { Every(v, EnteroMin1) }

  /** `isLength({ max })`. */
  predicate LongitudMax(v: JsValue, max: nat) { Every(v, (s: string) => |s| <= max) }

  // ---- the hour rule: /^([0-1]?[0-9]|2[0-3]):[0-5][0-9]$/ -------------------

  predicate MinutosTexto(a: char, b: char) { '0' <= a <= '5' && IsDigit(b) }

  /** The hour pattern: an hour of one digit, of two digits starting 0 or 1, or
      20 to 23; a colon; two minute digits 00 to 59; nothing else. */
  predicate HoraTexto(s: string)
  {
    || (|s| == 4 && IsDigit(s[0]) && s[1] == ':' && MinutosTexto(s[2], s[3]))
    || (|s| == 5
        && (('0' <= s[0] <= '1' && IsDigit(s[1])) || (s[0] == '2' && '0' <= s[1] <= '3'))
        && s[2] == ':' && MinutosTexto(s[3], s[4]))
  }

  predicate HoraValida(v: JsValue) { Every(v, HoraTexto) }

  function Pad2(x: nat): string
    requires x < 100
  {
    [DigitChar(x / 10), DigitChar(x % 10)]
  }

  /** The spellings of hour `h`, minute `m`: "HH:MM", and "H:MM" for hours below 10. */
  function Grafias(h: nat, m: nat): set<string>
    requires h < 24 && m < 60
  {
    {Pad2(h) + ":" + Pad2(m)} + (if h < 10 then {[DigitChar(h)] + ":" + Pad2(m)} else {})
  }

  function DigitoO0(c: char): nat { if IsDigit(c) then DigitValue(c) else 0 }

  /** Hour and minute read from the digit positions of a 4- or 5-character text. */
  function HoraDe(s: string): (nat, nat)
  {
    if |s| == 4 then (DigitoO0(s[0]), DigitoO0(s[2]) * 10 + DigitoO0(s[3]))
    else if |s| == 5 then (DigitoO0(s[0]) * 10 + DigitoO0(s[1]), DigitoO0(s[3]) * 10 + DigitoO0(s[4]))
    else (0, 0)
  }

  /** Every spelling of a valid hour and minute matches, and reads back as them. */
  lemma HoraGrafias(h: nat, m: nat)
    requires h < 24 && m < 60
    ensures forall t :: t in Grafias(h, m) ==> HoraTexto(t) && HoraDe(t) == (h, m)
  {
  }

  /** The hour pattern matches exactly the "HH:MM" and "H:MM" spellings of an
      hour below 24 and a minute below 60. */
  lemma HoraCaracterizacion(s: string)
    ensures HoraTexto(s) <==> var (h, m) := HoraDe(s); h < 24 && m < 60 && s in Grafias(h, m)
  {
    var (h, m) := HoraDe(s);
    if HoraTexto(s) {
      if |s| == 4 {
        assert s == [DigitChar(h)] + ":" + Pad2(m);
      } else {
        assert s == Pad2(h) + ":" + Pad2(m);
      }
    } else if h < 24 && m < 60 && s in Grafias(h, m) {
      HoraGrafias(h, m);
      assert false;
    }
  }

  /** The worked examples: one- and two-digit hours pass; hour 24 and minute 60 fail. */
  lemma HoraEjemplos()
    ensures HoraTexto("09:30") && HoraTexto("9:30") && HoraTexto("23:59") && HoraTexto("0:00")
    ensures !HoraTexto("24:00") && !HoraTexto("9:60") && !HoraTexto("09:3") && !HoraTexto(" 9:30")
  {
  }

  // ---- the chains -------------------------------------------------------------

  const EstadosCita: seq<string> := ["programada", "confirmada", "cancelada", "completada", "no_asistio"]

  predicate EstadoTexto(s: string) { s in EstadosCita }

  /** validacionCrearCita; `fechaValida` is the outcome of the date rule (a
      calendar date not before today), which depends on the clock. */
  predicate ValidacionCrearCita(b: CitaController.CitaBody, fechaValida: bool)
  {
    && EsIdPositivo(b.idCliente)
    && EsIdPositivo(b.idMascota)
    && EsIdPositivo(b.idServicio)
    && fechaValida
    && HoraValida(b.hora)
    && Opcional(b.usuarioIdUser, EsIdPositivo(b.usuarioIdUser))
    && Opcional(b.motivo, LongitudMax(b.motivo, 255))
    && Opcional(b.sintomas, LongitudMax(b.sintomas, 500))
    && Opcional(b.diagnosticoPrevio, LongitudMax(b.diagnosticoPrevio, 300))
    && Opcional(b.tratamientosAnteriores, b.tratamientosAnteriores.Arr?)
    && Opcional(b.notasAdicionales, LongitudMax(b.notasAdicionales, 500))
  }

  /** validacionActualizarCita: the path id, then every create rule on the body. */
  predicate ValidacionActualizarCita(idCita: string, b: CitaController.CitaBody, fechaValida: bool)
  {
    EsIdPositivo(Str(idCita)) && ValidacionCrearCita(b, fechaValida)
  }

  /** validacionEliminarCita: the path id only. */
  predicate ValidacionEliminarCita(idCita: string)
  {
    EsIdPositivo(Str(idCita))
  }

  /** validacionCambiarEstado: the path id, the status enum and optional observations. */
  predicate ValidacionCambiarEstado(idCita: string, estado: JsValue, observaciones: JsValue)
  {
    && EsIdPositivo(Str(idCita))
    && Every(estado, EstadoTexto)
    && Opcional(observaciones, LongitudMax(observaciones, 500))
  }

  // ---- properties of the chains -----------------------------------------------

  /** An id given as a JSON number passes exactly when it is at least 1 and
      below 10^21 (from there on its text is in exponent form); a path id
      written as the decimal text of `k` passes exactly when `k >= 1`. */
  lemma IdPositivo(n: int, k: nat)
    ensures EsIdPositivo(Num(n)) <==> 1 <= n < ExponentFrom
    ensures ValidacionEliminarCita(Decimal(k)) <==> k >= 1
  {
    IntegerValueOfIntText(n);
    IntegerValueOfDecimal(k);
  }

  /** 10^21 as a JSON number prints as "1e+21", which `isInt` rejects. */
  lemma IdExponente()
    ensures ToText(Num(ExponentFrom)) == "1e+21" && !EsIdPositivo(Num(ExponentFrom))
  {
    Pow10ExponentFrom();
    ExponentTextPow10(21);
    assert Decimal(21) == "21";
    IdPositivo(ExponentFrom, 0);
  }

  /** The create chain on a body whose ids are numbers, whose hour is a text
      and whose optional text fields are absent or texts. */
  lemma CrearCitaDecodificada(b: CitaController.CitaBody, fechaValida: bool)
    requires b.idCliente.Num? && b.idMascota.Num? && b.idServicio.Num? && b.hora.Str?
    requires b.usuarioIdUser.Undefined? || b.usuarioIdUser.Num?
    requires b.motivo.Undefined? || b.motivo.Str?
    requires b.sintomas.Undefined? || b.sintomas.Str?
    requires b.diagnosticoPrevio.Undefined? || b.diagnosticoPrevio.Str?
    requires b.notasAdicionales.Undefined? || b.notasAdicionales.Str?
    ensures ValidacionCrearCita(b, fechaValida) <==>
      && 1 <= b.idCliente.n < ExponentFrom
      && 1 <= b.idMascota.n < ExponentFrom
      && 1 <= b.idServicio.n < ExponentFrom
      && fechaValida
      && HoraTexto(b.hora.s)
      && (b.usuarioIdUser.Num? ==> 1 <= b.usuarioIdUser.n < ExponentFrom)
      && (b.motivo.Str? ==> |b.motivo.s| <= 255)
      && (b.sintomas.Str? ==> |b.sintomas.s| <= 500)
      && (b.diagnosticoPrevio.Str? ==> |b.diagnosticoPrevio.s| <= 300)
      && (b.tratamientosAnteriores.Undefined? || b.tratamientosAnteriores.Arr?)
      && (b.notasAdicionales.Str? ==> |b.notasAdicionales.s| <= 500)
  {
    IdPositivo(b.idCliente.n, 0);
    IdPositivo(b.idMascota.n, 0);
    IdPositivo(b.idServicio.n, 0);
    if b.usuarioIdUser.Num? {
      IdPositivo(b.usuarioIdUser.n, 0);
    }
  }

  /** A request valid for update carries a body valid for create; the update
      chain is the delete chain plus the create chain. */
  lemma ActualizarIncluyeCrear(idCita: string, b: CitaController.CitaBody, fechaValida: bool)
    ensures ValidacionActualizarCita(idCita, b, fechaValida) <==>
      ValidacionEliminarCita(idCita) && ValidacionCrearCita(b, fechaValida)
    ensures ValidacionActualizarCita(idCita, b, fechaValida) ==> ValidacionCrearCita(b, fechaValida)
  {
  }

  /** The change-status chain on a decimal path id and a text status. */
  lemma CambiarEstadoTextos(k: nat, estado: string, obs: Option<string>)
    ensures ValidacionCambiarEstado(Decimal(k), Str(estado), if obs.Some? then Str(obs.value) else Undefined) <==>
      && k >= 1
      && estado in {"programada", "confirmada", "cancelada", "completada", "no_asistio"}
      && (obs.Some? ==> |obs.value| <= 500)
  {
    IdPositivo(0, k);
  }

  /** The handlers do not consult the chain: a body the create chain rejects
      (client id -5, hour "25:99") is still created. */
  lemma ValidacionNoConsultada(s: CitaController.Store, now: string)
    ensures
      var b := CitaController.CitaBody(Num(-5), Num(1), Num(1), Str("2030-01-01"), Str("25:99"),
                                       Undefined, Undefined, Undefined, Undefined, Undefined, Undefined);
      && !ValidacionCrearCita(b, true)
      && CitaController.Crear(s, b, now, None).reply.status == 201
  {
    IdPositivo(-5, 0);
  }
}
