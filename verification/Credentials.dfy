/** The CredencialAcceso aggregate: its state pattern, its history and the meaning of both. */
module Credentials {
  import opened Base

  datatype EstadoCredencial = EMITIDA | ACTIVA | CONSUMIDA | EXPIRADA | REVOCADA

  datatype Transicion = Transicion(
    estadoAnterior: Option<EstadoCredencial>,
    estadoSolicitado: EstadoCredencial,
    aceptada: bool,
    motivo: string,
    actor: string,
    createdAt: Instant)

  datatype TransitionResult = TransitionResult(aceptada: bool, estadoActual: EstadoCredencial)

  /** One row of the credentials table. */
  datatype Credencial = Credencial(
    id: Uuid,
    pasajeroId: Uuid,
    identidadId: Uuid,
    codigoVuelo: string,
    emitidaAt: Instant,
    expiraAt: Instant,
    estado: EstadoCredencial,
    updatedAt: Instant)

  /** A row together with its whole history: the persisted rows, then the pending ones. */
  datatype Registro = Registro(fila: Credencial, historial: seq<Transicion>)

  const SISTEMA := "sistema"
  const MOTIVO_EMISION := "EMISION"
  const MOTIVO_ACTIVACION := "ACTIVACION"
  const MOTIVO_CONSUMO := "CONSUMO"
  const MOTIVO_EXPIRACION := "EXPIRACION"
  const MOTIVO_RENOVACION := "RENOVACION"
  const MOTIVO_INVALIDA := "TRANSICION_INVALIDA"
  const MOTIVO_TOKEN_NO_REGISTRADO := "ALMACENAMIENTO_NO_DISPONIBLE"

  const TTL_MIN_SECONDS := 30
  const TTL_MAX_SECONDS := 60

  // --- states -------------------------------------------------------------------------

  function Allowed(e: EstadoCredencial): set<EstadoCredencial> {
    match e
    case EMITIDA => {ACTIVA, EXPIRADA, REVOCADA}
    case ACTIVA => {CONSUMIDA, EXPIRADA, REVOCADA}
    case CONSUMIDA => {}
    case EXPIRADA => {}
    case REVOCADA => {}
  }

  predicate CanTransitionTo(e: EstadoCredencial, target: EstadoCredencial) {
    target in Allowed(e)
  }

  predicate IsFinal(e: EstadoCredencial) {
    Allowed(e) == {}
  }

  /** The states the repositories call live; `FinalIffNotLive` ties them to the table. */
  predicate Live(e: EstadoCredencial) {
    e == EMITIDA || e == ACTIVA
  }

  lemma FinalIffNotLive(e: EstadoCredencial)
    ensures IsFinal(e) <==> !Live(e)
  {
    assert CanTransitionTo(EMITIDA, REVOCADA) && CanTransitionTo(ACTIVA, REVOCADA);
  }

  // --- transitions on values ----------------------------------------------------------

  function Emitida(id: Uuid, pasajero: Uuid, identidad: Uuid, vuelo: string, emitidaAt: Instant,
                   expiraAt: Instant): Registro {
    Registro(
      Credencial(id, pasajero, identidad, vuelo, emitidaAt, expiraAt, EMITIDA, emitidaAt),
      [Transicion(None, EMITIDA, true, MOTIVO_EMISION, SISTEMA, emitidaAt)])
  }

  /** What one call of `_transition` leaves behind. */
  function Intenta(r: Registro, target: EstadoCredencial, motivo: string, actor: string, ahora: Instant): Registro {
    var e := r.fila.estado;
    if CanTransitionTo(e, target) then
      Registro(r.fila.(estado := target, updatedAt := ahora),
               r.historial + [Transicion(Some(e), target, true, motivo, actor, ahora)])
    else
      Registro(r.fila,
               r.historial + [Transicion(Some(e), target, false, MOTIVO_INVALIDA, actor, ahora)])
  }

  predicate PastDue(r: Registro, now: Instant) {
    Live(r.fila.estado) && now >= r.fila.expiraAt
  }

  function Expira(r: Registro, now: Instant): Registro {
    Intenta(r, EXPIRADA, MOTIVO_EXPIRACION, SISTEMA, now)
  }

  function Refresca(r: Registro, now: Instant): Registro {
    if PastDue(r, now) then Expira(r, now) else r
  }

  // --- what a history means -----------------------------------------------------------

  /** Reading `h` from its first row ends in state `e`: it starts with the emission, every
      accepted row is an allowed step from the state reached so far, and every rejected row
      names that state, is not an allowed step, and changes nothing. */
  ghost predicate Replays(h: seq<Transicion>, e: EstadoCredencial)
    decreases |h|
  {
    |h| > 0 &&
    var t := h[|h| - 1];
    if |h| == 1 then
      t.estadoAnterior == None && t.estadoSolicitado == EMITIDA && t.aceptada && t.motivo == MOTIVO_EMISION &&
        e == EMITIDA
    else
      && t.estadoAnterior.Some?
      && Replays(h[..|h| - 1], t.estadoAnterior.value)
      && t.aceptada == CanTransitionTo(t.estadoAnterior.value, t.estadoSolicitado)
      && (if t.aceptada then e == t.estadoSolicitado
          else e == t.estadoAnterior.value && t.motivo == MOTIVO_INVALIDA)
  }

  /** Rows of `h` that ask for `target` (any state for None); only the accepted ones if `soloAceptadas`. */
  function CountRows(h: seq<Transicion>, target: Option<EstadoCredencial>, soloAceptadas: bool): nat {
    if h == [] then 0
    else
      var t := h[|h| - 1];
      CountRows(h[..|h| - 1], target, soloAceptadas) +
      if (target == None || target == Some(t.estadoSolicitado)) && (soloAceptadas ==> t.aceptada) then 1 else 0
  }

  lemma CountSnoc(h: seq<Transicion>, t: Transicion, target: Option<EstadoCredencial>, soloAceptadas: bool)
    ensures CountRows(h + [t], target, soloAceptadas) == CountRows(h, target, soloAceptadas) +
            if (target == None || target == Some(t.estadoSolicitado)) && (soloAceptadas ==> t.aceptada) then 1 else 0
  {
    assert (h + [t])[..|h|] == h;
  }

  function Rank(e: EstadoCredencial): nat {
    match e case EMITIDA => 2 case ACTIVA => 1 case _ => 0
  }

  /** No history accepts more than three rows, and a final state was entered exactly once. */
  lemma {:induction false} ReplayBounds(h: seq<Transicion>, e: EstadoCredencial, f: EstadoCredencial)
    requires Replays(h, e)
    ensures CountRows(h, None, true) + Rank(e) <= 3
    ensures IsFinal(f) ==> CountRows(h, Some(f), true) == if e == f then 1 else 0
    decreases |h|
  {
    var t := h[|h| - 1];
    assert h == h[..|h| - 1] + [t];
    CountSnoc(h[..|h| - 1], t, None, true);
    CountSnoc(h[..|h| - 1], t, Some(f), true);
    FinalIffNotLive(f);
    if |h| > 1 {
      ReplayBounds(h[..|h| - 1], t.estadoAnterior.value, f);
      FinalIffNotLive(t.estadoAnterior.value);
    }
  }

  /** A refused row always says so. */
  lemma {:induction false} RefusalsSaySo(h: seq<Transicion>, e: EstadoCredencial, i: nat)
    requires Replays(h, e) && i < |h| && !h[i].aceptada
    ensures h[i].motivo == MOTIVO_INVALIDA
    decreases |h|
  {
    if i < |h| - 1 { RefusalsSaySo(h[..|h| - 1], h[|h| - 1].estadoAnterior.value, i); }
  }

  /** A history determines the state it ends in. */
  lemma ReplayDeterministic(h: seq<Transicion>, e1: EstadoCredencial, e2: EstadoCredencial)
    requires Replays(h, e1) && Replays(h, e2)
    ensures e1 == e2
  {}

  /** An accepted consumption precedes the expiry instant, an accepted expiry does not, no expiry is
      ever refused, and an accepted row gives the reason proper to its state. */
  predicate RowTimely(t: Transicion, expiraAt: Instant) {
    && (t.estadoSolicitado == CONSUMIDA && t.aceptada ==> t.createdAt < expiraAt)
    && (t.estadoSolicitado == EXPIRADA ==> t.aceptada && t.createdAt >= expiraAt)
    && (t.aceptada ==> Explains(t.estadoSolicitado, t.motivo, t.actor))
  }

  /** Only a consumption has an actor of its own, and only a revocation a reason of its own. */
  predicate Explains(e: EstadoCredencial, motivo: string, actor: string) {
    match e
    case EMITIDA => motivo == MOTIVO_EMISION && actor == SISTEMA
    case ACTIVA => motivo == MOTIVO_ACTIVACION && actor == SISTEMA
    case CONSUMIDA => motivo == MOTIVO_CONSUMO
    case EXPIRADA => motivo == MOTIVO_EXPIRACION && actor == SISTEMA
    case REVOCADA => actor == SISTEMA
  }

  ghost predicate Genuine(r: Registro) {
    && Replays(r.historial, r.fila.estado)
    && (forall i :: 0 <= i < |r.historial| ==> RowTimely(r.historial[i], r.fila.expiraAt))
    && TTL_MIN_SECONDS * SECOND <= r.fila.expiraAt - r.fila.emitidaAt <= TTL_MAX_SECONDS * SECOND
  }

  /** `s` continues `r`: same data, a history that only grew, and no way back from a final state. */
  ghost predicate Continues(r: Registro, s: Registro) {
    && s.fila == r.fila.(estado := s.fila.estado, updatedAt := s.fila.updatedAt)
    && r.historial <= s.historial
    && (!Live(r.fila.estado) ==> s.fila.estado == r.fila.estado)
    && (s.fila.estado == EMITIDA ==> r.fila.estado == EMITIDA)
  }

  lemma EmitidaGenuine(id: Uuid, p: Uuid, i: Uuid, v: string, at: Instant, ttl: int)
    requires TTL_MIN_SECONDS <= ttl <= TTL_MAX_SECONDS
    ensures Genuine(Emitida(id, p, i, v, at, at + ttl * SECOND))
  {}

  /** A transition keeps a record genuine provided consumption comes before the expiry instant,
      expiry is only asked of a live credential that is due, and the reason is the proper one. */
  lemma IntentaGenuine(r: Registro, target: EstadoCredencial, motivo: string, actor: string, ahora: Instant)
    requires Genuine(r)
    requires target == CONSUMIDA && r.fila.estado == ACTIVA ==> ahora < r.fila.expiraAt
    requires target == EXPIRADA ==> PastDue(r, ahora)
    requires Explains(target, motivo, actor)
    ensures Genuine(Intenta(r, target, motivo, actor, ahora))
    ensures Continues(r, Intenta(r, target, motivo, actor, ahora))
  {
    var s := Intenta(r, target, motivo, actor, ahora);
    assert s.historial[..|s.historial| - 1] == r.historial;
    FinalIffNotLive(r.fila.estado);
  }

  lemma RefrescaGenuine(r: Registro, now: Instant)
    requires Genuine(r)
    ensures Genuine(Refresca(r, now)) && Continues(r, Refresca(r, now))
    ensures !PastDue(Refresca(r, now), now)
    ensures forall solo ::
              CountRows(Refresca(r, now).historial, Some(CONSUMIDA), solo) ==
                CountRows(r.historial, Some(CONSUMIDA), solo)
  {
    if PastDue(r, now) {
      IntentaGenuine(r, EXPIRADA, MOTIVO_EXPIRACION, SISTEMA, now);
      forall soloAceptadas {
        CountSnoc(r.historial, Expira(r, now).historial[|r.historial|], Some(CONSUMIDA), soloAceptadas);
      }
    }
  }

  // --- the aggregate ------------------------------------------------------------------

  class CredencialAcceso {
    const id: Uuid
    const pasajeroId: Uuid
    const identidadId: Uuid
    const codigoVuelo: string
    const emitidaAt: Instant
    const expiraAt: Instant
    var estado: EstadoCredencial
    var updatedAt: Instant
    var pendingTransitions: seq<Transicion>

    function Fila(): Credencial
      reads this
    {
      Credencial(id, pasajeroId, identidadId, codigoVuelo, emitidaAt, expiraAt, estado, updatedAt)
    }

    /** The record this object stands for when `persistido` is its history in the table. */
    function Vista(persistido: seq<Transicion>): Registro
      reads this
    {
      Registro(Fila(), persistido + pendingTransitions)
    }

    constructor Emitir(id: Uuid, pasajero: Uuid, identidad: Uuid, vuelo: string, emitidaAt: Instant, expiraAt: Instant)
      ensures Vista([]) == Emitida(id, pasajero, identidad, vuelo, emitidaAt, expiraAt)
      ensures Fila() == Credencial(id, pasajero, identidad, vuelo, emitidaAt, expiraAt, EMITIDA, emitidaAt)
    {
      this.id, pasajeroId, identidadId, codigoVuelo := id, pasajero, identidad, vuelo;
      this.emitidaAt, this.expiraAt := emitidaAt, expiraAt;
      estado, updatedAt := EMITIDA, emitidaAt;
      pendingTransitions := [Transicion(None, EMITIDA, true, MOTIVO_EMISION, SISTEMA, emitidaAt)];
    }

    /** The deep copy the repository hands out. */
    constructor Desde(f: Credencial)
      ensures Fila() == f && pendingTransitions == []
    {
      id, pasajeroId, identidadId, codigoVuelo := f.id, f.pasajeroId, f.identidadId, f.codigoVuelo;
      emitidaAt, expiraAt, estado, updatedAt := f.emitidaAt, f.expiraAt, f.estado, f.updatedAt;
      pendingTransitions := [];
    }

    method Transition(target: EstadoCredencial, motivo: string, actor: string, ahora: Instant)
      returns (result: TransitionResult)
      modifies this
      ensures forall p :: Vista(p) == Intenta(old(Vista(p)), target, motivo, actor, ahora)
      ensures result == TransitionResult(CanTransitionTo(old(estado), target), estado)
      ensures old(pendingTransitions) <= pendingTransitions
    {
      var anterior := estado;
      var aceptada := target in Allowed(anterior);
      if aceptada {
        estado := target;
        updatedAt := ahora;
      }
      pendingTransitions := pendingTransitions +
        [Transicion(Some(anterior), target, aceptada, if aceptada then motivo else MOTIVO_INVALIDA, actor, ahora)];
      result := TransitionResult(aceptada, estado);
      forall p ensures Vista(p) == Intenta(old(Vista(p)), target, motivo, actor, ahora) {
        assert p + pendingTransitions ==
          (p + old(pendingTransitions)) + pendingTransitions[|old(pendingTransitions)|..];
      }
    }

    method RefreshExpiry(now: Instant) returns (moved: bool)
      modifies this
      ensures forall p :: Vista(p) == Refresca(old(Vista(p)), now)
      ensures moved == PastDue(old(Vista([])), now)
      ensures !moved ==> pendingTransitions == old(pendingTransitions)
    {
      FinalIffNotLive(estado);
      if !IsFinal(estado) && now >= expiraAt {
        var r := Transition(EXPIRADA, MOTIVO_EXPIRACION, SISTEMA, now);
        moved := r.aceptada;
      } else {
        moved := false;
      }
    }
  }
}
