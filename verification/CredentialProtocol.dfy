/** The credential protocol over its two stores, as a machine whose steps are the points at
    which concurrent requests can interleave or stop.

    `issue` is four steps (lock, stage, register, commit) and a later `forget`; every other
    operation is one locked transaction, followed by its own Redis step where it has one.
    Row locks are held until commit, so a step that needs a locked row is not enabled. */
module CredentialProtocol {
  import opened Base
  import opened Credentials
  import TokenStore

  type Tabla = map<Uuid, Registro>

  datatype ConsumeResult = R_CONSUMIDA | R_YA_CONSUMIDA | R_EXPIRADA | R_REVOCADA | R_NO_ENCONTRADA

  /** An answer of `consume`; None would be a KeyError raised after the commit. */
  datatype Respuesta = Respuesta(jti: Uuid, res: Option<ConsumeResult>)

  // --- the transactions, as functions on the committed table ---------------------------

  /** `_REJECTION`: the table of answers, with no entry for ACTIVA. */
  function Rechazo(e: EstadoCredencial): Option<ConsumeResult> {
    match e
    case CONSUMIDA => Some(R_YA_CONSUMIDA)
    case EXPIRADA => Some(R_EXPIRADA)
    case REVOCADA => Some(R_REVOCADA)
    case EMITIDA => Some(R_REVOCADA)
    case ACTIVA => None
  }

  function ConsumeRow(r: Registro, actor: string, leido: Instant): Registro {
    Intenta(Refresca(r, leido), CONSUMIDA, MOTIVO_CONSUMO, actor, leido)
  }

  function ConsumeTx(db: Tabla, jti: Uuid, actor: string, leido: Instant): Tabla {
    if jti in db then db[jti := ConsumeRow(db[jti], actor, leido)] else db
  }

  function ConsumeAnswer(db: Tabla, jti: Uuid, leido: Instant): Option<ConsumeResult> {
    if jti !in db then Some(R_NO_ENCONTRADA)
    else
      var e := Refresca(db[jti], leido).fila.estado;
      if CanTransitionTo(e, CONSUMIDA) then Some(R_CONSUMIDA) else Rechazo(e)
  }

  /** Two clock readings: one to refresh the credential, one to revoke it. */
  function RevokeRow(r: Registro, motivo: string, leido: Instant, reloj: Instant): Registro {
    Intenta(Refresca(r, leido), REVOCADA, motivo, SISTEMA, reloj)
  }

  predicate RevokeAccepted(r: Registro, leido: Instant) {
    CanTransitionTo(Refresca(r, leido).fila.estado, REVOCADA)
  }

  function DetailTx(db: Tabla, jti: Uuid, pasajero: Uuid, now: Instant): Tabla {
    if jti in db && db[jti].fila.pasajeroId == pasajero then db[jti := Refresca(db[jti], now)] else db
  }

  ghost function Vencidas(db: Tabla, bloqueadas: set<Uuid>, t: Instant): set<Uuid> {
    set id | id in db && id !in bloqueadas && PastDue(db[id], t)
  }

  /** The rows `expired_live_for_update` may return: past due, not locked by someone else,
      earliest expiry first, at most `limite`. */
  ghost predicate SweepSelects(db: Tabla, bloqueadas: set<Uuid>, leido: Instant, limite: nat, ids: set<Uuid>) {
    var vencidas := Vencidas(db, bloqueadas, leido);
    && ids <= vencidas
    && |ids| == Min(limite, |vencidas|)
    && (forall a, b :: a in ids && b in vencidas - ids ==> db[a].fila.expiraAt <= db[b].fila.expiraAt)
  }

  function SweepTx(db: Tabla, leido: Instant, ids: set<Uuid>): Tabla {
    map id | id in db :: if id in ids then Expira(db[id], leido) else db[id]
  }

  predicate LiveFor(r: Registro, pasajero: Uuid, vuelo: string) {
    Live(r.fila.estado) && r.fila.pasajeroId == pasajero && r.fila.codigoVuelo == vuelo
  }

  /** The old credential as the open issue leaves it: expired if due at `ahora`, else revoked. */
  function StagePrevia(r: Registro, ahora: Instant, reloj: Instant): Registro {
    if PastDue(r, ahora) then Expira(r, ahora)
    else Intenta(r, REVOCADA, MOTIVO_RENOVACION, SISTEMA, reloj)
  }

  predicate StageForgets(r: Registro, ahora: Instant) {
    !PastDue(r, ahora) && CanTransitionTo(r.fila.estado, REVOCADA)
  }

  // --- the machine ----------------------------------------------------------------------

  /** An open `issue` transaction; nothing in it is visible to others before its commit. */
  datatype Tx =
    | Bloqueada(pasajero: Uuid, vuelo: string, ahora: Instant)
    | Preparada(pasajero: Uuid, vuelo: string, ahora: Instant, previa: Option<Registro>, olvidar: bool, nueva: Registro)
    | PorConfirmar(pasajero: Uuid, vuelo: string, ahora: Instant, previa: Option<Registro>, olvidar: bool,
                   nueva: Registro)

  /** `porOlvidar` and `porConsumir` hold the Redis steps still owed after a commit, `fallos` the
      keys whose Redis step failed or was lost in a crash, `abandonados` the credentials a renewal
      revoked although its own registration failed, so that nobody will delete their keys, `usados`
      every identifier drawn and `respuestas` every answer `consume` has committed to. */
  datatype Mundo = Mundo(
    ttl: nat,
    now: Instant,
    db: Tabla,
    tokens: TokenStore.Tokens,
    txs: map<nat, Tx>,
    porOlvidar: set<Uuid>,
    porConsumir: set<Uuid>,
    fallos: set<Uuid>,
    abandonados: set<Uuid>,
    usados: set<Uuid>,
    respuestas: seq<Respuesta>)

  datatype Evento =
    | Tick(d: nat)
    | Lock(tx: nat, pasajero: Uuid, vuelo: string)
    | Stage(tx: nat, anterior: Option<Uuid>, identidad: Uuid, nuevo: Uuid)
    | RegisterOk(tx: nat)
    | RegisterFails(tx: nat, aplicado: bool)
    | Commit(tx: nat)
    | Abort(tx: nat)
    | Forget(jti: Uuid, ok: bool)
    | Consume(jti: Uuid, actor: string, leido: Instant)
    | ConsumeKey(jti: Uuid, ok: bool)
    | Revoke(jti: Uuid, motivo: string, leido: Instant, reloj: Instant)
    | Detail(jti: Uuid, pasajero: Uuid, leido: Instant)
    | Sweep(leido: Instant, limite: nat, ids: set<Uuid>)

  ghost predicate Inicial(s: Mundo) {
    && TTL_MIN_SECONDS <= s.ttl <= TTL_MAX_SECONDS
    && s == Mundo(s.ttl, s.now, map[], map[], map[], {}, {}, {}, {}, {}, [])
  }

  /** Rows some open transaction holds. */
  ghost predicate Locked(s: Mundo, jti: Uuid) {
    exists t :: t in s.txs && HoldsRow(s.txs[t], jti)
  }

  ghost function LockedRows(s: Mundo): set<Uuid> {
    set id | id in s.db && Locked(s, id)
  }

  predicate HoldsRow(x: Tx, jti: Uuid) {
    !x.Bloqueada? && x.previa.Some? && x.previa.value.fila.id == jti
  }

  /** `get_live_for_update` answers `anterior`. */
  ghost predicate FindsLive(db: Tabla, pasajero: Uuid, vuelo: string, anterior: Option<Uuid>) {
    match anterior
    case None => forall id :: id in db ==> !LiveFor(db[id], pasajero, vuelo)
    case Some(a) => a in db && LiveFor(db[a], pasajero, vuelo)
  }

  /** The table as the open transaction sees it after touching the old row. */
  function VistaTx(db: Tabla, previa: Option<Registro>): Tabla {
    if previa.Some? then db[previa.value.fila.id := previa.value] else db
  }

  /** The uniqueness check of `add`. */
  ghost predicate UniqueViolated(vista: Tabla, nueva: Registro) {
    exists id :: id in vista && LiveFor(vista[id], nueva.fila.pasajeroId, nueva.fila.codigoVuelo)
  }

  ghost function StageTx(s: Mundo, x: Tx, anterior: Option<Uuid>, identidad: Uuid, nuevo: Uuid): Option<Tx>
    requires anterior.Some? ==> anterior.value in s.db
  {
    var previa := if anterior.Some? then Some(StagePrevia(s.db[anterior.value], x.ahora, s.now)) else None;
    var olvidar := anterior.Some? && StageForgets(s.db[anterior.value], x.ahora);
    var nueva := Emitida(nuevo, x.pasajero, identidad, x.vuelo, x.ahora, x.ahora + s.ttl * SECOND);
    if UniqueViolated(VistaTx(s.db, previa), nueva) then None
    else Some(Preparada(x.pasajero, x.vuelo, x.ahora, previa, olvidar, nueva))
  }

  /** Clock readings are taken before the row is locked or while it is, so any past instant is possible. */
  ghost predicate Enabled(s: Mundo, e: Evento) {
    match e
    case Tick(_) => true
    case Lock(t, p, _) => t !in s.txs && forall u :: u in s.txs ==> s.txs[u].pasajero != p
    case Stage(t, anterior, _, nuevo) =>
      && t in s.txs && s.txs[t].Bloqueada?
      && FindsLive(s.db, s.txs[t].pasajero, s.txs[t].vuelo, anterior)
      && (anterior.Some? ==> !Locked(s, anterior.value))
      && nuevo !in s.usados
    case RegisterOk(t) =>
      t in s.txs && s.txs[t].Preparada? && TokenStore.Registra(s.tokens, s.txs[t].nueva.fila.id, s.ttl, s.now).Some?
    case RegisterFails(t, _) => t in s.txs && s.txs[t].Preparada?
    case Commit(t) => t in s.txs && s.txs[t].PorConfirmar?
    case Abort(t) => t in s.txs
    case Forget(jti, _) => jti in s.porOlvidar
    case Consume(jti, _, leido) => leido <= s.now && !Locked(s, jti)
    case ConsumeKey(jti, _) => jti in s.porConsumir
    case Revoke(jti, _, leido, reloj) => leido <= reloj <= s.now && !Locked(s, jti)
    case Detail(jti, _, leido) => leido <= s.now && !Locked(s, jti)
    case Sweep(leido, limite, ids) =>
      leido <= s.now && SweepSelects(s.db, LockedRows(s), leido, limite, ids)
  }

  ghost function Step(s: Mundo, e: Evento): Mundo
    requires Enabled(s, e)
  {
    match e
    case Tick(d) => s.(now := s.now + d)
    case Lock(t, p, v) => s.(txs := s.txs[t := Bloqueada(p, v, s.now)])
    case Stage(t, anterior, identidad, nuevo) =>
      (match StageTx(s, s.txs[t], anterior, identidad, nuevo)
       case None => s.(txs := s.txs - {t}, usados := s.usados + {nuevo})
       case Some(x) => s.(txs := s.txs[t := x], usados := s.usados + {nuevo}))
    case RegisterOk(t) =>
      var x := s.txs[t];
      var y := PorConfirmar(x.pasajero, x.vuelo, x.ahora, x.previa, x.olvidar,
                            Intenta(x.nueva, ACTIVA, MOTIVO_ACTIVACION, SISTEMA, x.ahora));
      s.(txs := s.txs[t := y], tokens := TokenStore.Registra(s.tokens, x.nueva.fila.id, s.ttl, s.now).value)
    case RegisterFails(t, aplicado) =>
      // The failure can be reported although the key was written.
      var x := s.txs[t];
      var y := PorConfirmar(x.pasajero, x.vuelo, x.ahora, x.previa, x.olvidar,
                            Intenta(x.nueva, REVOCADA, MOTIVO_TOKEN_NO_REGISTRADO, SISTEMA, x.ahora));
      var escrito := TokenStore.Registra(s.tokens, x.nueva.fila.id, s.ttl, s.now);
      s.(txs := s.txs[t := y],
         tokens := if aplicado && escrito.Some? then escrito.value else s.tokens,
         fallos := s.fallos + {x.nueva.fila.id})
    case Commit(t) =>
      var x := s.txs[t];
      s.(txs := s.txs - {t},
         db := VistaTx(s.db, x.previa)[x.nueva.fila.id := x.nueva],
         porOlvidar := s.porOlvidar +
           if x.previa.Some? && x.olvidar && x.nueva.fila.estado == ACTIVA then {x.previa.value.fila.id} else {},
         abandonados := s.abandonados +
           if x.previa.Some? && x.olvidar && x.nueva.fila.estado != ACTIVA then {x.previa.value.fila.id} else {})
    case Abort(t) =>
      s.(txs := s.txs - {t},
         fallos := s.fallos + if s.txs[t].PorConfirmar? then {s.txs[t].nueva.fila.id} else {})
    case Forget(jti, ok) =>
      if ok then s.(porOlvidar := s.porOlvidar - {jti}, tokens := TokenStore.Olvida(s.tokens, jti))
      else s.(porOlvidar := s.porOlvidar - {jti}, fallos := s.fallos + {jti})
    case Consume(jti, actor, leido) =>
      var res := ConsumeAnswer(s.db, jti, leido);
      s.(db := ConsumeTx(s.db, jti, actor, leido),
         respuestas := s.respuestas + [Respuesta(jti, res)],
         porConsumir := s.porConsumir + if res == Some(R_CONSUMIDA) then {jti} else {})
    case ConsumeKey(jti, ok) =>
      if ok then s.(porConsumir := s.porConsumir - {jti}, tokens := TokenStore.Consume(s.tokens, jti, s.now))
      else s.(porConsumir := s.porConsumir - {jti}, fallos := s.fallos + {jti})
    case Revoke(jti, motivo, leido, reloj) =>
      if jti in s.db then
        s.(db := s.db[jti := RevokeRow(s.db[jti], motivo, leido, reloj)],
           porOlvidar := s.porOlvidar + if RevokeAccepted(s.db[jti], leido) then {jti} else {})
      else s
    case Detail(jti, pasajero, leido) => s.(db := DetailTx(s.db, jti, pasajero, leido))
    case Sweep(leido, limite, ids) => s.(db := SweepTx(s.db, leido, ids))
  }

  ghost predicate Legal(s: Mundo, es: seq<Evento>)
    decreases |es|
  {
    es == [] || (Enabled(s, es[0]) && Legal(Step(s, es[0]), es[1..]))
  }

  ghost function Exec(s: Mundo, es: seq<Evento>): Mundo
    requires Legal(s, es)
    decreases |es|
  {
    if es == [] then s else Exec(Step(s, es[0]), es[1..])
  }
}
