/** The in-memory credential repository and the two services that use it, run by one request at a
    time. Each method is proved to do exactly what the protocol machine's transactions do; clock
    readings and the Redis outages of the token store are inputs. */
module CredentialServices {
  import opened Base
  import opened Credentials
  import opened CredentialProtocol
  import opened CredentialInvariants
  import TokenStore

  /** `cs` lists `ids` once each. */
  ghost predicate Lists(cs: seq<Uuid>, ids: set<Uuid>) {
    && |cs| == |ids|
    && (forall k :: 0 <= k < |cs| ==> cs[k] in ids)
    && (forall i, k :: 0 <= i < k < |cs| ==> cs[i] != cs[k])
  }

  lemma ListsSnoc(cs: seq<Uuid>, ids: set<Uuid>, id: Uuid)
    requires Lists(cs, ids) && id !in ids
    ensures Lists(cs + [id], ids + {id})
  {}

  /** A listed set has no members besides the listed ones. */
  lemma {:induction false} ListsAll(cs: seq<Uuid>, ids: set<Uuid>, k: nat)
    requires k < |cs| && Lists(cs[..k], ids)
    requires forall i, j :: 0 <= i < j < |cs| ==> cs[i] != cs[j]
    ensures cs[k] !in ids
    decreases k
  {
    if k > 0 {
      var menos := cs[..k - 1] + [cs[k]];
      assert cs[..k][k - 1] == cs[k - 1];
      assert Lists(cs[..k - 1], ids - {cs[k - 1]}) by { assert forall i :: 0 <= i < k - 1 ==> cs[..k][i] == cs[i]; }
      ListsAll(menos, ids - {cs[k - 1]}, k - 1) by { assert menos[..k - 1] == cs[..k - 1]; }
    }
  }

  lemma ListsNext(cs: seq<Uuid>, ids: set<Uuid>, k: nat)
    requires k < |cs| && Lists(cs[..k], ids)
    requires forall i, j :: 0 <= i < j < |cs| ==> cs[i] != cs[j]
    ensures cs[k] !in ids && Lists(cs[..k + 1], ids + {cs[k]})
  {
    ListsAll(cs, ids, k);
    ListsSnoc(cs[..k], ids, cs[k]);
    assert cs[..k + 1] == cs[..k] + [cs[k]];
  }

  lemma SweepTxSnoc(db: Tabla, t: Instant, hechas: set<Uuid>, id: Uuid)
    requires id in db && id !in hechas
    ensures SweepTx(db, t, hechas)[id] == db[id]
    ensures SweepTx(db, t, hechas + {id}) == SweepTx(db, t, hechas)[id := Expira(db[id], t)]
  {}

  ghost predicate HasLive(db: Tabla, pasajero: Uuid, vuelo: string) {
    exists id :: id in db && LiveFor(db[id], pasajero, vuelo)
  }

  class InMemoryCredentialRepository {
    var credentials: map<Uuid, Credencial>
    var transitions: map<Uuid, seq<Transicion>>

    ghost predicate Valid()
      reads this
    {
      transitions.Keys == credentials.Keys && forall id :: id in credentials ==> credentials[id].id == id
    }

    ghost function Db(): (db: Tabla)
      requires Valid()
      reads this
    {
      map id | id in credentials :: Registro(credentials[id], transitions[id])
    }

    constructor ()
      ensures Valid() && Db() == map[]
    {
      credentials, transitions := map[], map[];
    }

    ghost function Historial(id: Uuid): seq<Transicion>
      reads this
    {
      if id in transitions then transitions[id] else []
    }

    /** Appends the pending rows to the history and stores a copy of the credential. */
    method Store(c: CredencialAcceso)
      requires Valid()
      modifies this, c`pendingTransitions
      ensures Valid() && c.pendingTransitions == []
      ensures Db() == old(Db())[c.id := old(c.Vista(Historial(c.id)))]
    {
      var previas := if c.id in transitions then transitions[c.id] else [];
      transitions := transitions[c.id := previas + c.pendingTransitions];
      c.pendingTransitions := [];
      credentials := credentials[c.id := c.Fila()];
    }

    method GetForUpdate(id: Uuid) returns (c: CredencialAcceso?)
      requires Valid()
      ensures c == null <==> id !in Db()
      ensures c != null ==> fresh(c) && c.id == id && c.pendingTransitions == [] && c.Vista(Historial(id)) == Db()[id]
    {
      if id in credentials {
        c := new CredencialAcceso.Desde(credentials[id]);
      } else {
        c := null;
      }
    }

    method GetLiveForUpdate(pasajero: Uuid, vuelo: string) returns (c: CredencialAcceso?)
      requires Valid()
      ensures FindsLive(Db(), pasajero, vuelo, if c == null then None else Some(c.id))
      ensures c != null ==> fresh(c) && c.pendingTransitions == [] && c.Vista(Historial(c.id)) == Db()[c.id]
    {
      var ids := credentials.Keys;
      while ids != {}
        invariant ids <= credentials.Keys
        invariant forall id :: id in credentials && id !in ids ==> !LiveFor(Db()[id], pasajero, vuelo)
        decreases |ids|
      {
        var id :| id in ids;
        var f := credentials[id];
        if f.pasajeroId == pasajero && f.codigoVuelo == vuelo && Live(f.estado) {
          c := new CredencialAcceso.Desde(f);
          return;
        }
        ids := ids - {id};
      }
      c := null;
    }

    /** False stands for UniqueViolation. */
    method Add(c: CredencialAcceso) returns (ok: bool)
      requires Valid()
      modifies this, c`pendingTransitions
      ensures Valid()
      ensures ok == !(Live(c.estado) && HasLive(old(Db()), c.pasajeroId, c.codigoVuelo))
      ensures ok ==> c.pendingTransitions == [] && Db() == old(Db())[c.id := old(c.Vista(Historial(c.id)))]
      ensures !ok ==> Db() == old(Db())
    {
      if Live(c.estado) {
        var otra := GetLiveForUpdate(c.pasajeroId, c.codigoVuelo);
        if otra != null {
          return false;
        }
      }
      Store(c);
      ok := true;
    }

    /** Past-due live rows, earliest expiry first, at most `limit`. */
    method ExpiredLiveForUpdate(now: Instant, limit: nat) returns (cs: seq<Uuid>, ghost ids: set<Uuid>)
      requires Valid()
      ensures SweepSelects(Db(), {}, now, limit, ids)
      ensures Lists(cs, ids)
    {
      var todas := set id | id in credentials && Live(credentials[id].estado) && credentials[id].expiraAt <= now;
      assert todas == Vencidas(Db(), {}, now);
      ghost var quedan;
      cs, ids, quedan := TakeEarliest(todas, limit);
      SelectsEarliest(now, limit, ids, quedan);
    }

    method TakeEarliest(todas: set<Uuid>, limit: nat)
      returns (cs: seq<Uuid>, ghost ids: set<Uuid>, ghost resto: set<Uuid>)
      requires todas <= credentials.Keys
      ensures Lists(cs, ids) && resto + ids == todas && resto !! ids
      ensures forall a, b :: a in ids && b in resto ==> credentials[a].expiraAt <= credentials[b].expiraAt
      ensures |ids| <= limit && (resto == {} || |ids| == limit)
    {
      cs, ids := [], {};
      var quedan := todas;
      while quedan != {} && |cs| < limit
        invariant Lists(cs, ids) && |cs| <= limit
        invariant quedan + ids == todas && quedan !! ids
        invariant forall a, b :: a in ids && b in quedan ==> credentials[a].expiraAt <= credentials[b].expiraAt
        decreases |quedan|
      {
        var id := Earliest(quedan);
        ListsSnoc(cs, ids, id);
        cs, ids := cs + [id], ids + {id};
        quedan := quedan - {id};
      }
      resto := quedan;
    }

    lemma SelectsEarliest(now: Instant, limit: nat, ids: set<Uuid>, quedan: set<Uuid>)
      requires Valid() && quedan + ids == Vencidas(Db(), {}, now) && quedan !! ids
      requires forall a, b :: a in ids && b in quedan ==> credentials[a].expiraAt <= credentials[b].expiraAt
      requires |ids| <= limit && (quedan == {} || |ids| == limit)
      ensures SweepSelects(Db(), {}, now, limit, ids)
    {
      assert |ids + quedan| == |ids| + |quedan|;
      assert Vencidas(Db(), {}, now) - ids == quedan;
    }

    method Earliest(ids: set<Uuid>) returns (id: Uuid)
      requires ids != {} && ids <= credentials.Keys
      ensures id in ids && forall o :: o in ids ==> credentials[id].expiraAt <= credentials[o].expiraAt
    {
      id :| id in ids;
      var resto := ids - {id};
      while resto != {}
        invariant resto <= ids && id in ids
        invariant forall o :: o in ids - resto ==> credentials[id].expiraAt <= credentials[o].expiraAt
        decreases |resto|
      {
        var o :| o in resto;
        if credentials[o].expiraAt < credentials[id].expiraAt {
          id := o;
        }
        resto := resto - {o};
      }
    }
  }

  function StagedView(db: Tabla, anterior: Option<Uuid>, ahora: Instant, reloj: Instant): Tabla
    requires anterior.Some? ==> anterior.value in db
  {
    if anterior.Some? then db[anterior.value := StagePrevia(db[anterior.value], ahora, reloj)] else db
  }

  /** A new credential once its key is registered, or could not be. */
  function Settled(r: Registro, registrado: bool, ahora: Instant): Registro {
    if registrado then Intenta(r, ACTIVA, MOTIVO_ACTIVACION, SISTEMA, ahora)
    else Intenta(r, REVOCADA, MOTIVO_TOKEN_NO_REGISTRADO, SISTEMA, ahora)
  }

  /** The new credential at commit. */
  function Nueva(pasajero: Uuid, identidad: Uuid, vuelo: string, jti: Uuid, ahora: Instant, ttl: nat,
                 registrado: bool): Registro {
    Settled(Emitida(jti, pasajero, identidad, vuelo, ahora, ahora + ttl * SECOND), registrado, ahora)
  }

  /** The table after an `issue` that nobody interleaves with. */
  function IssueTx(db: Tabla, anterior: Option<Uuid>, pasajero: Uuid, identidad: Uuid, vuelo: string, jti: Uuid,
                   ahora: Instant, reloj: Instant, ttl: nat, registrado: bool): Tabla
    requires anterior.Some? ==> anterior.value in db
  {
    StagedView(db, anterior, ahora, reloj)[jti := Nueva(pasajero, identidad, vuelo, jti, ahora, ttl, registrado)]
  }

  /** The key to forget after the commit. */
  function ToForget(db: Tabla, anterior: Option<Uuid>, ahora: Instant): Option<Uuid>
    requires anterior.Some? ==> anterior.value in db
  {
    if anterior.Some? && StageForgets(db[anterior.value], ahora) then anterior else None
  }

  /** The token store after an accepted issue: the new key, without the forgotten one. */
  function IssueTokens(ts: TokenStore.Tokens, olvidar: Option<Uuid>, jti: Uuid, ttl: nat,
                       registro: Instant): TokenStore.Tokens {
    var con := ts[jti := TokenStore.Token(TokenStore.ACTIVA, registro + ttl * SECOND, ttl)];
    if olvidar.Some? then TokenStore.Olvida(con, olvidar.value) else con
  }

  /** `register` with or without an outage. */
  predicate Registrable(falla: bool, ts: TokenStore.Tokens, jti: Uuid, registro: Instant) {
    !falla && (jti in ts ==> registro >= ts[jti].expira)
  }

  /** The token store after the answer `res`; `falla` says whether the deletion meets an outage. */
  function TokensAfter(res: IssueResult, ts: TokenStore.Tokens, falla: bool, olvidar: Option<Uuid>, jti: Uuid, ttl: nat,
                       registro: Instant): TokenStore.Tokens {
    if res == IssuedPass then IssueTokens(ts, if falla then None else olvidar, jti, ttl, registro) else ts
  }

  datatype IssueResult =
    | IssuedPass
    | IdentidadNoActiva
    | DocumentoVencidoParaPase
    | AlmacenamientoNoDisponible
    | UniqueViolation

  // --- what the operations leave, spelled out ------------------------------------------------------

  predicate SameKey(ts: TokenStore.Tokens, ts': TokenStore.Tokens, id: Uuid) {
    (id in ts <==> id in ts') && (id in ts ==> ts'[id] == ts[id])
  }

  /** The key of `id` answers "usable" at no instant from `desde` on, and all others are as they were. */
  ghost predicate OnlyKillsKey(ts: TokenStore.Tokens, ts': TokenStore.Tokens, id: Uuid, desde: Instant) {
    && (forall t :: t >= desde ==> TokenStore.Vivo(ts', id, t) != Some(TokenStore.ACTIVA))
    && (forall o :: o != id ==> SameKey(ts, ts', o))
  }

  /** After a successful issue: the new key is usable until `fin`, the old credential's key is gone if
      that was revoked and Redis answered, and every other key is as it was. */
  ghost predicate RenewedKeys(db': Tabla, anterior: Option<Uuid>, jti: Uuid, ts: TokenStore.Tokens,
                              ts': TokenStore.Tokens, falla: bool, fin: Instant) {
    && (forall t :: TokenStore.Vivo(ts', jti, t) == if t < fin then Some(TokenStore.ACTIVA) else None)
    && (forall id :: id != jti ==>
          if anterior == Some(id) && id in db' && db'[id].fila.estado == REVOCADA && !falla
          then forall t :: TokenStore.Vivo(ts', id, t) == None
          else SameKey(ts, ts', id))
  }

  /** No row but that of `jti` changed. */
  ghost predicate OnlyRow(db: Tabla, db': Tabla, jti: Uuid) {
    db'.Keys == db.Keys && forall id :: id in db && id != jti ==> db'[id] == db[id]
  }

  /** `anterior` is the passenger's live credential for the flight, or there is none. */
  ghost predicate Renews(db: Tabla, pasajero: Uuid, vuelo: string, anterior: Option<Uuid>) {
    match anterior
    case Some(a) =>
      && a in db && db[a].fila.pasajeroId == pasajero && db[a].fila.codigoVuelo == vuelo
      && db[a].fila.estado in {EMITIDA, ACTIVA}
    case None =>
      forall id :: id in db && db[id].fila.pasajeroId == pasajero && db[id].fila.codigoVuelo == vuelo ==>
        db[id].fila.estado !in {EMITIDA, ACTIVA}
  }

  /** `q` is `r` with one accepted transition more. */
  predicate Moved(r: Registro, q: Registro, target: EstadoCredencial, motivo: string, at: Instant) {
    && q.fila == r.fila.(estado := target, updatedAt := at)
    && q.historial == r.historial + [Transicion(Some(r.fila.estado), target, true, motivo, SISTEMA, at)]
  }

  /** The rows after a committed issue: the new credential with its two transitions, the old one expired
      if due and else revoked for the renewal, and every other one as it was. */
  ghost predicate IssuedRows(db: Tabla, db': Tabla, anterior: Option<Uuid>, nueva: Credencial, reloj: Instant) {
    var ahora := nueva.emitidaAt;
    var motivo := if nueva.estado == ACTIVA then MOTIVO_ACTIVACION else MOTIVO_TOKEN_NO_REGISTRADO;
    && db'.Keys == db.Keys + {nueva.id}
    && db'[nueva.id] == Registro(nueva, [Transicion(None, EMITIDA, true, MOTIVO_EMISION, SISTEMA, ahora),
                                         Transicion(Some(EMITIDA), nueva.estado, true, motivo, SISTEMA, ahora)])
    && forall id :: id in db ==>
         if anterior != Some(id) then db'[id] == db[id]
         else if ahora >= db[id].fila.expiraAt then Moved(db[id], db'[id], EXPIRADA, MOTIVO_EXPIRACION, ahora)
         else Moved(db[id], db'[id], REVOCADA, MOTIVO_RENOVACION, reloj)
  }

  lemma IssueTxRows(db: Tabla, anterior: Option<Uuid>, pasajero: Uuid, identidad: Uuid, vuelo: string, jti: Uuid,
                    ahora: Instant, reloj: Instant, ttl: nat, ok: bool)
    requires jti !in db && FindsLive(db, pasajero, vuelo, anterior)
    ensures var estado := if ok then ACTIVA else REVOCADA;
            var nueva := Credencial(jti, pasajero, identidad, vuelo, ahora, ahora + ttl * SECOND, estado, ahora);
            IssuedRows(db, IssueTx(db, anterior, pasajero, identidad, vuelo, jti, ahora, reloj, ttl, ok), anterior,
              nueva, reloj)
  {
    if anterior.Some? {
      var r := db[anterior.value];
      assert CanTransitionTo(r.fila.estado, EXPIRADA) && CanTransitionTo(r.fila.estado, REVOCADA);
    }
  }

  lemma IssueTokensRenew(db: Tabla, anterior: Option<Uuid>, pasajero: Uuid, identidad: Uuid, vuelo: string, jti: Uuid,
                         ahora: Instant, reloj: Instant, ttl: nat, ts: TokenStore.Tokens, falla: bool,
                           registro: Instant)
    requires jti !in db && FindsLive(db, pasajero, vuelo, anterior)
    ensures var db' := IssueTx(db, anterior, pasajero, identidad, vuelo, jti, ahora, reloj, ttl, true);
            var ts' := TokensAfter(IssuedPass, ts, falla, ToForget(db, anterior, ahora), jti, ttl, registro);
            RenewedKeys(db', anterior, jti, ts, ts', falla, registro + ttl * SECOND)
  {
    if anterior.Some? {
      var r := db[anterior.value];
      assert CanTransitionTo(r.fila.estado, EXPIRADA) && CanTransitionTo(r.fila.estado, REVOCADA);
    }
  }

  /** `q` is `r` after it was expired if due at `leido` and then asked for `target`, which an ACTIVA
      credential grants, and an EMITIDA one if it is the revocation. */
  predicate AskedFor(r: Registro, q: Registro, target: EstadoCredencial, motivo: string, actor: string,
                     leido: Instant, reloj: Instant) {
    var vencida := r.fila.estado in {EMITIDA, ACTIVA} && leido >= r.fila.expiraAt;
    var e := if vencida then EXPIRADA else r.fila.estado;
    var h := if vencida
             then r.historial + [Transicion(Some(r.fila.estado), EXPIRADA, true, MOTIVO_EXPIRACION, SISTEMA, leido)]
             else r.historial;
    var ok := e == ACTIVA || (e == EMITIDA && target == REVOCADA);
    && q.historial == h + [Transicion(Some(e), target, ok, if ok then motivo else MOTIVO_INVALIDA, actor, reloj)]
    && q.fila == r.fila.(estado := if ok then target else e,
                         updatedAt := if ok then reloj else if vencida then leido else r.fila.updatedAt)
  }

  lemma ConsumeAsks(r: Registro, actor: string, leido: Instant)
    ensures AskedFor(r, ConsumeRow(r, actor, leido), CONSUMIDA, MOTIVO_CONSUMO, actor, leido, leido)
  {
    assert CanTransitionTo(ACTIVA, CONSUMIDA) && !CanTransitionTo(EMITIDA, CONSUMIDA);
  }

  lemma RevokeAsks(r: Registro, motivo: string, leido: Instant, reloj: Instant)
    ensures AskedFor(r, RevokeRow(r, motivo, leido, reloj), REVOCADA, motivo, SISTEMA, leido, reloj)
  {
    assert CanTransitionTo(ACTIVA, REVOCADA) && CanTransitionTo(EMITIDA, REVOCADA);
  }

  /** `q` is `r` expired if due at `leido`, and nothing else. */
  predicate ExpiredIfDue(r: Registro, q: Registro, leido: Instant) {
    if r.fila.estado in {EMITIDA, ACTIVA} && leido >= r.fila.expiraAt
    then Moved(r, q, EXPIRADA, MOTIVO_EXPIRACION, leido) else q == r
  }

  lemma RefrescaExpires(r: Registro, leido: Instant)
    ensures ExpiredIfDue(r, Refresca(r, leido), leido)
  {
    assert CanTransitionTo(ACTIVA, EXPIRADA) && CanTransitionTo(EMITIDA, EXPIRADA);
  }

  class CredentialLifecycleService {
    const repo: InMemoryCredentialRepository
    const tokens: TokenStore.FakeTokenStore

    constructor (repo: InMemoryCredentialRepository, tokens: TokenStore.FakeTokenStore)
      ensures this.repo == repo && this.tokens == tokens
    {
      this.repo, this.tokens := repo, tokens;
    }

    /** `disponible` says whether Redis answers after the commit, `reloj` what its clock reads then. */
    method Consume(jti: Uuid, actor: string, ahora: Instant, disponible: bool, reloj: Instant)
      returns (res: Option<ConsumeResult>)
      requires repo.Valid()
      modifies repo, tokens
      ensures repo.Valid() && repo.Db() == ConsumeTx(old(repo.Db()), jti, actor, ahora)
      ensures res == ConsumeAnswer(old(repo.Db()), jti, ahora)
      ensures OnlyRow(old(repo.Db()), repo.Db(), jti)
      ensures jti in old(repo.Db()) ==>
                AskedFor(old(repo.Db())[jti], repo.Db()[jti], CONSUMIDA, MOTIVO_CONSUMO, actor, ahora, ahora)
      ensures res == Some(R_CONSUMIDA) && disponible ==> OnlyKillsKey(old(tokens.values), tokens.values, jti, reloj)
      ensures tokens.values == if res == Some(R_CONSUMIDA) && disponible
                               then TokenStore.Consume(old(tokens.values), jti, reloj) else old(tokens.values)
    {
      var credencial := repo.GetForUpdate(jti);
      if credencial == null {
        return Some(R_NO_ENCONTRADA);
      }
      ghost var h := repo.Historial(jti);
      ConsumeAsks(repo.Db()[jti], actor, ahora);
      var movida := credencial.RefreshExpiry(ahora);
      assert credencial.Vista(h) == Refresca(repo.Db()[jti], ahora);
      var result := credencial.Transition(CONSUMIDA, MOTIVO_CONSUMO, actor, ahora);
      assert credencial.Vista(h) == ConsumeRow(repo.Db()[jti], actor, ahora);
      repo.Store(credencial);
      if !result.aceptada {
        return Rechazo(result.estadoActual);
      }
      if disponible {
        var flipped := tokens.ConsumeKey(jti, reloj);
      }
      res := Some(R_CONSUMIDA);
    }

    /** The clock is read once to refresh and once more to revoke. None stands for
        CredencialNoEncontrada. */
    method RevokeById(jti: Uuid, motivo: string, ahora: Instant, reloj: Instant) returns (res: Option<TransitionResult>)
      requires repo.Valid()
      modifies repo, tokens
      ensures repo.Valid()
      ensures res == None <==> jti !in old(repo.Db())
      ensures res == None ==> repo.Db() == old(repo.Db()) && tokens.values == old(tokens.values)
      ensures res.Some? ==>
                var r := old(repo.Db())[jti];
                && repo.Db() == old(repo.Db())[jti := RevokeRow(r, motivo, ahora, reloj)]
                && OnlyRow(old(repo.Db()), repo.Db(), jti)
                && AskedFor(r, repo.Db()[jti], REVOCADA, motivo, SISTEMA, ahora, reloj)
                && (res.value.aceptada && !old(tokens.failNextRevoke) ==>
                      forall desde :: OnlyKillsKey(old(tokens.values), tokens.values, jti, desde))
                && res.value == TransitionResult(RevokeAccepted(r, ahora), repo.Db()[jti].fila.estado)
                && tokens.values == if res.value.aceptada && !old(tokens.failNextRevoke)
                                    then TokenStore.Olvida(old(tokens.values), jti) else old(tokens.values)
    {
      var credencial := repo.GetForUpdate(jti);
      if credencial == null {
        return None;
      }
      ghost var h := repo.Historial(jti);
      RevokeAsks(repo.Db()[jti], motivo, ahora, reloj);
      var movida := credencial.RefreshExpiry(ahora);
      assert credencial.Vista(h) == Refresca(repo.Db()[jti], ahora);
      var result := credencial.Transition(REVOCADA, motivo, SISTEMA, reloj);
      assert credencial.Vista(h) == RevokeRow(repo.Db()[jti], motivo, ahora, reloj);
      repo.Store(credencial);
      if result.aceptada {
        var ok := tokens.Revoke(jti);
      }
      res := Some(result);
    }

    /** False stands for CredencialNoEncontrada. */
    method DetailForOwner(jti: Uuid, pasajero: Uuid, ahora: Instant) returns (found: bool, historial: seq<Transicion>)
      requires repo.Valid()
      modifies repo
      ensures repo.Valid() && repo.Db() == DetailTx(old(repo.Db()), jti, pasajero, ahora)
      ensures found == (jti in old(repo.Db()) && old(repo.Db())[jti].fila.pasajeroId == pasajero)
      ensures OnlyRow(old(repo.Db()), repo.Db(), jti) && (!found ==> repo.Db() == old(repo.Db()))
      ensures found ==> historial == repo.Db()[jti].historial
      ensures found ==> ExpiredIfDue(old(repo.Db())[jti], repo.Db()[jti], ahora)
    {
      var credencial := repo.GetForUpdate(jti);
      if credencial == null || credencial.pasajeroId != pasajero {
        return false, [];
      }
      ghost var h := repo.Historial(jti);
      RefrescaExpires(repo.Db()[jti], ahora);
      assert PastDue(credencial.Vista([]), ahora) == PastDue(repo.Db()[jti], ahora);
      var movida := credencial.RefreshExpiry(ahora);
      assert credencial.Vista(h) == Refresca(repo.Db()[jti], ahora);
      if movida {
        repo.Store(credencial);
      }
      assert jti in repo.Db();
      found, historial := true, repo.transitions[jti];
    }

    method SweepExpired(ahora: Instant, limit: nat) returns (n: nat, ghost ids: set<Uuid>)
      requires repo.Valid()
      modifies repo
      ensures repo.Valid() && SweepSelects(old(repo.Db()), {}, ahora, limit, ids)
      ensures n == |ids| && repo.Db() == SweepTx(old(repo.Db()), ahora, ids)
    {
      var vencidas;
      vencidas, ids := repo.ExpiredLiveForUpdate(ahora, limit);
      ghost var db := repo.Db();
      ghost var hechas: set<Uuid> := {};
      assert SweepSelects(old(repo.Db()), {}, ahora, limit, ids);
      assert SweepTx(db, ahora, {}) == db;
      for k := 0 to |vencidas|
        invariant repo.Valid() && Lists(vencidas[..k], hechas) && hechas <= ids
        invariant repo.Db() == SweepTx(db, ahora, hechas)
      {
        var id := vencidas[k];
        ListsNext(vencidas, hechas, k);
        SweepTxSnoc(db, ahora, hechas, id);
        ExpireOne(id, ahora);
        hechas := hechas + {id};
      }
      SubsetSize(hechas, ids);
      n := |vencidas|;
    }

    method ExpireOne(id: Uuid, ahora: Instant)
      requires repo.Valid() && id in repo.Db()
      modifies repo
      ensures repo.Valid() && repo.Db() == old(repo.Db())[id := Expira(old(repo.Db())[id], ahora)]
    {
      var credencial := repo.GetForUpdate(id);
      ghost var h := repo.Historial(id);
      assert credencial.Vista(h) == repo.Db()[id];
      var r := credencial.Transition(EXPIRADA, MOTIVO_EXPIRACION, SISTEMA, ahora);
      assert credencial.Vista(h) == Expira(repo.Db()[id], ahora);
      repo.Store(credencial);
    }
  }

  class PassIssuanceService {
    const repo: InMemoryCredentialRepository
    const tokens: TokenStore.FakeTokenStore
    const ttl: nat

    constructor (repo: InMemoryCredentialRepository, tokens: TokenStore.FakeTokenStore, ttl: nat)
      requires TTL_MIN_SECONDS <= ttl <= TTL_MAX_SECONDS
      ensures this.repo == repo && this.tokens == tokens && this.ttl == ttl
    {
      this.repo, this.tokens, this.ttl := repo, tokens, ttl;
    }

    /** The transaction of `issue` and what follows it. The three clock readings are the one after
        the lock, the one of the revocation and the token store's own. */
    method Issue(pasajero: Uuid, vuelo: string, identidad: Option<Uuid>, vigente: bool, jti: Uuid,
                 ahora: Instant, reloj: Instant, registro: Instant)
      returns (res: IssueResult, ghost anterior: Option<Uuid>)
      requires repo.Valid() && jti !in repo.Db()
      modifies repo, tokens
      ensures repo.Valid()
      ensures res == IdentidadNoActiva <==> identidad == None
      ensures res == DocumentoVencidoParaPase <==> identidad.Some? && !vigente
      ensures identidad == None || !vigente ==> repo.Db() == old(repo.Db()) && tokens.values == old(tokens.values)
      ensures identidad.Some? && vigente ==>
                && FindsLive(old(repo.Db()), pasajero, vuelo, anterior)
                && Renews(old(repo.Db()), pasajero, vuelo, anterior)
                && (UniqueLive(old(repo.Db())) ==> res != UniqueViolation)
                && repo.Db() == (if res == UniqueViolation then old(repo.Db())
                                 else IssueTx(old(repo.Db()), anterior, pasajero, identidad.value, vuelo, jti,
                                              ahora, reloj, ttl, res == IssuedPass))
                && tokens.values == TokensAfter(res, old(tokens.values), old(tokens.failNextRevoke),
                                                ToForget(old(repo.Db()), anterior, ahora), jti, ttl, registro)
                && (res != UniqueViolation ==>
                      var estado := if res == IssuedPass then ACTIVA else REVOCADA;
                      var fin := ahora + ttl * SECOND;
                      IssuedRows(old(repo.Db()), repo.Db(), anterior,
                                 Credencial(jti, pasajero, identidad.value, vuelo, ahora, fin, estado, ahora), reloj))
                && (res == IssuedPass ==>
                      RenewedKeys(repo.Db(), anterior, jti, old(tokens.values), tokens.values,
                                  old(tokens.failNextRevoke), registro + ttl * SECOND))
                && (res != UniqueViolation ==>
                      res == if Registrable(old(tokens.failNextRegister), old(tokens.values), jti, registro)
                             then IssuedPass else AlmacenamientoNoDisponible)
    {
      anterior := None;
      if identidad == None {
        return IdentidadNoActiva, anterior;
      }
      if !vigente {
        return DocumentoVencidoParaPase, anterior;
      }
      ghost var db := repo.Db();
      res, anterior := IssueLocked(pasajero, vuelo, identidad.value, jti, ahora, reloj, registro);
      if res != UniqueViolation {
        IssueTxRows(db, anterior, pasajero, identidad.value, vuelo, jti, ahora, reloj, ttl, res == IssuedPass);
        IssueTokensRenew(db, anterior, pasajero, identidad.value, vuelo, jti, ahora, reloj, ttl, old(tokens.values),
                         old(tokens.failNextRevoke), registro);
      }
    }

    /** From the lookup of the old credential on. */
    method IssueLocked(pasajero: Uuid, vuelo: string, identidad: Uuid, jti: Uuid, ahora: Instant, reloj: Instant,
                       registro: Instant)
      returns (res: IssueResult, ghost anterior: Option<Uuid>)
      requires repo.Valid() && jti !in repo.Db()
      modifies repo, tokens
      ensures repo.Valid() && FindsLive(old(repo.Db()), pasajero, vuelo, anterior)
      ensures UniqueLive(old(repo.Db())) ==> res != UniqueViolation
      ensures repo.Db() == if res == UniqueViolation then old(repo.Db())
                           else IssueTx(old(repo.Db()), anterior, pasajero, identidad, vuelo, jti,
                                        ahora, reloj, ttl, res == IssuedPass)
      ensures tokens.values == TokensAfter(res, old(tokens.values), old(tokens.failNextRevoke),
                                           ToForget(old(repo.Db()), anterior, ahora), jti, ttl, registro)
      ensures res == UniqueViolation ||
              res == if Registrable(old(tokens.failNextRegister), old(tokens.values), jti, registro)
                     then IssuedPass else AlmacenamientoNoDisponible
    {
      var creds, trans := repo.credentials, repo.transitions;  // leaving without commit restores these
      ghost var db := repo.Db();
      var olvidar;
      anterior, olvidar := StageAnterior(pasajero, vuelo, ahora, reloj);
      res := InsertAndRegister(pasajero, identidad, vuelo, jti, ahora, registro, olvidar);
      if res == UniqueViolation {
        if UniqueLive(db) { StagedPairIsFree(db, anterior, pasajero, vuelo, ahora, reloj); }
        repo.credentials, repo.transitions := creds, trans;
      }
    }

    /** The rest of the transaction once the old credential is staged, and the forgetting after it. */
    method InsertAndRegister(pasajero: Uuid, identidad: Uuid, vuelo: string, jti: Uuid, ahora: Instant,
                             registro: Instant, olvidar: Option<Uuid>)
      returns (res: IssueResult)
      requires repo.Valid() && jti !in repo.Db()
      modifies repo, tokens
      ensures repo.Valid()
      ensures res == if HasLive(old(repo.Db()), pasajero, vuelo) then UniqueViolation
                     else if Registrable(old(tokens.failNextRegister), old(tokens.values), jti, registro)
                     then IssuedPass else AlmacenamientoNoDisponible
      ensures res != UniqueViolation ==>
              repo.Db() == old(repo.Db())[jti := Nueva(pasajero, identidad, vuelo, jti, ahora, ttl, res == IssuedPass)]
      ensures tokens.values ==
              TokensAfter(res, old(tokens.values), old(tokens.failNextRevoke), olvidar, jti, ttl, registro)
    {
      var credencial := AddEmitida(pasajero, identidad, vuelo, jti, ahora);
      if credencial == null {
        return UniqueViolation;
      }
      res := RegisterAndForget(credencial, ahora, registro, olvidar);
    }

    /** Registers the key, commits, and forgets the old key only after that. */
    method RegisterAndForget(credencial: CredencialAcceso, ahora: Instant, registro: Instant, olvidar: Option<Uuid>)
      returns (res: IssueResult)
      requires repo.Valid() && credencial.id in repo.Db() && credencial.pendingTransitions == []
      requires credencial.Fila() == repo.Db()[credencial.id].fila
      modifies repo, tokens, credencial
      ensures repo.Valid()
      ensures res == if Registrable(old(tokens.failNextRegister), old(tokens.values), credencial.id, registro)
                     then IssuedPass else AlmacenamientoNoDisponible
      ensures repo.Db() ==
                old(repo.Db())[credencial.id := Settled(old(repo.Db())[credencial.id], res == IssuedPass, ahora)]
      ensures tokens.values == TokensAfter(res, old(tokens.values), old(tokens.failNextRevoke), olvidar,
                                           credencial.id, ttl, registro)
    {
      var registrada := ActivateOrRevoke(credencial, ahora, registro);
      if !registrada {
        return AlmacenamientoNoDisponible;
      }
      if olvidar.Some? {  // only after the commit
        var ok := tokens.Revoke(olvidar.value);
      }
      res := IssuedPass;
    }

    /** Builds the credential and adds it; null stands for UniqueViolation. */
    method AddEmitida(pasajero: Uuid, identidad: Uuid, vuelo: string, jti: Uuid, ahora: Instant)
      returns (c: CredencialAcceso?)
      requires repo.Valid() && jti !in repo.Db()
      modifies repo
      ensures repo.Valid()
      ensures c == null <==> HasLive(old(repo.Db()), pasajero, vuelo)
      ensures c == null ==> repo.Db() == old(repo.Db())
      ensures c != null ==>
                && fresh(c) && c.id == jti && c.pendingTransitions == []
                && repo.Db() ==
                     old(repo.Db())[jti := Emitida(jti, pasajero, identidad, vuelo, ahora, ahora + ttl * SECOND)]
                && c.Fila() == repo.Db()[jti].fila
    {
      var nueva := new CredencialAcceso.Emitir(jti, pasajero, identidad, vuelo, ahora, ahora + ttl * SECOND);
      assert jti !in repo.Db() && repo.Historial(jti) == [];
      assert nueva.Vista(repo.Historial(jti)) == Emitida(jti, pasajero, identidad, vuelo, ahora, ahora + ttl * SECOND);
      var agregada := repo.Add(nueva);
      c := if agregada then nueva else null;
    }

    /** Registers the key of a freshly added credential and moves it to ACTIVA, or to REVOCADA when
        the token store is unavailable. */
    method ActivateOrRevoke(credencial: CredencialAcceso, ahora: Instant, registro: Instant) returns (ok: bool)
      requires repo.Valid() && credencial.id in repo.Db() && credencial.pendingTransitions == []
      requires credencial.Fila() == repo.Db()[credencial.id].fila
      modifies repo, tokens, credencial
      ensures repo.Valid() && repo.Db().Keys == old(repo.Db().Keys)
      ensures ok == Registrable(old(tokens.failNextRegister), old(tokens.values), credencial.id, registro)
      ensures tokens.values == if ok then TokenStore.Registra(old(tokens.values), credencial.id, ttl, registro).value
                               else old(tokens.values)
      ensures tokens.failNextRevoke == old(tokens.failNextRevoke)
      ensures repo.Db() == old(repo.Db())[credencial.id := Settled(old(repo.Db())[credencial.id], ok, ahora)]
    {
      ghost var h := repo.Historial(credencial.id);
      assert repo.Db()[credencial.id].historial == h && h + credencial.pendingTransitions == h;
      assert credencial.Vista(h) == repo.Db()[credencial.id];
      ok := tokens.Register(credencial.id, ttl, registro);
      var r;
      if ok {
        r := credencial.Transition(ACTIVA, MOTIVO_ACTIVACION, SISTEMA, ahora);
      } else {
        r := credencial.Transition(REVOCADA, MOTIVO_TOKEN_NO_REGISTRADO, SISTEMA, ahora);
      }
      repo.Store(credencial);
    }

    /** Renewal's treatment of the old credential, if any; returns the key to forget after the commit. */
    method StageAnterior(pasajero: Uuid, vuelo: string, ahora: Instant, reloj: Instant)
      returns (ghost anterior: Option<Uuid>, olvidar: Option<Uuid>)
      requires repo.Valid()
      modifies repo
      ensures repo.Valid() && FindsLive(old(repo.Db()), pasajero, vuelo, anterior)
      ensures repo.Db() == StagedView(old(repo.Db()), anterior, ahora, reloj)
      ensures olvidar == ToForget(old(repo.Db()), anterior, ahora)
    {
      var viva := repo.GetLiveForUpdate(pasajero, vuelo);
      olvidar := None;
      if viva == null {
        return None, None;
      }
      anterior := Some(viva.id);
      ghost var h := repo.Historial(viva.id);
      var vencida := viva.RefreshExpiry(ahora);
      assert viva.Vista(h) == Refresca(repo.Db()[viva.id], ahora);
      if !vencida {
        var r := viva.Transition(REVOCADA, MOTIVO_RENOVACION, SISTEMA, reloj);
        if r.aceptada {
          olvidar := Some(viva.id);
        }
      }
      assert viva.Vista(h) == StagePrevia(repo.Db()[viva.id], ahora, reloj);
      repo.Store(viva);
    }
  }

  /** With one live credential per pair, staging the old one leaves the pair free. */
  lemma StagedPairIsFree(db: Tabla, anterior: Option<Uuid>, pasajero: Uuid, vuelo: string, ahora: Instant,
                         reloj: Instant)
    requires UniqueLive(db) && FindsLive(db, pasajero, vuelo, anterior)
    ensures forall id :: id in db ==> !LiveFor(StagedView(db, anterior, ahora, reloj)[id], pasajero, vuelo)
  {
    forall id | id in db ensures !LiveFor(StagedView(db, anterior, ahora, reloj)[id], pasajero, vuelo) {
      if anterior.Some? {
        assert CanTransitionTo(db[anterior.value].fila.estado, EXPIRADA) &&
          CanTransitionTo(db[anterior.value].fila.estado, REVOCADA);
        if LiveFor(db[id], pasajero, vuelo) { assert SamePair(db[id], db[anterior.value]); }
      }
    }
  }

  lemma ExecCons(s: Mundo, e: Evento, es: seq<Evento>)
    requires Enabled(s, e) && Legal(Step(s, e), es)
    ensures Legal(s, [e] + es) && Exec(s, [e] + es) == Exec(Step(s, e), es)
  {
    assert ([e] + es)[1..] == es;
  }

  lemma ExecFour(s: Mundo, e1: Evento, e2: Evento, e3: Evento, e4: Evento)
    requires Enabled(s, e1) && Enabled(Step(s, e1), e2) && Enabled(Step(Step(s, e1), e2), e3)
    requires Enabled(Step(Step(Step(s, e1), e2), e3), e4)
    ensures Legal(s, [e1, e2, e3, e4]) && Exec(s, [e1, e2, e3, e4]) == Step(Step(Step(Step(s, e1), e2), e3), e4)
  {
    ExecCons(Step(Step(Step(s, e1), e2), e3), e4, []);
    ExecCons(Step(Step(s, e1), e2), e3, [e4] + []);
    ExecCons(Step(s, e1), e2, [e3] + ([e4] + []));
    ExecCons(s, e1, [e2] + ([e3] + ([e4] + [])));
    assert [e1] + ([e2] + ([e3] + ([e4] + []))) == [e1, e2, e3, e4];
  }

  ghost function IssueSteps(t: nat, anterior: Option<Uuid>, pasajero: Uuid, identidad: Uuid, vuelo: string, jti: Uuid,
                            ok: bool): seq<Evento> {
    [Lock(t, pasajero, vuelo), Stage(t, anterior, identidad, jti), if ok
      then RegisterOk(t) else RegisterFails(t, false),
     Commit(t)]
  }

  /** Run alone, the machine's steps of an issue leave the table the service leaves. */
  lemma IssueAloneIsIssueTx(s: Mundo, t: nat, anterior: Option<Uuid>, pasajero: Uuid, identidad: Uuid, vuelo: string,
                            jti: Uuid, ok: bool)
    requires Inv(s) && s.txs == map[] && jti !in s.usados && FindsLive(s.db, pasajero, vuelo, anterior)
    ensures var es := IssueSteps(t, anterior, pasajero, identidad, vuelo, jti, ok);
            && Legal(s, es)
            && Exec(s, es).db == IssueTx(s.db, anterior, pasajero, identidad, vuelo, jti, s.now, s.now, s.ttl, ok)
            && Exec(s, es).tokens ==
                 (if ok then s.tokens[jti := TokenStore.Token(TokenStore.ACTIVA, s.now + s.ttl * SECOND, s.ttl)]
                  else s.tokens)
            && (ok && ToForget(s.db, anterior, s.now).Some? ==> Enabled(Exec(s, es), Forget(anterior.value, true)))
  {
    var e1 := Lock(t, pasajero, vuelo);
    var e2 := Stage(t, anterior, identidad, jti);
    var e3 := if ok then RegisterOk(t) else RegisterFails(t, false);
    StepsAlone(s, t, anterior, pasajero, identidad, vuelo, jti, ok);
    ExecFour(s, e1, e2, e3, Commit(t));
  }

  lemma StepsAlone(s: Mundo, t: nat, anterior: Option<Uuid>, pasajero: Uuid, identidad: Uuid, vuelo: string,
                   jti: Uuid, ok: bool)
    requires Inv(s) && s.txs == map[] && jti !in s.usados && FindsLive(s.db, pasajero, vuelo, anterior)
    ensures var e1 := Lock(t, pasajero, vuelo); var e2 := Stage(t, anterior, identidad, jti);
            var e3 := if ok then RegisterOk(t) else RegisterFails(t, false);
            && Enabled(s, e1) && Enabled(Step(s, e1), e2) && Enabled(Step(Step(s, e1), e2), e3)
            && var s3 := Step(Step(Step(s, e1), e2), e3);
               && Enabled(s3, Commit(t))
               && var z := Step(s3, Commit(t));
                  && z.db == IssueTx(s.db, anterior, pasajero, identidad, vuelo, jti, s.now, s.now, s.ttl, ok)
                  && z.tokens ==
                       (if ok then s.tokens[jti := TokenStore.Token(TokenStore.ACTIVA, s.now + s.ttl * SECOND, s.ttl)]
                        else s.tokens)
                  && (ok && ToForget(s.db, anterior, s.now).Some? ==> Enabled(z, Forget(anterior.value, true)))
  {
    var s2 := Step(Step(s, Lock(t, pasajero, vuelo)), Stage(t, anterior, identidad, jti));
    StagedAlone(s, t, anterior, pasajero, identidad, vuelo, jti);
    FinishedIsIssueTx(s2, t, anterior, pasajero, identidad, vuelo, jti, ok);
  }

  lemma FinishedIsIssueTx(s: Mundo, t: nat, anterior: Option<Uuid>, pasajero: Uuid, identidad: Uuid, vuelo: string,
                          jti: Uuid, ok: bool)
    requires t in s.txs && s.txs[t].Preparada? && jti !in s.tokens && s.txs[t].ahora == s.now
    requires s.txs[t].nueva == Emitida(jti, pasajero, identidad, vuelo, s.now, s.now + s.ttl * SECOND)
    requires anterior.Some? ==> anterior.value in s.db
    requires s.txs[t].previa ==
             (if anterior.Some? then Some(StagePrevia(s.db[anterior.value], s.now, s.now)) else None)
    requires anterior.Some? ==> s.txs[t].previa.value.fila.id == anterior.value
    requires s.txs[t].olvidar == ToForget(s.db, anterior, s.now).Some?
    ensures var e := if ok then RegisterOk(t) else RegisterFails(t, false);
            && Enabled(s, e) && Enabled(Step(s, e), Commit(t))
            && var z := Step(Step(s, e), Commit(t));
               && z.db == IssueTx(s.db, anterior, pasajero, identidad, vuelo, jti, s.now, s.now, s.ttl, ok)
               && z.tokens ==
                    (if ok then s.tokens[jti := TokenStore.Token(TokenStore.ACTIVA, s.now + s.ttl * SECOND, s.ttl)]
                     else s.tokens)
               && (ok && ToForget(s.db, anterior, s.now).Some? ==> Enabled(z, Forget(anterior.value, true)))
  {
    FinishedAlone(s, t, ok);
  }

  /** With the forgetting that follows, they leave the keys it leaves. */
  lemma IssueAloneLeavesTokens(s: Mundo, t: nat, anterior: Option<Uuid>, pasajero: Uuid, identidad: Uuid, vuelo: string,
                               jti: Uuid, ok: bool)
    requires Inv(s) && s.txs == map[] && jti !in s.usados && FindsLive(s.db, pasajero, vuelo, anterior)
    ensures var es := IssueSteps(t, anterior, pasajero, identidad, vuelo, jti, ok);
            var olvidar := if ok then ToForget(s.db, anterior, s.now) else None;
            var fin := if olvidar.Some? then [Forget(olvidar.value, true)] else [];
            var res := if ok then IssuedPass else AlmacenamientoNoDisponible;
            && Legal(s, es) && Legal(Exec(s, es), fin)
            && Exec(Exec(s, es), fin).tokens == TokensAfter(res, s.tokens, false, olvidar, jti, s.ttl, s.now)
  {
    IssueAloneIsIssueTx(s, t, anterior, pasajero, identidad, vuelo, jti, ok);
    var z := Exec(s, IssueSteps(t, anterior, pasajero, identidad, vuelo, jti, ok));
    if ok && ToForget(s.db, anterior, s.now).Some? {
      ExecCons(z, Forget(anterior.value, true), []);
      assert [Forget(anterior.value, true)] + [] == [Forget(anterior.value, true)];
    }
  }

  /** What the last two steps leave of a staged transaction. */
  lemma FinishedAlone(s: Mundo, t: nat, ok: bool)
    requires t in s.txs && s.txs[t].Preparada? && s.txs[t].nueva.fila.id !in s.tokens
    ensures var e := if ok then RegisterOk(t) else RegisterFails(t, false); var x := s.txs[t];
            && Enabled(s, e) && Enabled(Step(s, e), Commit(t))
            && Step(Step(s, e), Commit(t)).db == VistaTx(s.db, x.previa)[x.nueva.fila.id :=
                 Settled(x.nueva, ok, x.ahora)]
            && Step(Step(s, e), Commit(t)).tokens ==
                 (if ok then s.tokens[x.nueva.fila.id := TokenStore.Token(TokenStore.ACTIVA,
                   s.now + s.ttl * SECOND, s.ttl)]
                  else s.tokens)
            && (ok && x.olvidar && x.previa.Some? && x.nueva.fila.estado == EMITIDA ==>
                  Enabled(Step(Step(s, e), Commit(t)), Forget(x.previa.value.fila.id, true)))
  {}

  lemma LockedAlone(s: Mundo, t: nat, anterior: Option<Uuid>, pasajero: Uuid, identidad: Uuid, vuelo: string, jti: Uuid)
    requires Inv(s) && s.txs == map[] && jti !in s.usados && FindsLive(s.db, pasajero, vuelo, anterior)
    ensures Enabled(s, Lock(t, pasajero, vuelo)) && Inv(Step(s, Lock(t, pasajero, vuelo)))
    ensures Enabled(Step(s, Lock(t, pasajero, vuelo)), Stage(t, anterior, identidad, jti))
    ensures jti !in s.tokens && (anterior.Some? ==> s.db[anterior.value].fila.id == anterior.value)
  {
    StepInv(s, Lock(t, pasajero, vuelo));
    assert forall id :: id in s.tokens ==> TokenOk(s, id);
    if anterior.Some? { assert RowOk(s, anterior.value); }
  }

  lemma StagedAlone(s: Mundo, t: nat, anterior: Option<Uuid>, pasajero: Uuid, identidad: Uuid, vuelo: string, jti: Uuid)
    requires Inv(s) && s.txs == map[] && jti !in s.usados && FindsLive(s.db, pasajero, vuelo, anterior)
    ensures var s1 := Step(s, Lock(t, pasajero, vuelo)); var e2 := Stage(t, anterior, identidad, jti);
            && Enabled(s1, e2)
            && var s2 := Step(s1, e2);
               && t in s2.txs && s2.txs[t].Preparada?
               && s2.db == s.db && s2.tokens == s.tokens && s2.now == s.now && s2.ttl == s.ttl
               && jti !in s.tokens
               && s2.txs[t].nueva == Emitida(jti, pasajero, identidad, vuelo, s.now, s.now + s.ttl * SECOND)
               && s2.txs[t].ahora == s.now
               && s2.txs[t].previa ==
                    (if anterior.Some? then Some(StagePrevia(s.db[anterior.value], s.now, s.now)) else None)
               && (anterior.Some? ==> s2.txs[t].previa.value.fila.id == anterior.value)
               && s2.txs[t].olvidar == ToForget(s.db, anterior, s.now).Some?
  {
    var e2 := Stage(t, anterior, identidad, jti);
    var s1 := Step(s, Lock(t, pasajero, vuelo));
    LockedAlone(s, t, anterior, pasajero, identidad, vuelo, jti);
    StageSucceeds(s1, e2);
  }
}
