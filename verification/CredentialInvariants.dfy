/** What every step of the credential protocol keeps. */
module CredentialInvariants {
  import opened Base
  import opened Credentials
  import opened CredentialProtocol
  import TokenStore

  ghost predicate RowOk(s: Mundo, id: Uuid)
    requires id in s.db
  {
    var r := s.db[id];
    && r.fila.id == id
    && Genuine(r)
    && r.fila.estado != EMITIDA
    && id in s.usados
  }

  ghost predicate RowsOk(s: Mundo) {
    && TTL_MIN_SECONDS <= s.ttl <= TTL_MAX_SECONDS
    && forall id :: id in s.db ==> RowOk(s, id)
  }

  ghost predicate SamePair(r: Registro, q: Registro) {
    r.fila.pasajeroId == q.fila.pasajeroId && r.fila.codigoVuelo == q.fila.codigoVuelo
  }

  /** At most one live credential per passenger and flight. */
  ghost predicate UniqueLive(db: Tabla) {
    forall a, b ::
      a in db && b in db && Live(db[a].fila.estado) && Live(db[b].fila.estado) && SamePair(db[a], db[b]) ==> a == b
  }

  /** The token store holds `r` usable for at least as long as the row is. */
  ghost predicate Covers(ts: TokenStore.Tokens, r: Registro) {
    && r.fila.id in ts
    && ts[r.fila.id].valor == TokenStore.ACTIVA
    && r.fila.expiraAt <= ts[r.fila.id].expira
  }

  ghost predicate CacheOk(db: Tabla, ts: TokenStore.Tokens) {
    forall id :: id in db && db[id].fila.estado == ACTIVA ==> Covers(ts, db[id])
  }

  ghost predicate TokenOk(s: Mundo, id: Uuid)
    requires id in s.tokens
  {
    id in s.usados && s.tokens[id].ttl == s.ttl && s.tokens[id].expira - s.ttl * SECOND <= s.now
  }

  ghost predicate TokensOk(s: Mundo) {
    forall id :: id in s.tokens ==> TokenOk(s, id)
  }

  ghost predicate NuevaOk(s: Mundo, x: Tx)
    requires !x.Bloqueada?
  {
    var n := x.nueva;
    && Genuine(n)
    && n.fila.pasajeroId == x.pasajero && n.fila.codigoVuelo == x.vuelo
    && n.fila.expiraAt == x.ahora + s.ttl * SECOND
    && n.fila.id in s.usados && n.fila.id !in s.db
    && (forall solo :: CountRows(n.historial, Some(CONSUMIDA), solo) == 0)
    && (x.Preparada? ==> n.fila.estado == EMITIDA && n.fila.id !in s.tokens)
    && (x.PorConfirmar? ==>
          || (n.fila.estado == ACTIVA && Covers(s.tokens, n))
          || (n.fila.estado == REVOCADA && n.fila.id in s.fallos))
  }

  /** The old row is untouched since it was locked, and the staged version continues it. */
  ghost predicate PreviaOk(s: Mundo, x: Tx)
    requires !x.Bloqueada?
  {
    && (x.olvidar ==> x.previa.Some?)
    && (x.previa.Some? ==>
          var p := x.previa.value;
          && p.fila.id in s.db
          && s.db[p.fila.id].fila.estado == ACTIVA
          && LiveFor(s.db[p.fila.id], x.pasajero, x.vuelo)
          && Continues(s.db[p.fila.id], p) && Genuine(p)
          && p.fila.estado == (if x.olvidar then REVOCADA else EXPIRADA)
          && (forall solo :: CountRows(p.historial, Some(CONSUMIDA), solo) ==
                CountRows(s.db[p.fila.id].historial, Some(CONSUMIDA), solo)))
  }

  ghost predicate OnlyPrevia(s: Mundo, x: Tx)
    requires !x.Bloqueada?
  {
    forall id :: id in s.db && LiveFor(s.db[id], x.pasajero, x.vuelo) ==> x.previa.Some? && x.previa.value.fila.id == id
  }

  ghost predicate TxOk(s: Mundo, x: Tx) {
    x.ahora <= s.now && (!x.Bloqueada? ==> NuevaOk(s, x) && PreviaOk(s, x) && OnlyPrevia(s, x))
  }

  ghost predicate TxsOk(s: Mundo) {
    && (forall t :: t in s.txs ==> TxOk(s, s.txs[t]))
    && (forall t, u :: t in s.txs && u in s.txs && t != u ==> s.txs[t].pasajero != s.txs[u].pasajero)
    && (forall t, u :: t in s.txs && u in s.txs && t != u && !s.txs[t].Bloqueada? && !s.txs[u].Bloqueada? ==>
          s.txs[t].nueva.fila.id != s.txs[u].nueva.fila.id)
  }

  ghost predicate OwedOk(db: Tabla, porOlvidar: set<Uuid>, porConsumir: set<Uuid>) {
    && (forall id :: id in porOlvidar ==> id in db && db[id].fila.estado == REVOCADA)
    && (forall id :: id in porConsumir ==> id in db && db[id].fila.estado == CONSUMIDA)
  }

  /** The committed state an answer speaks of. */
  function Nombra(res: ConsumeResult): Option<EstadoCredencial> {
    match res
    case R_CONSUMIDA => Some(CONSUMIDA)
    case R_YA_CONSUMIDA => Some(CONSUMIDA)
    case R_EXPIRADA => Some(EXPIRADA)
    case R_REVOCADA => Some(REVOCADA)
    case R_NO_ENCONTRADA => None
  }

  ghost predicate AnswerTrue(db: Tabla, a: Respuesta) {
    a.res.Some? && (Nombra(a.res.value).Some? ==> a.jti in db && db[a.jti].fila.estado == Nombra(a.res.value).value)
  }

  /** Answers about `jti` that found it; only the CONSUMIDA ones if `soloConsumida`. */
  function CountAnswers(rs: seq<Respuesta>, jti: Uuid, soloConsumida: bool): nat {
    if rs == [] then 0
    else
      var a := rs[|rs| - 1];
      CountAnswers(rs[..|rs| - 1], jti, soloConsumida) +
      if a.jti == jti && a.res != Some(R_NO_ENCONTRADA) && (soloConsumida ==> a.res == Some(R_CONSUMIDA)) then 1 else 0
  }

  lemma CountAnswersSnoc(rs: seq<Respuesta>, a: Respuesta, jti: Uuid, soloConsumida: bool)
    ensures CountAnswers(rs + [a], jti, soloConsumida) == CountAnswers(rs, jti, soloConsumida) +
            if a.jti == jti && a.res != Some(R_NO_ENCONTRADA) && (soloConsumida ==> a.res == Some(R_CONSUMIDA))
            then 1 else 0
  {
    assert (rs + [a])[..|rs|] == rs;
  }

  /** Each answer that found a credential left one row asking for CONSUMIDA, and no other row does. */
  ghost predicate AccountedFor(db: Tabla, rs: seq<Respuesta>, id: Uuid) {
    forall solo ::
      (if id in db then CountRows(db[id].historial, Some(CONSUMIDA), solo) else 0) == CountAnswers(rs, id, solo)
  }

  ghost predicate AnswersOk(db: Tabla, rs: seq<Respuesta>) {
    && (forall i :: 0 <= i < |rs| ==> AnswerTrue(db, rs[i]))
    && (forall id: Uuid :: AccountedFor(db, rs, id))
  }

  /** The keys that a Redis step is owed to, or failed for, or that no step is meant for any more. */
  ghost function Disputed(s: Mundo): set<Uuid> {
    s.fallos + s.porOlvidar + s.porConsumir + s.abandonados
  }

  /** A key that still answers "usable" is one of those, or is right. */
  ghost predicate KeyExplained(s: Mundo, id: Uuid) {
    || id in Disputed(s)
    || (id in s.db && s.db[id].fila.estado in {ACTIVA, EXPIRADA})
    || exists t :: t in s.txs && s.txs[t].PorConfirmar? && s.txs[t].nueva.fila.id == id
  }

  ghost predicate KeysOk(s: Mundo) {
    forall id :: id in s.tokens && TokenStore.Vivo(s.tokens, id, s.now) == Some(TokenStore.ACTIVA) ==>
      KeyExplained(s, id)
  }

  ghost predicate Inv(s: Mundo) {
    && RowsOk(s) && UniqueLive(s.db) && CacheOk(s.db, s.tokens) && TokensOk(s) && TxsOk(s)
    && OwedOk(s.db, s.porOlvidar, s.porConsumir) && AnswersOk(s.db, s.respuestas) && KeysOk(s)
  }

  lemma InicialInv(s: Mundo)
    requires Inicial(s)
    ensures Inv(s)
  {}

  // --- how the parts of the invariant survive a step --------------------------------------

  lemma RowsStay(s: Mundo, s': Mundo)
    requires RowsOk(s) && s'.ttl == s.ttl && s.usados <= s'.usados && s'.db == s.db
    ensures RowsOk(s')
  {
    forall id | id in s'.db ensures RowOk(s', id) { assert RowOk(s, id); }
  }

  lemma TokensStay(s: Mundo, s': Mundo)
    requires TokensOk(s) && s'.ttl == s.ttl && s.usados <= s'.usados && s.now <= s'.now
    requires forall id :: id in s'.tokens ==>
             id in s.tokens && s'.tokens[id].ttl == s.tokens[id].ttl && s'.tokens[id].expira == s.tokens[id].expira
    ensures TokensOk(s')
  {
    forall id | id in s'.tokens ensures TokenOk(s', id) { assert TokenOk(s, id); }
  }

  /** `x` does not notice the step: its new identifier is still nobody's, its key is as covered as
      it was, its old row is the same and no live row of its pair appeared. */
  ghost predicate TxUnaware(s: Mundo, s': Mundo, x: Tx) {
    && s'.ttl == s.ttl && s.now <= s'.now && s.usados <= s'.usados && s.fallos <= s'.fallos
    && (!x.Bloqueada? ==>
          && x.nueva.fila.id !in s'.db
          && (x.nueva.fila.id !in s.tokens ==> x.nueva.fila.id !in s'.tokens)
          && (Covers(s.tokens, x.nueva) ==> Covers(s'.tokens, x.nueva))
          && (x.previa.Some? && x.previa.value.fila.id in s.db ==>
                x.previa.value.fila.id in s'.db && s'.db[x.previa.value.fila.id] == s.db[x.previa.value.fila.id])
          && (forall id :: id in s'.db && LiveFor(s'.db[id], x.pasajero, x.vuelo) ==>
                id in s.db && LiveFor(s.db[id], x.pasajero, x.vuelo)))
  }

  lemma TxStays(s: Mundo, s': Mundo, x: Tx)
    requires TxOk(s, x) && TxUnaware(s, s', x)
    ensures TxOk(s', x)
  {
    if !x.Bloqueada? {
      assert NuevaOk(s', x);
      assert PreviaOk(s', x);
      assert OnlyPrevia(s', x);
    }
  }

  lemma TxsStay(s: Mundo, s': Mundo)
    requires TxsOk(s)
    requires s'.txs.Keys <= s.txs.Keys && forall t :: t in s'.txs ==>
             s'.txs[t] == s.txs[t] && TxUnaware(s, s', s.txs[t])
    ensures TxsOk(s')
  {
    forall t | t in s'.txs ensures TxOk(s', s'.txs[t]) { TxStays(s, s', s.txs[t]); }
  }

  /** The keys that answer "usable" did not grow and no reason for one was lost. */
  lemma KeysStay(s: Mundo, s': Mundo)
    requires KeysOk(s)
    requires forall id :: TokenStore.Vivo(s'.tokens, id, s'.now) == Some(TokenStore.ACTIVA) ==>
               && TokenStore.Vivo(s.tokens, id, s.now) == Some(TokenStore.ACTIVA)
               && (id in Disputed(s) ==> id in Disputed(s'))
               && (id in s.db && s.db[id].fila.estado in {ACTIVA, EXPIRADA} ==>
                     || id in Disputed(s')
                     || (id in s'.db && s'.db[id].fila.estado in {ACTIVA, EXPIRADA}))
    requires forall t :: t in s.txs && s.txs[t].PorConfirmar? ==>
               || (t in s'.txs && s'.txs[t] == s.txs[t])
               || s.txs[t].nueva.fila.id in s'.fallos
               || (s.txs[t].nueva.fila.id in s'.db && s'.db[s.txs[t].nueva.fila.id].fila.estado == ACTIVA)
    ensures KeysOk(s')
  {
    forall id | id in s'.tokens && TokenStore.Vivo(s'.tokens, id, s'.now) == Some(TokenStore.ACTIVA)
      ensures KeyExplained(s', id) {
      assert KeyExplained(s, id);
      if t :| t in s.txs && s.txs[t].PorConfirmar? && s.txs[t].nueva.fila.id == id {
        if t in s'.txs && s'.txs[t] == s.txs[t] { assert s'.txs[t].PorConfirmar?; }
      }
    }
  }

  lemma UniqueLiveStays(db: Tabla, db': Tabla)
    requires UniqueLive(db) && db'.Keys == db.Keys
    requires forall id :: id in db ==> Continues(db[id], db'[id])
    ensures UniqueLive(db')
  {
    forall a, b | a in db' && b in db' && Live(db'[a].fila.estado) && Live(db'[b].fila.estado) &&
      SamePair(db'[a], db'[b])
      ensures a == b {
      assert Continues(db[a], db'[a]) && Continues(db[b], db'[b]);
      assert SamePair(db[a], db[b]);
    }
  }

  /** Answers already given stay true of rows that only continue. */
  lemma AnswersStay(db: Tabla, db': Tabla, rs: seq<Respuesta>)
    requires AnswersOk(db, rs)
    requires db.Keys <= db'.Keys
    requires forall id :: id in db ==> Continues(db[id], db'[id])
    requires forall id, solo :: id in db' ==>
               CountRows(db'[id].historial, Some(CONSUMIDA), solo) ==
                 if id in db then CountRows(db[id].historial, Some(CONSUMIDA), solo) else 0
    ensures AnswersOk(db', rs)
  {
    forall i | 0 <= i < |rs| ensures AnswerTrue(db', rs[i]) { assert AnswerTrue(db, rs[i]); }
    forall id: Uuid ensures AccountedFor(db', rs, id) { assert AccountedFor(db, rs, id); }
  }

  // --- steps outside any transaction --------------------------------------------------------

  lemma QuietTxs(s: Mundo, e: Evento)
    requires TxsOk(s) && (e.Tick? || e.Lock?) && Enabled(s, e)
    ensures TxsOk(Step(s, e))
  {
    var s' := Step(s, e);
    forall t | t in s'.txs ensures TxOk(s', s'.txs[t]) { if t in s.txs { TxStays(s, s', s.txs[t]); } }
  }

  lemma QuietInv(s: Mundo, e: Evento)
    requires Inv(s) && (e.Tick? || e.Lock?) && Enabled(s, e)
    ensures Inv(Step(s, e))
  {
    var s' := Step(s, e);
    RowsStay(s, s');
    TokensStay(s, s');
    KeysStay(s, s');
    QuietTxs(s, e);
  }

  /** Forgetting or consuming the key of a credential that is no longer live. */
  lemma TokenStepTables(s: Mundo, s': Mundo, jti: Uuid)
    requires RowsOk(s) && CacheOk(s.db, s.tokens) && TxsOk(s)
    requires jti in s.db && !Live(s.db[jti].fila.estado)
    requires s' == s.(tokens := s'.tokens, porOlvidar := s'.porOlvidar, porConsumir := s'.porConsumir,
             fallos := s'.fallos)
    requires s.fallos <= s'.fallos && s'.tokens - {jti} == s.tokens - {jti} && (jti in s'.tokens ==> jti in s.tokens)
    ensures CacheOk(s'.db, s'.tokens) && TxsOk(s')
  {
    assert forall id :: id != jti ==>
      (id in s.tokens <==> id in (s.tokens - {jti})) && (id in s'.tokens <==> id in (s'.tokens - {jti}));
    forall id | id in s.db && s.db[id].fila.estado == ACTIVA ensures Covers(s'.tokens, s.db[id]) {
      assert RowOk(s, id) && Covers(s.tokens, s.db[id]);
      assert s'.tokens[id] == (s'.tokens - {jti})[id];
    }
    forall t | t in s'.txs ensures TxUnaware(s, s', s.txs[t]) {
      var x := s.txs[t];
      assert TxOk(s, x);
      if !x.Bloqueada? && x.nueva.fila.id in s.tokens {
        assert s'.tokens[x.nueva.fila.id] == (s'.tokens - {jti})[x.nueva.fila.id];
      }
    }
    TxsStay(s, s');
  }

  lemma TokenStepKeys(s: Mundo, e: Evento)
    requires KeysOk(s) && OwedOk(s.db, s.porOlvidar, s.porConsumir) && (e.Forget? || e.ConsumeKey?) && Enabled(s, e)
    ensures var s' := Step(s, e); KeysOk(s') && OwedOk(s'.db, s'.porOlvidar, s'.porConsumir)
  {
    KeysStay(s, Step(s, e));
  }

  lemma TokenStepRows(s: Mundo, e: Evento)
    requires RowsOk(s) && TokensOk(s) && (e.Forget? || e.ConsumeKey?) && Enabled(s, e)
    ensures var s' := Step(s, e); RowsOk(s') && TokensOk(s')
  {
    RowsStay(s, Step(s, e));
    TokensStay(s, Step(s, e));
  }

  lemma TokenStepCache(s: Mundo, e: Evento)
    requires RowsOk(s) && CacheOk(s.db, s.tokens) && TxsOk(s) && OwedOk(s.db, s.porOlvidar, s.porConsumir)
    requires (e.Forget? || e.ConsumeKey?) && Enabled(s, e)
    ensures var s' := Step(s, e); CacheOk(s'.db, s'.tokens) && TxsOk(s')
  {
    assert Step(s, e).tokens - {e.jti} == s.tokens - {e.jti};
    TokenStepTables(s, Step(s, e), e.jti);
  }

  lemma TokenStepInv(s: Mundo, e: Evento)
    requires Inv(s) && (e.Forget? || e.ConsumeKey?) && Enabled(s, e)
    ensures Inv(Step(s, e))
  {
    TokenStepRows(s, e);
    TokenStepCache(s, e);
    TokenStepKeys(s, e);
    assert Step(s, e).db == s.db && Step(s, e).respuestas == s.respuestas;
  }

  lemma AbortInv(s: Mundo, e: Evento)
    requires Inv(s) && e.Abort? && Enabled(s, e)
    ensures Inv(Step(s, e))
  {
    var s' := Step(s, e);
    RowsStay(s, s');
    TokensStay(s, s');
    KeysStay(s, s');
    forall t | t in s'.txs ensures TxUnaware(s, s', s.txs[t]) { assert TxOk(s, s.txs[t]); }
    TxsStay(s, s');
  }

  // --- one locked transaction on committed rows ---------------------------------------------

  /** Rows in `tocadas`, which nobody has locked, moved on; every other part of the world is
      unchanged, save for Redis steps now owed and answers given. */
  ghost predicate MovesRows(s: Mundo, s': Mundo, tocadas: set<Uuid>) {
    && s' == s.(db := s'.db, porOlvidar := s'.porOlvidar, porConsumir := s'.porConsumir, respuestas := s'.respuestas)
    && DbMoves(s.db, s'.db, tocadas)
    && (forall id :: id in tocadas ==> !Locked(s, id))
    && s.porOlvidar <= s'.porOlvidar && s.porConsumir <= s'.porConsumir
    && (forall id :: id in tocadas && id in s.db && Leaves(s.db[id].fila.estado, s'.db[id].fila.estado) ==>
          id in s'.porOlvidar + s'.porConsumir)
  }

  /** From a state in which a key may still say ACTIVA to one in which it should not. */
  predicate Leaves(antes: EstadoCredencial, luego: EstadoCredencial) {
    antes in {ACTIVA, EXPIRADA} && luego !in {ACTIVA, EXPIRADA}
  }

  ghost predicate DbMoves(db: Tabla, db': Tabla, tocadas: set<Uuid>) {
    && db'.Keys == db.Keys
    && forall id :: id in db ==>
         if id in tocadas then Continues(db[id], db'[id]) && Genuine(db'[id]) else db'[id] == db[id]
  }

  lemma MovesRowsTx(s: Mundo, s': Mundo, tocadas: set<Uuid>, t: nat)
    requires MovesRows(s, s', tocadas) && t in s.txs && TxOk(s, s.txs[t])
    ensures TxUnaware(s, s', s.txs[t])
  {
    var x := s.txs[t];
    if !x.Bloqueada? && x.previa.Some? { assert HoldsRow(x, x.previa.value.fila.id); }
  }

  lemma MovesRowsRows(s: Mundo, s': Mundo, tocadas: set<Uuid>)
    requires RowsOk(s) && MovesRows(s, s', tocadas)
    ensures RowsOk(s')
  {
    forall id | id in s'.db ensures RowOk(s', id) { assert RowOk(s, id); }
  }

  lemma MovesRowsUnique(s: Mundo, s': Mundo, tocadas: set<Uuid>)
    requires UniqueLive(s.db) && MovesRows(s, s', tocadas)
    ensures UniqueLive(s'.db)
  {
    assert forall id :: id in s.db ==> Continues(s.db[id], s'.db[id]);
    UniqueLiveStays(s.db, s'.db);
  }

  lemma MovesRowsCache(s: Mundo, s': Mundo, tocadas: set<Uuid>)
    requires RowsOk(s) && CacheOk(s.db, s.tokens) && MovesRows(s, s', tocadas)
    ensures CacheOk(s'.db, s'.tokens)
  {
    forall id | id in s'.db && s'.db[id].fila.estado == ACTIVA ensures Covers(s'.tokens, s'.db[id]) {
      assert RowOk(s, id) && Continues(s.db[id], s'.db[id]);
    }
  }

  lemma MovesRowsInv(s: Mundo, s': Mundo, tocadas: set<Uuid>)
    requires Inv(s) && MovesRows(s, s', tocadas)
    requires OwedOk(s'.db, s'.porOlvidar, s'.porConsumir) && AnswersOk(s'.db, s'.respuestas)
    ensures Inv(s')
  {
    MovesRowsRows(s, s', tocadas);
    MovesRowsUnique(s, s', tocadas);
    MovesRowsCache(s, s', tocadas);
    TokensStay(s, s');
    KeysStay(s, s');
    forall t | t in s'.txs ensures TxUnaware(s, s', s.txs[t]) {
      assert TxOk(s, s.txs[t]);
      MovesRowsTx(s, s', tocadas, t);
    }
    TxsStay(s, s');
  }

  lemma ConsumeRowCounts(r: Registro, actor: string, leido: Instant, solo: bool)
    requires Genuine(r)
    ensures CountRows(ConsumeRow(r, actor, leido).historial, Some(CONSUMIDA), solo) ==
            CountRows(r.historial, Some(CONSUMIDA), solo) +
            if solo ==> CanTransitionTo(Refresca(r, leido).fila.estado, CONSUMIDA) then 1 else 0
  {
    RefrescaGenuine(r, leido);
    var f := Refresca(r, leido);
    CountSnoc(f.historial, ConsumeRow(r, actor, leido).historial[|f.historial|], Some(CONSUMIDA), solo);
  }

  /** What consuming one committed row does, and that the answer names the state it leaves. */
  lemma ConsumeRowMeaning(db: Tabla, jti: Uuid, actor: string, leido: Instant)
    requires jti in db && Genuine(db[jti]) && db[jti].fila.estado != EMITIDA
    ensures var r := db[jti]; var q := ConsumeRow(r, actor, leido); var res := ConsumeAnswer(db, jti, leido);
            && Genuine(q) && Continues(r, q) && res.Some? && res.value != R_NO_ENCONTRADA
            && Nombra(res.value) == Some(q.fila.estado)
            && (Leaves(r.fila.estado, q.fila.estado) ==> res.value == R_CONSUMIDA)
            && (forall solo :: CountRows(q.historial, Some(CONSUMIDA), solo) ==
                  CountRows(r.historial, Some(CONSUMIDA), solo) + if solo ==> res.value == R_CONSUMIDA then 1 else 0)
  {
    var r := db[jti];
    RefrescaGenuine(r, leido);
    IntentaGenuine(Refresca(r, leido), CONSUMIDA, MOTIVO_CONSUMO, actor, leido);
    forall solo { ConsumeRowCounts(r, actor, leido, solo); }
  }

  lemma ConsumeAnswersOk(db: Tabla, rs: seq<Respuesta>, jti: Uuid, actor: string, leido: Instant)
    requires AnswersOk(db, rs)
    requires jti in db ==> Genuine(db[jti]) && db[jti].fila.estado != EMITIDA
    ensures AnswersOk(ConsumeTx(db, jti, actor, leido), rs + [Respuesta(jti, ConsumeAnswer(db, jti, leido))])
  {
    var a := Respuesta(jti, ConsumeAnswer(db, jti, leido));
    var db' := ConsumeTx(db, jti, actor, leido);
    if jti in db { ConsumeRowMeaning(db, jti, actor, leido); }
    forall i | 0 <= i < |rs + [a]| ensures AnswerTrue(db', (rs + [a])[i]) {
      if i < |rs| { assert AnswerTrue(db, rs[i]); }
    }
    forall id: Uuid ensures AccountedFor(db', rs + [a], id) {
      assert AccountedFor(db, rs, id);
      forall solo { CountAnswersSnoc(rs, a, id, solo); }
    }
  }

  /** The rows a locked transaction may touch. */
  ghost function Touches(s: Mundo, e: Evento): set<Uuid> {
    match e
    case Consume(jti, _, _) => {jti}
    case Revoke(jti, _, _, _) => {jti}
    case Detail(jti, _, _) => {jti}
    case Sweep(_, _, ids) => ids
    case _ => {}
  }

  lemma ConsumeDb(db: Tabla, jti: Uuid, actor: string, leido: Instant, porOlvidar: set<Uuid>, porConsumir: set<Uuid>)
    requires OwedOk(db, porOlvidar, porConsumir)
    requires jti in db ==> Genuine(db[jti]) && db[jti].fila.estado != EMITIDA
    ensures DbMoves(db, ConsumeTx(db, jti, actor, leido), {jti})
    ensures OwedOk(ConsumeTx(db, jti, actor, leido), porOlvidar,
                   porConsumir + if ConsumeAnswer(db, jti, leido) == Some(R_CONSUMIDA) then {jti} else {})
  {
    if jti in db { ConsumeRowMeaning(db, jti, actor, leido); }
  }

  lemma ConsumeMoves(s: Mundo, e: Evento)
    requires RowsOk(s) && OwedOk(s.db, s.porOlvidar, s.porConsumir) && AnswersOk(s.db, s.respuestas)
    requires e.Consume? && Enabled(s, e)
    ensures MovesRows(s, Step(s, e), Touches(s, e))
    ensures OwedOk(Step(s, e).db, Step(s, e).porOlvidar, Step(s, e).porConsumir)
    ensures AnswersOk(Step(s, e).db, Step(s, e).respuestas)
  {
    if e.jti in s.db {
      assert RowOk(s, e.jti);
      ConsumeRowMeaning(s.db, e.jti, e.actor, e.leido);
    }
    ConsumeDb(s.db, e.jti, e.actor, e.leido, s.porOlvidar, s.porConsumir);
    ConsumeAnswersOk(s.db, s.respuestas, e.jti, e.actor, e.leido);
  }

  lemma RevokeRowMeaning(r: Registro, motivo: string, leido: Instant, reloj: Instant)
    requires Genuine(r) && r.fila.estado != EMITIDA
    ensures var q := RevokeRow(r, motivo, leido, reloj);
            && Genuine(q) && Continues(r, q)
            && (RevokeAccepted(r, leido) ==> q.fila.estado == REVOCADA)
            && (Leaves(r.fila.estado, q.fila.estado) ==> RevokeAccepted(r, leido))
            && (forall solo :: CountRows(q.historial, Some(CONSUMIDA), solo) ==
                  CountRows(r.historial, Some(CONSUMIDA), solo))
  {
    RefrescaGenuine(r, leido);
    var f := Refresca(r, leido);
    IntentaGenuine(f, REVOCADA, motivo, SISTEMA, reloj);
    var q := RevokeRow(r, motivo, leido, reloj);
    forall solo { CountSnoc(f.historial, q.historial[|f.historial|], Some(CONSUMIDA), solo); }
  }

  /** A move that asks no row for CONSUMIDA keeps every answer and every owed Redis step. */
  lemma PlainMoves(db: Tabla, db': Tabla, rs: seq<Respuesta>, porOlvidar: set<Uuid>, porConsumir: set<Uuid>,
                   tocadas: set<Uuid>)
    requires DbMoves(db, db', tocadas) && AnswersOk(db, rs) && OwedOk(db, porOlvidar, porConsumir)
    requires forall id, solo :: id in db && id in tocadas ==>
               CountRows(db'[id].historial, Some(CONSUMIDA), solo) == CountRows(db[id].historial, Some(CONSUMIDA), solo)
    ensures AnswersOk(db', rs) && OwedOk(db', porOlvidar, porConsumir)
  {
    AnswersStay(db, db', rs);
  }

  lemma RevokeDb(db: Tabla, rs: seq<Respuesta>, jti: Uuid, motivo: string, leido: Instant, reloj: Instant,
                 porOlvidar: set<Uuid>, porConsumir: set<Uuid>)
    requires AnswersOk(db, rs) && OwedOk(db, porOlvidar, porConsumir)
    requires jti in db && Genuine(db[jti]) && db[jti].fila.estado != EMITIDA
    ensures var db' := db[jti := RevokeRow(db[jti], motivo, leido, reloj)];
            && DbMoves(db, db', {jti}) && AnswersOk(db', rs)
            && OwedOk(db', porOlvidar + if RevokeAccepted(db[jti], leido) then {jti} else {}, porConsumir)
            && (Leaves(db[jti].fila.estado, db'[jti].fila.estado) ==> RevokeAccepted(db[jti], leido))
  {
    RevokeRowMeaning(db[jti], motivo, leido, reloj);
    PlainMoves(db, db[jti := RevokeRow(db[jti], motivo, leido, reloj)], rs, porOlvidar, porConsumir, {jti});
  }

  lemma DetailDb(db: Tabla, rs: seq<Respuesta>, jti: Uuid, pasajero: Uuid, leido: Instant, porOlvidar: set<Uuid>,
                 porConsumir: set<Uuid>)
    requires AnswersOk(db, rs) && OwedOk(db, porOlvidar, porConsumir)
    requires jti in db ==> Genuine(db[jti])
    ensures var db' := DetailTx(db, jti, pasajero, leido);
            && DbMoves(db, db', {jti}) && AnswersOk(db', rs) && OwedOk(db', porOlvidar, porConsumir)
            && (jti in db ==> !Leaves(db[jti].fila.estado, db'[jti].fila.estado))
  {
    if jti in db { RefrescaGenuine(db[jti], leido); }
    PlainMoves(db, DetailTx(db, jti, pasajero, leido), rs, porOlvidar, porConsumir, {jti});
  }

  lemma RevokeMoves(s: Mundo, e: Evento)
    requires RowsOk(s) && OwedOk(s.db, s.porOlvidar, s.porConsumir) && AnswersOk(s.db, s.respuestas)
    requires e.Revoke? && Enabled(s, e)
    ensures MovesRows(s, Step(s, e), Touches(s, e))
    ensures OwedOk(Step(s, e).db, Step(s, e).porOlvidar, Step(s, e).porConsumir)
    ensures AnswersOk(Step(s, e).db, Step(s, e).respuestas)
  {
    if e.jti in s.db {
      assert RowOk(s, e.jti);
      RevokeDb(s.db, s.respuestas, e.jti, e.motivo, e.leido, e.reloj, s.porOlvidar, s.porConsumir);
    }
  }

  lemma DetailMoves(s: Mundo, e: Evento)
    requires RowsOk(s) && OwedOk(s.db, s.porOlvidar, s.porConsumir) && AnswersOk(s.db, s.respuestas)
    requires e.Detail? && Enabled(s, e)
    ensures MovesRows(s, Step(s, e), Touches(s, e))
    ensures OwedOk(Step(s, e).db, Step(s, e).porOlvidar, Step(s, e).porConsumir)
    ensures AnswersOk(Step(s, e).db, Step(s, e).respuestas)
  {
    if e.jti in s.db { assert RowOk(s, e.jti); }
    DetailDb(s.db, s.respuestas, e.jti, e.pasajero, e.leido, s.porOlvidar, s.porConsumir);
  }

  lemma SweepMoves(db: Tabla, leido: Instant, ids: set<Uuid>)
    requires forall id :: id in ids ==> id in db && Genuine(db[id]) && PastDue(db[id], leido)
    ensures DbMoves(db, SweepTx(db, leido, ids), ids)
    ensures forall id, solo :: id in ids ==>
            CountRows(SweepTx(db, leido, ids)[id].historial, Some(CONSUMIDA), solo) ==
              CountRows(db[id].historial, Some(CONSUMIDA), solo)
    ensures forall id :: id in ids ==> SweepTx(db, leido, ids)[id].fila.estado == EXPIRADA
  {
    forall id | id in ids ensures SweepTx(db, leido, ids)[id] == Refresca(db[id], leido) {
      RefrescaGenuine(db[id], leido);
    }
  }

  lemma SweepMovesStep(s: Mundo, e: Evento)
    requires RowsOk(s) && OwedOk(s.db, s.porOlvidar, s.porConsumir) && AnswersOk(s.db, s.respuestas)
    requires e.Sweep? && Enabled(s, e)
    ensures MovesRows(s, Step(s, e), Touches(s, e))
    ensures OwedOk(Step(s, e).db, Step(s, e).porOlvidar, Step(s, e).porConsumir)
    ensures AnswersOk(Step(s, e).db, Step(s, e).respuestas)
  {
    forall id | id in e.ids
      ensures id in s.db && Genuine(s.db[id]) && PastDue(s.db[id], e.leido) && !Locked(s, id)
    {
      assert id in s.db && RowOk(s, id);
    }
    SweepMoves(s.db, e.leido, e.ids);
    PlainMoves(s.db, Step(s, e).db, s.respuestas, s.porOlvidar, s.porConsumir, e.ids);
  }

  predicate LocksRows(e: Evento) {
    e.Consume? || e.Revoke? || e.Detail? || e.Sweep?
  }

  lemma RowStepMoves(s: Mundo, e: Evento)
    requires RowsOk(s) && OwedOk(s.db, s.porOlvidar, s.porConsumir) && AnswersOk(s.db, s.respuestas)
    requires LocksRows(e) && Enabled(s, e)
    ensures MovesRows(s, Step(s, e), Touches(s, e))
    ensures OwedOk(Step(s, e).db, Step(s, e).porOlvidar, Step(s, e).porConsumir)
    ensures AnswersOk(Step(s, e).db, Step(s, e).respuestas)
  {
    if e.Consume? { ConsumeMoves(s, e); }
    else if e.Revoke? { RevokeMoves(s, e); }
    else if e.Detail? { DetailMoves(s, e); }
    else { SweepMovesStep(s, e); }
  }

  lemma RowStepInv(s: Mundo, e: Evento)
    requires Inv(s) && LocksRows(e) && Enabled(s, e)
    ensures Inv(Step(s, e))
  {
    RowStepMoves(s, e);
    MovesRowsInv(s, Step(s, e), Touches(s, e));
  }

  // --- the steps of issue -------------------------------------------------------------------

  /** The transaction `t` has registered, or failed to register, the key of its new credential. */
  ghost predicate Registers(s: Mundo, s': Mundo, t: nat, n: Registro) {
    && t in s.txs && s.txs[t].Preparada?
    && n.fila == s.txs[t].nueva.fila.(estado := n.fila.estado, updatedAt := n.fila.updatedAt)
    && Genuine(n) && (forall solo :: CountRows(n.historial, Some(CONSUMIDA), solo) == 0)
    && var x := s.txs[t];
       && s' == s.(txs := s'.txs, tokens := s'.tokens, fallos := s'.fallos)
       && s'.txs == s.txs[t := PorConfirmar(x.pasajero, x.vuelo, x.ahora, x.previa, x.olvidar, n)]
       && (s'.tokens == s.tokens ||
             s'.tokens == s.tokens[n.fila.id := TokenStore.Token(TokenStore.ACTIVA, s.now + s.ttl * SECOND, s.ttl)])
       && s.fallos <= s'.fallos
       && (|| (n.fila.estado == ACTIVA && s'.tokens != s.tokens)
           || (n.fila.estado == REVOCADA && n.fila.id in s'.fallos))
  }

  /** Only the key of a fresh identifier changed. */
  lemma RegisterTokens(s: Mundo, s': Mundo, t: nat, n: Registro)
    requires RowsOk(s) && CacheOk(s.db, s.tokens) && TokensOk(s) && TxsOk(s) && Registers(s, s', t, n)
    ensures CacheOk(s'.db, s'.tokens) && TokensOk(s')
  {
    assert TxOk(s, s.txs[t]);
    forall id | id in s.db && s.db[id].fila.estado == ACTIVA ensures Covers(s'.tokens, s.db[id]) {
      assert RowOk(s, id);
    }
    forall id | id in s'.tokens ensures TokenOk(s', id) { if id != n.fila.id { assert TokenOk(s, id); } }
  }

  lemma RegisterTxs(s: Mundo, s': Mundo, t: nat, n: Registro)
    requires RowsOk(s) && TxsOk(s) && Registers(s, s', t, n)
    ensures TxsOk(s')
  {
    assert TxOk(s, s.txs[t]);
    assert TxOk(s', s'.txs[t]) by {
      assert PreviaOk(s', s'.txs[t]) && OnlyPrevia(s', s'.txs[t]);
    }
    forall u | u in s'.txs && u != t ensures TxOk(s', s'.txs[u]) {
      assert TxOk(s, s.txs[u]);
      TxStays(s, s', s.txs[u]);
    }
  }

  lemma RegisterKeys(s: Mundo, e: Evento)
    requires KeysOk(s) && (e.RegisterOk? || e.RegisterFails?) && Enabled(s, e)
    ensures KeysOk(Step(s, e))
  {
    var s' := Step(s, e);
    var n := s.txs[e.tx].nueva.fila.id;
    forall id | id in s'.tokens && TokenStore.Vivo(s'.tokens, id, s'.now) == Some(TokenStore.ACTIVA)
      ensures KeyExplained(s', id) {
      if id == n {
        assert s'.txs[e.tx].PorConfirmar?;
      } else {
        assert KeyExplained(s, id);
        if t :| t in s.txs && s.txs[t].PorConfirmar? && s.txs[t].nueva.fila.id == id { assert t in s'.txs; }
      }
    }
  }

  /** The new credential is ACTIVA with its key registered, or REVOCADA. */
  lemma RegisterMeaning(s: Mundo, e: Evento) returns (n: Registro)
    requires TxsOk(s) && (e.RegisterOk? || e.RegisterFails?) && Enabled(s, e)
    ensures Registers(s, Step(s, e), e.tx, n)
  {
    var x := s.txs[e.tx];
    assert TxOk(s, x);
    var target := if e.RegisterOk? then ACTIVA else REVOCADA;
    var motivo := if e.RegisterOk? then MOTIVO_ACTIVACION else MOTIVO_TOKEN_NO_REGISTRADO;
    n := Intenta(x.nueva, target, motivo, SISTEMA, x.ahora);
    IntentaGenuine(x.nueva, target, motivo, SISTEMA, x.ahora);
    forall solo { CountSnoc(x.nueva.historial, n.historial[|x.nueva.historial|], Some(CONSUMIDA), solo); }
  }

  lemma RegisterInv(s: Mundo, e: Evento)
    requires Inv(s) && (e.RegisterOk? || e.RegisterFails?) && Enabled(s, e)
    ensures Inv(Step(s, e))
  {
    var s' := Step(s, e);
    var n := RegisterMeaning(s, e);
    RowsStay(s, s');
    RegisterTokens(s, s', e.tx, n);
    RegisterTxs(s, s', e.tx, n);
    RegisterKeys(s, e);
  }

  /** The old row as staged: revoking it is always accepted, and expiring it is always due. */
  lemma StagePreviaMeaning(r: Registro, ahora: Instant, reloj: Instant)
    requires Genuine(r) && r.fila.estado == ACTIVA
    ensures var q := StagePrevia(r, ahora, reloj);
            && Genuine(q) && Continues(r, q)
            && StageForgets(r, ahora) == !PastDue(r, ahora)
            && q.fila.estado == (if StageForgets(r, ahora) then REVOCADA else EXPIRADA)
            && (forall solo :: CountRows(q.historial, Some(CONSUMIDA), solo) ==
                  CountRows(r.historial, Some(CONSUMIDA), solo))
  {
    var q := StagePrevia(r, ahora, reloj);
    if PastDue(r, ahora) {
      IntentaGenuine(r, EXPIRADA, MOTIVO_EXPIRACION, SISTEMA, ahora);
    } else {
      IntentaGenuine(r, REVOCADA, MOTIVO_RENOVACION, SISTEMA, reloj);
    }
    forall solo { CountSnoc(r.historial, q.historial[|r.historial|], Some(CONSUMIDA), solo); }
  }

  /** The uniqueness check of `add` never fires, and what the transaction has staged is in order. */
  lemma StageSucceeds(s: Mundo, e: Evento)
    requires Inv(s) && e.Stage? && Enabled(s, e)
    ensures var x := s.txs[e.tx];
            var staged := StageTx(s, x, e.anterior, e.identidad, e.nuevo);
            && staged.Some? && staged.value.Preparada?
            && (e.anterior.Some? ==> RowOk(s, e.anterior.value) && s.db[e.anterior.value].fila.estado == ACTIVA)
            && (forall id :: id in s.db && LiveFor(s.db[id], x.pasajero, x.vuelo) ==> e.anterior == Some(id))
  {
    var x := s.txs[e.tx];
    if e.anterior.Some? {
      var a := e.anterior.value;
      assert RowOk(s, a);
      StagePreviaMeaning(s.db[a], x.ahora, s.now);
    }
    forall id | id in s.db && LiveFor(s.db[id], x.pasajero, x.vuelo) ensures e.anterior == Some(id) {
      if e.anterior.Some? { assert SamePair(s.db[id], s.db[e.anterior.value]); }
    }
  }

  lemma StageTxOk(s: Mundo, e: Evento)
    requires Inv(s) && e.Stage? && Enabled(s, e)
    ensures var s' := Step(s, e); e.tx in s'.txs && TxOk(s', s'.txs[e.tx])
  {
    StageSucceeds(s, e);
    var s' := Step(s, e);
    var x := s.txs[e.tx];
    var y := s'.txs[e.tx];
    assert TxOk(s, x);
    EmitidaGenuine(e.nuevo, x.pasajero, e.identidad, x.vuelo, x.ahora, s.ttl);
    assert NuevaOk(s', y) by {
      forall id | id in s.db ensures id != e.nuevo { assert RowOk(s, id); }
      forall id | id in s.tokens ensures id != e.nuevo { assert TokenOk(s, id); }
      var h := y.nueva.historial;
      forall solo ensures CountRows(h, Some(CONSUMIDA), solo) == 0 {
        CountSnoc([], h[0], Some(CONSUMIDA), solo);
        assert h == [] + [h[0]];
      }
    }
    if e.anterior.Some? { StagePreviaMeaning(s.db[e.anterior.value], x.ahora, s.now); }
    assert PreviaOk(s', y);
  }

  lemma StageTxs(s: Mundo, e: Evento)
    requires Inv(s) && e.Stage? && Enabled(s, e)
    ensures TxsOk(Step(s, e))
  {
    StageSucceeds(s, e);
    StageTxOk(s, e);
    var s' := Step(s, e);
    forall t | t in s'.txs && t != e.tx
      ensures TxOk(s', s'.txs[t]) && (s'.txs[t].Bloqueada? || s'.txs[t].nueva.fila.id != e.nuevo) {
      assert TxOk(s, s.txs[t]);
      TxStays(s, s', s.txs[t]);
    }
  }

  lemma StageInv(s: Mundo, e: Evento)
    requires Inv(s) && e.Stage? && Enabled(s, e)
    ensures Inv(Step(s, e))
  {
    StageSucceeds(s, e);
    StageTxs(s, e);
    var s' := Step(s, e);
    RowsStay(s, s');
    TokensStay(s, s');
    KeysStay(s, s');
  }

  /** Every row survives the commit and at most the committed one is live for its pair. */
  lemma CommitRows(s: Mundo, e: Evento)
    requires e.Commit? && Enabled(s, e) && TxOk(s, s.txs[e.tx])
    ensures var s' := Step(s, e);
            && s'.db.Keys == s.db.Keys + {s.txs[e.tx].nueva.fila.id}
            && (forall id :: id in s.db ==> Continues(s.db[id], s'.db[id]))
            && (forall id, solo :: id in s.db ==>
                  CountRows(s'.db[id].historial, Some(CONSUMIDA), solo) ==
                    CountRows(s.db[id].historial, Some(CONSUMIDA), solo))
            && (forall id :: id in s'.db && LiveFor(s'.db[id], s.txs[e.tx].pasajero, s.txs[e.tx].vuelo) ==>
                  id == s.txs[e.tx].nueva.fila.id)
  {
    var s' := Step(s, e);
    var x := s.txs[e.tx];
    var n := x.nueva.fila.id;
    assert NuevaOk(s, x) && PreviaOk(s, x) && OnlyPrevia(s, x);
    assert forall id :: id in s'.db && id != n ==> !LiveFor(s'.db[id], x.pasajero, x.vuelo);
  }

  lemma CommitRowsOk(s: Mundo, e: Evento)
    requires RowsOk(s) && CacheOk(s.db, s.tokens) && e.Commit? && Enabled(s, e) && TxOk(s, s.txs[e.tx])
    ensures RowsOk(Step(s, e)) && CacheOk(Step(s, e).db, s.tokens)
  {
    var s' := Step(s, e);
    assert NuevaOk(s, s.txs[e.tx]) && PreviaOk(s, s.txs[e.tx]);
    forall id | id in s'.db ensures RowOk(s', id) {
      if id in s.db { assert RowOk(s, id); }
    }
  }

  lemma CommitUnique(s: Mundo, e: Evento)
    requires UniqueLive(s.db) && e.Commit? && Enabled(s, e) && TxOk(s, s.txs[e.tx])
    ensures UniqueLive(Step(s, e).db)
  {
    CommitRows(s, e);
    var s' := Step(s, e);
    var x := s.txs[e.tx];
    var n := x.nueva.fila.id;
    forall a, b | a in s'.db && b in s'.db && Live(s'.db[a].fila.estado) && Live(s'.db[b].fila.estado) &&
      SamePair(s'.db[a], s'.db[b])
      ensures a == b {
      if a != n && b != n { assert SamePair(s.db[a], s.db[b]); }
      else { assert LiveFor(s'.db[a], x.pasajero, x.vuelo) && LiveFor(s'.db[b], x.pasajero, x.vuelo); }
    }
  }

  /** Another transaction is about another passenger. */
  lemma CommitUnnoticed(s: Mundo, e: Evento, t: nat)
    requires TxsOk(s) && e.Commit? && Enabled(s, e) && t in s.txs && t != e.tx
    ensures TxUnaware(s, Step(s, e), s.txs[t])
  {
    assert TxOk(s, s.txs[e.tx]) && PreviaOk(s, s.txs[e.tx]);
    assert TxOk(s, s.txs[t]) && s.txs[t].pasajero != s.txs[e.tx].pasajero;
  }

  lemma CommitTxs(s: Mundo, e: Evento)
    requires TxsOk(s) && e.Commit? && Enabled(s, e)
    ensures TxsOk(Step(s, e))
  {
    var s' := Step(s, e);
    forall t | t in s'.txs ensures TxUnaware(s, s', s.txs[t]) {
      CommitUnnoticed(s, e, t);
    }
    TxsStay(s, s');
  }

  lemma CommitKeys(s: Mundo, e: Evento)
    requires KeysOk(s) && e.Commit? && Enabled(s, e) && TxOk(s, s.txs[e.tx])
    ensures KeysOk(Step(s, e))
  {
    var x := s.txs[e.tx];
    assert NuevaOk(s, x) && PreviaOk(s, x);
    KeysStay(s, Step(s, e));
  }

  lemma CommitAnswers(s: Mundo, e: Evento)
    requires e.Commit? && Enabled(s, e) && TxOk(s, s.txs[e.tx])
    requires AnswersOk(s.db, s.respuestas) && OwedOk(s.db, s.porOlvidar, s.porConsumir)
    ensures var s' := Step(s, e); AnswersOk(s'.db, s'.respuestas) && OwedOk(s'.db, s'.porOlvidar, s'.porConsumir)
  {
    CommitRows(s, e);
    assert NuevaOk(s, s.txs[e.tx]) && PreviaOk(s, s.txs[e.tx]);
    AnswersStay(s.db, Step(s, e).db, s.respuestas);
  }

  lemma CommitInv(s: Mundo, e: Evento)
    requires Inv(s) && e.Commit? && Enabled(s, e)
    ensures Inv(Step(s, e))
  {
    assert TxOk(s, s.txs[e.tx]);
    CommitRowsOk(s, e);
    CommitUnique(s, e);
    CommitTxs(s, e);
    CommitKeys(s, e);
    CommitAnswers(s, e);
    TokensStay(s, Step(s, e));
  }

  // --- every step, every run ------------------------------------------------------------------

  lemma StepInv(s: Mundo, e: Evento)
    requires Inv(s) && Enabled(s, e)
    ensures Inv(Step(s, e))
  {
    match e
    case Tick(_) => QuietInv(s, e);
    case Lock(_, _, _) => QuietInv(s, e);
    case Stage(_, _, _, _) => StageInv(s, e);
    case RegisterOk(_) => RegisterInv(s, e);
    case RegisterFails(_, _) => RegisterInv(s, e);
    case Commit(_) => CommitInv(s, e);
    case Abort(_) => AbortInv(s, e);
    case Forget(_, _) => TokenStepInv(s, e);
    case ConsumeKey(_, _) => TokenStepInv(s, e);
    case _ => RowStepInv(s, e);
  }

  lemma {:induction false} RunInv(s: Mundo, es: seq<Evento>)
    requires Inv(s) && Legal(s, es)
    ensures Inv(Exec(s, es))
    decreases |es|
  {
    if es != [] {
      StepInv(s, es[0]);
      RunInv(Step(s, es[0]), es[1..]);
    }
  }
}
