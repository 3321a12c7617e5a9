/** What holds in every state a run of the credential protocol can reach, whatever the
    interleaving, the Redis failures and the crash positions. */
module CredentialTheorems {
  import opened Base
  import opened Credentials
  import opened CredentialProtocol
  import opened CredentialInvariants
  import TokenStore

  lemma Reached(s0: Mundo, es: seq<Evento>)
    requires Inicial(s0) && Legal(s0, es)
    ensures Inv(Exec(s0, es))
  {
    InicialInv(s0);
    RunInv(s0, es);
  }

  // --- the cache and the table ---------------------------------------------------------------

  /** The proxy never turns away a credential the table would accept. */
  lemma CacheNeverDeniesUsable(s0: Mundo, es: seq<Evento>, jti: Uuid, disponible: bool)
    requires Inicial(s0) && Legal(s0, es)
    ensures var s := Exec(s0, es);
            && (TokenStore.MayBeUsable(s.tokens, jti, s.now, disponible) == None <==> !disponible)
            && (jti in s.db && s.db[jti].fila.estado == ACTIVA && s.now < s.db[jti].fila.expiraAt ==>
                  TokenStore.MayBeUsable(s.tokens, jti, s.now, disponible) != Some(false))
  {
    Reached(s0, es);
    var s := Exec(s0, es);
    if jti in s.db { assert RowOk(s, jti); }
  }

  /** A key the proxy takes for usable, and whose Redis steps are all done and none failed, belongs
      to a credential that is active or merely past due, or to one about to be committed, or to one
      that a renewal revoked although its own registration failed. */
  lemma HealthyCacheIsExact(s0: Mundo, es: seq<Evento>, jti: Uuid)
    requires Inicial(s0) && Legal(s0, es)
    ensures var s := Exec(s0, es);
            && TokenStore.MayBeUsable(s.tokens, jti, s.now, true) == Some(true)
            && jti !in s.fallos + s.porOlvidar + s.porConsumir ==>
              || (jti in s.db && s.db[jti].fila.estado in {ACTIVA, EXPIRADA})
              || (exists t :: t in s.txs && s.txs[t].PorConfirmar? && s.txs[t].nueva.fila.id == jti)
              || (jti in s.abandonados && jti in s.db && s.db[jti].fila.estado == REVOCADA)
  {
    Reached(s0, es);
    InicialInv(s0);
    RunAbandons(s0, es);
    var s := Exec(s0, es);
    if TokenStore.Vivo(s.tokens, jti, s.now) == Some(TokenStore.ACTIVA) { assert KeyExplained(s, jti); }
  }

  /** `jti` has had its one registration and its key, if still there, ends by `limite`. */
  ghost predicate Doomed(s: Mundo, jti: Uuid, limite: Instant) {
    && jti in s.usados
    && (forall t :: t in s.txs && s.txs[t].Preparada? ==> s.txs[t].nueva.fila.id != jti)
    && (jti in s.tokens ==> s.tokens[jti].expira <= limite)
  }

  lemma StepDoomed(s: Mundo, e: Evento, jti: Uuid, limite: Instant)
    requires Doomed(s, jti, limite) && Enabled(s, e)
    ensures Doomed(Step(s, e), jti, limite) && s.now <= Step(s, e).now
  {}

  lemma {:induction false} RunDoomed(s: Mundo, es: seq<Evento>, jti: Uuid, limite: Instant)
    requires Doomed(s, jti, limite) && Legal(s, es)
    ensures Doomed(Exec(s, es), jti, limite) && s.now <= Exec(s, es).now
    decreases |es|
  {
    if es != [] {
      StepDoomed(s, es[0], jti, limite);
      RunDoomed(Step(s, es[0]), es[1..], jti, limite);
    }
  }

  /** Whatever became of its credential, and whatever Redis lost or failed to do, a key seen at some
      point of a run is dead from its own expiry on and never comes back; that is at most the TTL later,
      hence at most 60 s. */
  lemma KeysDieWithinAMinute(s0: Mundo, es: seq<Evento>, mas: seq<Evento>, jti: Uuid)
    requires Inicial(s0) && Legal(s0, es) && Legal(Exec(s0, es), mas)
    ensures var s := Exec(s0, es); var z := Exec(s, mas);
            jti in s.tokens ==>
              && (z.now >= s.tokens[jti].expira ==> TokenStore.Vivo(z.tokens, jti, z.now) == None)
              && s.tokens[jti].expira <= s.now + s0.ttl * SECOND <= s.now + 60 * SECOND
  {
    Reached(s0, es);
    var s := Exec(s0, es);
    RunKeepsTtl(s0, es);
    if jti in s.tokens {
      assert TokenOk(s, jti);
      forall t | t in s.txs && s.txs[t].Preparada? ensures s.txs[t].nueva.fila.id != jti { assert TxOk(s, s.txs[t]); }
      RunDoomed(s, mas, jti, s.tokens[jti].expira);
    }
  }

  lemma StepKeepsTtl(s: Mundo, e: Evento)
    requires Enabled(s, e)
    ensures Step(s, e).ttl == s.ttl
  {}

  lemma {:induction false} RunKeepsTtl(s: Mundo, es: seq<Evento>)
    requires Legal(s, es)
    ensures Exec(s, es).ttl == s.ttl
    decreases |es|
  {
    if es != [] {
      StepKeepsTtl(s, es[0]);
      RunKeepsTtl(Step(s, es[0]), es[1..]);
    }
  }

  // --- one live credential per passenger and flight -------------------------------------------

  lemma AtMostOneLive(s0: Mundo, es: seq<Evento>)
    requires Inicial(s0) && Legal(s0, es)
    ensures var s := Exec(s0, es);
            && (forall id :: id in s.db ==> s.db[id].fila.estado != EMITIDA)
            && UniqueLive(s.db)
  {
    Reached(s0, es);
    var s := Exec(s0, es);
    forall id | id in s.db ensures s.db[id].fila.estado != EMITIDA { assert RowOk(s, id); }
  }

  /** Staging always gets through: `add` never reports a duplicate, and the old credential is
      either due and expired, or revoked with the revocation accepted. */
  lemma RenewalNeverRefused(s0: Mundo, es: seq<Evento>, e: Evento)
    requires Inicial(s0) && Legal(s0, es)
    requires e.Stage? && Enabled(Exec(s0, es), e)
    ensures var s := Exec(s0, es); var x := s.txs[e.tx]; var y := Step(s, e).txs;
            && e.tx in y && y[e.tx].Preparada?
            && (e.anterior.Some? ==>
                  && y[e.tx].previa.Some?
                  && y[e.tx].previa.value.fila.estado ==
                       if s.db[e.anterior.value].fila.expiraAt <= x.ahora then EXPIRADA else REVOCADA)
  {
    Reached(s0, es);
    var s := Exec(s0, es);
    StageSucceeds(s, e);
    if e.anterior.Some? { StagePreviaMeaning(s.db[e.anterior.value], s.txs[e.tx].ahora, s.now); }
  }

  /** After a commit the pair has exactly the new credential live if its key was registered, and
      none at all if the registration failed; credentials of other pairs are as they were. */
  lemma CommitLeavesAtMostTheNewOne(s0: Mundo, es: seq<Evento>, t: nat)
    requires Inicial(s0) && Legal(s0, es) && Enabled(Exec(s0, es), Commit(t))
    ensures var s := Exec(s0, es); var x := s.txs[t]; var db := Step(s, Commit(t)).db;
            && x.nueva.fila.estado in {ACTIVA, REVOCADA}
            && (forall id ::
                  id in db && db[id].fila.pasajeroId == x.pasajero && db[id].fila.codigoVuelo == x.vuelo &&
                  db[id].fila.estado in {EMITIDA, ACTIVA} <==>
                    id == x.nueva.fila.id && x.nueva.fila.estado == ACTIVA)
            && (forall id ::
                  id in s.db && !(s.db[id].fila.pasajeroId == x.pasajero && s.db[id].fila.codigoVuelo == x.vuelo) ==>
                    id in db && db[id] == s.db[id])
  {
    Reached(s0, es);
    var s := Exec(s0, es);
    assert TxOk(s, s.txs[t]) && NuevaOk(s, s.txs[t]);
    CommitRows(s, Commit(t));
    OtherPairsStay(s, t);
    var db := Step(s, Commit(t)).db;
    forall id | id in db ensures LiveFor(db[id], s.txs[t].pasajero, s.txs[t].vuelo) <==>
      id == s.txs[t].nueva.fila.id && s.txs[t].nueva.fila.estado == ACTIVA {}
  }

  lemma OtherPairsStay(s: Mundo, t: nat)
    requires Enabled(s, Commit(t)) && TxOk(s, s.txs[t])
    ensures var x := s.txs[t]; var db := Step(s, Commit(t)).db;
            forall id ::
              id in s.db && !(s.db[id].fila.pasajeroId == x.pasajero && s.db[id].fila.codigoVuelo == x.vuelo) ==>
                id in db && db[id] == s.db[id]
  {
    assert NuevaOk(s, s.txs[t]) && PreviaOk(s, s.txs[t]);
  }

  // --- histories ----------------------------------------------------------------------------------

  /** Every credential and every answer is still there, each history extended at the end. */
  ghost predicate Grows(db: Tabla, rs: seq<Respuesta>, db': Tabla, rs': seq<Respuesta>) {
    && (forall id :: id in db ==> id in db' && Continues(db[id], db'[id]))
    && rs <= rs'
  }

  lemma GrowsTransitive(db: Tabla, rs: seq<Respuesta>, db1: Tabla, rs1: seq<Respuesta>, db2: Tabla, rs2: seq<Respuesta>)
    requires Grows(db, rs, db1, rs1) && Grows(db1, rs1, db2, rs2)
    ensures Grows(db, rs, db2, rs2)
  {}

  lemma RowStepGrows(s: Mundo, e: Evento)
    requires Inv(s) && LocksRows(e) && Enabled(s, e)
    ensures Grows(s.db, s.respuestas, Step(s, e).db, Step(s, e).respuestas)
  {
    RowStepMoves(s, e);
    DbMovesGrows(s.db, Step(s, e).db, Touches(s, e));
  }

  lemma DbMovesGrows(db: Tabla, db': Tabla, tocadas: set<Uuid>)
    requires DbMoves(db, db', tocadas)
    ensures Grows(db, [], db', [])
  {}

  lemma CommitGrows(s: Mundo, e: Evento)
    requires Inv(s) && e.Commit? && Enabled(s, e)
    ensures Grows(s.db, s.respuestas, Step(s, e).db, Step(s, e).respuestas)
  {
    assert TxOk(s, s.txs[e.tx]);
    CommitRows(s, e);
  }

  lemma GrowsReflexive(db: Tabla, rs: seq<Respuesta>)
    ensures Grows(db, rs, db, rs)
  {}

  lemma StepContinues(s: Mundo, e: Evento)
    requires Inv(s) && Enabled(s, e)
    ensures Grows(s.db, s.respuestas, Step(s, e).db, Step(s, e).respuestas)
  {
    if LocksRows(e) {
      RowStepGrows(s, e);
    } else if e.Commit? {
      CommitGrows(s, e);
    } else {
      assert Step(s, e).db == s.db && Step(s, e).respuestas == s.respuestas;
      GrowsReflexive(s.db, s.respuestas);
    }
  }

  lemma {:induction false} RunContinues(s: Mundo, es: seq<Evento>)
    requires Inv(s) && Legal(s, es)
    ensures Grows(s.db, s.respuestas, Exec(s, es).db, Exec(s, es).respuestas)
    decreases |es|
  {
    if es != [] {
      var s' := Step(s, es[0]);
      var z := Exec(s', es[1..]);
      StepContinues(s, es[0]);
      StepInv(s, es[0]);
      RunContinues(s', es[1..]);
      GrowsTransitive(s.db, s.respuestas, s'.db, s'.respuestas, z.db, z.respuestas);
    }
  }

  /** From any point of a run to any later one no credential disappears, its history only grows at
      the end and a final state is final; and at every point the history replays to the current state
      and no other, with at most three accepted rows, one at most for each final state. */
  lemma HistoriesReplay(s0: Mundo, es: seq<Evento>, mas: seq<Evento>, jti: Uuid)
    requires Inicial(s0) && Legal(s0, es) && Legal(Exec(s0, es), mas)
    requires jti in Exec(s0, es).db
    ensures var r := Exec(s0, es).db[jti]; var z := Exec(Exec(s0, es), mas);
            && (forall e :: Replays(r.historial, e) <==> e == r.fila.estado)
            && CountRows(r.historial, None, true) <= 3
            && 30 * SECOND <= r.fila.expiraAt - r.fila.emitidaAt <= 60 * SECOND
            && (forall f :: IsFinal(f) ==> CountRows(r.historial, Some(f), true) == if r.fila.estado == f then 1 else 0)
            && jti in z.db && r.historial <= z.db[jti].historial
            && (IsFinal(r.fila.estado) ==> z.db[jti].fila.estado == r.fila.estado)
  {
    Reached(s0, es);
    var s := Exec(s0, es);
    assert RowOk(s, jti);
    forall f { ReplayBounds(s.db[jti].historial, s.db[jti].fila.estado, f); }
    forall e | Replays(s.db[jti].historial, e) ensures e == s.db[jti].fila.estado {
      ReplayDeterministic(s.db[jti].historial, e, s.db[jti].fila.estado);
    }
    FinalIffNotLive(s.db[jti].fila.estado);
    RunContinues(s, mas);
  }

  /** Consumption is only ever accepted before the expiry instant, expiry only from it on, and no
      request to expire a credential was ever refused; accepted rows give the reason and actor proper to
      their state, refused ones the reason TRANSICION_INVALIDA. */
  lemma RowsAreTimely(s0: Mundo, es: seq<Evento>, jti: Uuid, i: nat)
    requires Inicial(s0) && Legal(s0, es)
    requires jti in Exec(s0, es).db && i < |Exec(s0, es).db[jti].historial|
    ensures var r := Exec(s0, es).db[jti]; var t := r.historial[i];
            && (t.estadoSolicitado == CONSUMIDA && t.aceptada ==> t.createdAt < r.fila.expiraAt)
            && (t.estadoSolicitado == EXPIRADA ==> t.aceptada && t.createdAt >= r.fila.expiraAt)
            && (if t.aceptada then Explains(t.estadoSolicitado, t.motivo, t.actor) else t.motivo == MOTIVO_INVALIDA)
  {
    Reached(s0, es);
    assert RowOk(Exec(s0, es), jti);
    var r := Exec(s0, es).db[jti];
    if !r.historial[i].aceptada { RefusalsSaySo(r.historial, r.fila.estado, i); }
  }

  // --- the key of a renewed credential -------------------------------------------------------------

  /** `id` is revoked, its key `tok` still says ACTIVA, and no Redis step on it is owed. */
  ghost predicate Abandoned(s: Mundo, id: Uuid, tok: TokenStore.Token) {
    && id in s.db && s.db[id].fila.estado == REVOCADA && id !in s.porOlvidar
    && id in s.tokens && s.tokens[id] == tok && tok.valor == TokenStore.ACTIVA
  }

  /** No step of anyone touches such a key. */
  lemma TokenStays(s: Mundo, e: Evento, id: Uuid, tok: TokenStore.Token)
    requires Inv(s) && Abandoned(s, id, tok) && Enabled(s, e)
    ensures id in Step(s, e).tokens && Step(s, e).tokens[id] == tok
  {
    if e.RegisterOk? || e.RegisterFails? { assert TxOk(s, s.txs[e.tx]); }
  }

  /** Nor does any step ask for its deletion: a second revocation is refused. */
  lemma NotOwed(s: Mundo, e: Evento, id: Uuid, tok: TokenStore.Token)
    requires Inv(s) && Abandoned(s, id, tok) && Enabled(s, e)
    ensures id !in Step(s, e).porOlvidar
  {
    if e.Commit? { assert TxOk(s, s.txs[e.tx]) && PreviaOk(s, s.txs[e.tx]); }
  }

  lemma StepAbandoned(s: Mundo, e: Evento, id: Uuid, tok: TokenStore.Token)
    requires Inv(s) && Abandoned(s, id, tok) && Enabled(s, e)
    ensures Abandoned(Step(s, e), id, tok)
  {
    TokenStays(s, e, id, tok);
    NotOwed(s, e, id, tok);
    StepContinues(s, e);
  }

  lemma {:induction false} RunAbandoned(s: Mundo, es: seq<Evento>, id: Uuid, tok: TokenStore.Token)
    requires Inv(s) && Abandoned(s, id, tok) && Legal(s, es)
    ensures Abandoned(Exec(s, es), id, tok)
    decreases |es|
  {
    if es != [] {
      StepInv(s, es[0]);
      StepAbandoned(s, es[0], id, tok);
      RunAbandoned(Step(s, es[0]), es[1..], id, tok);
    }
  }

  /** A commit that revokes the old credential while the new one failed to register. */
  lemma CommitAbandons(s: Mundo, t: nat)
    requires Inv(s) && Enabled(s, Commit(t)) && s.txs[t].olvidar && s.txs[t].nueva.fila.estado == REVOCADA
    ensures s.txs[t].previa.Some?
    ensures var id := s.txs[t].previa.value.fila.id; id in s.tokens && Abandoned(Step(s, Commit(t)), id, s.tokens[id])
  {
    var x := s.txs[t];
    assert TxOk(s, x) && NuevaOk(s, x) && PreviaOk(s, x);
    assert Covers(s.tokens, s.db[x.previa.value.fila.id]) by { assert RowOk(s, x.previa.value.fila.id); }
  }

  ghost predicate AllAbandoned(s: Mundo) {
    forall id :: id in s.abandonados ==> id in s.tokens && Abandoned(s, id, s.tokens[id])
  }

  lemma StepAbandons(s: Mundo, e: Evento)
    requires Inv(s) && AllAbandoned(s) && Enabled(s, e)
    ensures AllAbandoned(Step(s, e))
  {
    var s' := Step(s, e);
    forall id | id in s'.abandonados ensures id in s'.tokens && Abandoned(s', id, s'.tokens[id]) {
      if id in s.abandonados {
        StepAbandoned(s, e, id, s.tokens[id]);
      } else {
        assert TxOk(s, s.txs[e.tx]) && NuevaOk(s, s.txs[e.tx]);
        CommitAbandons(s, e.tx);
      }
    }
  }

  lemma {:induction false} RunAbandons(s: Mundo, es: seq<Evento>)
    requires Inv(s) && AllAbandoned(s) && Legal(s, es)
    ensures AllAbandoned(Exec(s, es))
    decreases |es|
  {
    if es != [] {
      StepInv(s, es[0]);
      StepAbandons(s, es[0]);
      RunAbandons(Step(s, es[0]), es[1..]);
    }
  }

  /** When a renewal revokes the old credential but fails to register the new one, the proxy goes on
      taking the old one for usable until its key expires, whatever happens meanwhile. */
  lemma FailedRenewalLeavesKey(s0: Mundo, es: seq<Evento>, t: nat, mas: seq<Evento>)
    requires Inicial(s0) && Legal(s0, es) && Enabled(Exec(s0, es), Commit(t))
    requires Legal(Step(Exec(s0, es), Commit(t)), mas)
    requires var x := Exec(s0, es).txs[t]; x.olvidar && x.nueva.fila.estado == REVOCADA
    ensures var s := Exec(s0, es); var z := Exec(Step(s, Commit(t)), mas);
            && s.txs[t].previa.Some?
            && var id := s.txs[t].previa.value.fila.id;
               && id in z.db && z.db[id].fila.estado == REVOCADA && id in s.tokens
               && (TokenStore.MayBeUsable(z.tokens, id, z.now, true) == Some(true) <==> z.now < s.tokens[id].expira)
  {
    Reached(s0, es);
    var s := Exec(s0, es);
    CommitAbandons(s, t);
    StepInv(s, Commit(t));
    RunAbandoned(Step(s, Commit(t)), mas, s.txs[t].previa.value.fila.id, s.tokens[s.txs[t].previa.value.fila.id]);
  }

  /** After `mas` the key of `id` is dead although it was to live until `fin`. */
  ghost predicate DiesEarly(s: Mundo, mas: seq<Evento>, id: Uuid, fin: Instant) {
    && Legal(s, mas)
    && Exec(s, mas).now < fin
    && TokenStore.MayBeUsable(Exec(s, mas).tokens, id, Exec(s, mas).now, true) == Some(false)
  }

  /** The key of the credential a renewal revokes can be dead before its own expiry exactly when the
      new credential was registered: only then is its deletion asked for. */
  lemma OldKeyDiesEarlyIffRegistered(s0: Mundo, es: seq<Evento>, t: nat)
    requires Inicial(s0) && Legal(s0, es) && Enabled(Exec(s0, es), Commit(t)) && Exec(s0, es).txs[t].olvidar
    ensures var s := Exec(s0, es); var x := s.txs[t];
            && x.previa.Some?
            && var id := x.previa.value.fila.id;
               && id in s.tokens
               && (s.now < s.tokens[id].expira ==>
                     ((exists mas :: DiesEarly(Step(s, Commit(t)), mas, id, s.tokens[id].expira)) <==>
                      x.nueva.fila.estado == ACTIVA))
  {
    Reached(s0, es);
    var s := Exec(s0, es);
    var x := s.txs[t];
    assert TxOk(s, x) && NuevaOk(s, x) && PreviaOk(s, x);
    var id := x.previa.value.fila.id;
    assert Covers(s.tokens, s.db[id]);
    if x.nueva.fila.estado == ACTIVA {
      ForgetKills(s, t);
    } else {
      forall mas | DiesEarly(Step(s, Commit(t)), mas, id, s.tokens[id].expira) ensures false {
        FailedRenewalLeavesKey(s0, es, t, mas);
      }
    }
  }

  lemma ForgetKills(s: Mundo, t: nat)
    requires Enabled(s, Commit(t)) && s.txs[t].olvidar && s.txs[t].previa.Some? && s.txs[t].nueva.fila.estado == ACTIVA
    requires s.txs[t].previa.value.fila.id in s.tokens
    ensures var id := s.txs[t].previa.value.fila.id;
            s.now < s.tokens[id].expira ==> exists mas :: DiesEarly(Step(s, Commit(t)), mas, id, s.tokens[id].expira)
  {
    var s1 := Step(s, Commit(t));
    var id := s.txs[t].previa.value.fila.id;
    var mas := [Forget(id, true)];
    var s2 := Step(s1, mas[0]);
    assert mas[1..] == [];
    assert Legal(s2, mas[1..]) && Exec(s2, mas[1..]) == s2;
    assert Exec(s1, mas) == s2;
    if s.now < s.tokens[id].expira { assert DiesEarly(s1, mas, id, s.tokens[id].expira); }
  }

  // --- single use ---------------------------------------------------------------------------------

  lemma {:induction false} TwoAnswersCount(rs: seq<Respuesta>, i: nat, j: nat)
    requires i < j < |rs| && rs[i].jti == rs[j].jti
    requires rs[i].res == Some(R_CONSUMIDA) && rs[j].res == Some(R_CONSUMIDA)
    ensures CountAnswers(rs, rs[i].jti, true) >= 2
    decreases |rs|
  {
    var p := rs[..|rs| - 1];
    if j < |p| {
      TwoAnswersCount(p, i, j);
    } else {
      OneAnswerCounts(p, i);
    }
  }

  lemma {:induction false} OneAnswerCounts(rs: seq<Respuesta>, i: nat)
    requires i < |rs| && rs[i].res == Some(R_CONSUMIDA)
    ensures CountAnswers(rs, rs[i].jti, true) >= 1
    decreases |rs|
  {
    if i < |rs| - 1 { OneAnswerCounts(rs[..|rs| - 1], i); }
  }

  /** However many calls of `consume` run, at most one is answered CONSUMIDA per credential. */
  lemma SingleUse(s0: Mundo, es: seq<Evento>, i: nat, j: nat)
    requires Inicial(s0) && Legal(s0, es)
    requires i < j < |Exec(s0, es).respuestas| && Exec(s0, es).respuestas[i].jti == Exec(s0, es).respuestas[j].jti
    ensures var rs := Exec(s0, es).respuestas; !(rs[i].res == Some(R_CONSUMIDA) && rs[j].res == Some(R_CONSUMIDA))
  {
    Reached(s0, es);
    var s := Exec(s0, es);
    var jti := s.respuestas[i].jti;
    assert AccountedFor(s.db, s.respuestas, jti);
    if jti in s.db {
      assert RowOk(s, jti);
      ReplayBounds(s.db[jti].historial, s.db[jti].fila.estado, CONSUMIDA);
    }
    if s.respuestas[i].res == Some(R_CONSUMIDA) && s.respuestas[j].res == Some(R_CONSUMIDA) {
      TwoAnswersCount(s.respuestas, i, j);
    }
  }

  /** An answer is never a missing dictionary key; it named the committed state when it was given
      and still does at every later point of the run; and the calls that found a credential are
      exactly the CONSUMIDA rows of its history, accepted ones being those answered CONSUMIDA. */
  lemma AnswersStayTrue(s0: Mundo, es: seq<Evento>, mas: seq<Evento>, i: nat)
    requires Inicial(s0) && Legal(s0, es) && Legal(Exec(s0, es), mas)
    requires i < |Exec(s0, es).respuestas|
    ensures var a := Exec(s0, es).respuestas[i]; var z := Exec(Exec(s0, es), mas);
            && a.res.Some?
            && (a.res.value != R_NO_ENCONTRADA ==>
                  && a.jti in z.db && Nombra(a.res.value) == Some(z.db[a.jti].fila.estado)
                  && forall solo :: CountRows(z.db[a.jti].historial, Some(CONSUMIDA), solo) ==
                       CountAnswers(z.respuestas, a.jti, solo))
  {
    Reached(s0, es);
    var s := Exec(s0, es);
    RunContinues(s, mas);
    RunInv(s, mas);
    var a := s.respuestas[i];
    assert Exec(s, mas).respuestas[i] == a;
    assert AnswerTrue(Exec(s, mas).db, a);
    assert AccountedFor(Exec(s, mas).db, Exec(s, mas).respuestas, a.jti);
  }

  // --- expiry by sweep and by lazy refresh ----------------------------------------------------------

  ghost predicate OnlyExpires(e: Evento, t: Instant) {
    (e.Detail? || e.Sweep?) && e.leido == t
  }

  function ExpireAll(db: Tabla, t: Instant): Tabla {
    map id | id in db :: Refresca(db[id], t)
  }

  /** Every row is as it was or as one refresh at `t` leaves it. */
  ghost predicate PartlyExpired(db: Tabla, db': Tabla, t: Instant) {
    db'.Keys == db.Keys && forall id :: id in db ==> db'[id] == db[id] || db'[id] == Refresca(db[id], t)
  }

  lemma RefrescaTwice(r: Registro, t: Instant)
    ensures Refresca(Refresca(r, t), t) == Refresca(r, t) && !PastDue(Refresca(r, t), t)
  {
    if PastDue(r, t) { assert CanTransitionTo(r.fila.estado, EXPIRADA); }
  }

  lemma ExpiryStep(db: Tabla, s: Mundo, e: Evento, id: Uuid)
    requires id in db && PartlyExpired(db, s.db, s.now) && Enabled(s, e) && OnlyExpires(e, s.now)
    ensures Step(s, e).now == s.now && Step(s, e).db.Keys == db.Keys
    ensures Step(s, e).db[id] in {db[id], Refresca(db[id], s.now)}
  {
    RefrescaTwice(db[id], s.now);
    if e.Sweep? && id in e.ids { assert Expira(s.db[id], s.now) == Refresca(s.db[id], s.now); }
  }

  lemma {:induction false} ExpiryRun(s: Mundo, es: seq<Evento>, db: Tabla)
    requires Legal(s, es) && PartlyExpired(db, s.db, s.now)
    requires forall i :: 0 <= i < |es| ==> OnlyExpires(es[i], s.now)
    ensures PartlyExpired(db, Exec(s, es).db, s.now) && Exec(s, es).now == s.now
    decreases |es|
  {
    if es != [] {
      assert OnlyExpires(es[0], s.now);
      assert Step(s, es[0]).now == s.now && Step(s, es[0]).db.Keys == db.Keys;
      forall id | id in db ensures Step(s, es[0]).db[id] in {db[id], Refresca(db[id], s.now)} {
        ExpiryStep(db, s, es[0], id);
      }
      ExpiryRun(Step(s, es[0]), es[1..], db);
    }
  }

  /** Sweeps and lazy refreshes at one instant, in any order and number, end in the same table
      once nothing is past due: every due row expired once, all others untouched. */
  lemma ExpiryIsConfluent(s0: Mundo, antes: seq<Evento>, es: seq<Evento>)
    requires Inicial(s0) && Legal(s0, antes) && Legal(Exec(s0, antes), es)
    requires forall i :: 0 <= i < |es| ==> OnlyExpires(es[i], Exec(s0, antes).now)
    ensures var s := Exec(s0, antes); var z := Exec(s, es);
            (forall id :: id in z.db ==> !PastDue(z.db[id], s.now)) ==> z.db == ExpireAll(s.db, s.now)
  {
    Reached(s0, antes);
    var s := Exec(s0, antes);
    ExpiryRun(s, es, s.db);
  }

  lemma SweepClears(db: Tabla, t: Instant, ids: set<Uuid>)
    requires ids <= Vencidas(db, {}, t)
    ensures Vencidas(SweepTx(db, t, ids), {}, t) == Vencidas(db, {}, t) - ids
  {
    forall id | id in ids ensures !PastDue(SweepTx(db, t, ids)[id], t) {
      RefrescaTwice(db[id], t);
    }
  }

  /** A sweep that meets no lock removes min(limit, size) from what is past due and adds nothing. */
  lemma SweepShrinks(db: Tabla, t: Instant, limite: nat, ids: set<Uuid>)
    requires SweepSelects(db, {}, t, limite, ids)
    ensures Vencidas(SweepTx(db, t, ids), {}, t) == Vencidas(db, {}, t) - ids
    ensures |Vencidas(SweepTx(db, t, ids), {}, t)| == |Vencidas(db, {}, t)| - Min(limite, |Vencidas(db, {}, t)|)
  {
    SweepClears(db, t, ids);
    SubsetSize(ids, Vencidas(db, {}, t));
  }

  /** The tables between successive uncontended sweeps with clock reading `t`. */
  ghost predicate Sweeps(dbs: seq<Tabla>, t: Instant, limite: nat) {
    forall k :: 0 <= k < |dbs| - 1 ==> SweepLeads(dbs[k], dbs[k + 1], t, limite)
  }

  ghost predicate SweepLeads(db: Tabla, db': Tabla, t: Instant, limite: nat) {
    exists ids :: SweepSelects(db, {}, t, limite, ids) && db' == SweepTx(db, t, ids)
  }

  lemma SweepKeepsExpiring(db: Tabla, previa: Tabla, t: Instant, ids: set<Uuid>)
    requires PartlyExpired(db, previa, t) && ids <= Vencidas(previa, {}, t)
    ensures PartlyExpired(db, SweepTx(previa, t, ids), t)
  {
    forall id | id in db ensures SweepTx(previa, t, ids)[id] in {db[id], Refresca(db[id], t)} {
      RefrescaTwice(db[id], t);
    }
  }

  /** Whatever ties each sweep breaks, k of them leave size - k * limit rows past due, and as soon as
      that is nothing the table is the one in which every due row has expired once. */
  lemma {:induction false} SweepsDrain(dbs: seq<Tabla>, t: Instant, limite: nat, k: nat)
    requires Sweeps(dbs, t, limite) && k < |dbs|
    ensures |Vencidas(dbs[k], {}, t)| == Max(|Vencidas(dbs[0], {}, t)| - k * limite, 0)
    ensures PartlyExpired(dbs[0], dbs[k], t)
    ensures k * limite >= |Vencidas(dbs[0], {}, t)| ==> dbs[k] == ExpireAll(dbs[0], t)
    decreases k
  {
    if k > 0 {
      SweepsDrain(dbs, t, limite, k - 1);
      assert SweepLeads(dbs[k - 1], dbs[k - 1 + 1], t, limite);
      var ids :| SweepSelects(dbs[k - 1], {}, t, limite, ids) && dbs[k] == SweepTx(dbs[k - 1], t, ids);
      SweepShrinks(dbs[k - 1], t, limite, ids);
      SweepKeepsExpiring(dbs[0], dbs[k - 1], t, ids);
      assert k * limite == (k - 1) * limite + limite;
    }
    if k * limite >= |Vencidas(dbs[0], {}, t)| { NothingDue(dbs[0], dbs[k], t); }
  }

  lemma NothingDue(db: Tabla, db': Tabla, t: Instant)
    requires PartlyExpired(db, db', t) && Vencidas(db', {}, t) == {}
    ensures db' == ExpireAll(db, t)
  {
    forall id | id in db ensures db'[id] == Refresca(db[id], t) {
      assert id !in Vencidas(db', {}, t);
    }
  }
}
