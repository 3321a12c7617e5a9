/** The selfie pipeline: an attempt, its effect on the passenger, and the identity and event a success
    creates, all in one transaction under the passenger's lock. */
module Verification {
  import opened Base
  import opened Passengers

  datatype ResultadoIntento = EXITOSO | FALLIDO | NO_CONCLUYENTE

  datatype MotivoFallo = LIVENESS | COMPARACION

  datatype BiometricResult = BiometricResult(liveness: real, comparacion: real)

  datatype Thresholds = Thresholds(liveness: real, comparacion: real)

  const MAX_INTENTOS_FALLIDOS := 3

  datatype Intento = Intento(id: Uuid, pasajeroId: Uuid, resultado: ResultadoIntento, motivo: Option<MotivoFallo>)

  /** An identity; nothing in the scope of the pipeline revokes one, so `activa` is as created. */
  datatype Identidad = Identidad(id: Uuid, pasajeroId: Uuid, intentoOrigenId: Uuid, activa: bool)

  datatype Evento = Evento(id: Uuid, pasajeroId: Uuid, identidadId: Uuid, intentoId: Uuid)

  /** The tables. */
  datatype Estado = Estado(pasajeros: map<Uuid, Pasajero>, intentos: seq<Intento>, identidades: map<Uuid, Identidad>,
                           outbox: map<Uuid, Evento>)

  function EvaluateOutcome(result: Option<BiometricResult>, umbrales: Thresholds):
    (ResultadoIntento, Option<MotivoFallo>)
  {
    match result
    case None => (NO_CONCLUYENTE, None)
    case Some(r) =>
      if r.liveness < umbrales.liveness then (FALLIDO, Some(LIVENESS))
      else if r.comparacion < umbrales.comparacion then (FALLIDO, Some(COMPARACION))
      else (EXITOSO, None)
  }

  /** `apply_outcome` on a passenger that may still be verified. */
  function ApplyOutcome(p: Pasajero, resultado: ResultadoIntento): Pasajero {
    match resultado
    case EXITOSO => p.(estado := VERIFICADO)
    case FALLIDO =>
      p.(intentosFallidos := p.intentosFallidos + 1,
         estado := if p.intentosFallidos + 1 >= MAX_INTENTOS_FALLIDOS then REQUIERE_REVISION_MANUAL else p.estado)
    case NO_CONCLUYENTE => p
  }

  function EstadoFinal(p: Pasajero): Option<EstadoPasajero> {
    if p.estado == PENDIENTE_VERIFICACION then None else Some(p.estado)
  }

  function IntentosRestantes(p: Pasajero): int {
    if p.estado == REQUIERE_REVISION_MANUAL then 0 else Max(MAX_INTENTOS_FALLIDOS - p.intentosFallidos, 0)
  }

  /** One upload that reached its transaction, with the identifiers it draws. */
  datatype Selfie = Selfie(pasajeroId: Uuid, intentoId: Uuid, identidadId: Uuid, eventoId: Uuid,
                           result: Option<BiometricResult>)

  datatype Salida =
    | PasajeroNoRegistrado
    | EstadoNoPermiteVerificacion
    | UniqueViolation
    | Registrado(resultado: ResultadoIntento, estadoFinal: Option<EstadoPasajero>, identidadId: Option<Uuid>)

  predicate ActiveFor(v: Estado, id: Uuid, pasajero: Uuid)
    requires id in v.identidades
  {
    v.identidades[id].pasajeroId == pasajero && v.identidades[id].activa
  }

  ghost predicate HasActive(v: Estado, pasajero: Uuid) {
    exists id :: id in v.identidades && ActiveFor(v, id, pasajero)
  }

  /** `record_attempt`. */
  function WithAttempt(v: Estado, s: Selfie, umbrales: Thresholds): Estado
    requires s.pasajeroId in v.pasajeros
  {
    var (resultado, motivo) := EvaluateOutcome(s.result, umbrales);
    v.(pasajeros := v.pasajeros[s.pasajeroId := ApplyOutcome(v.pasajeros[s.pasajeroId], resultado)],
       intentos := v.intentos + [Intento(s.intentoId, s.pasajeroId, resultado, motivo)])
  }

  /** What `create_for_success` adds when it finds no active identity. */
  function WithIdentity(v: Estado, s: Selfie): Estado {
    v.(identidades := v.identidades[s.identidadId := Identidad(s.identidadId, s.pasajeroId, s.intentoId, true)],
       outbox := v.outbox[s.eventoId := Evento(s.eventoId, s.pasajeroId, s.identidadId, s.intentoId)])
  }

  /** The locked transaction; a rejection leaves everything as it was. */
  ghost predicate Transaction(v: Estado, s: Selfie, umbrales: Thresholds, v': Estado, salida: Salida) {
    if s.pasajeroId !in v.pasajeros then v' == v && salida == PasajeroNoRegistrado
    else if v.pasajeros[s.pasajeroId].estado != PENDIENTE_VERIFICACION then
      v' == v && salida == EstadoNoPermiteVerificacion
    else
      var resultado := EvaluateOutcome(s.result, umbrales).0;
      var w := WithAttempt(v, s, umbrales);
      var final := EstadoFinal(w.pasajeros[s.pasajeroId]);
      if resultado != EXITOSO then v' == w && salida == Registrado(resultado, final, None)
      else if HasActive(v, s.pasajeroId) then
        && v' == w
        && exists id ::
             id in v.identidades && ActiveFor(v, id, s.pasajeroId) && salida == Registrado(EXITOSO, final, Some(id))
      else v' == WithIdentity(w, s) && salida == Registrado(EXITOSO, final, Some(s.identidadId))
  }

  // --- conservation -------------------------------------------------------------------------

  function CountAttempts(xs: seq<Intento>, pasajero: Uuid, resultado: ResultadoIntento): nat {
    if xs == [] then 0
    else
      var x := xs[|xs| - 1];
      CountAttempts(xs[..|xs| - 1], pasajero, resultado) +
      if x.pasajeroId == pasajero && x.resultado == resultado then 1 else 0
  }

  lemma CountSnoc(xs: seq<Intento>, x: Intento, pasajero: Uuid, resultado: ResultadoIntento)
    ensures CountAttempts(xs + [x], pasajero, resultado) ==
            CountAttempts(xs, pasajero, resultado) +
            if x.pasajeroId == pasajero && x.resultado == resultado then 1 else 0
  {
    assert (xs + [x])[..|xs|] == xs;
  }

  /** Identity `i` and event `e` are the only ones of the passenger, and both name the attempt that
      succeeded. */
  ghost predicate Linked(v: Estado, p: Uuid, i: Uuid, e: Uuid) {
    && i in v.identidades && ActiveFor(v, i, p)
    && e in v.outbox && v.outbox[e] == Evento(e, p, i, v.identidades[i].intentoOrigenId)
    && (exists k :: 0 <= k < |v.intentos| &&
          v.intentos[k] == Intento(v.identidades[i].intentoOrigenId, p, EXITOSO, None))
    && (forall j :: j in v.identidades && v.identidades[j].pasajeroId == p ==> j == i)
    && (forall f :: f in v.outbox && v.outbox[f].pasajeroId == p ==> f == e)
  }

  ghost predicate Unlinked(v: Estado, p: Uuid) {
    && (forall j :: j in v.identidades ==> v.identidades[j].pasajeroId != p)
    && (forall f :: f in v.outbox ==> v.outbox[f].pasajeroId != p)
  }

  ghost predicate ConservedFor(v: Estado, id: Uuid)
    requires id in v.pasajeros
  {
    CountsFor(v, id) &&
      (if v.pasajeros[id].estado == VERIFICADO then exists i, e :: Linked(v, id, i, e) else Unlinked(v, id))
  }

  ghost predicate CountsFor(v: Estado, id: Uuid)
    requires id in v.pasajeros
  {
    var p := v.pasajeros[id];
    && p.id == id
    && p.intentosFallidos == CountAttempts(v.intentos, id, FALLIDO) <= MAX_INTENTOS_FALLIDOS
    && CountAttempts(v.intentos, id, EXITOSO) == (if p.estado == VERIFICADO then 1 else 0)
    && (p.estado == REQUIERE_REVISION_MANUAL <==> p.intentosFallidos == MAX_INTENTOS_FALLIDOS)
  }

  ghost predicate Conserved(v: Estado) {
    && (forall id :: id in v.pasajeros ==> ConservedFor(v, id))
    && (forall k :: 0 <= k < |v.intentos| ==> v.intentos[k].pasajeroId in v.pasajeros)
    && (forall i :: i in v.identidades ==> v.identidades[i].pasajeroId in v.pasajeros)
    && (forall e :: e in v.outbox ==> v.outbox[e].pasajeroId in v.pasajeros)
  }

  ghost predicate Fresh(v: Estado, s: Selfie) {
    s.identidadId !in v.identidades && s.eventoId !in v.outbox
  }

  /** Nothing that concerns passenger `id` differs between v and v'. */
  ghost predicate SameFor(v: Estado, v': Estado, id: Uuid) {
    && id in v.pasajeros && id in v'.pasajeros && v'.pasajeros[id] == v.pasajeros[id]
    && v.intentos <= v'.intentos
    && (forall r :: CountAttempts(v'.intentos, id, r) == CountAttempts(v.intentos, id, r))
    && (forall i :: i in v.identidades ==> i in v'.identidades && v'.identidades[i] == v.identidades[i])
    && (forall i :: i in v'.identidades && v'.identidades[i].pasajeroId == id ==> i in v.identidades)
    && (forall e :: e in v.outbox ==> e in v'.outbox && v'.outbox[e] == v.outbox[e])
    && (forall e :: e in v'.outbox && v'.outbox[e].pasajeroId == id ==> e in v.outbox)
  }

  lemma SameConserved(v: Estado, v': Estado, id: Uuid)
    requires SameFor(v, v', id) && ConservedFor(v, id)
    ensures ConservedFor(v', id)
  {
    if v.pasajeros[id].estado == VERIFICADO {
      var i, e :| Linked(v, id, i, e);
      var k :| 0 <= k < |v.intentos| && v.intentos[k] == Intento(v.identidades[i].intentoOrigenId, id, EXITOSO, None);
      assert v'.intentos[k] == v.intentos[k];
      assert Linked(v', id, i, e);
    }
  }

  /** A transaction on one passenger does not touch what concerns another. */
  lemma OtherSame(v: Estado, s: Selfie, umbrales: Thresholds, v': Estado, salida: Salida, id: Uuid)
    requires Fresh(v, s) && Transaction(v, s, umbrales, v', salida) && id in v.pasajeros && id != s.pasajeroId
    requires s.pasajeroId in v.pasajeros ==> v.pasajeros[s.pasajeroId].id == s.pasajeroId
    ensures SameFor(v, v', id)
  {
    if v'.intentos != v.intentos {
      var x := v'.intentos[|v.intentos|];
      forall r { CountSnoc(v.intentos, x, id, r); }
    }
  }

  lemma AttemptCounts(v: Estado, s: Selfie, umbrales: Thresholds)
    requires s.pasajeroId in v.pasajeros && CountsFor(v, s.pasajeroId) &&
             v.pasajeros[s.pasajeroId].estado == PENDIENTE_VERIFICACION
    ensures CountsFor(WithAttempt(v, s, umbrales), s.pasajeroId)
  {
    var x := WithAttempt(v, s, umbrales).intentos[|v.intentos|];
    CountSnoc(v.intentos, x, s.pasajeroId, FALLIDO);
    CountSnoc(v.intentos, x, s.pasajeroId, EXITOSO);
  }

  lemma OwnConserved(v: Estado, s: Selfie, umbrales: Thresholds, v': Estado, salida: Salida)
    requires Fresh(v, s) && Transaction(v, s, umbrales, v', salida) && s.pasajeroId in v.pasajeros &&
             ConservedFor(v, s.pasajeroId)
    ensures s.pasajeroId in v'.pasajeros && ConservedFor(v', s.pasajeroId)
  {
    var id := s.pasajeroId;
    if v.pasajeros[id].estado == PENDIENTE_VERIFICACION {
      AttemptCounts(v, s, umbrales);
      var w := WithAttempt(v, s, umbrales);
      if EvaluateOutcome(s.result, umbrales).0 == EXITOSO {
        assert v' == WithIdentity(w, s);
        assert v'.intentos[|v.intentos|] == Intento(s.intentoId, id, EXITOSO, None);
        assert Linked(v', id, s.identidadId, s.eventoId);
      }
    }
  }

  lemma TransactionConserves(v: Estado, s: Selfie, umbrales: Thresholds, v': Estado, salida: Salida)
    requires Conserved(v) && Fresh(v, s) && Transaction(v, s, umbrales, v', salida)
    ensures Conserved(v') && v'.pasajeros.Keys == v.pasajeros.Keys
  {
    assert s.pasajeroId in v.pasajeros ==> ConservedFor(v, s.pasajeroId);
    forall id | id in v.pasajeros ensures id in v'.pasajeros && ConservedFor(v', id) {
      assert ConservedFor(v, id);
      if id == s.pasajeroId {
        OwnConserved(v, s, umbrales, v', salida);
      } else {
        OtherSame(v, s, umbrales, v', salida, id);
        SameConserved(v, v', id);
      }
    }
    RowsReferTo(v, s, umbrales, v', salida);
  }

  lemma RowsReferTo(v: Estado, s: Selfie, umbrales: Thresholds, v': Estado, salida: Salida)
    requires Transaction(v, s, umbrales, v', salida) &&
             (s.pasajeroId in v.pasajeros ==> v.pasajeros[s.pasajeroId].id == s.pasajeroId)
    requires forall k :: 0 <= k < |v.intentos| ==> v.intentos[k].pasajeroId in v.pasajeros
    requires forall i :: i in v.identidades ==> v.identidades[i].pasajeroId in v.pasajeros
    requires forall e :: e in v.outbox ==> v.outbox[e].pasajeroId in v.pasajeros
    ensures v'.pasajeros.Keys == v.pasajeros.Keys
    ensures forall k :: 0 <= k < |v'.intentos| ==> v'.intentos[k].pasajeroId in v.pasajeros
    ensures forall i :: i in v'.identidades ==> v'.identidades[i].pasajeroId in v.pasajeros
    ensures forall e :: e in v'.outbox ==> v'.outbox[e].pasajeroId in v.pasajeros
  {}

  // --- every run ------------------------------------------------------------------------------

  /** A registration, or the transaction of an upload and its outcome. */
  datatype Paso = Alta(id: Uuid, cuenta: string, documento: Documento) | Subida(s: Selfie, salida: Salida)

  const INICIAL := Estado(map[], [], map[], map[])

  ghost predicate Leads(v: Estado, p: Paso, umbrales: Thresholds, v': Estado) {
    match p
    case Alta(id, cuenta, documento) =>
      id !in v.pasajeros && v' == v.(pasajeros := v.pasajeros[id := Registrar(id, cuenta, documento)])
    case Subida(s, salida) => Fresh(v, s) && Transaction(v, s, umbrales, v', salida)
  }

  /** The states of a run from empty tables, in which registrations and the transactions of any number
      of overlapping uploads follow one another in the order they got the lock. */
  ghost predicate Run(vs: seq<Estado>, ps: seq<Paso>, umbrales: Thresholds) {
    && |vs| == |ps| + 1 && vs[0] == INICIAL
    && forall k :: 0 <= k < |ps| ==> RunStep(vs, ps, umbrales, k)
  }

  ghost predicate RunStep(vs: seq<Estado>, ps: seq<Paso>, umbrales: Thresholds, k: nat)
    requires |vs| == |ps| + 1 && k < |ps|
  {
    Leads(vs[k], ps[k], umbrales, vs[k + 1])
  }

  /** Nothing in the tables refers to a passenger that is not registered yet. */
  lemma {:induction false} NoAttempts(xs: seq<Intento>, id: Uuid, r: ResultadoIntento)
    requires forall k :: 0 <= k < |xs| ==> xs[k].pasajeroId != id
    ensures CountAttempts(xs, id, r) == 0
    decreases |xs|
  {
    if xs != [] { NoAttempts(xs[..|xs| - 1], id, r); }
  }

  lemma AltaConserves(v: Estado, id: Uuid, cuenta: string, documento: Documento, v': Estado)
    requires Conserved(v) && id !in v.pasajeros
    requires v' == v.(pasajeros := v.pasajeros[id := Registrar(id, cuenta, documento)])
    ensures Conserved(v')
  {
    NoAttempts(v.intentos, id, FALLIDO);
    NoAttempts(v.intentos, id, EXITOSO);
    assert ConservedFor(v', id);
    forall o | o in v.pasajeros ensures ConservedFor(v', o) {
      assert ConservedFor(v, o);
      SameConserved(v, v', o);
    }
  }

  lemma {:induction false} RunConserves(vs: seq<Estado>, ps: seq<Paso>, umbrales: Thresholds, k: nat)
    requires Run(vs, ps, umbrales) && k <= |ps|
    ensures Conserved(vs[k])
  {
    if k > 0 {
      RunConserves(vs, ps, umbrales, k - 1);
      assert RunStep(vs, ps, umbrales, k - 1);
      match ps[k - 1]
      case Alta(id, cuenta, documento) => AltaConserves(vs[k - 1], id, cuenta, documento, vs[k]);
      case Subida(s, salida) => TransactionConserves(vs[k - 1], s, umbrales, vs[k], salida);
    }
  }

  /** The step writes only the passenger it is for, and only while that one is pending. */
  lemma StepWrites(vs: seq<Estado>, ps: seq<Paso>, umbrales: Thresholds, k: nat, id: Uuid)
    requires Run(vs, ps, umbrales) && k < |ps| && id in vs[k].pasajeros
    ensures id in vs[k + 1].pasajeros
    ensures vs[k + 1].pasajeros[id] == vs[k].pasajeros[id] ||
            (ps[k].Subida? && ps[k].s.pasajeroId == id && vs[k].pasajeros[id].estado == PENDIENTE_VERIFICACION)
    ensures ps[k].Subida? && ps[k].s.pasajeroId == id && ps[k].salida.Registrado? ==>
              vs[k].pasajeros[id].estado == PENDIENTE_VERIFICACION &&
                ps[k].salida.estadoFinal == EstadoFinal(vs[k + 1].pasajeros[id])
  {
    RunConserves(vs, ps, umbrales, k);
    assert RunStep(vs, ps, umbrales, k);
    if ps[k].Subida? && ps[k].s.pasajeroId in vs[k].pasajeros { assert ConservedFor(vs[k], ps[k].s.pasajeroId); }
  }

  /** In every state of every run: the failure count is the number of stored failures and at most 3; a
      passenger is verified exactly when it has one successful attempt, and then has exactly one
      identity, naming that attempt, and one event naming both; manual review is exactly 3 failures. */
  lemma PipelineConserves(vs: seq<Estado>, ps: seq<Paso>, umbrales: Thresholds, k: nat, id: Uuid)
    requires Run(vs, ps, umbrales) && k <= |ps| && id in vs[k].pasajeros
    ensures var v := vs[k]; var p := v.pasajeros[id];
            var f := CountAttempts(v.intentos, id, FALLIDO); var x := CountAttempts(v.intentos, id, EXITOSO);
            && p.intentosFallidos == f <= 3 && x <= 1
            && (p.estado == VERIFICADO <==> x == 1)
            && (p.estado == REQUIERE_REVISION_MANUAL <==> f == 3)
            && (p.estado == REQUIERE_REVISION_MANUAL ==> x == 0 && IntentosRestantes(p) == 0)
            && (p.estado == PENDIENTE_VERIFICACION ==> IntentosRestantes(p) == 3 - f > 0)
            && (p.estado == VERIFICADO ==> IntentosRestantes(p) == 3 - f)
            && (p.estado == VERIFICADO <==> exists i, e :: Linked(v, id, i, e))
            && (p.estado != VERIFICADO <==> Unlinked(v, id))
  {
    RunConserves(vs, ps, umbrales, k);
    assert ConservedFor(vs[k], id);
  }

  /** The branch for an identity that already exists is never taken. */
  lemma ExistingIdentityUnreachable(vs: seq<Estado>, ps: seq<Paso>, umbrales: Thresholds, k: nat)
    requires Run(vs, ps, umbrales) && k < |ps| && ps[k].Subida?
    ensures ps[k].salida.Registrado? && ps[k].salida.resultado == EXITOSO ==>
              !HasActive(vs[k], ps[k].s.pasajeroId) && ps[k].salida.identidadId == Some(ps[k].s.identidadId)
  {
    RunConserves(vs, ps, umbrales, k);
    assert RunStep(vs, ps, umbrales, k);
    if ps[k].s.pasajeroId in vs[k].pasajeros { assert ConservedFor(vs[k], ps[k].s.pasajeroId); }
  }

  lemma {:induction false} FinalStays(vs: seq<Estado>, ps: seq<Paso>, umbrales: Thresholds, i: nat, k: nat, id: Uuid)
    requires Run(vs, ps, umbrales) && i <= k <= |ps|
    requires id in vs[i].pasajeros && vs[i].pasajeros[id].estado != PENDIENTE_VERIFICACION
    ensures id in vs[k].pasajeros && vs[k].pasajeros[id] == vs[i].pasajeros[id]
    decreases k
  {
    if i < k {
      FinalStays(vs, ps, umbrales, i, k - 1, id);
      StepWrites(vs, ps, umbrales, k - 1, id);
    }
  }

  /** At most one committed outcome per passenger concludes its verification, and none follows it. */
  lemma ConcludesOnce(vs: seq<Estado>, ps: seq<Paso>, umbrales: Thresholds, i: nat, k: nat)
    requires Run(vs, ps, umbrales) && i < k < |ps| && ps[i].Subida? && ps[k].Subida? &&
             ps[i].s.pasajeroId == ps[k].s.pasajeroId
    ensures !(ps[i].salida.Registrado? && ps[i].salida.estadoFinal.Some? && ps[k].salida.Registrado?)
  {
    var id := ps[i].s.pasajeroId;
    assert RunStep(vs, ps, umbrales, i);
    if id in vs[i].pasajeros {
      StepWrites(vs, ps, umbrales, i, id);
      if ps[i].salida.Registrado? && ps[i].salida.estadoFinal.Some? {
        FinalStays(vs, ps, umbrales, i + 1, k, id);
        StepWrites(vs, ps, umbrales, k, id);
      }
    }
  }

  // --- what the stored attempts say ---------------------------------------------------------------

  predicate Passes(result: Option<BiometricResult>, umbrales: Thresholds) {
    result.Some? && result.value.liveness >= umbrales.liveness && result.value.comparacion >= umbrales.comparacion
  }

  /** The attempt tells truly how its biometric result compares with the thresholds; liveness is
      what is blamed when both fall short. */
  ghost predicate Tells(x: Intento, s: Selfie, umbrales: Thresholds) {
    && x.id == s.intentoId && x.pasajeroId == s.pasajeroId
    && (x.resultado == EXITOSO <==> Passes(s.result, umbrales))
    && (x.resultado == NO_CONCLUYENTE <==> s.result == None)
    && (x.motivo == Some(LIVENESS) <==> s.result.Some? && s.result.value.liveness < umbrales.liveness)
    && (x.motivo.Some? <==> x.resultado == FALLIDO)
  }

  /** Every attempt stored during a run comes from one of its uploads, for the same passenger. */
  lemma {:induction false} EveryAttemptTells(vs: seq<Estado>, ps: seq<Paso>, umbrales: Thresholds, k: nat, n: nat)
    requires Run(vs, ps, umbrales) && k <= |ps| && n < |vs[k].intentos|
    ensures exists j :: 0 <= j < k && ps[j].Subida? && Tells(vs[k].intentos[n], ps[j].s, umbrales)
    decreases k
  {
    if k > 0 {
      assert RunStep(vs, ps, umbrales, k - 1);
      if n < |vs[k - 1].intentos| {
        EveryAttemptTells(vs, ps, umbrales, k - 1, n);
        assert vs[k].intentos[n] == vs[k - 1].intentos[n];
      } else {
        assert Tells(vs[k].intentos[n], ps[k - 1].s, umbrales);
      }
    }
  }

  /** Step `j` recorded an upload of passenger `id` whose biometric result passes both thresholds. */
  ghost predicate PassedAt(ps: seq<Paso>, umbrales: Thresholds, j: nat, id: Uuid)
    requires j < |ps|
  {
    ps[j].Subida? && ps[j].s.pasajeroId == id && ps[j].salida.Registrado? && Passes(ps[j].s.result, umbrales)
  }

  /** A passenger is verified exactly when one of its recorded uploads has passed. */
  lemma {:induction false} VerifiedIffPassed(vs: seq<Estado>, ps: seq<Paso>, umbrales: Thresholds, k: nat, id: Uuid)
    requires Run(vs, ps, umbrales) && k <= |ps|
    ensures Verified(vs[k], id) <==> exists j :: 0 <= j < k && PassedAt(ps, umbrales, j, id)
    decreases k
  {
    if k > 0 {
      VerifiedIffPassed(vs, ps, umbrales, k - 1, id);
      if id in vs[k - 1].pasajeros { StepWrites(vs, ps, umbrales, k - 1, id); }
      VerifiedStep(vs, ps, umbrales, k - 1, id);
    }
  }

  lemma VerifiedStep(vs: seq<Estado>, ps: seq<Paso>, umbrales: Thresholds, k: nat, id: Uuid)
    requires Run(vs, ps, umbrales) && k < |ps|
    requires id in vs[k].pasajeros ==>
               id in vs[k + 1].pasajeros &&
                 (vs[k + 1].pasajeros[id] == vs[k].pasajeros[id] || (ps[k].Subida? && ps[k].s.pasajeroId == id))
    ensures Verified(vs[k + 1], id) <==> Verified(vs[k], id) || PassedAt(ps, umbrales, k, id)
  {
    assert RunStep(vs, ps, umbrales, k);
  }

  predicate Verified(v: Estado, id: Uuid) {
    id in v.pasajeros && v.pasajeros[id].estado == VERIFICADO
  }

  /** What the caller of step `k` is told, in terms of the biometric result and of the stored attempts:
      who may not be verified and why not; and else the result, the state the passenger ends in if that
      is final, and the identity that a success created. */
  lemma AnswersTell(vs: seq<Estado>, ps: seq<Paso>, umbrales: Thresholds, k: nat)
    requires Run(vs, ps, umbrales) && k < |ps| && ps[k].Subida?
    ensures var s := ps[k].s; var id := s.pasajeroId; var r := ps[k].salida; var v := vs[k]; var v' := vs[k + 1];
            && (r == PasajeroNoRegistrado <==> id !in v.pasajeros)
            && (r == EstadoNoPermiteVerificacion <==>
                  id in v.pasajeros && v.pasajeros[id].estado != PENDIENTE_VERIFICACION)
            && (r.Registrado? <==> id in v.pasajeros && v.pasajeros[id].estado == PENDIENTE_VERIFICACION)
            && (!r.Registrado? ==> v' == v)
            && (r.Registrado? ==>
                  && (r.resultado == EXITOSO <==> Passes(s.result, umbrales))
                  && (r.resultado == NO_CONCLUYENTE <==> s.result == None)
                  && r.estadoFinal == (if Passes(s.result, umbrales) then Some(VERIFICADO)
                                       else if CountAttempts(v'.intentos, id, FALLIDO) == 3
                                       then Some(REQUIERE_REVISION_MANUAL) else None)
                  && r.identidadId == (if Passes(s.result, umbrales) then Some(s.identidadId) else None)
                  && |v'.intentos| == |v.intentos| + 1 && Tells(v'.intentos[|v.intentos|], s, umbrales))
  {
    var id := ps[k].s.pasajeroId;
    RunConserves(vs, ps, umbrales, k);
    RunConserves(vs, ps, umbrales, k + 1);
    assert RunStep(vs, ps, umbrales, k);
    if id in vs[k].pasajeros {
      assert ConservedFor(vs[k], id) && ConservedFor(vs[k + 1], id);
    }
  }
}
