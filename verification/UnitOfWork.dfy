/** The in-memory unit of work, whose repositories hand out the passenger objects themselves: what a
    caller mutates is the working copy, and the committed state changes only at commit. */
module UnitOfWork {
  import opened Base
  import opened Passengers
  import opened Verification
  import opened Credentials

  /** The Pasajero aggregate, mutated in place by the services. */
  class Agregado {
    const id: Uuid
    const cuenta: string
    const documento: Documento
    var estado: EstadoPasajero
    var intentosFallidos: nat

    function Fila(): Pasajero
      reads this
    {
      Pasajero(id, cuenta, documento, estado, intentosFallidos)
    }

    constructor (p: Pasajero)
      ensures Fila() == p
    {
      id, cuenta, documento := p.id, p.cuenta, p.documento;
      estado, intentosFallidos := p.estado, p.intentosFallidos;
    }

    /** False stands for EstadoNoPermiteVerificacion. */
    method Apply(resultado: ResultadoIntento) returns (ok: bool)
      modifies this
      ensures ok == (old(estado) == PENDIENTE_VERIFICACION)
      ensures Fila() == if ok then ApplyOutcome(old(Fila()), resultado) else old(Fila())
    {
      if estado != PENDIENTE_VERIFICACION {
        return false;
      }
      if resultado == EXITOSO {
        estado := VERIFICADO;
      } else if resultado == FALLIDO {
        intentosFallidos := intentosFallidos + 1;
        if intentosFallidos >= MAX_INTENTOS_FALLIDOS {
          estado := REQUIERE_REVISION_MANUAL;
        }
      }
      ok := true;
    }
  }

  /** The credentials and their histories. */
  datatype Credenciales = Credenciales(filas: map<Uuid, Credencial>, historiales: map<Uuid, seq<Transicion>>)

  /** All six tables as values. */
  datatype Contenido = Contenido(estado: Estado, credenciales: Credenciales)

  const VACIO := Contenido(INICIAL, Credenciales(map[], map[]))

  ghost function FilasDe(m: map<Uuid, Agregado>): map<Uuid, Pasajero>
    reads m.Values
  {
    map id | id in m :: m[id].Fila()
  }

  ghost function PasesDe(m: map<Uuid, CredencialAcceso>): map<Uuid, Credencial>
    reads m.Values
  {
    map id | id in m :: m[id].Fila()
  }

  class InMemoryState {
    var pasajeros: map<Uuid, Agregado>
    var intentos: seq<Intento>
    var identidades: map<Uuid, Identidad>
    var outbox: map<Uuid, Evento>
    var credenciales: map<Uuid, CredencialAcceso>
    var historiales: map<Uuid, seq<Transicion>>

    constructor ()
      ensures pasajeros == map[] && credenciales == map[] && Valid() && Todo() == VACIO
    {
      pasajeros, intentos, identidades, outbox := map[], [], map[], map[];
      credenciales, historiales := map[], map[];
    }

    constructor Of(pasajeros: map<Uuid, Agregado>, intentos: seq<Intento>, identidades: map<Uuid, Identidad>,
                   outbox: map<Uuid, Evento>, credenciales: map<Uuid, CredencialAcceso>,
                   historiales: map<Uuid, seq<Transicion>>)
      ensures this.pasajeros == pasajeros && this.intentos == intentos
      ensures this.identidades == identidades && this.outbox == outbox
      ensures this.credenciales == credenciales && this.historiales == historiales
    {
      this.pasajeros, this.intentos, this.identidades, this.outbox := pasajeros, intentos, identidades, outbox;
      this.credenciales, this.historiales := credenciales, historiales;
    }

    ghost function Objetos(): set<Agregado>
      reads this`pasajeros
    {
      pasajeros.Values
    }

    ghost function Guardadas(): set<CredencialAcceso>
      reads this`credenciales
    {
      credenciales.Values
    }

    /** A stored credential has no transitions pending: they are in its history. */
    ghost predicate Valid()
      reads this, credenciales.Values
    {
      && (forall id :: id in pasajeros ==> pasajeros[id].id == id)
      && (forall id :: id in credenciales ==> credenciales[id].id == id && credenciales[id].pendingTransitions == [])
    }

    /** The tables of registration and verification as values. */
    ghost function Value(): Estado
      reads this`pasajeros, this`intentos, this`identidades, this`outbox, pasajeros.Values
    {
      Estado(FilasDe(pasajeros), intentos, identidades, outbox)
    }

    ghost function Pases(): Credenciales
      reads this`credenciales, this`historiales, credenciales.Values
    {
      Credenciales(PasesDe(credenciales), historiales)
    }

    ghost function Todo(): Contenido
      reads this, pasajeros.Values, credenciales.Values
    {
      Contenido(Value(), Pases())
    }

    method DeepCopy() returns (c: InMemoryState)
      requires Valid()
      ensures fresh(c) && fresh(c.Objetos()) && fresh(c.Guardadas()) && c.Valid() && c.Todo() == Todo()
    {
      var copias := CopyPassengers();
      var pases := CopyCredentials();
      c := new InMemoryState.Of(copias, intentos, identidades, outbox, pases, historiales);
    }

    /** Becomes equal to `o` without sharing anything mutable with it. */
    method ReplaceWith(o: InMemoryState)
      requires o != this && o.Valid()
      modifies this
      ensures Valid() && fresh(Objetos()) && fresh(Guardadas())
      ensures Todo() == old(o.Todo())
    {
      var c := o.DeepCopy();
      Adopt(c);
    }

    /** Takes over the tables of `c`, which is given up. */
    method Adopt(c: InMemoryState)
      requires c != this && c.Valid()
      modifies this
      ensures Valid() && Objetos() == c.Objetos() && Guardadas() == c.Guardadas() && Todo() == old(c.Todo())
    {
      ghost var filas, pases := FilasDe(c.pasajeros), PasesDe(c.credenciales);
      pasajeros, intentos, identidades, outbox := c.pasajeros, c.intentos, c.identidades, c.outbox;
      credenciales, historiales := c.credenciales, c.historiales;
      assert FilasDe(pasajeros) == filas && PasesDe(credenciales) == pases;
    }

    method CopyPassengers() returns (m: map<Uuid, Agregado>)
      requires Valid()
      ensures fresh(m.Values) && FilasDe(m) == FilasDe(pasajeros)
      ensures forall id :: id in m ==> m[id].id == id
    {
      m := map[];
      var ids := pasajeros.Keys;
      while ids != {}
        invariant ids <= pasajeros.Keys && m.Keys == pasajeros.Keys - ids
        invariant forall id :: id in m ==> fresh(m[id]) && m[id].Fila() == pasajeros[id].Fila()
        decreases |ids|
      {
        var id :| id in ids;
        var p := new Agregado(pasajeros[id].Fila());
        m := m[id := p];
        ids := ids - {id};
      }
    }

    method CopyCredentials() returns (m: map<Uuid, CredencialAcceso>)
      requires Valid()
      ensures fresh(m.Values) && PasesDe(m) == PasesDe(credenciales)
      ensures forall id :: id in m ==> m[id].id == id && m[id].pendingTransitions == []
    {
      m := map[];
      var ids := credenciales.Keys;
      while ids != {}
        invariant ids <= credenciales.Keys && m.Keys == credenciales.Keys - ids
        invariant forall id :: id in m ==>
                  fresh(m[id]) && m[id].Fila() == credenciales[id].Fila() && m[id].pendingTransitions == []
        decreases |ids|
      {
        var id :| id in ids;
        var c := new CredencialAcceso.Desde(credenciales[id].Fila());
        m := m[id := c];
        ids := ids - {id};
      }
    }

    /** `_store`: the pending rows go to the history, and a copy without them to the table. */
    method StoreCredential(f: Credencial, pendientes: seq<Transicion>)
      requires Valid()
      modifies this`credenciales, this`historiales
      ensures Valid() && fresh(Guardadas() - old(Guardadas()))
      ensures Pases() == Stored(old(Pases()), f, pendientes)
    {
      var previas := if f.id in historiales then historiales[f.id] else [];
      var c := new CredencialAcceso.Desde(f);
      historiales := historiales[f.id := previas + pendientes];
      credenciales := credenciales[f.id := c];
    }

    /** One call of a repository, or one mutation through a reference it handed out. */
    method Apply(op: Op)
      requires Valid()
      modifies this, Objetos()
      ensures Valid() && fresh(Objetos() - old(Objetos())) && fresh(Guardadas() - old(Guardadas()))
      ensures Todo() == ApplyOp(old(Todo()), op)
    {
      if op.GuardaCredencial? {
        StoreCredential(op.f, op.pendientes);
      } else {
        ApplyToRow(op);
      }
    }

    method ApplyToRow(op: Op)
      requires Valid() && !op.GuardaCredencial?
      modifies this`pasajeros, this`intentos, this`identidades, this`outbox, Objetos()
      ensures Valid() && fresh(Objetos() - old(Objetos()))
      ensures Value() == ApplyRow(old(Value()), op)
    {
      match op
      case Registra(p) => Register(p);
      case Muta(id, e, n) => Mutate(id, e, n);
      case AnotaIntento(x) => intentos := intentos + [x];
      case AnotaIdentidad(i) => var ok := AddIdentity(i);
      case AnotaEvento(e) => outbox := outbox[e.id := e];
    }

    method Register(p: Pasajero)
      requires Valid()
      modifies this`pasajeros
      ensures Valid() && fresh(Objetos() - old(Objetos()))
      ensures Value() == ApplyRow(old(Value()), Registra(p))
    {
      var a := new Agregado(p);
      pasajeros := pasajeros[p.id := a];
    }

    method Mutate(id: Uuid, e: EstadoPasajero, n: nat)
      requires Valid()
      modifies Objetos()
      ensures Valid()
      ensures Value() == ApplyRow(old(Value()), Muta(id, e, n))
    {
      if id in pasajeros {
        var alias := pasajeros[id];
        assert alias in Objetos() && forall o :: o in pasajeros && o != id ==> pasajeros[o] != alias;
        alias.estado, alias.intentosFallidos := e, n;
      }
    }

    /** `add` of an identity; false stands for UniqueViolation. */
    method AddIdentity(i: Identidad) returns (ok: bool)
      modifies this`identidades
      ensures ok == !(i.activa && HasActive(old(Value()), i.pasajeroId))
      ensures identidades == if ok then old(identidades)[i.id := i] else old(identidades)
    {
      ghost var v := Value();
      if i.activa {
        var otra := GetActive(i.pasajeroId);
        if otra.Some? {
          assert ActiveFor(v, otra.value, i.pasajeroId);
          return false;
        }
      }
      identidades := identidades[i.id := i];
      ok := true;
    }

    method GetActive(pasajero: Uuid) returns (r: Option<Uuid>)
      ensures r == None <==>
              !exists id :: id in identidades && identidades[id].pasajeroId == pasajero && identidades[id].activa
      ensures r.Some? ==>
                r.value in identidades && identidades[r.value].pasajeroId == pasajero && identidades[r.value].activa
    {
      var ids := identidades.Keys;
      while ids != {}
        invariant ids <= identidades.Keys
        invariant forall id :: id in identidades && id !in ids ==>
                  !(identidades[id].pasajeroId == pasajero && identidades[id].activa)
        decreases |ids|
      {
        var id :| id in ids;
        if identidades[id].pasajeroId == pasajero && identidades[id].activa {
          return Some(id);
        }
        ids := ids - {id};
      }
      r := None;
    }
  }

  function Stored(v: Credenciales, f: Credencial, pendientes: seq<Transicion>): Credenciales {
    var previas := if f.id in v.historiales then v.historiales[f.id] else [];
    Credenciales(v.filas[f.id := f], v.historiales[f.id := previas + pendientes])
  }

  /** What a transaction can do to its working state; Muta writes through a reference obtained from
      the repository, without saving it. */
  datatype Op =
    | Registra(p: Pasajero)
    | Muta(id: Uuid, estado: EstadoPasajero, intentosFallidos: nat)
    | AnotaIntento(x: Intento)
    | AnotaIdentidad(i: Identidad)
    | AnotaEvento(e: Evento)
    | GuardaCredencial(f: Credencial, pendientes: seq<Transicion>)

  ghost function ApplyOp(t: Contenido, op: Op): Contenido {
    if op.GuardaCredencial? then t.(credenciales := Stored(t.credenciales, op.f, op.pendientes))
    else t.(estado := ApplyRow(t.estado, op))
  }

  ghost function ApplyRow(v: Estado, op: Op): Estado {
    match op
    case Registra(p) => v.(pasajeros := v.pasajeros[p.id := p])
    case Muta(id, e, n) =>
      if id !in v.pasajeros then v
      else v.(pasajeros := v.pasajeros[id := v.pasajeros[id].(estado := e, intentosFallidos := n)])
    case AnotaIntento(x) => v.(intentos := v.intentos + [x])
    case AnotaIdentidad(i) =>
      if i.activa && HasActive(v, i.pasajeroId) then v else v.(identidades := v.identidades[i.id := i])
    case AnotaEvento(e) => v.(outbox := v.outbox[e.id := e])
    case GuardaCredencial(_, _) => v
  }

  ghost function ApplyOps(t: Contenido, ops: seq<Op>): Contenido
    decreases |ops|
  {
    if ops == [] then t else ApplyOp(ApplyOps(t, ops[..|ops| - 1]), ops[|ops| - 1])
  }

  /** `m'` reads `x` at `k` and is otherwise as `m` was. */
  predicate OnlyAt<V(==)>(m: map<Uuid, V>, m': map<Uuid, V>, k: Uuid, x: V) {
    m'.Keys == m.Keys + {k} && m'[k] == x && forall o :: o in m && o != k ==> m'[o] == m[o]
  }

  /** Each write is read back, and nothing else changed; an identity is refused if one is active. */
  lemma WritesReadBack(t: Contenido, op: Op)
    ensures var v := t.estado; var v' := ApplyOp(t, op).estado;
            var c := t.credenciales; var c' := ApplyOp(t, op).credenciales;
            && (!op.GuardaCredencial? ==> c' == c)
            && match op
               case Registra(p) => v' == v.(pasajeros := v'.pasajeros) && OnlyAt(v.pasajeros, v'.pasajeros, p.id, p)
               case Muta(id, e, n) =>
                 if id !in v.pasajeros then v' == v
                 else
                   var p := Pasajero(id, v.pasajeros[id].cuenta, v.pasajeros[id].documento, e, n);
                   v' == v.(pasajeros := v'.pasajeros) &&
                   (v.pasajeros[id].id == id ==> OnlyAt(v.pasajeros, v'.pasajeros, id, p))
               case AnotaIntento(x) => v' == v.(intentos := v'.intentos) && v'.intentos == v.intentos + [x]
               case AnotaIdentidad(i) =>
                 && v' == v.(identidades := v'.identidades)
                 && if i.activa &&
                      HasActive(v, i.pasajeroId) then v' == v else OnlyAt(v.identidades, v'.identidades, i.id, i)
               case AnotaEvento(e) => v' == v.(outbox := v'.outbox) && OnlyAt(v.outbox, v'.outbox, e.id, e)
               case GuardaCredencial(f, pendientes) =>
                 var h := if f.id in c.historiales then c.historiales[f.id] else [];
                 && v' == v && OnlyAt(c.filas, c'.filas, f.id, f)
                 && OnlyAt(c.historiales, c'.historiales, f.id, h + pendientes)
  {}

  class InMemoryUnitOfWork {
    const committed: InMemoryState
    var working: InMemoryState
    var commits: nat

    /** The two states share no mutable object. */
    ghost predicate Valid()
      reads this, committed, working, committed.credenciales.Values, working.credenciales.Values
    {
      && committed != working && committed.Valid() && working.Valid()
      && committed.Objetos() !! working.Objetos() && committed.Guardadas() !! working.Guardadas()
    }

    constructor ()
      ensures Valid() && fresh(committed) && fresh(working) && commits == 0
      ensures committed.Todo() == VACIO
    {
      committed := new InMemoryState();
      working := new InMemoryState();
      commits := 0;
    }

    /** Entering, leaving and rolling back all start again from a copy of what is committed. */
    method Enter()
      requires Valid()
      modifies this`working
      ensures Valid() && fresh(working) && fresh(working.Objetos()) && fresh(working.Guardadas())
      ensures working.Todo() == committed.Todo() == old(committed.Todo())
    {
      var c := committed.DeepCopy();
      assert committed.Value() == old(committed.Value()) && committed.Pases() == old(committed.Pases());
      assert c.Objetos() !! committed.Objetos() && c.Guardadas() !! committed.Guardadas() && committed.Valid();
      ghost var t := c.Todo();
      working := c;
      assert working.Todo() == t && working.Valid() && committed.Valid();
    }

    method Commit()
      requires Valid()
      modifies committed, this`commits
      ensures Valid() && fresh(committed.Objetos()) && fresh(committed.Guardadas()) && commits == old(commits) + 1
      ensures committed.Todo() == old(working.Todo()) == working.Todo()
    {
      committed.ReplaceWith(working);
      assert working.Value() == old(working.Value()) && working.Pases() == old(working.Pases());
      assert working.Valid() && working.Objetos() == old(working.Objetos()) &&
        working.Guardadas() == old(working.Guardadas());
      commits := commits + 1;
    }

    method Do(op: Op)
      requires Valid()
      modifies working, working.Objetos()
      ensures Valid() && fresh(working.Objetos() - old(working.Objetos())) &&
              fresh(working.Guardadas() - old(working.Guardadas()))
      ensures working.Todo() == ApplyOp(old(working.Todo()), op)
      ensures committed.Todo() == old(committed.Todo())
    {
      working.Apply(op);
      assert forall id :: id in committed.pasajeros ==> committed.pasajeros[id] in committed.Objetos();
    }

    /** Whatever a transaction does, nothing committed changes. */
    method Run(ops: seq<Op>)
      requires Valid()
      modifies working, working.Objetos()
      ensures Valid() && fresh(working.Objetos() - old(working.Objetos())) &&
              fresh(working.Guardadas() - old(working.Guardadas()))
      ensures working.Todo() == ApplyOps(old(working.Todo()), ops)
      ensures committed.Todo() == old(committed.Todo())
    {
      ghost var v := working.Todo();
      for k := 0 to |ops|
        invariant Valid() && fresh(working.Objetos() - old(working.Objetos())) &&
                  fresh(working.Guardadas() - old(working.Guardadas()))
        invariant working.Todo() == ApplyOps(v, ops[..k])
        invariant committed.Todo() == old(committed.Todo())
      {
        Do(ops[k]);
        assert ops[..k + 1][..k] == ops[..k];
      }
      assert ops[..|ops|] == ops;
    }

    /** A whole business transaction: with a commit the committed state becomes what was done up to
        it, and nothing done through old references afterwards reaches it; without one, nothing. */
    method Session(ops: seq<Op>, commit: bool, luego: seq<Op>)
      requires Valid()
      modifies this, committed
      ensures Valid() && working.Todo() == committed.Todo()
      ensures committed.Todo() == if commit then ApplyOps(old(committed.Todo()), ops) else old(committed.Todo())
      ensures commits == old(commits) + if commit then 1 else 0
    {
      Enter();
      Run(ops);
      if commit {
        Commit();
      }
      Run(luego);
      Enter();
    }
  }

  /** A recorded attempt, followed by what its success creates, is the specified transaction. */
  lemma TransactionDone(v: Estado, s: Selfie, umbrales: Thresholds, v': Estado, salida: Salida, identidad: Option<Uuid>)
    requires s.pasajeroId in v.pasajeros && v.pasajeros[s.pasajeroId].estado == PENDIENTE_VERIFICACION
    requires var w := WithAttempt(v, s, umbrales);
             if EvaluateOutcome(s.result, umbrales).0 != EXITOSO then v' == w && identidad == None
             else if HasActive(w, s.pasajeroId) then
               && v' == w && identidad.Some?
               && identidad.value in w.identidades && ActiveFor(w, identidad.value, s.pasajeroId)
             else v' == WithIdentity(w, s) && identidad == Some(s.identidadId)
    requires salida ==
             Registrado(EvaluateOutcome(s.result, umbrales).0, EstadoFinal(v'.pasajeros[s.pasajeroId]), identidad)
    ensures Transaction(v, s, umbrales, v', salida)
  {
    var w := WithAttempt(v, s, umbrales);
    if HasActive(w, s.pasajeroId) {
      var id :| id in w.identidades && ActiveFor(w, id, s.pasajeroId);
      assert ActiveFor(v, id, s.pasajeroId);
    }
    if HasActive(v, s.pasajeroId) {
      var id :| id in v.identidades && ActiveFor(v, id, s.pasajeroId);
      assert ActiveFor(w, id, s.pasajeroId);
    }
    if identidad.Some? && HasActive(w, s.pasajeroId) { assert ActiveFor(v, identidad.value, s.pasajeroId); }
  }

  class IdentityVerificationFacade {
    const uow: InMemoryUnitOfWork
    const umbrales: Thresholds

    constructor (uow: InMemoryUnitOfWork, umbrales: Thresholds)
      ensures this.uow == uow && this.umbrales == umbrales
    {
      this.uow, this.umbrales := uow, umbrales;
    }

    /** The transaction of `verify_and_create_identity`, once the biometric result is known. */
    method Verify(s: Selfie) returns (salida: Salida)
      requires uow.Valid()
      modifies uow, uow.committed
      ensures uow.Valid() && Transaction(old(uow.committed.Value()), s, umbrales, uow.committed.Value(), salida)
      ensures uow.committed.Pases() == old(uow.committed.Pases())
      ensures salida != UniqueViolation
      ensures uow.commits == old(uow.commits) + if salida.Registrado? then 1 else 0
    {
      uow.Enter();
      salida := Conclude(s);
    }

    /** What follows the start of the unit of work. */
    method Conclude(s: Selfie) returns (salida: Salida)
      requires uow.Valid() && uow.working.Todo() == uow.committed.Todo()
      modifies uow, uow.committed, uow.working, uow.working.Objetos()
      ensures uow.Valid() && Transaction(old(uow.committed.Value()), s, umbrales, uow.committed.Value(), salida)
      ensures uow.committed.Pases() == old(uow.committed.Pases())
      ensures salida != UniqueViolation
      ensures uow.commits == old(uow.commits) + if salida.Registrado? then 1 else 0
    {
      ghost var v, p := uow.working.Value(), uow.working.Pases();
      salida := InTransaction(uow.working, s);
      ghost var w := uow.working.Value();
      assert Transaction(v, s, umbrales, w, salida);
      Leave(salida.Registrado?);
      assert uow.committed.Value() == w && uow.committed.Pases() == p;
    }

    /** The end of the unit of work, with a commit or without. */
    method Leave(commit: bool)
      requires uow.Valid()
      modifies uow, uow.committed
      ensures uow.Valid() &&
              uow.committed.Todo() == (if commit then old(uow.working.Todo()) else old(uow.committed.Todo()))
      ensures uow.commits == old(uow.commits) + if commit then 1 else 0
    {
      if commit {
        uow.Commit();
      }
      uow.Enter();
    }

    /** What is done to the working state under the passenger's lock. */
    method InTransaction(w: InMemoryState, s: Selfie) returns (salida: Salida)
      requires uow.Valid() && w == uow.working
      modifies w`intentos, w`identidades, w`outbox, w.Objetos()
      ensures uow.Valid() && uow.committed.Todo() == old(uow.committed.Todo()) && w.Pases() == old(w.Pases())
      ensures Transaction(old(w.Value()), s, umbrales, w.Value(), salida)
      ensures salida != UniqueViolation && (!salida.Registrado? ==> w.Value() == old(w.Value()))
    {
      if s.pasajeroId !in w.pasajeros {
        return PasajeroNoRegistrado;
      }
      var locked := w.pasajeros[s.pasajeroId];
      assert locked in w.Objetos();
      if locked.estado != PENDIENTE_VERIFICACION {
        return EstadoNoPermiteVerificacion;
      }
      salida := UnderLock(w, locked, s);
    }

    /** The rest of it, for a passenger that may still be verified. */
    method UnderLock(w: InMemoryState, locked: Agregado, s: Selfie) returns (salida: Salida)
      requires uow.Valid() && w == uow.working && locked.id == s.pasajeroId
      requires locked.id in w.pasajeros && w.pasajeros[locked.id] == locked && locked.estado == PENDIENTE_VERIFICACION
      modifies locked, w`intentos, w`identidades, w`outbox
      ensures uow.Valid() && uow.committed.Todo() == old(uow.committed.Todo()) && w.Pases() == old(w.Pases())
      ensures Transaction(old(w.Value()), s, umbrales, w.Value(), salida) && salida.Registrado?
    {
      ghost var v := w.Value();
      var resultado := RecordAttempt(locked, s);
      var identidad: Option<Uuid> := None;
      if resultado == EXITOSO {
        identidad := CreateIdentity(w, s);
      }
      salida := if resultado == EXITOSO && identidad == None then UniqueViolation
                else Registrado(resultado, EstadoFinal(locked.Fila()), identidad);
      assert locked.Fila() == w.Value().pasajeros[s.pasajeroId];
      TransactionDone(v, s, umbrales, w.Value(), salida, identidad);
    }

    /** `record_attempt`: the attempt is stored and its outcome applied to the locked passenger. */
    method RecordAttempt(locked: Agregado, s: Selfie) returns (resultado: ResultadoIntento)
      requires uow.Valid() && locked.id == s.pasajeroId
      requires locked.id in uow.working.pasajeros && uow.working.pasajeros[locked.id] == locked
      requires locked.estado == PENDIENTE_VERIFICACION
      modifies locked, uow.working`intentos
      ensures uow.Valid() && uow.committed.Todo() == old(uow.committed.Todo())
      ensures uow.working.Value() == WithAttempt(old(uow.working.Value()), s, umbrales) &&
              uow.working.Pases() == old(uow.working.Pases())
      ensures resultado == EvaluateOutcome(s.result, umbrales).0
    {
      ghost var v := uow.working.Value();
      var (r, motivo) := EvaluateOutcome(s.result, umbrales);
      resultado := r;
      ApplyTo(locked, r);
      ghost var t, filas, pases := uow.committed.Todo(), FilasDe(uow.working.pasajeros), uow.working.Pases();
      uow.working.intentos := uow.working.intentos + [Intento(s.intentoId, locked.id, r, motivo)];
      assert uow.committed.Todo() == t && FilasDe(uow.working.pasajeros) == filas && uow.working.Pases() == pases;
      assert uow.working.Value() == WithAttempt(v, s, umbrales);
    }

    /** Mutates the passenger object the repository handed out. */
    method ApplyTo(locked: Agregado, resultado: ResultadoIntento)
      requires uow.Valid() && locked.id in uow.working.pasajeros && uow.working.pasajeros[locked.id] == locked
      requires locked.estado == PENDIENTE_VERIFICACION
      modifies locked
      ensures uow.Valid() && uow.committed.Todo() == old(uow.committed.Todo()) &&
              uow.working.Pases() == old(uow.working.Pases())
      ensures var v := old(uow.working.Value());
              uow.working.Value() ==
                v.(pasajeros := v.pasajeros[locked.id := ApplyOutcome(old(locked.Fila()), resultado)])
    {
      assert locked in uow.working.Objetos();
      assert forall o :: o in uow.working.pasajeros && o != locked.id ==> uow.working.pasajeros[o] != locked;
      assert forall o :: o in uow.committed.pasajeros ==> uow.committed.pasajeros[o] in uow.committed.Objetos();
      var ok := locked.Apply(resultado);
    }

    /** Only the identities and the outbox of the working state change. */
    method CreateIdentity(w: InMemoryState, s: Selfie) returns (r: Option<Uuid>)
      requires uow.Valid() && w == uow.working
      modifies w`identidades, w`outbox
      ensures w.Value() == if HasActive(old(w.Value()), s.pasajeroId) then old(w.Value())
                           else WithIdentity(old(w.Value()), s)
      ensures uow.Valid() && uow.committed.Todo() == old(uow.committed.Todo()) && w.Pases() == old(w.Pases())
      ensures r.Some?
      ensures if HasActive(old(w.Value()), s.pasajeroId)
              then r.value in old(w.identidades) && ActiveFor(old(w.Value()), r.value, s.pasajeroId)
              else r.value == s.identidadId
    {
      r := IdentityService.CreateForSuccess(w, s);
    }
  }

  class IdentityService {
    /** Returns the identity already active, or the one it creates with its event. None, for the
        UniqueViolation of `add`, is never the answer. */
    static method CreateForSuccess(w: InMemoryState, s: Selfie) returns (r: Option<Uuid>)
      modifies w`identidades, w`outbox
      ensures w.Value() == if HasActive(old(w.Value()), s.pasajeroId) then old(w.Value())
                           else WithIdentity(old(w.Value()), s)
      ensures r.Some?
      ensures if HasActive(old(w.Value()), s.pasajeroId)
              then r.value in old(w.identidades) && ActiveFor(old(w.Value()), r.value, s.pasajeroId)
              else r.value == s.identidadId
    {
      ghost var v := w.Value();
      r := w.GetActive(s.pasajeroId);
      if r == None {
        assert !HasActive(v, s.pasajeroId);
        var agregada := w.AddIdentity(Identidad(s.identidadId, s.pasajeroId, s.intentoId, true));
        if agregada {
          w.outbox := w.outbox[s.eventoId := Evento(s.eventoId, s.pasajeroId, s.identidadId, s.intentoId)];
          r := Some(s.identidadId);
        }
      } else {
        assert ActiveFor(v, r.value, s.pasajeroId);
      }
    }
  }
}
