/** Document registration: an optimistic check, an upload outside any transaction, an insert that can
    lose a race, and the answer given to the loser. */
module Registration {
  import opened Base
  import opened Passengers

  type Tabla = map<Uuid, Pasajero>

  datatype Respuesta =
    | Creado(id: Uuid)
    | Existente(id: Uuid)
    | CuentaYaRegistrada
    | DocumentoYaRegistrado
    | AlmacenamientoNoDisponible

  ghost predicate HasAccount(db: Tabla, cuenta: string) {
    exists id :: id in db && db[id].cuenta == cuenta
  }

  ghost predicate HasDocument(db: Tabla, doc: Documento) {
    exists id :: id in db && db[id].documento == doc
  }

  /** One passenger per account and per document. */
  ghost predicate Unique(db: Tabla) {
    && (forall id :: id in db ==> db[id].id == id)
    && (forall a, b :: a in db && b in db && a != b ==>
          db[a].cuenta != db[b].cuenta && db[a].documento != db[b].documento)
  }

  /** The insert of any request: it takes effect unless it breaks uniqueness. */
  ghost function TryAdd(db: Tabla, p: Pasajero): Tabla {
    if p.id in db || HasAccount(db, p.cuenta) || HasDocument(db, p.documento) then db else db[p.id := p]
  }

  ghost function Others(db: Tabla, ps: seq<Pasajero>): Tabla
    decreases |ps|
  {
    if ps == [] then db else TryAdd(Others(db, ps[..|ps| - 1]), ps[|ps| - 1])
  }

  lemma {:induction false} OthersSplit(db: Tabla, ps: seq<Pasajero>, qs: seq<Pasajero>)
    ensures Others(db, ps + qs) == Others(Others(db, ps), qs)
    decreases |qs|
  {
    if qs == [] {
      assert ps + qs == ps;
    } else {
      assert (ps + qs)[..|ps + qs| - 1] == ps + qs[..|qs| - 1];
      OthersSplit(db, ps, qs[..|qs| - 1]);
    }
  }

  /** Whatever others insert, passengers never disappear or change, and uniqueness stays. */
  lemma {:induction false} OthersKeep(db: Tabla, ps: seq<Pasajero>)
    ensures forall id :: id in db ==> id in Others(db, ps) && Others(db, ps)[id] == db[id]
    ensures forall id :: id in Others(db, ps) && id !in db ==> exists k :: 0 <= k < |ps| && ps[k].id == id
    ensures Unique(db) ==> Unique(Others(db, ps))
    decreases |ps|
  {
    if ps != [] {
      OthersKeep(db, ps[..|ps| - 1]);
      assert ps[|ps| - 1] in ps;
    }
  }

  /** `r` is the answer of a register that ran at once on `db` and left `db'`. A failed upload leaves
      the table alone and can only happen to a request that would have created a passenger. */
  ghost predicate AtomicRegister(db: Tabla, db': Tabla, cuenta: string, doc: Documento, nuevo: Uuid, r: Respuesta) {
    match r
    case Existente(id) => db' == db && id in db && db[id].cuenta == cuenta && db[id].documento == doc
    case CuentaYaRegistrada => db' == db && exists id :: id in db && db[id].cuenta == cuenta && db[id].documento != doc
    case DocumentoYaRegistrado => db' == db && !HasAccount(db, cuenta) && HasDocument(db, doc)
    case AlmacenamientoNoDisponible => db' == db && !HasAccount(db, cuenta) && !HasDocument(db, doc)
    case Creado(id) =>
      id == nuevo && !HasAccount(db, cuenta) && !HasDocument(db, doc) &&
        db' == db[nuevo := Registrar(nuevo, cuenta, doc)]
  }

  /** An atomic register has one answer, save for whether the upload worked. */
  lemma AtomicRegisterDecides(db: Tabla, d1: Tabla, d2: Tabla, cuenta: string, doc: Documento, nuevo: Uuid,
                              r1: Respuesta, r2: Respuesta)
    requires Unique(db) && AtomicRegister(db, d1, cuenta, doc, nuevo, r1) &&
             AtomicRegister(db, d2, cuenta, doc, nuevo, r2)
    ensures r1 == r2 || {r1, r2} == {Creado(nuevo), AlmacenamientoNoDisponible}
  {}

  // --- the two reads of the first transaction --------------------------------------------------

  /** The answer of the optimistic check, if it gives one, when the account is looked up in db1 and
      the document in db2, as happens when each statement reads what is committed at that moment. */
  ghost predicate SplitRead(db1: Tabla, db2: Tabla, cuenta: string, doc: Documento, r: Respuesta) {
    match r
    case Existente(id) => id in db1 && db1[id].cuenta == cuenta && db1[id].documento == doc
    case CuentaYaRegistrada => exists id :: id in db1 && db1[id].cuenta == cuenta && db1[id].documento != doc
    case DocumentoYaRegistrado => !HasAccount(db1, cuenta) && HasDocument(db2, doc)
    case _ => false
  }

  /** After the first i of the inserts `ps` an atomic register would answer `r`. */
  ghost predicate RightAt(db: Tabla, ps: seq<Pasajero>, cuenta: string, doc: Documento, r: Respuesta, i: nat)
    requires i <= |ps|
  {
    var d := Others(db, ps[..i]);
    AtomicRegister(d, d, cuenta, doc, 0, r)
  }

  /** `r` is the atomic answer at some point between the two reads. */
  ghost predicate RightSomewhere(db: Tabla, ps: seq<Pasajero>, cuenta: string, doc: Documento, r: Respuesta) {
    exists i :: 0 <= i <= |ps| && RightAt(db, ps, cuenta, doc, r, i)
  }

  /** Of the inserts `ps`, the first to bring in the account or the document brings in the account. */
  ghost predicate AccountCameFirst(db: Tabla, ps: seq<Pasajero>, cuenta: string, doc: Documento)
    decreases |ps|
  {
    ps != [] &&
    var d := TryAdd(db, ps[0]);
    HasAccount(d, cuenta) || (!HasDocument(d, doc) && AccountCameFirst(d, ps[1..], cuenta, doc))
  }

  /** The answer "document registered by another account" is wrong all along: by the time anyone had the
      document, the account itself was registered. */
  ghost predicate Anomaly(db: Tabla, ps: seq<Pasajero>, cuenta: string, doc: Documento) {
    && !HasAccount(db, cuenta) && !HasDocument(db, doc)
    && HasDocument(Others(db, ps), doc) && AccountCameFirst(db, ps, cuenta, doc)
  }

  lemma OthersCons(db: Tabla, ps: seq<Pasajero>, i: nat)
    requires 0 < i <= |ps|
    ensures Others(db, ps[..i]) == Others(TryAdd(db, ps[0]), ps[1..][..i - 1])
  {
    assert ps[..i] == [ps[0]] + ps[1..][..i - 1];
    assert [ps[0]][..0] == [];
    assert Others(db, [ps[0]]) == TryAdd(Others(db, []), ps[0]);
    OthersSplit(db, [ps[0]], ps[1..][..i - 1]);
  }

  lemma AccountStays(db: Tabla, ps: seq<Pasajero>, cuenta: string)
    requires HasAccount(db, cuenta)
    ensures HasAccount(Others(db, ps), cuenta)
  {
    OthersKeep(db, ps);
  }

  lemma {:induction false} DocumentFirst(db: Tabla, ps: seq<Pasajero>, cuenta: string, doc: Documento)
    requires !HasAccount(db, cuenta) && !HasDocument(db, doc) && HasDocument(Others(db, ps), doc)
    ensures RightSomewhere(db, ps, cuenta, doc, DocumentoYaRegistrado) <==> !AccountCameFirst(db, ps, cuenta, doc)
    decreases |ps|
  {
    if ps != [] {
      var d := TryAdd(db, ps[0]);
      var resto := ps[1..];
      OthersCons(db, ps, |ps|);
      assert ps[..|ps|] == ps && resto[..|resto|] == resto;
      SomewhereLater(db, ps, cuenta, doc);
      if HasAccount(d, cuenta) {
        forall i | 0 <= i <= |resto| ensures !RightAt(d, resto, cuenta, doc, DocumentoYaRegistrado, i) {
          AccountStays(d, resto[..i], cuenta);
        }
      } else if HasDocument(d, doc) {
        assert RightAt(d, resto, cuenta, doc, DocumentoYaRegistrado, 0);
      } else {
        DocumentFirst(d, resto, cuenta, doc);
      }
    }
  }

  lemma SomewhereLater(db: Tabla, ps: seq<Pasajero>, cuenta: string, doc: Documento)
    requires ps != [] && !HasDocument(db, doc)
    ensures RightSomewhere(db, ps, cuenta, doc, DocumentoYaRegistrado) <==>
            RightSomewhere(TryAdd(db, ps[0]), ps[1..], cuenta, doc, DocumentoYaRegistrado)
  {
    var d := TryAdd(db, ps[0]);
    forall i | 0 < i <= |ps|
      ensures RightAt(db, ps, cuenta, doc, DocumentoYaRegistrado, i) ==
              RightAt(d, ps[1..], cuenta, doc, DocumentoYaRegistrado, i - 1) {
      OthersCons(db, ps, i);
    }
    assert !RightAt(db, ps, cuenta, doc, DocumentoYaRegistrado, 0);
    if i :| 0 <= i <= |ps| - 1 && RightAt(d, ps[1..], cuenta, doc, DocumentoYaRegistrado, i) {
      assert RightAt(db, ps, cuenta, doc, DocumentoYaRegistrado, i + 1);
    }
  }

  /** With `ps` committed between the two reads, an answer of the optimistic check is the atomic one at
      some point in between, except exactly when account and document were both new and the account
      came first. */
  lemma SplitReadExact(db: Tabla, ps: seq<Pasajero>, cuenta: string, doc: Documento, r: Respuesta)
    requires Unique(db) && SplitRead(db, Others(db, ps), cuenta, doc, r)
    ensures RightSomewhere(db, ps, cuenta, doc, r) <==> !Anomaly(db, ps, cuenta, doc)
  {
    assert ps[..0] == [];
    if HasAccount(db, cuenta) || HasDocument(db, doc) {
      assert RightAt(db, ps, cuenta, doc, r, 0);
    } else {
      DocumentFirst(db, ps, cuenta, doc);
    }
  }

  /** It happens: two simultaneous submissions of the same document by the same account. */
  lemma SplitReadAnomaly()
    ensures exists db, ps, cuenta, doc ::
              && Unique(db) && SplitRead(db, Others(db, ps), cuenta, doc, DocumentoYaRegistrado)
              && !RightSomewhere(db, ps, cuenta, doc, DocumentoYaRegistrado)
              && RightAt(db, ps, cuenta, doc, Existente(7), |ps|)
  {
    var doc := Documento(CC, "1020304050");
    var db: Tabla := map[];
    var p := Registrar(7, "u1", doc);
    var ps := [p];
    var fin := Others(db, ps);
    assert ps[..|ps| - 1] == [] && ps[..0] == [] && ps[..1] == ps;
    assert Others(db, []) == db && fin == TryAdd(db, p);
    assert fin == map[7 := p];
    assert fin[7].cuenta == "u1" && fin[7].documento == doc;
    assert HasAccount(fin, "u1") && HasDocument(fin, doc);
    assert TryAdd(db, ps[0]) == fin;
    assert SplitRead(db, fin, "u1", doc, DocumentoYaRegistrado);
    SplitReadExact(db, ps, "u1", doc, DocumentoYaRegistrado);
    assert RightAt(db, ps, "u1", doc, Existente(7), |ps|);
  }

  /** A point at which the answer is right, with the requests before and after it. */
  lemma RightPoint(db: Tabla, ps: seq<Pasajero>, cuenta: string, doc: Documento, nuevo: Uuid)
    returns (pre: seq<Pasajero>, post: seq<Pasajero>, tras: Tabla)
    requires RightSomewhere(db, ps, cuenta, doc, DocumentoYaRegistrado)
    ensures AtomicRegister(Others(db, pre), tras, cuenta, doc, nuevo, DocumentoYaRegistrado)
    ensures pre + post == ps && Others(db, ps) == Others(tras, post)
  {
    var i :| 0 <= i <= |ps| && RightAt(db, ps, cuenta, doc, DocumentoYaRegistrado, i);
    pre, post, tras := ps[..i], ps[i..], Others(db, ps[..i]);
    OthersSplit(db, pre, post);
    assert pre + post == ps;
  }

  // --- the repository and the service --------------------------------------------------------------

  class PassengerRepository {
    var passengers: Tabla

    constructor ()
      ensures passengers == map[]
    {
      passengers := map[];
    }

    method GetByClerkUser(cuenta: string) returns (r: Option<Uuid>)
      ensures r == None <==> !HasAccount(passengers, cuenta)
      ensures r.Some? ==> r.value in passengers && passengers[r.value].cuenta == cuenta
    {
      var ids := passengers.Keys;
      while ids != {}
        invariant ids <= passengers.Keys
        invariant forall id :: id in passengers && id !in ids ==> passengers[id].cuenta != cuenta
        decreases |ids|
      {
        var id :| id in ids;
        if passengers[id].cuenta == cuenta {
          return Some(id);
        }
        ids := ids - {id};
      }
      r := None;
    }

    method GetByDocument(doc: Documento) returns (r: Option<Uuid>)
      ensures r == None <==> !HasDocument(passengers, doc)
      ensures r.Some? ==> r.value in passengers && passengers[r.value].documento == doc
    {
      var ids := passengers.Keys;
      while ids != {}
        invariant ids <= passengers.Keys
        invariant forall id :: id in passengers && id !in ids ==> passengers[id].documento != doc
        decreases |ids|
      {
        var id :| id in ids;
        if passengers[id].documento == doc {
          return Some(id);
        }
        ids := ids - {id};
      }
      r := None;
    }

    /** False stands for UniqueViolation. */
    method Add(p: Pasajero) returns (ok: bool)
      requires p.id !in passengers
      modifies this
      ensures ok == !(HasAccount(old(passengers), p.cuenta) || HasDocument(old(passengers), p.documento))
      ensures passengers == if ok then old(passengers)[p.id := p] else old(passengers)
    {
      var a := GetByClerkUser(p.cuenta);
      if a.Some? {
        return false;
      }
      var d := GetByDocument(p.documento);
      if d.Some? {
        return false;
      }
      passengers := passengers[p.id := p];
      ok := true;
    }

    /** What other requests commit while this one is not in a transaction. */
    method Interleave(ps: seq<Pasajero>)
      modifies this
      ensures passengers == Others(old(passengers), ps)
    {
      ghost var antes := passengers;
      for k := 0 to |ps|
        invariant passengers == Others(antes, ps[..k])
      {
        assert ps[..k + 1][..k] == ps[..k];
        if ps[k].id !in passengers {
          var ok := Add(ps[k]);
        }
      }
      assert ps[..|ps|] == ps;
    }
  }

  class RegistrationService {
    const repo: PassengerRepository

    constructor (repo: PassengerRepository)
      ensures this.repo == repo
    {
      this.repo := repo;
    }

    /** `entre` commit between the two reads of the first transaction, `durante` while the photo is
        uploaded, `despues` between a lost race and its resolution. Save for the anomaly of the two
        reads the call is linearizable: what it answers, and what it leaves in the table, is what an
        atomic register would between the requests `pre` and the requests `post`. */
    method Register(cuenta: string, doc: Documento, nuevo: Uuid, subida: bool, entre: seq<Pasajero>,
                    durante: seq<Pasajero>, despues: seq<Pasajero>)
      returns (r: Respuesta, ghost pre: seq<Pasajero>, ghost post: seq<Pasajero>, ghost tras: Tabla)
      requires Unique(repo.passengers) && nuevo !in repo.passengers
      requires forall p :: p in entre + durante + despues ==> p.id != nuevo
      modifies repo
      ensures !Anomaly(old(repo.passengers), entre, cuenta, doc) ==>
                && AtomicRegister(Others(old(repo.passengers), pre), tras, cuenta, doc, nuevo, r)
                && repo.passengers == Others(tras, post)
                && pre + post <= entre + durante + despues
      ensures Anomaly(old(repo.passengers), entre, cuenta, doc) ==>
                && r == DocumentoYaRegistrado && repo.passengers == Others(old(repo.passengers), entre)
                && !RightSomewhere(old(repo.passengers), entre, cuenta, doc, r)
      ensures Unique(repo.passengers)
      ensures forall id :: id in old(repo.passengers) ==>
              id in repo.passengers && repo.passengers[id] == old(repo.passengers)[id]
      ensures r == AlmacenamientoNoDisponible <==>
              !subida && !HasAccount(old(repo.passengers), cuenta) &&
                !HasDocument(Others(old(repo.passengers), entre), doc)
      ensures (nuevo in repo.passengers <==> r.Creado?) && (r.Creado? ==> subida)
    {
      ghost var inicio := repo.passengers;
      pre, post, tras := [], [], inicio;
      var propio := repo.GetByClerkUser(cuenta);
      if propio.Some? {
        if repo.passengers[propio.value].documento == doc {
          return Existente(propio.value), pre, post, tras;
        }
        return CuentaYaRegistrada, pre, post, tras;
      }
      repo.Interleave(entre);
      OthersKeep(inicio, entre);
      var otro := repo.GetByDocument(doc);
      if otro.Some? {
        SplitReadExact(inicio, entre, cuenta, doc, DocumentoYaRegistrado);
        if RightSomewhere(inicio, entre, cuenta, doc, DocumentoYaRegistrado) {
          pre, post, tras := RightPoint(inicio, entre, cuenta, doc, nuevo);
        }
        return DocumentoYaRegistrado, pre, post, tras;
      }
      r, pre, post, tras := Insert(cuenta, doc, nuevo, subida, inicio, entre, durante, despues);
    }

    /** What follows the optimistic check: the upload, the insert, and the lost race. */
    method Insert(cuenta: string, doc: Documento, nuevo: Uuid, subida: bool, ghost inicio: Tabla,
                  ghost entre: seq<Pasajero>, durante: seq<Pasajero>, despues: seq<Pasajero>)
      returns (r: Respuesta, ghost pre: seq<Pasajero>, ghost post: seq<Pasajero>, ghost tras: Tabla)
      requires Unique(repo.passengers) && repo.passengers == Others(inicio, entre) && nuevo !in repo.passengers
      requires forall p :: p in durante + despues ==> p.id != nuevo
      requires !HasAccount(inicio, cuenta) && !HasDocument(repo.passengers, doc)
      modifies repo
      ensures AtomicRegister(Others(inicio, pre), tras, cuenta, doc, nuevo, r)
      ensures repo.passengers == Others(tras, post) && pre + post <= entre + durante + despues
      ensures Unique(repo.passengers)
      ensures forall id :: id in old(repo.passengers) ==>
              id in repo.passengers && repo.passengers[id] == old(repo.passengers)[id]
      ensures r == AlmacenamientoNoDisponible <==> !subida
      ensures (nuevo in repo.passengers <==> r.Creado?) && (r.Creado? ==> subida)
    {
      ghost var leida := repo.passengers;
      OthersKeep(inicio, entre);
      repo.Interleave(durante);
      OthersKeep(leida, durante);
      OthersSplit(inicio, entre, durante);
      if !subida {
        pre, post, tras := [], entre + durante, inicio;
        return AlmacenamientoNoDisponible, pre, post, tras;
      }
      pre, post := entre + durante, [];
      var ok := repo.Add(Registrar(nuevo, cuenta, doc));
      tras := repo.passengers;
      if ok {
        return Creado(nuevo), pre, post, tras;
      }
      ghost var perdida := repo.passengers;
      repo.Interleave(despues);
      OthersKeep(perdida, despues);
      OthersSplit(inicio, entre + durante, despues);
      pre, tras := entre + durante + despues, repo.passengers;
      r := ResolveRace(cuenta, doc);
    }

    method ResolveRace(cuenta: string, doc: Documento) returns (r: Respuesta)
      ensures HasAccount(repo.passengers, cuenta) || HasDocument(repo.passengers, doc) ==>
                AtomicRegister(repo.passengers, repo.passengers, cuenta, doc, 0, r) && !r.Creado? &&
                  !r.AlmacenamientoNoDisponible?
    {
      var propio := repo.GetByClerkUser(cuenta);
      if propio.Some? {
        if repo.passengers[propio.value].documento == doc {
          return Existente(propio.value);
        }
        return CuentaYaRegistrada;
      }
      r := DocumentoYaRegistrado;
    }
  }
}
