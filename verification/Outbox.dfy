/** The transactional outbox: claim under a lease, publish, record; any number of dispatchers. */
module Outbox {
  import opened Base

  const LEASE := 30 * SECOND
  const MAX_BACKOFF_SECONDS := 180

  datatype EstadoEvento = PENDIENTE | ENTREGADO

  datatype Entry = Entry(id: Uuid, estado: EstadoEvento, intentos: nat, proximo: Instant, entregadoAt: Option<Instant>)

  type Filas = map<Uuid, Entry>

  function Pow2(n: nat): nat { if n == 0 then 1 else 2 * Pow2(n - 1) }

  function BackoffSeconds(intentos: nat): nat {
    if Pow2(intentos) < MAX_BACKOFF_SECONDS then Pow2(intentos) else MAX_BACKOFF_SECONDS
  }

  function Pendiente(id: Uuid, ocurrido: Instant): Entry { Entry(id, PENDIENTE, 0, ocurrido, None) }

  function Entregado(e: Entry, ahora: Instant): Entry { e.(estado := ENTREGADO, entregadoAt := Some(ahora)) }

  function Fallido(e: Entry, ahora: Instant): Entry {
    e.(intentos := e.intentos + 1, proximo := ahora + BackoffSeconds(e.intentos + 1) * SECOND)
  }

  // --- claiming ---------------------------------------------------------------------------

  ghost function Due(filas: Filas, leido: Instant, ids: Option<set<Uuid>>): set<Uuid> {
    set id | id in filas && filas[id].estado == PENDIENTE && filas[id].proximo <= leido &&
      (ids == None || id in ids.value)
  }

  /** `sel` is what `claim_due` may answer: due rows, each once, earliest first, as many as fit. */
  ghost predicate Selects(filas: Filas, leido: Instant, limite: nat, ids: Option<set<Uuid>>, sel: seq<Uuid>) {
    && |sel| == Min(limite, |Due(filas, leido, ids)|)
    && (forall i :: 0 <= i < |sel| ==> sel[i] in Due(filas, leido, ids))
    && (forall i, j :: 0 <= i < j < |sel| ==> sel[i] != sel[j] && filas[sel[i]].proximo <= filas[sel[j]].proximo)
    && (forall i, id :: 0 <= i < |sel| && id in Due(filas, leido, ids) && id !in sel ==>
          filas[sel[i]].proximo <= filas[id].proximo)
  }

  function Lease(filas: Filas, sel: seq<Uuid>, hasta: Instant): Filas {
    map id | id in filas :: if id in sel then filas[id].(proximo := hasta) else filas[id]
  }

  // --- the machine --------------------------------------------------------------------------

  /** What a dispatcher is about to record, and when its publication ended. */
  datatype Resultado = Resultado(fila: Entry, at: Instant)

  /** A dispatcher at work: its lease, the entries it still holds as it read them, and the outcome of
      the first one once published but not yet saved. */
  datatype Despacho = Despacho(lease: Instant, entradas: seq<Entry>, resultado: Option<Resultado>)

  /** `publicados` counts successful publications, `fallos` the instants of the recorded failures. */
  datatype Mundo = Mundo(now: Instant, filas: Filas, despachos: map<nat, Despacho>, publicados: multiset<Uuid>,
                         fallos: map<Uuid, seq<Instant>>)

  datatype Evento =
    | Tick(d: nat)
    | Add(id: Uuid, ocurrido: Instant)
    | Claim(d: nat, leido: Instant, limite: nat, ids: Option<set<Uuid>>, sel: seq<Uuid>)
    | Publish(d: nat, ok: bool)
    | Save(d: nat)
    | Crash(d: nat)

  function Fallos(s: Mundo, id: Uuid): seq<Instant> { if id in s.fallos then s.fallos[id] else [] }

  ghost predicate Inicial(s: Mundo) { s == Mundo(s.now, map[], map[], multiset{}, map[]) }

  ghost predicate Enabled(s: Mundo, e: Evento) {
    match e
    case Tick(_) => true
    case Add(id, ocurrido) => id !in s.filas && ocurrido <= s.now
    case Claim(d, leido, limite, ids, sel) =>
      d !in s.despachos && leido <= s.now && Selects(s.filas, leido, limite, ids, sel)
    case Publish(d, _) => d in s.despachos && s.despachos[d].entradas != [] && s.despachos[d].resultado == None
    case Save(d) => d in s.despachos && s.despachos[d].entradas != [] && s.despachos[d].resultado.Some?
    case Crash(d) => d in s.despachos
  }

  function Entradas(filas: Filas, sel: seq<Uuid>): seq<Entry>
    requires forall i :: 0 <= i < |sel| ==> sel[i] in filas
  {
    seq(|sel|, i requires 0 <= i < |sel| => filas[sel[i]])
  }

  ghost function Step(s: Mundo, e: Evento): Mundo
    requires Enabled(s, e)
  {
    match e
    case Tick(d) => s.(now := s.now + d)
    case Add(id, ocurrido) => s.(filas := s.filas[id := Pendiente(id, ocurrido)])
    case Claim(d, leido, _, _, sel) =>
      s.(filas := Lease(s.filas, sel, leido + LEASE),
         despachos := s.despachos[d := Despacho(leido + LEASE, Entradas(s.filas, sel), None)])
    case Publish(d, ok) =>
      var x := s.despachos[d];
      var r := if ok then Entregado(x.entradas[0], s.now) else Fallido(x.entradas[0], s.now);
      s.(despachos := s.despachos[d := x.(resultado := Some(Resultado(r, s.now)))],
         publicados := if ok then s.publicados + multiset{r.id} else s.publicados)
    case Save(d) =>
      var x := s.despachos[d];
      var r := x.resultado.value.fila;
      s.(filas := s.filas[r.id := r],
         despachos := s.despachos[d := x.(entradas := x.entradas[1..], resultado := None)],
         fallos := if r.estado == ENTREGADO then s.fallos
                   else s.fallos[r.id := Fallos(s, r.id) + [x.resultado.value.at]])
    case Crash(d) => s.(despachos := s.despachos - {d})
  }

  ghost predicate Legal(s: Mundo, es: seq<Evento>)
    decreases |es|
  {
    es == [] || (Enabled(s, es[0]) && Legal(Step(s, es[0]), es[1..]))
  }

  ghost function Exec(s: Mundo, es: seq<Evento>): Mundo
    requires Legal(s, es)
    decreases |es|
  {
    if es == [] then s else Exec(Step(s, es[0]), es[1..])
  }

  // --- what needs no hypothesis: nothing is lost -----------------------------------------------

  ghost predicate FilaOk(s: Mundo, id: Uuid)
    requires id in s.filas
  {
    && s.filas[id].id == id
    && (s.filas[id].estado == ENTREGADO ==> id in s.publicados)
    && (s.filas[id].estado == PENDIENTE ==> s.filas[id].proximo <= s.now + MAX_BACKOFF_SECONDS * SECOND)
  }

  ghost predicate DespachoOk(s: Mundo, x: Despacho) {
    && x.lease <= s.now + LEASE
    && (forall i :: 0 <= i < |x.entradas| ==> x.entradas[i].estado == PENDIENTE && x.entradas[i].id in s.filas)
    && (forall i, j :: 0 <= i < j < |x.entradas| ==> x.entradas[i].id != x.entradas[j].id)
    && (x.resultado.Some? ==>
          && x.entradas != []
          && x.resultado.value.fila.id == x.entradas[0].id
          && (x.resultado.value.fila.estado == ENTREGADO ==> x.resultado.value.fila.id in s.publicados)
          && (x.resultado.value.fila.estado == PENDIENTE ==>
                x.resultado.value.fila.proximo <= s.now + MAX_BACKOFF_SECONDS * SECOND))
  }

  ghost predicate Sound(s: Mundo) {
    && (forall id :: id in s.filas ==> FilaOk(s, id))
    && (forall d :: d in s.despachos ==> DespachoOk(s, s.despachos[d]))
  }

  lemma StepSound(s: Mundo, e: Evento)
    requires Sound(s) && Enabled(s, e)
    ensures Sound(Step(s, e)) && s.filas.Keys <= Step(s, e).filas.Keys
  {
    FilasSound(s, e);
    forall d | d in Step(s, e).despachos ensures DespachoOk(Step(s, e), Step(s, e).despachos[d]) {
      if d in s.despachos && !(e.Publish? && e.d == d) && !(e.Save? && e.d == d) {
        OtherSound(s, e, d);
      } else {
        OwnSound(s, e);
      }
    }
  }

  /** What a dispatcher that takes no step holds stays in order. */
  lemma OtherSound(s: Mundo, e: Evento, d: nat)
    requires Sound(s) && Enabled(s, e) && d in s.despachos && d in Step(s, e).despachos
    requires !(e.Publish? && e.d == d) && !(e.Save? && e.d == d)
    ensures DespachoOk(Step(s, e), Step(s, e).despachos[d])
  {
    assert DespachoOk(s, s.despachos[d]);
    assert Step(s, e).despachos[d] == s.despachos[d];
  }

  lemma OwnSound(s: Mundo, e: Evento)
    requires Sound(s) && Enabled(s, e) && (e.Claim? || e.Publish? || e.Save?)
    ensures DespachoOk(Step(s, e), Step(s, e).despachos[e.d])
  {
    if !e.Claim? { assert DespachoOk(s, s.despachos[e.d]); }
  }

  lemma FilasSound(s: Mundo, e: Evento)
    requires Sound(s) && Enabled(s, e)
    ensures forall id :: id in Step(s, e).filas ==> FilaOk(Step(s, e), id)
    ensures s.filas.Keys <= Step(s, e).filas.Keys
  {
    var s' := Step(s, e);
    if e.Save? { assert DespachoOk(s, s.despachos[e.d]); }
    forall id | id in s'.filas ensures FilaOk(s', id) { if id in s.filas { assert FilaOk(s, id); } }
  }

  lemma {:induction false} RunSound(s: Mundo, es: seq<Evento>)
    requires Sound(s) && Legal(s, es)
    ensures Sound(Exec(s, es)) && s.filas.Keys <= Exec(s, es).filas.Keys
    decreases |es|
  {
    if es != [] {
      StepSound(s, es[0]);
      RunSound(Step(s, es[0]), es[1..]);
    }
  }

  /** With any crashes, late saves and outages: a row is never removed, a delivered event was
      published, and a pending one is due again within the backoff cap. */
  lemma NothingIsLost(s0: Mundo, es: seq<Evento>, mas: seq<Evento>, id: Uuid)
    requires Inicial(s0) && Legal(s0, es) && Legal(Exec(s0, es), mas)
    requires id in Exec(s0, es).filas
    ensures var z := Exec(Exec(s0, es), mas);
            && id in z.filas
            && (z.filas[id].estado == ENTREGADO ==> id in z.publicados)
            && (z.filas[id].estado == PENDIENTE ==> z.filas[id].proximo <= z.now + MAX_BACKOFF_SECONDS * SECOND)
  {
    RunSound(s0, es);
    RunSound(Exec(s0, es), mas);
    assert FilaOk(Exec(Exec(s0, es), mas), id);
  }
}
