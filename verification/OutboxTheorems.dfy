/** The outbox over whole runs: exclusion, exactly-once publication, delivery after recovery, the
    cost of an outage, and why the lease hypothesis is needed. */
module OutboxTheorems {
  import opened Base
  import opened Outbox
  import opened OutboxLease

  lemma InicialInv(s: Mundo)
    requires Inicial(s)
    ensures Inv(s)
  {}

  /** Under the lease hypothesis: one live holder per event, `intentos` counts the recorded failures,
      and what is delivered at one point of the run stays delivered at every later one. */
  lemma LeaseExcludes(s0: Mundo, es: seq<Evento>, mas: seq<Evento>, id: Uuid)
    requires Inicial(s0) && Legal(s0, es) && LegalTimely(s0, es) && LegalTimely(Exec(s0, es), mas)
    ensures Legal(Exec(s0, es), mas)
    ensures var s := Exec(s0, es); var z := Exec(s, mas);
            && (forall d, c ::
                  LiveAt(s, d) && LiveAt(s, c) && Holds(s.despachos[d], id) && Holds(s.despachos[c], id) ==> d == c)
            && (id in s.filas ==> s.filas[id].intentos == |Fallos(s, id)|)
            && (id in s.filas && s.filas[id].estado == ENTREGADO ==> id in z.filas && z.filas[id] == s.filas[id])
  {
    InicialInv(s0);
    RunInv(s0, es);
    RunInv(Exec(s0, es), mas);
    assert RowCounted(Exec(s0, es), id);
  }

  // --- when an event is due -------------------------------------------------------------------

  /** In every run with timely saves: after the n-th recorded failure of an event, and as long as nobody
      claims it again, it is due exactly min(2^n, 180) seconds after the end of that publication. */
  lemma FailureWaitsExactly(s0: Mundo, es: seq<Evento>, d: nat, mas: seq<Evento>)
    requires Inicial(s0) && Legal(s0, es) && LegalTimely(s0, es)
    requires var s := Exec(s0, es);
             && Enabled(s, Save(d)) && Timely(s, Save(d)) && s.despachos[d].resultado.value.fila.estado == PENDIENTE
             && LegalTimely(Step(s, Save(d)), mas)
             && forall i :: 0 <= i < |mas| ==> ClaimsNot(mas[i], s.despachos[d].entradas[0].id)
    ensures var s := Exec(s0, es);
            && Legal(Step(s, Save(d)), mas)
            && var z := Exec(Step(s, Save(d)), mas);
               var id := s.despachos[d].entradas[0].id; var f := Fallos(z, id); var n := |f|;
               && n >= 1 && f == Fallos(s, id) + [s.despachos[d].resultado.value.at]
               && id in z.filas
               && z.filas[id] == Entry(id, PENDIENTE, n, f[n - 1] + Min(Pow2(n), 180) * SECOND,
                                       s.despachos[d].entradas[0].entregadoAt)
  {
    InicialInv(s0);
    RunInv(s0, es);
    var s := Exec(s0, es);
    var x := s.despachos[d];
    var id := x.entradas[0].id;
    SaveMeaning(s, Save(d));
    StepInv(s, Save(d));
    var s1 := Step(s, Save(d));
    forall c, i | LiveAt(s1, c) && 0 <= i < |s1.despachos[c].entradas| ensures s1.despachos[c].entradas[i].id != id {
      assert LiveAt(s, c);
      assert s1.despachos[c].entradas[i] == s.despachos[c].entradas[if c == d then i + 1 else i];
    }
    RunRests(s1, mas, id, s1.filas[id], Fallos(s1, id));
  }

  /** Until its first claim a new event is due from the instant it occurred. */
  lemma NewEventIsDue(s0: Mundo, es: seq<Evento>, id: Uuid, ocurrido: Instant, mas: seq<Evento>)
    requires Inicial(s0) && Legal(s0, es) && LegalTimely(s0, es) && Enabled(Exec(s0, es), Add(id, ocurrido))
    requires LegalTimely(Step(Exec(s0, es), Add(id, ocurrido)), mas)
    requires forall i :: 0 <= i < |mas| ==> ClaimsNot(mas[i], id)
    ensures var s1 := Step(Exec(s0, es), Add(id, ocurrido));
            && Legal(s1, mas)
            && id in Exec(s1, mas).filas
            && Exec(s1, mas).filas[id] == Entry(id, PENDIENTE, 0, ocurrido, None) && Fallos(Exec(s1, mas), id) == []
  {
    InicialInv(s0);
    RunInv(s0, es);
    var s := Exec(s0, es);
    StepInv(s, Add(id, ocurrido));
    assert RowCounted(s, id);
    forall d | LiveAt(s, d) ensures !Holds(s.despachos[d], id) { assert HeldOk(s, s.despachos[d]); }
    var s1 := Step(s, Add(id, ocurrido));
    assert forall d :: LiveAt(s1, d) ==> LiveAt(s, d) && s1.despachos[d] == s.despachos[d];
    RunRests(s1, mas, id, s1.filas[id], []);
  }

  // --- when the hypothesis is met -------------------------------------------------------------

  /** The instant of each dispatcher's last save, or of the clock reading it claimed with. */
  type Marcas = map<nat, Instant>

  function Marca(s: Mundo, ult: Marcas, e: Evento): Marcas {
    match e
    case Claim(d, leido, _, _, _) => ult[d := leido]
    case Save(d) => ult[d := s.now]
    case _ => ult
  }

  /** A claim takes at most `k` entries, and each save comes within `tau` of the previous one, the
      first within `tau` of the clock reading. */
  predicate InPace(k: nat, tau: nat, s: Mundo, ult: Marcas, e: Evento) {
    match e
    case Claim(_, _, _, _, sel) => |sel| <= k
    case Save(d) => d in ult && s.now <= ult[d] + tau
    case _ => true
  }

  ghost predicate Paced(k: nat, tau: nat, s: Mundo, ult: Marcas, es: seq<Evento>)
    decreases |es|
  {
    es == [] ||
    (&& Enabled(s, es[0]) && InPace(k, tau, s, ult, es[0])
     && Paced(k, tau, Step(s, es[0]), Marca(s, ult, es[0]), es[1..]))
  }

  /** With `tau` for each entry it still holds a dispatcher ends k * tau after its clock reading. */
  ghost predicate OnSchedule(k: nat, tau: nat, s: Mundo, ult: Marcas) {
    forall d :: d in s.despachos ==>
      d in ult && EndsBy(ult[d], |s.despachos[d].entradas|, tau, s.despachos[d].lease - LEASE + k * tau)
  }

  predicate EndsBy(ult: Instant, n: nat, tau: nat, fin: Instant) {
    ult + n * tau <= fin
  }

  lemma OneSaved(ult: Instant, n: nat, tau: nat, fin: Instant, now: Instant)
    requires EndsBy(ult, n, tau, fin) && n > 0 && now <= ult + tau
    ensures EndsBy(now, n - 1, tau, fin) && now <= fin
  {
    Times(0, n - 1, tau);
    Times(n, n, tau);
  }

  lemma Times(m: nat, n: nat, tau: nat)
    ensures m <= n ==> m * tau <= n * tau
    ensures m > 0 ==> (m - 1) * tau + tau == m * tau
  {
    if m <= n { assert (n - m) * tau >= 0; }
  }

  lemma PaceIsTimely(k: nat, tau: nat, s: Mundo, ult: Marcas, e: Evento)
    requires k * tau < LEASE && OnSchedule(k, tau, s, ult) && Enabled(s, e) && InPace(k, tau, s, ult, e)
    ensures Timely(s, e) && OnSchedule(k, tau, Step(s, e), Marca(s, ult, e))
  {
    var s' := Step(s, e);
    var ult' := Marca(s, ult, e);
    forall d | d in s'.despachos
      ensures d in ult' && EndsBy(ult'[d], |s'.despachos[d].entradas|, tau, s'.despachos[d].lease - LEASE + k * tau) {
      match e
      case Claim(c, leido, _, _, sel) => if d == c { Times(|sel|, k, tau); }
      case Save(c) =>
        if d == c { OneSaved(ult[d], |s.despachos[d].entradas|, tau, s.despachos[d].lease - LEASE + k * tau, s.now); }
      case _ =>
    }
    if e.Save? {
      OneSaved(ult[e.d], |s.despachos[e.d].entradas|, tau, s.despachos[e.d].lease - LEASE + k * tau, s.now);
    }
  }

  lemma {:induction false} PacedIsTimely(k: nat, tau: nat, s: Mundo, ult: Marcas, es: seq<Evento>)
    requires k * tau < LEASE && OnSchedule(k, tau, s, ult) && Paced(k, tau, s, ult, es)
    ensures LegalTimely(s, es)
    decreases |es|
  {
    if es != [] {
      PaceIsTimely(k, tau, s, ult, es[0]);
      PacedIsTimely(k, tau, Step(s, es[0]), Marca(s, ult, es[0]), es[1..]);
    }
  }

  lemma {:induction false} TimelySplits(s: Mundo, a: seq<Evento>, b: seq<Evento>)
    requires LegalTimely(s, a + b)
    ensures LegalTimely(s, a) && Legal(s, a) && LegalTimely(Exec(s, a), b)
    decreases |a|
  {
    if a == [] {
      assert a + b == b;
    } else {
      assert (a + b)[1..] == a[1..] + b;
      TimelySplits(Step(s, a[0]), a[1..], b);
    }
  }

  /** After the steps `antes` no event has two live holders, and after the further steps `mas` every
      delivered row is as it was. */
  ghost predicate Safe(s0: Mundo, antes: seq<Evento>, mas: seq<Evento>)
    requires Legal(s0, antes) && Legal(Exec(s0, antes), mas)
  {
    && Exclusive(Exec(s0, antes))
    && forall id :: Delivered(Exec(s0, antes), id) ==>
         Delivered(Exec(Exec(s0, antes), mas), id) && Exec(Exec(s0, antes), mas).filas[id] == Exec(s0, antes).filas[id]
  }

  ghost predicate Delivered(s: Mundo, id: Uuid) {
    id in s.filas && s.filas[id].estado == ENTREGADO
  }

  ghost predicate PacedFrom(k: nat, tau: nat, s0: Mundo, antes: seq<Evento>, mas: seq<Evento>) {
    Inicial(s0) && Paced(k, tau, s0, map[], antes + mas) && Legal(s0, antes) && Legal(Exec(s0, antes), mas)
  }

  /** If dispatchers claim at most `k` entries and take at most `tau` for each, then over all runs no
      event has two live holders and no delivery is ever undone, exactly when k * tau < 30 s. */
  lemma PacedBatchesAreSafe(k: nat, tau: nat)
    ensures (forall s0, antes, mas :: PacedFrom(k, tau, s0, antes, mas) ==> Safe(s0, antes, mas)) <==>
            k * tau < 30 * SECOND
  {
    if k * tau < LEASE {
      forall s0, antes, mas | PacedFrom(k, tau, s0, antes, mas) ensures Safe(s0, antes, mas) {
        PacedIsTimely(k, tau, s0, map[], antes + mas);
        TimelySplits(s0, antes, mas);
        InicialInv(s0);
        RunInv(s0, antes);
        RunInv(Exec(s0, antes), mas);
      }
    } else {
      var antes, id := SlowRun(k, tau);
      assert PacedFrom(k, tau, VACIO, antes, [Save(1)]) && !Safe(VACIO, antes, [Save(1)]);
    }
  }

  // The run that breaks a slow batch: dispatcher 1 claims events 1 to m, the m-th being the first one
  // it cannot save in time. When the lease runs out dispatcher 2 claims that one and delivers it; then
  // dispatcher 1, within its pace, saves its failure.

  const VACIO := Mundo(0, map[], map[], multiset{}, map[])

  /** The first entry of a batch whose last moment is not before the end of the lease. */
  lemma LastInTime(k: nat, tau: nat) returns (m: nat)
    requires k * tau >= LEASE
    ensures 1 <= m <= k && (m - 1) * tau < LEASE <= m * tau
  {
    m := k;
    while (m - 1) * tau >= LEASE
      invariant 1 <= m <= k && m * tau >= LEASE
    {
      Times(m - 1, m, tau);
      m := m - 1;
    }
  }

  /** The steps `es`, within the pace, lead from the first world and marks to the second ones. */
  ghost predicate Reaches(k: nat, tau: nat, s: Mundo, ult: Marcas, es: seq<Evento>, z: Mundo, fin: Marcas)
    decreases |es|
  {
    if es == [] then z == s && fin == ult
    else
      && Enabled(s, es[0]) && InPace(k, tau, s, ult, es[0])
      && Reaches(k, tau, Step(s, es[0]), Marca(s, ult, es[0]), es[1..], z, fin)
  }

  lemma {:induction false} ReachesOn(k: nat, tau: nat, s: Mundo, ult: Marcas, es: seq<Evento>, z: Mundo, fin: Marcas,
                                     e: Evento)
    requires Reaches(k, tau, s, ult, es, z, fin) && Enabled(z, e) && InPace(k, tau, z, fin, e)
    ensures Reaches(k, tau, s, ult, es + [e], Step(z, e), Marca(z, fin, e))
    decreases |es|
  {
    if es == [] {
      assert [e][1..] == [] && es + [e] == [e];
    } else {
      assert (es + [e])[1..] == es[1..] + [e];
      ReachesOn(k, tau, Step(s, es[0]), Marca(s, ult, es[0]), es[1..], z, fin, e);
    }
  }

  lemma {:induction false} ReachesIsPaced(k: nat, tau: nat, s: Mundo, ult: Marcas, es: seq<Evento>, z: Mundo,
                                          fin: Marcas)
    requires Reaches(k, tau, s, ult, es, z, fin)
    ensures Paced(k, tau, s, ult, es) && Legal(s, es) && Exec(s, es) == z
    decreases |es|
  {
    if es != [] { ReachesIsPaced(k, tau, Step(s, es[0]), Marca(s, ult, es[0]), es[1..], z, fin); }
  }

  function UpTo(m: nat): (ids: set<Uuid>)
    ensures |ids| == m && forall id :: id in ids <==> 1 <= id <= m
  {
    if m == 0 then {} else UpTo(m - 1) + {m}
  }

  function Ids(m: nat): (ids: seq<Uuid>)
    ensures |ids| == m && forall i :: 0 <= i < m ==> ids[i] == i + 1
  {
    if m == 0 then [] else Ids(m - 1) + [m]
  }

  lemma {:induction false} SlowAdds(k: nat, tau: nat, m: nat) returns (es: seq<Evento>, s: Mundo)
    ensures Reaches(k, tau, VACIO, map[], es, s, map[])
    ensures s == VACIO.(filas := s.filas) && s.filas.Keys == UpTo(m)
    ensures forall id :: id in s.filas ==> s.filas[id] == Pendiente(id, 0)
  {
    if m == 0 {
      es, s := [], VACIO;
    } else {
      var antes, s0 := SlowAdds(k, tau, m - 1);
      ReachesOn(k, tau, VACIO, map[], antes, s0, map[], Add(m, 0));
      es, s := antes + [Add(m, 0)], Step(s0, Add(m, 0));
    }
  }

  /** Dispatcher 1 has saved j of its m entries, and the last one is still leased to it. */
  ghost predicate Slow(s: Mundo, tau: nat, m: nat, j: nat) {
    && s.now == j * tau && s.despachos.Keys == {1}
    && var x := s.despachos[1];
       && x.lease == LEASE && x.resultado == None
       && |x.entradas| == m - j && (forall i :: 0 <= i < m - j ==> x.entradas[i] == Pendiente(j + 1 + i, 0))
       && m in s.filas && s.filas[m] == Pendiente(m, 0).(proximo := LEASE)
  }

  lemma SlowClaims(k: nat, tau: nat, m: nat) returns (es: seq<Evento>, s: Mundo)
    requires 1 <= m <= k
    ensures Reaches(k, tau, VACIO, map[], es, s, map[1 := 0]) && Slow(s, tau, m, 0)
  {
    var antes, s0 := SlowAdds(k, tau, m);
    var e := Claim(1, 0, m, None, Ids(m));
    AllDue(s0.filas, m);
    ReachesOn(k, tau, VACIO, map[], antes, s0, map[], e);
    es, s := antes + [e], Step(s0, e);
    SlowStarts(s0, tau, m);
  }

  lemma AllDue(filas: Filas, m: nat)
    requires filas.Keys == UpTo(m) && forall id :: id in filas ==> filas[id] == Pendiente(id, 0)
    ensures Selects(filas, 0, m, None, Ids(m))
  {
    assert Due(filas, 0, None) == UpTo(m);
  }

  lemma SlowStarts(s: Mundo, tau: nat, m: nat)
    requires s == VACIO.(filas := s.filas) && s.filas.Keys == UpTo(m) &&
             (forall id :: id in s.filas ==> s.filas[id] == Pendiente(id, 0))
    requires m >= 1 && Enabled(s, Claim(1, 0, m, None, Ids(m)))
    ensures Slow(Step(s, Claim(1, 0, m, None, Ids(m))), tau, m, 0)
  {
    assert Ids(m)[m - 1] == m;
  }

  /** Its first j entries are delivered one after the other, each taking all of `tau`. */
  lemma {:induction false} SlowSaves(k: nat, tau: nat, m: nat, j: nat) returns (es: seq<Evento>, s: Mundo)
    requires 1 <= m <= k && j < m
    ensures Reaches(k, tau, VACIO, map[], es, s, map[1 := j * tau]) && Slow(s, tau, m, j)
  {
    if j == 0 {
      es, s := SlowClaims(k, tau, m);
    } else {
      var antes, s0 := SlowSaves(k, tau, m, j - 1);
      Times(j, j, tau);
      SlowDelivers(s0, tau, m, j - 1);
      var fin := map[1 := (j - 1) * tau];
      ReachesOn(k, tau, VACIO, map[], antes, s0, fin, Tick(tau));
      var s1 := Step(s0, Tick(tau));
      ReachesOn(k, tau, VACIO, map[], antes + [Tick(tau)], s1, fin, Publish(1, true));
      var s2 := Step(s1, Publish(1, true));
      ReachesOn(k, tau, VACIO, map[], antes + [Tick(tau)] + [Publish(1, true)], s2, fin, Save(1));
      es, s := antes + [Tick(tau)] + [Publish(1, true)] + [Save(1)], Step(s2, Save(1));
      assert Marca(s2, fin, Save(1)) == map[1 := j * tau];
    }
  }

  lemma SlowDelivers(s: Mundo, tau: nat, m: nat, j: nat)
    requires Slow(s, tau, m, j) && j + 1 < m
    ensures var s1 := Step(s, Tick(tau));
            && Enabled(s1, Publish(1, true)) && Enabled(Step(s1, Publish(1, true)), Save(1))
            && s1.now == (j + 1) * tau && Step(s1, Publish(1, true)).now == s1.now
            && Slow(Step(Step(s1, Publish(1, true)), Save(1)), tau, m, j + 1)
  {
    Times(j + 1, j + 1, tau);
    assert s.despachos[1].entradas[0].id == j + 1;
  }

  /** Dispatcher 1 fails to publish its last entry, and the lease runs out. */
  lemma SlowExpires(k: nat, tau: nat, m: nat) returns (es: seq<Evento>, s: Mundo)
    requires 1 <= m <= k && (m - 1) * tau < LEASE
    ensures Reaches(k, tau, VACIO, map[], es, s, map[1 := (m - 1) * tau])
    ensures s.now == LEASE && s.despachos.Keys == {1} && Failing(s, m)
    ensures m in s.filas && s.filas[m] == Pendiente(m, 0).(proximo := LEASE)
  {
    var antes, s0 := SlowSaves(k, tau, m, m - 1);
    var fin := map[1 := (m - 1) * tau];
    var espera := Tick(LEASE - (m - 1) * tau);
    ReachesOn(k, tau, VACIO, map[], antes, s0, fin, Publish(1, false));
    var s1 := Step(s0, Publish(1, false));
    ReachesOn(k, tau, VACIO, map[], antes + [Publish(1, false)], s1, fin, espera);
    es, s := antes + [Publish(1, false)] + [espera], Step(s1, espera);
  }

  /** Dispatcher 1 is about to record that event m is still pending. */
  ghost predicate Failing(s: Mundo, m: nat) {
    && 1 in s.despachos && s.despachos[1].entradas != [] && s.despachos[1].resultado.Some?
    && s.despachos[1].resultado.value.fila.id == m && s.despachos[1].resultado.value.fila.estado == PENDIENTE
  }

  /** Dispatcher 2 claims and delivers that entry at once. */
  lemma SlowIsOvertaken(k: nat, tau: nat, m: nat) returns (es: seq<Evento>, s: Mundo, fin: Marcas)
    requires 1 <= m <= k && (m - 1) * tau < LEASE
    ensures Reaches(k, tau, VACIO, map[], es, s, fin)
    ensures s.now == LEASE && Failing(s, m) && Delivered(s, m) && 1 in fin && fin[1] == (m - 1) * tau
  {
    var antes, s0 := SlowExpires(k, tau, m);
    var fin0 := map[1 := (m - 1) * tau];
    var e := Claim(2, LEASE, 1, Some({m}), [m]);
    assert Due(s0.filas, LEASE, Some({m})) == {m};
    ReachesOn(k, tau, VACIO, map[], antes, s0, fin0, e);
    var s1, fin1 := Step(s0, e), Marca(s0, fin0, e);
    assert s1.despachos[2].entradas == [s0.filas[m]];
    ReachesOn(k, tau, VACIO, map[], antes + [e], s1, fin1, Publish(2, true));
    var s2 := Step(s1, Publish(2, true));
    ReachesOn(k, tau, VACIO, map[], antes + [e] + [Publish(2, true)], s2, fin1, Save(2));
    es, s, fin := antes + [e] + [Publish(2, true)] + [Save(2)], Step(s2, Save(2)), Marca(s2, fin1, Save(2));
  }

  /** The run up to the save, and that the save is within the pace and undoes the delivery. */
  lemma SlowRun(k: nat, tau: nat) returns (es: seq<Evento>, m: nat)
    requires k * tau >= LEASE
    ensures PacedFrom(k, tau, VACIO, es, [Save(1)])
    ensures Delivered(Exec(VACIO, es), m) && !Delivered(Exec(Exec(VACIO, es), [Save(1)]), m)
  {
    m := LastInTime(k, tau);
    var antes, s0, fin := SlowIsOvertaken(k, tau, m);
    Times(m, m, tau);
    var espera := Tick(m * tau - LEASE);
    ReachesOn(k, tau, VACIO, map[], antes, s0, fin, espera);
    var s1 := Step(s0, espera);
    es := antes + [espera];
    ReachesOn(k, tau, VACIO, map[], es, s1, fin, Save(1));
    var s2, fin2 := Step(s1, Save(1)), Marca(s1, fin, Save(1));
    ReachesIsPaced(k, tau, VACIO, map[], es, s1, fin);
    ReachesIsPaced(k, tau, VACIO, map[], es + [Save(1)], s2, fin2);
    ExecCons(s1, Save(1), []);
    assert [Save(1)] + [] == [Save(1)];
  }

  /** A dispatcher that saves after its lease can put a delivered event back to pending: the save
      overwrites the row whatever it holds. */
  lemma LateSaveUndoesDelivery() returns (es: seq<Evento>, id: Uuid)
    ensures Legal(VACIO, es) && Legal(Exec(VACIO, es), [Save(1)])
    ensures Delivered(Exec(VACIO, es), id) && !Delivered(Exec(Exec(VACIO, es), [Save(1)]), id)
  {
    es, id := SlowRun(1, LEASE);
  }

  lemma ExecCons(s: Mundo, e: Evento, es: seq<Evento>)
    requires Enabled(s, e) && Legal(Step(s, e), es)
    ensures Legal(s, [e] + es) && Exec(s, [e] + es) == Exec(Step(s, e), es)
  {
    assert ([e] + es)[1..] == es;
  }

  // --- exactly once ---------------------------------------------------------------------------

  /** Nobody crashes and nobody outlives a lease. */
  ghost predicate Diligent(s: Mundo, e: Evento)
    requires Enabled(s, e)
  {
    match e
    case Crash(_) => false
    case Tick(t) => forall d :: d in s.despachos && s.despachos[d].entradas != [] ==> s.now + t < s.despachos[d].lease
    case Claim(_, leido, _, _, sel) => sel != [] ==> s.now < leido + LEASE
    case _ => true
  }

  ghost predicate LegalDiligent(s: Mundo, es: seq<Evento>)
    decreases |es|
  {
    es == [] || (Enabled(s, es[0]) && Diligent(s, es[0]) && LegalDiligent(Step(s, es[0]), es[1..]))
  }

  ghost predicate AllLive(s: Mundo) {
    forall d :: d in s.despachos && s.despachos[d].entradas != [] ==> LiveAt(s, d)
  }

  /** Delivered, or published and about to be recorded so. */
  ghost predicate Done(s: Mundo, id: Uuid) {
    || (id in s.filas && s.filas[id].estado == ENTREGADO)
    || exists d :: d in s.despachos && Delivers(s.despachos[d], id)
  }

  ghost predicate Delivers(x: Despacho, id: Uuid) {
    x.resultado.Some? && x.resultado.value.fila.id == id && x.resultado.value.fila.estado == ENTREGADO
  }

  ghost predicate Once(s: Mundo) {
    forall id: Uuid :: s.publicados[id] == if Done(s, id) then 1 else 0
  }

  lemma StepLive(s: Mundo, e: Evento)
    requires AllLive(s) && Sound(s) && Enabled(s, e) && Diligent(s, e)
    ensures AllLive(Step(s, e)) && Timely(s, e)
  {}

  lemma StepOnce(s: Mundo, e: Evento)
    requires Inv(s) && AllLive(s) && Once(s) && Enabled(s, e) && Diligent(s, e)
    ensures Once(Step(s, e))
  {
    var s' := Step(s, e);
    StepLive(s, e);
    forall id: Uuid ensures s'.publicados[id] == if Done(s', id) then 1 else 0 {
      assert s.publicados[id] == if Done(s, id) then 1 else 0;
      match e
      case Publish(_, _) => PublishOnce(s, e, id);
      case Save(_) => SaveDone(s, e, id);
      case _ => QuietDone(s, e, id);
    }
  }

  /** No other step publishes, records a delivery or drops one that is about to be recorded. */
  lemma QuietDone(s: Mundo, e: Evento, id: Uuid)
    requires Enabled(s, e) && (e.Tick? || e.Add? || e.Claim?)
    ensures Done(Step(s, e), id) == Done(s, id) && Step(s, e).publicados == s.publicados
  {
    assert forall c :: c in s.despachos ==> c in Step(s, e).despachos && Step(s, e).despachos[c] == s.despachos[c];
  }

  lemma PublishOnce(s: Mundo, e: Evento, id: Uuid)
    requires Inv(s) && AllLive(s) && Enabled(s, e) && e.Publish?
    ensures var s' := Step(s, e);
            if e.ok && id == s.despachos[e.d].entradas[0].id then !Done(s, id) && Done(s', id)
            else Done(s', id) == Done(s, id)
  {
    var s' := Step(s, e);
    var x := s.despachos[e.d];
    var h := x.entradas[0].id;
    assert LiveAt(s, e.d) && HeldOk(s, x) && Holds(x, h);
    if d :| d in s.despachos && Delivers(s.despachos[d], h) {
      assert DespachoOk(s, s.despachos[d]) && LiveAt(s, d) && Holds(s.despachos[d], h);
      assert false;
    }
    assert Delivers(s'.despachos[e.d], h) == e.ok;
    assert forall c :: c in s.despachos && c != e.d ==> s'.despachos[c] == s.despachos[c];
  }

  lemma SaveDone(s: Mundo, e: Evento, id: Uuid)
    requires Inv(s) && Enabled(s, e) && e.Save? && Timely(s, e)
    ensures Done(Step(s, e), id) == Done(s, id)
  {
    var s' := Step(s, e);
    SaveMeaning(s, e);
    var x := s.despachos[e.d];
    assert forall c :: c in s.despachos && c != e.d ==> s'.despachos[c] == s.despachos[c];
    if Done(s, id) && !(id in s.filas && s.filas[id].estado == ENTREGADO) {
      var d :| d in s.despachos && Delivers(s.despachos[d], id);
      if d != e.d { assert Delivers(s'.despachos[d], id); }
    }
    if Done(s', id) && !(id in s'.filas && s'.filas[id].estado == ENTREGADO) {
      var d :| d in s'.despachos && Delivers(s'.despachos[d], id);
      assert Delivers(s.despachos[d], id);
    }
    if id in s'.filas && s'.filas[id].estado == ENTREGADO && id == x.resultado.value.fila.id { assert Delivers(x, id); }
  }

  lemma {:induction false} RunOnce(s: Mundo, es: seq<Evento>)
    requires Inv(s) && AllLive(s) && Once(s) && LegalDiligent(s, es)
    ensures Legal(s, es) && Inv(Exec(s, es)) && AllLive(Exec(s, es)) && Once(Exec(s, es))
    decreases |es|
  {
    if es != [] {
      StepLive(s, es[0]);
      StepInv(s, es[0]);
      StepOnce(s, es[0]);
      RunOnce(Step(s, es[0]), es[1..]);
    }
  }

  /** Without crashes and within the leases, every delivered event was published exactly once, and
      no other was unless it is about to be recorded. */
  lemma DeliveredMeansPublishedOnce(s0: Mundo, es: seq<Evento>, id: Uuid)
    requires Inicial(s0) && LegalDiligent(s0, es)
    ensures Legal(s0, es)
    ensures var s := Exec(s0, es); id in s.filas && s.filas[id].estado == ENTREGADO ==> s.publicados[id] == 1
    ensures var s := Exec(s0, es); s.publicados[id] <= 1
  {
    InicialInv(s0);
    RunOnce(s0, es);
  }
}
