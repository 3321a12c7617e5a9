/** The in-memory outbox repository and the dispatcher's loop, proved to do what the machine does. */
module OutboxServices {
  import opened Base
  import opened Outbox
  import opened OutboxTheorems

  /** How the k-th publication of a batch ends, and when. */
  datatype Desenlace = Desenlace(ok: bool, at: Instant)

  function Outcome(e: Entry, o: Desenlace): Entry {
    if o.ok then Entregado(e, o.at) else Fallido(e, o.at)
  }

  /** The rows after the entries from the k-th on are published and saved in order. */
  function SaveRest(filas: Filas, es: seq<Entry>, os: nat -> Desenlace, k: nat): Filas
    requires k <= |es|
    decreases |es| - k
  {
    if k == |es| then filas else SaveRest(filas[es[k].id := Outcome(es[k], os(k))], es, os, k + 1)
  }

  function CountOk(os: nat -> Desenlace, k: nat): nat {
    if k == 0 then 0 else CountOk(os, k - 1) + if os(k - 1).ok then 1 else 0
  }

  /** `sel` lists what was taken from `todas`, earliest first, and nothing left comes before any of it. */
  ghost predicate Taken(filas: Filas, todas: set<Uuid>, quedan: set<Uuid>, sel: seq<Uuid>) {
    && quedan <= todas <= filas.Keys && |sel| + |quedan| == |todas|
    && (forall i :: 0 <= i < |sel| ==> sel[i] in todas && sel[i] !in quedan)
    && (forall id :: id in todas && id !in quedan ==> id in sel)
    && (forall i, j :: 0 <= i < j < |sel| ==> sel[i] != sel[j] && filas[sel[i]].proximo <= filas[sel[j]].proximo)
    && (forall i, id :: 0 <= i < |sel| && id in quedan ==> filas[sel[i]].proximo <= filas[id].proximo)
  }

  lemma TakenNext(filas: Filas, todas: set<Uuid>, quedan: set<Uuid>, sel: seq<Uuid>, id: Uuid)
    requires Taken(filas, todas, quedan, sel) && id in quedan && forall o :: o in quedan ==>
             filas[id].proximo <= filas[o].proximo
    ensures Taken(filas, todas, quedan - {id}, sel + [id])
  {
    forall o | o in todas && o !in quedan - {id} ensures o in sel + [id] {
      if o != id { assert o in sel; }
    }
  }

  class InMemoryOutboxRepository {
    var outbox: Filas

    constructor ()
      ensures outbox == map[]
    {
      outbox := map[];
    }

    method Add(e: Entry)
      modifies this
      ensures outbox == old(outbox)[e.id := e]
    {
      outbox := outbox[e.id := e];
    }

    method Save(e: Entry)
      modifies this
      ensures outbox == old(outbox)[e.id := e]
    {
      outbox := outbox[e.id := e];
    }

    method Earliest(ids: set<Uuid>) returns (id: Uuid)
      requires ids != {} && ids <= outbox.Keys
      ensures id in ids && forall o :: o in ids ==> outbox[id].proximo <= outbox[o].proximo
    {
      id :| id in ids;
      var resto := ids - {id};
      while resto != {}
        invariant resto <= ids && id in ids
        invariant forall o :: o in ids - resto ==> outbox[id].proximo <= outbox[o].proximo
        decreases |resto|
      {
        var o :| o in resto;
        if outbox[o].proximo < outbox[id].proximo {
          id := o;
        }
        resto := resto - {o};
      }
    }

    /** The due rows in order, cut at the limit. */
    method SortedDue(now: Instant, limit: nat, ids: Option<set<Uuid>>) returns (sel: seq<Uuid>)
      ensures Selects(outbox, now, limit, ids, sel)
    {
      sel := [];
      var quedan := set id | id in outbox && outbox[id].estado == PENDIENTE && outbox[id].proximo <= now &&
        (ids == None || id in ids.value);
      ghost var todas := Due(outbox, now, ids);
      assert quedan == todas;
      while quedan != {} && |sel| < limit
        invariant Taken(outbox, todas, quedan, sel) && |sel| <= limit
        decreases |quedan|
      {
        var id := Earliest(quedan);
        TakenNext(outbox, todas, quedan, sel, id);
        sel := sel + [id];
        quedan := quedan - {id};
      }
    }

    method ClaimDue(now: Instant, hasta: Instant, limit: nat, ids: Option<set<Uuid>>)
      returns (due: seq<Entry>, ghost sel: seq<Uuid>)
      modifies this
      ensures Selects(old(outbox), now, limit, ids, sel)
      ensures due == Entradas(old(outbox), sel)
      ensures outbox == Lease(old(outbox), sel, hasta)
    {
      var elegidas := SortedDue(now, limit, ids);
      sel := elegidas;
      ghost var antes := outbox;
      due := [];
      assert outbox == Lease(antes, [], hasta);
      for k := 0 to |elegidas|
        invariant due == Entradas(antes, elegidas[..k])
        invariant outbox == Lease(antes, elegidas[..k], hasta)
      {
        var id := elegidas[k];
        assert id !in elegidas[..k] && outbox[id] == antes[id];
        due := due + [outbox[id]];
        outbox := outbox[id := outbox[id].(proximo := hasta)];
        assert elegidas[..k + 1] == elegidas[..k] + [id];
      }
      assert elegidas[..|elegidas|] == elegidas;
    }

    method CountPending() returns (n: nat)
      ensures n == |Pending(outbox)|
    {
      n := 0;
      ghost var contadas: set<Uuid> := {};
      var ids := outbox.Keys;
      while ids != {}
        invariant ids <= outbox.Keys && n == |contadas|
        invariant forall id :: id in contadas <==> id in outbox && id !in ids && outbox[id].estado == PENDIENTE
        decreases |ids|
      {
        var id :| id in ids;
        if outbox[id].estado == PENDIENTE {
          contadas := contadas + {id};
          n := n + 1;
        }
        ids := ids - {id};
      }
      assert contadas == Pending(outbox);
    }
  }

  ghost function Pending(filas: Filas): set<Uuid> {
    set id | id in filas && filas[id].estado == PENDIENTE
  }

  /** Stored under its own identifier, and without a delivery instant while pending. */
  ghost predicate WellStored(filas: Filas) {
    forall id :: id in filas ==> filas[id].id == id && Undelivered(filas[id])
  }

  /** The claimed entries are distinct pending rows. */
  ghost predicate StillPending(filas: Filas, es: seq<Entry>, k: nat) {
    && (forall i :: k <= i < |es| ==> es[i].id in Pending(filas) && es[i].estado == PENDIENTE && Undelivered(es[i]))
    && (forall i, j :: k <= i < j < |es| ==> es[i].id != es[j].id)
  }

  function CountOkFrom(os: nat -> Desenlace, k: nat, n: nat): nat
    requires k <= n
    decreases n - k
  {
    if k == n then 0 else CountOkFrom(os, k + 1, n) + if os(k).ok then 1 else 0
  }

  lemma {:induction false} CountOkSplits(os: nat -> Desenlace, k: nat, n: nat)
    requires k <= n
    ensures CountOk(os, n) == CountOk(os, k) + CountOkFrom(os, k, n)
    decreases n - k
  {
    if k < n { CountOkSplits(os, k + 1, n); }
  }

  lemma SaveOnePending(filas: Filas, e: Entry, o: Desenlace)
    requires e.id in Pending(filas) && e.estado == PENDIENTE
    ensures var filas' := filas[e.id := Outcome(e, o)];
            && Pending(filas') == (if o.ok then Pending(filas) - {e.id} else Pending(filas))
            && |Pending(filas')| + (if o.ok then 1 else 0) == |Pending(filas)|
  {}

  /** Each claimed entry leaves the pending rows exactly if it is delivered. */
  lemma {:induction false} SaveRestPending(filas: Filas, es: seq<Entry>, os: nat -> Desenlace, k: nat)
    requires k <= |es| && WellStored(filas) && StillPending(filas, es, k)
    ensures WellStored(SaveRest(filas, es, os, k))
    ensures |Pending(SaveRest(filas, es, os, k))| + CountOkFrom(os, k, |es|) == |Pending(filas)|
    decreases |es| - k
  {
    if k < |es| {
      SaveOnePending(filas, es[k], os(k));
      SaveRestPending(filas[es[k].id := Outcome(es[k], os(k))], es, os, k + 1);
    }
  }

  lemma LeasePending(filas: Filas, sel: seq<Uuid>, hasta: Instant)
    requires WellStored(filas) && forall i :: 0 <= i < |sel| ==> sel[i] in Pending(filas)
    requires forall i, j :: 0 <= i < j < |sel| ==> sel[i] != sel[j]
    ensures WellStored(Lease(filas, sel, hasta)) && Pending(Lease(filas, sel, hasta)) == Pending(filas)
    ensures StillPending(Lease(filas, sel, hasta), Entradas(filas, sel), 0)
  {}

  /** A pending row carries no delivery instant. */
  predicate Undelivered(e: Entry) {
    e.estado == PENDIENTE ==> e.entregadoAt == None
  }

  // --- what a dispatch leaves, spelled out --------------------------------------------------------

  /** Each selected row is delivered, or failed once more and due after its backoff; no other changed. */
  ghost predicate Dispatched(antes: Filas, luego: Filas, sel: seq<Uuid>, os: nat -> Desenlace) {
    && luego.Keys == antes.Keys
    && (forall id :: id in antes && id !in sel ==> luego[id] == antes[id])
    && forall k :: 0 <= k < |sel| && sel[k] in antes ==> DispatchedRow(antes[sel[k]], luego[sel[k]], os(k))
  }

  predicate DispatchedRow(e: Entry, r: Entry, o: Desenlace) {
    var n := e.intentos + 1;
    r == if o.ok then Entry(e.id, ENTREGADO, e.intentos, e.proximo, Some(o.at))
         else Entry(e.id, e.estado, n, o.at + Min(Pow2(n), 180) * SECOND, e.entregadoAt)
  }

  lemma {:induction false} SaveRestOther(filas: Filas, es: seq<Entry>, os: nat -> Desenlace, k: nat, id: Uuid)
    requires k <= |es| && forall i :: k <= i < |es| ==> es[i].id != id
    ensures var z := SaveRest(filas, es, os, k); (id in z <==> id in filas) && (id in filas ==> z[id] == filas[id])
    decreases |es| - k
  {
    if k < |es| { SaveRestOther(filas[es[k].id := Outcome(es[k], os(k))], es, os, k + 1, id); }
  }

  lemma {:induction false} SaveRestAt(filas: Filas, es: seq<Entry>, os: nat -> Desenlace, k: nat, i: nat)
    requires k <= i < |es| && forall a, b :: k <= a < b < |es| ==> es[a].id != es[b].id
    ensures var z := SaveRest(filas, es, os, k); es[i].id in z && z[es[i].id] == Outcome(es[i], os(i))
    decreases |es| - k
  {
    var filas' := filas[es[k].id := Outcome(es[k], os(k))];
    if i == k { SaveRestOther(filas', es, os, k + 1, es[k].id); } else { SaveRestAt(filas', es, os, k + 1, i); }
  }

  lemma DispatchIs(antes: Filas, sel: seq<Uuid>, hasta: Instant, os: nat -> Desenlace)
    requires forall id :: id in antes ==> antes[id].id == id
    requires forall i :: 0 <= i < |sel| ==> sel[i] in antes
    requires forall i, j :: 0 <= i < j < |sel| ==> sel[i] != sel[j]
    ensures Dispatched(antes, SaveRest(Lease(antes, sel, hasta), Entradas(antes, sel), os, 0), sel, os)
  {
    var es := Entradas(antes, sel);
    var z := SaveRest(Lease(antes, sel, hasta), es, os, 0);
    assert forall i :: 0 <= i < |sel| ==> es[i] == antes[sel[i]] && es[i].id == sel[i];
    forall id | id !in sel ensures (id in z <==> id in antes) && (id in antes ==> z[id] == antes[id]) {
      SaveRestOther(Lease(antes, sel, hasta), es, os, 0, id);
    }
    forall i | 0 <= i < |sel| ensures sel[i] in z && DispatchedRow(antes[sel[i]], z[sel[i]], os(i)) {
      SaveRestAt(Lease(antes, sel, hasta), es, os, 0, i);
    }
    assert z.Keys == antes.Keys;
  }

  /** What `dispatch_due` reports. */
  datatype DispatchReport = DispatchReport(entregados: nat, pendientes: nat)

  class OutboxDispatcher {
    const repo: InMemoryOutboxRepository

    constructor (repo: InMemoryOutboxRepository)
      ensures this.repo == repo
    {
      this.repo := repo;
    }

    method Dispatch(ahora: Instant, limit: nat, ids: Option<set<Uuid>>, os: nat -> Desenlace)
      returns (entregados: nat, ghost sel: seq<Uuid>)
      modifies repo
      ensures Selects(old(repo.outbox), ahora, limit, ids, sel)
      ensures repo.outbox ==
              SaveRest(Lease(old(repo.outbox), sel, ahora + LEASE), Entradas(old(repo.outbox), sel), os, 0)
      ensures (forall id :: id in old(repo.outbox) ==> old(repo.outbox)[id].id == id) ==>
              Dispatched(old(repo.outbox), repo.outbox, sel, os)
      ensures (forall id :: id in old(repo.outbox) ==> Undelivered(old(repo.outbox)[id])) ==>
              entregados == CountOk(os, |sel|)
    {
      var claimed;
      claimed, sel := repo.ClaimDue(ahora, ahora + LEASE, limit, ids);
      assert (forall id :: id in old(repo.outbox) ==> Undelivered(old(repo.outbox)[id])) ==>
        forall k :: 0 <= k < |claimed| ==> claimed[k].entregadoAt == None;
      entregados := RecordAll(claimed, os);
      if forall id :: id in old(repo.outbox) ==> old(repo.outbox)[id].id == id {
        DispatchIs(old(repo.outbox), sel, ahora + LEASE, os);
      }
    }

    /** With nobody else at work, what was delivered and what is left make up what was pending. */
    method DispatchDue(ahora: Instant, limit: nat, os: nat -> Desenlace)
      returns (r: DispatchReport, ghost sel: seq<Uuid>)
      requires WellStored(repo.outbox)
      modifies repo
      ensures Selects(old(repo.outbox), ahora, limit, None, sel) && Dispatched(old(repo.outbox), repo.outbox, sel, os)
      ensures r.entregados + r.pendientes == |Pending(old(repo.outbox))|
      ensures r.pendientes == |Pending(repo.outbox)| && WellStored(repo.outbox)
    {
      ghost var antes := repo.outbox;
      var entregados;
      entregados, sel := Dispatch(ahora, limit, None, os);
      var pendientes := repo.CountPending();
      LeasePending(antes, sel, ahora + LEASE);
      SaveRestPending(Lease(antes, sel, ahora + LEASE), Entradas(antes, sel), os, 0);
      CountOkSplits(os, 0, |sel|);
      r := DispatchReport(entregados, pendientes);
    }

    /** Publishes and records the claimed entries one after the other. */
    method RecordAll(claimed: seq<Entry>, os: nat -> Desenlace) returns (entregados: nat)
      modifies repo
      ensures repo.outbox == SaveRest(old(repo.outbox), claimed, os, 0)
      ensures (forall k :: 0 <= k < |claimed| ==> claimed[k].entregadoAt == None) ==>
              entregados == CountOk(os, |claimed|)
    {
      ghost var limpias := forall k :: 0 <= k < |claimed| ==> claimed[k].entregadoAt == None;
      entregados := 0;
      for k := 0 to |claimed|
        invariant SaveRest(repo.outbox, claimed, os, k) == SaveRest(old(repo.outbox), claimed, os, 0)
        invariant limpias ==> entregados == CountOk(os, k)
      {
        var outcome := if os(k).ok then Entregado(claimed[k], os(k).at) else Fallido(claimed[k], os(k).at);
        repo.Save(outcome);
        if outcome.entregadoAt.Some? {
          entregados := entregados + 1;
        }
      }
    }
  }

  // --- the loop and the machine ---------------------------------------------------------------

  /** The clock does not go back. */
  ghost predicate Ordered(os: nat -> Desenlace, k: nat, n: nat, reloj: Instant)
    decreases n - k
  {
    k < n ==> reloj <= os(k).at && Ordered(os, k + 1, n, os(k).at)
  }

  /** The steps of dispatcher d for the entries from the k-th on. */
  ghost function LoopSteps(d: nat, es: seq<Entry>, os: nat -> Desenlace, k: nat, reloj: Instant): seq<Evento>
    requires k <= |es|
    requires Ordered(os, k, |es|, reloj)
    decreases |es| - k
  {
    if k == |es| then []
    else [Tick(os(k).at - reloj)] + ([Publish(d, os(k).ok)] + ([Save(d)] + LoopSteps(d, es, os, k + 1, os(k).at)))
  }

  /** Run without interference, the machine's steps leave the rows the loop leaves. */
  lemma {:induction false} LoopIsRun(s: Mundo, d: nat, es: seq<Entry>, os: nat -> Desenlace, k: nat)
    requires k <= |es| && d in s.despachos && s.despachos[d].entradas == es[k..] && s.despachos[d].resultado == None
    requires Ordered(os, k, |es|, s.now)
    ensures var steps := LoopSteps(d, es, os, k, s.now);
            Legal(s, steps) && Exec(s, steps).filas == SaveRest(s.filas, es, os, k)
    decreases |es| - k
  {
    if k < |es| {
      var e1 := Tick(os(k).at - s.now);
      var e2 := Publish(d, os(k).ok);
      var s1 := Step(s, e1);
      var s2 := Step(s1, e2);
      var s3 := Step(s2, Save(d));
      assert es[k..][0] == es[k] && es[k..][1..] == es[k + 1..];
      LoopIsRun(s3, d, es, os, k + 1);
      var resto := LoopSteps(d, es, os, k + 1, os(k).at);
      ExecCons(s2, Save(d), resto);
      ExecCons(s1, e2, [Save(d)] + resto);
      ExecCons(s, e1, [e2] + ([Save(d)] + resto));
    }
  }
}
