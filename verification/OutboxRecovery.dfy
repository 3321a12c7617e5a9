/** Delivery after an outage, and what the outage costs. */
module OutboxRecovery {
  import opened Base
  import opened Outbox
  import opened OutboxLease
  import opened OutboxTheorems

  const MINUTE := 60 * SECOND

  // --- recovery -------------------------------------------------------------------------------

  /** The scheduled call of `dispatch_due`, with room for everything due. */
  ghost predicate Scheduled(s: Mundo, e: Evento, siguiente: Instant) {
    e.Claim? && s.now == siguiente && e.leido == s.now && e.ids == None && |Due(s.filas, s.now, None)| <= e.limite
  }

  ghost function NextTick(s: Mundo, e: Evento, siguiente: Instant): Instant {
    if Scheduled(s, e, siguiente) then siguiente + MINUTE else siguiente
  }

  /** From here on publishing works, nobody crashes or outlives a lease, and time does not pass a
      scheduled dispatch before it happens. */
  ghost predicate LegalRecovered(s: Mundo, es: seq<Evento>, siguiente: Instant)
    decreases |es|
  {
    es == [] ||
    var e := es[0];
    && Enabled(s, e) && Diligent(s, e)
    && (e.Publish? ==> e.ok)
    && (e.Tick? ==> s.now + e.d <= siguiente)
    && LegalRecovered(Step(s, e), es[1..], NextTick(s, e, siguiente))
  }

  ghost predicate HeldIn(s: Mundo, id: Uuid) {
    exists d :: d in s.despachos && Holds(s.despachos[d], id)
  }

  /** An unsaved failure dates from before the recovery, so its lease ends soon after it. */
  ghost predicate OldFailures(s: Mundo, r: Instant) {
    forall d :: d in s.despachos && s.despachos[d].resultado.Some? ==>
      var fila := s.despachos[d].resultado.value.fila;
      fila.estado == PENDIENTE ==> s.despachos[d].lease <= r + LEASE && fila.proximo <= r + MAX_BACKOFF_SECONDS * SECOND
  }

  /** Delivered, held by someone, or due again within the backoff cap after `r`. */
  ghost predicate OnItsWay(s: Mundo, id: Uuid, r: Instant) {
    id in s.filas &&
      (s.filas[id].estado == ENTREGADO || HeldIn(s, id) || s.filas[id].proximo <= r + MAX_BACKOFF_SECONDS * SECOND)
  }

  /** Delivered, or held under a lease that ends by `fin`. */
  ghost predicate AlmostThere(s: Mundo, id: Uuid, fin: Instant) {
    && id in s.filas
    && (s.filas[id].estado == ENTREGADO ||
        exists d :: d in s.despachos && Holds(s.despachos[d], id) && s.despachos[d].lease <= fin)
  }

  ghost predicate Good(s: Mundo, r: Instant) {
    Sound(s) && AllLive(s) && OldFailures(s, r) && r <= s.now
  }

  lemma StepGood(s: Mundo, e: Evento, r: Instant)
    requires Good(s, r) && Enabled(s, e) && Diligent(s, e) && (e.Publish? ==> e.ok)
    ensures Good(Step(s, e), r)
  {
    StepLive(s, e);
    StepSound(s, e);
    assert forall d :: d in s.despachos ==> DespachoOk(s, s.despachos[d]);
  }

  /** Nobody but its own save takes an event out of a dispatcher's hands, and it records the outcome. */
  lemma StillHeld(s: Mundo, e: Evento, id: Uuid, d: nat)
    requires Sound(s) && Enabled(s, e) && Diligent(s, e) && d in s.despachos && Holds(s.despachos[d], id)
    ensures var s' := Step(s, e);
            || (d in s'.despachos && Holds(s'.despachos[d], id) && s'.despachos[d].lease == s.despachos[d].lease)
            || (e == Save(d) && s.despachos[d].entradas[0].id == id && id in s'.filas &&
                  s'.filas[id] == s.despachos[d].resultado.value.fila)
  {
    var x := s.despachos[d];
    var i :| 0 <= i < |x.entradas| && x.entradas[i].id == id;
    assert DespachoOk(s, x);
    var s' := Step(s, e);
    if e == Save(d) {
      if i > 0 { assert s'.despachos[d].entradas[i - 1].id == id; }
    } else {
      assert d in s'.despachos && s'.despachos[d].entradas == x.entradas;
    }
  }

  /** What a save leaves in the row it writes: a delivery, or a failure older than `r`. */
  lemma SaveLeaves(s: Mundo, e: Evento, r: Instant)
    requires Good(s, r) && Enabled(s, e) && e.Save?
    ensures var fila := s.despachos[e.d].resultado.value.fila;
            fila.estado == ENTREGADO || (fila.proximo <= r + MAX_BACKOFF_SECONDS * SECOND && s.now < r + LEASE)
  {
    assert DespachoOk(s, s.despachos[e.d]);
    assert LiveAt(s, e.d);
  }

  lemma StepOnItsWay(s: Mundo, e: Evento, id: Uuid, r: Instant)
    requires Good(s, r) && Enabled(s, e) && Diligent(s, e) && OnItsWay(s, id, r)
    ensures OnItsWay(Step(s, e), id, r)
  {
    var s' := Step(s, e);
    StepSound(s, e);
    if e.Save? { SaveLeaves(s, e, r); }
    if HeldIn(s, id) {
      var d :| d in s.despachos && Holds(s.despachos[d], id);
      StillHeld(s, e, id, d);
    } else if e.Claim? && id in e.sel {
      ClaimHolds(s, e, id);
    }
  }

  lemma ClaimHolds(s: Mundo, e: Evento, id: Uuid)
    requires Sound(s) && Enabled(s, e) && e.Claim? && id in e.sel
    ensures Holds(Step(s, e).despachos[e.d], id)
  {
    var i :| 0 <= i < |e.sel| && e.sel[i] == id;
    assert FilaOk(s, id);
    assert Step(s, e).despachos[e.d].entradas[i].id == id;
  }

  /** The scheduled dispatch at or after r + 180 s picks up whatever is not already in hand. */
  lemma ClaimCatches(s: Mundo, e: Evento, id: Uuid, r: Instant)
    requires Good(s, r) && Enabled(s, e) && Diligent(s, e) && OnItsWay(s, id, r)
    requires Scheduled(s, e, s.now) && s.now >= r + MAX_BACKOFF_SECONDS * SECOND
    ensures AlmostThere(Step(s, e), id, s.now + LEASE)
  {
    var s' := Step(s, e);
    if s.filas[id].estado == PENDIENTE {
      if HeldIn(s, id) {
        var d :| d in s.despachos && Holds(s.despachos[d], id);
        assert DespachoOk(s, s.despachos[d]);
        assert s'.despachos[d] == s.despachos[d];
      } else {
        assert id in Due(s.filas, s.now, None);
        AllSelected(s.filas, s.now, e.limite, e.sel, id);
        ClaimHolds(s, e, id);
      }
    }
  }

  /** With room for everything due, everything due is selected. */
  lemma AllSelected(filas: Filas, leido: Instant, limite: nat, sel: seq<Uuid>, id: Uuid)
    requires Selects(filas, leido, limite, None, sel) && |Due(filas, leido, None)| <= limite &&
             id in Due(filas, leido, None)
    ensures id in sel
  {
    var elegidas := set i | 0 <= i < |sel| :: sel[i];
    DistinctSize(sel);
    if id !in sel {
      assert elegidas <= Due(filas, leido, None) - {id};
      SubsetSize(elegidas, Due(filas, leido, None) - {id});
    }
  }

  lemma {:induction false} DistinctSize(sel: seq<Uuid>)
    requires forall i, j :: 0 <= i < j < |sel| ==> sel[i] != sel[j]
    ensures |set i | 0 <= i < |sel| :: sel[i]| == |sel|
    decreases |sel|
  {
    if sel != [] {
      var n := |sel| - 1;
      var antes := sel[..n];
      DistinctSize(antes);
      assert (set i | 0 <= i < |sel| :: sel[i]) == (set i | 0 <= i < |antes| :: antes[i]) + {sel[n]};
    }
  }

  lemma StepAlmostThere(s: Mundo, e: Evento, id: Uuid, r: Instant, fin: Instant)
    requires Good(s, r) && Enabled(s, e) && Diligent(s, e) && AlmostThere(s, id, fin)
    requires s.now >= r + MAX_BACKOFF_SECONDS * SECOND
    ensures AlmostThere(Step(s, e), id, fin)
  {
    if e.Save? { SaveLeaves(s, e, r); }
    if s.filas[id].estado == PENDIENTE {
      var d :| d in s.despachos && Holds(s.despachos[d], id) && s.despachos[d].lease <= fin;
      StillHeld(s, e, id, d);
    }
  }

  lemma {:induction false} RunAlmostThere(s: Mundo, es: seq<Evento>, siguiente: Instant, id: Uuid, r: Instant,
                                          fin: Instant)
    requires Good(s, r) && LegalRecovered(s, es, siguiente) && AlmostThere(s, id, fin)
    requires s.now >= r + MAX_BACKOFF_SECONDS * SECOND
    ensures Legal(s, es) && AllLive(Exec(s, es)) && AlmostThere(Exec(s, es), id, fin)
    decreases |es|
  {
    if es != [] {
      StepGood(s, es[0], r);
      StepAlmostThere(s, es[0], id, r, fin);
      RunAlmostThere(Step(s, es[0]), es[1..], NextTick(s, es[0], siguiente), id, r, fin);
    }
  }

  lemma {:induction false} RunOnItsWay(s: Mundo, es: seq<Evento>, siguiente: Instant, id: Uuid, r: Instant)
    requires Good(s, r) && LegalRecovered(s, es, siguiente) && OnItsWay(s, id, r)
    requires s.now <= siguiente < r + MAX_BACKOFF_SECONDS * SECOND + MINUTE
    ensures Legal(s, es) && AllLive(Exec(s, es))
    ensures var z := Exec(s, es);
            || z.now < r + MAX_BACKOFF_SECONDS * SECOND + MINUTE
            || (exists fin :: fin < r + MAX_BACKOFF_SECONDS * SECOND + MINUTE + LEASE && AlmostThere(z, id, fin))
    decreases |es|
  {
    if es != [] {
      var e := es[0];
      var s' := Step(s, e);
      StepGood(s, e, r);
      StepOnItsWay(s, e, id, r);
      if Scheduled(s, e, siguiente) && s.now >= r + MAX_BACKOFF_SECONDS * SECOND {
        ClaimCatches(s, e, id, r);
        RunAlmostThere(s', es[1..], NextTick(s, e, siguiente), id, r, s.now + LEASE);
        assert AlmostThere(Exec(s, es), id, s.now + LEASE);
      } else {
        RunOnItsWay(s', es[1..], NextTick(s, e, siguiente), id, r);
      }
    }
  }

  /** Whatever happened before, late saves and crashes included: if from some instant on publishing
      works and no dispatcher crashes or is still at work beyond its lease, with a scheduled dispatch
      every 60 s that has room for all that is due, every event stored by then is delivered or in hand
      240 s later and delivered 270 s later: within the five minutes promised. */
  lemma DeliveredAfterRecovery(s0: Mundo, antes: seq<Evento>, es: seq<Evento>, siguiente: Instant, id: Uuid)
    requires Inicial(s0) && Legal(s0, antes)
    requires var s := Exec(s0, antes);
             AllLive(s) && id in s.filas && s.now <= siguiente <= s.now + MINUTE && LegalRecovered(s, es, siguiente)
    ensures Legal(Exec(s0, antes), es)
    ensures var s := Exec(s0, antes); var z := Exec(s, es);
            && (z.now >= s.now + 240 * SECOND ==> id in z.filas && (z.filas[id].estado == ENTREGADO || HeldIn(z, id)))
            && (z.now >= s.now + 270 * SECOND ==> z.filas[id].estado == ENTREGADO)
  {
    RunSound(s0, antes);
    var s := Exec(s0, antes);
    assert FilaOk(s, id);
    assert forall d :: d in s.despachos ==> DespachoOk(s, s.despachos[d]);
    RunOnItsWay(s, es, siguiente, id, s.now);
    var z := Exec(s, es);
    if z.now >= s.now + 270 * SECOND {
      assert forall d :: d in z.despachos && Holds(z.despachos[d], id) ==> LiveAt(z, d);
    }
  }

  // --- the cost of an outage --------------------------------------------------------------------

  /** Seconds between the first and the n-th failure of one event, at least. */
  function OutageSpan(n: nat): nat {
    if n <= 1 then 0 else OutageSpan(n - 1) + BackoffSeconds(n - 1)
  }

  lemma {:induction false} SpacedSpan(f: seq<Instant>, n: nat)
    requires Spaced(f) && 1 <= n <= |f|
    ensures f[n - 1] - f[0] >= OutageSpan(n) * SECOND
    decreases n
  {
    if n > 1 {
      SpacedSpan(f, n - 1);
      assert f[n - 2 + 1] - f[n - 2] >= BackoffSeconds(n - 2 + 1) * SECOND;
    }
  }

  lemma Pow2AtLeast(n: nat)
    ensures n >= 8 ==> Pow2(n) >= 256
  {
    if n > 8 { Pow2AtLeast(n - 1); }
    assert Pow2(8) == 256 by { assert Pow2(4) == 16; }
  }

  /** 2^n - 2 for up to eight failures, then 180 s for each one more. */
  lemma {:induction false} OutageSpanClosed(n: nat)
    requires n >= 1
    ensures n <= 8 ==> OutageSpan(n) == Pow2(n) - 2
    ensures n >= 8 ==> OutageSpan(n) == 254 + 180 * (n - 8)
  {
    if n > 1 {
      OutageSpanClosed(n - 1);
      if n <= 8 {
        assert Pow2(1) == 2 && Pow2(2) == 4 && Pow2(3) == 8 && Pow2(4) == 16;
        assert Pow2(5) == 32 && Pow2(6) == 64 && Pow2(7) == 128;
        assert Pow2(8) == 256;
      } else {
        Pow2AtLeast(n - 1);
      }
    }
  }

  /** Under the lease hypothesis, the failed attempts of one event recorded in any run span at least
      that long, so an outage of D seconds sees at most 8 + D / 180 of them. */
  lemma OutageCost(s0: Mundo, es: seq<Evento>, id: Uuid, dur: nat)
    requires Inicial(s0) && LegalTimely(s0, es)
    ensures Legal(s0, es)
    ensures var f := Fallos(Exec(s0, es), id); var n := |f|;
            n >= 1 ==>
              && f[n - 1] - f[0] >= OutageSpan(n) * SECOND
              && (f[n - 1] - f[0] <= dur * SECOND ==> n <= 8 + dur / 180)
  {
    InicialInv(s0);
    RunInv(s0, es);
    var f := Fallos(Exec(s0, es), id);
    assert RowCounted(Exec(s0, es), id);
    if |f| >= 1 {
      SpacedSpan(f, |f|);
      OutageSpanClosed(|f|);
    }
  }
}
