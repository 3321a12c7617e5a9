/** What the lease buys: if every save happens before the end of the lease it was claimed under
    (or its dispatcher stops), no event is held twice, a delivery is never undone, and the failed
    attempts of one event are spaced by the backoff. */
module OutboxLease {
  import opened Base
  import opened Outbox

  /** The hypothesis, step by step. */
  ghost predicate Timely(s: Mundo, e: Evento)
    requires Enabled(s, e)
  {
    e.Save? ==> s.now < s.despachos[e.d].lease
  }

  ghost predicate LegalTimely(s: Mundo, es: seq<Evento>)
    decreases |es|
  {
    es == [] || (Enabled(s, es[0]) && Timely(s, es[0]) && LegalTimely(Step(s, es[0]), es[1..]))
  }

  lemma {:induction false} TimelyIsLegal(s: Mundo, es: seq<Evento>)
    requires LegalTimely(s, es)
    ensures Legal(s, es)
    decreases |es|
  {
    if es != [] { TimelyIsLegal(Step(s, es[0]), es[1..]); }
  }

  /** Live: its lease has not run out. */
  ghost predicate LiveAt(s: Mundo, d: nat) {
    d in s.despachos && s.now < s.despachos[d].lease
  }

  ghost predicate Holds(x: Despacho, id: Uuid) {
    exists i :: 0 <= i < |x.entradas| && x.entradas[i].id == id
  }

  /** `intentos` counts the recorded failures, and the entry is not due before the backoff of the last one. */
  ghost predicate Counted(f: seq<Instant>, e: Entry) {
    && |f| == e.intentos
    && (f != [] && e.estado == PENDIENTE ==> e.proximo >= f[|f| - 1] + BackoffSeconds(|f|) * SECOND)
  }

  ghost predicate Spaced(f: seq<Instant>) {
    forall k :: 0 <= k < |f| - 1 ==> f[k + 1] - f[k] >= BackoffSeconds(k + 1) * SECOND
  }

  /** The rows of a live dispatcher are exactly as it read them, save for the lease. */
  ghost predicate HeldOk(s: Mundo, x: Despacho) {
    && (forall i :: 0 <= i < |x.entradas| ==>
          var e := x.entradas[i];
          && e.id in s.filas && s.filas[e.id] == e.(proximo := x.lease)
          && e.proximo <= x.lease - LEASE
          && Counted(Fallos(s, e.id), e))
    && (x.resultado.Some? ==>
          var r := x.resultado.value;
          && x.entradas != []
          && (r.fila == Entregado(x.entradas[0], r.at) || r.fila == Fallido(x.entradas[0], r.at))
          && x.lease - LEASE <= r.at <= s.now)
  }

  ghost predicate HeldAll(s: Mundo) {
    forall d :: LiveAt(s, d) ==> HeldOk(s, s.despachos[d])
  }

  /** No event is held by two live dispatchers. */
  ghost predicate Exclusive(s: Mundo) {
    forall d, c, id :: LiveAt(s, d) && LiveAt(s, c) && Holds(s.despachos[d], id) && Holds(s.despachos[c], id) ==> d == c
  }

  ghost predicate RowCounted(s: Mundo, id: Uuid) {
    && Spaced(Fallos(s, id))
    && (if id in s.filas then Counted(Fallos(s, id), s.filas[id]) else Fallos(s, id) == [])
  }

  ghost predicate CountedAll(s: Mundo) {
    forall id: Uuid :: RowCounted(s, id)
  }

  ghost predicate Inv(s: Mundo) {
    Sound(s) && HeldAll(s) && Exclusive(s) && CountedAll(s)
  }

  lemma HeldStays(s: Mundo, s': Mundo, x: Despacho)
    requires HeldOk(s, x) && s.now <= s'.now
    requires forall i :: 0 <= i < |x.entradas| ==>
               x.entradas[i].id in s'.filas && s'.filas[x.entradas[i].id] == s.filas[x.entradas[i].id] &&
                 Fallos(s', x.entradas[i].id) == Fallos(s, x.entradas[i].id)
    ensures HeldOk(s', x)
  {}

  lemma QuietInv(s: Mundo, e: Evento)
    requires Inv(s) && Enabled(s, e) && (e.Tick? || e.Add? || e.Crash?)
    ensures Inv(Step(s, e))
  {
    StepSound(s, e);
    var s' := Step(s, e);
    forall d | LiveAt(s', d) ensures HeldOk(s', s'.despachos[d]) {
      assert LiveAt(s, d);
      HeldStays(s, s', s.despachos[d]);
    }
    assert Exclusive(s') by { assert forall d :: LiveAt(s', d) ==> LiveAt(s, d); }
    forall id: Uuid ensures RowCounted(s', id) { assert RowCounted(s, id); }
  }

  lemma PublishHeld(s: Mundo, e: Evento)
    requires Inv(s) && Enabled(s, e) && e.Publish?
    ensures HeldAll(Step(s, e)) && CountedAll(Step(s, e))
  {
    var s' := Step(s, e);
    forall d | LiveAt(s', d) ensures HeldOk(s', s'.despachos[d]) {
      assert LiveAt(s, d) && DespachoOk(s, s.despachos[d]);
      HeldStays(s, s', s.despachos[d]);
    }
    forall id: Uuid ensures RowCounted(s', id) { assert RowCounted(s, id); }
  }

  lemma PublishInv(s: Mundo, e: Evento)
    requires Inv(s) && Enabled(s, e) && e.Publish?
    ensures Inv(Step(s, e))
  {
    StepSound(s, e);
    PublishHeld(s, e);
    var s' := Step(s, e);
    assert Exclusive(s') by {
      assert forall d :: LiveAt(s', d) ==> LiveAt(s, d) && s'.despachos[d].entradas == s.despachos[d].entradas;
      assert forall d, id :: LiveAt(s', d) && Holds(s'.despachos[d], id) ==> Holds(s.despachos[d], id);
    }
  }

  /** A row held by a live dispatcher is leased beyond now, so it is not due. */
  lemma ClaimAvoidsHeld(s: Mundo, e: Evento, c: nat, id: Uuid)
    requires HeldAll(s) && Enabled(s, e) && e.Claim? && LiveAt(s, c) && Holds(s.despachos[c], id)
    ensures id !in e.sel
  {
    assert HeldOk(s, s.despachos[c]);
  }

  lemma ClaimHeld(s: Mundo, e: Evento)
    requires Sound(s) && HeldAll(s) && CountedAll(s) && Enabled(s, e) && e.Claim?
    ensures HeldAll(Step(s, e))
  {
    var s' := Step(s, e);
    forall d | LiveAt(s', d) ensures HeldOk(s', s'.despachos[d]) {
      if d == e.d {
        forall i | 0 <= i < |e.sel| ensures Counted(Fallos(s, e.sel[i]), s.filas[e.sel[i]]) {
          assert RowCounted(s, e.sel[i]);
        }
        assert forall i :: 0 <= i < |e.sel| ==> FilaOk(s, e.sel[i]);
      } else {
        assert LiveAt(s, d);
        var x := s.despachos[d];
        forall i | 0 <= i < |x.entradas| ensures x.entradas[i].id !in e.sel {
          assert Holds(x, x.entradas[i].id);
          ClaimAvoidsHeld(s, e, d, x.entradas[i].id);
        }
        HeldStays(s, s', x);
      }
    }
  }

  lemma ClaimExclusive(s: Mundo, e: Evento)
    requires Sound(s) && HeldAll(s) && Exclusive(s) && Enabled(s, e) && e.Claim?
    ensures Exclusive(Step(s, e))
  {
    var s' := Step(s, e);
    forall id | Holds(s'.despachos[e.d], id) ensures id in e.sel {
      var i :| 0 <= i < |s'.despachos[e.d].entradas| && s'.despachos[e.d].entradas[i].id == id;
      assert FilaOk(s, e.sel[i]);
    }
    forall d, id | LiveAt(s', d) && d != e.d && Holds(s'.despachos[d], id)
      ensures LiveAt(s, d) && Holds(s.despachos[d], id) && id !in e.sel {
      assert LiveAt(s, d) && s'.despachos[d] == s.despachos[d];
      ClaimAvoidsHeld(s, e, d, id);
    }
  }

  lemma ClaimInv(s: Mundo, e: Evento)
    requires Inv(s) && Enabled(s, e) && e.Claim?
    ensures Inv(Step(s, e))
  {
    StepSound(s, e);
    ClaimHeld(s, e);
    ClaimExclusive(s, e);
    forall id: Uuid ensures RowCounted(Step(s, e), id) { assert RowCounted(s, id); }
  }

  /** A timely save replaces a pending row that nobody else holds. */
  lemma SaveMeaning(s: Mundo, e: Evento)
    requires Inv(s) && Enabled(s, e) && e.Save? && Timely(s, e)
    ensures var x := s.despachos[e.d]; var id := x.entradas[0].id;
            && LiveAt(s, e.d) && HeldOk(s, x) && DespachoOk(s, x)
            && id in s.filas && s.filas[id].estado == PENDIENTE
            && (forall d, k ::
                  LiveAt(s, d) && 0 <= k < |s.despachos[d].entradas| && s.despachos[d].entradas[k].id == id ==>
                    d == e.d && k == 0)
  {
    var x := s.despachos[e.d];
    var id := x.entradas[0].id;
    assert LiveAt(s, e.d) && HeldOk(s, x) && DespachoOk(s, x);
    forall d, k | LiveAt(s, d) && 0 <= k < |s.despachos[d].entradas| && s.despachos[d].entradas[k].id == id
      ensures d == e.d && k == 0 {
      assert Holds(s.despachos[d], id) && Holds(x, id);
    }
  }

  lemma SaveHeld(s: Mundo, e: Evento)
    requires Inv(s) && Enabled(s, e) && e.Save? && Timely(s, e)
    ensures HeldAll(Step(s, e))
  {
    SaveMeaning(s, e);
    var s' := Step(s, e);
    var x := s.despachos[e.d];
    forall d | LiveAt(s', d) ensures HeldOk(s', s'.despachos[d]) {
      assert LiveAt(s, d) && HeldOk(s, s.despachos[d]);
      if d == e.d { HeldStays(s, s', x.(entradas := x.entradas[1..], resultado := None)); }
      else { HeldStays(s, s', s.despachos[d]); }
    }
  }

  lemma SaveExclusive(s: Mundo, e: Evento)
    requires Exclusive(s) && Enabled(s, e) && e.Save?
    ensures Exclusive(Step(s, e))
  {
    var s' := Step(s, e);
    var x := s.despachos[e.d];
    forall d, id | LiveAt(s', d) && Holds(s'.despachos[d], id) ensures LiveAt(s, d) && Holds(s.despachos[d], id) {
      var i :| 0 <= i < |s'.despachos[d].entradas| && s'.despachos[d].entradas[i].id == id;
      if d == e.d { assert x.entradas[i + 1].id == id; }
    }
  }

  lemma SaveCounted(s: Mundo, e: Evento)
    requires Inv(s) && Enabled(s, e) && e.Save? && Timely(s, e)
    ensures CountedAll(Step(s, e))
  {
    SaveMeaning(s, e);
    forall id: Uuid ensures RowCounted(Step(s, e), id) { assert RowCounted(s, id); }
  }

  lemma SaveInv(s: Mundo, e: Evento)
    requires Inv(s) && Enabled(s, e) && e.Save? && Timely(s, e)
    ensures Inv(Step(s, e))
  {
    StepSound(s, e);
    SaveHeld(s, e);
    SaveExclusive(s, e);
    SaveCounted(s, e);
  }

  lemma StepInv(s: Mundo, e: Evento)
    requires Inv(s) && Enabled(s, e) && Timely(s, e)
    ensures Inv(Step(s, e))
  {
    match e
    case Publish(_, _) => PublishInv(s, e);
    case Claim(_, _, _, _, _) => ClaimInv(s, e);
    case Save(_) => SaveInv(s, e);
    case _ => QuietInv(s, e);
  }

  /** Once delivered, always delivered. */
  lemma StepKeepsDelivered(s: Mundo, e: Evento)
    requires Inv(s) && Enabled(s, e) && Timely(s, e)
    ensures forall id :: id in s.filas && s.filas[id].estado == ENTREGADO ==>
            id in Step(s, e).filas && Step(s, e).filas[id] == s.filas[id]
  {
    if e.Save? { SaveMeaning(s, e); }
  }

  lemma {:induction false} RunInv(s: Mundo, es: seq<Evento>)
    requires Inv(s) && LegalTimely(s, es)
    ensures Legal(s, es) && Inv(Exec(s, es))
    ensures forall id :: id in s.filas && s.filas[id].estado == ENTREGADO ==>
            id in Exec(s, es).filas && Exec(s, es).filas[id] == s.filas[id]
    decreases |es|
  {
    TimelyIsLegal(s, es);
    if es != [] {
      StepInv(s, es[0]);
      StepKeepsDelivered(s, es[0]);
      RunInv(Step(s, es[0]), es[1..]);
    }
  }

  // --- a row nobody claims ------------------------------------------------------------------------

  /** The row and its failures are these, and no live dispatcher has it in hand. */
  ghost predicate Rests(s: Mundo, id: Uuid, fila: Entry, f: seq<Instant>) {
    && id in s.filas && s.filas[id] == fila && Fallos(s, id) == f
    && forall d :: LiveAt(s, d) ==> !Holds(s.despachos[d], id)
  }

  predicate ClaimsNot(e: Evento, id: Uuid) {
    e.Claim? ==> id !in e.sel
  }

  lemma StepRests(s: Mundo, e: Evento, id: Uuid, fila: Entry, f: seq<Instant>)
    requires Inv(s) && Enabled(s, e) && Timely(s, e) && Rests(s, id, fila, f) && ClaimsNot(e, id)
    ensures Rests(Step(s, e), id, fila, f)
  {
    var s' := Step(s, e);
    if e.Save? {
      assert LiveAt(s, e.d) && DespachoOk(s, s.despachos[e.d]);
      assert Holds(s.despachos[e.d], s.despachos[e.d].entradas[0].id);
    }
    forall d, i | LiveAt(s', d) && 0 <= i < |s'.despachos[d].entradas| ensures s'.despachos[d].entradas[i].id != id {
      StillThere(s, e, d, i);
    }
  }

  /** What a live dispatcher holds it held before, unless it has just claimed it. */
  lemma StillThere(s: Mundo, e: Evento, d: nat, i: nat)
    requires Sound(s) && Enabled(s, e) && LiveAt(Step(s, e), d) && i < |Step(s, e).despachos[d].entradas|
    ensures var id := Step(s, e).despachos[d].entradas[i].id;
            if e.Claim? && e.d == d then id in e.sel else LiveAt(s, d) && Holds(s.despachos[d], id)
  {
    var id := Step(s, e).despachos[d].entradas[i].id;
    if e.Claim? && e.d == d {
      assert FilaOk(s, e.sel[i]);
    } else if e == Save(d) {
      assert s.despachos[d].entradas[i + 1].id == id;
    } else {
      assert s.despachos[d].entradas[i].id == id;
    }
  }

  lemma {:induction false} RunRests(s: Mundo, es: seq<Evento>, id: Uuid, fila: Entry, f: seq<Instant>)
    requires Inv(s) && LegalTimely(s, es) && Rests(s, id, fila, f)
    requires forall i :: 0 <= i < |es| ==> ClaimsNot(es[i], id)
    ensures Legal(s, es) && Rests(Exec(s, es), id, fila, f)
    decreases |es|
  {
    TimelyIsLegal(s, es);
    if es != [] {
      StepInv(s, es[0]);
      StepRests(s, es[0], id, fila, f);
      RunRests(Step(s, es[0]), es[1..], id, fila, f);
    }
  }
}
