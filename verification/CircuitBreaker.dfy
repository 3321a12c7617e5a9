/** The circuit breaker with its state in a shared store. Instants are reals, which ignores the rounding of
    float timestamps. */
module CircuitBreaker {

  datatype Status = CLOSED | OPEN | HALF_OPEN

  datatype BreakerState = BreakerState(status: Status, failures: nat, windowStart: real, openUntil: real,
                                       trialUntil: real)

  const DEFAULT := BreakerState(CLOSED, 0, 0.0, 0.0, 0.0)

  datatype Config = Config(threshold: nat, window: real, open: real)

  datatype Prelude = Rejected | Runs(snapshot: BreakerState)

  /** What a call does before running `fn`: it is turned away, or runs with this snapshot, which is
      saved first when it is a half-open one. */
  function Begins(st: BreakerState, now: real, timeout: real): Prelude {
    if st.status == OPEN && now < st.openUntil then Rejected
    else
      var s := if st.status == OPEN then st.(status := HALF_OPEN, trialUntil := 0.0) else st;
      if s.status == HALF_OPEN then
        if now < s.trialUntil then Rejected else Runs(s.(trialUntil := now + timeout + 1.0))
      else Runs(s)
  }

  /** What `_record_failure` saves. */
  function Failed(cfg: Config, snapshot: BreakerState, now: real): BreakerState {
    if snapshot.status == HALF_OPEN then DEFAULT.(status := OPEN, openUntil := now + cfg.open)
    else
      var s := if now - snapshot.windowStart > cfg.window then DEFAULT.(failures := 1, windowStart := now)
               else snapshot.(failures := snapshot.failures + 1);
      if s.failures >= cfg.threshold then DEFAULT.(status := OPEN, openUntil := now + cfg.open) else s
  }

  /** What is stored after a success: reset, unless the snapshot had nothing to reset. */
  function Succeeded(snapshot: BreakerState, guardado: BreakerState): BreakerState {
    if snapshot.status != CLOSED || snapshot.failures != 0 then DEFAULT else guardado
  }

  // --- interleaved calls --------------------------------------------------------------------

  datatype Vuelo = Vuelo(snapshot: BreakerState, start: real)

  /** The store and the calls whose `fn` is executing. */
  datatype Mundo = Mundo(now: real, guardado: BreakerState, vuelos: map<nat, Vuelo>)

  datatype Evento =
    | Tick(d: real)
    | Begin(c: nat)
    | End(c: nat, ok: bool)
    | Abandon(c: nat)

  ghost predicate Inicial(s: Mundo) {
    s.now >= 0.0 && s.guardado == DEFAULT && s.vuelos == map[]
  }

  /** Every call is recorded, or abandoned by a cancellation, before start + timeout + 1. */
  ghost predicate Enabled(timeout: real, s: Mundo, e: Evento) {
    match e
    case Tick(d) => d >= 0.0 && forall c :: c in s.vuelos ==> s.now + d < s.vuelos[c].start + timeout + 1.0
    case Begin(c) => c !in s.vuelos
    case End(c, _) => c in s.vuelos
    case Abandon(c) => c in s.vuelos
  }

  ghost function Step(cfg: Config, timeout: real, s: Mundo, e: Evento): Mundo
    requires Enabled(timeout, s, e)
  {
    match e
    case Tick(d) => s.(now := s.now + d)
    case Begin(c) =>
      (match Begins(s.guardado, s.now, timeout)
       case Rejected => s
       case Runs(x) =>
         s.(guardado := if x.status == HALF_OPEN then x else s.guardado, vuelos := s.vuelos[c := Vuelo(x, s.now)]))
    case End(c, ok) =>
      var x := s.vuelos[c].snapshot;
      s.(guardado := if ok then Succeeded(x, s.guardado) else Failed(cfg, x, s.now), vuelos := s.vuelos - {c})
    case Abandon(c) => s.(vuelos := s.vuelos - {c})
  }

  ghost predicate Legal(cfg: Config, timeout: real, s: Mundo, es: seq<Evento>)
    decreases |es|
  {
    es == [] || (Enabled(timeout, s, es[0]) && Legal(cfg, timeout, Step(cfg, timeout, s, es[0]), es[1..]))
  }

  ghost function Exec(cfg: Config, timeout: real, s: Mundo, es: seq<Evento>): Mundo
    requires Legal(cfg, timeout, s, es)
    decreases |es|
  {
    if es == [] then s else Exec(cfg, timeout, Step(cfg, timeout, s, es[0]), es[1..])
  }

  /** While half open, at most one call is executing. */
  ghost predicate Exclusive(s: Mundo) {
    s.guardado.status == HALF_OPEN ==> forall c, d :: c in s.vuelos && d in s.vuelos ==> c == d
  }

  ghost predicate Inv(cfg: Config, timeout: real, s: Mundo) {
    && (forall c :: c in s.vuelos ==>
          && s.vuelos[c].snapshot.status != OPEN
          && s.vuelos[c].start <= s.now < s.vuelos[c].start + timeout + 1.0)
    && (s.guardado.status == OPEN ==> forall c :: c in s.vuelos ==>
          s.vuelos[c].start <= s.guardado.openUntil - cfg.open)
    && (s.guardado.status == HALF_OPEN ==> forall c :: c in s.vuelos ==>
          s.guardado.trialUntil == s.vuelos[c].start + timeout + 1.0)
    && Exclusive(s)
  }

  lemma StepInv(cfg: Config, timeout: real, s: Mundo, e: Evento)
    requires timeout + 1.0 <= cfg.open && timeout >= 0.0
    requires Inv(cfg, timeout, s) && Enabled(timeout, s, e)
    ensures Inv(cfg, timeout, Step(cfg, timeout, s, e))
  {}

  lemma {:induction false} RunInv(cfg: Config, timeout: real, s: Mundo, es: seq<Evento>)
    requires timeout + 1.0 <= cfg.open && timeout >= 0.0
    requires Inv(cfg, timeout, s) && Legal(cfg, timeout, s, es)
    ensures Inv(cfg, timeout, Exec(cfg, timeout, s, es))
    decreases |es|
  {
    if es != [] {
      StepInv(cfg, timeout, s, es[0]);
      RunInv(cfg, timeout, Step(cfg, timeout, s, es[0]), es[1..]);
    }
  }

  // --- the half-open guarantee, exactly -------------------------------------------------------

  lemma ExecCons(cfg: Config, timeout: real, s: Mundo, e: Evento, es: seq<Evento>)
    requires Enabled(timeout, s, e) && Legal(cfg, timeout, Step(cfg, timeout, s, e), es)
    ensures Legal(cfg, timeout, s, [e] + es)
    ensures Exec(cfg, timeout, s, [e] + es) == Exec(cfg, timeout, Step(cfg, timeout, s, e), es)
  {
    assert ([e] + es)[1..] == es;
  }

  /** Call 1 fails n times in a row while call 0 is still executing; then time passes until the
      breaker may half open, and call 2 begins. */
  ghost function BadRun(n: nat, open: real): seq<Evento> {
    if n == 0 then [Tick(open)] + ([Begin(2)] + []) else [Begin(1)] + ([End(1, false)] + BadRun(n - 1, open))
  }

  /** Call 0 began at t with a closed breaker that has since counted j failures. */
  ghost predicate Counting(cfg: Config, s: Mundo, t: real, j: nat) {
    && s.now == t
    && s.vuelos == map[0 := Vuelo(DEFAULT, t)]
    && s.guardado ==
         if j < cfg.threshold then Counted(cfg, t, j) else DEFAULT.(status := OPEN, openUntil := t + cfg.open)
  }

  /** Within one window of the epoch the failures count in the window that begins there. */
  function Counted(cfg: Config, t: real, j: nat): BreakerState {
    DEFAULT.(failures := j, windowStart := if j > 0 && t > cfg.window then t else 0.0)
  }

  lemma {:induction false} BadRunBreaks(cfg: Config, timeout: real, s: Mundo, t: real, j: nat)
    requires t >= 0.0 && cfg.window >= 0.0 && 0.0 <= cfg.open < timeout + 1.0
    requires j <= cfg.threshold && Counting(cfg, s, t, j)
    ensures Legal(cfg, timeout, s, BadRun(cfg.threshold - j, cfg.open))
    ensures !Exclusive(Exec(cfg, timeout, s, BadRun(cfg.threshold - j, cfg.open)))
    decreases cfg.threshold - j
  {
    if j == cfg.threshold {
      var s1 := Step(cfg, timeout, s, Tick(cfg.open));
      var s2 := Step(cfg, timeout, s1, Begin(2));
      assert s2.guardado.status == HALF_OPEN && 0 in s2.vuelos && 2 in s2.vuelos;
      ExecCons(cfg, timeout, s1, Begin(2), []);
      ExecCons(cfg, timeout, s, Tick(cfg.open), [Begin(2)] + []);
    } else {
      var s1 := Step(cfg, timeout, s, Begin(1));
      var s2 := Step(cfg, timeout, s1, End(1, false));
      assert s2.vuelos == s.vuelos;
      BadRunBreaks(cfg, timeout, s2, t, j + 1);
      var resto := BadRun(cfg.threshold - j - 1, cfg.open);
      ExecCons(cfg, timeout, s1, End(1, false), resto);
      ExecCons(cfg, timeout, s, Begin(1), [End(1, false)] + resto);
    }
  }

  ghost predicate LegalFrom(cfg: Config, timeout: real, t: real, s0: Mundo, es: seq<Evento>) {
    Inicial(s0) && s0.now == t && Legal(cfg, timeout, s0, es)
  }

  /** At whatever instant t the service starts: over all runs at most one call executes while the
      breaker is half open, exactly when a call and its one-second allowance fit in the open period.
      Calls started while closed may still be recorded late, and may overwrite an open breaker. */
  lemma HalfOpenExclusion(cfg: Config, timeout: real, t: real)
    requires cfg.threshold >= 1 && cfg.window >= 0.0 && cfg.open >= 0.0 && timeout >= 0.0 && t >= 0.0
    ensures (forall s0, es :: LegalFrom(cfg, timeout, t, s0, es) ==> Exclusive(Exec(cfg, timeout, s0, es))) <==>
            timeout + 1.0 <= cfg.open
  {
    if timeout + 1.0 <= cfg.open {
      forall s0, es | LegalFrom(cfg, timeout, t, s0, es) ensures Exclusive(Exec(cfg, timeout, s0, es)) {
        RunInv(cfg, timeout, s0, es);
      }
    } else {
      var s0 := Mundo(t, DEFAULT, map[]);
      var s1 := Step(cfg, timeout, s0, Begin(0));
      BadRunBreaks(cfg, timeout, s1, t, 0);
      ExecCons(cfg, timeout, s0, Begin(0), BadRun(cfg.threshold, cfg.open));
      assert LegalFrom(cfg, timeout, t, s0, [Begin(0)] + BadRun(cfg.threshold, cfg.open));
    }
  }

  // --- one call after another -------------------------------------------------------------------

  /** A call made at `start`; if it runs, it ends at `end`. */
  datatype Llamada = Llamada(start: real, end: real, ok: bool)

  function AfterCall(cfg: Config, timeout: real, st: BreakerState, c: Llamada): BreakerState {
    match Begins(st, c.start, timeout)
    case Rejected => st
    case Runs(x) =>
      var guardado := if x.status == HALF_OPEN then x else st;
      if c.ok then Succeeded(x, guardado) else Failed(cfg, x, c.end)
  }

  function AfterCalls(cfg: Config, timeout: real, st: BreakerState, cs: seq<Llamada>): BreakerState
    decreases |cs|
  {
    if cs == [] then st else AfterCall(cfg, timeout, AfterCalls(cfg, timeout, st, cs[..|cs| - 1]), cs[|cs| - 1])
  }

  /** The calls that executed `fn`. */
  function Executed(cfg: Config, timeout: real, st: BreakerState, cs: seq<Llamada>): seq<Llamada>
    decreases |cs|
  {
    if cs == [] then []
    else
      var n := |cs| - 1;
      Executed(cfg, timeout, st, cs[..n]) +
      if Begins(AfterCalls(cfg, timeout, st, cs[..n]), cs[n].start, timeout).Runs? then [cs[n]] else []
  }

  ghost predicate InOrder(cs: seq<Llamada>, desde: real) {
    && (forall i :: 0 <= i < |cs| ==> desde <= cs[i].start <= cs[i].end)
    && (forall i, j :: 0 <= i < j < |cs| ==> cs[i].end <= cs[j].start)
  }

  lemma Snoc(cfg: Config, timeout: real, st: BreakerState, cs: seq<Llamada>, c: Llamada)
    ensures AfterCalls(cfg, timeout, st, cs + [c]) == AfterCall(cfg, timeout, AfterCalls(cfg, timeout, st, cs), c)
    ensures Executed(cfg, timeout, st, cs + [c]) == Executed(cfg, timeout, st, cs) +
            if Begins(AfterCalls(cfg, timeout, st, cs), c.start, timeout).Runs? then [c] else []
  {
    assert (cs + [c])[..|cs|] == cs;
  }

  /** The last n of `ex` failed, all of them within `largo` of instant `a`. */
  ghost predicate LastFailed(ex: seq<Llamada>, n: nat, a: real, largo: real) {
    n <= |ex| && forall i :: |ex| - n <= i < |ex| ==> !ex[i].ok && a <= ex[i].end <= a + largo
  }

  /** A closed state's counter is the length of the run of failures `ex` ends in, inside its window. */
  ghost predicate Counts(cfg: Config, st: BreakerState, ex: seq<Llamada>, fin: real) {
    && st.status != HALF_OPEN
    && (st.status == CLOSED ==> LastFailed(ex, st.failures, st.windowStart, cfg.window))
    && 0.0 <= st.windowStart <= fin
  }

  lemma CountsOn(cfg: Config, timeout: real, st: BreakerState, ex: seq<Llamada>, fin: real, c: Llamada)
    requires Counts(cfg, st, ex, fin) && cfg.window >= 0.0 && fin <= c.start <= c.end
    ensures Counts(cfg, AfterCall(cfg, timeout, st, c), ex + if Begins(st, c.start, timeout).Runs?
            then [c] else [], c.end)
  {
    assert ex + [] == ex;
  }

  /** A closed breaker's counter is the length of a run of failures inside its window. */
  lemma {:induction false} ClosedCounts(cfg: Config, timeout: real, cs: seq<Llamada>)
    requires InOrder(cs, 0.0) && cfg.window >= 0.0
    ensures Counts(cfg, AfterCalls(cfg, timeout, DEFAULT, cs), Executed(cfg, timeout, DEFAULT, cs),
                   if cs == [] then 0.0 else cs[|cs| - 1].end)
    decreases |cs|
  {
    if cs != [] {
      var n := |cs| - 1;
      ClosedCounts(cfg, timeout, cs[..n]);
      CountsOn(cfg, timeout, AfterCalls(cfg, timeout, DEFAULT, cs[..n]), Executed(cfg, timeout, DEFAULT, cs[..n]),
               if n == 0 then 0.0 else cs[n - 1].end, cs[n]);
    }
  }

  /** One call from a closed state whose counter is the run of failures `ex` ends in. */
  lemma OpeningCall(cfg: Config, timeout: real, st: BreakerState, ex: seq<Llamada>, c: Llamada) returns (a: real)
    requires st.status == CLOSED && st.windowStart <= c.end && cfg.window >= 0.0
    requires LastFailed(ex, st.failures, st.windowStart, cfg.window)
    requires AfterCall(cfg, timeout, st, c).status == OPEN
    ensures Begins(st, c.start, timeout).Runs? && LastFailed(ex + [c], cfg.threshold, a, cfg.window)
  {
    a := if c.end - st.windowStart > cfg.window then c.end else st.windowStart;
  }

  /** A closed breaker opens only if the last `threshold` executed calls all failed within one window. */
  lemma OpensOnlyAfterThreshold(cfg: Config, timeout: real, cs: seq<Llamada>, c: Llamada)
    requires InOrder(cs, 0.0) && c.start <= c.end && (if cs == [] then 0.0 else cs[|cs| - 1].end) <= c.start &&
             cfg.window >= 0.0
    requires AfterCalls(cfg, timeout, DEFAULT, cs).status == CLOSED &&
             AfterCalls(cfg, timeout, DEFAULT, cs + [c]).status == OPEN
    ensures exists a :: LastFailed(Executed(cfg, timeout, DEFAULT, cs + [c]), cfg.threshold, a, cfg.window)
  {
    ClosedCounts(cfg, timeout, cs);
    Snoc(cfg, timeout, DEFAULT, cs, c);
    var a := OpeningCall(cfg, timeout, AfterCalls(cfg, timeout, DEFAULT, cs), Executed(cfg, timeout, DEFAULT, cs), c);
  }

  /** Some prefix of the calls leaves the breaker open. */
  ghost predicate Opens(cfg: Config, timeout: real, st: BreakerState, cs: seq<Llamada>) {
    exists k :: 0 <= k <= |cs| && OpenAfter(cfg, timeout, st, cs, k)
  }

  ghost predicate OpenAfter(cfg: Config, timeout: real, st: BreakerState, cs: seq<Llamada>, k: nat)
    requires k <= |cs|
  {
    AfterCalls(cfg, timeout, st, cs[..k]).status == OPEN
  }

  lemma OneCall(cfg: Config, timeout: real, st: BreakerState, c: Llamada)
    ensures AfterCalls(cfg, timeout, st, [c]) == AfterCall(cfg, timeout, st, c)
  {
    assert [c][..0] == [];
  }

  lemma {:induction false} ConsCalls(cfg: Config, timeout: real, st: BreakerState, c: Llamada, cs: seq<Llamada>)
    ensures AfterCalls(cfg, timeout, st, [c] + cs) == AfterCalls(cfg, timeout, AfterCall(cfg, timeout, st, c), cs)
    decreases |cs|
  {
    if cs == [] {
      OneCall(cfg, timeout, st, c);
      assert [c] + cs == [c];
    } else {
      var n := |cs| - 1;
      ConsCalls(cfg, timeout, st, c, cs[..n]);
      assert ([c] + cs)[..|cs|] == [c] + cs[..n];
    }
  }

  lemma OpensCons(cfg: Config, timeout: real, st: BreakerState, cs: seq<Llamada>)
    requires st.status == CLOSED && cs != []
    ensures Opens(cfg, timeout, st, cs) <==> Opens(cfg, timeout, AfterCall(cfg, timeout, st, cs[0]), cs[1..])
  {
    var st1 := AfterCall(cfg, timeout, st, cs[0]);
    forall k | 0 < k <= |cs|
      ensures OpenAfter(cfg, timeout, st, cs, k) == OpenAfter(cfg, timeout, st1, cs[1..], k - 1) {
      assert cs[..k] == [cs[0]] + cs[1..][..k - 1];
      ConsCalls(cfg, timeout, st, cs[0], cs[1..][..k - 1]);
    }
    if Opens(cfg, timeout, st1, cs[1..]) {
      var k :| 0 <= k <= |cs| - 1 && OpenAfter(cfg, timeout, st1, cs[1..], k);
      assert OpenAfter(cfg, timeout, st, cs, k + 1);
    }
    assert !OpenAfter(cfg, timeout, st, cs, 0);
  }

  lemma OpenOpens(cfg: Config, timeout: real, st: BreakerState, cs: seq<Llamada>)
    requires st.status == OPEN
    ensures Opens(cfg, timeout, st, cs)
  {
    assert OpenAfter(cfg, timeout, st, cs, 0);
  }

  /** Calls that all fail, one after the other. */
  ghost predicate Failures(cs: seq<Llamada>) {
    InOrder(cs, 0.0) && forall i :: 0 <= i < |cs| ==> !cs[i].ok
  }

  /** Failures that stay inside the window open the breaker exactly when the counter gets there. */
  lemma {:induction false} OpensWithinWindow(cfg: Config, timeout: real, st: BreakerState, cs: seq<Llamada>)
    requires st.status == CLOSED && st.failures < cfg.threshold && Failures(cs)
    requires forall i :: 0 <= i < |cs| ==> cs[i].end - st.windowStart <= cfg.window
    ensures Opens(cfg, timeout, st, cs) <==> st.failures + |cs| >= cfg.threshold
    decreases |cs|
  {
    if cs == [] {
      assert !OpenAfter(cfg, timeout, st, cs, 0);
    } else {
      var st1 := AfterCall(cfg, timeout, st, cs[0]);
      OpensCons(cfg, timeout, st, cs);
      if st1.status == OPEN {
        OpenOpens(cfg, timeout, st1, cs[1..]);
      } else {
        OpensWithinWindow(cfg, timeout, st1, cs[1..]);
      }
    }
  }

  /** How many of the calls end by `fin`. */
  function EndedBy(cs: seq<Llamada>, fin: real): (n: nat)
    ensures n <= |cs|
    decreases |cs|
  {
    if cs == [] then 0 else EndedBy(cs[1..], fin) + if cs[0].end <= fin then 1 else 0
  }

  lemma {:induction false} NoneEndedBy(cs: seq<Llamada>, fin: real)
    requires forall i :: 0 <= i < |cs| ==> cs[i].end > fin
    ensures EndedBy(cs, fin) == 0
    decreases |cs|
  {
    if cs != [] { NoneEndedBy(cs[1..], fin); }
  }

  lemma {:induction false} AllEndedBy(cs: seq<Llamada>, fin: real)
    requires forall i :: 0 <= i < |cs| ==> cs[i].end <= fin
    ensures EndedBy(cs, fin) == |cs|
    decreases |cs|
  {
    if cs != [] { AllEndedBy(cs[1..], fin); }
  }

  /** Consecutive failures that span at most one window's length open a closed breaker exactly when
      those before the end of its tumbling window, with the ones it has counted, reach the threshold,
      or those after it do. */
  lemma {:induction false} BurstExact(cfg: Config, timeout: real, st: BreakerState, cs: seq<Llamada>)
    requires st.status == CLOSED && st.failures < cfg.threshold && Failures(cs)
    requires cs != [] ==> cs[|cs| - 1].end - cs[0].end <= cfg.window
    ensures var j := EndedBy(cs, st.windowStart + cfg.window);
            Opens(cfg, timeout, st, cs) <==> st.failures + j >= cfg.threshold || |cs| - j >= cfg.threshold
    decreases |cs|
  {
    if cs == [] {
      assert !OpenAfter(cfg, timeout, st, cs, 0);
    } else {
      var st1 := AfterCall(cfg, timeout, st, cs[0]);
      var resto := cs[1..];
      OpensCons(cfg, timeout, st, cs);
      if cs[0].end - st.windowStart > cfg.window {
        PastWindow(cfg, timeout, st, cs);
      } else if st1.status == OPEN {
        OpenOpens(cfg, timeout, st1, resto);
      } else {
        BurstExact(cfg, timeout, st1, resto);
      }
    }
  }

  /** The first failure past the window opens a new one, and the rest are all within it. */
  lemma PastWindow(cfg: Config, timeout: real, st: BreakerState, cs: seq<Llamada>)
    requires st.status == CLOSED && st.failures < cfg.threshold && Failures(cs)
    requires cs != [] && cs[|cs| - 1].end - cs[0].end <= cfg.window < cs[0].end - st.windowStart
    ensures EndedBy(cs, st.windowStart + cfg.window) == 0
    ensures Opens(cfg, timeout, st, cs) <==> |cs| >= cfg.threshold
  {
    NonePast(cs, st.windowStart + cfg.window);
    OpensCons(cfg, timeout, st, cs);
    FirstPast(cfg, timeout, st, cs[0]);
    if cfg.threshold == 1 {
      OpenOpens(cfg, timeout, AfterCall(cfg, timeout, st, cs[0]), cs[1..]);
    } else {
      NewWindow(cfg, timeout, cs);
    }
  }

  lemma NewWindow(cfg: Config, timeout: real, cs: seq<Llamada>)
    requires Failures(cs) && cs != [] && cs[|cs| - 1].end - cs[0].end <= cfg.window && cfg.threshold > 1
    ensures Opens(cfg, timeout, DEFAULT.(failures := 1, windowStart := cs[0].end), cs[1..]) <==> |cs| >= cfg.threshold
  {
    FailuresTail(cs);
    OpensWithinWindow(cfg, timeout, DEFAULT.(failures := 1, windowStart := cs[0].end), cs[1..]);
  }

  lemma NonePast(cs: seq<Llamada>, fin: real)
    requires Failures(cs) && cs != [] && cs[0].end > fin
    ensures EndedBy(cs, fin) == 0
  {
    EndsBetween(cs);
    NoneEndedBy(cs, fin);
  }

  lemma FirstPast(cfg: Config, timeout: real, st: BreakerState, c: Llamada)
    requires st.status == CLOSED && cfg.threshold >= 1 && !c.ok && c.end - st.windowStart > cfg.window
    ensures cfg.threshold == 1 ==> AfterCall(cfg, timeout, st, c).status == OPEN
    ensures cfg.threshold > 1 ==> AfterCall(cfg, timeout, st, c) == DEFAULT.(failures := 1, windowStart := c.end)
  {}

  lemma FailuresTail(cs: seq<Llamada>)
    requires Failures(cs) && cs != []
    ensures Failures(cs[1..])
    ensures forall i :: 0 <= i < |cs[1..]| ==> cs[1..][i].end <= cs[|cs| - 1].end
  {}

  lemma EndsBetween(cs: seq<Llamada>)
    requires Failures(cs) && cs != []
    ensures forall i :: 0 <= i < |cs| ==> cs[0].end <= cs[i].end <= cs[|cs| - 1].end
  {}

  /** 2 * threshold - 1 of them, with the ones counted, open it wherever its window happens to stand. */
  lemma BurstOpens(cfg: Config, timeout: real, st: BreakerState, cs: seq<Llamada>)
    requires st.status == CLOSED && st.failures < cfg.threshold && |cs| + st.failures >= 2 * cfg.threshold - 1
    requires Failures(cs) && cs != [] && cs[|cs| - 1].end - cs[0].end <= cfg.window
    ensures Opens(cfg, timeout, st, cs)
  {
    BurstExact(cfg, timeout, st, cs);
  }

  /** A closed breaker has counted fewer than the threshold, and one that has counted none has no
      window of its own. */
  lemma {:induction false} ClosedIsBelow(cfg: Config, timeout: real, cs: seq<Llamada>)
    requires cfg.threshold >= 1
    ensures var st := AfterCalls(cfg, timeout, DEFAULT, cs);
            && (st.status == CLOSED ==> st.failures < cfg.threshold)
            && (st.failures == 0 ==> st.windowStart == 0.0)
            && (st.status != CLOSED ==> st.failures == 0)
    decreases |cs|
  {
    if cs != [] { ClosedIsBelow(cfg, timeout, cs[..|cs| - 1]); }
  }

  /** A run of calls `antes` that leaves the breaker closed, then a burst of n failures, the first of
      them later than one window after the epoch. */
  ghost predicate Burst(cfg: Config, timeout: real, antes: seq<Llamada>, cs: seq<Llamada>, n: nat) {
    && InOrder(antes + cs, 0.0) && Failures(cs) && |cs| == n
    && AfterCalls(cfg, timeout, DEFAULT, antes).status == CLOSED
    && (cs != [] ==> cs[0].end > cfg.window && cs[|cs| - 1].end - cs[0].end <= cfg.window)
  }

  /** How many failures it takes: the window can split them into two lots that both fall short. */
  function Needed(cfg: Config): int {
    if cfg.threshold == 1 || cfg.window == 0.0 then cfg.threshold else 2 * cfg.threshold - 2
  }

  /** n consecutive failures within one window's length are sure to open a closed breaker, whatever
      calls came before, exactly when n >= 2 * threshold - 2 (save for the degenerate settings). */
  lemma BurstSize(cfg: Config, timeout: real, n: nat)
    requires cfg.threshold >= 1 && cfg.window >= 0.0
    ensures (forall antes, cs :: Burst(cfg, timeout, antes, cs, n) ==>
               Opens(cfg, timeout, AfterCalls(cfg, timeout, DEFAULT, antes), cs)) <==>
            n >= Needed(cfg)
  {
    if n >= Needed(cfg) {
      forall antes, cs | Burst(cfg, timeout, antes, cs, n)
        ensures Opens(cfg, timeout, AfterCalls(cfg, timeout, DEFAULT, antes), cs) {
        BigBurstOpens(cfg, timeout, antes, cs, n);
      }
    } else {
      var antes, cs := SmallBurst(cfg, timeout, n);
      assert Burst(cfg, timeout, antes, cs, n) && !Opens(cfg, timeout, AfterCalls(cfg, timeout, DEFAULT, antes), cs);
    }
  }

  lemma BigBurstOpens(cfg: Config, timeout: real, antes: seq<Llamada>, cs: seq<Llamada>, n: nat)
    requires cfg.threshold >= 1 && cfg.window >= 0.0 && Burst(cfg, timeout, antes, cs, n) && n >= Needed(cfg)
    ensures Opens(cfg, timeout, AfterCalls(cfg, timeout, DEFAULT, antes), cs)
  {
    var st := AfterCalls(cfg, timeout, DEFAULT, antes);
    var fin := st.windowStart + cfg.window;
    ClosedIsBelow(cfg, timeout, antes);
    BurstExact(cfg, timeout, st, cs);
    if cs != [] { EndsBetween(cs); }
    if st.failures == 0 || (cfg.window == 0.0 && cs[0].end > fin) {
      NoneEndedBy(cs, fin);
    } else if cfg.window == 0.0 {
      AllEndedBy(cs, fin);
    }
  }

  function FailsAt(t: real): Llamada { Llamada(t, t, false) }

  /** n failures at once. */
  function Fails(n: nat, t: real): (cs: seq<Llamada>)
    ensures |cs| == n && forall i :: 0 <= i < n ==> cs[i] == FailsAt(t)
  {
    if n == 0 then [] else Fails(n - 1, t) + [FailsAt(t)]
  }

  lemma SmallBurst(cfg: Config, timeout: real, n: nat) returns (antes: seq<Llamada>, cs: seq<Llamada>)
    requires cfg.threshold >= 1 && cfg.window >= 0.0 && n < Needed(cfg)
    ensures Burst(cfg, timeout, antes, cs, n) && !Opens(cfg, timeout, AfterCalls(cfg, timeout, DEFAULT, antes), cs)
  {
    var t := cfg.window + 1.0;
    if cfg.threshold == 1 || cfg.window == 0.0 {
      antes, cs := [], Fails(n, t);
      WholeBurst(cfg, timeout, n, t);
    } else {
      var m := if n <= cfg.threshold - 2 then n else cfg.threshold - 2;
      antes, cs := [FailsAt(t)], Lots(m, n - m, t, cfg.window);
      SplitBurst(cfg, timeout, m, n - m, t);
    }
  }

  lemma WholeBurst(cfg: Config, timeout: real, n: nat, t: real)
    requires n < cfg.threshold && 0.0 <= cfg.window < t
    ensures Burst(cfg, timeout, [], Fails(n, t), n) &&
            !Opens(cfg, timeout, AfterCalls(cfg, timeout, DEFAULT, []), Fails(n, t))
  {
    var cs := Fails(n, t);
    assert [] + cs == cs && AfterCalls(cfg, timeout, DEFAULT, []) == DEFAULT;
    WholeStays(cfg, timeout, n, t);
  }

  lemma WholeStays(cfg: Config, timeout: real, n: nat, t: real)
    requires n < cfg.threshold && 0.0 <= cfg.window < t
    ensures Failures(Fails(n, t)) && !Opens(cfg, timeout, DEFAULT, Fails(n, t))
  {
    NoneEndedBy(Fails(n, t), cfg.window);
    BurstExact(cfg, timeout, DEFAULT, Fails(n, t));
  }

  /** m failures a window after t, and l another window later. */
  function Lots(m: nat, l: nat, t: real, w: real): seq<Llamada> {
    Fails(m, t + w) + Fails(l, t + w + w)
  }

  /** A first failure opens a window; up to threshold - 2 more come at its end and up to
      threshold - 1 after it. */
  lemma SplitBurst(cfg: Config, timeout: real, m: nat, l: nat, t: real)
    requires cfg.threshold >= 2 && cfg.window > 0.0 && m <= cfg.threshold - 2 && l <= cfg.threshold - 1 &&
             t > cfg.window
    ensures Burst(cfg, timeout, [FailsAt(t)], Lots(m, l, t, cfg.window), m + l)
    ensures !Opens(cfg, timeout, AfterCalls(cfg, timeout, DEFAULT, [FailsAt(t)]), Lots(m, l, t, cfg.window))
  {
    FirstFailure(cfg, timeout, t);
    SplitShape(m, l, t, cfg.window);
    SplitStays(cfg, timeout, m, l, t);
  }

  lemma FirstFailure(cfg: Config, timeout: real, t: real)
    requires cfg.threshold >= 2 && t > cfg.window
    ensures AfterCalls(cfg, timeout, DEFAULT, [FailsAt(t)]) == DEFAULT.(failures := 1, windowStart := t)
  {
    OneCall(cfg, timeout, DEFAULT, FailsAt(t));
  }

  lemma SplitStays(cfg: Config, timeout: real, m: nat, l: nat, t: real)
    requires cfg.window > 0.0 && m + 1 < cfg.threshold && l < cfg.threshold && t > cfg.window
    ensures !Opens(cfg, timeout, DEFAULT.(failures := 1, windowStart := t), Lots(m, l, t, cfg.window))
  {
    SplitShape(m, l, t, cfg.window);
    TwoLots(Fails(m, t + cfg.window), Fails(l, t + cfg.window + cfg.window), t + cfg.window);
    BurstExact(cfg, timeout, DEFAULT.(failures := 1, windowStart := t), Lots(m, l, t, cfg.window));
  }

  lemma SplitShape(m: nat, l: nat, t: real, w: real)
    requires t > w > 0.0
    ensures var cs := Lots(m, l, t, w);
            && |cs| == m + l && InOrder([FailsAt(t)] + cs, 0.0) && Failures(cs)
            && (cs != [] ==> cs[0].end > w && cs[|cs| - 1].end - cs[0].end <= w)
  {
    var cs := Lots(m, l, t, w);
    assert forall i :: 0 <= i < m + l ==> cs[i] == FailsAt(if i < m then t + w else t + w + w);
  }

  lemma {:induction false} TwoLots(a: seq<Llamada>, b: seq<Llamada>, fin: real)
    requires forall i :: 0 <= i < |a| ==> a[i].end <= fin
    requires forall i :: 0 <= i < |b| ==> b[i].end > fin
    ensures EndedBy(a + b, fin) == |a|
    decreases |a|
  {
    if a == [] {
      assert a + b == b;
      NoneEndedBy(b, fin);
    } else {
      assert (a + b)[1..] == a[1..] + b;
      TwoLots(a[1..], b, fin);
    }
  }

  /** Seven failures one second apart, at t + 58 to t + 64. */
  function Seven(t: real): (cs: seq<Llamada>)
    ensures |cs| == 7 && forall i :: 0 <= i < 7 ==> cs[i] == FailsAt(t + 58.0 + i as real)
  {
    seq(7, i => FailsAt(t + 58.0 + i as real))
  }

  lemma SevenEnded(t: real)
    ensures EndedBy(Seven(t), t + 60.0) == 3
  {
    var cs := Seven(t);
    assert cs == cs[..3] + cs[3..];
    TwoLots(cs[..3], cs[3..], t + 60.0);
  }

  lemma SevenShape(t: real)
    requires t > 60.0
    ensures InOrder([FailsAt(t)] + Seven(t), 0.0) && Failures(Seven(t))
  {
    var cs := [FailsAt(t)] + Seven(t);
    assert forall i :: 1 <= i < 8 ==> cs[i] == FailsAt(t + 57.0 + i as real);
  }

  /** At any time of day: with the default settings, a failure at t and seven in six seconds around
      the end of the window it opened leave the breaker closed. */
  lemma SevenFailuresMayNotOpen(timeout: real, t: real)
    requires t > 60.0
    ensures var cfg := Config(5, 60.0, 30.0);
            Burst(cfg, timeout, [FailsAt(t)], Seven(t), 7) &&
              !Opens(cfg, timeout, AfterCalls(cfg, timeout, DEFAULT, [FailsAt(t)]), Seven(t))
  {
    var cfg := Config(5, 60.0, 30.0);
    FirstFailure(cfg, timeout, t);
    SevenShape(t);
    SevenEnded(t);
    BurstExact(cfg, timeout, DEFAULT.(failures := 1, windowStart := t), Seven(t));
  }

  /** Once open and while calls keep failing, consecutive executions are at least `open` apart. */
  lemma {:induction false} OutageIsProbedSlowly(cfg: Config, timeout: real, st: BreakerState, cs: seq<Llamada>)
    requires st.status == OPEN && InOrder(cs, 0.0)
    requires forall i :: 0 <= i < |cs| ==> !cs[i].ok
    ensures var ex := Executed(cfg, timeout, st, cs); var fin := AfterCalls(cfg, timeout, st, cs);
            && fin.status == OPEN
            && fin.openUntil == (if ex == [] then st.openUntil else ex[|ex| - 1].end + cfg.open)
            && (ex != [] ==> ex[0].start >= st.openUntil)
            && (forall i :: 0 <= i < |ex| - 1 ==> ex[i + 1].start >= ex[i].end + cfg.open)
    decreases |cs|
  {
    if cs != [] {
      OutageIsProbedSlowly(cfg, timeout, st, cs[..|cs| - 1]);
    }
  }

  // --- recovery -----------------------------------------------------------------------------------

  /** Between sequential calls the breaker is open, or closed with no more than its counter and window. */
  lemma {:induction false} RestingState(cfg: Config, timeout: real, cs: seq<Llamada>)
    ensures var st := AfterCalls(cfg, timeout, DEFAULT, cs);
            st.status == OPEN || st == DEFAULT.(failures := st.failures, windowStart := st.windowStart)
    ensures var st := AfterCalls(cfg, timeout, DEFAULT, cs); st.failures == 0 ==> st.windowStart == 0.0
    decreases |cs|
  {
    if cs != [] { RestingState(cfg, timeout, cs[..|cs| - 1]); }
  }

  /** After any sequential calls the next one is turned away exactly if the breaker is open and its period
      is not over, and then leaves no trace; and if it executes and succeeds the breaker is as new. */
  lemma SuccessRestores(cfg: Config, timeout: real, cs: seq<Llamada>, c: Llamada)
    requires c.start >= 0.0
    ensures var st := AfterCalls(cfg, timeout, DEFAULT, cs);
            var luego := AfterCalls(cfg, timeout, DEFAULT, cs + [c]);
            var corre := !(st.status == OPEN && c.start < st.openUntil);
            && Executed(cfg, timeout, DEFAULT, cs + [c]) == Executed(cfg, timeout, DEFAULT, cs) + (if corre
                 then [c] else [])
            && (!corre ==> luego == st)
            && (corre && c.ok ==> luego == DEFAULT)
  {
    RestingState(cfg, timeout, cs);
    Snoc(cfg, timeout, DEFAULT, cs, c);
  }

  /** How long the store can keep calls away. */
  ghost predicate Bounded(cfg: Config, timeout: real, s: Mundo) {
    && (s.guardado.status == OPEN ==> s.guardado.openUntil <= s.now + cfg.open)
    && (s.guardado.status == HALF_OPEN ==> s.guardado.trialUntil <= s.now + timeout + 1.0)
    && forall c :: c in s.vuelos ==> s.vuelos[c].snapshot.status != OPEN
  }

  lemma {:induction false} RunBounded(cfg: Config, timeout: real, s: Mundo, es: seq<Evento>)
    requires Bounded(cfg, timeout, s) && Legal(cfg, timeout, s, es)
    ensures Bounded(cfg, timeout, Exec(cfg, timeout, s, es))
    decreases |es|
  {
    if es != [] { RunBounded(cfg, timeout, Step(cfg, timeout, s, es[0]), es[1..]); }
  }

  /** The instant from which the stored state lets the next call through. */
  function AdmitsFrom(st: BreakerState): real {
    match st.status case CLOSED => 0.0 case OPEN => st.openUntil case HALF_OPEN => st.trialUntil
  }

  /** In every reachable state of every interleaving, whether trials were recorded or abandoned, a call is
      let through exactly from a certain instant on, which is at most the open period or the timeout and
      one second away; and a success closes the breaker, unless it began with nothing to reset. */
  lemma NeverLockedOut(cfg: Config, timeout: real, t: real, s0: Mundo, es: seq<Evento>, c: nat)
    requires LegalFrom(cfg, timeout, t, s0, es) && cfg.open >= 0.0 && timeout >= 0.0
    requires Enabled(timeout, Exec(cfg, timeout, s0, es), Begin(c))
    ensures var s := Exec(cfg, timeout, s0, es); var desde := AdmitsFrom(s.guardado);
            && (c in Step(cfg, timeout, s, Begin(c)).vuelos <==> s.guardado.status == CLOSED || s.now >= desde)
            && (desde <= s.now + cfg.open || desde <= s.now + timeout + 1.0)
            && forall d :: d in s.vuelos ==>
                 var x := s.vuelos[d].snapshot;
                 Step(cfg, timeout, s, End(d, true)).guardado ==
                   if x.status == CLOSED && x.failures == 0 then s.guardado else DEFAULT
  {
    RunBounded(cfg, timeout, s0, es);
    RunNow(cfg, timeout, s0, es);
  }

  lemma {:induction false} RunNow(cfg: Config, timeout: real, s: Mundo, es: seq<Evento>)
    requires Legal(cfg, timeout, s, es)
    ensures s.now <= Exec(cfg, timeout, s, es).now
    decreases |es|
  {
    if es != [] { RunNow(cfg, timeout, Step(cfg, timeout, s, es[0]), es[1..]); }
  }

  // --- the breaker and its store ------------------------------------------------------------------

  class InMemoryBreakerStateStore {
    var states: map<string, BreakerState>

    constructor ()
      ensures states == map[]
    {
      states := map[];
    }

    function Get(name: string): BreakerState
      reads this
    {
      if name in states then states[name] else DEFAULT
    }

    method Save(name: string, st: BreakerState)
      modifies this
      ensures states == old(states)[name := st]
    {
      states := states[name := st];
    }
  }

  datatype CallResult = CircuitOpenError | Raised | Returned

  class Breaker {
    const name: string
    const store: InMemoryBreakerStateStore
    const cfg: Config

    constructor (name: string, store: InMemoryBreakerStateStore, cfg: Config)
      ensures this.name == name && this.store == store && this.cfg == cfg
    {
      this.name, this.store, this.cfg := name, store, cfg;
    }

    /** `ok` says how `fn` ends within its timeout, `end` when. */
    method Call(timeout: real, start: real, end: real, ok: bool) returns (r: CallResult)
      modifies store
      ensures store.Get(name) == AfterCall(cfg, timeout, old(store.Get(name)), Llamada(start, end, ok))
      ensures forall n :: n != name ==> store.Get(n) == old(store.Get(n))
      ensures r == if Begins(old(store.Get(name)), start, timeout) == Rejected then CircuitOpenError
                   else if ok then Returned else Raised
    {
      var state := store.Get(name);
      if state.status == OPEN {
        if start < state.openUntil {
          return CircuitOpenError;
        }
        state := state.(status := HALF_OPEN, trialUntil := 0.0);
      }
      if state.status == HALF_OPEN {
        if start < state.trialUntil {
          return CircuitOpenError;
        }
        state := state.(trialUntil := start + timeout + 1.0);
        store.Save(name, state);
      }
      if !ok {
        RecordFailure(state, end);
        return Raised;
      }
      if state.status != CLOSED || state.failures != 0 {
        store.Save(name, DEFAULT);
      }
      r := Returned;
    }

    method RecordFailure(snapshot: BreakerState, now: real)
      modifies store
      ensures store.states == old(store.states)[name := Failed(cfg, snapshot, now)]
    {
      if snapshot.status == HALF_OPEN {
        store.Save(name, BreakerState(OPEN, 0, 0.0, now + cfg.open, 0.0));
        return;
      }
      var state := snapshot;
      if now - state.windowStart > cfg.window {
        state := BreakerState(CLOSED, 1, now, 0.0, 0.0);
      } else {
        state := state.(failures := state.failures + 1);
      }
      if state.failures >= cfg.threshold {
        state := BreakerState(OPEN, 0, 0.0, now + cfg.open, 0.0);
      }
      store.Save(name, state);
    }
  }
}
