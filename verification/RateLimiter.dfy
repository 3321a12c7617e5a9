/** The sliding-window issuance limit: a pruned queue that must agree with counting over the whole
    history of allowed hits. */
module RateLimiter {
  import opened Base

  const MAX_EMISIONES := 30
  const VENTANA_SEGUNDOS := 60
  const VENTANA := VENTANA_SEGUNDOS * SECOND

  // --- the full-history specification -----------------------------------------------------

  /** How many of `h` lie less than a window before `now`. */
  function Recent(h: seq<Instant>, now: Instant): nat {
    if h == [] then 0
    else Recent(h[..|h| - 1], now) + if now - h[|h| - 1] < 60 * SECOND then 1 else 0
  }

  ghost predicate Sorted(h: seq<Instant>) {
    forall i, j :: 0 <= i <= j < |h| ==> h[i] <= h[j]
  }

  /** The i-th hit was allowed, given the ones before it. */
  ghost predicate AllowedAt(h: seq<Instant>, i: nat)
    requires i < |h|
  {
    Recent(h[..i], h[i]) < 30
  }

  ghost predicate Admissible(h: seq<Instant>) {
    Sorted(h) && forall i :: 0 <= i < |h| ==> AllowedAt(h, i)
  }

  /** How many of `h` lie in [a, a + window). */
  function InWindow(h: seq<Instant>, a: Instant): nat {
    if h == [] then 0
    else InWindow(h[..|h| - 1], a) + if a <= h[|h| - 1] < a + 60 * SECOND then 1 else 0
  }

  lemma {:induction false} InWindowIsRecent(h: seq<Instant>, a: Instant, t: Instant)
    requires a <= t < a + VENTANA
    ensures InWindow(h, a) <= Recent(h, t)
    decreases |h|
  {
    if h != [] { InWindowIsRecent(h[..|h| - 1], a, t); }
  }

  /** No half-open interval of 60 s, wherever it starts, contains more than 30 allowed hits. */
  lemma {:induction false} NoWindowExceedsLimit(h: seq<Instant>, a: Instant)
    requires Admissible(h)
    ensures InWindow(h, a) <= 30
    decreases |h|
  {
    if h != [] {
      var n := |h| - 1;
      var antes := h[..n];
      forall i | 0 <= i < n ensures AllowedAt(antes, i) {
        assert AllowedAt(h, i) && antes[..i] == h[..i];
      }
      assert AllowedAt(h, n);
      NoWindowExceedsLimit(antes, a);
      if a <= h[n] < a + VENTANA { InWindowIsRecent(antes, a, h[n]); }
    }
  }

  /** With n expired hits at the front and none behind them, the rest are the recent ones. */
  lemma {:induction false} RecentIsTail(h: seq<Instant>, n: nat, now: Instant)
    requires n <= |h|
    requires forall i :: 0 <= i < n ==> now - h[i] >= VENTANA
    requires forall i :: n <= i < |h| ==> now - h[i] < VENTANA
    ensures Recent(h, now) == |h| - n
    decreases |h|
  {
    if h != [] {
      var m := |h| - 1;
      if n == |h| { RecentIsTail(h[..m], m, now); } else { RecentIsTail(h[..m], n, now); }
    }
  }

  lemma {:induction false} RecentShrinks(h: seq<Instant>, now: Instant, later: Instant)
    requires now <= later
    ensures Recent(h, later) <= Recent(h, now)
    decreases |h|
  {
    if h != [] { RecentShrinks(h[..|h| - 1], now, later); }
  }

  /** If no other hit comes between, one `k` seconds from now is allowed exactly when `k >= r`. */
  ghost predicate LeastWait(h: seq<Instant>, now: Instant, r: nat) {
    forall k: nat :: AllowedIn(h, now, k) <==> k >= r
  }

  predicate AllowedIn(h: seq<Instant>, now: Instant, k: nat) {
    Recent(h, now + k * SECOND) < 30
  }

  /** A hit is allowed exactly when fewer than 30 allowed ones lie less than 60 s back, and a refusal
      says exactly how long to wait. */
  ghost predicate Answers(h: seq<Instant>, now: Instant, allowed: bool, retryAfter: nat) {
    && (allowed <==> Recent(h, now) < 30)
    && (!allowed ==> retryAfter >= 1 && LeastWait(h, now, retryAfter))
  }

  /** The queue is the history less hits that have expired. */
  ghost predicate KeyOk(h: seq<Instant>, q: seq<Instant>, t: Instant) {
    && |q| <= |h| && q == h[|h| - |q|..] && |q| <= MAX_EMISIONES
    && Admissible(h)
    && (forall i :: 0 <= i < |h| ==> h[i] <= t)
    && (forall i :: 0 <= i < |h| - |q| ==> t - h[i] >= VENTANA)
  }

  lemma AdmissibleSnoc(h: seq<Instant>, now: Instant)
    requires Admissible(h) && (forall i :: 0 <= i < |h| ==> h[i] <= now) && Recent(h, now) < MAX_EMISIONES
    ensures Admissible(h + [now])
  {
    var g := h + [now];
    forall i | 0 <= i < |g| ensures AllowedAt(g, i) {
      if i < |h| { assert AllowedAt(h, i) && g[..i] == h[..i]; } else { assert g[..i] == h; }
    }
  }

  lemma AdmitKeeps(h: seq<Instant>, q: seq<Instant>, now: Instant)
    requires KeyOk(h, q, now) && |q| < MAX_EMISIONES && Recent(h, now) < MAX_EMISIONES
    ensures KeyOk(h + [now], q + [now], now)
  {
    AdmissibleSnoc(h, now);
    var n := |h| - |q|;
    assert (h + [now])[n..] == h[n..] + [now];
  }

  /** The defaultdict of queues. */
  function At(m: map<string, seq<Instant>>, key: string): seq<Instant> {
    if key in m then m[key] else []
  }

  lemma AtUpdated(m: map<string, seq<Instant>>, key: string, q: seq<Instant>)
    ensures At(m[key := q], key) == q
    ensures forall k :: k != key ==> At(m[key := q], k) == At(m, k)
  {}

  ghost predicate AllOk(hist: map<string, seq<Instant>>, hits: map<string, seq<Instant>>, t: Instant) {
    forall key: string :: EntryOk(hist, hits, t, key)
  }

  ghost predicate EntryOk(hist: map<string, seq<Instant>>, hits: map<string, seq<Instant>>, t: Instant, key: string) {
    KeyOk(At(hist, key), At(hits, key), t)
  }

  lemma AllOkUpdate(hist: map<string, seq<Instant>>, hits: map<string, seq<Instant>>, t: Instant, key: string,
                    h: seq<Instant>, q: seq<Instant>, now: Instant)
    requires AllOk(hist, hits, t) && t <= now && KeyOk(h, q, now)
    ensures AllOk(hist[key := h], hits[key := q], now)
  {
    var hist', hits' := hist[key := h], hits[key := q];
    AtUpdated(hist, key, h);
    AtUpdated(hits, key, q);
    forall k: string ensures EntryOk(hist', hits', now, k) {
      if k != key { EntryLater(hist, hits, t, hist', hits', now, k); }
    }
  }

  lemma EntryOf(hist: map<string, seq<Instant>>, hits: map<string, seq<Instant>>, t: Instant, key: string)
    requires AllOk(hist, hits, t)
    ensures KeyOk(At(hist, key), At(hits, key), t)
  {
    assert EntryOk(hist, hits, t, key);
  }

  lemma EntryLater(hist: map<string, seq<Instant>>, hits: map<string, seq<Instant>>, t: Instant,
                   hist': map<string, seq<Instant>>, hits': map<string, seq<Instant>>, now: Instant, k: string)
    requires EntryOk(hist, hits, t, k) && t <= now
    requires At(hist', k) == At(hist, k) && At(hits', k) == At(hits, k)
    ensures EntryOk(hist', hits', now, k)
  {
    KeyLater(At(hist, k), At(hits, k), t, now);
  }

  lemma KeyLater(h: seq<Instant>, q: seq<Instant>, t: Instant, now: Instant)
    requires KeyOk(h, q, t) && t <= now
    ensures KeyOk(h, q, now)
  {}

  lemma WaitIsLeast(h: seq<Instant>, q: seq<Instant>, now: Instant, wait: int, r: nat)
    requires KeyOk(h, q, now) && |q| == MAX_EMISIONES && wait == VENTANA - (now - q[0])
    requires forall i :: |h| - |q| <= i < |h| ==> now - h[i] < VENTANA
    requires r == Max(1, (wait + SECOND - 1) / SECOND)
    ensures r >= 1 && LeastWait(h, now, r)
  {
    var n := |h| - |q|;
    assert q[0] == h[n];
    assert (r - 1) * SECOND < wait <= r * SECOND;
    assert forall i :: n <= i < |h| ==> h[n] <= h[i];
    OneFewer(h, n, now + r * SECOND);
    forall k: nat ensures AllowedIn(h, now, k) <==> k >= r {
      if k < r {
        assert k * SECOND <= (r - 1) * SECOND;
        RecentIsTail(h, n, now + k * SECOND);
      } else {
        RecentShrinks(h, now + r * SECOND, now + k * SECOND);
      }
    }
  }

  /** Once the oldest recent hit expires there is room. */
  lemma OneFewer(h: seq<Instant>, n: nat, t: Instant)
    requires n < |h| && |h| - n <= MAX_EMISIONES
    requires forall i :: 0 <= i <= n ==> t - h[i] >= VENTANA
    ensures Recent(h, t) < MAX_EMISIONES
  {
    TailBounds(h, n + 1, t);
  }

  lemma {:induction false} TailBounds(h: seq<Instant>, n: nat, t: Instant)
    requires n <= |h| && forall i :: 0 <= i < n ==> t - h[i] >= VENTANA
    ensures Recent(h, t) <= |h| - n
    decreases |h|
  {
    if h != [] {
      var m := |h| - 1;
      if n == |h| { TailBounds(h[..m], m, t); } else { TailBounds(h[..m], n, t); }
    }
  }

  // --- the limiter ----------------------------------------------------------------------------

  class FakeRateLimiter {
    var hits: map<string, seq<Instant>>
    ghost var historial: map<string, seq<Instant>>  // every allowed hit
    ghost var ultimo: Instant                       // the last clock reading

    ghost function Historial(key: string): seq<Instant>
      reads this
    {
      At(historial, key)
    }

    ghost predicate Valid()
      reads this
    {
      AllOk(historial, hits, ultimo)
    }

    constructor (now: Instant)
      ensures Valid() && ultimo == now && forall key :: Historial(key) == []
    {
      hits, historial, ultimo := map[], map[], now;
    }

    /** Over every run of the limiter, each key keeps to the limit in every window. */
    lemma WindowRespected(key: string, a: Instant)
      requires Valid()
      ensures InWindow(Historial(key), a) <= 30
    {
      EntryOf(historial, hits, ultimo, key);
      NoWindowExceedsLimit(Historial(key), a);
    }

    method Hit(key: string, now: Instant) returns (allowed: bool, retryAfter: nat)
      requires Valid() && now >= ultimo
      modifies this
      ensures Valid() && ultimo == now
      ensures Answers(old(Historial(key)), now, allowed, retryAfter)
      ensures Historial(key) == if allowed then old(Historial(key)) + [now] else old(Historial(key))
      ensures forall k :: k != key ==> At(historial, k) == At(old(historial), k) && At(hits, k) == At(old(hits), k)
    {
      var cola := At(hits, key);
      ghost var h, t := At(historial, key), ultimo;
      EntryOf(historial, hits, ultimo, key);
      assert KeyOk(h, cola, t);
      var q;
      allowed, retryAfter, q := Admit(h, cola, t, now);
      ghost var g := if allowed then h + [now] else h;
      AllOkUpdate(historial, hits, ultimo, key, g, q, now);
      AtUpdated(historial, key, g);
      AtUpdated(hits, key, q);
      hits := hits[key := q];
      historial := historial[key := g];
      ultimo := now;
    }

    /** The decision on one key's queue, given the history it stands for. */
    static method Admit(ghost h: seq<Instant>, cola: seq<Instant>, ghost t: Instant, now: Instant)
      returns (allowed: bool, retryAfter: nat, q: seq<Instant>)
      requires KeyOk(h, cola, t) && t <= now
      ensures Answers(h, now, allowed, retryAfter)
      ensures KeyOk(if allowed then h + [now] else h, q, now)
    {
      q := Prune(h, cola, t, now);
      RecentIsTail(h, |h| - |q|, now);
      if |q| >= MAX_EMISIONES {
        var wait := VENTANA - (now - q[0]);
        retryAfter := Max(1, (wait + SECOND - 1) / SECOND);
        WaitIsLeast(h, q, now, wait, retryAfter);
        allowed := false;
      } else {
        AdmitKeeps(h, q, now);
        q := q + [now];
        allowed, retryAfter := true, 0;
      }
    }

    static method Prune(ghost h: seq<Instant>, cola: seq<Instant>, ghost t: Instant, now: Instant)
      returns (q: seq<Instant>)
      requires KeyOk(h, cola, t) && t <= now
      ensures KeyOk(h, q, now)
      ensures forall i :: |h| - |q| <= i < |h| ==> now - h[i] < VENTANA
    {
      q := cola;
      while q != [] && now - q[0] >= VENTANA
        invariant KeyOk(h, q, now)
        decreases |q|
      {
        assert q[1..] == h[|h| - |q| + 1..];
        q := q[1..];
      }
      if q != [] { assert q[0] == h[|h| - |q|]; }
    }
  }
}
