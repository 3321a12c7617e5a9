/** Whole-second token claims against the sub-second expiry of the credential. `exp` and `iat` have the
    meaning of sections 4.1.4 and 4.1.6 of RFC 7519. */
module TokenTimes {
  import opened Base

  const CLOCK_SKEW_SECONDS := 5

  /** `int(x.timestamp())`: truncation toward zero, which is not the floor before the epoch. */
  function Truncate(t: Instant): int {
    if t >= 0 then t / SECOND else -((-t) / SECOND)
  }

  datatype Claims = Claims(iat: int, exp: int)

  /** The claims `build` signs, beside the credential that expires at `emitidaAt + ttl`. */
  function Sign(emitidaAt: Instant, ttl: nat): Claims {
    Claims(Truncate(emitidaAt), Truncate(emitidaAt + ttl * SECOND))
  }

  datatype Veredicto = Accepted | Expired | IssuedInTheFuture

  function Verify(c: Claims, now: Instant): Veredicto {
    var instante := Truncate(now);
    if instante >= c.exp then Expired
    else if c.iat > instante + CLOCK_SKEW_SECONDS then IssuedInTheFuture
    else Accepted
  }

  lemma TruncateMonotone(a: Instant, b: Instant)
    requires a <= b
    ensures Truncate(a) <= Truncate(b)
  {
    if a < 0 <= b {
    } else if 0 <= a {
      assert b / SECOND - a / SECOND >= 0;
    } else {
      assert (-a) / SECOND >= (-b) / SECOND;
    }
  }

  /** The first instant whose whole second is `j` or later. */
  function FirstInstant(j: int): Instant {
    if j > 0 then j * SECOND else (j - 1) * SECOND + 1
  }

  lemma TruncateReaches(j: int, now: Instant)
    ensures Truncate(now) >= j <==> now >= FirstInstant(j)
  {
    if now >= 0 {
      assert now / SECOND * SECOND <= now < now / SECOND * SECOND + SECOND;
    } else {
      var a := -now;
      assert a / SECOND * SECOND <= a < a / SECOND * SECOND + SECOND;
    }
  }

  /** The time checks accept on one half-open interval, from five seconds before the issue claim; from
      the expiry claim on they say so. */
  lemma AcceptanceWindow(c: Claims, now: Instant)
    ensures Verify(c, now) == Accepted <==> FirstInstant(c.iat - 5) <= now < FirstInstant(c.exp)
    ensures Verify(c, now) == Expired <==> now >= FirstInstant(c.exp)
  {
    TruncateReaches(c.iat - 5, now);
    TruncateReaches(c.exp, now);
  }

  /** The claims are the whole seconds that issue and expiry fall in. */
  lemma ClaimsBracket(emitidaAt: Instant, ttl: nat)
    ensures var c := Sign(emitidaAt, ttl);
            && FirstInstant(c.iat) <= emitidaAt < FirstInstant(c.iat + 1)
            && FirstInstant(c.exp) <= emitidaAt + ttl * SECOND < FirstInstant(c.exp + 1)
  {
    var c := Sign(emitidaAt, ttl);
    TruncateReaches(c.iat, emitidaAt);
    TruncateReaches(c.iat + 1, emitidaAt);
    TruncateReaches(c.exp, emitidaAt + ttl * SECOND);
    TruncateReaches(c.exp + 1, emitidaAt + ttl * SECOND);
  }

  /** The verifier's window lies inside the credential's: it accepts at no instant from the expiry on. */
  lemma AcceptedIsBeforeExpiry(emitidaAt: Instant, ttl: nat, now: Instant)
    ensures Verify(Sign(emitidaAt, ttl), now) == Accepted ==> now < emitidaAt + ttl * SECOND
  {
    if now >= emitidaAt + ttl * SECOND { TruncateMonotone(emitidaAt + ttl * SECOND, now); }
  }

  /** The token states the credential's lifetime exactly, save for one that straddles the epoch off a
      whole second, where truncation turns around. */
  lemma LifetimeIsTtl(emitidaAt: Instant, ttl: nat)
    ensures Sign(emitidaAt, ttl).exp - Sign(emitidaAt, ttl).iat == ttl <==>
            emitidaAt >= 0 || emitidaAt + ttl * SECOND <= 0 || emitidaAt % SECOND == 0
  {
    var a := -emitidaAt;
    if emitidaAt >= 0 {
      assert (emitidaAt + ttl * SECOND) / SECOND == emitidaAt / SECOND + ttl;
    } else if emitidaAt + ttl * SECOND <= 0 {
      assert (a - ttl * SECOND) / SECOND == a / SECOND - ttl;
    } else {
      assert (ttl * SECOND - a) / SECOND == ttl + (-a) / SECOND;
      assert emitidaAt % SECOND == 0 <==> (-a) / SECOND == -(a / SECOND);
    }
  }

  /** The expiry check turns a live credential away less than a second early, for every clock reading,
      exactly when the expiry is not within the first second after the epoch. */
  lemma ExpiresLessThanASecondEarly(emitidaAt: Instant, ttl: nat)
    ensures var expiraAt := emitidaAt + ttl * SECOND;
            (forall now :: now < expiraAt && Verify(Sign(emitidaAt, ttl), now) == Expired ==>
              expiraAt - now < SECOND) <==>
            !(0 < expiraAt < SECOND)
  {
    var expiraAt := emitidaAt + ttl * SECOND;
    if 0 < expiraAt < SECOND {
      var now := -SECOND + 1;
      assert Truncate(now) == 0 && Truncate(expiraAt) == 0;
      assert now < expiraAt && Verify(Sign(emitidaAt, ttl), now) == Expired && expiraAt - now >= SECOND;
    } else {
      forall now | now < expiraAt && Verify(Sign(emitidaAt, ttl), now) == Expired ensures expiraAt - now < SECOND {
        SameSecond(now, expiraAt);
      }
    }
  }

  lemma SameSecond(now: Instant, expiraAt: Instant)
    requires now < expiraAt && Truncate(now) >= Truncate(expiraAt) && !(0 < expiraAt < SECOND)
    ensures expiraAt - now < SECOND
  {
    if expiraAt >= SECOND {
      assert expiraAt / SECOND >= 1;
      assert now >= 0;
      assert now / SECOND * SECOND <= now && expiraAt < expiraAt / SECOND * SECOND + SECOND;
    } else {
      var a, b := -now, -expiraAt;
      assert a / SECOND <= b / SECOND;
      assert a < a / SECOND * SECOND + SECOND && b / SECOND * SECOND <= b;
    }
  }
}
