/** Single-use tokens at `qr:{jti}`: the store with TTLs and the proxy that reads it. */
module TokenStore {
  import opened Base

  datatype Uso = ACTIVA | CONSUMIDA

  /** Value, expiry instant and the TTL it was registered with. */
  datatype Token = Token(valor: Uso, expira: Instant, ttl: nat)

  type Tokens = map<Uuid, Token>

  function Vivo(ts: Tokens, jti: Uuid, now: Instant): Option<Uso> {
    if jti in ts && now < ts[jti].expira then Some(ts[jti].valor) else None
  }

  /** SET NX EX: None when a live key is already there. */
  function Registra(ts: Tokens, jti: Uuid, ttl: nat, now: Instant): Option<Tokens> {
    if Vivo(ts, jti, now) != None then None
    else Some(ts[jti := Token(ACTIVA, now + ttl * SECOND, ttl)])
  }

  function Olvida(ts: Tokens, jti: Uuid): Tokens {
    ts - {jti}
  }

  /** The atomic ACTIVA -> CONSUMIDA script; it keeps the TTL. */
  function Consume(ts: Tokens, jti: Uuid, now: Instant): Tokens {
    if Vivo(ts, jti, now) == Some(ACTIVA) then ts[jti := ts[jti].(valor := CONSUMIDA)] else ts
  }

  /** `may_be_usable`: Some(false) rejects without asking Postgres, None means Redis is unavailable. */
  function MayBeUsable(ts: Tokens, jti: Uuid, now: Instant, disponible: bool): Option<bool> {
    if disponible then Some(Vivo(ts, jti, now) == Some(ACTIVA)) else None
  }

  class FakeTokenStore {
    var values: Tokens
    var failNextRegister: bool
    var failNextRevoke: bool

    constructor ()
      ensures values == map[] && !failNextRegister && !failNextRevoke
    {
      values, failNextRegister, failNextRevoke := map[], false, false;
    }

    /** False stands for TokenStoreUnavailable. */
    method Register(jti: Uuid, ttl: nat, now: Instant) returns (ok: bool)
      modifies this
      ensures failNextRevoke == old(failNextRevoke) && !failNextRegister
      ensures ok == (!old(failNextRegister) && (jti in old(values) ==> now >= old(values)[jti].expira))
      ensures ok == (!old(failNextRegister) && Registra(old(values), jti, ttl, now).Some?)
      ensures values == if ok then Registra(old(values), jti, ttl, now).value else old(values)
    {
      if failNextRegister {
        failNextRegister := false;
        return false;
      }
      if jti in values && now < values[jti].expira {
        return false;
      }
      values := values[jti := Token(ACTIVA, now + ttl * SECOND, ttl)];
      ok := true;
    }

    method Revoke(jti: Uuid) returns (ok: bool)
      modifies this
      ensures failNextRegister == old(failNextRegister) && !failNextRevoke
      ensures ok == !old(failNextRevoke)
      ensures values == if ok then Olvida(old(values), jti) else old(values)
    {
      if failNextRevoke {
        failNextRevoke := false;
        return false;
      }
      values := values - {jti};
      ok := true;
    }

    method ConsumeKey(jti: Uuid, now: Instant) returns (flipped: bool)
      modifies this
      ensures failNextRegister == old(failNextRegister) && failNextRevoke == old(failNextRevoke)
      ensures flipped == (Vivo(old(values), jti, now) == Some(ACTIVA))
      ensures values == Consume(old(values), jti, now)
    {
      if jti !in values || now >= values[jti].expira || values[jti].valor != ACTIVA {
        return false;
      }
      values := values[jti := Token(CONSUMIDA, values[jti].expira, values[jti].ttl)];
      flipped := true;
    }
  }
}
