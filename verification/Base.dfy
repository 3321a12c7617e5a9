/** Types shared by every component. Identifiers are opaque to the services, so any
    infinite type will do; instants are whole microseconds since the epoch, which is the
    resolution of the datetimes the services use. */
module Base {

  type Uuid = nat

  type Instant = int

  const SECOND: int := 1_000_000

  datatype Option<+T> = None | Some(value: T)

  function Min(a: int, b: int): int { if a < b then a else b }

  function Max(a: int, b: int): int { if a < b then b else a }

  lemma SubsetSize(a: set<Uuid>, b: set<Uuid>)
    requires a <= b
    ensures |b - a| == |b| - |a|
    ensures |a| == |b| ==> a == b
  {
    assert b == a + (b - a);
  }
}
