/** The test images: a marker in a JPEG comment, and the reader that finds it again. */
module Images {
  import opened Base

  type byte = x: int | 0 <= x < 256

  /** "MOCK:" */
  const MARKER_PREFIX: seq<byte> := [0x4D, 0x4F, 0x43, 0x4B, 0x3A]

  /** None is the packing error of a length that does not fit in two bytes. */
  function Jpeg(text: seq<byte>): Option<seq<byte>> {
    var n := |text| + 2;
    if n > 0xFFFF then None
    else
      var hi: byte := n / 256;
      var lo: byte := n % 256;
      Some([0xFF, 0xD8, 0xFF, 0xFE, hi, lo] + text + [0xFF, 0xD9])
  }

  predicate IsAlnum(b: byte) {
    0x30 <= b <= 0x39 || 0x41 <= b <= 0x5A || 0x61 <= b <= 0x7A
  }

  ghost predicate AllAlnum(m: seq<byte>) {
    forall i :: 0 <= i < |m| ==> IsAlnum(m[i])
  }

  predicate MatchesAt(data: seq<byte>, i: nat) {
    i + |MARKER_PREFIX| <= |data| && data[i..i + |MARKER_PREFIX|] == MARKER_PREFIX
  }

  ghost predicate FirstMatch(data: seq<byte>, i: nat) {
    MatchesAt(data, i) && forall j :: 0 <= j < i ==> !MatchesAt(data, j)
  }

  /** `r` is what a reader should answer: the longest alphanumeric run behind the first prefix. */
  ghost predicate Reads(data: seq<byte>, r: Option<seq<byte>>) {
    match r
    case Some(m) =>
      m != [] && AllAlnum(m) &&
      exists i: nat, stop: int :: Marked(data, i, stop) && data[i + 5..stop] == m
    case None => forall i: nat, stop: int :: Marked(data, i, stop) ==> stop == i + 5
  }

  /** The first prefix is at `i` and the run behind it ends at `stop`. */
  ghost predicate Marked(data: seq<byte>, i: nat, stop: int) {
    FirstMatch(data, i) && RunEnds(data, i + 5, stop)
  }

  /** The alphanumeric run that starts at `from` ends at `stop`. */
  ghost predicate RunEnds(data: seq<byte>, from: nat, stop: int) {
    from <= stop <= |data| && (forall k :: from <= k < stop ==> IsAlnum(data[k])) &&
      (stop < |data| ==> !IsAlnum(data[stop]))
  }

  lemma RunEndsOnce(data: seq<byte>, from: nat, a: int, b: int)
    requires RunEnds(data, from, a) && RunEnds(data, from, b)
    ensures a == b
  {}

  /** The first prefix and the end of its run are unique. */
  lemma MarkedOnce(data: seq<byte>, i: nat, a: int, j: nat, b: int)
    requires Marked(data, i, a) && Marked(data, j, b)
    ensures i == j && a == b
  {
    assert i == j;
    RunEndsOnce(data, i + 5, a, b);
  }

  method Find(data: seq<byte>) returns (r: Option<nat>)
    ensures r.Some? ==> FirstMatch(data, r.value)
    ensures r == None ==> forall i :: 0 <= i ==> !MatchesAt(data, i)
  {
    for i := 0 to |data|
      invariant forall j :: 0 <= j < i ==> !MatchesAt(data, j)
    {
      if MatchesAt(data, i) {
        return Some(i);
      }
    }
    r := None;
  }

  method ReadMarker(data: seq<byte>) returns (r: Option<seq<byte>>)
    ensures Reads(data, r)
  {
    var start := Find(data);
    if start == None {
      return None;
    }
    var end := start.value + |MARKER_PREFIX|;
    var stop := end;
    while stop < |data| && IsAlnum(data[stop])
      invariant end <= stop <= |data|
      invariant forall k :: end <= k < stop ==> IsAlnum(data[k])
    {
      stop := stop + 1;
    }
    assert Marked(data, start.value, stop);
    if stop == end {
      forall i: nat, t | Marked(data, i, t) ensures t == i + 5 {
        MarkedOnce(data, start.value, stop, i, t);
      }
      return None;
    }
    r := Some(data[end..stop]);
  }

  /** There is one right answer. */
  lemma ReadsOnce(data: seq<byte>, r1: Option<seq<byte>>, r2: Option<seq<byte>>, i: nat, stop: int)
    requires Reads(data, r1) && Reads(data, r2) && Marked(data, i, stop)
    ensures r1 == r2
  {
    forall j: nat, t | Marked(data, j, t) ensures j == i && t == stop {
      MarkedOnce(data, i, stop, j, t);
    }
  }

  /** The container is well formed: start marker, one comment segment whose length counts itself and the
      text, end marker. */
  lemma JpegIsOneComment(text: seq<byte>)
    ensures match Jpeg(text)
            case None => |text| + 2 > 0xFFFF
            case Some(data) =>
              && |data| == |text| + 8 && data[..4] == [0xFF, 0xD8, 0xFF, 0xFE]
              && data[4] as int * 256 + data[5] as int == |text| + 2 && data[6..|text| + 6] == text
              && data[|text| + 6..] == [0xFF, 0xD9]
  {}

  /** The header and length bytes never contain or begin a match. */
  lemma FirstMatchIsAtSix(m: seq<byte>)
    requires |m| <= 65528
    ensures Jpeg(MARKER_PREFIX + m).Some? && FirstMatch(Jpeg(MARKER_PREFIX + m).value, 6)
  {
    var data := Jpeg(MARKER_PREFIX + m).value;
    assert data[6] == 0x4D && data[7] == 0x4F && data[8] == 0x43 && data[9] == 0x4B && data[10] == 0x3A;
    assert data[6..11] == MARKER_PREFIX;
    forall j | 0 <= j < 6 ensures !MatchesAt(data, j) {
      var window := data[j..j + 5];
      assert window[0] == data[j] && window[1] == data[j + 1] && window[2] == data[j + 2];
      assert window[3] == data[j + 3] && window[4] == data[j + 4];
    }
  }

  /** Reading back what was written: a non-empty alphanumeric marker can be packed exactly if it has at
      most 65528 bytes, and is then the one answer. */
  lemma MarkerRoundTrip(m: seq<byte>, r: Option<seq<byte>>)
    requires m != [] && AllAlnum(m)
    ensures Jpeg(MARKER_PREFIX + m).Some? <==> |m| <= 65528
    ensures |m| <= 65528 ==> (Reads(Jpeg(MARKER_PREFIX + m).value, r) <==> r == Some(m))
  {
    if |m| <= 65528 {
      FirstMatchIsAtSix(m);
      var data := Jpeg(MARKER_PREFIX + m).value;
      var stop := 11 + |m|;
      assert data[11..stop] == m && data[stop] == 0xFF;
      assert Marked(data, 6, stop);
      assert Reads(data, Some(m));
      if Reads(data, r) { ReadsOnce(data, r, Some(m), 6, stop); }
    }
  }
}
