// Whole packets: rounding a length down to a multiple of the packet size.  Defined by
// repeated subtraction, so that proofs can follow the packets; `RoundDownIsMod` ties it to the
// remainder the driver computes.

module Modular {

  // A whole number of packets of size m.
  predicate WholePackets(len: nat, m: nat)
    requires m > 0
  {
    len == 0 || (len >= m && WholePackets(len - m, m))
  }

  // `len - len % m`.
  function RoundDown(len: nat, m: nat): (r: nat)
    requires m > 0
    ensures r <= len < r + m && WholePackets(r, m)
    ensures r == len <==> WholePackets(len, m)
  {
    if len < m then 0 else m + RoundDown(len - m, m)
  }

  lemma ModStep(len: nat, m: nat)
    requires 0 < m <= len
    ensures len % m == (len - m) % m
  {
    var q := len / m;
    assert len - m == (q - 1) * m + len % m;
    ModUnique(len - m, q - 1, len % m, m);
  }

  lemma MulAtLeast(k: int, m: int)
    requires m > 0
    ensures k >= 1 ==> k * m >= m
    ensures k <= -1 ==> k * m <= -m
  {
  }

  lemma ModUnique(x: int, q: int, r: int, m: int)
    requires m > 0 && 0 <= r < m && x == q * m + r
    ensures x % m == r
  {
    var d := q - x / m;
    assert d * m == x % m - r by {
      assert (q - x / m) * m == q * m - x / m * m;
    }
    MulAtLeast(d, m);
  }

  lemma {:induction false} RoundDownIsMod(len: nat, m: nat)
    requires m > 0
    ensures RoundDown(len, m) == len - len % m
  {
    if len >= m {
      RoundDownIsMod(len - m, m);
      ModStep(len, m);
    }
  }

  // Taking whole packets away keeps the remainder.
  lemma {:induction false} WholePacketsSub(a: nat, b: nat, m: nat)
    requires m > 0 && b <= a && WholePackets(b, m)
    ensures WholePackets(a - b, m) <==> WholePackets(a, m)
    decreases b
  {
    if b > 0 {
      WholePacketsSub(a - m, b - m, m);
    }
  }
}
