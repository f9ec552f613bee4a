/** Byte strings and big-endian numerals, shared by the hash and the one-time-password code. */
module Bytes {
  import Arith

  type Byte = bv8

  function Pow256(k: nat): (r: nat)
    ensures r > 0
  {
    if k == 0 then 1 else 256 * Pow256(k - 1)
  }

  /** The `k` low-order bytes of `n`, most significant first. */
  function BigEndian(n: nat, k: nat): (r: seq<Byte>)
    ensures |r| == k
  {
    if k == 0 then [] else BigEndian(n / 256, k - 1) + [(n % 256) as Byte]
  }

  function Zeros(k: nat): (r: seq<Byte>)
    ensures |r| == k
  {
    seq(k, _ => 0)
  }

  lemma {:induction false} DivPow256(n: nat, k: nat)
    ensures n / 256 / Pow256(k) == n / Pow256(k + 1)
  {
    var p := Pow256(k);
    var q := n / 256 / p;
    var r := n / 256 % p;
    assert n / 256 == q * p + r;
    assert n == 256 * (q * p + r) + n % 256;
    assert 256 * (q * p) == q * (256 * p);
    assert n == q * (256 * p) + (256 * r + n % 256);
    assert 0 <= 256 * r + n % 256 < 256 * p;
    Arith.DivUnique(n, 256 * p, q, 256 * r + n % 256);
  }

  /** Byte `j` of a big-endian numeral is what shifting right by 8*(k-1-j) and truncating gives. */
  lemma {:induction false} BigEndianAt(n: nat, k: nat, j: nat)
    requires j < k
    ensures BigEndian(n, k)[j] == (n / Pow256(k - 1 - j) % 256) as Byte
  {
    if j == k - 1 {
      assert Pow256(0) == 1;
    } else {
      BigEndianAt(n / 256, k - 1, j);
      DivPow256(n, k - 2 - j);
    }
  }
}
