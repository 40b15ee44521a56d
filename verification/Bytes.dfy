/** Little-endian numbers, as the log frames and the mapped-file header store them. */
module Bytes {
  type byte = b: int | 0 <= b < 256

  function Pow256(k: nat): nat {
    if k == 0 then 1 else 256 * Pow256(k - 1)
  }

  /** The low `k` bytes of `n`, least significant first. */
  function ToLe(n: nat, k: nat): (s: seq<byte>)
    ensures |s| == k
  {
    if k == 0 then [] else [n % 256] + ToLe(n / 256, k - 1)
  }

  function FromLe(s: seq<byte>): nat {
    if s == [] then 0 else s[0] + 256 * FromLe(s[1..])
  }

  lemma {:induction false} LeRoundTrip(n: nat, k: nat)
    requires n < Pow256(k)
    ensures FromLe(ToLe(n, k)) == n
  {
    if k > 0 {
      LeRoundTrip(n / 256, k - 1);
      assert ToLe(n, k)[1..] == ToLe(n / 256, k - 1);
    }
  }

  /** The first byte counts least. */
  lemma LeastFirst(a: byte, b: byte, c: byte, d: byte)
    ensures FromLe([a, b, c, d]) == a + 256 * b + 65536 * c + 16777216 * d
  {
    var four: seq<byte>, three: seq<byte>, two: seq<byte>, one: seq<byte> := [a, b, c, d], [b, c, d], [c, d], [d];
    assert four[1..] == three && three[1..] == two && two[1..] == one && one[1..] == [];
    assert FromLe(one) == d;
    assert FromLe(two) == c + 256 * FromLe(one);
    assert FromLe(three) == b + 256 * FromLe(two);
  }

  lemma {:induction false} LeInverse(s: seq<byte>)
    ensures ToLe(FromLe(s), |s|) == s && FromLe(s) < Pow256(|s|)
  {
    if s != [] {
      LeInverse(s[1..]);
      var rest := FromLe(s[1..]);
      LowByte(s[0], rest);
    }
  }

  lemma LowByte(b: byte, rest: nat)
    ensures (b + 256 * rest) % 256 == b && (b + 256 * rest) / 256 == rest
  {
  }
}
