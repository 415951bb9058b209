/** Bytes and the big-endian integers of the tunnel protocol. */
module Bytes {
  type byte = x: int | 0 <= x < 256

  /** The longest host and error texts of the protocol. */
  const MAX_HOST_SIZE := 1024
  const MAX_ERROR_SIZE := 4096

  function Pow256(k: nat): (p: nat)
    ensures p > 0
  {
    if k == 0 then 1 else 256 * Pow256(k - 1)
  }

  /** The k low bytes of n, most significant first, as a Go conversion to a k-byte integer keeps them. */
  function BigEndian(n: nat, k: nat): (b: seq<byte>)
    ensures |b| == k
  {
    if k == 0 then [] else BigEndian(n / 256, k - 1) + [n % 256]
  }

  function FromBigEndian(b: seq<byte>): (n: nat)
    ensures n < Pow256(|b|)
  {
    if b == [] then 0 else 256 * FromBigEndian(b[..|b| - 1]) + b[|b| - 1]
  }

  lemma {:induction false} BigEndianReads(n: nat, k: nat)
    requires n < Pow256(k)
    ensures FromBigEndian(BigEndian(n, k)) == n
  {
    if k > 0 {
      BigEndianReads(n / 256, k - 1);
      var b := BigEndian(n, k);
      assert b[..|b| - 1] == BigEndian(n / 256, k - 1);
    }
  }

  lemma {:induction false} BigEndianWrites(b: seq<byte>)
    ensures BigEndian(FromBigEndian(b), |b|) == b
  {
    if b != [] {
      BigEndianWrites(b[..|b| - 1]);
      assert b == b[..|b| - 1] + [b[|b| - 1]];
    }
  }

  lemma Widths()
    ensures Pow256(1) == 256 && Pow256(2) == 65536 && Pow256(8) == 0x1_0000_0000_0000_0000
  {
    assert Pow256(3) == 256 * Pow256(2) && Pow256(4) == 256 * Pow256(3);
    assert Pow256(5) == 256 * Pow256(4) && Pow256(6) == 256 * Pow256(5);
    assert Pow256(7) == 256 * Pow256(6) && Pow256(8) == 256 * Pow256(7);
  }

  /** The widths the protocol uses. */
  lemma ReadsBack(n: nat)
    ensures n < 65536 ==> FromBigEndian(BigEndian(n, 2)) == n
    ensures n < 0x1_0000_0000_0000_0000 ==> FromBigEndian(BigEndian(n, 8)) == n
  {
    Widths();
    if n < 65536 {
      BigEndianReads(n, 2);
    }
    if n < 0x1_0000_0000_0000_0000 {
      BigEndianReads(n, 8);
    }
  }

  /** Three pieces put together can be cut apart again. */
  lemma Sliced(a: seq<byte>, b: seq<byte>, c: seq<byte>)
    ensures var s := a + b + c;
            s[..|a|] == a && s[|a|..|a| + |b|] == b && s[|a| + |b|..] == c
  {
  }

  /** The most significant byte comes first. */
  lemma MostSignificantFirst(n: nat)
    ensures n < 65536 ==> BigEndian(n, 2) == [n / 256, n % 256]
    ensures n < 256 ==> BigEndian(n, 8) == [0, 0, 0, 0, 0, 0, 0, n]
  {
    if n < 65536 {
      assert BigEndian(n / 256, 1) == [] + [n / 256];
      assert BigEndian(n, 2) == BigEndian(n / 256, 1) + [n % 256];
    }
    if n < 256 {
      assert BigEndian(0, 1) == [0] && BigEndian(0, 2) == [0, 0] && BigEndian(0, 3) == [0, 0, 0];
      assert BigEndian(0, 4) == [0, 0, 0, 0] && BigEndian(0, 5) == [0, 0, 0, 0, 0];
      assert BigEndian(0, 6) == [0, 0, 0, 0, 0, 0] && BigEndian(0, 7) == [0, 0, 0, 0, 0, 0, 0];
    }
  }
}
