/** IP addresses and masked prefixes as bit strings, and the byte view the prefix comparison works on. */
module Addresses {
  datatype Family = V4 | V6

  function Width(f: Family): (w: nat) {
    if f.V4? then 32 else 128
  }

  /** An unmapped netip.Addr: its family and its bits, most significant first. */
  datatype Addr = Addr(family: Family, bits: seq<bool>) {
    predicate Valid() {
      |bits| == Width(family)
    }
  }

  const SIXTEEN_ZEROS: seq<bool> :=
    [false, false, false, false, false, false, false, false, false, false, false, false, false, false, false, false]

  type Address = a: Addr | a.Valid() witness Addr(V4, SIXTEEN_ZEROS + SIXTEEN_ZEROS)

  /** A masked netip.Prefix. Its host bits are zero, so the leading bits say everything. */
  datatype Prefix = Prefix(family: Family, lead: seq<bool>) {
    predicate Valid() {
      |lead| <= Width(family)
    }

    /** netip.Prefix.Contains. */
    predicate Contains(a: Addr) {
      a.family == family && lead <= a.bits
    }

    /** netip.Prefix.Addr of the masked prefix. */
    function Base(): (a: Address)
      requires Valid()
      ensures Contains(a)
    {
      Addr(family, lead + seq(Width(family) - |lead|, i => false))
    }
  }

  type Network = p: Prefix | p.Valid() witness Prefix(V4, [])

  /** netip.PrefixFrom(a, bits).Masked(). */
  function Leading(a: Address, bits: nat): (p: Network)
    requires bits <= Width(a.family)
  {
    Prefix(a.family, a.bits[..bits])
  }

  predicate Covers(p: Prefix, q: Prefix) {
    p.family == q.family && p.lead <= q.lead
  }

  /** Covering is containment of the address sets. */
  lemma CoversIsContainment(p: Network, q: Network)
    ensures Covers(p, q) <==> forall a: Address :: q.Contains(a) ==> p.Contains(a)
  {
    if !Covers(p, q) && p.family == q.family {
      // An address of q that leaves p: q's bits, then the opposite of p's next bit throughout.
      var next := if |q.lead| < |p.lead| then !p.lead[|q.lead|] else false;
      var a := Addr(q.family, q.lead + seq(Width(q.family) - |q.lead|, i => next));
      assert a.Valid() && q.Contains(a);
      assert !p.Contains(a);
    } else if p.family != q.family {
      assert q.Contains(q.Base()) && !p.Contains(q.Base());
    }
  }

  lemma StartOfStart(lead: seq<bool>, bits: seq<bool>, k: nat)
    requires k <= |bits|
    ensures |lead| <= k ==> (lead <= bits <==> lead <= bits[..k])
    ensures lead <= bits[..k] ==> lead <= bits
  {
    if |lead| <= k {
      assert bits[..k][..|lead|] == bits[..|lead|];
    }
  }

  /** Two prefixes share an address only if one covers the other. */
  lemma OverlapIsCovering(p: Prefix, q: Prefix, a: Addr)
    requires p.Contains(a) && q.Contains(a)
    ensures Covers(p, q) || Covers(q, p)
  {
    if |p.lead| <= |q.lead| {
      assert p.lead == a.bits[..|p.lead|] == q.lead[..|p.lead|];
    } else {
      assert q.lead == a.bits[..|q.lead|] == p.lead[..|q.lead|];
    }
  }

  /** k is where x and y stop agreeing. */
  ghost predicate AgreeTo(x: seq<bool>, y: seq<bool>, k: nat) {
    && k <= |x| && k <= |y| && x[..k] == y[..k]
    && (k < |x| && k < |y| ==> x[k] != y[k])
  }

  lemma {:induction false} AgreementEnds(x: seq<bool>, y: seq<bool>) returns (k: nat)
    ensures AgreeTo(x, y, k)
  {
    if x == [] || y == [] || x[0] != y[0] {
      k := 0;
    } else {
      k := AgreementEnds(x[1..], y[1..]);
      assert x[..k + 1] == [x[0]] + x[1..][..k] && y[..k + 1] == [y[0]] + y[1..][..k];
      k := k + 1;
    }
  }

  /** The length of the longest common start. */
  ghost function Common(x: seq<bool>, y: seq<bool>): (k: nat)
    ensures AgreeTo(x, y, k)
  {
    assert exists k :: AgreeTo(x, y, k) by {
      var k := AgreementEnds(x, y);
    }
    var k :| AgreeTo(x, y, k);
    k
  }

  /** A length is common exactly up to Common: agreeing is a cut. */
  lemma CommonIsLongest(x: seq<bool>, y: seq<bool>, k: nat)
    requires k <= |x| && k <= |y|
    ensures x[..k] == y[..k] <==> k <= Common(x, y)
  {
    var c := Common(x, y);
    if k <= c {
      assert x[..k] == x[..c][..k] && y[..k] == y[..c][..k];
    } else {
      assert x[..k][c] == x[c] && y[..k][c] == y[c];
    }
  }

  /** The byte mask 0x80 shifted right k times. */
  function Mask(k: nat): (m: bv8)
    requires k < 8
  {
    if k == 0 then 0x80 else if k == 1 then 0x40 else if k == 2 then 0x20 else if k == 3 then 0x10
    else if k == 4 then 0x08 else if k == 5 then 0x04 else if k == 6 then 0x02 else 0x01
  }

  predicate Bit(b: bv8, k: nat)
    requires k < 8
  {
    b & Mask(k) != 0
  }

  function Pick(b: bool, m: bv8): bv8 {
    if b then m else 0
  }

  function PackByte(s: seq<bool>): (b: bv8)
    requires |s| == 8
  {
    Pick(s[0], 0x80) | Pick(s[1], 0x40) | Pick(s[2], 0x20) | Pick(s[3], 0x10)
    | Pick(s[4], 0x08) | Pick(s[5], 0x04) | Pick(s[6], 0x02) | Pick(s[7], 0x01)
  }

  lemma PackByteBits(s: seq<bool>, k: nat)
    requires |s| == 8 && k < 8
    ensures Bit(PackByte(s), k) == s[k]
  {
  }

  function Pack(bits: seq<bool>): (b: seq<bv8>)
    requires |bits| % 8 == 0
    ensures |b| == |bits| / 8
  {
    if bits == [] then [] else [PackByte(bits[..8])] + Pack(bits[8..])
  }

  function UnpackByte(b: bv8): (s: seq<bool>)
    ensures |s| == 8 && forall k :: 0 <= k < 8 ==> s[k] == Bit(b, k)
  {
    [Bit(b, 0), Bit(b, 1), Bit(b, 2), Bit(b, 3), Bit(b, 4), Bit(b, 5), Bit(b, 6), Bit(b, 7)]
  }

  function Unpack(bytes: seq<bv8>): (s: seq<bool>)
    ensures |s| == 8 * |bytes|
  {
    if bytes == [] then [] else UnpackByte(bytes[0]) + Unpack(bytes[1..])
  }

  lemma UnpackPackByte(s: seq<bool>)
    requires |s| == 8
    ensures UnpackByte(PackByte(s)) == s
  {
    forall k | 0 <= k < 8 ensures UnpackByte(PackByte(s))[k] == s[k] {
      PackByteBits(s, k);
    }
  }

  lemma {:induction false} UnpackPack(bits: seq<bool>)
    requires |bits| % 8 == 0
    ensures Unpack(Pack(bits)) == bits
  {
    if bits != [] {
      UnpackPack(bits[8..]);
      UnpackPackByte(bits[..8]);
      assert bits == bits[..8] + bits[8..];
      assert Pack(bits)[1..] == Pack(bits[8..]);
    }
  }

  /** netip.Addr.As16: an IPv4 address takes the last four bytes of its mapped form. */
  function As16(a: Address): (bytes: seq<bv8>)
    ensures |bytes| == 16
  {
    if a.family.V4? then [0, 0, 0, 0, 0, 0, 0, 0, 0, 0, 0xff, 0xff] + Pack(a.bits) else Pack(a.bits)
  }
}
