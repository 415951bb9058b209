/** CIDR inference: internal/cluster/discovery/cidr.go. */
module CidrInference {
  import opened Addresses

  const INFERRED_IPV4_BITS := 24
  const INFERRED_IPV6_BITS := 64
  const MERGE_FLOOR_IPV4 := 12
  const MERGE_FLOOR_IPV6 := 48

  function InferredBits(f: Family): (b: nat)
    ensures b <= Width(f)
  {
    if f.V4? then INFERRED_IPV4_BITS else INFERRED_IPV6_BITS
  }

  function Floor(f: Family): (b: nat)
    ensures b <= InferredBits(f)
  {
    if f.V4? then MERGE_FLOOR_IPV4 else MERGE_FLOOR_IPV6
  }

  lemma SomeBitSet(d: bv8)
    ensures d == 0 || Bit(d, 0) || Bit(d, 1) || Bit(d, 2) || Bit(d, 3) || Bit(d, 4) || Bit(d, 5) || Bit(d, 6)
         || Bit(d, 7)
  {
  }

  lemma SingleBit(x: bv8, k: nat)
    requires k < 8
    ensures Mask(k) != 0 && (x & Mask(k) == 0 || x & Mask(k) == Mask(k))
  {
    if k == 0 {} else if k == 1 {} else if k == 2 {} else if k == 3 {}
    else if k == 4 {} else if k == 5 {} else if k == 6 {} else {}
  }

  lemma XorMasked(x: bv8, y: bv8, m: bv8)
    ensures (x ^ y) & m == (x & m) ^ (y & m)
  {
  }

  lemma XorBit(x: bv8, y: bv8, k: nat)
    requires k < 8
    ensures Bit(x ^ y, k) <==> Bit(x, k) != Bit(y, k)
  {
    XorMasked(x, y, Mask(k));
    SingleBit(x, k);
    SingleBit(y, k);
  }

  lemma MaskShift(k: nat)
    requires k < 7
    ensures Mask(k) >> 1 == Mask(k + 1)
  {
  }

  /** How far two bytes agree, by shifting a mask along their difference. */
  method LeadingAgreement(x: bv8, y: bv8) returns (bits: nat)
    requires x ^ y != 0
    ensures bits < 8 && Bit(x, bits) != Bit(y, bits)
    ensures forall k :: 0 <= k < bits ==> Bit(x, k) == Bit(y, k)
  {
    var difference := x ^ y;
    var mask: bv8 := 0x80;
    bits := 0;
    SomeBitSet(difference);
    while difference & mask == 0
      invariant bits < 8 && mask == Mask(bits)
      invariant forall k :: 0 <= k < bits ==> !Bit(difference, k)
      decreases 8 - bits
    {
      assert !Bit(difference, bits);
      if bits < 7 {
        MaskShift(bits);
      }
      bits := bits + 1;
      mask := mask >> 1;
    }
    XorBit(x, y, bits);
    forall k | 0 <= k < bits ensures Bit(x, k) == Bit(y, k) {
      XorBit(x, y, k);
    }
  }

  lemma {:induction false} UnpackParts(a: seq<bv8>, b: seq<bv8>)
    ensures Unpack(a + b) == Unpack(a) + Unpack(b)
  {
    if a == [] {
      assert a + b == b;
    } else {
      assert (a + b)[1..] == a[1..] + b;
      UnpackParts(a[1..], b);
    }
  }

  lemma CommonTotal(x: seq<bool>, y: seq<bool>)
    requires |x| == |y|
    ensures Common(x, y) == |x| <==> x == y
  {
    assert x[..|x|] == x && y[..|y|] == y;
    CommonIsLongest(x, y, |x|);
  }

  lemma CommonEnds(x: seq<bool>, y: seq<bool>, k: nat)
    requires k < |x| && k < |y| && x[..k] == y[..k] && x[k] != y[k]
    ensures Common(x, y) == k
  {
    CommonIsLongest(x, y, k);
    CommonIsLongest(x, y, k + 1);
    assert x[..k + 1][k] == x[k] && y[..k + 1][k] == y[k];
  }

  lemma CommonJoined(a: seq<bool>, u: seq<bool>, v: seq<bool>, p: seq<bool>, q: seq<bool>, bits: nat)
    requires bits < |u| == |v| && u[bits] != v[bits] && forall k :: 0 <= k < bits ==> u[k] == v[k]
    ensures Common(a + u + p, a + v + q) == |a| + bits
  {
    var x, y := a + u + p, a + v + q;
    assert forall k :: |a| <= k < |a| + bits ==> x[k] == u[k - |a|] && y[k] == v[k - |a|];
    CommonEnds(x, y, |a| + bits);
  }

  /** A common start of bytes, then a byte that differs after some bits: that many bits are common. */
  lemma AgreementLength(l: seq<bv8>, r: seq<bv8>, i: nat, bits: nat)
    requires i < |l| && i < |r| && l[..i] == r[..i]
    requires bits < 8 && Bit(l[i], bits) != Bit(r[i], bits)
    requires forall k :: 0 <= k < bits ==> Bit(l[i], k) == Bit(r[i], k)
    ensures Common(Unpack(l), Unpack(r)) == 8 * i + bits
  {
    UnpackAt(l, i);
    UnpackAt(r, i);
    CommonJoined(Unpack(l[..i]), UnpackByte(l[i]), UnpackByte(r[i]), Unpack(l[i + 1..]), Unpack(r[i + 1..]), bits);
  }

  lemma UnpackAt(s: seq<bv8>, i: nat)
    requires i < |s|
    ensures Unpack(s) == Unpack(s[..i]) + UnpackByte(s[i]) + Unpack(s[i + 1..])
  {
    assert s == s[..i] + s[i..];
    UnpackParts(s[..i], s[i..]);
  }

  function Offset(left: Address, right: Address): (o: nat) {
    if left.family.V4? && right.family.V4? then 12 else 0
  }

  lemma XorZero(x: bv8, y: bv8)
    ensures x ^ y == 0 <==> x == y
  {
  }

  /** The loop of commonPrefixBits: byte by byte, then bit by bit in the first byte that differs. */
  method CommonOfBytes(left: seq<bv8>, right: seq<bv8>) returns (bits: nat)
    requires |left| == |right|
    ensures bits == Common(Unpack(left), Unpack(right))
  {
    bits := 0;
    var index := 0;
    while index < |left|
      invariant 0 <= index <= |left|
      invariant bits == 8 * index
      invariant left[..index] == right[..index]
    {
      var difference := left[index] ^ right[index];
      XorZero(left[index], right[index]);
      if difference != 0 {
        var more := LeadingAgreement(left[index], right[index]);
        AgreementLength(left, right, index, more);
        bits := bits + more;
        return;
      }
      bits := bits + 8;
      index := index + 1;
    }
    assert left == right;
    CommonTotal(Unpack(left), Unpack(right));
  }

  /** commonPrefixBits. */
  method CommonPrefixBits(left: Address, right: Address) returns (bits: nat)
    ensures bits == Common(Unpack(As16(left)[Offset(left, right)..]), Unpack(As16(right)[Offset(left, right)..]))
  {
    bits := CommonOfBytes(As16(left)[Offset(left, right)..], As16(right)[Offset(left, right)..]);
  }

  /** Within a family the bytes compared are the addresses' own bits. */
  lemma CommonBytesAreBits(left: Address, right: Address)
    requires left.family == right.family
    ensures Common(Unpack(As16(left)[Offset(left, right)..]), Unpack(As16(right)[Offset(left, right)..]))
         == Common(left.bits, right.bits)
  {
    UnpackPack(left.bits);
    UnpackPack(right.bits);
    if left.family.V4? {
      assert As16(left)[12..] == Pack(left.bits) && As16(right)[12..] == Pack(right.bits);
    }
  }

  /** The observed networks of a family: every address cut to the inferred length. */
  ghost function Observed(addresses: seq<Address>, f: Family): (s: set<seq<bool>>)
  {
    set i | 0 <= i < |addresses| && addresses[i].family == f :: addresses[i].bits[..InferredBits(f)]
  }

  ghost predicate CommonTo(lead: seq<bool>, s: set<seq<bool>>) {
    forall x :: x in s ==> lead <= x
  }

  /** The longest start all of s share. */
  ghost predicate LongestCommon(lead: seq<bool>, s: set<seq<bool>>) {
    CommonTo(lead, s) && forall other :: CommonTo(other, s) ==> |other| <= |lead|
  }

  lemma {:induction false} LongestExists(s: set<seq<bool>>, x: seq<bool>, k: nat) returns (lead: seq<bool>)
    requires x in s && k <= |x|
    requires forall j :: k < j <= |x| ==> !CommonTo(x[..j], s)
    ensures LongestCommon(lead, s)
  {
    lead := x[..k];
    if CommonTo(lead, s) {
      forall other | CommonTo(other, s) ensures |other| <= k {
        assert other == x[..|other|];
      }
    } else {
      assert k > 0 by {
        assert CommonTo(x[..0], s);
      }
      lead := LongestExists(s, x, k - 1);
    }
  }

  ghost function CommonLead(s: set<seq<bool>>): (lead: seq<bool>)
    requires s != {}
    ensures LongestCommon(lead, s)
  {
    assert exists lead :: LongestCommon(lead, s) by {
      var x :| x in s;
      var lead := LongestExists(s, x, |x|);
    }
    var lead :| LongestCommon(lead, s);
    lead
  }

  lemma LongestUnique(l1: seq<bool>, l2: seq<bool>, s: set<seq<bool>>)
    requires s != {} && LongestCommon(l1, s) && LongestCommon(l2, s)
    ensures l1 == l2
  {
    var x :| x in s;
    assert l1 == x[..|l1|] && l2 == x[..|l2|];
  }

  /** What inference owes a family: nothing for nothing; the longest common start if it is long enough; the
      observed networks themselves otherwise. */
  ghost function InferredLeads(f: Family, observed: set<seq<bool>>): (leads: set<seq<bool>>) {
    if observed == {} then {}
    else if |CommonLead(observed)| >= Floor(f) then {CommonLead(observed)} else observed
  }

  ghost function LeadsOf(result: set<Prefix>, f: Family): (leads: set<seq<bool>>) {
    set p | p in result && p.family == f :: p.lead
  }

  ghost predicate Inferred(result: set<Prefix>, addresses: seq<Address>) {
    forall f :: LeadsOf(result, f) == InferredLeads(f, Observed(addresses, f))
  }

  /** Comparing with the first element only is enough: the least agreement with it is everybody's. */
  lemma FirstDecides(leads: seq<seq<bool>>, k: nat)
    requires leads != [] && k <= |leads[0]|
    requires forall i :: 0 <= i < |leads| ==> k <= Common(leads[0], leads[i])
    requires k == |leads[0]| || exists i :: 0 <= i < |leads| && Common(leads[0], leads[i]) == k
    ensures LongestCommon(leads[0][..k], set x | x in leads)
  {
    var s := set x | x in leads;
    forall x | x in s ensures leads[0][..k] <= x {
      var i :| 0 <= i < |leads| && leads[i] == x;
      CommonIsLongest(leads[0], x, k);
    }
    forall other | CommonTo(other, s) ensures |other| <= k {
      assert leads[0] in s;
      if k < |leads[0]| {
        var i :| 0 <= i < |leads| && Common(leads[0], leads[i]) == k;
        assert leads[i] in s;
        CommonBound(other, leads[0], leads[i]);
      }
    }
  }

  lemma CommonBound(other: seq<bool>, x: seq<bool>, y: seq<bool>)
    requires other <= x && other <= y
    ensures |other| <= Common(x, y)
  {
    assert x[..|other|] == other == y[..|other|];
    CommonIsLongest(x, y, |other|);
  }

  /** Padding both sides alike lengthens only an agreement that was already total. */
  lemma CommonOfPadded(x: seq<bool>, y: seq<bool>, pad: seq<bool>)
    requires |x| == |y|
    ensures Common(x + pad, y + pad) == if x == y then |x| + |pad| else Common(x, y)
  {
    CommonTotal(x, y);
    CommonTotal(x + pad, y + pad);
    if x != y {
      PaddedEnds(x, y, pad, Common(x, y));
    }
  }

  lemma PaddedEnds(x: seq<bool>, y: seq<bool>, pad: seq<bool>, k: nat)
    requires |x| == |y| && k < |x| && x[..k] == y[..k] && x[k] != y[k]
    ensures Common(x + pad, y + pad) == k
  {
    assert (x + pad)[..k] == x[..k] && (y + pad)[..k] == y[..k];
    CommonEnds(x + pad, y + pad, k);
  }

  function Min(a: nat, b: nat): nat {
    if a < b then a else b
  }

  predicate ObservedIn(p: Prefix, f: Family) {
    p.family == f && |p.lead| == InferredBits(f)
  }

  /** One round of the merge loop: the networks' addresses are compared, zeros and all, and the zeros do not count. */
  method NextCommon(f: Family, first: Prefix, p: Prefix, commonBits: nat) returns (bits: nat)
    requires ObservedIn(first, f) && ObservedIn(p, f) && commonBits <= InferredBits(f)
    ensures bits == Min(commonBits, Common(first.lead, p.lead))
  {
    bits := CommonPrefixBits(first.Base(), p.Base());
    CommonBytesAreBits(first.Base(), p.Base());
    var pad := seq(Width(f) - InferredBits(f), i => false);
    assert first.Base().bits == first.lead + pad && p.Base().bits == p.lead + pad;
    CommonOfPadded(first.lead, p.lead, pad);
    CommonTotal(first.lead, p.lead);
    bits := Min(commonBits, bits);
  }

  function Leads(prefixes: seq<Prefix>): (ls: seq<seq<bool>>)
    ensures |ls| == |prefixes| && forall i :: 0 <= i < |ls| ==> ls[i] == prefixes[i].lead
  {
    if prefixes == [] then [] else [prefixes[0].lead] + Leads(prefixes[1..])
  }

  function LeadSet(prefixes: seq<Prefix>): (s: set<seq<bool>>) {
    set x | x in Leads(prefixes)
  }

  /** The merge loop of inferCIDRs. */
  method CommonOfAll(f: Family, prefixes: seq<Prefix>) returns (commonBits: nat)
    requires prefixes != [] && forall i :: 0 <= i < |prefixes| ==> ObservedIn(prefixes[i], f)
    ensures commonBits <= |prefixes[0].lead|
    ensures LongestCommon(prefixes[0].lead[..commonBits], LeadSet(prefixes))
  {
    ghost var leads := Leads(prefixes);
    commonBits := InferredBits(f);
    var i := 1;
    CommonTotal(leads[0], leads[0]);
    while i < |prefixes|
      invariant 1 <= i <= |prefixes|
      invariant commonBits <= InferredBits(f)
      invariant forall j :: 0 <= j < i ==> commonBits <= Common(leads[0], leads[j])
      invariant commonBits == InferredBits(f) || exists j :: 0 <= j < i && Common(leads[0], leads[j]) == commonBits
    {
      commonBits := NextCommon(f, prefixes[0], prefixes[i], commonBits);
      i := i + 1;
    }
    FirstDecides(leads, commonBits);
  }

  /** The per-family part of inferCIDRs, on the networks of the addresses in the order observed. */
  method InferFamily(f: Family, prefixes: seq<Prefix>) returns (leads: set<seq<bool>>)
    requires forall i :: 0 <= i < |prefixes| ==> ObservedIn(prefixes[i], f)
    ensures leads == InferredLeads(f, LeadSet(prefixes))
  {
    if |prefixes| == 0 {
      return {};
    }
    var commonBits := CommonOfAll(f, prefixes);
    var lead := prefixes[0].lead[..commonBits];
    leads := if commonBits >= Floor(f) then {lead} else LeadSet(prefixes);
    assert Leads(prefixes)[0] in LeadSet(prefixes);
    LongestUnique(lead, CommonLead(LeadSet(prefixes)), LeadSet(prefixes));
  }

  /** The first loop of inferCIDRs: the addresses' networks, by family. */
  method ByFamily(addresses: seq<Address>) returns (four: seq<Prefix>, six: seq<Prefix>)
    ensures forall j :: 0 <= j < |four| ==> ObservedIn(four[j], V4)
    ensures forall j :: 0 <= j < |six| ==> ObservedIn(six[j], V6)
    ensures LeadSet(four) == Observed(addresses, V4)
    ensures LeadSet(six) == Observed(addresses, V6)
  {
    four, six := [], [];
    var i := 0;
    while i < |addresses|
      invariant 0 <= i <= |addresses|
      invariant forall j :: 0 <= j < |four| ==> ObservedIn(four[j], V4)
      invariant forall j :: 0 <= j < |six| ==> ObservedIn(six[j], V6)
      invariant LeadSet(four) == Observed(addresses[..i], V4)
      invariant LeadSet(six) == Observed(addresses[..i], V6)
    {
      var a := addresses[i];
      ObservedNext(addresses, i, V4);
      ObservedNext(addresses, i, V6);
      if a.family.V4? {
        LeadsNext(four, Leading(a, INFERRED_IPV4_BITS));
        four := four + [Leading(a, INFERRED_IPV4_BITS)];
      } else {
        LeadsNext(six, Leading(a, INFERRED_IPV6_BITS));
        six := six + [Leading(a, INFERRED_IPV6_BITS)];
      }
      i := i + 1;
    }
    assert addresses[..i] == addresses;
  }

  /** inferCIDRs. */
  method InferCidrs(addresses: seq<Address>) returns (result: set<Prefix>)
    ensures Inferred(result, addresses)
  {
    var four, six := ByFamily(addresses);
    var fourLeads := InferFamily(V4, four);
    var sixLeads := InferFamily(V6, six);
    result := OfFamily(V4, fourLeads) + OfFamily(V6, sixLeads);
    LeadsOfUnion(fourLeads, sixLeads);
  }

  function OfFamily(f: Family, leads: set<seq<bool>>): (r: set<Prefix>) {
    set x | x in leads :: Prefix(f, x)
  }

  lemma LeadsOfUnion(four: set<seq<bool>>, six: set<seq<bool>>)
    ensures LeadsOf(OfFamily(V4, four) + OfFamily(V6, six), V4) == four
    ensures LeadsOf(OfFamily(V4, four) + OfFamily(V6, six), V6) == six
  {
    var r := OfFamily(V4, four) + OfFamily(V6, six);
    forall x | x in four ensures x in LeadsOf(r, V4) {
      assert Prefix(V4, x) in r;
    }
    forall x | x in six ensures x in LeadsOf(r, V6) {
      assert Prefix(V6, x) in r;
    }
  }

  lemma ObservedNext(addresses: seq<Address>, i: nat, f: Family)
    requires i < |addresses|
    ensures Observed(addresses[..i + 1], f) == Observed(addresses[..i], f)
         + if addresses[i].family == f then {addresses[i].bits[..InferredBits(f)]} else {}
  {
  }

  lemma LeadsNext(prefixes: seq<Prefix>, p: Prefix)
    ensures LeadSet(prefixes + [p]) == LeadSet(prefixes) + {p.lead}
  {
    assert Leads(prefixes + [p]) == Leads(prefixes) + [p.lead];
  }

  ghost predicate ContainsAll(q: Prefix, addresses: seq<Address>) {
    forall i :: 0 <= i < |addresses| && addresses[i].family == q.family ==> q.Contains(addresses[i])
  }

  ghost predicate InBounds(p: Prefix) {
    Floor(p.family) <= |p.lead| <= InferredBits(p.family)
  }

  lemma ObservedLead(addresses: seq<Address>, i: nat)
    requires i < |addresses|
    ensures addresses[i].bits[..InferredBits(addresses[i].family)] in Observed(addresses, addresses[i].family)
  {
  }

  /** What an inferred family holds: starts of every observed network, within the bounds. */
  lemma InferredStarts(f: Family, observed: set<seq<bool>>, net: seq<bool>) returns (lead: seq<bool>)
    requires net in observed
    ensures lead in InferredLeads(f, observed) && lead <= net
  {
    var l := CommonLead(observed);
    lead := if |l| >= Floor(f) then l else net;
  }

  lemma InferredBounds(f: Family, observed: set<seq<bool>>, lead: seq<bool>)
    requires lead in InferredLeads(f, observed)
    requires forall x :: x in observed ==> |x| == InferredBits(f)
    ensures Floor(f) <= |lead| <= InferredBits(f)
  {
    var x :| x in observed;
    assert CommonLead(observed) <= x;
  }

  lemma InferredAt(result: set<Prefix>, addresses: seq<Address>, f: Family)
    requires Inferred(result, addresses)
    ensures LeadsOf(result, f) == InferredLeads(f, Observed(addresses, f))
  {
  }

  lemma LeadHeld(result: set<Prefix>, f: Family, lead: seq<bool>)
    ensures lead in LeadsOf(result, f) <==> Prefix(f, lead) in result
  {
  }

  /** Every observed address lies in some inferred range. */
  lemma InferredCovers(result: set<Prefix>, addresses: seq<Address>, i: nat) returns (p: Prefix)
    requires Inferred(result, addresses) && i < |addresses|
    ensures p in result && p.Contains(addresses[i])
  {
    var a := addresses[i];
    ObservedLead(addresses, i);
    InferredAt(result, addresses, a.family);
    var lead := InferredStarts(a.family, Observed(addresses, a.family), a.bits[..InferredBits(a.family)]);
    LeadHeld(result, a.family, lead);
    StartOfStart(lead, a.bits, InferredBits(a.family));
    p := Prefix(a.family, lead);
  }

  /** No range is broader than the merge floor or narrower than one observed network. */
  lemma InferredInBounds(result: set<Prefix>, addresses: seq<Address>, p: Prefix)
    requires Inferred(result, addresses) && p in result
    ensures InBounds(p)
    ensures if p.family.V4? then 12 <= |p.lead| <= 24 else 48 <= |p.lead| <= 64
  {
    assert p.lead in LeadsOf(result, p.family);
    InferredBounds(p.family, Observed(addresses, p.family), p.lead);
  }

  /** A range of the family holds every observed address of it exactly if it starts every observed network. */
  lemma HoldsAll(q: Prefix, addresses: seq<Address>)
    requires |q.lead| <= InferredBits(q.family)
    ensures ContainsAll(q, addresses) <==> CommonTo(q.lead, Observed(addresses, q.family))
  {
    var f, bits := q.family, InferredBits(q.family);
    forall i | 0 <= i < |addresses| && addresses[i].family == f
      ensures q.Contains(addresses[i]) <==> q.lead <= addresses[i].bits[..bits]
      ensures addresses[i].bits[..bits] in Observed(addresses, f)
    {
      ObservedLead(addresses, i);
      StartOfStart(q.lead, addresses[i].bits, bits);
    }
    forall x | x in Observed(addresses, f)
      ensures exists i :: 0 <= i < |addresses| && addresses[i].family == f && addresses[i].bits[..bits] == x
    {
    }
  }

  /** The ranges of family f that inference may give and that hold every observed address of the family. */
  ghost predicate Admissible(q: Prefix, f: Family, addresses: seq<Address>) {
    q.family == f && InBounds(q) && ContainsAll(q, addresses)
  }

  lemma AdmissibleStarts(q: Prefix, f: Family, addresses: seq<Address>)
    requires Observed(addresses, f) != {} && Admissible(q, f, addresses)
    ensures q.lead <= CommonLead(Observed(addresses, f))
  {
    HoldsAll(q, addresses);
    LongestHolds(q.lead, Observed(addresses, f));
  }

  /** Everything common to a set starts its longest common start. */
  lemma LongestHolds(other: seq<bool>, s: set<seq<bool>>)
    requires s != {} && CommonTo(other, s)
    ensures other <= CommonLead(s)
  {
    var x :| x in s;
    var lead := CommonLead(s);
    assert other == x[..|other|] && lead == x[..|lead|];
    assert lead[..|other|] == x[..|other|];
  }

  lemma LongestAdmissible(f: Family, addresses: seq<Address>)
    requires Observed(addresses, f) != {}
    ensures var lead := CommonLead(Observed(addresses, f));
            |lead| >= Floor(f) ==> Admissible(Prefix(f, lead), f, addresses)
  {
    var observed := Observed(addresses, f);
    var lead := CommonLead(observed);
    var x :| x in observed;
    assert |lead| <= |x| == InferredBits(f);
    HoldsAll(Prefix(f, lead), addresses);
  }

  lemma AdmissibleMeansLong(f: Family, addresses: seq<Address>)
    requires Observed(addresses, f) != {}
    ensures (exists q :: Admissible(q, f, addresses)) <==> |CommonLead(Observed(addresses, f))| >= Floor(f)
  {
    LongestAdmissible(f, addresses);
    forall q | Admissible(q, f, addresses) ensures |CommonLead(Observed(addresses, f))| >= Floor(f) {
      AdmissibleStarts(q, f, addresses);
    }
  }

  /** If some admissible range holds the whole family, inference gives one range, and it is the longest: every
      admissible range that holds them all is a start of it. */
  lemma InferredMerges(result: set<Prefix>, addresses: seq<Address>, f: Family, q: Prefix)
    requires Inferred(result, addresses) && Observed(addresses, f) != {}
    requires Admissible(q, f, addresses)
    ensures var m := Prefix(f, CommonLead(Observed(addresses, f)));
            LeadsOf(result, f) == {m.lead} && Admissible(m, f, addresses) && Covers(q, m)
  {
    AdmissibleMeansLong(f, addresses);
    LongestAdmissible(f, addresses);
    AdmissibleStarts(q, f, addresses);
    InferredAt(result, addresses, f);
  }

  /** Without such a range nothing is merged: each observed network stands for itself. */
  lemma InferredUnmerged(result: set<Prefix>, addresses: seq<Address>, f: Family)
    requires Inferred(result, addresses)
    requires forall q :: !Admissible(q, f, addresses)
    ensures LeadsOf(result, f) == Observed(addresses, f)
  {
    if Observed(addresses, f) != {} {
      AdmissibleMeansLong(f, addresses);
    }
    InferredAt(result, addresses, f);
  }

  lemma SameObservedHeld(r1: set<Prefix>, a1: seq<Address>, r2: set<Prefix>, a2: seq<Address>, p: Prefix)
    requires Inferred(r1, a1) && Inferred(r2, a2)
    requires Observed(a1, p.family) == Observed(a2, p.family)
    ensures p in r1 <==> p in r2
  {
    InferredAt(r1, a1, p.family);
    InferredAt(r2, a2, p.family);
    LeadHeld(r1, p.family, p.lead);
    LeadHeld(r2, p.family, p.lead);
  }

  /** The result depends on the set of addresses only: not on their order, nor on repetitions. */
  lemma InferredOrderFree(r1: set<Prefix>, a1: seq<Address>, r2: set<Prefix>, a2: seq<Address>)
    requires Inferred(r1, a1) && Inferred(r2, a2)
    requires forall a :: a in a1 <==> a in a2
    ensures r1 == r2
  {
    forall p: Prefix ensures p in r1 <==> p in r2 {
      ObservedOfSet(a1, a2, p.family);
      ObservedOfSet(a2, a1, p.family);
      SameObservedHeld(r1, a1, r2, a2, p);
    }
  }

  lemma ObservedOfSet(a1: seq<Address>, a2: seq<Address>, f: Family)
    requires forall a :: a in a1 ==> a in a2
    ensures Observed(a1, f) <= Observed(a2, f)
  {
    forall x | x in Observed(a1, f) ensures x in Observed(a2, f) {
      var i :| 0 <= i < |a1| && a1[i].family == f && a1[i].bits[..InferredBits(f)] == x;
      assert a1[i] in a2;
      var j :| 0 <= j < |a2| && a2[j] == a1[i];
    }
  }
}
