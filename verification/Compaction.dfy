/** CIDR compaction: compactCIDRs of internal/cluster/discovery/cidr.go. */
module Compaction {
  import opened Wrappers
  import opened Addresses
  import opened Ordering

  predicate LexLess(x: seq<bool>, y: seq<bool>) {
    if y == [] then false
    else if x == [] then true
    else if x[0] != y[0] then y[0]
    else LexLess(x[1..], y[1..])
  }

  /** Bits as a number. */
  function Value(x: seq<bool>): (n: nat) {
    if x == [] then 0 else 2 * Value(x[..|x| - 1]) + if x[|x| - 1] then 1 else 0
  }

  function Pow2(k: nat): (p: nat)
    ensures p > 0
  {
    if k == 0 then 1 else 2 * Pow2(k - 1)
  }

  lemma {:induction false} ValueFront(b: bool, x: seq<bool>)
    ensures Value([b] + x) == (if b then Pow2(|x|) else 0) + Value(x)
    ensures Value(x) < Pow2(|x|)
  {
    if x != [] {
      var n := |x| - 1;
      ValueFront(b, x[..n]);
      assert ([b] + x)[..n + 1] == [b] + x[..n];
    }
  }

  /** Of bits equally long, the smaller number comes first. */
  lemma {:induction false} LexIsNumeric(x: seq<bool>, y: seq<bool>)
    requires |x| == |y|
    ensures LexLess(x, y) <==> Value(x) < Value(y)
  {
    if x != [] {
      assert x == [x[0]] + x[1..] && y == [y[0]] + y[1..];
      ValueFront(x[0], x[1..]);
      ValueFront(y[0], y[1..]);
      LexIsNumeric(x[1..], y[1..]);
    }
  }

  /** compactCIDRs's comparison: address length, then prefix length, then address. */
  predicate Before(p: Prefix, q: Prefix) {
    if p.family != q.family then p.family.V4?
    else if |p.lead| != |q.lead| then |p.lead| < |q.lead|
    else LexLess(p.lead, q.lead)
  }

  lemma {:induction false} LexIrreflexive(x: seq<bool>)
    ensures !LexLess(x, x)
  {
    if x != [] {
      LexIrreflexive(x[1..]);
    }
  }

  lemma {:induction false} LexTotal(x: seq<bool>, y: seq<bool>)
    ensures LexLess(x, y) || LexLess(y, x) || x == y
    ensures !(LexLess(x, y) && LexLess(y, x))
  {
    if x != [] && y != [] {
      LexTotal(x[1..], y[1..]);
      assert x == [x[0]] + x[1..] && y == [y[0]] + y[1..];
    }
  }

  lemma {:induction false} LexTransitive(x: seq<bool>, y: seq<bool>, z: seq<bool>)
    requires LexLess(x, y) && LexLess(y, z)
    ensures LexLess(x, z)
  {
    if x != [] && x[0] == y[0] == z[0] {
      LexTransitive(x[1..], y[1..], z[1..]);
    }
  }

  lemma BeforeTotal(p: Prefix, q: Prefix)
    ensures Before(p, q) || Before(q, p) || p == q
    ensures !(Before(p, q) && Before(q, p))
  {
    LexTotal(p.lead, q.lead);
  }

  lemma BeforeIsOrder()
    ensures StrictTotal(Before)
  {
    forall p ensures !Before(p, p) {
      LexIrreflexive(p.lead);
    }
    forall p, q ensures Before(p, q) || Before(q, p) || p == q {
      LexTotal(p.lead, q.lead);
    }
    forall p, q, r | Before(p, q) && Before(q, r) ensures Before(p, r) {
      if p.family == q.family == r.family && |p.lead| == |q.lead| == |r.lead| {
        LexTransitive(p.lead, q.lead, r.lead);
      }
    }
  }

  /** A covering prefix never sorts after what it covers. */
  lemma CoverSortsFirst(p: Prefix, q: Prefix)
    requires Covers(p, q)
    ensures !Before(q, p)
  {
    LexTotal(p.lead, q.lead);
    if |p.lead| == |q.lead| {
      assert p.lead == q.lead;
    }
  }

  /** The members of s that no other member covers. */
  ghost predicate Maximal(p: Prefix, s: seq<Prefix>) {
    p in s && forall q :: q in s && Covers(q, p) ==> q == p
  }

  /** The inner test: is some kept prefix's range around the candidate's address? */
  method CoveredBy(kept: seq<Network>, candidate: Network) returns (covered: bool)
    requires forall i :: 0 <= i < |kept| ==> !Before(candidate, kept[i])
    ensures covered <==> exists i :: 0 <= i < |kept| && Covers(kept[i], candidate)
  {
    var i := 0;
    covered := false;
    while i < |kept|
      invariant 0 <= i <= |kept|
      invariant forall j :: 0 <= j < i ==> !Covers(kept[j], candidate)
    {
      ContainsBase(kept[i], candidate);
      if kept[i].Contains(candidate.Base()) {
        return true;
      }
      i := i + 1;
    }
  }

  /** Among prefixes sorted by length, containing the address is covering the range. */
  lemma ContainsBase(p: Network, q: Network)
    requires !Before(q, p)
    ensures p.Contains(q.Base()) <==> Covers(p, q)
  {
    if p.family == q.family {
      StartOfStart(p.lead, q.Base().bits, |q.lead|);
      assert q.Base().bits[..|q.lead|] == q.lead;
    }
  }

  lemma CoversTransitive(p: Prefix, q: Prefix, r: Prefix)
    requires Covers(p, q) && Covers(q, r)
    ensures Covers(p, r)
  {
    assert p.lead == q.lead[..|p.lead|] == r.lead[..|q.lead|][..|p.lead|];
  }

  /** The state of the greedy pass after the candidates `done`: kept are exactly their maximal ones, in order. */
  ghost predicate KeptSoFar(kept: seq<Prefix>, done: seq<Prefix>) {
    && StrictlySorted<Prefix>(kept, Before)
    && (forall p :: p in kept <==> Maximal(p, done))
    && (forall q :: q in done ==> exists p :: p in kept && Covers(p, q))
  }

  /** The greedy step on a sorted list: a candidate that some kept prefix covers changes nothing. */
  lemma StepCovered(kept: seq<Prefix>, done: seq<Prefix>, c: Prefix, k: Prefix)
    requires KeptSoFar(kept, done) && k in kept && Covers(k, c)
    requires forall q :: q in done ==> !Before(c, q)
    ensures KeptSoFar(kept, done + [c])
  {
    forall p ensures Maximal(p, done) <==> Maximal(p, done + [c]) {
      if Maximal(p, done) && Covers(c, p) {
        CoversTransitive(k, c, p);
        CoverAntisymmetric(c, p, k);
      }
      if Maximal(p, done + [c]) && p == c {
        assert k in done + [c];
      }
    }
  }

  lemma CoverAntisymmetric(c: Prefix, p: Prefix, k: Prefix)
    requires Covers(k, c) && Covers(c, p) && k == p
    ensures c == p
  {
  }

  /** A candidate no kept prefix covers is maximal so far, and stays behind the kept ones in order. */
  lemma StepKept(kept: seq<Prefix>, done: seq<Prefix>, c: Prefix)
    requires KeptSoFar(kept, done)
    requires forall k :: k in kept ==> !Covers(k, c)
    requires forall q :: q in done ==> !Before(c, q)
    ensures KeptSoFar(kept + [c], done + [c])
  {
    assert forall q :: q in done ==> !Covers(q, c) by {
      forall q | q in done ensures !Covers(q, c) {
        var k :| k in kept && Covers(k, q);
        if Covers(q, c) { CoversTransitive(k, q, c); }
      }
    }
    assert Covers(c, c);
    forall p | p in done ensures !Covers(c, p) {
      BeforeTotal(c, p);
      if Covers(c, p) {
        CoverSortsFirst(c, p);
      }
    }
    forall i | 0 <= i < |kept| ensures Before(kept[i], c) {
      assert Maximal(kept[i], done);
      BeforeTotal(kept[i], c);
    }
    forall q | q in done + [c] ensures exists p :: p in kept + [c] && Covers(p, q) {
      if q in done {
        var k :| k in kept && Covers(k, q);
        assert k in kept + [c];
      } else {
        assert c in kept + [c] && Covers(c, c);
      }
    }
  }

  /** What compactCIDRs returns for the values that parse: their maximal prefixes, in order. */
  ghost predicate Compacted(result: seq<Prefix>, values: seq<Prefix>) {
    StrictlySorted<Prefix>(result, Before) && forall p :: p in result <==> Maximal(p, values)
  }

  lemma SortedSoFar(prefixes: seq<Prefix>, i: nat)
    requires i < |prefixes| && Sorted<Prefix>(prefixes, Before)
    ensures forall q :: q in prefixes[..i] ==> !Before(prefixes[i], q)
  {
    forall q | q in prefixes[..i] ensures !Before(prefixes[i], q) {
      var j :| 0 <= j < i && prefixes[j] == q;
      assert !Before(prefixes[i], prefixes[j]);
    }
  }

  lemma KeptBehind(kept: seq<Prefix>, done: seq<Prefix>, c: Prefix)
    requires KeptSoFar(kept, done)
    requires forall q :: q in done ==> !Before(c, q)
    ensures forall i :: 0 <= i < |kept| ==> !Before(c, kept[i])
  {
    assert forall i :: 0 <= i < |kept| ==> Maximal(kept[i], done);
  }

  lemma Step(kept: seq<Prefix>, done: seq<Prefix>, c: Prefix)
    requires KeptSoFar(kept, done)
    requires forall q :: q in done ==> !Before(c, q)
    ensures KeptSoFar(if exists i :: 0 <= i < |kept| && Covers(kept[i], c) then kept else kept + [c], done + [c])
  {
    if i :| 0 <= i < |kept| && Covers(kept[i], c) {
      StepCovered(kept, done, c, kept[i]);
    } else {
      StepKept(kept, done, c);
    }
  }

  /** The greedy pass over the sorted prefixes. */
  method KeepMaximal(prefixes: seq<Network>) returns (kept: seq<Network>)
    requires Sorted<Prefix>(prefixes, Before)
    ensures KeptSoFar(kept, prefixes)
  {
    kept := [];
    var i := 0;
    while i < |prefixes|
      invariant 0 <= i <= |prefixes|
      invariant KeptSoFar(kept, prefixes[..i])
    {
      var candidate := prefixes[i];
      SortedSoFar(prefixes, i);
      KeptBehind(kept, prefixes[..i], candidate);
      var covered := CoveredBy(kept, candidate);
      Step(kept, prefixes[..i], candidate);
      assert prefixes[..i + 1] == prefixes[..i] + [candidate];
      if !covered {
        kept := kept + [candidate];
      }
      i := i + 1;
    }
    assert prefixes[..i] == prefixes;
  }

  function Parsed(values: seq<Option<Network>>): (ps: seq<Network>) {
    if values == [] then []
    else if values[|values| - 1].Some? then Parsed(values[..|values| - 1]) + [values[|values| - 1].value]
    else Parsed(values[..|values| - 1])
  }

  /** compactCIDRs, on the parse results of the map's keys in the order the map gives them. */
  method CompactCidrs(values: seq<Option<Network>>) returns (result: seq<Network>)
    ensures Compacted(result, Parsed(values))
  {
    var prefixes: seq<Network> := [];
    var i := 0;
    while i < |values|
      invariant 0 <= i <= |values|
      invariant prefixes == Parsed(values[..i])
    {
      assert values[..i + 1][..i] == values[..i];
      if values[i].Some? {
        prefixes := prefixes + [values[i].value];
      }
      i := i + 1;
    }
    assert values[..i] == values;
    var sorted := SortPrefixes(prefixes);
    forall j | 0 <= j < |sorted| ensures sorted[j].Valid() {
      assert sorted[j] in prefixes;
    }
    result := KeepMaximal(sorted);
    MaximalOfSame(sorted, prefixes);
  }

  function SortPrefixes(s: seq<Prefix>): (r: seq<Prefix>)
    ensures Sorted<Prefix>(r, Before) && forall x :: x in r <==> x in s
  {
    BeforeIsOrder();
    SortElements<Prefix>(s, Before);
    Sort<Prefix>(s, Before)
  }

  lemma MaximalOfSame(a: seq<Prefix>, b: seq<Prefix>)
    requires forall x :: x in a <==> x in b
    ensures forall p :: Maximal(p, a) <==> Maximal(p, b)
  {
  }

  /** The list depends on the set of prefixes only: map order and repetitions do not show. */
  lemma CompactedOrderFree(r1: seq<Prefix>, v1: seq<Prefix>, r2: seq<Prefix>, v2: seq<Prefix>)
    requires Compacted(r1, v1) && Compacted(r2, v2)
    requires forall x :: x in v1 <==> x in v2
    ensures r1 == r2
  {
    BeforeIsOrder();
    MaximalOfSame(v1, v2);
    SortedUnique(r1, r2, Before);
  }

  /** Every prefix lies under a maximal one. */
  lemma {:induction false} UnderMaximal(p: Prefix, s: seq<Prefix>) returns (m: Prefix)
    requires p in s
    ensures Maximal(m, s) && Covers(m, p)
    decreases |p.lead|
  {
    if q :| q in s && Covers(q, p) && q != p {
      assert |q.lead| < |p.lead|;
      m := UnderMaximal(q, s);
      CoversTransitive(m, q, p);
    } else {
      m := p;
    }
  }

  /** Compaction neither loses nor adds an address. */
  lemma CompactedAddresses(result: seq<Prefix>, values: seq<Prefix>, a: Address)
    requires Compacted(result, values)
    ensures (exists p :: p in result && p.Contains(a)) <==> (exists p :: p in values && p.Contains(a))
  {
    if p :| p in values && p.Contains(a) {
      var m := UnderMaximal(p, values);
      assert m in result;
      StartOfStart(m.lead, a.bits, |p.lead|);
      assert a.bits[..|p.lead|] == p.lead;
      assert m.Contains(a);
    }
    if p :| p in result && p.Contains(a) {
      assert Maximal(p, values);
    }
  }

  /** No address lies in two of the ranges kept. */
  lemma CompactedDisjoint(result: seq<Prefix>, values: seq<Prefix>, i: nat, j: nat, a: Address)
    requires Compacted(result, values)
    requires i < |result| && j < |result| && result[i].Contains(a) && result[j].Contains(a)
    ensures i == j
  {
    assert (i < j ==> Before(result[i], result[j])) && (j < i ==> Before(result[j], result[i]));
    assert Maximal(result[i], values) && Maximal(result[j], values);
    OverlapIsCovering(result[i], result[j], a);
    BeforeTotal(result[i], result[j]);
  }

  /** The list begins with IPv4, broader ranges come before narrower ones, and ranges of one length ascend. */
  lemma CompactedAscends(result: seq<Prefix>, values: seq<Prefix>, i: nat, j: nat)
    requires Compacted(result, values) && i < j < |result|
    ensures result[i].family.V6? ==> result[j].family.V6?
    ensures result[i].family == result[j].family ==>
              |result[i].lead| < |result[j].lead|
              || (|result[i].lead| == |result[j].lead| && Value(result[i].lead) < Value(result[j].lead))
  {
    assert Before(result[i], result[j]);
    if |result[i].lead| == |result[j].lead| {
      LexIsNumeric(result[i].lead, result[j].lead);
    }
  }
}
