/** Lists in the order of a comparison: what sorting gives, and that a strictly sorted list is fixed by its
    elements. The library sort is insertion here; only its contract is used. */
module Ordering {

  ghost predicate StrictTotal<T(!new)>(less: (T, T) -> bool) {
    && (forall x :: !less(x, x))
    && (forall x, y :: less(x, y) || less(y, x) || x == y)
    && (forall x, y, z :: less(x, y) && less(y, z) ==> less(x, z))
  }

  ghost predicate Sorted<T(!new)>(s: seq<T>, less: (T, T) -> bool) {
    forall i, j :: 0 <= i < j < |s| ==> !less(s[j], s[i])
  }

  ghost predicate StrictlySorted<T(!new)>(s: seq<T>, less: (T, T) -> bool) {
    forall i, j :: 0 <= i < j < |s| ==> less(s[i], s[j])
  }

  function Insert<T>(x: T, s: seq<T>, less: (T, T) -> bool): (r: seq<T>) {
    if s == [] then [x]
    else if !less(s[0], x) then [x] + s
    else [s[0]] + Insert(x, s[1..], less)
  }

  lemma {:induction false} InsertElements<T>(x: T, s: seq<T>, less: (T, T) -> bool)
    ensures multiset(Insert(x, s, less)) == multiset(s) + multiset{x}
  {
    if s != [] {
      assert s == [s[0]] + s[1..];
      if less(s[0], x) {
        InsertElements(x, s[1..], less);
      }
    }
  }

  lemma {:induction false} InsertSorted<T(!new)>(x: T, s: seq<T>, less: (T, T) -> bool)
    requires StrictTotal(less) && Sorted(s, less)
    ensures Sorted(Insert(x, s, less), less)
  {
    if s != [] && less(s[0], x) {
      InsertSorted(x, s[1..], less);
      var rest := Insert(x, s[1..], less);
      forall j | 0 <= j < |rest| ensures !less(rest[j], s[0]) {
        InsertElements(x, s[1..], less);
        assert rest[j] in multiset(rest);
        assert rest[j] == x || rest[j] in s[1..];
      }
    }
  }

  function Sort<T(!new)>(s: seq<T>, less: (T, T) -> bool): (r: seq<T>)
    requires StrictTotal(less)
    ensures Sorted(r, less) && multiset(r) == multiset(s)
  {
    if s == [] then []
    else
      var rest := Sort(s[1..], less);
      assert s == [s[0]] + s[1..];
      InsertElements(s[0], rest, less);
      InsertSorted(s[0], rest, less);
      Insert(s[0], rest, less)
  }

  /** Sorting changes neither the elements nor how many there are. */
  lemma SortElements<T(!new)>(s: seq<T>, less: (T, T) -> bool)
    requires StrictTotal(less)
    ensures |Sort(s, less)| == |s|
    ensures forall x :: x in Sort(s, less) <==> x in s
  {
    assert |multiset(s)| == |s|;
    assert |multiset(Sort(s, less))| == |Sort(s, less)|;
    forall x ensures x in Sort(s, less) <==> x in s {
      assert x in multiset(Sort(s, less)) <==> x in Sort(s, less);
      assert x in multiset(s) <==> x in s;
    }
  }

  lemma FirstLeast<T(!new)>(s: seq<T>, x: T, less: (T, T) -> bool)
    requires StrictlySorted(s, less) && x in s
    ensures s[0] == x || less(s[0], x)
  {
    var i :| 0 <= i < |s| && s[i] == x;
  }

  lemma HasFirst<T>(s: seq<T>)
    ensures s == [] || s[0] in s
  {
  }

  /** Two strictly sorted lists with the same elements are the same list. */
  lemma {:induction false} SortedUnique<T(!new)>(a: seq<T>, b: seq<T>, less: (T, T) -> bool)
    requires StrictTotal(less) && StrictlySorted(a, less) && StrictlySorted(b, less)
    requires forall x :: x in a <==> x in b
    ensures a == b
  {
    HasFirst(a);
    HasFirst(b);
    if a != [] && b != [] {
      FirstLeast(a, b[0], less);
      FirstLeast(b, a[0], less);
      RestElements(a, less);
      RestElements(b, less);
      SortedUnique(a[1..], b[1..], less);
    }
  }

  lemma RestElements<T(!new)>(s: seq<T>, less: (T, T) -> bool)
    requires StrictTotal(less) && StrictlySorted(s, less) && s != []
    ensures forall x :: x in s[1..] <==> x in s && x != s[0]
  {
    assert s == [s[0]] + s[1..];
    assert forall k :: 0 <= k < |s[1..]| ==> less(s[0], s[1..][k]);
  }

  /** Sorting a list without repetitions sorts it strictly. */
  lemma SortStrict<T(!new)>(s: seq<T>, less: (T, T) -> bool)
    requires StrictTotal(less)
    requires forall i, j :: 0 <= i < j < |s| ==> s[i] != s[j]
    ensures StrictlySorted(Sort(s, less), less)
  {
    var r := Sort(s, less);
    forall i, j | 0 <= i < j < |r| ensures less(r[i], r[j]) {
      if r[i] == r[j] {
        DistinctOnce(s, r[i]);
        TwiceTwo(r, i, j);
        assert false;
      }
    }
  }

  lemma DistinctOnce<T>(s: seq<T>, x: T)
    requires forall i, j :: 0 <= i < j < |s| ==> s[i] != s[j]
    ensures multiset(s)[x] <= 1
  {
    if s != [] {
      assert s == s[..|s| - 1] + [s[|s| - 1]];
      DistinctOnce(s[..|s| - 1], x);
      if s[|s| - 1] == x {
        assert x !in s[..|s| - 1];
        assert x !in multiset(s[..|s| - 1]);
      }
    }
  }

  lemma TwiceTwo<T>(s: seq<T>, i: nat, j: nat)
    requires i < j < |s| && s[i] == s[j]
    ensures multiset(s)[s[i]] >= 2
  {
    var a, b := s[..j], s[j..];
    assert s == a + b;
    assert s[i] == a[i] && a[i] in multiset(a);
    assert s[i] == b[0] && b[0] in multiset(b);
  }

  /** The keys of a map, once each, in no particular order. */
  method Keys<T(==)>(s: set<T>) returns (keys: seq<T>)
    ensures forall x :: x in keys <==> x in s
    ensures forall i, j :: 0 <= i < j < |keys| ==> keys[i] != keys[j]
  {
    keys := [];
    var rest := s;
    while rest != {}
      invariant rest <= s
      invariant forall x :: x in keys <==> x in s - rest
      invariant forall i, j :: 0 <= i < j < |keys| ==> keys[i] != keys[j]
      decreases rest
    {
      var x :| x in rest;
      assert x !in keys;
      rest := rest - {x};
      keys := keys + [x];
    }
  }
}
