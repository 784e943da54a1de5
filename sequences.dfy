/** Facts about Python lists and sets that the decision structure relies on. */
module Sequences {
  import opened Wrappers

  /** The elements of a list, as Python's set(...) sees them. */
  function ToSet<X>(s: seq<X>): (r: set<X>) {
    set x | x in s
  }

  /** No element occurs twice. */
  predicate Distinct<X(==)>(s: seq<X>) {
    forall i, j :: 0 <= i < j < |s| ==> s[i] != s[j]
  }

  lemma {:induction false} ToSetSize<X>(s: seq<X>)
    ensures |ToSet(s)| <= |s|
  {
    if s != [] {
      ToSetSize(s[1..]);
      assert ToSet(s) == {s[0]} + ToSet(s[1..]);
    }
  }

  /** Python's uniqueness test len(set(s)) == len(s) holds exactly for duplicate-free lists. */
  lemma {:induction false} DistinctIffSetSize<X>(s: seq<X>)
    ensures Distinct(s) <==> |ToSet(s)| == |s|
  {
    if s != [] {
      var t := s[1..];
      DistinctIffSetSize(t);
      assert ToSet(s) == {s[0]} + ToSet(t);
      if s[0] in t {
        ToSetSize(t);
        var j :| 0 <= j < |t| && t[j] == s[0];
        assert s[0] == s[j + 1];
      } else {
        assert Distinct(s) <==> Distinct(t) by {
          if Distinct(t) {
            forall i, j | 0 <= i < j < |s| ensures s[i] != s[j] {
              if i == 0 {
                assert s[j] == t[j - 1];
              } else {
                assert s[i] == t[i - 1] && s[j] == t[j - 1];
              }
            }
          }
          if Distinct(s) {
            forall i, j | 0 <= i < j < |t| ensures t[i] != t[j] {
              assert t[i] == s[i + 1] && t[j] == s[j + 1];
            }
          }
        }
      }
    }
  }

  /** Python's list.index: the first position of x, or None where Python raises ValueError. */
  function FirstIndex<X(==)>(s: seq<X>, x: X): (r: Option<nat>)
    ensures r.Some? <==> x in s
    ensures r.Some? ==> r.value < |s| && s[r.value] == x && forall k :: 0 <= k < r.value ==> s[k] != x
  {
    if s == [] then None
    else if s[0] == x then Some(0)
    else match FirstIndex(s[1..], x)
      case None => None
      case Some(k) => Some(k + 1)
  }

  /** The list left by Python's del s[lo:hi]. */
  function Cut<X>(s: seq<X>, lo: nat, hi: nat): (r: seq<X>)
    requires lo <= hi <= |s|
  {
    s[..lo] + s[hi..]
  }

  lemma DistinctCut<X>(s: seq<X>, lo: nat, hi: nat)
    requires lo <= hi <= |s|
    requires Distinct(s)
    ensures Distinct(Cut(s, lo, hi))
  {
  }

  lemma DistinctAppend<X>(s: seq<X>, x: X)
    requires Distinct(s) && x !in s
    ensures Distinct(s + [x])
  {
  }

  /** The indices below n that satisfy f, in increasing order. */
  function Filter(n: nat, f: nat -> bool): (r: seq<nat>)
    ensures forall i: nat :: i in r <==> i < n && f(i)
    ensures forall k :: 0 <= k < |r| ==> r[k] < n
  {
    if n == 0 then [] else Filter(n - 1, f) + (if f(n - 1) then [n - 1] else [])
  }
}
