/** Classification rules and the premise comparison used to order them
    (decision_tree_structure.py, lines 8-40). */
module Rules {
  import opened Sequences

  /** compare_set_function(a, b): set(b) & set(a) == set(b). As an order, "a <= b"
      holds when b's elements all occur in a, so a longer premise sits lower. */
  function CompareSet<X(==)>(a: seq<X>, b: seq<X>): (r: bool)
    ensures r <==> forall x :: x in b ==> x in a
  {
    var sa, sb := ToSet(a), ToSet(b);
    assert sb * sa == sb <==> forall x :: x in b ==> x in a by {
      if forall x :: x in b ==> x in a {
        assert sb <= sa;
      } else {
        var x :| x in b && x !in a;
        assert x in sb && x !in sb * sa;
      }
    }
    sb * sa == sb
  }

  /** The direction of the order: the premise ['a', 'b'] is below ['a'], not above it. */
  lemma CompareSetDirection()
    ensures CompareSet(['a', 'b'], ['a'])
    ensures !CompareSet(['a'], ['a', 'b'])
  {
    assert 'b' in ['a', 'b'] && 'b' !in ['a'];
  }

  ghost predicate Reflexive<X(!new)>(leq: (X, X) -> bool) {
    forall a :: leq(a, a)
  }

  ghost predicate Transitive<X(!new)>(leq: (X, X) -> bool) {
    forall a, b, c :: leq(a, b) && leq(b, c) ==> leq(a, c)
  }

  /** compare_set_function is a preorder, and two premises compare both ways exactly when
      they hold the same attributes. */
  lemma CompareSetIsPreorder<X(!new)>()
    ensures Reflexive((a: seq<X>, b: seq<X>) => CompareSet(a, b))
    ensures Transitive((a: seq<X>, b: seq<X>) => CompareSet(a, b))
    ensures forall a: seq<X>, b: seq<X> :: CompareSet(a, b) && CompareSet(b, a) <==> ToSet(a) == ToSet(b)
  {
  }

  /** A read-only (premise, target) pair; ClassificationRule.__eq__ compares both
      fields, which is Dafny's structural equality on this datatype. */
  datatype ClassificationRule<P, T> = ClassificationRule(premise: P, target: T)

  /** ClassificationRule.__eq__. */
  function RuleEquals<P(==), T(==)>(a: ClassificationRule<P, T>, b: ClassificationRule<P, T>): (r: bool)
    ensures r <==> a == b
  {
    a.premise == b.premise && a.target == b.target
  }

  /** compare_premise_function: the premise comparison lifted to rules; targets play no part. */
  function ComparePremise<X(==), T>(a: ClassificationRule<seq<X>, T>, b: ClassificationRule<seq<X>, T>): (r: bool)
    ensures r <==> forall x :: x in b.premise ==> x in a.premise
  {
    CompareSet(a.premise, b.premise)
  }

  /** Python's zip(premises, targets) turned into rules: it stops at the shorter list. */
  function Zip<P, T>(ps: seq<P>, ts: seq<T>): (r: seq<ClassificationRule<P, T>>)
    ensures |r| == if |ps| <= |ts| then |ps| else |ts|
    ensures forall i :: 0 <= i < |r| ==> r[i] == ClassificationRule(ps[i], ts[i])
  {
    var n := if |ps| <= |ts| then |ps| else |ts|;
    seq(n, i requires 0 <= i < n => ClassificationRule(ps[i], ts[i]))
  }

  /** [crule.premise for crule in rules] */
  function Premises<P, T>(rules: seq<ClassificationRule<P, T>>): (r: seq<P>)
    ensures |r| == |rules|
    ensures forall i :: 0 <= i < |r| ==> r[i] == rules[i].premise
  {
    seq(|rules|, i requires 0 <= i < |rules| => rules[i].premise)
  }

  /** [crule.target for crule in rules] */
  function Targets<P, T>(rules: seq<ClassificationRule<P, T>>): (r: seq<T>)
    ensures |r| == |rules|
    ensures forall i :: 0 <= i < |r| ==> r[i] == rules[i].target
  {
    seq(|rules|, i requires 0 <= i < |rules| => rules[i].target)
  }

  /** Splitting rules into premises and targets and zipping them back gives the rules. */
  lemma ZipProjections<P, T>(rules: seq<ClassificationRule<P, T>>)
    ensures Zip(Premises(rules), Targets(rules)) == rules
  {
  }

  /** Appending one premise and one target appends one rule. */
  lemma ZipAppend<P, T>(ps: seq<P>, ts: seq<T>, p: P, t: T)
    requires |ps| == |ts|
    ensures Zip(ps + [p], ts + [t]) == Zip(ps, ts) + [ClassificationRule(p, t)]
  {
  }

  /** Deleting the same positions from premises and targets deletes those rules and keeps
      the remaining pairs, in their order. */
  lemma ZipCut<P, T>(ps: seq<P>, ts: seq<T>, lo: nat, hi: nat)
    requires |ps| == |ts| && lo <= hi <= |ps|
    ensures Zip(Cut(ps, lo, hi), Cut(ts, lo, hi)) == Cut(Zip(ps, ts), lo, hi)
  {
  }
}
