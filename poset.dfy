/** The ordered-set primitive the decision structure delegates to (fcapy's POSet).
    Only its observable behaviour is modelled: a sequence of elements and an injected
    less-or-equal predicate, from which every order query is defined. */
module PremiseOrder {
  import opened Wrappers
  import opened Sequences

  datatype POSet<!P(==)> = POSet(elements: seq<P>, leq: (P, P) -> bool) {

    function Len(): (n: nat) {
      |elements|
    }

    /** POSet.index: the position of a present element. */
    function Index(p: P): (r: nat)
      requires p in elements
      ensures r < |elements| && elements[r] == p
    {
      FirstIndex(elements, p).value
    }

    /** POSet.leq_elements(i, j): element i is less than or equal to element j. */
    function LeqElements(i: nat, j: nat): (r: bool)
      requires i < Len() && j < Len()
    {
      leq(elements[i], elements[j])
    }

    /** POSet.sub_elements(i): the indices of the other elements below element i. */
    function SubElements(i: nat): (r: set<nat>)
      requires i < Len()
    {
      set j: nat | j < Len() && j != i && LeqElements(j, i)
    }

    /** POSet.super_elements(i): the indices of the other elements above element i. */
    function SuperElements(i: nat): (r: set<nat>)
      requires i < Len()
    {
      set j: nat | j < Len() && j != i && LeqElements(i, j)
    }

    /** POSet.direct_sub_elements(i): the elements below i with nothing in between. */
    function DirectSubElements(i: nat): (r: set<nat>)
      requires i < Len()
    {
      set j: nat | j in SubElements(i) && forall k :: k in SubElements(i) ==> j !in SubElements(k)
    }

    /** POSet.direct_super_elements(i): the elements above i with nothing in between. */
    function DirectSuperElements(i: nat): (r: set<nat>)
      requires i < Len()
    {
      set j: nat | j in SuperElements(i) && forall k :: k in SuperElements(i) ==> j !in SuperElements(k)
    }

    predicate IsTop(i: nat) {
      i < Len() && SuperElements(i) == {}
    }

    predicate IsBottom(i: nat) {
      i < Len() && SubElements(i) == {}
    }

    /** POSet.top_elements: the maximal elements, in index order. */
    function TopElements(): (r: seq<nat>) {
      Filter(Len(), (i: nat) => IsTop(i))
    }

    /** POSet.bottom_elements: the minimal elements, in index order. */
    function BottomElements(): (r: seq<nat>) {
      Filter(Len(), (i: nat) => IsBottom(i))
    }

    /** POSet.direct_sub_elements_dict: every index mapped to its direct sub-elements. */
    function DirectSubElementsDict(): (r: map<nat, set<nat>>) {
      map i: nat | i < Len() :: DirectSubElements(i)
    }

    /** POSet.add of a new element: it goes at the end; the order is unchanged. */
    function Add(p: P): (r: POSet<P>)
      requires p !in elements
    {
      POSet(elements + [p], leq)
    }

    /** del poset[lo:hi], as on the underlying list. */
    function Remove(lo: nat, hi: nat): (r: POSet<P>)
      requires lo <= hi <= Len()
    {
      POSet(Cut(elements, lo, hi), leq)
    }
  }

  /** Below and above are the two readings of one relation. */
  lemma SubSuperDual<P>(o: POSet<P>, i: nat, j: nat)
    requires i < o.Len() && j < o.Len()
    ensures j in o.SubElements(i) <==> i in o.SuperElements(j)
  {
  }
}
