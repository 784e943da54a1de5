/** concept_lattice_from_decision_tree (decision_tree_structure.py, lines 158-193): one formal
    concept per premise of a decision tree plus one built from the full attribute list, wired
    together by the tree's direct-sub-element map. */
module Converter {
  import opened Wrappers
  import opened Errors
  import opened Sequences
  import opened PremiseOrder
  import opened DecisionPOSets

  /** The parts of fcapy's FormalContext the converter uses. `extension` and `intention` are
      the context's derivation operators, given as functions; `fingerprint` is hash_fixed(). */
  datatype FormalContext<!O, !A> = FormalContext(
    objectNames: seq<O>,
    attributeNames: seq<A>,
    extension: seq<A> -> seq<O>,
    intention: seq<O> -> seq<A>,
    fingerprint: int)

  /** FormalConcept(extent_i, extent, intent_i, intent, context_hash=...). */
  datatype FormalConcept<O, A> = FormalConcept(
    extentIndices: seq<nat>,
    extent: seq<O>,
    intentIndices: seq<nat>,
    intent: seq<A>,
    contextHash: int)

  /** ConceptLattice(concepts, subconcepts_dict=...). */
  datatype ConceptLattice<O, A> = ConceptLattice(concepts: seq<FormalConcept<O, A>>, subconcepts: map<nat, set<nat>>)

  /** idx lists, position by position, where each of xs first sits in names. */
  ghost predicate NamesAt<X>(names: seq<X>, idx: seq<nat>, xs: seq<X>) {
    |idx| == |xs| && forall k :: 0 <= k < |idx| ==>
      && idx[k] < |names|
      && names[idx[k]] == xs[k]
      && forall j :: 0 <= j < idx[k] ==> names[j] != xs[k]
  }

  /** tuple([names.index(x) for x in xs]): ValueError as soon as some x is not in names. */
  function IndicesIn<X(==)>(names: seq<X>, xs: seq<X>): (r: Result<seq<nat>, Error>)
    ensures r.Success? <==> forall x :: x in xs ==> x in names
    ensures r.Failure? ==> r.error == NameNotFound
    ensures r.Success? ==> NamesAt(names, r.value, xs)
  {
    if xs == [] then Success([])
    else match FirstIndex(names, xs[0])
      case None => Failure(NameNotFound)
      case Some(i) =>
        match IndicesIn(names, xs[1..])
        case Failure(e) => Failure(e)
        case Success(rest) =>
          assert forall x :: x in xs ==> x == xs[0] || x in xs[1..];
          Success([i] + rest)
  }

  /** The index translation applied to every list of names, left to right. */
  function IndicesEach<X(==)>(names: seq<X>, xss: seq<seq<X>>): (r: Result<seq<seq<nat>>, Error>)
    ensures r.Success? <==> forall c :: 0 <= c < |xss| ==> IndicesIn(names, xss[c]).Success?
    ensures r.Failure? ==> r.error == NameNotFound
    ensures r.Success? ==> |r.value| == |xss| && forall c :: 0 <= c < |xss| ==> NamesAt(names, r.value[c], xss[c])
  {
    if xss == [] then Success([])
    else match IndicesIn(names, xss[0])
      case Failure(e) => Failure(e)
      case Success(first) =>
        match IndicesEach(names, xss[1..])
        case Failure(e) => Failure(e)
        case Success(rest) =>
          assert forall c :: 1 <= c < |xss| ==> xss[c] == xss[1..][c - 1];
          Success([first] + rest)
  }

  /** Every object of every extent and every attribute of every intent is named by the
      context, so the index translation succeeds. */
  ghost predicate Resolvable<O, A>(context: FormalContext<O, A>, ps: seq<seq<A>>) {
    forall c :: 0 <= c < |ps| ==>
      && (forall g :: g in context.extension(ps[c]) ==> g in context.objectNames)
      && (forall m :: m in context.intention(context.extension(ps[c])) ==> m in context.attributeNames)
  }

  /** The concepts of lines 176-184: for premise c the extent is extension(premise), the
      intent is intention(extent), both are translated to indices, and every concept carries
      the context's fingerprint. */
  function Concepts<O(==), A(==)>(context: FormalContext<O, A>, ps: seq<seq<A>>): (r: Result<seq<FormalConcept<O, A>>, Error>)
    ensures r.Success? <==> Resolvable(context, ps)
    ensures r.Failure? ==> r.error == NameNotFound
    ensures r.Success? ==> |r.value| == |ps| && forall c :: 0 <= c < |ps| ==> IsConceptOf(context, ps[c], r.value[c])
  {
    var n := |ps|;
    var extents := seq(n, i requires 0 <= i < n => context.extension(ps[i]));
    var intents := seq(n, i requires 0 <= i < n => context.intention(extents[i]));
    ResolvableIff(context, ps, extents, intents);
    match IndicesEach(context.objectNames, extents)
    case Failure(e) => Failure(e)
    case Success(extentsI) =>
      match IndicesEach(context.attributeNames, intents)
      case Failure(e) => Failure(e)
      case Success(intentsI) =>
        var contextHash := context.fingerprint;
        Success(seq(n, c requires 0 <= c < n =>
          FormalConcept(extentsI[c], extents[c], intentsI[c], intents[c], contextHash)))
  }

  /** Concept cs is the one the converter builds from premise p. */
  ghost predicate IsConceptOf<O, A>(context: FormalContext<O, A>, p: seq<A>, cs: FormalConcept<O, A>) {
    && cs.extent == context.extension(p)
    && cs.intent == context.intention(cs.extent)
    && cs.contextHash == context.fingerprint
    && NamesAt(context.objectNames, cs.extentIndices, cs.extent)
    && NamesAt(context.attributeNames, cs.intentIndices, cs.intent)
  }

  /** Lines 187-190: a copy of the tree's direct-sub-element map in which every bottom
      element gets the synthetic concept as its only sub-concept. */
  method Rewire(tree: map<nat, set<nat>>, bottoms: seq<nat>, bottomConcept: nat) returns (sbc: map<nat, set<nat>>)
    requires forall k :: 0 <= k < |bottoms| ==> bottoms[k] in tree
    ensures sbc.Keys == tree.Keys
    ensures forall b :: b in bottoms ==> sbc[b] == {bottomConcept}
    ensures forall key :: key in tree && key !in bottoms ==> sbc[key] == tree[key]
  {
    sbc := tree;
    for k := 0 to |bottoms|
      invariant sbc.Keys == tree.Keys
      invariant forall j :: 0 <= j < k ==> sbc[bottoms[j]] == {bottomConcept}
      invariant forall key :: key in tree && key !in bottoms[..k] ==> sbc[key] == tree[key]
    {
      sbc := sbc[bottoms[k] := {bottomConcept}];
    }
    assert bottoms[..|bottoms|] == bottoms;
  }

  /** The converter. The tree itself is only read (the method modifies nothing); the copy
      of its premises gets the full attribute list appended as a last, synthetic premise,
      which must not already be one of the tree's premises. Only the premise order is read. */
  method ConceptLatticeFromDecisionTree<O(==), A(==), T(==)>(context: FormalContext<O, A>, dt: DecisionPOSet<seq<A>, T>)
    returns (r: Result<ConceptLattice<O, A>, Error>)
    requires context.attributeNames !in dt.premises.elements
    ensures r.Success? <==> Resolvable(context, dt.premises.elements + [context.attributeNames])
    ensures r.Failure? ==> r.error == NameNotFound
    ensures r.Success? ==>
      var ps, cs := dt.premises.elements + [context.attributeNames], r.value.concepts;
      && |cs| == |dt.premises.elements| + 1
      && cs[|cs| - 1].extent == context.extension(context.attributeNames)
      && forall c :: 0 <= c < |cs| ==> IsConceptOf(context, ps[c], cs[c])
    ensures r.Success? ==>
      var sub, tree := r.value.subconcepts, dt.premises.DirectSubElementsDict();
      && sub.Keys == tree.Keys
      && (forall b :: b in dt.premises.BottomElements() ==> sub[b] == {|r.value.concepts| - 1})
      && (forall k :: k in tree && k !in dt.premises.BottomElements() ==> sub[k] == tree[k])
  {
    var premises := dt.premises;
    premises := premises.Add(context.attributeNames);
    var concepts := Concepts(context, premises.elements);
    if concepts.Failure? {
      return Failure(concepts.error);
    }
    var bcI := |concepts.value| - 1;
    var sbc := Rewire(dt.premises.DirectSubElementsDict(), dt.premises.BottomElements(), bcI);
    r := Success(ConceptLattice(concepts.value, sbc));
  }

  /** The two index translations succeed exactly when the context names everything. */
  lemma ResolvableIff<O, A>(context: FormalContext<O, A>, ps: seq<seq<A>>, extents: seq<seq<O>>, intents: seq<seq<A>>)
    requires |extents| == |ps| && |intents| == |ps|
    requires forall i :: 0 <= i < |ps| ==> extents[i] == context.extension(ps[i])
    requires forall i :: 0 <= i < |ps| ==> intents[i] == context.intention(extents[i])
    ensures IndicesEach(context.objectNames, extents).Success? && IndicesEach(context.attributeNames, intents).Success?
      <==> Resolvable(context, ps)
  {
  }
}
