/** DecisionPOSet and DecisionTree (decision_tree_structure.py, lines 43-155): a premise
    order and a parallel list of targets, seen together as a list of classification rules. */
module DecisionPOSets {
  import opened Wrappers
  import opened Errors
  import opened Sequences
  import opened Rules
  import opened PremiseOrder

  /** The `premises` argument: a plain list, or an already built POSet that is kept as is. */
  datatype PremisesArg<!P(==)> = PremiseList(items: seq<P>) | PremiseOrder(order: POSet<P>)

  /** The state a successful construction stores. */
  datatype Built<!P(==), T> = Built(order: POSet<P>, targets: seq<T>)

  /** Either a rule list or both halves of a (premises, targets) pair were passed. */
  predicate Configured<P(==), T>(
    rules: Option<seq<ClassificationRule<P, T>>>, premises: Option<PremisesArg<P>>, targets: Option<seq<T>>)
  {
    rules.Some? || (premises.Some? && targets.Some?)
  }

  /** What __init__ makes of its arguments before the uniqueness assertion: a rule list
      replaces both premises and targets; a plain premise list is wrapped in a POSet over
      `leq`; a POSet is kept with its own order. */
  function Arguments<P(==), T>(
    rules: Option<seq<ClassificationRule<P, T>>>, premises: Option<PremisesArg<P>>, targets: Option<seq<T>>,
    leq: (P, P) -> bool): (b: Built<P, T>)
    requires Configured(rules, premises, targets)
  {
    if rules.Some? then Built(POSet(Premises(rules.value), leq), Targets(rules.value))
    else match premises.value
      case PremiseOrder(o) => Built(o, targets.value)
      case PremiseList(ps) => Built(POSet(ps, leq), targets.value)
  }

  /** DecisionPOSet.__init__ as written: the lengths of premises and targets are never compared. */
  function ConstructAsWritten<P(==), T>(
    rules: Option<seq<ClassificationRule<P, T>>>, premises: Option<PremisesArg<P>>, targets: Option<seq<T>>,
    leq: (P, P) -> bool): (r: Result<Built<P, T>, Error>)
    ensures r == Failure(MissingArguments) <==> !Configured(rules, premises, targets)
    ensures r == Failure(DuplicatePremises) <==>
      Configured(rules, premises, targets) && !Distinct(Arguments(rules, premises, targets, leq).order.elements)
    ensures r.Success? ==> r.value == Arguments(rules, premises, targets, leq)
    ensures r.Failure? ==> r.error == MissingArguments || r.error == DuplicatePremises
  {
    if !Configured(rules, premises, targets) then Failure(MissingArguments)
    else
      var b := Arguments(rules, premises, targets, leq);
      DistinctIffSetSize(b.order.elements);
      if |ToSet(b.order.elements)| != |b.order.elements| then Failure(DuplicatePremises)
      else Success(b)
  }

  /** DecisionPOSet.__init__ with the missing length check added: a (premises, targets)
      pair of different lengths is refused, so the rules the object stores are exactly
      its premises paired position by position with its targets. */
  function Construct<P(==), T>(
    rules: Option<seq<ClassificationRule<P, T>>>, premises: Option<PremisesArg<P>>, targets: Option<seq<T>>,
    leq: (P, P) -> bool): (r: Result<Built<P, T>, Error>)
    ensures r == Failure(MissingArguments) <==> !Configured(rules, premises, targets)
    ensures r == Failure(DuplicatePremises) <==>
      Configured(rules, premises, targets) && !Distinct(Arguments(rules, premises, targets, leq).order.elements)
    ensures r.Success? <==>
      Configured(rules, premises, targets) &&
      Distinct(Arguments(rules, premises, targets, leq).order.elements) &&
      |Arguments(rules, premises, targets, leq).order.elements| == |Arguments(rules, premises, targets, leq).targets|
    ensures r.Success? ==> r.value == Arguments(rules, premises, targets, leq)
    ensures rules.Some? ==> r != Failure(LengthMismatch)
    ensures rules.Some? && r.Success? ==>
      r.value.order == POSet(Premises(rules.value), leq) && Zip(r.value.order.elements, r.value.targets) == rules.value
  {
    var w := ConstructAsWritten(rules, premises, targets, leq);
    var r := if w.Success? && |w.value.order.elements| != |w.value.targets| then Failure(LengthMismatch) else w;
    if rules.Some? then ZipProjections(rules.value); r else r
  }

  /** The pair ([1, 2], [7]) is accepted by __init__ as written, leaving a two-premise
      structure whose rule view holds a single rule. */
  lemma MismatchedPairAccepted()
    ensures var r := ConstructAsWritten<int, int>(None, Some(PremiseList([1, 2])), Some([7]), (a, b) => a <= b);
      r.Success? && r.value.order.Len() == 2 && |Zip(r.value.order.elements, r.value.targets)| == 1
    ensures Construct<int, int>(None, Some(PremiseList([1, 2])), Some([7]), (a, b) => a <= b) == Failure(LengthMismatch)
  {
  }

  /** The position-to-premise map __init__, add and __delitem__ rebuild:
      {p: p_i for p_i, p in enumerate(premises)}. Its keys are the premises, and each key
      is sent to its last position (a later duplicate would overwrite an earlier one). */
  function IndexMap<P(==)>(s: seq<P>): (m: map<P, nat>)
    ensures m.Keys == ToSet(s)
    ensures forall p :: p in m ==> m[p] < |s| && s[m[p]] == p
    ensures forall p, j :: p in m && m[p] < j < |s| ==> s[j] != p
  {
    if s == [] then map[]
    else
      var init, last := s[..|s| - 1], s[|s| - 1];
      assert s == init + [last];
      assert ToSet(s) == ToSet(init) + {last};
      IndexMap(init)[last := |s| - 1]
  }

  /** With unique premises the rebuilt map sends premises[i] to i, for every position i. */
  lemma IndexMapPositions<P>(s: seq<P>)
    requires Distinct(s)
    ensures forall i :: 0 <= i < |s| ==> s[i] in IndexMap(s) && IndexMap(s)[s[i]] == i
  {
  }

  /** The state invariant on values: targets run parallel to premises, premises are unique,
      and the index map sends each premise to its position and knows no other key. */
  ghost predicate Consistent<P, T>(ps: seq<P>, ts: seq<T>, m: map<P, nat>) {
    && |ps| == |ts|
    && Distinct(ps)
    && m.Keys == ToSet(ps)
    && forall i :: 0 <= i < |ps| ==> ps[i] in m && m[ps[i]] == i
  }

  /** Rebuilding the index map restores the invariant for any unique, parallel lists. */
  lemma RebuiltIsConsistent<P, T>(ps: seq<P>, ts: seq<T>)
    requires |ps| == |ts| && Distinct(ps)
    ensures Consistent(ps, ts, IndexMap(ps))
  {
  }

  class DecisionPOSet<P(==), T(==)> {
    var premises: POSet<P>
    var targets: seq<T>
    var elementsToIndex: map<P, nat>
    var useCache: bool

    ghost predicate Valid()
      reads this
    {
      Consistent(premises.elements, targets, elementsToIndex)
    }

    /** The state a successful __init__ leaves behind. */
    constructor (built: Built<P, T>, useCache: bool)
      requires Distinct(built.order.elements) && |built.order.elements| == |built.targets|
      ensures Valid()
      ensures premises == built.order && targets == built.targets && this.useCache == useCache
    {
      premises := built.order;
      targets := built.targets;
      elementsToIndex := IndexMap(built.order.elements);
      RebuiltIsConsistent(built.order.elements, built.targets);
      this.useCache := useCache;
    }

    /** DecisionPOSet(...): the object, or the error __init__ raises. */
    static method Create(
      rules: Option<seq<ClassificationRule<P, T>>>, premises: Option<PremisesArg<P>>, targets: Option<seq<T>>,
      useCache: bool, leq: (P, P) -> bool)
      returns (r: Result<DecisionPOSet<P, T>, Error>)
      ensures r.Failure? <==> Construct(rules, premises, targets, leq).Failure?
      ensures r.Failure? ==> r.error == Construct(rules, premises, targets, leq).error
      ensures r.Success? ==>
        && fresh(r.value) && r.value.Valid()
        && r.value.premises == Construct(rules, premises, targets, leq).value.order
        && r.value.targets == Construct(rules, premises, targets, leq).value.targets
        && r.value.useCache == useCache
    {
      var b := Construct(rules, premises, targets, leq);
      if b.Failure? {
        return Failure(b.error);
      }
      var d := new DecisionPOSet(b.value, useCache);
      r := Success(d);
    }

    /** __len__: the number of premises, which is also the number of targets. */
    function Length(): (r: nat)
      reads this
      requires Valid()
      ensures r == |targets|
    {
      |premises.elements|
    }

    /** classification_rules (and `elements`): rule i pairs premise i with target i. */
    function ClassificationRules(): (r: seq<ClassificationRule<P, T>>)
      reads this
      requires Valid()
      ensures |r| == Length()
      ensures forall i :: 0 <= i < |r| ==> r[i] == ClassificationRule(premises.elements[i], targets[i])
    {
      Zip(premises.elements, targets)
    }

    /** index(rule): the position of the rule's premise, provided the target stored there
        is the rule's target; None when only the premise matches. */
    function Index(rule: ClassificationRule<P, T>): (r: Option<nat>)
      reads this
      requires Valid() && rule.premise in premises.elements
      ensures r.Some? ==> r.value < Length() && ClassificationRules()[r.value] == rule
      ensures forall i :: 0 <= i < Length() && ClassificationRules()[i] == rule ==> r == Some(i)
      ensures r.None? <==> exists i :: 0 <= i < Length() && premises.elements[i] == rule.premise && targets[i] != rule.target
    {
      var i := premises.Index(rule.premise);
      if targets[i] == rule.target then Some(i) else None
    }

    /** leq_elements(a, b): the order on rules is the order on their premises. */
    function LeqElements(a: nat, b: nat): (r: bool)
      reads this
      requires Valid() && a < Length() && b < Length()
      ensures r == premises.leq(ClassificationRules()[a].premise, ClassificationRules()[b].premise)
    {
      premises.LeqElements(a, b)
    }

    /** super_elements(i): the other rules whose premise lies above rule i's. */
    function SuperElements(i: nat): (r: set<nat>)
      reads this
      requires Valid() && i < Length()
      ensures forall j: nat :: j in r <==> j < Length() && j != i && LeqElements(i, j)
    {
      premises.SuperElements(i)
    }

    /** sub_elements(i): the other rules whose premise lies below rule i's. */
    function SubElements(i: nat): (r: set<nat>)
      reads this
      requires Valid() && i < Length()
      ensures forall j: nat :: j in r <==> j < Length() && j != i && LeqElements(j, i)
    {
      premises.SubElements(i)
    }

    /** direct_super_elements(i): the rules above i with no rule strictly between. */
    function DirectSuperElements(i: nat): (r: set<nat>)
      reads this
      requires Valid() && i < Length()
      ensures forall j: nat :: j in r <==>
        j in SuperElements(i) && forall k :: k in SuperElements(i) ==> j !in SuperElements(k)
    {
      premises.DirectSuperElements(i)
    }

    /** direct_sub_elements(i): the rules below i with no rule strictly between. */
    function DirectSubElements(i: nat): (r: set<nat>)
      reads this
      requires Valid() && i < Length()
      ensures forall j: nat :: j in r <==>
        j in SubElements(i) && forall k :: k in SubElements(i) ==> j !in SubElements(k)
    {
      premises.DirectSubElements(i)
    }

    /** top_elements: the rules with nothing above them, in index order. */
    function TopElements(): (r: seq<nat>)
      reads this
      requires Valid()
      ensures forall i: nat :: i in r <==> i < Length() && SuperElements(i) == {}
    {
      premises.TopElements()
    }

    /** __and__, __or__, __xor__ and __sub__: refused for every operator and operand. */
    function SetOperation(op: SetOperator, other: DecisionPOSet<P, T>): (r: Outcome<Error>)
      ensures r.Fail? && r.error == NotImplemented
    {
      Fail(NotImplemented)
    }

    /** __eq__: two rule orders are never compared. */
    function Equals(other: DecisionPOSet<P, T>): (r: Outcome<Error>)
      ensures r.Fail? && r.error == NotImplemented
    {
      Fail(NotImplemented)
    }

    /** trace_element: refused for every element and direction. */
    function TraceElement(element: ClassificationRule<P, T>, direction: string): (r: Outcome<Error>)
      ensures r.Fail? && r.error == NotImplemented
    {
      Fail(NotImplemented)
    }

    /** add(rule): premise and target are appended together and the index map is rebuilt. */
    method Add(rule: ClassificationRule<P, T>)
      requires Valid() && rule.premise !in premises.elements
      modifies this
      ensures Valid()
      ensures premises == old(premises).Add(rule.premise)
      ensures targets == old(targets) + [rule.target]
      ensures useCache == old(useCache)
      ensures Length() == old(Length()) + 1
      ensures ClassificationRules() == old(ClassificationRules()) + [rule]
      ensures Index(rule) == Some(old(Length()))
    {
      var ps, ts := premises.elements + [rule.premise], targets + [rule.target];
      DistinctAppend(premises.elements, rule.premise);
      ZipAppend(premises.elements, targets, rule.premise, rule.target);
      RebuiltIsConsistent(ps, ts);
      premises, targets, elementsToIndex := premises.Add(rule.premise), ts, IndexMap(ps);
      assert ClassificationRules()[|ps| - 1] == rule;
    }

    /** del self[key]: the same positions leave premises and targets, then the index map
        is rebuilt; a position out of range raises IndexError and changes nothing. */
    method Delete(key: Key) returns (outcome: Outcome<Error>)
      requires Valid()
      modifies this
      ensures Valid()
      ensures useCache == old(useCache)
      ensures outcome.Pass? <==> KeyRange(key, old(Length())).Some?
      ensures outcome.Fail? ==>
        outcome.error == IndexOutOfRange && premises == old(premises) && targets == old(targets)
      ensures outcome.Pass? ==>
        var (lo, hi) := KeyRange(key, old(Length())).value;
        && premises == old(premises).Remove(lo, hi)
        && targets == Cut(old(targets), lo, hi)
        && ClassificationRules() == Cut(old(ClassificationRules()), lo, hi)
        && Length() == old(Length()) - (hi - lo)
      ensures outcome.Pass? && key.Position? ==> Length() == old(Length()) - 1
    {
      var range := KeyRange(key, |targets|);
      if range.None? {
        return Fail(IndexOutOfRange);
      }
      var (lo, hi) := range.value;
      var ps, ts := Cut(premises.elements, lo, hi), Cut(targets, lo, hi);
      DistinctCut(premises.elements, lo, hi);
      ZipCut(premises.elements, targets, lo, hi);
      RebuiltIsConsistent(ps, ts);
      premises, targets, elementsToIndex := premises.Remove(lo, hi), ts, IndexMap(ps);
      outcome := Pass;
    }
  }

  /** The set-algebra operators a DecisionPOSet refuses. */
  datatype SetOperator = And | Or | Xor | Sub

  /** A key of __delitem__: one position (negative counts from the end) or a step-1 slice. */
  datatype Key = Position(i: int) | Slice(start: Option<int>, stop: Option<int>)

  /** A slice bound as Python normalises it for a list of length n. */
  function SliceBound(b: Option<int>, default: nat, n: nat): (r: nat)
    ensures r <= n
  {
    match b
    case None => if default <= n then default else n
    case Some(x) =>
      if x < 0 then (if x + n < 0 then 0 else x + n)
      else if x > n then n
      else x
  }

  /** The positions [lo, hi) a key removes from a list of length n, or None where Python
      raises IndexError. */
  function KeyRange(key: Key, n: nat): (r: Option<(nat, nat)>)
    ensures r.Some? ==> r.value.0 <= r.value.1 <= n
    ensures key.Position? ==> (r.Some? <==> 0 <= key.i + n && key.i < n)
    ensures key.Position? && r.Some? ==>
      r.value.1 == r.value.0 + 1 && r.value.0 == (if key.i < 0 then key.i + n else key.i)
    ensures key.Slice? ==> r.Some?
    ensures key == Slice(None, None) ==> r == Some((0, n))
    ensures key.Slice? && key.start.Some? && key.stop.Some? && 0 <= key.start.value <= key.stop.value <= n ==>
      r == Some((key.start.value, key.stop.value))
  {
    match key
    case Position(i) =>
      if i + n < 0 || i >= n then None
      else var j := if i < 0 then i + n else i; Some((j, j + 1))
    case Slice(start, stop) =>
      var lo := SliceBound(start, 0, n);
      var hi := SliceBound(stop, n, n);
      Some((lo, if hi < lo then lo else hi))
  }
}
