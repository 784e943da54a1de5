# Decision posets and their concept lattices, in Dafny

This project models the rule-order container of `DecisionLattice_evaluation/decision_tree_structure.py`
and proves properties of the model.

- **Classification rules** (`Rules`). A rule is a read-only (premise, target) pair with structural
  equality. `compare_set_function(a, b)` is a superset test: it holds when every element of `b` is
  in `a`. So in the order it induces, a premise that contains all of another's attributes sits
  *below* it; an empty premise, if present, is the top.
- **The premise order** (`PremiseOrder`). This is fcapy's `POSet`, which this repository imports but
  does not contain. It is modelled as a value: a sequence of elements plus an injected `leq`
  predicate. Every query the decision structure forwards is defined from `leq`: sub and super
  elements, direct (covering) neighbours, top and bottom elements, and the direct-sub-element map.
- **DecisionPOSet** (`DecisionPOSets`). A class with fields for the premise order, the parallel
  target list, the premise-to-position map and the cache flag. Its invariant `Valid()` says:
  - targets run parallel to premises;
  - premises are unique;
  - the map sends `premises[i]` to `i` and has no other key.

  `Create` and the class follow the corrected construction `Construct` described under
  "## Findings": it returns the source's errors as `Result` values and also refuses a
  `(premises, targets)` pair of different lengths. Only `ConstructAsWritten` models the
  constructor exactly as written. `Add` and
  `Delete` change premises and targets in lockstep and rebuild the map, as the source does.
  Every order query returns exactly what the premise order returns. The set-algebra operators,
  `__eq__` and `trace_element` always return the `NotImplemented` error.
  A `DecisionTree` is the same class: it inherits `DecisionPOSet.__init__` unchanged.
- **The converter** (`Converter`). `concept_lattice_from_decision_tree` runs over an abstract
  formal context. Its `extension` and `intention` operators and its `hash_fixed()` fingerprint
  are parameters. The converter:
  - copies the premises and appends the full attribute list as a synthetic last premise;
  - builds one concept per premise, with intent `intention(extension(premise))`;
  - translates names to positions with `list.index`, which can fail;
  - tags every concept with the one fingerprint;
  - rewires every bottom element of the tree to the synthetic concept.

Python's exceptions become `Result`/`Outcome` values carrying an `Errors.Error`. None becomes
`Option.None`. Python lists are sequences; the model copies values where Python shares references.

## Model

| member | source | states |
|---|---|---|
| `Rules.CompareSet` | DecisionLattice_evaluation/decision_tree_structure.py:8-9 | `compare_set_function(a, b)` holds exactly when every element of `b` occurs in `a` |
| `Rules.CompareSetDirection` | DecisionLattice_evaluation/decision_tree_structure.py:8-9 | direction of the order: `['a','b']` compares below `['a']`, and `['a']` does not compare below `['a','b']` |
| `Rules.CompareSetIsPreorder` | DecisionLattice_evaluation/decision_tree_structure.py:8-9 | the comparison is reflexive and transitive; it holds both ways exactly when the two premises have the same element set |
| `Rules.ComparePremise` | DecisionLattice_evaluation/decision_tree_structure.py:12-13 | `compare_premise_function` compares only the rules' premises, by the same superset test |
| `Rules.RuleEquals` | DecisionLattice_evaluation/decision_tree_structure.py:36-37 | `ClassificationRule.__eq__` holds exactly when premise and target both match (value equality of the pair) |
| `Rules.ZipProjections` | DecisionLattice_evaluation/decision_tree_structure.py:46-82 | round trip: splitting a rule list into its premises and targets and zipping them back gives the same rules |
| `Rules.ZipAppend` | DecisionLattice_evaluation/decision_tree_structure.py:122-126 | appending one premise and one target appends exactly that rule to the rule view |
| `Rules.ZipCut` | DecisionLattice_evaluation/decision_tree_structure.py:115-119 | deleting the same positions from both lists deletes those rules; the remaining rules keep their pairing and order |
| `Sequences.DistinctIffSetSize` | DecisionLattice_evaluation/decision_tree_structure.py:59 | the uniqueness assertion `len(set(premises)) == len(premises)` holds exactly when no premise occurs twice |
| `Sequences.FirstIndex` | DecisionLattice_evaluation/decision_tree_structure.py:179-180 | `list.index`: a result exists exactly when the element is present, and it is the element's first position |
| `Sequences.DistinctCut` | DecisionLattice_evaluation/decision_tree_structure.py:117 | deleting positions keeps the premises unique |
| `Sequences.DistinctAppend` | DecisionLattice_evaluation/decision_tree_structure.py:124 | appending a new premise keeps the premises unique |
| `PremiseOrder.POSet.Index` | DecisionLattice_evaluation/decision_tree_structure.py:85 | a present premise's position holds that premise |
| `PremiseOrder.SubSuperDual` | DecisionLattice_evaluation/decision_tree_structure.py:134-140 | `j` is a sub-element of `i` exactly when `i` is a super-element of `j` |
| `DecisionPOSets.ConstructAsWritten` | DecisionLattice_evaluation/decision_tree_structure.py:44-59 | `__init__` as written: missing arguments give the configuration error; otherwise duplicate premises give the assertion error; otherwise the arguments are accepted, whatever their lengths |
| `DecisionPOSets.Construct` | DecisionLattice_evaluation/decision_tree_structure.py:44-64 | `__init__` with the length check: it succeeds exactly when configured, unique and of equal lengths; a rule list never hits the length error; from a rule list, the stored premises and targets zip back to the rules |
| `DecisionPOSets.MismatchedPairAccepted` | DecisionLattice_evaluation/decision_tree_structure.py:49-62 | `premises=[1, 2]`, `targets=[7]` is accepted as written, giving 2 premises but 1 rule; the corrected construction refuses it |
| `DecisionPOSets.IndexMap` | DecisionLattice_evaluation/decision_tree_structure.py:64 | the rebuilt map's keys are exactly the premises; each key goes to a position holding it, and to the last such position |
| `DecisionPOSets.IndexMapPositions` | DecisionLattice_evaluation/decision_tree_structure.py:64 | with unique premises the rebuilt map sends `premises[i]` to `i` for every position |
| `DecisionPOSets.RebuiltIsConsistent` | DecisionLattice_evaluation/decision_tree_structure.py:115-126 | rebuilding the map after any change that keeps premises unique and parallel to targets restores the whole invariant |
| `DecisionPOSets.DecisionPOSet.constructor` | DecisionLattice_evaluation/decision_tree_structure.py:61-65 | stores the validated premise order, targets and cache flag, and establishes the invariant |
| `DecisionPOSets.DecisionPOSet.Create` | DecisionLattice_evaluation/decision_tree_structure.py:44-65 | the constructor fails exactly when the construction fails, with the same error; on success the new valid object holds the constructed premises and targets |
| `DecisionPOSets.DecisionPOSet.Length` | DecisionLattice_evaluation/decision_tree_structure.py:112-113 | `__len__` counts the premises, which is also the number of targets |
| `DecisionPOSets.DecisionPOSet.ClassificationRules` | DecisionLattice_evaluation/decision_tree_structure.py:76-82 | `classification_rules` has `len(self)` entries, entry `i` being `ClassificationRule(premises[i], targets[i])` |
| `DecisionPOSets.DecisionPOSet.Index` | DecisionLattice_evaluation/decision_tree_structure.py:84-89 | a returned position holds exactly the rule; if the rule sits at `i`, the result is `i`; None exactly when the premise's position holds a different target |
| `DecisionPOSets.DecisionPOSet.LeqElements` | DecisionLattice_evaluation/decision_tree_structure.py:91-92 | rule `a` is below rule `b` exactly when the premise order puts `a`'s premise below `b`'s; targets are not compared |
| `DecisionPOSets.DecisionPOSet.SuperElements` | DecisionLattice_evaluation/decision_tree_structure.py:134-136 | the other rules whose premise lies above rule `i`'s |
| `DecisionPOSets.DecisionPOSet.SubElements` | DecisionLattice_evaluation/decision_tree_structure.py:138-140 | the other rules whose premise lies below rule `i`'s |
| `DecisionPOSets.DecisionPOSet.DirectSuperElements` | DecisionLattice_evaluation/decision_tree_structure.py:142-143 | the super-elements of `i` with no super-element of `i` below them: the covering relation upwards |
| `DecisionPOSets.DecisionPOSet.DirectSubElements` | DecisionLattice_evaluation/decision_tree_structure.py:145-146 | the sub-elements of `i` with no sub-element of `i` above them: the covering relation downwards |
| `DecisionPOSets.DecisionPOSet.TopElements` | DecisionLattice_evaluation/decision_tree_structure.py:148-151 | the rules with no super-element, and only those |
| `DecisionPOSets.DecisionPOSet.SetOperation` | DecisionLattice_evaluation/decision_tree_structure.py:100-110 | `__and__`, `__or__`, `__xor__` and `__sub__` fail with `NotImplemented` for every operand |
| `DecisionPOSets.DecisionPOSet.Equals` | DecisionLattice_evaluation/decision_tree_structure.py:128-129 | `__eq__` fails with `NotImplemented` for every operand |
| `DecisionPOSets.DecisionPOSet.TraceElement` | DecisionLattice_evaluation/decision_tree_structure.py:131-132 | `trace_element` fails with `NotImplemented` for every element and direction |
| `DecisionPOSets.DecisionPOSet.Add` | DecisionLattice_evaluation/decision_tree_structure.py:122-126 | keeps the invariant; appends the premise and the target; length grows by 1; earlier rules are unchanged and the new rule is last; `index(rule)` finds it at the old length |
| `DecisionPOSets.DecisionPOSet.Delete` | DecisionLattice_evaluation/decision_tree_structure.py:115-119 | keeps the invariant; removes the key's positions from premises and targets alike; the remaining rules keep pairing and order; one position drops the length by 1; an out-of-range position raises IndexError and changes nothing |
| `DecisionPOSets.KeyRange` | DecisionLattice_evaluation/decision_tree_structure.py:115-118 | the positions `del x[key]` removes: a position exists exactly when `-n <= key < n` (negative positions count from the end); a slice never fails; `[:]` removes everything; `[a:b]` in range removes `a..b` |
| `Converter.IndicesIn` | DecisionLattice_evaluation/decision_tree_structure.py:179-180 | the name-to-index translation succeeds exactly when every name is present; on success it has one index per name, and each index is that name's first position, as `list.index` gives |
| `Converter.IndicesEach` | DecisionLattice_evaluation/decision_tree_structure.py:179-180 | the translation of every extent (or intent) succeeds exactly when each succeeds; it gives one index list per name list, each entry the first position of its name |
| `Converter.ResolvableIff` | DecisionLattice_evaluation/decision_tree_structure.py:176-180 | both translations succeed exactly when the context names every object of every extent and every attribute of every intent |
| `Converter.Concepts` | DecisionLattice_evaluation/decision_tree_structure.py:176-184 | one concept per premise: the extent is `extension(premise)` and the intent is `intention(extent)`; each index tuple holds the first positions of its names; all concepts carry the context fingerprint; otherwise the failure is `NameNotFound` |
| `Converter.Rewire` | DecisionLattice_evaluation/decision_tree_structure.py:187-190 | same keys as the tree's map; every bottom element maps to `{synthetic concept}`; every other entry equals the tree's |
| `Converter.ConceptLatticeFromDecisionTree` | DecisionLattice_evaluation/decision_tree_structure.py:158-193 | for a tree that does not already hold the full attribute list as a premise: `len(dt.premises) + 1` concepts, the last from the full attribute list; each concept is its premise's closure under one fingerprint; the former bottoms point at the last concept only; the other adjacency entries are the tree's; it fails exactly on an unknown name; `dt` is not modified (no modifies clause) |

## Left out

- fcapy's `POSet` and `BinaryTree` are not part of this model. Their comparison cache (`use_cache`) is left out. The cover is computed from `leq` rather than read from a precomputed store.
- A `direct_subelements_dict` passed to the constructor is assumed to agree with the cover computed from `leq`.
- `DecisionTree` (decision_tree_structure.py:154) runs `DecisionPOSet.__init__` (:44-65), which never calls a parent constructor and stores a plain `POSet` (:54). On that reading, not executed, no binary-tree validation happens, so the model has none.
- `leq_premise_func=None` (fcapy's default order) is left out: the order is always a parameter.
- DecisionPOSets.DecisionPOSet.Index: requires the premise to be present. What fcapy's `POSet.index` does with an absent premise is not shown in the source. The code would propagate whatever `POSet.index` raises.
- DecisionPOSets.DecisionPOSet.Add: requires the premise to be new. What fcapy's `POSet.add` does with a present element is not shown. The `fill_up_cache` argument is accepted (:122) and ignored: :124 calls `POSet.add` without it, so the model has none.
- DecisionPOSets.DecisionPOSet.Delete: slices with a step other than 1 are left out. Deleting from the premise order is modelled as deleting from its element list.
- DecisionPOSets.DecisionPOSet.SubElements (and the other order queries): take non-negative positions only. Python's negative positions are left out.
- The `elements` property is the same value as `classification_rules`, so it is not modelled twice.
- `__repr__`, `to_str` and `__hash__` are display and hashing only.
- Python aliasing is left out. The caller's `targets` list is shared by the object, and `deepcopy` copies objects; the model copies values.
- Python run with `-O` drops the uniqueness `assert`; the model keeps the check.
- `ClassificationRule.__eq__` against a non-rule (an `AttributeError` in Python) cannot be written with typed operands.
- The compare functions accept any iterable through `set(...)`; the model takes sequences. Converter premises are sequences of attribute names.
- Converter: `FormalContext.extension`, `intention` and `hash_fixed` are parameters. Errors they raise, such as an unknown attribute passed to `extension`, are left out.
- Converter: the `FormalConcept` and `ConceptLattice` constructors are plain records, with none of fcapy's checks or reordering.
- Converter.ConceptLatticeFromDecisionTree: requires that the full attribute list is not already a premise of the tree, because what fcapy's `POSet.add` does with a present element is not shown (decision_tree_structure.py:174 only calls it). `PremiseOrder.POSet.Add` carries the same requirement.
- `compare_set_function` orders premises by superset, not subset; the model follows the code, and the order is a parameter anyway.

## Findings

| source | as written | input that shows it | evidently intended | confidence | as-written member | corrected member |
|---|---|---|---|---|---|---|
| DecisionLattice_evaluation/decision_tree_structure.py:49-62 | a `(premises, targets)` pair is stored without comparing lengths; `zip` later truncates silently | `DecisionPOSet(premises=[1, 2], targets=[7])`: `len` is 2 but `classification_rules` holds 1 rule | premises and targets run in parallel, as the source itself assumes in `__len__` (:113), `index` (:86) and the rule-list path (:47-48) | medium, not executed | `DecisionPOSets.ConstructAsWritten`, `DecisionPOSets.MismatchedPairAccepted` | `DecisionPOSets.Construct` |
