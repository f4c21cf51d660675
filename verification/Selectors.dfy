/** Requirements and selectors of pkg/labels/selector.go: construction, meaning and printing. */
module Selectors {
  import opened Options
  import opened Text

  datatype Operator = In | NotIn | Equals | DoubleEquals | NotEquals | GreaterThan | LessThan | Exists | DoesNotExist

  /** The glob matcher of a requirement is determined by its value and is left out. */
  datatype Requirement = Requirement(key: string, operator: Operator, values: seq<string>)

  /** Validation, globs and integer syntax are library code: any functions will do. */
  datatype Rules = Rules(
    validKey: string -> bool,
    validValue: string -> bool,
    compiles: string -> bool,
    globMatches: (string, string) -> bool,
    parseInt: string -> Option<int>)

  predicate IsSetOperator(op: Operator) {
    op == In || op == NotIn
  }

  /** The checks of NewRequirement. */
  predicate Acceptable(rules: Rules, r: Requirement) {
    && rules.validKey(r.key)
    && match r.operator
       case In => r.values != [] && AllValid(rules, r.values)
       case NotIn => r.values != [] && AllValid(rules, r.values)
       case GreaterThan => |r.values| == 1 && rules.parseInt(r.values[0]).Some? && AllValid(rules, r.values)
       case LessThan => |r.values| == 1 && rules.parseInt(r.values[0]).Some? && AllValid(rules, r.values)
       case Exists => r.values == []
       case DoesNotExist => r.values == []
       case _ => |r.values| == 1 && rules.compiles(r.values[0])
  }

  predicate AllValid(rules: Rules, values: seq<string>) {
    forall v <- values :: rules.validValue(v)
  }

  function NewRequirement(rules: Rules, key: string, op: Operator, values: seq<string>): Option<Requirement> {
    var r := Requirement(key, op, values);
    if Acceptable(rules, r) then Some(r) else None
  }

  // ----- meaning -----

  type Labels = map<string, string>

  function Get(labels: Labels, key: string): string {
    if key in labels then labels[key] else ""
  }

  predicate GlobHit(rules: Rules, r: Requirement, value: string) {
    |r.values| == 1 && rules.compiles(r.values[0]) && rules.globMatches(r.values[0], value)
  }

  predicate Matches(rules: Rules, r: Requirement, labels: Labels) {
    var value := Get(labels, r.key);
    match r.operator
    case In => r.key in labels && value in r.values
    case Equals => r.key in labels && GlobHit(rules, r, value)
    case DoubleEquals => r.key in labels && GlobHit(rules, r, value)
    case NotIn => r.key in labels ==> value !in r.values
    case NotEquals => r.key in labels ==> !GlobHit(rules, r, value)
    case Exists => r.key in labels
    case DoesNotExist => r.key !in labels
    case GreaterThan => r.key in labels && Compares(rules, r, value)
    case LessThan => r.key in labels && Compares(rules, r, value)
  }

  predicate Compares(rules: Rules, r: Requirement, value: string) {
    && rules.parseInt(value).Some?
    && |r.values| == 1
    && rules.parseInt(r.values[0]).Some?
    && if r.operator == GreaterThan
       then rules.parseInt(value).value > rules.parseInt(r.values[0]).value
       else rules.parseInt(value).value < rules.parseInt(r.values[0]).value
  }

  predicate SelectorMatches(rules: Rules, sel: seq<Requirement>, labels: Labels) {
    forall r <- sel :: Matches(rules, r, labels)
  }

  method MatchesAll(rules: Rules, sel: seq<Requirement>, labels: Labels) returns (all: bool)
    ensures all == SelectorMatches(rules, sel, labels)
  {
    for i := 0 to |sel|
      invariant forall j | 0 <= j < i :: Matches(rules, sel[j], labels)
    {
      if !Matches(rules, sel[i], labels) {
        return false;
      }
    }
    return true;
  }

  // ----- order of requirements -----

  predicate KeySorted(sel: seq<Requirement>) {
    forall i, j | 0 <= i < j < |sel| :: !Less(sel[j].key, sel[i].key)
  }

  /** sort.Sort by key is not stable: any key-sorted permutation may come out. */
  predicate KeySortedPermutation(raw: seq<Requirement>, sel: seq<Requirement>) {
    multiset(raw) == multiset(sel) && KeySorted(sel)
  }

  lemma SameRequirementsMatchAlike(rules: Rules, a: seq<Requirement>, b: seq<Requirement>, labels: Labels)
    requires multiset(a) == multiset(b)
    ensures SelectorMatches(rules, a, labels) == SelectorMatches(rules, b, labels)
  {
    assert forall r :: r in a <==> r in multiset(a);
    assert forall r :: r in b <==> r in multiset(b);
  }

  // ----- printing -----

  function SafeSort(values: seq<string>): seq<string> {
    if Sorted(values) then values else SortStrings(values)
  }

  function OperatorText(op: Operator): string {
    match op
    case Equals => "="
    case DoubleEquals => "=="
    case NotEquals => "!="
    case In => " in "
    case NotIn => " notin "
    case GreaterThan => ">"
    case LessThan => "<"
    case _ => ""
  }

  function ValuesText(r: Requirement): string {
    if |r.values| == 1 then r.values[0] else Join(SafeSort(r.values), ",")
  }

  function RequirementString(r: Requirement): string {
    match r.operator
    case Exists => r.key
    case DoesNotExist => "!" + r.key
    case In => r.key + OperatorText(In) + "(" + ValuesText(r) + ")"
    case NotIn => r.key + OperatorText(NotIn) + "(" + ValuesText(r) + ")"
    case op => r.key + OperatorText(op) + ValuesText(r)
  }

  function RequirementStrings(sel: seq<Requirement>): seq<string> {
    seq(|sel|, i requires 0 <= i < |sel| => RequirementString(sel[i]))
  }

  function SelectorString(sel: seq<Requirement>): string {
    Join(RequirementStrings(sel), ",")
  }

  method PrintRequirement(r: Requirement) returns (s: string)
    ensures s == RequirementString(r)
  {
    s := "";
    if r.operator == DoesNotExist {
      s := s + "!";
    }
    s := s + r.key;
    s := s + OperatorText(r.operator);
    if r.operator == Exists || r.operator == DoesNotExist {
      assert s == RequirementString(r);
      return;
    }
    if IsSetOperator(r.operator) {
      s := s + "(";
    }
    if |r.values| == 1 {
      s := s + r.values[0];
    } else {
      s := s + Join(SafeSort(r.values), ",");
    }
    if IsSetOperator(r.operator) {
      s := s + ")";
    }
  }

  method PrintSelector(sel: seq<Requirement>) returns (s: string)
    ensures s == SelectorString(sel)
  {
    var parts: seq<string> := [];
    for i := 0 to |sel|
      invariant parts == RequirementStrings(sel)[..i]
    {
      var part := PrintRequirement(sel[i]);
      parts := parts + [part];
    }
    assert parts == RequirementStrings(sel);
    s := Join(parts, ",");
  }
}
