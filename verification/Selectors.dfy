/** Label selectors, and the canonical order of selected objects. */
module Selectors {
  import opened Wrappers
  import opened Text
  import opened Objects

  // ---- metav1.LabelSelector -------------------------------------------------------------------

  datatype Operator = In | NotIn | Exists | DoesNotExist | Unknown

  datatype Requirement = Requirement(key: string, op: Operator, values: seq<string>)

  datatype LabelSelector = LabelSelector(matchLabels: Labels, matchExpressions: seq<Requirement>)

  predicate IsValidRequirement(r: Requirement) {
    match r.op
    case In => r.values != []
    case NotIn => r.values != []
    case Exists => r.values == []
    case DoesNotExist => r.values == []
    case Unknown => false
  }

  /** `LabelSelectorAsSelector` succeeds. */
  predicate IsValid(selector: Option<LabelSelector>) {
    selector.Some? ==> forall r | r in selector.value.matchExpressions :: IsValidRequirement(r)
  }

  predicate MeetsRequirement(r: Requirement, labels: Labels) {
    match r.op
    case In => r.key in labels && labels[r.key] in r.values
    case NotIn => r.key in labels ==> labels[r.key] !in r.values
    case Exists => r.key in labels
    case DoesNotExist => r.key !in labels
    case Unknown => false
  }

  /** A nil selector matches nothing. */
  predicate Matches(selector: Option<LabelSelector>, labels: Labels) {
    selector.Some? &&
    (forall k | k in selector.value.matchLabels :: k in labels && labels[k] == selector.value.matchLabels[k]) &&
    (forall r | r in selector.value.matchExpressions :: MeetsRequirement(r, labels))
  }

  const EVERYTHING := Some(LabelSelector(map[], []))

  lemma NilAndEmpty(labels: Labels)
    ensures !Matches(None, labels) && IsValid(None)
    ensures Matches(EVERYTHING, labels) && IsValid(EVERYTHING)
  {}

  /** The selector with one pair. */
  function Pair(key: string, value: string): Option<LabelSelector> {
    Some(LabelSelector(map[key := value], []))
  }

  /** The selector with one expression. */
  function Expression(key: string, op: Operator, values: seq<string>): Option<LabelSelector> {
    Some(LabelSelector(map[], [Requirement(key, op, values)]))
  }

  /** A pair selects the objects that have the label with that value. */
  lemma PairMatches(key: string, value: string, labels: Labels)
    ensures Matches(Pair(key, value), labels) <==> key in labels && labels[key] == value
    ensures IsValid(Pair(key, value))
  {
    var selector := Pair(key, value).value;
    assert key in selector.matchLabels;
  }

  /** Everything in a selector must match: a selector with the pairs and expressions of two others selects what both
      of them select, and is valid when both are. */
  lemma BothMatch(a: LabelSelector, b: LabelSelector, labels: Labels)
    requires forall k | k in a.matchLabels && k in b.matchLabels :: a.matchLabels[k] == b.matchLabels[k]
    ensures var both := Some(LabelSelector(a.matchLabels + b.matchLabels, a.matchExpressions + b.matchExpressions));
            && (Matches(both, labels) <==> Matches(Some(a), labels) && Matches(Some(b), labels))
            && (IsValid(both) <==> IsValid(Some(a)) && IsValid(Some(b)))
  {
    var both := LabelSelector(a.matchLabels + b.matchLabels, a.matchExpressions + b.matchExpressions);
    assert forall r :: r in both.matchExpressions <==> r in a.matchExpressions || r in b.matchExpressions;
    if Matches(Some(both), labels) {
      forall k | k in a.matchLabels ensures k in labels && labels[k] == a.matchLabels[k] {
        assert k in both.matchLabels;
      }
      forall k | k in b.matchLabels ensures k in labels && labels[k] == b.matchLabels[k] {
        assert k in both.matchLabels;
      }
    }
  }

  /** What a single expression selects. `In` is any one of its pairs and `NotIn` none of them; an object exists
      for a key when it has some pair of it. */
  lemma ExpressionMatches(key: string, values: seq<string>, labels: Labels)
    ensures Matches(Expression(key, In, values), labels) <==>
            exists value :: value in values && Matches(Pair(key, value), labels)
    ensures Matches(Expression(key, NotIn, values), labels) <==> !Matches(Expression(key, In, values), labels)
    ensures Matches(Expression(key, Exists, values), labels) <==> exists value :: Matches(Pair(key, value), labels)
    ensures Matches(Expression(key, DoesNotExist, values), labels) <==>
            !Matches(Expression(key, Exists, values), labels)
    ensures !Matches(Expression(key, Unknown, values), labels)
  {
    OneRequirement(Requirement(key, In, values), labels);
    OneRequirement(Requirement(key, NotIn, values), labels);
    OneRequirement(Requirement(key, Exists, values), labels);
    OneRequirement(Requirement(key, DoesNotExist, values), labels);
    OneRequirement(Requirement(key, Unknown, values), labels);
    forall value ensures Matches(Pair(key, value), labels) <==> key in labels && labels[key] == value {
      PairMatches(key, value, labels);
    }
    if key in labels {
      assert Matches(Pair(key, labels[key]), labels);
    }
  }

  /** Which single expressions are valid. */
  lemma ExpressionIsValid(key: string, op: Operator, values: seq<string>)
    ensures IsValid(Expression(key, op, values)) <==>
            (op in [In, NotIn] && values != []) || (op in [Exists, DoesNotExist] && values == [])
  {
    var r := Requirement(key, op, values);
    assert r in [r];
  }

  lemma OneRequirement(r: Requirement, labels: Labels)
    ensures Matches(Some(LabelSelector(map[], [r])), labels) <==> MeetsRequirement(r, labels)
  {
    assert r in [r];
  }

  // ---- The order of the sorted lists ----------------------------------------------------------

  /** The comparison function of `slices.SortFunc`: by name, then by namespace. */
  function CompareKeys(a: Key, b: Key): int {
    var byName := Compare(a.name, b.name);
    if byName != 0 then byName else Compare(a.namespace, b.namespace)
  }

  predicate KeyLess(a: Key, b: Key) {
    CompareKeys(a, b) < 0
  }

  /** Names decide; namespaces only where the names are equal. */
  lemma NamesFirst(a: Key, b: Key)
    ensures KeyLess(a, b) <==> if a.name == b.name then Less(a.namespace, b.namespace) else Less(a.name, b.name)
  {
    LessIrreflexive(a.name);
    LessIrreflexive(a.namespace);
  }

  lemma KeyLessTransitive(a: Key, b: Key, c: Key)
    requires KeyLess(a, b) && KeyLess(b, c)
    ensures KeyLess(a, c)
  {
    if Less(a.name, b.name) && Less(b.name, c.name) {
      LessTransitive(a.name, b.name, c.name);
    }
    if Less(a.namespace, b.namespace) && Less(b.namespace, c.namespace) {
      LessTransitive(a.namespace, b.namespace, c.namespace);
    }
  }

  lemma KeyLessTotal(a: Key, b: Key)
    ensures KeyLess(a, b) || a == b || KeyLess(b, a)
    ensures !KeyLess(a, a)
  {
    LessTotal(a.name, b.name);
    LessTotal(a.namespace, b.namespace);
    LessIrreflexive(a.name);
    LessIrreflexive(a.namespace);
  }

  predicate IsSorted(s: seq<Key>) {
    forall i, j | 0 <= i < j < |s| :: KeyLess(s[i], s[j])
  }

  function Elements(s: seq<Key>): set<Key> {
    set k | k in s
  }

  ghost predicate IsCanonical(s: seq<Key>, keys: set<Key>) {
    IsSorted(s) && Elements(s) == keys
  }

  lemma SortedDistinct(s: seq<Key>, i: int, j: int)
    requires IsSorted(s) && 0 <= i < |s| && 0 <= j < |s|
    ensures s[i] == s[j] ==> i == j
  {
    KeyLessTotal(s[i], s[i]);
  }

  /** One set of objects has one sorted list. */
  lemma {:induction false} CanonicalUnique(s: seq<Key>, t: seq<Key>)
    requires IsSorted(s) && IsSorted(t) && Elements(s) == Elements(t)
    ensures s == t
  {
    NoElements(s);
    NoElements(t);
    if s != [] {
      SameHead(s, t);
      assert Elements(s[1..]) == Elements(t[1..]) by {
        TailElements(s);
        TailElements(t);
      }
      CanonicalUnique(s[1..], t[1..]);
      assert s == [s[0]] + s[1..] && t == [t[0]] + t[1..];
    }
  }

  lemma NoElements(s: seq<Key>)
    ensures s == [] <==> Elements(s) == {}
  {
    if s != [] {
      assert s[0] in Elements(s);
    }
  }

  lemma SameHead(s: seq<Key>, t: seq<Key>)
    requires IsSorted(s) && IsSorted(t) && Elements(s) == Elements(t) && s != [] && t != []
    ensures s[0] == t[0]
  {
    assert s[0] in Elements(s) && t[0] in Elements(t);
    var i :| 0 <= i < |t| && t[i] == s[0];
    var j :| 0 <= j < |s| && s[j] == t[0];
    if i > 0 && j > 0 {
      KeyLessTransitive(s[0], s[j], s[0]);
      KeyLessTotal(s[0], s[0]);
    }
  }

  lemma TailElements(s: seq<Key>)
    requires IsSorted(s) && s != []
    ensures Elements(s[1..]) == Elements(s) - {s[0]}
  {
    forall k | k in Elements(s[1..]) ensures k in Elements(s) - {s[0]} {
      var i :| 0 <= i < |s[1..]| && s[1..][i] == k;
      assert k == s[i + 1];
      SortedDistinct(s, 0, i + 1);
    }
    forall k | k in Elements(s) - {s[0]} ensures k in Elements(s[1..]) {
      var i :| 0 <= i < |s| && s[i] == k;
      assert k == s[1..][i - 1];
    }
  }

  lemma HeadIsLeast(s: seq<Key>, k: Key)
    requires IsSorted(s) && s != [] && k in Elements(s[1..])
    ensures KeyLess(s[0], k)
  {
    var n :| 0 <= n < |s[1..]| && s[1..][n] == k;
    assert s[n + 1] == k;
  }

  /** Where `k` belongs in a sorted list. */
  function Insert(s: seq<Key>, k: Key): seq<Key> {
    if s == [] || KeyLess(k, s[0]) then [k] + s else [s[0]] + Insert(s[1..], k)
  }

  lemma {:induction false} InsertSorts(s: seq<Key>, k: Key)
    requires IsSorted(s) && k !in s
    ensures IsSorted(Insert(s, k)) && Elements(Insert(s, k)) == Elements(s) + {k}
  {
    if s == [] || KeyLess(k, s[0]) {
      forall x | x in Elements(s) ensures KeyLess(k, x) {
        var i :| 0 <= i < |s| && s[i] == x;
        if i > 0 { KeyLessTransitive(k, s[0], x); }
      }
      LeastFirst(k, s);
    } else {
      KeyLessTotal(k, s[0]);
      var rest := Insert(s[1..], k);
      InsertSorts(s[1..], k);
      forall x | x in Elements(rest) ensures KeyLess(s[0], x) {
        if x != k { HeadIsLeast(s, x); }
      }
      LeastFirst(s[0], rest);
      TailElements(s);
      assert s[0] in Elements(s);
    }
  }

  lemma LeastFirst(k: Key, s: seq<Key>)
    requires IsSorted(s) && forall x | x in Elements(s) :: KeyLess(k, x)
    ensures IsSorted([k] + s) && Elements([k] + s) == {k} + Elements(s)
  {
    var r := [k] + s;
    forall i, j | 0 <= i < j < |r| ensures KeyLess(r[i], r[j]) {
      assert r[j] == s[j - 1] && s[j - 1] in Elements(s);
      assert i > 0 ==> r[i] == s[i - 1];
    }
    forall x | x in Elements(r) ensures x in {k} + Elements(s) {}
    assert r[0] == k;
    forall x | x in Elements(s) ensures x in Elements(r) {
      var i :| 0 <= i < |s| && s[i] == x;
      assert r[i + 1] == x;
    }
  }

  /** The sorted list of a set of objects. */
  ghost function Canonical(keys: set<Key>): (s: seq<Key>)
    ensures IsCanonical(s, keys)
  {
    if keys == {} then [] else
      var k :| k in keys;
      var rest := Canonical(keys - {k});
      assert k !in rest by { assert Elements(rest) == keys - {k}; }
      InsertSorts(rest, k);
      Insert(rest, k)
  }
}
