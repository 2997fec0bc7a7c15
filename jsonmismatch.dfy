/** The structural comparator the configuration test uses to check a built pysaml2 configuration
    against the expected one: it walks both trees and reports every place where they differ. */
module JsonMismatch {
  import opened Base
  import opened JsonValues
  import opened StringOrder

  /** One step of the path to a subtree: a dictionary key or a sequence index. */
  datatype PathItem = Key(key: string) | Index(index: nat)

  /** The exceptions the comparator returns, with the data their messages are made from. */
  datatype Mismatch =
      /** `TypeError`: the two values are of different Python types. */
    | TypeMismatch(path: seq<PathItem>, expected: PyType, generated: PyType)
      /** `KeyError`: keys the expected dictionary has and the generated one lacks. */
    | ExtraKeys(keys: seq<string>)
      /** `KeyError`: keys the generated dictionary has and the expected one lacks. */
    | MissingKeys(keys: seq<string>)
      /** `IndexError`: the two sequences differ in length. */
    | LenDiffers(path: seq<PathItem>, expectedLen: nat, generatedLen: nat)
      /** `ValueError`: two scalars of the same type that are not equal. */
    | ValueMismatch(path: seq<PathItem>, expectedValue: Json, generatedValue: Json)
      /** `TypeError`: a value of a type the comparator does not know. */
    | UnexpectedType(path: seq<PathItem>, generated: PyType)
      /** `ExceptionGroup`: the mismatches found inside one container. */
    | Group(path: seq<PathItem>, errors: seq<Mismatch>)

  /** The values of the `Some`s in `s`, in order. */
  function Somes<T>(s: seq<Option<T>>): (r: seq<T>)
    ensures |r| <= |s|
    ensures r == [] <==> forall i | 0 <= i < |s| :: s[i].None?
    decreases |s|
  {
    if s == [] then []
    else
      var init := s[..|s| - 1];
      assert forall i | 0 <= i < |init| :: init[i] == s[i];
      Somes(init) + (if s[|s| - 1].Some? then [s[|s| - 1].value] else [])
  }

  lemma SomesStep<T>(s: seq<Option<T>>, i: nat)
    requires i < |s|
    ensures Somes(s[..i + 1]) == Somes(s[..i]) + (if s[i].Some? then [s[i].value] else [])
  {
    assert s[..i + 1][..i] == s[..i];
  }

  /** What the comparator may return for the subtree at `path`: never one of the errors that only
      occur inside a group, and never an empty group (which Python refuses to build). */
  predicate Reportable(m: Mismatch, path: seq<PathItem>) {
    match m
    case TypeMismatch(p, _, _) => p == path
    case ValueMismatch(p, _, _) => p == path
    case UnexpectedType(p, _) => p == path
    case Group(p, errors) => p == path && errors != []
    case _ => false
  }

  /** A value the comparator can judge: no part of it is of a type outside JSON with tuples. */
  predicate Comparable(j: Json)
    decreases j
  {
    match j
    case JOther(_) => false
    case JList(items) => forall i | 0 <= i < |items| :: Comparable(items[i])
    case JTuple(items) => forall i | 0 <= i < |items| :: Comparable(items[i])
    case JDict(fields) => forall k | k in fields :: Comparable(fields[k])
    case _ => true
  }

  predicate IsSequence(j: Json) {
    j.JList? || j.JTuple?
  }

  /** The keys of the expected dictionary that the generated one lacks, sorted. */
  function ExtraKeysOf(generated: map<string, Json>, expected: map<string, Json>): seq<string> {
    SortedSet(expected.Keys - generated.Keys)
  }

  /** The keys of the generated dictionary that the expected one lacks, sorted. */
  function MissingKeysOf(generated: map<string, Json>, expected: map<string, Json>): seq<string> {
    SortedSet(generated.Keys - expected.Keys)
  }

  /** The keys both dictionaries have, sorted: the order in which their values are compared. */
  function CommonKeys(generated: map<string, Json>, expected: map<string, Json>): (r: seq<string>)
    ensures forall k | k in r :: k in generated && k in expected
  {
    SortedSet(expected.Keys * generated.Keys)
  }

  /** The key errors of a dictionary comparison, which come before the errors of its values. */
  function KeyErrors(generated: map<string, Json>, expected: map<string, Json>): seq<Mismatch> {
    KeyErrorsOf(ExtraKeysOf(generated, expected), MissingKeysOf(generated, expected))
  }

  function KeyErrorsOf(extra: seq<string>, missing: seq<string>): seq<Mismatch> {
    (if extra != [] then [ExtraKeys(extra)] else []) + (if missing != [] then [MissingKeys(missing)] else [])
  }

  /** There is no key error exactly when both dictionaries have the same keys. */
  lemma KeyErrorsEmptyIff(generated: map<string, Json>, expected: map<string, Json>)
    ensures KeyErrors(generated, expected) == [] <==> expected.Keys == generated.Keys
  {
    var extra := ExtraKeysOf(generated, expected);
    var missing := MissingKeysOf(generated, expected);
    if extra == [] {
      assert forall k | k in expected.Keys - generated.Keys :: k in extra;
    }
    if missing == [] {
      assert forall k | k in generated.Keys - expected.Keys :: k in missing;
    }
  }

  /** The length error of a sequence comparison, which comes before the errors of its items. */
  function LengthErrors(path: seq<PathItem>, generated: seq<Json>, expected: seq<Json>): seq<Mismatch> {
    if |expected| != |generated| then [LenDiffers(path, |expected|, |generated|)] else []
  }

  function Min(a: nat, b: nat): nat {
    if a <= b then a else b
  }

  /** The mismatches of the values under the keys both dictionaries have, in key order. */
  function ValueMismatches(generated: map<string, Json>, expected: Json, path: seq<PathItem>): seq<Mismatch>
    requires expected.JDict?
    decreases expected, 0
  {
    var common := CommonKeys(generated, expected.fields);
    Somes(seq(|common|, i requires 0 <= i < |common| =>
      Compare(generated[common[i]], expected.fields[common[i]], path + [Key(common[i])])))
  }

  /** The mismatches of the items the two sequences pair up (`zip`, which stops at the shorter). */
  function ItemMismatches(generated: seq<Json>, expected: Json, path: seq<PathItem>): seq<Mismatch>
    requires IsSequence(expected)
    decreases expected, 0
  {
    var n := Min(|generated|, |expected.items|);
    Somes(seq(n, i requires 0 <= i < n => Compare(generated[i], expected.items[i], path + [Index(i)])))
  }

  /** `ExceptionGroup(path, errors)` when there are errors, `None` otherwise. */
  function GroupOf(path: seq<PathItem>, errors: seq<Mismatch>): (r: Option<Mismatch>)
    ensures r.Some? ==> Reportable(r.value, path)
    ensures r.None? <==> errors == []
  {
    if errors == [] then None else Some(Group(path, errors))
  }

  /** The dictionary branch: the key errors, then the mismatches of the common values. */
  function DictMismatch(generated: map<string, Json>, expected: Json, path: seq<PathItem>): Option<Mismatch>
    requires expected.JDict?
    decreases expected, 1
  {
    GroupOf(path, KeyErrors(generated, expected.fields) + ValueMismatches(generated, expected, path))
  }

  /** The sequence branch: the length error, then the mismatches of the paired items. */
  function SequenceMismatch(generated: seq<Json>, expected: Json, path: seq<PathItem>): Option<Mismatch>
    requires IsSequence(expected)
    decreases expected, 1
  {
    GroupOf(path, LengthErrors(path, generated, expected.items) + ItemMismatches(generated, expected, path))
  }

  /** `find_json_mismatches(generated, expected, path)`: `None` when the trees agree, otherwise the
      exception describing every difference. */
  function Compare(generated: Json, expected: Json, path: seq<PathItem>): (r: Option<Mismatch>)
    ensures r.Some? ==> Reportable(r.value, path)
    decreases expected, 2
  {
    if TypeOf(expected) != TypeOf(generated) then
      Some(TypeMismatch(path, TypeOf(expected), TypeOf(generated)))
    else if expected.JDict? then
      DictMismatch(generated.fields, expected, path)
    else if IsSequence(expected) then
      SequenceMismatch(generated.items, expected, path)
    else if !expected.JOther? then
      ScalarMismatch(generated, expected, path)
    else
      Some(UnexpectedType(path, TypeOf(generated)))
  }

  /** Types are compared exactly: a bool is not an int (though `True == 1` in Python), and a
      tuple is not a list with the same items. */
  lemma ExactTypesCompared(path: seq<PathItem>)
    ensures Compare(JBool(true), JInt(1), path) == Some(TypeMismatch(path, TInt, TBool))
    ensures Compare(JTuple([JStr("a")]), JList([JStr("a")]), path) == Some(TypeMismatch(path, TList, TTuple))
  {
  }

  /** The scalar branch: `expected != generated`. */
  function ScalarMismatch(generated: Json, expected: Json, path: seq<PathItem>): Option<Mismatch> {
    if expected != generated then Some(ValueMismatch(path, expected, generated)) else None
  }

  /** No value mismatch exactly when the values under the common keys agree and can be judged. */
  lemma {:induction false} ValueMismatchesNoneIff(generated: map<string, Json>, expected: Json, path: seq<PathItem>)
    requires expected.JDict?
    ensures ValueMismatches(generated, expected, path) == [] <==>
      forall k | k in generated && k in expected.fields ::
        generated[k] == expected.fields[k] && Comparable(expected.fields[k])
    decreases expected, 0
  {
    var e := expected.fields;
    var common := CommonKeys(generated, e);
    var subs := seq(|common|, i requires 0 <= i < |common| =>
      Compare(generated[common[i]], e[common[i]], path + [Key(common[i])]));
    forall i | 0 <= i < |common|
      ensures subs[i].None? <==> generated[common[i]] == e[common[i]] && Comparable(e[common[i]])
    {
      CompareNoneIff(generated[common[i]], e[common[i]], path + [Key(common[i])]);
    }
    if ValueMismatches(generated, expected, path) == [] {
      forall k | k in generated && k in e ensures generated[k] == e[k] && Comparable(e[k]) {
        assert k in e.Keys * generated.Keys;
        var i :| 0 <= i < |common| && common[i] == k;
      }
    }
  }

  /** No item mismatch exactly when the paired items agree and can be judged. */
  lemma {:induction false} ItemMismatchesNoneIff(generated: seq<Json>, expected: Json, path: seq<PathItem>)
    requires IsSequence(expected)
    ensures ItemMismatches(generated, expected, path) == [] <==>
      forall i | 0 <= i < |generated| && i < |expected.items| ::
        generated[i] == expected.items[i] && Comparable(expected.items[i])
    decreases expected, 0
  {
    var e := expected.items;
    var n := Min(|generated|, |e|);
    var subs := seq(n, i requires 0 <= i < n => Compare(generated[i], e[i], path + [Index(i)]));
    forall i | 0 <= i < n ensures subs[i].None? <==> generated[i] == e[i] && Comparable(e[i]) {
      CompareNoneIff(generated[i], e[i], path + [Index(i)]);
    }
  }

  /** The dictionary branch finds nothing exactly when the dictionaries are equal and can be
      judged. */
  lemma DictMismatchNoneIff(generated: map<string, Json>, expected: Json, path: seq<PathItem>)
    requires expected.JDict?
    ensures DictMismatch(generated, expected, path) == None <==> generated == expected.fields && Comparable(expected)
    decreases expected, 1
  {
    var keyErrors := KeyErrors(generated, expected.fields);
    var valueErrors := ValueMismatches(generated, expected, path);
    assert DictMismatch(generated, expected, path) == GroupOf(path, keyErrors + valueErrors);
    assert keyErrors + valueErrors == [] <==> keyErrors == [] && valueErrors == [];
    KeyErrorsEmptyIff(generated, expected.fields);
    ValueMismatchesNoneIff(generated, expected, path);
    EqualDictsIff(generated, expected);
  }

  /** Two dictionaries are equal and judgeable exactly when they have the same keys and agree,
      judgeably, under each of them. */
  lemma EqualDictsIff(generated: map<string, Json>, expected: Json)
    requires expected.JDict?
    ensures (generated.Keys == expected.fields.Keys &&
             forall k | k in generated && k in expected.fields ::
               generated[k] == expected.fields[k] && Comparable(expected.fields[k]))
        <==> generated == expected.fields && Comparable(expected)
  {
    var e := expected.fields;
    assert Comparable(expected) <==> forall k | k in e :: Comparable(e[k]);
    if generated.Keys == e.Keys && forall k | k in generated && k in e :: generated[k] == e[k] {
      assert generated == e;
    }
  }

  /** The dictionary case of `CompareNoneIff`. */
  lemma DictNoneIff(generated: Json, expected: Json, path: seq<PathItem>)
    requires generated.JDict? && expected.JDict?
    ensures Compare(generated, expected, path) == None <==> generated == expected && Comparable(expected)
    decreases expected, 2
  {
    assert TypeOf(generated) == TDict && TypeOf(expected) == TDict;
    assert Compare(generated, expected, path) == DictMismatch(generated.fields, expected, path);
    DictMismatchNoneIff(generated.fields, expected, path);
  }

  /** The sequence case of `CompareNoneIff`. */
  lemma SequenceNoneIff(generated: Json, expected: Json, path: seq<PathItem>)
    requires IsSequence(expected) && TypeOf(generated) == TypeOf(expected)
    ensures Compare(generated, expected, path) == None <==> generated == expected && Comparable(expected)
    decreases expected, 1
  {
    var g, e := generated.items, expected.items;
    var errors := LengthErrors(path, g, e) + ItemMismatches(g, expected, path);
    assert Compare(generated, expected, path) == SequenceMismatch(g, expected, path);
    ItemMismatchesNoneIff(g, expected, path);
    if errors == [] {
      assert |g| == |e|;
      assert forall i | 0 <= i < |e| :: g[i] == e[i] && Comparable(e[i]);
      assert g == e;
    } else if generated == expected {
      assert g == e;
      assert LengthErrors(path, g, e) == [];
      assert !Comparable(expected);
    }
  }

  /** The comparator finds nothing exactly when the generated tree equals the expected one, value
      for value and type for type, and holds nothing the comparator cannot judge. */
  lemma {:induction false} CompareNoneIff(generated: Json, expected: Json, path: seq<PathItem>)
    ensures Compare(generated, expected, path) == None <==> generated == expected && Comparable(expected)
    decreases expected, 3
  {
    if TypeOf(expected) != TypeOf(generated) {
    } else if expected.JDict? {
      DictNoneIff(generated, expected, path);
    } else if IsSequence(expected) {
      SequenceNoneIff(generated, expected, path);
    }
  }

  /** The loop over the common keys of two dictionaries, collecting the mismatches of their values. */
  method CompareValues(generated: map<string, Json>, expected: Json, path: seq<PathItem>)
    returns (errors: seq<Mismatch>)
    requires expected.JDict?
    ensures errors == ValueMismatches(generated, expected, path)
    decreases expected, 0
  {
    var common := CommonKeys(generated, expected.fields);
    ghost var subs := seq(|common|, i requires 0 <= i < |common| =>
      Compare(generated[common[i]], expected.fields[common[i]], path + [Key(common[i])]));
    errors := [];
    for i := 0 to |common|
      invariant errors == Somes(subs[..i])
    {
      var key := common[i];
      var subError := FindJsonMismatches(generated[key], expected.fields[key], path + [Key(key)]);
      SomesStep(subs, i);
      if subError.Some? {
        errors := errors + [subError.value];
      }
    }
    assert subs[..|common|] == subs;
  }

  /** The loop over the paired items of two sequences, collecting the mismatches of the pairs. */
  method CompareItems(generated: seq<Json>, expected: Json, path: seq<PathItem>) returns (errors: seq<Mismatch>)
    requires IsSequence(expected)
    ensures errors == ItemMismatches(generated, expected, path)
    decreases expected, 0
  {
    var n := Min(|generated|, |expected.items|);
    ghost var subs := seq(n, i requires 0 <= i < n => Compare(generated[i], expected.items[i], path + [Index(i)]));
    errors := [];
    for i := 0 to n
      invariant errors == Somes(subs[..i])
    {
      var subError := FindJsonMismatches(generated[i], expected.items[i], path + [Index(i)]);
      SomesStep(subs, i);
      if subError.Some? {
        errors := errors + [subError.value];
      }
    }
    assert subs[..n] == subs;
  }

  /** The `if extra_keys` and `if missing_keys` checks. */
  method CollectKeyErrors(extra: seq<string>, missing: seq<string>) returns (errors: seq<Mismatch>)
    ensures errors == KeyErrorsOf(extra, missing)
  {
    errors := [];
    if extra != [] {
      errors := errors + [ExtraKeys(extra)];
    }
    if missing != [] {
      errors := errors + [MissingKeys(missing)];
    }
  }

  /** The dictionary branch: key errors first, then the errors of the common values. */
  method CompareDicts(generated: Json, expected: Json, path: seq<PathItem>) returns (r: Option<Mismatch>)
    requires expected.JDict? && generated.JDict?
    ensures r == DictMismatch(generated.fields, expected, path)
    decreases expected, 1
  {
    var extra := ExtraKeysOf(generated.fields, expected.fields);
    var missing := MissingKeysOf(generated.fields, expected.fields);
    var errors := CollectKeyErrors(extra, missing);
    var valueErrors := CompareValues(generated.fields, expected, path);
    errors := errors + valueErrors;
    if errors != [] {
      return Some(Group(path, errors));
    }
    return None;
  }

  /** The sequence branch: a length error first, then the errors of the paired items. */
  method CompareSequences(generated: Json, expected: Json, path: seq<PathItem>) returns (r: Option<Mismatch>)
    requires IsSequence(expected) && TypeOf(generated) == TypeOf(expected)
    ensures r == SequenceMismatch(generated.items, expected, path)
    decreases expected, 1
  {
    var errors: seq<Mismatch> := [];
    if |expected.items| != |generated.items| {
      errors := errors + [LenDiffers(path, |expected.items|, |generated.items|)];
    }
    assert errors == LengthErrors(path, generated.items, expected.items);
    assert !expected.JDict?;
    var itemErrors := CompareItems(generated.items, expected, path);
    errors := errors + itemErrors;
    if errors != [] {
      return Some(Group(path, errors));
    }
    return None;
  }

  /** `find_json_mismatches` as the test runs it, appending to a list of errors per container. */
  method FindJsonMismatches(generated: Json, expected: Json, path: seq<PathItem>) returns (r: Option<Mismatch>)
    ensures r == Compare(generated, expected, path)
    decreases expected, 3
  {
    if TypeOf(expected) != TypeOf(generated) {
      r := Some(TypeMismatch(path, TypeOf(expected), TypeOf(generated)));
    } else if expected.JDict? {
      r := CompareDicts(generated, expected, path);
    } else if IsSequence(expected) {
      r := CompareSequences(generated, expected, path);
    } else if !expected.JOther? {
      r := ScalarMismatch(generated, expected, path);
    } else {
      r := Some(UnexpectedType(path, TypeOf(generated)));
    }
  }

  /** The test passes (no exception is raised) exactly when the built configuration is the expected
      one and holds only JSON values and tuples. */
  method TestBuildConfig(computed: Json, expected: Json) returns (raised: Option<Mismatch>)
    ensures raised.None? <==> computed == expected && Comparable(expected)
    ensures raised.Some? ==> Reportable(raised.value, [])
  {
    raised := FindJsonMismatches(computed, expected, []);
    CompareNoneIff(computed, expected, []);
  }
}
