/** The schema compatibility checker: the findings it reports, and the checker itself. */
module Compatibility {
  import opened Wrappers
  import opened Json
  import opened Canonical
  import opened Schema

  datatype Keyword = AllOf | AnyOf | OneOf

  datatype Rule =
    | TypeChanged | EnumValueRemoved | EnumValueAdded | PatternChanged | FormatChanged
    | MinLengthIncreased | MaxLengthDecreased | MinimumIncreased | MaximumDecreased
    | MinItemsIncreased | MaxItemsDecreased | UniqueItemsBecameStricter
    | PropertyRemoved | RequiredPropertyAdded | OptionalPropertyAdded
    | RequirednessRelaxed | RequirednessTightened
    | AdditionalPropertiesRelaxed | AdditionalPropertiesRestricted
    | CompositionChanged(keyword: Keyword)

  datatype Severity = Info | Warning | Error

  datatype Finding = Finding(path: string, rule: Rule, breaking: bool, severity: Severity)

  // ---------------------------------------------------------------- the checker's own equality

  /** `Object.keys`: the field names of an object, the indices of an array or a string. */
  function KeysOf(v: Json): set<string> {
    match v
    case Obj(fields) => set i | 0 <= i < |fields| :: fields[i].key
    case Arr(items) => set i | 0 <= i < |items| :: NumberText(i)
    case Str(s) => set i | 0 <= i < |s| :: NumberText(i)
    case _ => {}
  }

  /** What `JSON.stringify` keeps of a value when only the listed keys may appear. */
  function Project(v: Json, keys: set<string>): Json {
    match v
    case Arr(items) => Arr(ProjectAll(items, keys))
    case Obj(fields) => Obj(ProjectFields(fields, keys))
    case _ => v
  }

  function ProjectAll(items: seq<Json>, keys: set<string>): seq<Json> {
    if items == [] then [] else [Project(items[0], keys)] + ProjectAll(items[1..], keys)
  }

  function ProjectFields(fields: seq<Field<Json>>, keys: set<string>): seq<Field<Json>> {
    if fields == [] then []
    else
      assert fields[0].value < fields[0];
      (if fields[0].key in keys then [Field(fields[0].key, Project(fields[0].value, keys))] else [])
      + ProjectFields(fields[1..], keys)
  }

  /** The checker's `sameJson`: both texts list only each value's own top-level keys, sorted. */
  predicate LooselySame(v: Json, w: Json) {
    Canonicalize(Project(v, KeysOf(v))) == Canonicalize(Project(w, KeysOf(w)))
  }

  // ---------------------------------------------------------------- findings

  function Broken(path: string, rule: Rule): Finding { Finding(path, rule, true, Error) }

  function Flag(condition: bool, f: Finding): seq<Finding> { if condition then [f] else [] }

  predicate LowerBoundRaised(prev: Option<int>, next: Option<int>) {
    next.Some? && (prev.None? || next.value > prev.value)
  }

  predicate UpperBoundLowered(prev: Option<int>, next: Option<int>) {
    next.Some? && (prev.None? || next.value < prev.value)
  }

  predicate HasLooselySame(values: seq<Json>, v: Json) {
    exists i :: 0 <= i < |values| && LooselySame(values[i], v)
  }

  predicate Changed<T(==)>(prev: Option<T>, next: Option<T>) { prev.Some? && next.Some? && prev.value != next.value }

  function EnumFindings(prev: Schema, next: Schema, path: string, profile: Mode): seq<Finding> {
    if prev.enumeration.Some? && next.enumeration.Some? then
      var before, after := prev.enumeration.value, next.enumeration.value;
      Flag(exists i :: 0 <= i < |before| && !HasLooselySame(after, before[i]), Broken(path, EnumValueRemoved))
      + Flag(exists i :: 0 <= i < |after| && !HasLooselySame(before, after[i]),
             Finding(path, EnumValueAdded, profile == Strict, if profile == Strict then Error else Warning))
    else []
  }

  function ScalarFindings(prev: Schema, next: Schema, path: string, profile: Mode): seq<Finding> {
    EnumFindings(prev, next, path, profile)
    + Flag(Changed(prev.pattern, next.pattern), Broken(path, PatternChanged))
    + Flag(Changed(prev.format, next.format), Broken(path, FormatChanged))
    + Flag(LowerBoundRaised(prev.minLength, next.minLength), Broken(path, MinLengthIncreased))
    + Flag(UpperBoundLowered(prev.maxLength, next.maxLength), Broken(path, MaxLengthDecreased))
    + Flag(LowerBoundRaised(prev.minimum, next.minimum), Broken(path, MinimumIncreased))
    + Flag(UpperBoundLowered(prev.maximum, next.maximum), Broken(path, MaximumDecreased))
    + Flag(LowerBoundRaised(prev.minItems, next.minItems), Broken(path, MinItemsIncreased))
    + Flag(UpperBoundLowered(prev.maxItems, next.maxItems), Broken(path, MaxItemsDecreased))
    + Flag(IsFalse(prev.uniqueItems) && IsTrue(next.uniqueItems), Broken(path, UniqueItemsBecameStricter))
  }

  function RemovedFinding(prev: Schema, key: string, path: string, profile: Mode): Finding {
    var breaking := profile != TolerantReader || key in prev.required;
    Finding(path + "." + key, PropertyRemoved, breaking, if breaking then Error else Warning)
  }

  function AddedFindings(prev: Schema, next: Schema, key: string, path: string, profile: Mode): seq<Finding> {
    if HasKey(Props(prev), key) then []
    else if key !in next.required && profile == TolerantReader then []
    else
      var required := key in next.required;
      var breaking := required || profile == Strict;
      [Finding(path + "." + key, if required then RequiredPropertyAdded else OptionalPropertyAdded,
               breaking, if breaking then Error else Info)]
  }

  /** Findings for the first `n` properties of `next`. */
  function AllAdded(prev: Schema, next: Schema, path: string, profile: Mode, n: nat): seq<Finding>
    requires n <= |Props(next)|
  {
    if n == 0 then [] else
      AllAdded(prev, next, path, profile, n - 1) + AddedFindings(prev, next, Props(next)[n - 1].key, path, profile)
  }

  function RelaxedFindings(prev: Schema, next: Schema, path: string, n: nat): seq<Finding>
    requires n <= |prev.required|
  {
    if n == 0 then [] else
      var key := prev.required[n - 1];
      RelaxedFindings(prev, next, path, n - 1)
      + Flag(key !in next.required, Finding(path + "." + key, RequirednessRelaxed, false, Info))
  }

  function TightenedFindings(prev: Schema, next: Schema, path: string, n: nat): seq<Finding>
    requires n <= |next.required|
  {
    if n == 0 then [] else
      var key := next.required[n - 1];
      TightenedFindings(prev, next, path, n - 1)
      + Flag(key !in prev.required && HasKey(Props(prev), key), Broken(path + "." + key, RequirednessTightened))
  }

  function ExtraFindings(prev: Schema, next: Schema, path: string, profile: Mode): seq<Finding> {
    Flag(prev.extra.Forbidden? && !next.extra.Forbidden?, Finding(path, AdditionalPropertiesRelaxed, false, Info))
    + Flag(!prev.extra.Forbidden? && next.extra.Forbidden?,
           Finding(path, AdditionalPropertiesRestricted, profile != TolerantReader,
                   if profile == TolerantReader then Warning else Error))
  }

  function IndexOf<V>(fields: seq<Field<V>>, key: string): (k: nat)
    requires HasKey(fields, key)
    ensures k < |fields| && fields[k].key == key && forall j :: 0 <= j < k ==> fields[j].key != key
  {
    if fields[0].key == key then 0 else
      assert HasKey(fields[1..], key) by {
        var i :| 0 <= i < |fields| && fields[i].key == key;
        assert fields[1..][i - 1].key == key;
      }
      1 + IndexOf(fields[1..], key)
  }

  function KeywordName(k: Keyword): string {
    match k case AllOf => "allOf" case AnyOf => "anyOf" case OneOf => "oneOf"
  }

  function Children(s: Schema, k: Keyword): (c: Choice)
    ensures c.Of? ==> forall i :: 0 <= i < |c.schemas| ==> c.schemas[i] < s
  {
    match k case AllOf => s.allOf case AnyOf => s.anyOf case OneOf => s.oneOf
  }

  function ChildPath(path: string, k: Keyword, index: nat): string {
    path + "." + KeywordName(k) + "[" + NumberText(index) + "]"
  }

  /** Everything the checker has to say about replacing `prev` by `next`, repetitions included. */
  function Findings(prev: Schema, next: Schema, path: string, profile: Mode): seq<Finding>
    decreases prev, 2, 0
  {
    if Changed(prev.types, next.types) then [Broken(path, TypeChanged)]
    else
      ScalarFindings(prev, next, path, profile)
      + PropertyFindings(prev, next, path, profile, |Props(prev)|)
      + AllAdded(prev, next, path, profile, |Props(next)|)
      + RelaxedFindings(prev, next, path, |prev.required|)
      + TightenedFindings(prev, next, path, |next.required|)
      + ExtraFindings(prev, next, path, profile)
      + (if prev.items.Some? && next.items.Some?
         then Findings(prev.items.value, next.items.value, path + "[]", profile) else [])
      + ChoiceFindings(prev, next, AllOf, path, profile)
      + ChoiceFindings(prev, next, AnyOf, path, profile)
      + ChoiceFindings(prev, next, OneOf, path, profile)
  }

  /** Findings for the first `n` properties of `prev`. */
  function PropertyFindings(prev: Schema, next: Schema, path: string, profile: Mode, n: nat): seq<Finding>
    requires n <= |Props(prev)|
    decreases prev, 1, n
  {
    if n == 0 then [] else
      var f := Props(prev)[n - 1];
      assert f.value < f;
      PropertyFindings(prev, next, path, profile, n - 1)
      + (if HasKey(Props(next), f.key)
         then Findings(f.value, Props(next)[IndexOf(Props(next), f.key)].value, path + "." + f.key, profile)
         else [RemovedFinding(prev, f.key, path, profile)])
  }

  function ChoiceFindings(prev: Schema, next: Schema, k: Keyword, path: string, profile: Mode): seq<Finding>
    decreases prev, 1, 0
  {
    var before, after := Children(prev, k), Children(next, k);
    if before.NoChoice? || after.NoChoice? then []
    else if |before.schemas| == |after.schemas| then
      PairwiseFindings(prev, before.schemas, after.schemas, k, path, profile, |before.schemas|)
    else [Broken(path, CompositionChanged(k))]
  }

  /** Findings for the first `n` pairs of children; `prev` is the schema they belong to. */
  function PairwiseFindings(ghost prev: Schema, before: seq<Schema>, after: seq<Schema>, k: Keyword, path: string,
                            profile: Mode, n: nat): seq<Finding>
    requires n <= |before| == |after| && forall i :: 0 <= i < |before| ==> before[i] < prev
    decreases prev, 0, n
  {
    if n == 0 then [] else
      PairwiseFindings(prev, before, after, k, path, profile, n - 1)
      + Findings(before[n - 1], after[n - 1], ChildPath(path, k, n - 1), profile)
  }
}
