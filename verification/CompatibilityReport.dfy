/**
 * What a compatibility report says: each finding is true of two schemas the checker compares, all that
 * is true of them is reported, and so the changes that break nothing are those that only relax.
 */
module CompatibilityReport {
  import opened Wrappers
  import opened Json
  import opened Canonical
  import opened Schema
  import opened Compatibility
  import opened CompatibilitySoundness
  import opened CompatibilityProfiles

  // ---------------------------------------------------------------- what a finding says

  /** A finding about `path` that breaks on this condition, and then is an error. */
  predicate Graded(f: Finding, path: string, breaking: bool, otherwise: Severity) {
    f == Finding(path, f.rule, breaking, if breaking then Error else otherwise)
  }

  predicate Differ<T(==)>(a: Option<T>, b: Option<T>) { a.Some? && b.Some? && a.value != b.value }

  /** The new lower bound lets through less than the old one. */
  predicate Raised(a: Option<int>, b: Option<int>) { b.Some? && (a.None? || a.value < b.value) }

  /** The new upper bound lets through less than the old one. */
  predicate Lowered(a: Option<int>, b: Option<int>) { b.Some? && (a.None? || b.value < a.value) }

  /** Both lists are given, and some value of the first equals none of the second. */
  predicate Loses(a: Option<seq<Json>>, b: Option<seq<Json>>) {
    a.Some? && b.Some? && exists i :: 0 <= i < |a.value| && !Kept(a.value[i], b.value)
  }

  predicate Kept(v: Json, values: seq<Json>) { exists j :: 0 <= j < |values| && LooselySame(values[j], v) }

  predicate TellsOfScalars(f: Finding, prev: Schema, next: Schema, path: string, profile: Mode) {
    match f.rule
    case EnumValueRemoved => Graded(f, path, true, Error) && Loses(prev.enumeration, next.enumeration)
    case EnumValueAdded => Graded(f, path, profile == Strict, Warning) && Loses(next.enumeration, prev.enumeration)
    case PatternChanged => Graded(f, path, true, Error) && Differ(prev.pattern, next.pattern)
    case FormatChanged => Graded(f, path, true, Error) && Differ(prev.format, next.format)
    case MinLengthIncreased => Graded(f, path, true, Error) && Raised(prev.minLength, next.minLength)
    case MaxLengthDecreased => Graded(f, path, true, Error) && Lowered(prev.maxLength, next.maxLength)
    case MinimumIncreased => Graded(f, path, true, Error) && Raised(prev.minimum, next.minimum)
    case MaximumDecreased => Graded(f, path, true, Error) && Lowered(prev.maximum, next.maximum)
    case MinItemsIncreased => Graded(f, path, true, Error) && Raised(prev.minItems, next.minItems)
    case MaxItemsDecreased => Graded(f, path, true, Error) && Lowered(prev.maxItems, next.maxItems)
    case UniqueItemsBecameStricter =>
      Graded(f, path, true, Error) && prev.uniqueItems == Some(false) && next.uniqueItems == Some(true)
    case _ => false
  }

  /** A key of `prev` that `next` does not declare. */
  predicate TellsOfRemoval(f: Finding, prev: Schema, next: Schema, path: string, profile: Mode) {
    exists i :: 0 <= i < |Props(prev)| && IsRemoval(f, prev, next, Props(prev)[i].key, path, profile)
  }

  predicate IsRemoval(f: Finding, prev: Schema, next: Schema, key: string, path: string, profile: Mode) {
    f.rule.PropertyRemoved? && !HasKey(Props(next), key) &&
    Graded(f, path + "." + key, profile != TolerantReader || key in prev.required, Warning)
  }

  /** A key of `next` that `prev` did not declare; an optional one does not matter to tolerant readers. */
  predicate TellsOfAddition(f: Finding, prev: Schema, next: Schema, path: string, profile: Mode) {
    exists j :: 0 <= j < |Props(next)| && IsAddition(f, prev, next, Props(next)[j].key, path, profile)
  }

  predicate IsAddition(f: Finding, prev: Schema, next: Schema, key: string, path: string, profile: Mode) {
    !HasKey(Props(prev), key) &&
    match f.rule
    case RequiredPropertyAdded => key in next.required && Graded(f, path + "." + key, true, Error)
    case OptionalPropertyAdded =>
      key !in next.required && profile != TolerantReader && Graded(f, path + "." + key, profile == Strict, Info)
    case _ => false
  }

  /** A key that need not be there any more. */
  predicate TellsOfRelaxing(f: Finding, prev: Schema, next: Schema, path: string) {
    exists i :: 0 <= i < |prev.required| && IsRelaxing(f, next, prev.required[i], path)
  }

  predicate IsRelaxing(f: Finding, next: Schema, key: string, path: string) {
    f.rule.RequirednessRelaxed? && key !in next.required && Graded(f, path + "." + key, false, Info)
  }

  /** A declared key that has to be there now. */
  predicate TellsOfTightening(f: Finding, prev: Schema, next: Schema, path: string) {
    exists i :: 0 <= i < |next.required| && IsTightening(f, prev, next.required[i], path)
  }

  predicate IsTightening(f: Finding, prev: Schema, key: string, path: string) {
    f.rule.RequirednessTightened? && key !in prev.required && HasKey(Props(prev), key) &&
    Graded(f, path + "." + key, true, Error)
  }

  predicate TellsOfExtras(f: Finding, prev: Schema, next: Schema, path: string, profile: Mode) {
    match f.rule
    case AdditionalPropertiesRelaxed =>
      prev.extra.Forbidden? && !next.extra.Forbidden? && Graded(f, path, false, Info)
    case AdditionalPropertiesRestricted =>
      next.extra.Forbidden? && !prev.extra.Forbidden? && Graded(f, path, profile != TolerantReader, Warning)
    case _ => false
  }

  /** Two compositions whose members cannot be compared one by one. */
  predicate TellsOfComposition(f: Finding, prev: Schema, next: Schema, path: string, k: Keyword) {
    f.rule == CompositionChanged(k) && Graded(f, path, true, Error) &&
    Children(prev, k).Of? && Children(next, k).Of? && |Children(prev, k).schemas| != |Children(next, k).schemas|
  }

  // ---------------------------------------------------------------- which schemas are compared

  function PropertyOf(s: Schema, i: nat): (f: Field<Schema>)
    requires i < |Props(s)|
    ensures f == Props(s)[i] && f.value < s
  {
    var f := Props(s)[i];
    assert f.value < f;
    f
  }

  /** What `next` has under the key of the `i`-th property of `prev`, if keys do not repeat. */
  predicate IsMatch(prev: Schema, next: Schema, i: nat, j: nat)
    requires i < |Props(prev)| && j < |Props(next)|
  {
    Props(next)[j].key == Props(prev)[i].key && forall m :: 0 <= m < j ==> Props(next)[m].key != Props(prev)[i].key
  }

  /** The finding is about these two schemas, or about parts of them in the same place. */
  ghost predicate Observed(f: Finding, prev: Schema, next: Schema, path: string, profile: Mode)
    decreases prev, 1
  {
    if prev.types.Some? && next.types.Some? && prev.types.value != next.types.value then
      f.rule == TypeChanged && Graded(f, path, true, Error)
    else
      || TellsOfScalars(f, prev, next, path, profile)
      || TellsOfRemoval(f, prev, next, path, profile)
      || ObservedInProperties(f, prev, next, path, profile)
      || TellsOfAddition(f, prev, next, path, profile)
      || TellsOfRelaxing(f, prev, next, path)
      || TellsOfTightening(f, prev, next, path)
      || TellsOfExtras(f, prev, next, path, profile)
      || (prev.items.Some? && next.items.Some? &&
          Observed(f, prev.items.value, next.items.value, path + "[]", profile))
      || TellsOfComposition(f, prev, next, path, AllOf) || ObservedInChoices(f, prev, next, AllOf, path, profile)
      || TellsOfComposition(f, prev, next, path, AnyOf) || ObservedInChoices(f, prev, next, AnyOf, path, profile)
      || TellsOfComposition(f, prev, next, path, OneOf) || ObservedInChoices(f, prev, next, OneOf, path, profile)
  }

  ghost predicate ObservedInProperties(f: Finding, prev: Schema, next: Schema, path: string, profile: Mode)
    decreases prev, 0
  {
    exists i: nat, j: nat :: i < |Props(prev)| && j < |Props(next)| && IsMatch(prev, next, i, j) &&
      Observed(f, PropertyOf(prev, i).value, Props(next)[j].value, path + "." + Props(prev)[i].key, profile)
  }

  ghost predicate ObservedInChoices(f: Finding, prev: Schema, next: Schema, k: Keyword, path: string, profile: Mode)
    decreases prev, 0
  {
    Children(prev, k).Of? && Children(next, k).Of? && |Children(prev, k).schemas| == |Children(next, k).schemas| &&
    exists i: nat :: i < |Children(prev, k).schemas| &&
      Observed(f, Children(prev, k).schemas[i], Children(next, k).schemas[i],
               path + "." + KeywordName(k) + "[" + NumberText(i) + "]", profile)
  }

  // ---------------------------------------------------------------- the report, part by part

  lemma ScalarsReported(f: Finding, prev: Schema, next: Schema, path: string, profile: Mode)
    ensures f in ScalarFindings(prev, next, path, profile) <==> TellsOfScalars(f, prev, next, path, profile)
  {
    EnumsReported(f, prev, next, path, profile);
    InScalars(f, prev, next, path, profile);
    hide LooselySame, EnumFindings, Loses, ScalarFindings;
  }

  lemma InScalars(f: Finding, prev: Schema, next: Schema, path: string, profile: Mode)
    ensures f in ScalarFindings(prev, next, path, profile) <==>
      || f in EnumFindings(prev, next, path, profile)
      || (Changed(prev.pattern, next.pattern) && f == Broken(path, PatternChanged))
      || (Changed(prev.format, next.format) && f == Broken(path, FormatChanged))
      || (LowerBoundRaised(prev.minLength, next.minLength) && f == Broken(path, MinLengthIncreased))
      || (UpperBoundLowered(prev.maxLength, next.maxLength) && f == Broken(path, MaxLengthDecreased))
      || (LowerBoundRaised(prev.minimum, next.minimum) && f == Broken(path, MinimumIncreased))
      || (UpperBoundLowered(prev.maximum, next.maximum) && f == Broken(path, MaximumDecreased))
      || (LowerBoundRaised(prev.minItems, next.minItems) && f == Broken(path, MinItemsIncreased))
      || (UpperBoundLowered(prev.maxItems, next.maxItems) && f == Broken(path, MaxItemsDecreased))
      || (IsFalse(prev.uniqueItems) && IsTrue(next.uniqueItems) && f == Broken(path, UniqueItemsBecameStricter))
  {
    hide EnumFindings, Changed, LowerBoundRaised, UpperBoundLowered, IsFalse, IsTrue, Broken;
    var e := EnumFindings(prev, next, path, profile);
    var a := Flag(Changed(prev.pattern, next.pattern), Broken(path, PatternChanged));
    var b := Flag(Changed(prev.format, next.format), Broken(path, FormatChanged));
    var c := Flag(LowerBoundRaised(prev.minLength, next.minLength), Broken(path, MinLengthIncreased));
    var d := Flag(UpperBoundLowered(prev.maxLength, next.maxLength), Broken(path, MaxLengthDecreased));
    var g := Flag(LowerBoundRaised(prev.minimum, next.minimum), Broken(path, MinimumIncreased));
    var h := Flag(UpperBoundLowered(prev.maximum, next.maximum), Broken(path, MaximumDecreased));
    var k := Flag(LowerBoundRaised(prev.minItems, next.minItems), Broken(path, MinItemsIncreased));
    var l := Flag(UpperBoundLowered(prev.maxItems, next.maxItems), Broken(path, MaxItemsDecreased));
    var u := Flag(IsFalse(prev.uniqueItems) && IsTrue(next.uniqueItems), Broken(path, UniqueItemsBecameStricter));
    assert ScalarFindings(prev, next, path, profile) == e + a + b + c + d + g + h + k + l + u;
    hide ScalarFindings;
    InTen(f, e, a, b, c, d, g, h, k, l, u);
  }

  lemma EnumsReported(f: Finding, prev: Schema, next: Schema, path: string, profile: Mode)
    ensures f in EnumFindings(prev, next, path, profile) <==>
      (f.rule.EnumValueRemoved? || f.rule.EnumValueAdded?) && TellsOfScalars(f, prev, next, path, profile)
  {
    hide LooselySame;
    if prev.enumeration.Some? && next.enumeration.Some? {
      LosesIff(prev.enumeration.value, next.enumeration.value);
      LosesIff(next.enumeration.value, prev.enumeration.value);
    }
    hide HasLooselySame, Loses;
  }

  lemma LosesIff(a: seq<Json>, b: seq<Json>)
    ensures Loses(Some(a), Some(b)) <==> exists i :: 0 <= i < |a| && !HasLooselySame(b, a[i])
  {
    hide LooselySame;
    forall i | 0 <= i < |a| ensures Kept(a[i], b) <==> HasLooselySame(b, a[i]) {}
  }

  lemma {:induction false} AdditionsReported(f: Finding, prev: Schema, next: Schema, path: string, profile: Mode,
                                             n: nat)
    requires n <= |Props(next)|
    ensures f in AllAdded(prev, next, path, profile, n) <==>
      exists j :: 0 <= j < n && IsAddition(f, prev, next, Props(next)[j].key, path, profile)
    decreases n
  {
    if n > 0 {
      AdditionsReported(f, prev, next, path, profile, n - 1);
      OneAdditionReported(f, prev, next, Props(next)[n - 1].key, path, profile);
      hide AddedFindings, IsAddition;
    }
  }

  lemma OneAdditionReported(f: Finding, prev: Schema, next: Schema, key: string, path: string, profile: Mode)
    ensures f in AddedFindings(prev, next, key, path, profile) <==> IsAddition(f, prev, next, key, path, profile)
  {
  }

  lemma {:induction false} RelaxingReported(f: Finding, prev: Schema, next: Schema, path: string, n: nat)
    requires n <= |prev.required|
    ensures f in RelaxedFindings(prev, next, path, n) <==>
      exists i :: 0 <= i < n && IsRelaxing(f, next, prev.required[i], path)
    decreases n
  {
    if n > 0 { RelaxingReported(f, prev, next, path, n - 1); }
  }

  lemma {:induction false} TighteningReported(f: Finding, prev: Schema, next: Schema, path: string, n: nat)
    requires n <= |next.required|
    ensures f in TightenedFindings(prev, next, path, n) <==>
      exists i :: 0 <= i < n && IsTightening(f, prev, next.required[i], path)
    decreases n
  {
    if n > 0 { TighteningReported(f, prev, next, path, n - 1); }
  }

  lemma ExtrasReported(f: Finding, prev: Schema, next: Schema, path: string, profile: Mode)
    ensures f in ExtraFindings(prev, next, path, profile) <==> TellsOfExtras(f, prev, next, path, profile)
  {
  }

  /** The `i`-th property is gone and the finding says so, or it is compared and the finding comes from there. */
  ghost predicate FromProperty(f: Finding, prev: Schema, next: Schema, i: nat, path: string, profile: Mode)
    requires i < |Props(prev)|
  {
    var key := Props(prev)[i].key;
    || IsRemoval(f, prev, next, key, path, profile)
    || (exists j: nat :: j < |Props(next)| && IsMatch(prev, next, i, j) &&
          Observed(f, Props(prev)[i].value, Props(next)[j].value, path + "." + key, profile))
  }

  /** What the checker reports for the `i`-th property. */
  function OneProperty(prev: Schema, next: Schema, path: string, profile: Mode, i: nat): seq<Finding>
    requires i < |Props(prev)|
  {
    var p := Props(prev)[i];
    if HasKey(Props(next), p.key)
    then Findings(p.value, Props(next)[IndexOf(Props(next), p.key)].value, path + "." + p.key, profile)
    else [RemovedFinding(prev, p.key, path, profile)]
  }

  lemma PropertyByProperty(prev: Schema, next: Schema, path: string, profile: Mode, n: nat)
    requires n <= |Props(prev)|
    ensures PropertyFindings(prev, next, path, profile, n) ==
      if n == 0 then [] else
      PropertyFindings(prev, next, path, profile, n - 1) + OneProperty(prev, next, path, profile, n - 1)
  {
    hide Findings, IndexOf, HasKey, RemovedFinding;
  }

  lemma {:induction false} PropertyReported(f: Finding, prev: Schema, next: Schema, path: string, profile: Mode,
                                            i: nat)
    requires i < |Props(prev)|
    ensures f in OneProperty(prev, next, path, profile, i) <==> FromProperty(f, prev, next, i, path, profile)
    decreases prev, 0, 0
  {
    hide Findings, Observed;
    var p := PropertyOf(prev, i);
    if HasKey(Props(next), p.key) {
      var k := IndexOf(Props(next), p.key);
      Reported(f, p.value, Props(next)[k].value, path + "." + p.key, profile);
      assert IsMatch(prev, next, i, k);
      forall j: nat | j < |Props(next)| && IsMatch(prev, next, i, j) ensures j == k {}
    }
  }

  /** One of the first `n` properties of `prev` gives rise to the finding. */
  ghost predicate FromSomeProperty(f: Finding, prev: Schema, next: Schema, path: string, profile: Mode, n: nat)
    requires n <= |Props(prev)|
  {
    exists i: nat :: i < n && FromProperty(f, prev, next, i, path, profile)
  }

  lemma OneMoreProperty(f: Finding, prev: Schema, next: Schema, path: string, profile: Mode, n: nat)
    requires 0 < n <= |Props(prev)|
    ensures FromSomeProperty(f, prev, next, path, profile, n) <==>
      FromSomeProperty(f, prev, next, path, profile, n - 1) || FromProperty(f, prev, next, n - 1, path, profile)
  {
    hide FromProperty, Props;
  }

  lemma {:induction false} PropertiesReported(f: Finding, prev: Schema, next: Schema, path: string, profile: Mode,
                                              n: nat)
    requires n <= |Props(prev)|
    ensures f in PropertyFindings(prev, next, path, profile, n) <==> FromSomeProperty(f, prev, next, path, profile, n)
    decreases prev, 1, n
  {
    hide FromProperty, Props, PropertyFindings, OneProperty;
    PropertyByProperty(prev, next, path, profile, n);
    if n > 0 {
      hide FromSomeProperty;
      PropertiesReported(f, prev, next, path, profile, n - 1);
      PropertyReported(f, prev, next, path, profile, n - 1);
      OneMoreProperty(f, prev, next, path, profile, n);
    }
  }

  lemma {:induction false} PairsReported(f: Finding, prev: Schema, before: seq<Schema>, after: seq<Schema>,
                                         k: Keyword, path: string, profile: Mode, n: nat)
    requires n <= |before| == |after| && forall i :: 0 <= i < |before| ==> before[i] < prev
    ensures f in PairwiseFindings(prev, before, after, k, path, profile, n) <==>
      exists i: nat :: i < n && Observed(f, before[i], after[i],
                                         path + "." + KeywordName(k) + "[" + NumberText(i) + "]", profile)
    decreases prev, 0, n
  {
    hide Findings, Observed, NumberText, KeywordName;
    if n > 0 {
      PairsReported(f, prev, before, after, k, path, profile, n - 1);
      Reported(f, before[n - 1], after[n - 1], ChildPath(path, k, n - 1), profile);
    }
  }

  lemma {:induction false} ChoiceReported(f: Finding, prev: Schema, next: Schema, k: Keyword, path: string,
                                          profile: Mode)
    ensures f in ChoiceFindings(prev, next, k, path, profile) <==>
      TellsOfComposition(f, prev, next, path, k) || ObservedInChoices(f, prev, next, k, path, profile)
    decreases prev, 1, 0
  {
    hide Findings, Observed, NumberText, KeywordName;
    var before, after := Children(prev, k), Children(next, k);
    if before.Of? && after.Of? && |before.schemas| == |after.schemas| {
      PairsReported(f, prev, before.schemas, after.schemas, k, path, profile, |before.schemas|);
    }
  }

  lemma InReport(f: Finding, prev: Schema, next: Schema, path: string, profile: Mode)
    requires !Changed(prev.types, next.types)
    ensures f in Findings(prev, next, path, profile) <==>
      || f in ScalarFindings(prev, next, path, profile)
      || f in PropertyFindings(prev, next, path, profile, |Props(prev)|)
      || f in AllAdded(prev, next, path, profile, |Props(next)|)
      || f in RelaxedFindings(prev, next, path, |prev.required|)
      || f in TightenedFindings(prev, next, path, |next.required|)
      || f in ExtraFindings(prev, next, path, profile)
      || f in ItemFindings(prev, next, path, profile)
      || f in ChoiceFindings(prev, next, AllOf, path, profile)
      || f in ChoiceFindings(prev, next, AnyOf, path, profile)
      || f in ChoiceFindings(prev, next, OneOf, path, profile)
  {
    hide ScalarFindings, PropertyFindings, AllAdded, RelaxedFindings, TightenedFindings, ExtraFindings, ChoiceFindings,
      Changed, Props;
    var a, b, c := ScalarFindings(prev, next, path, profile),
      PropertyFindings(prev, next, path, profile, |Props(prev)|), AllAdded(prev, next, path, profile, |Props(next)|);
    var d, e, g := RelaxedFindings(prev, next, path, |prev.required|),
      TightenedFindings(prev, next, path, |next.required|), ExtraFindings(prev, next, path, profile);
    var h, k, l, m := ItemFindings(prev, next, path, profile), ChoiceFindings(prev, next, AllOf, path, profile),
      ChoiceFindings(prev, next, AnyOf, path, profile), ChoiceFindings(prev, next, OneOf, path, profile);
    assert Findings(prev, next, path, profile) == a + b + c + d + e + g + h + k + l + m;
    hide Findings, ItemFindings;
    InTen(f, a, b, c, d, e, g, h, k, l, m);
  }

  function ItemFindings(prev: Schema, next: Schema, path: string, profile: Mode): seq<Finding> {
    if prev.items.Some? && next.items.Some?
    then Findings(prev.items.value, next.items.value, path + "[]", profile) else []
  }

  /** The report is exact: it holds the findings that are true of what is compared, and no others. */
  lemma {:induction false} Reported(f: Finding, prev: Schema, next: Schema, path: string, profile: Mode)
    ensures f in Findings(prev, next, path, profile) <==> Observed(f, prev, next, path, profile)
    decreases prev, 3
  {
    if Changed(prev.types, next.types) {
    } else {
      InReport(f, prev, next, path, profile);
      ObservedInParts(f, prev, next, path, profile);
      hide Findings, Observed, TellsOfScalars, TellsOfRemoval, ObservedInProperties, IsAddition,
        IsRelaxing, IsTightening, TellsOfExtras, TellsOfComposition, ObservedInChoices, FromSomeProperty,
        ScalarFindings, PropertyFindings, AllAdded, RelaxedFindings, TightenedFindings, ExtraFindings, ChoiceFindings;
      ScalarsReported(f, prev, next, path, profile);
      PropertiesReported(f, prev, next, path, profile, |Props(prev)|);
      FromAnyProperty(f, prev, next, path, profile);
      AdditionsReported(f, prev, next, path, profile, |Props(next)|);
      RelaxingReported(f, prev, next, path, |prev.required|);
      TighteningReported(f, prev, next, path, |next.required|);
      ExtrasReported(f, prev, next, path, profile);
      ItemsReported(f, prev, next, path, profile);
      ChoiceReported(f, prev, next, AllOf, path, profile);
      ChoiceReported(f, prev, next, AnyOf, path, profile);
      ChoiceReported(f, prev, next, OneOf, path, profile);
      hide ItemFindings, ObservedInItems;
    }
  }

  ghost predicate ObservedInItems(f: Finding, prev: Schema, next: Schema, path: string, profile: Mode) {
    prev.items.Some? && next.items.Some? && Observed(f, prev.items.value, next.items.value, path + "[]", profile)
  }

  lemma {:induction false} ItemsReported(f: Finding, prev: Schema, next: Schema, path: string, profile: Mode)
    ensures f in ItemFindings(prev, next, path, profile) <==> ObservedInItems(f, prev, next, path, profile)
    decreases prev, 2
  {
    hide Findings, Observed;
    if prev.items.Some? && next.items.Some? {
      Reported(f, prev.items.value, next.items.value, path + "[]", profile);
    }
  }

  lemma FromAnyProperty(f: Finding, prev: Schema, next: Schema, path: string, profile: Mode)
    ensures FromSomeProperty(f, prev, next, path, profile, |Props(prev)|) <==>
      TellsOfRemoval(f, prev, next, path, profile) || ObservedInProperties(f, prev, next, path, profile)
  {
    hide Observed, IsRemoval, Props, IsMatch;
    if TellsOfRemoval(f, prev, next, path, profile) {
      var i: nat :| i < |Props(prev)| && IsRemoval(f, prev, next, Props(prev)[i].key, path, profile);
      assert FromProperty(f, prev, next, i, path, profile);
    }
    if ObservedInProperties(f, prev, next, path, profile) {
      var i: nat, j: nat :| i < |Props(prev)| && j < |Props(next)| && IsMatch(prev, next, i, j) &&
        Observed(f, PropertyOf(prev, i).value, Props(next)[j].value, path + "." + Props(prev)[i].key, profile);
      assert FromProperty(f, prev, next, i, path, profile);
    }
  }

  lemma ObservedInParts(f: Finding, prev: Schema, next: Schema, path: string, profile: Mode)
    requires !Changed(prev.types, next.types)
    ensures Observed(f, prev, next, path, profile) <==>
      || TellsOfScalars(f, prev, next, path, profile)
      || TellsOfRemoval(f, prev, next, path, profile)
      || ObservedInProperties(f, prev, next, path, profile)
      || TellsOfAddition(f, prev, next, path, profile)
      || TellsOfRelaxing(f, prev, next, path)
      || TellsOfTightening(f, prev, next, path)
      || TellsOfExtras(f, prev, next, path, profile)
      || ObservedInItems(f, prev, next, path, profile)
      || TellsOfComposition(f, prev, next, path, AllOf) || ObservedInChoices(f, prev, next, AllOf, path, profile)
      || TellsOfComposition(f, prev, next, path, AnyOf) || ObservedInChoices(f, prev, next, AnyOf, path, profile)
      || TellsOfComposition(f, prev, next, path, OneOf) || ObservedInChoices(f, prev, next, OneOf, path, profile)
  {
    hide TellsOfScalars, TellsOfRemoval, ObservedInProperties, TellsOfAddition, TellsOfRelaxing, TellsOfTightening,
      TellsOfExtras, TellsOfComposition, ObservedInChoices;
  }

  // ---------------------------------------------------------------- no change, no finding

  /** No object of the schemas the checker looks into has a key twice. */
  ghost predicate KeysOnce(s: Schema) {
    && DistinctKeys(Props(s))
    && (s.properties.Named? ==> forall i :: 0 <= i < |s.properties.fields| ==> KeysOnce(s.properties.fields[i].value))
    && (s.items.Some? ==> KeysOnce(s.items.value))
    && (s.allOf.Of? ==> forall i :: 0 <= i < |s.allOf.schemas| ==> KeysOnce(s.allOf.schemas[i]))
    && (s.anyOf.Of? ==> forall i :: 0 <= i < |s.anyOf.schemas| ==> KeysOnce(s.anyOf.schemas[i]))
    && (s.oneOf.Of? ==> forall i :: 0 <= i < |s.oneOf.schemas| ==> KeysOnce(s.oneOf.schemas[i]))
  }

  /** A schema compared with itself gives an empty report, in every place and under every profile. */
  lemma UnchangedIsSilent(s: Schema, path: string, profile: Mode)
    requires KeysOnce(s)
    ensures Findings(s, s, path, profile) == []
  {
    hide Findings, Observed;
    var fs := Findings(s, s, path, profile);
    if fs != [] {
      Reported(fs[0], s, s, path, profile);
      NothingToObserve(fs[0], s, path, profile);
    }
  }

  lemma {:induction false} NothingToObserve(f: Finding, s: Schema, path: string, profile: Mode)
    requires KeysOnce(s)
    ensures !Observed(f, s, s, path, profile)
    decreases s
  {
    ObservedInParts(f, s, s, path, profile);
    hide Observed;
    NothingHere(f, s, path, profile);
    if ObservedInProperties(f, s, s, path, profile) {
      var i: nat, j: nat :| i < |Props(s)| && j < |Props(s)| && IsMatch(s, s, i, j) &&
        Observed(f, PropertyOf(s, i).value, Props(s)[j].value, path + "." + Props(s)[i].key, profile);
      assert i == j && KeysOnce(PropertyOf(s, i).value);
      NothingToObserve(f, PropertyOf(s, i).value, path + "." + Props(s)[i].key, profile);
    }
    if s.items.Some? { NothingToObserve(f, s.items.value, path + "[]", profile); }
    NothingInChoices(f, s, AllOf, path, profile);
    NothingInChoices(f, s, AnyOf, path, profile);
    NothingInChoices(f, s, OneOf, path, profile);
  }

  lemma {:induction false} NothingInChoices(f: Finding, s: Schema, k: Keyword, path: string, profile: Mode)
    requires KeysOnce(s)
    ensures !ObservedInChoices(f, s, s, k, path, profile) && !TellsOfComposition(f, s, s, path, k)
    decreases s, 0
  {
    hide Observed;
    if ObservedInChoices(f, s, s, k, path, profile) {
      var c := Children(s, k);
      var i: nat :| i < |c.schemas| &&
        Observed(f, c.schemas[i], c.schemas[i], path + "." + KeywordName(k) + "[" + NumberText(i) + "]", profile);
      assert KeysOnce(c.schemas[i]);
      NothingToObserve(f, c.schemas[i], path + "." + KeywordName(k) + "[" + NumberText(i) + "]", profile);
    }
  }

  lemma NothingHere(f: Finding, s: Schema, path: string, profile: Mode)
    ensures !TellsOfScalars(f, s, s, path, profile) && !TellsOfRemoval(f, s, s, path, profile)
    ensures !TellsOfAddition(f, s, s, path, profile) && !TellsOfRelaxing(f, s, s, path)
    ensures !TellsOfTightening(f, s, s, path) && !TellsOfExtras(f, s, s, path, profile)
  {
    assert !Loses(s.enumeration, s.enumeration);
    hide Loses;
  }

  // ---------------------------------------------------------------- what breaks nothing

  /** A text that both schemas give is the same. */
  predicate Agree<T(==)>(a: Option<T>, b: Option<T>) { a.Some? && b.Some? ==> a.value == b.value }

  /** The lower bound stays, goes down or is dropped. */
  predicate NotRaised(a: Option<int>, b: Option<int>) { b == None || (a.Some? && b.value <= a.value) }

  /** The upper bound stays, goes up or is dropped. */
  predicate NotLowered(a: Option<int>, b: Option<int>) { b == None || (a.Some? && b.value >= a.value) }

  predicate EnumsRelax(prev: Schema, next: Schema, profile: Mode) {
    prev.enumeration.Some? && next.enumeration.Some? ==>
      var before, after := prev.enumeration.value, next.enumeration.value;
      && (forall i :: 0 <= i < |before| ==> Kept(before[i], after))
      && (profile == Strict ==> forall j :: 0 <= j < |after| ==> Kept(after[j], before))
  }

  /**
   * Declared properties stay, unless readers are tolerant and the property is optional; new ones are
   * optional, and there are none under the strict profile; nothing declared becomes required.
   */
  predicate KeysRelax(prev: Schema, next: Schema, profile: Mode) {
    && (forall i :: 0 <= i < |Props(prev)| ==>
          HasKey(Props(next), Props(prev)[i].key) ||
            (profile == TolerantReader && Props(prev)[i].key !in prev.required))
    && (forall j :: 0 <= j < |Props(next)| && !HasKey(Props(prev), Props(next)[j].key) ==>
          profile != Strict && Props(next)[j].key !in next.required)
    && (forall r :: r in next.required && HasKey(Props(prev), r) ==> r in prev.required)
  }

  /** The keywords of the two schemas themselves. */
  predicate RelaxesHere(prev: Schema, next: Schema, profile: Mode) {
    && Agree(prev.types, next.types) && Agree(prev.pattern, next.pattern) && Agree(prev.format, next.format)
    && NotRaised(prev.minLength, next.minLength) && NotLowered(prev.maxLength, next.maxLength)
    && NotRaised(prev.minimum, next.minimum) && NotLowered(prev.maximum, next.maximum)
    && NotRaised(prev.minItems, next.minItems) && NotLowered(prev.maxItems, next.maxItems)
    && !(prev.uniqueItems == Some(false) && next.uniqueItems == Some(true))
    && (next.extra == Forbidden ==> prev.extra == Forbidden || profile == TolerantReader)
    && (prev.allOf.Of? && next.allOf.Of? ==> |prev.allOf.schemas| == |next.allOf.schemas|)
    && (prev.anyOf.Of? && next.anyOf.Of? ==> |prev.anyOf.schemas| == |next.anyOf.schemas|)
    && (prev.oneOf.Of? && next.oneOf.Of? ==> |prev.oneOf.schemas| == |next.oneOf.schemas|)
    && EnumsRelax(prev, next, profile) && KeysRelax(prev, next, profile)
  }

  /** The change only relaxes, here and in every part that both schemas have. */
  ghost predicate Relaxes(prev: Schema, next: Schema, profile: Mode)
    decreases prev, 1
  {
    && RelaxesHere(prev, next, profile)
    && (forall i: nat, j: nat :: i < |Props(prev)| && j < |Props(next)| && IsMatch(prev, next, i, j) ==>
          Relaxes(PropertyOf(prev, i).value, Props(next)[j].value, profile))
    && (prev.items.Some? && next.items.Some? ==> Relaxes(prev.items.value, next.items.value, profile))
    && AllRelax(prev, next, AllOf, profile) && AllRelax(prev, next, AnyOf, profile)
    && AllRelax(prev, next, OneOf, profile)
  }

  ghost predicate AllRelax(prev: Schema, next: Schema, k: Keyword, profile: Mode)
    decreases prev, 0
  {
    Children(prev, k).Of? && Children(next, k).Of? ==>
      forall i :: 0 <= i < |Children(prev, k).schemas| && i < |Children(next, k).schemas| ==>
        Relaxes(Children(prev, k).schemas[i], Children(next, k).schemas[i], profile)
  }

  /** The report holds nothing breaking if and only if the change only relaxes. */
  lemma BreaksNothingIffRelaxes(prev: Schema, next: Schema, path: string, profile: Mode)
    ensures NoBreaking(Findings(prev, next, path, profile)) <==> Relaxes(prev, next, profile)
  {
    hide Findings, Observed, Relaxes;
    var fs := Findings(prev, next, path, profile);
    if Relaxes(prev, next, profile) {
      forall i | 0 <= i < |fs| ensures !fs[i].breaking {
        Reported(fs[i], prev, next, path, profile);
        RelaxingIsHarmless(fs[i], prev, next, path, profile);
      }
    }
    if NoBreaking(fs) {
      forall f: Finding | Observed(f, prev, next, path, profile) ensures !f.breaking {
        Reported(f, prev, next, path, profile);
      }
      HarmlessRelaxes(prev, next, path, profile);
    }
  }

  lemma {:induction false} RelaxingIsHarmless(f: Finding, prev: Schema, next: Schema, path: string, profile: Mode)
    requires Relaxes(prev, next, profile) && Observed(f, prev, next, path, profile)
    ensures !f.breaking
    decreases prev, 1
  {
    ObservedInParts(f, prev, next, path, profile);
    HarmlessHere(f, prev, next, path, profile);
    hide Observed, RelaxesHere, ObservedInProperties;
    if ObservedInItems(f, prev, next, path, profile) {
      RelaxingIsHarmless(f, prev.items.value, next.items.value, path + "[]", profile);
    } else {
      hide ObservedInItems;
      HarmlessInProperties(f, prev, next, path, profile);
      HarmlessInChoices(f, prev, next, AllOf, path, profile);
      HarmlessInChoices(f, prev, next, AnyOf, path, profile);
      HarmlessInChoices(f, prev, next, OneOf, path, profile);
    }
  }

  lemma {:induction false} HarmlessInProperties(f: Finding, prev: Schema, next: Schema, path: string, profile: Mode)
    requires Relaxes(prev, next, profile)
    ensures ObservedInProperties(f, prev, next, path, profile) ==> !f.breaking
    decreases prev, 0
  {
    hide Observed, RelaxesHere;
    if ObservedInProperties(f, prev, next, path, profile) {
      var i: nat, j: nat :| i < |Props(prev)| && j < |Props(next)| && IsMatch(prev, next, i, j) &&
        Observed(f, PropertyOf(prev, i).value, Props(next)[j].value, path + "." + Props(prev)[i].key, profile);
      RelaxingIsHarmless(f, PropertyOf(prev, i).value, Props(next)[j].value, path + "." + Props(prev)[i].key, profile);
    }
  }

  lemma {:induction false} HarmlessInChoices(f: Finding, prev: Schema, next: Schema, k: Keyword, path: string,
                                             profile: Mode)
    requires AllRelax(prev, next, k, profile)
    ensures ObservedInChoices(f, prev, next, k, path, profile) ==> !f.breaking
    decreases prev, 0
  {
    hide Observed, Relaxes;
    if ObservedInChoices(f, prev, next, k, path, profile) {
      var a, b := Children(prev, k).schemas, Children(next, k).schemas;
      var i: nat :| i < |a| &&
        Observed(f, a[i], b[i], path + "." + KeywordName(k) + "[" + NumberText(i) + "]", profile);
      RelaxingIsHarmless(f, a[i], b[i], path + "." + KeywordName(k) + "[" + NumberText(i) + "]", profile);
    }
  }

  lemma HarmlessHere(f: Finding, prev: Schema, next: Schema, path: string, profile: Mode)
    requires RelaxesHere(prev, next, profile)
    ensures !f.breaking || !(
      || TellsOfScalars(f, prev, next, path, profile) || TellsOfRemoval(f, prev, next, path, profile)
      || TellsOfAddition(f, prev, next, path, profile) || TellsOfRelaxing(f, prev, next, path)
      || TellsOfTightening(f, prev, next, path) || TellsOfExtras(f, prev, next, path, profile)
      || TellsOfComposition(f, prev, next, path, AllOf) || TellsOfComposition(f, prev, next, path, AnyOf)
      || TellsOfComposition(f, prev, next, path, OneOf))
  {
    assert Loses(prev.enumeration, next.enumeration) ==> !EnumsRelax(prev, next, profile);
    assert Loses(next.enumeration, prev.enumeration) && profile == Strict ==> !EnumsRelax(prev, next, profile);
    hide Loses, EnumsRelax, LooselySame;
  }

  /** Only harmless findings are made of the two schemas at this path. */
  ghost predicate Harmless(prev: Schema, next: Schema, path: string, profile: Mode) {
    forall f: Finding :: Observed(f, prev, next, path, profile) ==> !f.breaking
  }

  /** Whatever is true of the two schemas themselves does not break. */
  lemma NothingBreaks(f: Finding, prev: Schema, next: Schema, path: string, profile: Mode)
    requires Harmless(prev, next, path, profile) && Agree(prev.types, next.types) && f.breaking
    ensures !TellsOfScalars(f, prev, next, path, profile) && !TellsOfRemoval(f, prev, next, path, profile)
    ensures !TellsOfAddition(f, prev, next, path, profile) && !TellsOfTightening(f, prev, next, path)
    ensures !TellsOfExtras(f, prev, next, path, profile) && !ObservedInProperties(f, prev, next, path, profile)
    ensures !ObservedInItems(f, prev, next, path, profile)
    ensures forall k ::
      !TellsOfComposition(f, prev, next, path, k) && !ObservedInChoices(f, prev, next, k, path, profile)
  {
    ObservedInParts(f, prev, next, path, profile);
    assert !Observed(f, prev, next, path, profile);
    hide Observed, TellsOfScalars, TellsOfRemoval, TellsOfAddition, TellsOfTightening, TellsOfExtras,
      ObservedInProperties, ObservedInItems, TellsOfComposition, ObservedInChoices;
    forall k
      ensures !TellsOfComposition(f, prev, next, path, k) && !ObservedInChoices(f, prev, next, k, path, profile)
    {
      match k case AllOf => case AnyOf => case OneOf =>
    }
  }

  lemma TypesAgree(prev: Schema, next: Schema, path: string, profile: Mode)
    requires Harmless(prev, next, path, profile)
    ensures Agree(prev.types, next.types)
  {
    if !Agree(prev.types, next.types) {
      var f := Finding(path, TypeChanged, true, Error);
      assert Observed(f, prev, next, path, profile);
      assert false;
    }
  }

  lemma BoundsRelax(prev: Schema, next: Schema, path: string, profile: Mode)
    requires Harmless(prev, next, path, profile) && Agree(prev.types, next.types)
    ensures NotRaised(prev.minLength, next.minLength) && NotLowered(prev.maxLength, next.maxLength)
    ensures NotRaised(prev.minimum, next.minimum) && NotLowered(prev.maximum, next.maximum)
    ensures NotRaised(prev.minItems, next.minItems) && NotLowered(prev.maxItems, next.maxItems)
  {
    NothingBreaks(Finding(path, MinLengthIncreased, true, Error), prev, next, path, profile);
    NothingBreaks(Finding(path, MaxLengthDecreased, true, Error), prev, next, path, profile);
    NothingBreaks(Finding(path, MinimumIncreased, true, Error), prev, next, path, profile);
    NothingBreaks(Finding(path, MaximumDecreased, true, Error), prev, next, path, profile);
    NothingBreaks(Finding(path, MinItemsIncreased, true, Error), prev, next, path, profile);
    NothingBreaks(Finding(path, MaxItemsDecreased, true, Error), prev, next, path, profile);
    hide Harmless, TellsOfRemoval, TellsOfAddition, TellsOfTightening, TellsOfExtras, ObservedInProperties,
      ObservedInItems, TellsOfComposition, ObservedInChoices;
  }

  lemma TextsRelax(prev: Schema, next: Schema, path: string, profile: Mode)
    requires Harmless(prev, next, path, profile) && Agree(prev.types, next.types)
    ensures Agree(prev.pattern, next.pattern) && Agree(prev.format, next.format)
    ensures !(prev.uniqueItems == Some(false) && next.uniqueItems == Some(true))
    ensures next.extra == Forbidden ==> prev.extra == Forbidden || profile == TolerantReader
    ensures EnumsRelax(prev, next, profile)
  {
    NothingBreaks(Finding(path, PatternChanged, true, Error), prev, next, path, profile);
    NothingBreaks(Finding(path, FormatChanged, true, Error), prev, next, path, profile);
    NothingBreaks(Finding(path, UniqueItemsBecameStricter, true, Error), prev, next, path, profile);
    NothingBreaks(Finding(path, AdditionalPropertiesRestricted, true, Error), prev, next, path, profile);
    NothingBreaks(Finding(path, EnumValueRemoved, true, Error), prev, next, path, profile);
    NothingBreaks(Finding(path, EnumValueAdded, true, Error), prev, next, path, profile);
    hide Harmless, TellsOfRemoval, TellsOfAddition, TellsOfTightening, ObservedInProperties,
      ObservedInItems, TellsOfComposition, ObservedInChoices, LooselySame;
    assert !Loses(prev.enumeration, next.enumeration);
    assert profile == Strict ==> !Loses(next.enumeration, prev.enumeration);
    hide TellsOfScalars, TellsOfExtras, Kept;
  }

  lemma KeysRelaxed(prev: Schema, next: Schema, path: string, profile: Mode)
    requires Harmless(prev, next, path, profile) && Agree(prev.types, next.types)
    ensures KeysRelax(prev, next, profile)
  {
    forall i | 0 <= i < |Props(prev)|
      ensures HasKey(Props(next), Props(prev)[i].key) ||
        (profile == TolerantReader && Props(prev)[i].key !in prev.required)
    {
      var f := Finding(path + "." + Props(prev)[i].key, PropertyRemoved, true, Error);
      NothingBreaks(f, prev, next, path, profile);
      assert !IsRemoval(f, prev, next, Props(prev)[i].key, path, profile);
    }
    forall j | 0 <= j < |Props(next)| && !HasKey(Props(prev), Props(next)[j].key)
      ensures profile != Strict && Props(next)[j].key !in next.required
    {
      var key := Props(next)[j].key;
      var f, g := Finding(path + "." + key, RequiredPropertyAdded, true, Error),
        Finding(path + "." + key, OptionalPropertyAdded, true, Error);
      NothingBreaks(f, prev, next, path, profile);
      NothingBreaks(g, prev, next, path, profile);
      assert !IsAddition(f, prev, next, key, path, profile) && !IsAddition(g, prev, next, key, path, profile);
    }
    forall r | r in next.required && HasKey(Props(prev), r) ensures r in prev.required {
      var i :| 0 <= i < |next.required| && next.required[i] == r;
      var f := Finding(path + "." + r, RequirednessTightened, true, Error);
      NothingBreaks(f, prev, next, path, profile);
      assert !IsTightening(f, prev, next.required[i], path);
    }
  }

  lemma LengthsAgree(prev: Schema, next: Schema, k: Keyword, path: string, profile: Mode)
    requires Harmless(prev, next, path, profile) && Agree(prev.types, next.types)
    requires Children(prev, k).Of? && Children(next, k).Of?
    ensures |Children(prev, k).schemas| == |Children(next, k).schemas|
  {
    var f := Finding(path, CompositionChanged(k), true, Error);
    NothingBreaks(f, prev, next, path, profile);
    assert !TellsOfComposition(f, prev, next, path, k);
  }

  lemma HarmlessProperty(prev: Schema, next: Schema, path: string, profile: Mode, i: nat, j: nat)
    requires Harmless(prev, next, path, profile) && Agree(prev.types, next.types)
    requires i < |Props(prev)| && j < |Props(next)| && IsMatch(prev, next, i, j)
    ensures Harmless(PropertyOf(prev, i).value, Props(next)[j].value, path + "." + Props(prev)[i].key, profile)
  {
    hide Observed;
    var a, b, below := PropertyOf(prev, i).value, Props(next)[j].value, path + "." + Props(prev)[i].key;
    forall f: Finding | Observed(f, a, b, below, profile) ensures !f.breaking {
      assert ObservedInProperties(f, prev, next, path, profile);
      if f.breaking { NothingBreaks(f, prev, next, path, profile); }
    }
  }

  lemma HarmlessItems(prev: Schema, next: Schema, path: string, profile: Mode)
    requires Harmless(prev, next, path, profile) && Agree(prev.types, next.types)
    requires prev.items.Some? && next.items.Some?
    ensures Harmless(prev.items.value, next.items.value, path + "[]", profile)
  {
    hide Observed;
    forall f: Finding | Observed(f, prev.items.value, next.items.value, path + "[]", profile) ensures !f.breaking {
      assert ObservedInItems(f, prev, next, path, profile);
      if f.breaking { NothingBreaks(f, prev, next, path, profile); }
    }
  }

  lemma HarmlessChild(prev: Schema, next: Schema, k: Keyword, path: string, profile: Mode, i: nat)
    requires Harmless(prev, next, path, profile) && Agree(prev.types, next.types)
    requires Children(prev, k).Of? && Children(next, k).Of?
    requires i < |Children(prev, k).schemas| == |Children(next, k).schemas|
    ensures Harmless(Children(prev, k).schemas[i], Children(next, k).schemas[i],
                     path + "." + KeywordName(k) + "[" + NumberText(i) + "]", profile)
  {
    hide Observed, NumberText, KeywordName;
    var a, b := Children(prev, k).schemas[i], Children(next, k).schemas[i];
    var below := path + "." + KeywordName(k) + "[" + NumberText(i) + "]";
    forall f: Finding | Observed(f, a, b, below, profile) ensures !f.breaking {
      assert ObservedInChoices(f, prev, next, k, path, profile);
      if f.breaking { NothingBreaks(f, prev, next, path, profile); }
    }
  }

  lemma {:induction false} ChoicesRelax(prev: Schema, next: Schema, k: Keyword, path: string, profile: Mode)
    requires Harmless(prev, next, path, profile) && Agree(prev.types, next.types)
    ensures AllRelax(prev, next, k, profile)
    ensures Children(prev, k).Of? && Children(next, k).Of? ==>
      |Children(prev, k).schemas| == |Children(next, k).schemas|
    decreases prev, 0
  {
    hide Harmless, Relaxes;
    if Children(prev, k).Of? && Children(next, k).Of? {
      LengthsAgree(prev, next, k, path, profile);
      var a, b := Children(prev, k).schemas, Children(next, k).schemas;
      forall i: nat | i < |a| ensures Relaxes(a[i], b[i], profile) {
        HarmlessChild(prev, next, k, path, profile, i);
        HarmlessRelaxes(a[i], b[i], path + "." + KeywordName(k) + "[" + NumberText(i) + "]", profile);
      }
    }
  }

  lemma {:induction false} HarmlessRelaxes(prev: Schema, next: Schema, path: string, profile: Mode)
    requires Harmless(prev, next, path, profile)
    ensures Relaxes(prev, next, profile)
    decreases prev, 1
  {
    TypesAgree(prev, next, path, profile);
    BoundsRelax(prev, next, path, profile);
    TextsRelax(prev, next, path, profile);
    KeysRelaxed(prev, next, path, profile);
    hide Harmless, Observed, KeysRelax, EnumsRelax;
    forall i: nat, j: nat | i < |Props(prev)| && j < |Props(next)| && IsMatch(prev, next, i, j)
      ensures Relaxes(PropertyOf(prev, i).value, Props(next)[j].value, profile)
    {
      HarmlessProperty(prev, next, path, profile, i, j);
      HarmlessRelaxes(PropertyOf(prev, i).value, Props(next)[j].value, path + "." + Props(prev)[i].key, profile);
    }
    if prev.items.Some? && next.items.Some? {
      HarmlessItems(prev, next, path, profile);
      HarmlessRelaxes(prev.items.value, next.items.value, path + "[]", profile);
    }
    ChoicesRelax(prev, next, AllOf, path, profile);
    ChoicesRelax(prev, next, AnyOf, path, profile);
    ChoicesRelax(prev, next, OneOf, path, profile);
  }
}
