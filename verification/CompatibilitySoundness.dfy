/**
 * When the checker reports nothing breaking, whatever was valid stays valid: the checker is sound
 * for the validator it ships with, on the changes it looks at.
 */
module CompatibilitySoundness {
  import opened Wrappers
  import opened Json
  import opened Schema
  import opened Compatibility

  predicate NoBreaking(fs: seq<Finding>) { forall i :: 0 <= i < |fs| ==> !fs[i].breaking }

  // ---------------------------------------------------------------- the changes the checker looks at

  /** The checker's own equality sees all of this value. */
  predicate Lossless(v: Json) { Project(v, KeysOf(v)) == v }

  predicate AllLossless(values: seq<Json>) { forall v :: v in values ==> Lossless(v) }

  predicate SameCondition(prev: Schema, next: Schema) {
    next.condition == prev.condition && next.consequent == prev.consequent && next.alternative == prev.alternative
  }

  /** Keywords that `next` has must be keywords the checker compares. */
  predicate KeywordsCovered(prev: Schema, next: Schema) {
    && (next.types.Some? ==> prev.types.Some?)
    && (next.enumeration.Some? ==>
          prev.enumeration.Some? && AllLossless(prev.enumeration.value + next.enumeration.value))
    && (next.pattern.Some? ==> prev.pattern.Some?)
    && (next.format.Some? ==> prev.format.Some?)
    && (IsTrue(next.uniqueItems) ==> prev.uniqueItems.Some?)
    && (next.constant.Some? ==> next.constant == prev.constant)
    && (next.items.Some? ==> prev.items.Some?)
    && (next.allOf.Of? ==> prev.allOf.Of?)
    && (next.anyOf.Of? ==> prev.anyOf.Of?)
    && (next.oneOf.Of? ==> prev.oneOf.Of?)
    && (next.condition.Some? ==> SameCondition(prev, next))
    && next.patternProperties == prev.patternProperties
  }

  /** Under `s`, no valid object has the undeclared key. */
  predicate ClosedTo(s: Schema, key: string, env: Env) {
    s.extra.Forbidden? && env.mode != TolerantReader && !MatchesAnyPattern(key, s.patternProperties, env)
  }

  predicate ObjectCovered(prev: Schema, next: Schema, profile: Mode, env: Env) {
    && (forall r :: r in next.required ==> r in prev.required || HasKey(Props(prev), r) || HasKey(Props(next), r))
    && (profile != Strict ==> forall j :: 0 <= j < |Props(next)| && !HasKey(Props(prev), Props(next)[j].key) ==>
          ClosedTo(prev, Props(next)[j].key, env))
    && (next.extra.Governed? ==> next.extra == prev.extra || (prev.extra.Forbidden? && env.mode != TolerantReader))
    && (profile == TolerantReader ==> env.mode == TolerantReader)
    && (profile == TolerantReader && next.extra.Governed? ==>
          forall i :: 0 <= i < |Props(prev)| ==> HasKey(Props(next), Props(prev)[i].key))
  }

  /** How many schemas there are in the parts of a schema that the checker looks into, itself included. */
  function Size(s: Schema): nat {
    1 + TableSize(s.properties) + ItemsSize(s.items) + ChoiceSize(s.allOf) + ChoiceSize(s.anyOf) + ChoiceSize(s.oneOf)
  }

  function ItemsSize(s: Option<Schema>): (n: nat)
    ensures s.Some? ==> Size(s.value) <= n
  {
    if s.Some? then Size(s.value) else 0
  }

  function TableSize(t: Table): (n: nat)
    ensures t.Named? ==> forall i :: 0 <= i < |t.fields| ==> Size(t.fields[i].value) <= n
  {
    if t.Named? then FieldsSize(t.fields) else 0
  }

  function FieldsSize(fields: seq<Field<Schema>>): (n: nat)
    ensures forall i :: 0 <= i < |fields| ==> Size(fields[i].value) <= n
  {
    if fields == [] then 0 else
      assert fields[0].value < fields[0];
      Size(fields[0].value) + FieldsSize(fields[1..])
  }

  function ChoiceSize(c: Choice): (n: nat)
    ensures c.Of? ==> forall i :: 0 <= i < |c.schemas| ==> Size(c.schemas[i]) <= n
  {
    if c.Of? then ListSize(c.schemas) else 0
  }

  function ListSize(schemas: seq<Schema>): (n: nat)
    ensures forall i :: 0 <= i < |schemas| ==> Size(schemas[i]) <= n
  {
    if schemas == [] then 0 else Size(schemas[0]) + ListSize(schemas[1..])
  }

  /** The whole change stays within what the checker compares, or there is none. */
  ghost predicate Covered(prev: Schema, next: Schema, profile: Mode, env: Env)
    decreases Size(prev) + Size(next), 2
  {
    prev == next || (prev.ref.Some? && next.ref == prev.ref) || Compared(prev, next, profile, env)
  }

  /** The checker sees this change; keys of one object are distinct. */
  ghost predicate Compared(prev: Schema, next: Schema, profile: Mode, env: Env)
    decreases Size(prev) + Size(next), 1
  {
    && prev.ref.None? && next.ref.None?
    && KeywordsCovered(prev, next) && ObjectCovered(prev, next, profile, env) && DistinctKeys(Props(next))
    && PropertiesCovered(prev, next, profile, env) && ChoicesCovered(prev, next, profile, env)
    && (prev.items.Some? && next.items.Some? ==> Covered(prev.items.value, next.items.value, profile, env))
  }

  ghost predicate PropertiesCovered(prev: Schema, next: Schema, profile: Mode, env: Env)
    decreases Size(prev) + Size(next), 0
  {
    prev.properties.Named? && next.properties.Named? ==>
      forall i, j | 0 <= i < |prev.properties.fields| && 0 <= j < |next.properties.fields| ::
        prev.properties.fields[i].key == next.properties.fields[j].key ==>
        Covered(prev.properties.fields[i].value, next.properties.fields[j].value, profile, env)
  }

  ghost predicate ChoicesCovered(prev: Schema, next: Schema, profile: Mode, env: Env)
    decreases Size(prev) + Size(next), 0
  {
    && (prev.allOf.Of? && next.allOf.Of? ==>
          forall i :: 0 <= i < |prev.allOf.schemas| && i < |next.allOf.schemas| ==>
            Covered(prev.allOf.schemas[i], next.allOf.schemas[i], profile, env))
    && (prev.anyOf.Of? && next.anyOf.Of? ==>
          forall i :: 0 <= i < |prev.anyOf.schemas| && i < |next.anyOf.schemas| ==>
            Covered(prev.anyOf.schemas[i], next.anyOf.schemas[i], profile, env))
    && (prev.oneOf.Of? && next.oneOf.Of? ==>
          forall i :: 0 <= i < |prev.oneOf.schemas| && i < |next.oneOf.schemas| ==>
            CoveredBothWays(prev.oneOf.schemas[i], next.oneOf.schemas[i], profile, env))
  }

  /** The change is covered, and so is taking it back, which the checker finds nothing breaking in either. */
  ghost predicate CoveredBothWays(prev: Schema, next: Schema, profile: Mode, env: Env)
    decreases Size(prev) + Size(next), 3
  {
    && Covered(prev, next, profile, env) && Covered(next, prev, profile, env)
    && (prev == next || NoBreaking(Findings(next, prev, "$", profile)))
  }

  // ---------------------------------------------------------------- reading the findings

  lemma SplitNoBreaking(a: seq<Finding>, b: seq<Finding>)
    requires NoBreaking(a + b)
    ensures NoBreaking(a) && NoBreaking(b)
  {
    forall i | 0 <= i < |a| ensures !a[i].breaking { assert (a + b)[i] == a[i]; }
    forall i | 0 <= i < |b| ensures !b[i].breaking { assert (a + b)[|a| + i] == b[i]; }
  }

  lemma FlagSilent(condition: bool, f: Finding)
    ensures NoBreaking(Flag(condition, f)) && f.breaking ==> !condition
  {
    if condition { assert Flag(condition, f)[0] == f; }
  }

  /** The parts of a report, in the order they are made. */
  function Parts(prev: Schema, next: Schema, path: string, profile: Mode): seq<seq<Finding>> {
    [ScalarFindings(prev, next, path, profile),
     PropertyFindings(prev, next, path, profile, |Props(prev)|),
     AllAdded(prev, next, path, profile, |Props(next)|),
     RelaxedFindings(prev, next, path, |prev.required|),
     TightenedFindings(prev, next, path, |next.required|),
     ExtraFindings(prev, next, path, profile),
     (if prev.items.Some? && next.items.Some?
      then Findings(prev.items.value, next.items.value, path + "[]", profile) else []),
     ChoiceFindings(prev, next, AllOf, path, profile),
     ChoiceFindings(prev, next, AnyOf, path, profile),
     ChoiceFindings(prev, next, OneOf, path, profile)]
  }

  lemma PartsNoBreaking(prev: Schema, next: Schema, path: string, profile: Mode)
    requires NoBreaking(Findings(prev, next, path, profile))
    ensures !Changed(prev.types, next.types)
    ensures forall i :: 0 <= i < 10 ==> NoBreaking(Parts(prev, next, path, profile)[i])
  {
    hide Findings, Changed, Parts;
    if Changed(prev.types, next.types) { ChangeBreaks(prev, next, path, profile); }
    hide NoBreaking;
    var p := Parts(prev, next, path, profile);
    FindingsAreParts(prev, next, path, profile);
    SplitTen(p[0], p[1], p[2], p[3], p[4], p[5], p[6], p[7], p[8], p[9]);
  }

  lemma ChangeBreaks(prev: Schema, next: Schema, path: string, profile: Mode)
    requires Changed(prev.types, next.types)
    ensures |Findings(prev, next, path, profile)| == 1 && Findings(prev, next, path, profile)[0].breaking
  {
  }

  lemma FindingsAreParts(prev: Schema, next: Schema, path: string, profile: Mode)
    requires !Changed(prev.types, next.types)
    ensures |Parts(prev, next, path, profile)| == 10
    ensures var p := Parts(prev, next, path, profile);
      Findings(prev, next, path, profile) == p[0] + p[1] + p[2] + p[3] + p[4] + p[5] + p[6] + p[7] + p[8] + p[9]
  {
    hide ScalarFindings, PropertyFindings, AllAdded, RelaxedFindings, TightenedFindings, ExtraFindings, ChoiceFindings,
      Changed;
  }

  lemma SplitTen(a: seq<Finding>, b: seq<Finding>, c: seq<Finding>, d: seq<Finding>, e: seq<Finding>,
                 f: seq<Finding>, g: seq<Finding>, h: seq<Finding>, i: seq<Finding>, j: seq<Finding>)
    requires NoBreaking(a + b + c + d + e + f + g + h + i + j)
    ensures NoBreaking(a) && NoBreaking(b) && NoBreaking(c) && NoBreaking(d) && NoBreaking(e)
    ensures NoBreaking(f) && NoBreaking(g) && NoBreaking(h) && NoBreaking(i) && NoBreaking(j)
  {
    hide NoBreaking;
    SplitNoBreaking(a + b + c + d + e + f + g + h + i, j);
    SplitNoBreaking(a + b + c + d + e + f + g + h, i);
    SplitNoBreaking(a + b + c + d + e + f + g, h);
    SplitNoBreaking(a + b + c + d + e + f, g);
    SplitNoBreaking(a + b + c + d + e, f);
    SplitNoBreaking(a + b + c + d, e);
    SplitNoBreaking(a + b + c, d);
    SplitNoBreaking(a + b, c);
    SplitNoBreaking(a, b);
  }

  lemma {:induction false} PropertyAt(prev: Schema, next: Schema, path: string, profile: Mode, n: nat, i: nat)
    requires i < n <= |Props(prev)| && NoBreaking(PropertyFindings(prev, next, path, profile, n))
    ensures var f := Props(prev)[i];
      if HasKey(Props(next), f.key)
      then NoBreaking(Findings(f.value, Props(next)[IndexOf(Props(next), f.key)].value, path + "." + f.key, profile))
      else !RemovedFinding(prev, f.key, path, profile).breaking
    decreases n
  {
    hide Findings;
    var f := Props(prev)[n - 1];
    var last := if HasKey(Props(next), f.key)
      then Findings(f.value, Props(next)[IndexOf(Props(next), f.key)].value, path + "." + f.key, profile)
      else [RemovedFinding(prev, f.key, path, profile)];
    SplitNoBreaking(PropertyFindings(prev, next, path, profile, n - 1), last);
    if i < n - 1 { PropertyAt(prev, next, path, profile, n - 1, i); }
    else if !HasKey(Props(next), f.key) { assert !last[0].breaking; }
  }

  lemma {:induction false} AddedAt(prev: Schema, next: Schema, path: string, profile: Mode, n: nat, i: nat)
    requires i < n <= |Props(next)| && NoBreaking(AllAdded(prev, next, path, profile, n))
    ensures NoBreaking(AddedFindings(prev, next, Props(next)[i].key, path, profile))
    decreases n
  {
    hide AddedFindings;
    SplitNoBreaking(AllAdded(prev, next, path, profile, n - 1),
      AddedFindings(prev, next, Props(next)[n - 1].key, path, profile));
    if i < n - 1 { AddedAt(prev, next, path, profile, n - 1, i); }
  }

  lemma {:induction false} TightenedAt(prev: Schema, next: Schema, path: string, n: nat, i: nat)
    requires i < n <= |next.required| && NoBreaking(TightenedFindings(prev, next, path, n))
    ensures next.required[i] in prev.required || !HasKey(Props(prev), next.required[i])
    decreases n
  {
    var key := next.required[n - 1];
    var last := Flag(key !in prev.required && HasKey(Props(prev), key),
      Broken(path + "." + key, RequirednessTightened));
    SplitNoBreaking(TightenedFindings(prev, next, path, n - 1), last);
    FlagSilent(key !in prev.required && HasKey(Props(prev), key), Broken(path + "." + key, RequirednessTightened));
    if i < n - 1 { TightenedAt(prev, next, path, n - 1, i); }
  }

  lemma {:induction false} PairAt(prev: Schema, before: seq<Schema>, after: seq<Schema>, k: Keyword, path: string,
                                  profile: Mode, n: nat, i: nat)
    requires i < n <= |before| == |after| && forall j :: 0 <= j < |before| ==> before[j] < prev
    requires NoBreaking(PairwiseFindings(prev, before, after, k, path, profile, n))
    ensures NoBreaking(Findings(before[i], after[i], ChildPath(path, k, i), profile))
    decreases n
  {
    hide Findings, ChildPath;
    SplitNoBreaking(PairwiseFindings(prev, before, after, k, path, profile, n - 1),
                    Findings(before[n - 1], after[n - 1], ChildPath(path, k, n - 1), profile));
    if i < n - 1 { PairAt(prev, before, after, k, path, profile, n - 1, i); }
  }

  lemma ChoiceLengths(prev: Schema, next: Schema, k: Keyword, path: string, profile: Mode)
    requires NoBreaking(ChoiceFindings(prev, next, k, path, profile))
    requires Children(prev, k).Of? && Children(next, k).Of?
    ensures |Children(prev, k).schemas| == |Children(next, k).schemas|
  {
    hide Findings, ChildPath;
    var fs := ChoiceFindings(prev, next, k, path, profile);
    assert |fs| > 0 ==> !fs[0].breaking;
  }

  lemma ChoiceAt(prev: Schema, next: Schema, k: Keyword, path: string, profile: Mode, i: nat)
    requires NoBreaking(ChoiceFindings(prev, next, k, path, profile))
    requires Children(prev, k).Of? && Children(next, k).Of? &&
      (i < |Children(prev, k).schemas| || i < |Children(next, k).schemas|)
    ensures |Children(prev, k).schemas| == |Children(next, k).schemas|
    ensures NoBreaking(Findings(Children(prev, k).schemas[i], Children(next, k).schemas[i], ChildPath(path, k, i),
      profile))
  {
    hide Findings, ChildPath;
    var before, after := Children(prev, k).schemas, Children(next, k).schemas;
    var fs := ChoiceFindings(prev, next, k, path, profile);
    assert |fs| > 0 ==> !fs[0].breaking;
    PairAt(prev, before, after, k, path, profile, |before|, i);
  }

  /** What an unbroken comparison of the scalar keywords says. */
  predicate ScalarsRelaxed(prev: Schema, next: Schema) {
    && !Changed(prev.pattern, next.pattern) && !Changed(prev.format, next.format)
    && !LowerBoundRaised(prev.minLength, next.minLength) && !UpperBoundLowered(prev.maxLength, next.maxLength)
    && !LowerBoundRaised(prev.minimum, next.minimum) && !UpperBoundLowered(prev.maximum, next.maximum)
    && !LowerBoundRaised(prev.minItems, next.minItems) && !UpperBoundLowered(prev.maxItems, next.maxItems)
    && !(IsFalse(prev.uniqueItems) && IsTrue(next.uniqueItems))
    && (prev.enumeration.Some? && next.enumeration.Some? ==>
          forall i :: 0 <= i < |prev.enumeration.value| ==>
            HasLooselySame(next.enumeration.value, prev.enumeration.value[i]))
  }

  lemma ScalarsNoBreaking(prev: Schema, next: Schema, path: string, profile: Mode)
    requires NoBreaking(ScalarFindings(prev, next, path, profile))
    ensures ScalarsRelaxed(prev, next)
  {
    hide HasLooselySame, Changed, LowerBoundRaised, UpperBoundLowered;
    var e := EnumFindings(prev, next, path, profile);
    var a := Flag(Changed(prev.pattern, next.pattern), Broken(path, PatternChanged));
    var b := Flag(Changed(prev.format, next.format), Broken(path, FormatChanged));
    var c := Flag(LowerBoundRaised(prev.minLength, next.minLength), Broken(path, MinLengthIncreased));
    var d := Flag(UpperBoundLowered(prev.maxLength, next.maxLength), Broken(path, MaxLengthDecreased));
    var f := Flag(LowerBoundRaised(prev.minimum, next.minimum), Broken(path, MinimumIncreased));
    var g := Flag(UpperBoundLowered(prev.maximum, next.maximum), Broken(path, MaximumDecreased));
    var h := Flag(LowerBoundRaised(prev.minItems, next.minItems), Broken(path, MinItemsIncreased));
    var i := Flag(UpperBoundLowered(prev.maxItems, next.maxItems), Broken(path, MaxItemsDecreased));
    var u := IsFalse(prev.uniqueItems) && IsTrue(next.uniqueItems);
    var j := Flag(u, Broken(path, UniqueItemsBecameStricter));
    hide Flag;
    SplitNoBreaking(e + a + b + c + d + f + g + h + i, j);
    SplitNoBreaking(e + a + b + c + d + f + g + h, i);
    SplitNoBreaking(e + a + b + c + d + f + g, h);
    SplitNoBreaking(e + a + b + c + d + f, g);
    SplitNoBreaking(e + a + b + c + d, f);
    SplitNoBreaking(e + a + b + c, d);
    SplitNoBreaking(e + a + b, c);
    SplitNoBreaking(e + a, b);
    SplitNoBreaking(e, a);
    FlagSilent(Changed(prev.pattern, next.pattern), Broken(path, PatternChanged));
    FlagSilent(Changed(prev.format, next.format), Broken(path, FormatChanged));
    FlagSilent(LowerBoundRaised(prev.minLength, next.minLength), Broken(path, MinLengthIncreased));
    FlagSilent(UpperBoundLowered(prev.maxLength, next.maxLength), Broken(path, MaxLengthDecreased));
    FlagSilent(LowerBoundRaised(prev.minimum, next.minimum), Broken(path, MinimumIncreased));
    FlagSilent(UpperBoundLowered(prev.maximum, next.maximum), Broken(path, MaximumDecreased));
    FlagSilent(LowerBoundRaised(prev.minItems, next.minItems), Broken(path, MinItemsIncreased));
    FlagSilent(UpperBoundLowered(prev.maxItems, next.maxItems), Broken(path, MaxItemsDecreased));
    FlagSilent(u, Broken(path, UniqueItemsBecameStricter));
    EnumNoBreaking(prev, next, path, profile);
  }

  lemma EnumNoBreaking(prev: Schema, next: Schema, path: string, profile: Mode)
    requires NoBreaking(EnumFindings(prev, next, path, profile))
    ensures prev.enumeration.Some? && next.enumeration.Some? ==>
      forall i :: 0 <= i < |prev.enumeration.value| ==>
        HasLooselySame(next.enumeration.value, prev.enumeration.value[i])
  {
    hide HasLooselySame;
    if prev.enumeration.Some? && next.enumeration.Some? {
      var before, after := prev.enumeration.value, next.enumeration.value;
      var fs := EnumFindings(prev, next, path, profile);
      assert |fs| > 0 ==> !fs[0].breaking;
    }
  }

  // ---------------------------------------------------------------- soundness, keyword by keyword

  lemma ValueSound(v: Json, prev: Schema, next: Schema)
    requires KeywordsCovered(prev, next) && ScalarsRelaxed(prev, next) && !Changed(prev.types, next.types)
    requires ValueOk(v, prev)
    ensures ValueOk(v, next)
  {
    if next.enumeration.Some? {
      var before, after := prev.enumeration.value, next.enumeration.value;
      var i :| 0 <= i < |before| && SameJson(v, before[i]);
      assert HasLooselySame(after, before[i]);
      var j :| 0 <= j < |after| && LooselySame(after[j], before[i]);
      assert before[i] in before + after && after[j] in before + after;
      assert SameJson(v, after[j]);
    }
  }

  lemma LeafSound(v: Json, prev: Schema, next: Schema, env: Env)
    requires KeywordsCovered(prev, next) && ScalarsRelaxed(prev, next)
    ensures v.Str? && StringOk(v.s, prev, env) ==> StringOk(v.s, next, env)
    ensures v.Num? && NumberOk(v.n, prev) ==> NumberOk(v.n, next)
  {
  }

  lemma {:induction false} ConditionSound(v: Json, prev: Schema, next: Schema, env: Env, stack: set<string>)
    requires prev.ref.None? && next.ref.None? && SafeEnv(env) && KeywordsCovered(prev, next)
    requires ConditionOk(v, prev, env, stack)
    ensures ConditionOk(v, next, env, stack)
  {
    hide Accepts, Matches, SafeEnv;
  }

  /** Both definitions are clean, and the change is compared. */
  ghost predicate Comparing(prev: Schema, next: Schema, profile: Mode, env: Env) {
    && Compared(prev, next, profile, env)
    && DefinitionClean(prev, env.enforceClassification) && DefinitionClean(next, env.enforceClassification)
  }

  /** The same for a change that need not be looked at. */
  ghost predicate Changing(prev: Schema, next: Schema, profile: Mode, env: Env) {
    && Covered(prev, next, profile, env)
    && DefinitionClean(prev, env.enforceClassification) && DefinitionClean(next, env.enforceClassification)
  }

  lemma ComparedParts(prev: Schema, next: Schema, profile: Mode, env: Env)
    requires Compared(prev, next, profile, env)
    ensures PropertiesCovered(prev, next, profile, env) && ChoicesCovered(prev, next, profile, env)
  {
  }

  lemma {:induction false} AllOfSound(v: Json, prev: Schema, next: Schema, path: string, profile: Mode, env: Env,
                                      stack: set<string>)
    requires SafeEnv(env) && Comparing(prev, next, profile, env) && prev.ref.None? && next.ref.None?
    requires NoBreaking(ChoiceFindings(prev, next, AllOf, path, profile)) && AllOfOk(v, prev, env, stack)
    ensures AllOfOk(v, next, env, stack)
    decreases Size(prev) + Size(next), 0
  {
    hide Accepts, Findings, ChoiceFindings, ChildPath, SafeEnv, Matches, AnyOfOk, OneOfOk;
    if next.allOf.Of? {
      ComparedParts(prev, next, profile, env);
      forall i | 0 <= i < |next.allOf.schemas| ensures Accepts(v, next.allOf.schemas[i], env, stack) {
        ChoiceAt(prev, next, AllOf, path, profile, i);
        var a, b := prev.allOf.schemas[i], next.allOf.schemas[i];
        assert Size(a) < Size(prev) && Size(b) < Size(next);
        assert Changing(a, b, profile, env);
        Sound(v, a, b, ChildPath(path, AllOf, i), profile, env, stack);
      }
    }
  }

  lemma AnyOfChild(prev: Schema, next: Schema, profile: Mode, env: Env, i: nat)
    requires Comparing(prev, next, profile, env)
    requires prev.anyOf.Of? && next.anyOf.Of? && i < |prev.anyOf.schemas| == |next.anyOf.schemas|
    ensures Changing(prev.anyOf.schemas[i], next.anyOf.schemas[i], profile, env)
    ensures Size(prev.anyOf.schemas[i]) < Size(prev) && Size(next.anyOf.schemas[i]) < Size(next)
  {
    hide KeywordsCovered, ObjectCovered, LocallyClean;
    ComparedParts(prev, next, profile, env);
  }

  lemma {:induction false} AnyOfSound(v: Json, prev: Schema, next: Schema, path: string, profile: Mode, env: Env)
    requires SafeEnv(env) && Comparing(prev, next, profile, env) && prev.ref.None? && next.ref.None?
    requires NoBreaking(ChoiceFindings(prev, next, AnyOf, path, profile)) && AnyOfOk(v, prev, env)
    ensures AnyOfOk(v, next, env)
    decreases Size(prev) + Size(next), 0
  {
    assert next.anyOf.Of? ==> prev.anyOf.Of? by { assert KeywordsCovered(prev, next); }
    hide KeywordsCovered, Compared, Comparing, SafeEnv, DefinitionClean, Matches, ChoiceFindings, NoBreaking, Size;
    if next.anyOf.Of? {
      var i :| 0 <= i < |prev.anyOf.schemas| && Matches(v, prev.anyOf.schemas[i], env);
      AnyOfOne(v, prev, next, path, profile, env, i);
    }
  }

  /** The alternative that accepted the value still does. */
  lemma {:induction false} AnyOfOne(v: Json, prev: Schema, next: Schema, path: string, profile: Mode, env: Env, i: nat)
    requires SafeEnv(env) && Comparing(prev, next, profile, env)
    requires NoBreaking(ChoiceFindings(prev, next, AnyOf, path, profile))
    requires prev.anyOf.Of? && next.anyOf.Of? && i < |prev.anyOf.schemas| && Matches(v, prev.anyOf.schemas[i], env)
    ensures i < |next.anyOf.schemas| && Matches(v, next.anyOf.schemas[i], env)
    decreases Size(prev) + Size(next), 0, 0
  {
    hide Accepts, Findings, ChoiceFindings, ChildPath, SafeEnv, Compared, Covered, DefinitionClean, Comparing, Size;
    ChoiceAt(prev, next, AnyOf, path, profile, i);
    AnyOfChild(prev, next, profile, env, i);
    Sound(v, prev.anyOf.schemas[i], next.anyOf.schemas[i], ChildPath(path, AnyOf, i), profile, env, {});
  }

  lemma OneOfChild(prev: Schema, next: Schema, profile: Mode, env: Env, i: nat)
    requires Comparing(prev, next, profile, env)
    requires prev.oneOf.Of? && next.oneOf.Of? && i < |prev.oneOf.schemas| == |next.oneOf.schemas|
    ensures var a, b := prev.oneOf.schemas[i], next.oneOf.schemas[i];
      && CoveredBothWays(a, b, profile, env) && Size(a) < Size(prev) && Size(b) < Size(next)
      && DefinitionClean(a, env.enforceClassification) && DefinitionClean(b, env.enforceClassification)
  {
    hide KeywordsCovered, ObjectCovered, LocallyClean;
    ComparedParts(prev, next, profile, env);
  }

  /** Every alternative matches exactly the values it matched before. */
  lemma {:induction false} OneOfAlike(v: Json, prev: Schema, next: Schema, path: string, profile: Mode, env: Env,
                                      i: nat)
    requires SafeEnv(env) && Comparing(prev, next, profile, env)
    requires NoBreaking(ChoiceFindings(prev, next, OneOf, path, profile))
    requires prev.oneOf.Of? && next.oneOf.Of? && i < |prev.oneOf.schemas| == |next.oneOf.schemas|
    ensures Matches(v, prev.oneOf.schemas[i], env) <==> Matches(v, next.oneOf.schemas[i], env)
    decreases Size(prev) + Size(next), 0, 0
  {
    hide Accepts, Findings, ChoiceFindings, ChildPath, SafeEnv, Compared, Covered, DefinitionClean, Comparing, Size;
    ChoiceAt(prev, next, OneOf, path, profile, i);
    OneOfChild(prev, next, profile, env, i);
    var a, b := prev.oneOf.schemas[i], next.oneOf.schemas[i];
    if a != b {
      if Matches(v, a, env) { Sound(v, a, b, ChildPath(path, OneOf, i), profile, env, {}); }
      if Matches(v, b, env) { Sound(v, b, a, "$", profile, env, {}); }
    }
  }

  lemma {:induction false} OneOfSound(v: Json, prev: Schema, next: Schema, path: string, profile: Mode, env: Env)
    requires SafeEnv(env) && Comparing(prev, next, profile, env) && prev.ref.None? && next.ref.None?
    requires NoBreaking(ChoiceFindings(prev, next, OneOf, path, profile)) && OneOfOk(v, prev, env)
    ensures OneOfOk(v, next, env)
    decreases Size(prev) + Size(next), 0
  {
    assert next.oneOf.Of? ==> prev.oneOf.Of? by { assert KeywordsCovered(prev, next); }
    hide KeywordsCovered, Compared, Comparing, SafeEnv, DefinitionClean, Matches, ChoiceFindings, NoBreaking, Size,
      OneOfOk;
    if next.oneOf.Of? {
      ChoiceLengths(prev, next, OneOf, path, profile);
      forall k: nat | k < |prev.oneOf.schemas|
        ensures Matches(v, prev.oneOf.schemas[k], env) <==> Matches(v, next.oneOf.schemas[k], env)
      {
        OneOfAlike(v, prev, next, path, profile, env, k);
      }
      SameMatchesSameOneOf(v, prev, next, env);
    } else {
      NoOneOf(v, next, env);
    }
  }

  lemma NoOneOf(v: Json, s: Schema, env: Env)
    requires SafeEnv(env) && s.ref.None? && s.oneOf.NoChoice?
    ensures OneOfOk(v, s, env)
  {
  }

  lemma SameMatchesSameOneOf(v: Json, prev: Schema, next: Schema, env: Env)
    requires SafeEnv(env) && prev.ref.None? && next.ref.None? && prev.oneOf.Of? && next.oneOf.Of?
    requires |prev.oneOf.schemas| == |next.oneOf.schemas|
    requires forall k: nat | k < |prev.oneOf.schemas| ::
      Matches(v, prev.oneOf.schemas[k], env) <==> Matches(v, next.oneOf.schemas[k], env)
    requires OneOfOk(v, prev, env)
    ensures OneOfOk(v, next, env)
  {
    hide Matches, SafeEnv;
  }

  lemma {:induction false} CompositionSound(v: Json, prev: Schema, next: Schema, path: string, profile: Mode, env: Env,
                                            stack: set<string>)
    requires SafeEnv(env) && Comparing(prev, next, profile, env) && prev.ref.None? && next.ref.None?
    requires NoBreaking(ChoiceFindings(prev, next, AllOf, path, profile))
    requires NoBreaking(ChoiceFindings(prev, next, AnyOf, path, profile))
    requires NoBreaking(ChoiceFindings(prev, next, OneOf, path, profile)) && CompositionOk(v, prev, env, stack)
    ensures CompositionOk(v, next, env, stack)
    decreases Size(prev) + Size(next), 1
  {
    hide AllOfOk, AnyOfOk, OneOfOk, SafeEnv, Compared, Comparing, ChoiceFindings, NoBreaking, Size;
    AllOfSound(v, prev, next, path, profile, env, stack);
    AnyOfSound(v, prev, next, path, profile, env);
    OneOfSound(v, prev, next, path, profile, env);
  }

  lemma {:induction false} ArraySound(items: seq<Json>, prev: Schema, next: Schema, path: string, profile: Mode,
                                      env: Env, stack: set<string>)
    requires SafeEnv(env) && Comparing(prev, next, profile, env) && ScalarsRelaxed(prev, next)
    requires prev.items.Some? && next.items.Some? ==>
      NoBreaking(Findings(prev.items.value, next.items.value, path + "[]", profile))
    requires ArrayOk(items, prev, env, stack)
    ensures ArrayOk(items, next, env, stack)
    decreases Size(prev) + Size(next), 0
  {
    assert KeywordsCovered(prev, next);
    hide Accepts, Findings, SafeEnv, NoBreaking;
    if next.items.Some? {
      forall i | 0 <= i < |items| ensures Accepts(items[i], next.items.value, env, stack) {
        Sound(items[i], prev.items.value, next.items.value, path + "[]", profile, env, stack);
      }
    }
  }

  lemma RequiredSound(fields: seq<Field<Json>>, prev: Schema, next: Schema, path: string, profile: Mode, env: Env)
    requires ObjectCovered(prev, next, profile, env)
    requires NoBreaking(AllAdded(prev, next, path, profile, |Props(next)|))
    requires NoBreaking(TightenedFindings(prev, next, path, |next.required|))
    requires forall i :: 0 <= i < |prev.required| ==> HasKey(fields, prev.required[i])
    ensures forall i :: 0 <= i < |next.required| ==> HasKey(fields, next.required[i])
  {
    hide AllAdded, TightenedFindings;
    forall i | 0 <= i < |next.required| ensures HasKey(fields, next.required[i]) {
      var r := next.required[i];
      TightenedAt(prev, next, path, |next.required|, i);
      if r !in prev.required {
        var j :| 0 <= j < |Props(next)| && Props(next)[j].key == r;
        AddedAt(prev, next, path, profile, |Props(next)|, j);
        RequiredIsNotNew(prev, next, r, path, profile);
        assert false;
      }
    }
  }

  lemma RequiredIsNotNew(prev: Schema, next: Schema, key: string, path: string, profile: Mode)
    requires NoBreaking(AddedFindings(prev, next, key, path, profile)) && key in next.required
    ensures HasKey(Props(prev), key)
  {
    var fs := AddedFindings(prev, next, key, path, profile);
    assert |fs| > 0 ==> !fs[0].breaking;
  }

  lemma NewPropertyIsAbsent(fields: seq<Field<Json>>, prev: Schema, next: Schema, path: string, profile: Mode, env: Env,
                            stack: set<string>, j: nat, k: nat)
    requires SafeEnv(env) && ObjectCovered(prev, next, profile, env) && ObjectOk(fields, prev, env, stack)
    requires NoBreaking(AllAdded(prev, next, path, profile, |Props(next)|))
    requires j < |Props(next)| && !HasKey(Props(prev), Props(next)[j].key) && k < |fields|
    ensures fields[k].key != Props(next)[j].key
  {
    hide AllAdded, Accepts, SafeEnv;
    AddedAt(prev, next, path, profile, |Props(next)|, j);
    var fs := AddedFindings(prev, next, Props(next)[j].key, path, profile);
    assert |fs| > 0 ==> !fs[0].breaking;
  }

  lemma PropertyChild(prev: Schema, next: Schema, profile: Mode, env: Env, i: nat, j: nat)
    requires Comparing(prev, next, profile, env) && i < |Props(prev)| && j < |Props(next)|
    requires Props(prev)[i].key == Props(next)[j].key
    ensures var a, b := Props(prev)[i].value, Props(next)[j].value;
      Changing(a, b, profile, env) && Size(a) < Size(prev) && Size(b) < Size(next)
  {
    hide KeywordsCovered, ObjectCovered, LocallyClean;
    ComparedParts(prev, next, profile, env);
  }

  lemma {:induction false} PropertySound(fields: seq<Field<Json>>, prev: Schema, next: Schema, path: string,
                                         profile: Mode, env: Env, stack: set<string>, j: nat, k: nat)
    requires SafeEnv(env) && Comparing(prev, next, profile, env)
    requires NoBreaking(PropertyFindings(prev, next, path, profile, |Props(prev)|))
    requires NoBreaking(AllAdded(prev, next, path, profile, |Props(next)|))
    requires ObjectOk(fields, prev, env, stack)
    requires next.properties.Named? && j < |next.properties.fields| && k < |fields| &&
      next.properties.fields[j].key == fields[k].key
    ensures Accepts(fields[k].value, next.properties.fields[j].value, env, stack)
    decreases Size(prev) + Size(next), 0
  {
    hide Accepts, Findings, PropertyFindings, AllAdded, SafeEnv;
    var key := fields[k].key;
    if !HasKey(Props(prev), key) {
      NewPropertyIsAbsent(fields, prev, next, path, profile, env, stack, j, k);
    } else {
      var i :| 0 <= i < |Props(prev)| && Props(prev)[i].key == key;
      PropertyAt(prev, next, path, profile, |Props(prev)|, i);
      assert IndexOf(Props(next), key) == j;
      PropertyChild(prev, next, profile, env, i, j);
      Sound(fields[k].value, prev.properties.fields[i].value, next.properties.fields[j].value, path + "." + key,
        profile,
            env, stack);
    }
  }

  lemma ExtraSound(fields: seq<Field<Json>>, prev: Schema, next: Schema, path: string, profile: Mode, env: Env,
                   stack: set<string>, k: nat)
    requires SafeEnv(env) && KeywordsCovered(prev, next) && ObjectCovered(prev, next, profile, env)
    requires NoBreaking(PropertyFindings(prev, next, path, profile, |Props(prev)|))
    requires NoBreaking(ExtraFindings(prev, next, path, profile)) && ObjectOk(fields, prev, env, stack)
    requires k < |fields| && !HasKey(Props(next), fields[k].key) &&
      !MatchesAnyPattern(fields[k].key, next.patternProperties, env)
    ensures next.extra.Forbidden? ==> env.mode == TolerantReader
    ensures next.extra.Governed? ==> Accepts(fields[k].value, next.extra.schema, env, stack)
  {
    hide Accepts, Findings, PropertyFindings, SafeEnv;
    var key := fields[k].key;
    var fs := ExtraFindings(prev, next, path, profile);
    assert |fs| > 0 ==> !fs[0].breaking;
    if HasKey(Props(prev), key) {
      var i :| 0 <= i < |Props(prev)| && Props(prev)[i].key == key;
      PropertyAt(prev, next, path, profile, |Props(prev)|, i);
    }
  }

  lemma {:induction false} ObjectSound(fields: seq<Field<Json>>, prev: Schema, next: Schema, path: string,
                                       profile: Mode, env: Env, stack: set<string>)
    requires SafeEnv(env) && Comparing(prev, next, profile, env)
    requires NoBreaking(PropertyFindings(prev, next, path, profile, |Props(prev)|))
    requires NoBreaking(AllAdded(prev, next, path, profile, |Props(next)|))
    requires NoBreaking(TightenedFindings(prev, next, path, |next.required|))
    requires NoBreaking(ExtraFindings(prev, next, path, profile))
    requires ObjectOk(fields, prev, env, stack)
    ensures ObjectOk(fields, next, env, stack)
    decreases Size(prev) + Size(next), 1
  {
    hide Accepts, Findings, PropertyFindings, AllAdded, TightenedFindings, ExtraFindings, SafeEnv, ObjectCovered;
    RequiredSound(fields, prev, next, path, profile, env);
    if next.properties.Named? {
      forall j, k | 0 <= j < |next.properties.fields| && 0 <= k < |fields| &&
        next.properties.fields[j].key == fields[k].key
        ensures Accepts(fields[k].value, next.properties.fields[j].value, env, stack)
      {
        PropertySound(fields, prev, next, path, profile, env, stack, j, k);
      }
    }
    forall k | 0 <= k < |fields| && !HasKey(Props(next), fields[k].key) &&
      !MatchesAnyPattern(fields[k].key, next.patternProperties, env)
      ensures next.extra.Forbidden? ==> env.mode == TolerantReader
      ensures next.extra.Governed? ==> Accepts(fields[k].value, next.extra.schema, env, stack)
    {
      ExtraSound(fields, prev, next, path, profile, env, stack, k);
    }
  }

  /** Every value the old schema accepts is accepted by the new one. */
  lemma {:induction false} Sound(v: Json, prev: Schema, next: Schema, path: string, profile: Mode, env: Env,
                                 stack: set<string>)
    requires SafeEnv(env) && Changing(prev, next, profile, env) && NoBreaking(Findings(prev, next, path, profile))
    requires Accepts(v, prev, env, stack)
    ensures Accepts(v, next, env, stack)
    decreases Size(prev) + Size(next), 3
  {
    if Compared(prev, next, profile, env) { ComparedSound(v, prev, next, path, profile, env, stack); }
  }

  lemma {:induction false} ComparedSound(v: Json, prev: Schema, next: Schema, path: string, profile: Mode, env: Env,
                                         stack: set<string>)
    requires SafeEnv(env) && Comparing(prev, next, profile, env) && NoBreaking(Findings(prev, next, path, profile))
    requires Accepts(v, prev, env, stack)
    ensures Accepts(v, next, env, stack)
    decreases Size(prev) + Size(next), 2
  {
    assert KeywordsCovered(prev, next);
    PartsNoBreaking(prev, next, path, profile);
    var p := Parts(prev, next, path, profile);
    assert NoBreaking(p[0]) && NoBreaking(p[1]) && NoBreaking(p[2]) && NoBreaking(p[4]) && NoBreaking(p[5])
        && NoBreaking(p[6]) && NoBreaking(p[7]) && NoBreaking(p[8]) && NoBreaking(p[9]);
    assert next.ref.None? && prev.ref.None?;
    hide Findings, Parts, PropertyFindings, AllAdded, TightenedFindings, ExtraFindings, ChoiceFindings, ScalarFindings,
         SafeEnv, Compared, Comparing, KeywordsCovered, NoBreaking, ScalarsRelaxed, DefinitionClean, Size,
         ConditionOk, CompositionOk, ArrayOk, ObjectOk, ValueOk, StringOk, NumberOk;
    ScalarsNoBreaking(prev, next, path, profile);
    ConditionSound(v, prev, next, env, stack);
    CompositionSound(v, prev, next, path, profile, env, stack);
    ValueSound(v, prev, next);
    LeafSound(v, prev, next, env);
    match v
    case Arr(items) => ArraySound(items, prev, next, path, profile, env, stack);
    case Obj(fields) => ObjectSound(fields, prev, next, path, profile, env, stack);
    case _ =>
  }

  // ---------------------------------------------------------------- the main results

  /**
   * If the checker reports nothing breaking, every valid value stays valid, provided the new
   * definition itself is clean.
   */
  lemma CompatibilityIsSound(v: Json, prev: Schema, next: Schema, profile: Mode, env: Env)
    requires SafeEnv(env) && Covered(prev, next, profile, env)
    requires NoBreaking(Findings(prev, next, "$", profile)) && DefinitionClean(next, env.enforceClassification)
    ensures Valid(v, prev, env) ==> Valid(v, next, env)
  {
    hide SafeEnv, Covered, Findings, DefinitionClean, Accepts, NoBreaking;
    if Valid(v, prev, env) { Sound(v, prev, next, "$", profile, env, {}); }
  }
}
