/**
 * Changes the compatibility checker does not see: for every clause of `Covered` a change that breaks only
 * that clause, that is not reported as breaking, and that refuses a value accepted before.
 */
module CompatibilityGaps {
  import opened Wrappers
  import opened Json
  import opened Canonical
  import opened CanonicalRoundTrip
  import opened Schema
  import opened Compatibility
  import opened CompatibilitySoundness

  /** The change is not reported as breaking, although a value accepted before is refused after it. */
  ghost predicate Missed(v: Json, prev: Schema, next: Schema, profile: Mode, env: Env)
    requires SafeEnv(env)
  {
    && NoBreaking(Findings(prev, next, "$", profile))
    && Accepts(v, prev, env, {}) && !Accepts(v, next, env, {})
  }

  /** A schema that refuses everything. */
  function Nothing(): Schema { BLANK.(enumeration := Some([])) }

  // ---------------------------------------------------------------- keywords added to an empty schema

  /** None of the keywords by which the checker judges a schema on its own. */
  predicate Unjudged(s: Schema) {
    && s.properties.NoTable? && !s.extra.Forbidden?
    && s.minLength.None? && s.maxLength.None? && s.minimum.None? && s.maximum.None? && s.minItems.None? &&
      s.maxItems.None?
  }

  lemma {:induction false} UndeclaredAreSilent(prev: Schema, next: Schema, path: string, n: nat)
    requires n <= |next.required| && Props(prev) == []
    ensures TightenedFindings(prev, next, path, n) == []
  {
    if n > 0 { UndeclaredAreSilent(prev, next, path, n - 1); }
  }

  /** Whatever else is added to an empty schema is not reported. */
  lemma AddedKeywordsAreSilent(next: Schema, profile: Mode)
    requires Unjudged(next)
    ensures Findings(BLANK, next, "$", profile) == []
  {
    FindingsAreParts(BLANK, next, "$", profile);
    UndeclaredAreSilent(BLANK, next, "$", |next.required|);
    assert ScalarFindings(BLANK, next, "$", profile) == [];
    hide Findings, ScalarFindings, TightenedFindings;
    var p := Parts(BLANK, next, "$", profile);
    assert p[0] == p[1] == p[2] == p[3] == p[4] == p[5] == p[6] == p[7] == p[8] == p[9] == [];
  }

  lemma NoConditionNoComposition(v: Json, s: Schema, env: Env)
    requires SafeEnv(env) && s.ref.None? && s.condition.None?
    requires s.allOf.NoChoice? && s.anyOf.NoChoice? && s.oneOf.NoChoice?
    ensures ConditionOk(v, s, env, {}) && CompositionOk(v, s, env, {})
  {
  }

  lemma BlankAcceptsAll(v: Json, env: Env)
    requires SafeEnv(env)
    ensures Accepts(v, BLANK, env, {})
  {
    NoConditionNoComposition(v, BLANK, env);
  }

  /** Added keywords are harmless exactly when they refuse nothing; the report is silent either way. */
  lemma AddedKeywordsAreMissed(v: Json, next: Schema, profile: Mode, env: Env)
    requires SafeEnv(env) && Unjudged(next)
    ensures Missed(v, BLANK, next, profile, env) <==> !Accepts(v, next, env, {})
  {
    AddedKeywordsAreSilent(next, profile);
    BlankAcceptsAll(v, env);
  }

  lemma NothingRefuses(v: Json, env: Env, stack: set<string>)
    requires SafeEnv(env)
    ensures !Accepts(v, Nothing(), env, stack)
  {
    assert !ValueOk(v, Nothing());
  }

  lemma AddedValueKeywordsAreMissed(profile: Mode, env: Env)
    requires SafeEnv(env)
    ensures Missed(Null, BLANK, BLANK.(types := Some(One("string"))), profile, env)
    ensures Missed(Null, BLANK, BLANK.(enumeration := Some([])), profile, env)
    ensures Missed(Null, BLANK, BLANK.(constant := Some(Bool(true))), profile, env)
  {
    var typed, fixed := BLANK.(types := Some(One("string"))), BLANK.(constant := Some(Bool(true)));
    AddedKeywordsAreMissed(Null, typed, profile, env);
    AddedKeywordsAreMissed(Null, Nothing(), profile, env);
    AddedKeywordsAreMissed(Null, fixed, profile, env);
    NothingRefuses(Null, env, {});
    hide Missed;
    assert !HasType(Null, "string");
    assert !ValueOk(Null, typed);
    assert !SameJson(Null, Bool(true)) by { NullIsNotTrue(); }
    assert !ValueOk(Null, fixed);
  }

  lemma NullIsNotTrue()
    ensures !SameJson(Null, Bool(true))
  {
    assert WellFormed(Null) && WellFormed(Bool(true)) && !Same(Null, Bool(true));
    hide Canonicalize;
    CanonicalIsFaithful(Null, Bool(true));
  }

  lemma AddedTextKeywordsAreMissed(text: string, pattern: string, profile: Mode, env: Env)
    requires SafeEnv(env)
    ensures pattern != "" && !env.regex(pattern, text) ==>
      Missed(Str(text), BLANK, BLANK.(pattern := Some(pattern)), profile, env)
    ensures !env.dateTime(text) ==> Missed(Str(text), BLANK, BLANK.(format := Some("date-time")), profile, env)
  {
    var matching, formatted := BLANK.(pattern := Some(pattern)), BLANK.(format := Some("date-time"));
    AddedKeywordsAreMissed(Str(text), matching, profile, env);
    AddedKeywordsAreMissed(Str(text), formatted, profile, env);
    hide Missed;
    if pattern != "" && !env.regex(pattern, text) { assert !StringOk(text, matching, env); }
    if !env.dateTime(text) { assert !StringOk(text, formatted, env); }
  }

  lemma AddedListKeywordsAreMissed(profile: Mode, env: Env)
    requires SafeEnv(env)
    ensures Missed(Arr([Null, Null]), BLANK, BLANK.(uniqueItems := Some(true)), profile, env)
    ensures Missed(Arr([Null]), BLANK, BLANK.(items := Some(Nothing())), profile, env)
  {
    var unique, empty := BLANK.(uniqueItems := Some(true)), BLANK.(items := Some(Nothing()));
    AddedKeywordsAreMissed(Arr([Null, Null]), unique, profile, env);
    AddedKeywordsAreMissed(Arr([Null]), empty, profile, env);
    NothingRefuses(Null, env, {});
    hide Missed, Canonicalize;
    var twice := [Null, Null];
    assert twice[0] == twice[1] && !AllDistinct(twice);
    assert !ArrayOk(twice, unique, env, {});
    var one := [Null];
    assert !Accepts(one[0], Nothing(), env, {});
    assert !ArrayOk(one, empty, env, {});
  }

  lemma EmptyChoicesRefuse(v: Json, env: Env)
    requires SafeEnv(env)
    ensures !Accepts(v, BLANK.(anyOf := Of([])), env, {}) && !Accepts(v, BLANK.(oneOf := Of([])), env, {})
  {
    var any, one := BLANK.(anyOf := Of([])), BLANK.(oneOf := Of([]));
    assert !AnyOfOk(v, any, env) && !OneOfOk(v, one, env);
    hide AnyOfOk, OneOfOk;
    assert !CompositionOk(v, any, env, {}) && !CompositionOk(v, one, env, {});
  }

  lemma AllOfNothingRefuses(v: Json, env: Env)
    requires SafeEnv(env)
    ensures !Accepts(v, BLANK.(allOf := Of([Nothing()])), env, {})
  {
    var all := BLANK.(allOf := Of([Nothing()]));
    NothingRefuses(v, env, {});
    assert !Accepts(v, all.allOf.schemas[0], env, {});
    assert !AllOfOk(v, all, env, {});
    hide AllOfOk;
    assert !CompositionOk(v, all, env, {});
  }

  lemma AddedCompositionsAreMissed(v: Json, profile: Mode, env: Env)
    requires SafeEnv(env)
    ensures Missed(v, BLANK, BLANK.(anyOf := Of([])), profile, env)
    ensures Missed(v, BLANK, BLANK.(oneOf := Of([])), profile, env)
    ensures Missed(v, BLANK, BLANK.(allOf := Of([Nothing()])), profile, env)
  {
    EmptyChoicesRefuse(v, env);
    AllOfNothingRefuses(v, env);
    hide Missed, Accepts, SafeEnv;
    AddedKeywordsAreMissed(v, BLANK.(anyOf := Of([])), profile, env);
    AddedKeywordsAreMissed(v, BLANK.(oneOf := Of([])), profile, env);
    AddedKeywordsAreMissed(v, BLANK.(allOf := Of([Nothing()])), profile, env);
  }

  lemma AddedConditionsAreMissed(v: Json, profile: Mode, env: Env)
    requires SafeEnv(env)
    ensures Missed(v, BLANK,
      BLANK.(condition := Some(BLANK), consequent := Some(Nothing()), alternative := Some(Nothing())),
                   profile, env)
  {
    var s := BLANK.(condition := Some(BLANK), consequent := Some(Nothing()), alternative := Some(Nothing()));
    AddedKeywordsAreMissed(v, s, profile, env);
    NothingRefuses(v, env, {});
    hide Missed, Matches;
    assert !ConditionOk(v, s, env, {});
  }

  lemma AddedReferencesAreMissed(v: Json, name: string, profile: Mode, env: Env)
    requires SafeEnv(env) && name !in env.refs
    ensures Missed(v, BLANK, BLANK.(ref := Some(name)), profile, env)
  {
    AddedKeywordsAreMissed(v, BLANK.(ref := Some(name)), profile, env);
  }

  // ---------------------------------------------------------------- objects

  function OneField(key: string, x: Json): Json { Obj([Field(key, x)]) }

  lemma RefusedField(fields: seq<Field<Json>>, s: Schema, env: Env)
    requires SafeEnv(env) && s.ref.None? && !ObjectOk(fields, s, env, {})
    ensures !Accepts(Obj(fields), s, env, {})
  {
  }

  lemma AddedObjectKeywordsAreMissed(key: string, pattern: string, profile: Mode, env: Env)
    requires SafeEnv(env)
    ensures Missed(Obj([]), BLANK, BLANK.(required := [key]), profile, env)
    ensures Missed(OneField(key, Null), BLANK, BLANK.(extra := Governed(Nothing())), profile, env)
    ensures env.regex(pattern, key) ==>
      Missed(OneField(key, Null), BLANK, BLANK.(patternProperties := [Field(pattern, Nothing())]), profile, env)
  {
    var needed, governed := BLANK.(required := [key]), BLANK.(extra := Governed(Nothing()));
    var patterned := BLANK.(patternProperties := [Field(pattern, Nothing())]);
    AddedKeywordsAreMissed(Obj([]), needed, profile, env);
    AddedKeywordsAreMissed(OneField(key, Null), governed, profile, env);
    AddedKeywordsAreMissed(OneField(key, Null), patterned, profile, env);
    NothingRefuses(Null, env, {});
    hide Missed, Accepts;
    assert !HasKey<Json>([], needed.required[0]);
    RefusedField([], needed, env);
    var fields := [Field(key, Null)];
    assert !Accepts(fields[0].value, Nothing(), env, {});
    assert !HasKey(Props(governed), key) && !MatchesAnyPattern(key, [], env);
    RefusedField(fields, governed, env);
    if env.regex(pattern, key) {
      assert env.regex(patterned.patternProperties[0].key, fields[0].key);
      RefusedField(fields, patterned, env);
    }
  }

  /** No profile but the strict one objects to a new optional property of an open object. */
  lemma NewPropertiesAreMissed(key: string, profile: Mode, env: Env)
    requires SafeEnv(env) && profile != Strict
    ensures Missed(OneField(key, Null), BLANK, BLANK.(properties := Named([Field(key, Nothing())])), profile, env)
  {
    var next := BLANK.(properties := Named([Field(key, Nothing())]));
    NewPropertyReport(key, profile);
    BlankAcceptsAll(OneField(key, Null), env);
    NothingRefuses(Null, env, {});
    hide Accepts, Findings;
    var fields := [Field(key, Null)];
    assert next.properties.fields[0].key == fields[0].key &&
      !Accepts(fields[0].value, next.properties.fields[0].value, env, {});
    RefusedField(fields, next, env);
  }

  /** What is left of a report when neither schema asks for keys, items or scalars. */
  lemma ReportOnChildren(prev: Schema, next: Schema, profile: Mode)
    requires prev.required == next.required == [] && prev.extra == next.extra && next.items.None?
    requires next.types.None? && ScalarFindings(prev, next, "$", profile) == []
    ensures Findings(prev, next, "$", profile) ==
      PropertyFindings(prev, next, "$", profile, |Props(prev)|) + AllAdded(prev, next, "$", profile, |Props(next)|)
      + ChoiceFindings(prev, next, AllOf, "$", profile) + ChoiceFindings(prev, next, AnyOf, "$", profile)
      + ChoiceFindings(prev, next, OneOf, "$", profile)
  {
    FindingsAreParts(prev, next, "$", profile);
    hide Findings, ScalarFindings, PropertyFindings, AllAdded, ChoiceFindings;
    var p := Parts(prev, next, "$", profile);
    assert p[0] == p[3] == p[4] == p[5] == p[6] == [];
    EmptyPartsDrop(p[0], p[1], p[2], p[3], p[4], p[5], p[6], p[7], p[8], p[9]);
  }

  lemma EmptyPartsDrop<T>(a: seq<T>, b: seq<T>, c: seq<T>, d: seq<T>, e: seq<T>,
                          f: seq<T>, g: seq<T>, h: seq<T>, i: seq<T>, j: seq<T>)
    requires a == d == e == f == g == []
    ensures a + b + c + d + e + f + g + h + i + j == b + c + h + i + j
  {
    assert a + b == b;
    assert b + c + d == b + c;
    assert b + c + e == b + c;
    assert b + c + f == b + c;
    assert b + c + g == b + c;
  }

  lemma NewPropertyReport(key: string, profile: Mode)
    requires profile != Strict
    ensures NoBreaking(Findings(BLANK, BLANK.(properties := Named([Field(key, Nothing())])), "$", profile))
  {
    var next := BLANK.(properties := Named([Field(key, Nothing())]));
    assert ScalarFindings(BLANK, next, "$", profile) == [];
    ReportOnChildren(BLANK, next, profile);
    assert AllAdded(BLANK, next, "$", profile, 0) == [];
    assert NoBreaking(AllAdded(BLANK, next, "$", profile, 1));
    assert PropertyFindings(BLANK, next, "$", profile, 0) == [];
    hide Findings, AllAdded, ScalarFindings, NoBreaking, PropertyFindings;
    assert Findings(BLANK, next, "$", profile) == AllAdded(BLANK, next, "$", profile, 1);
  }

  /** If all but one part of a report are empty and that one breaks nothing, nothing breaks. */
  lemma ReportWithOnePart(prev: Schema, next: Schema, profile: Mode, part: nat)
    requires part < 10 && !Changed(prev.types, next.types)
    requires |Parts(prev, next, "$", profile)| == 10
    requires forall i :: 0 <= i < 10 && i != part ==> Parts(prev, next, "$", profile)[i] == []
    requires NoBreaking(Parts(prev, next, "$", profile)[part])
    ensures NoBreaking(Findings(prev, next, "$", profile))
    ensures Parts(prev, next, "$", profile)[part] == [] ==> Findings(prev, next, "$", profile) == []
  {
    hide Findings, Parts, NoBreaking, Changed;
    FindingsAreParts(prev, next, "$", profile);
    var p := Parts(prev, next, "$", profile);
    assert Findings(prev, next, "$", profile) == p[part];
  }

  /** Neither schema has more than keywords the checker passes over, `enum`, and the same stance on unknown keys. */
  predicate PassedOver(prev: Schema, next: Schema) {
    prev.extra == next.extra && HasOnlyPassedOver(prev) && HasOnlyPassedOver(next)
  }

  predicate HasOnlyPassedOver(s: Schema) {
    s == BLANK.(ref := s.ref, constant := s.constant, enumeration := s.enumeration,
                patternProperties := s.patternProperties, extra := s.extra)
  }

  lemma SilentReport(prev: Schema, next: Schema, profile: Mode)
    requires PassedOver(prev, next) && EnumFindings(prev, next, "$", profile) == []
    ensures Findings(prev, next, "$", profile) == []
  {
    FindingsAreParts(prev, next, "$", profile);
    hide EnumFindings;
    assert ScalarFindings(prev, next, "$", profile) == [];
    ReportWithOnePart(prev, next, profile, 0);
  }

  lemma ClosedRefuses(key: string, s: Schema, env: Env)
    requires SafeEnv(env) && s.ref.None? && s.extra.Forbidden? && env.mode != TolerantReader
    requires Props(s) == [] && s.patternProperties == []
    ensures !Accepts(OneField(key, Null), s, env, {})
  {
    hide Accepts;
    var fields := [Field(key, Null)];
    assert !HasKey(Props(s), fields[0].key) && !MatchesAnyPattern(fields[0].key, s.patternProperties, env);
    RefusedField(fields, s, env);
  }

  /** The tolerant profile speaks only for a validator that tolerates unknown keys. */
  lemma RestrictionsAreMissed(key: string, env: Env)
    requires SafeEnv(env) && env.mode != TolerantReader
    ensures Missed(OneField(key, Null), BLANK, BLANK.(extra := Forbidden), TolerantReader, env)
  {
    RestrictionReport();
    BlankAcceptsAll(OneField(key, Null), env);
    ClosedRefuses(key, BLANK.(extra := Forbidden), env);
    hide Accepts, Findings;
  }

  lemma RestrictionReport()
    ensures NoBreaking(Findings(BLANK, BLANK.(extra := Forbidden), "$", TolerantReader))
  {
    var next := BLANK.(extra := Forbidden);
    OnlyExtraReport(BLANK, next, TolerantReader);
    assert NoBreaking(ExtraFindings(BLANK, next, "$", TolerantReader));
    hide Findings;
  }

  lemma OnlyExtraReport(prev: Schema, next: Schema, profile: Mode)
    requires prev == BLANK.(extra := prev.extra) && next == BLANK.(extra := next.extra)
    ensures Findings(prev, next, "$", profile) == ExtraFindings(prev, next, "$", profile)
  {
    OnlyExtraScalars(prev, next, profile);
    hide Findings, ScalarFindings, ExtraFindings;
    FindingsAreParts(prev, next, "$", profile);
    var p := Parts(prev, next, "$", profile);
    assert p[0] == p[1] == p[2] == p[3] == p[4] == p[6] == p[7] == p[8] == p[9] == [];
    assert [] + p[5] == p[5];
  }

  lemma OnlyExtraScalars(prev: Schema, next: Schema, profile: Mode)
    requires prev == BLANK.(extra := prev.extra) && next == BLANK.(extra := next.extra)
    ensures ScalarFindings(prev, next, "$", profile) == []
  {
  }

  lemma DeclaredFieldIsAccepted(key: string, s: Schema, env: Env)
    requires SafeEnv(env) && s == BLANK.(properties := Named([Field(key, BLANK)]), extra := s.extra)
    ensures Accepts(OneField(key, Null), s, env, {})
  {
    NoConditionNoComposition(OneField(key, Null), s, env);
    BlankAcceptsAll(Null, env);
    var fields := [Field(key, Null)];
    assert Props(s)[0].key == key && HasKey(Props(s), key);
    assert ObjectOk(fields, s, env, {});
  }

  /** A property removed from a schema falls under what is asked of the undeclared ones. */
  lemma RemovedPropertiesAreMissed(key: string, env: Env)
    requires SafeEnv(env)
    ensures Missed(OneField(key, Null), BLANK.(properties := Named([Field(key, BLANK)]), extra := Governed(Nothing())),
                   BLANK.(extra := Governed(Nothing())), TolerantReader, env)
  {
    var next := BLANK.(extra := Governed(Nothing()));
    var prev := next.(properties := Named([Field(key, BLANK)]));
    RemovedPropertyReport(prev, next, key);
    DeclaredFieldIsAccepted(key, prev, env);
    NothingRefuses(Null, env, {});
    hide Accepts, Findings;
    var fields := [Field(key, Null)];
    assert !Accepts(fields[0].value, Nothing(), env, {});
    assert !HasKey(Props(next), fields[0].key) && !MatchesAnyPattern(fields[0].key, [], env);
    RefusedField(fields, next, env);
  }

  lemma RemovedPropertyReport(prev: Schema, next: Schema, key: string)
    requires next == BLANK.(extra := Governed(Nothing())) && prev == next.(properties := Named([Field(key, BLANK)]))
    ensures NoBreaking(Findings(prev, next, "$", TolerantReader))
  {
    assert ScalarFindings(prev, next, "$", TolerantReader) == [];
    ReportOnChildren(prev, next, TolerantReader);
    assert PropertyFindings(prev, next, "$", TolerantReader, 0) == [];
    assert NoBreaking(PropertyFindings(prev, next, "$", TolerantReader, 1));
    assert AllAdded(prev, next, "$", TolerantReader, 0) == [];
    hide Findings, AllAdded, ScalarFindings, NoBreaking, PropertyFindings;
    assert Findings(prev, next, "$", TolerantReader) == PropertyFindings(prev, next, "$", TolerantReader, 1);
  }

  /** A pattern dropped from a closed schema. */
  lemma DroppedPatternsAreMissed(key: string, pattern: string, profile: Mode, env: Env)
    requires SafeEnv(env) && env.mode != TolerantReader && env.regex(pattern, key)
    ensures Missed(OneField(key, Null), BLANK.(patternProperties := [Field(pattern, BLANK)], extra := Forbidden),
                   BLANK.(extra := Forbidden), profile, env)
  {
    var next := BLANK.(extra := Forbidden);
    var prev := next.(patternProperties := [Field(pattern, BLANK)]);
    SilentReport(prev, next, profile);
    ClosedRefuses(key, next, env);
    MatchedFieldIsAccepted(key, pattern, env);
    hide Accepts, Findings;
  }

  lemma MatchedFieldIsAccepted(key: string, pattern: string, env: Env)
    requires SafeEnv(env) && env.regex(pattern, key)
    ensures Accepts(OneField(key, Null), BLANK.(patternProperties := [Field(pattern, BLANK)], extra := Forbidden), env,
      {})
  {
    var s := BLANK.(patternProperties := [Field(pattern, BLANK)], extra := Forbidden);
    NoConditionNoComposition(OneField(key, Null), s, env);
    BlankAcceptsAll(Null, env);
    var fields := [Field(key, Null)];
    assert env.regex(s.patternProperties[0].key, key) && MatchesAnyPattern(key, s.patternProperties, env);
    assert ObjectOk(fields, s, env, {});
  }

  // ---------------------------------------------------------------- values and references

  /** Without other keywords, `const` and `enum` decide alone. */
  lemma ValueDecides(v: Json, s: Schema, env: Env)
    requires SafeEnv(env) && s == BLANK.(constant := s.constant, enumeration := s.enumeration)
    ensures Accepts(v, s, env, {}) <==> ValueOk(v, s)
  {
    hide ValueOk;
    NoConditionNoComposition(v, s, env);
    match v
    case Arr(items) => assert ArrayOk(items, s, env, {});
    case Obj(fields) => assert ObjectOk(fields, s, env, {});
    case _ =>
  }

  lemma ChangedConstantsAreMissed(v: Json, w: Json, profile: Mode, env: Env)
    requires SafeEnv(env) && !SameJson(v, w)
    ensures Missed(v, BLANK.(constant := Some(v)), BLANK.(constant := Some(w)), profile, env)
  {
    var prev, next := BLANK.(constant := Some(v)), BLANK.(constant := Some(w));
    SilentReport(prev, next, profile);
    ValueDecides(v, prev, env);
    ValueDecides(v, next, env);
    hide Findings, Canonicalize, Accepts;
    assert SameJson(v, v) && ValueOk(v, prev) && !ValueOk(v, next);
  }

  /** Values that differ only under a nested key are exchanged without a word. */
  lemma NestedEnumIsMissed(x: Json, y: Json, profile: Mode, env: Env)
    requires SafeEnv(env) && WellFormed(x) && WellFormed(y) && !Same(x, y)
    ensures Missed(Nested(x), BLANK.(enumeration := Some([Nested(x)])), BLANK.(enumeration := Some([Nested(y)])),
      profile, env)
  {
    NestedLooksTheSame(x, y);
    hide Nested, Same, Missed, WellFormed, Canonicalize, LooselySame, SameJson;
    EnumIsMissed(Nested(x), Nested(y), profile, env);
  }

  lemma EnumIsMissed(v: Json, w: Json, profile: Mode, env: Env)
    requires SafeEnv(env) && LooselySame(v, w) && !SameJson(v, w)
    ensures Missed(v, BLANK.(enumeration := Some([v])), BLANK.(enumeration := Some([w])), profile, env)
  {
    var prev, next := BLANK.(enumeration := Some([v])), BLANK.(enumeration := Some([w]));
    EnumReport(v, w, profile);
    SilentReport(prev, next, profile);
    ValueDecides(v, prev, env);
    ValueDecides(v, next, env);
    hide Findings, Canonicalize, LooselySame, Accepts;
    assert SameJson(v, prev.enumeration.value[0]);
    assert ValueOk(v, prev);
    NotListed(v, w, next);
  }

  lemma NotListed(v: Json, w: Json, s: Schema)
    requires s.enumeration == Some([w]) && !SameJson(v, w)
    ensures !ValueOk(v, s)
  {
  }

  lemma EnumReport(v: Json, w: Json, profile: Mode)
    requires LooselySame(v, w)
    ensures EnumFindings(BLANK.(enumeration := Some([v])), BLANK.(enumeration := Some([w])), "$", profile) == []
  {
    var before, after := [v], [w];
    assert LooselySame(w, v);
    hide LooselySame;
    assert HasLooselySame(after, v) by { assert LooselySame(after[0], v); }
    assert HasLooselySame(before, w) by { assert LooselySame(before[0], w); }
  }

  lemma NestedLooksTheSame(x: Json, y: Json)
    requires WellFormed(x) && WellFormed(y) && !Same(x, y)
    ensures LooselySame(Nested(x), Nested(y)) && LooselySame(Nested(y), Nested(x)) && !SameJson(Nested(x), Nested(y))
  {
    NestedProjection(x);
    NestedProjection(y);
    NestedKeepsDifference(x, y);
    hide Project, KeysOf, Canonicalize, Same, WellFormed, Nested;
    CanonicalIsFaithful(Nested(x), Nested(y));
  }

  lemma OneFieldSame(x: Json, y: Json)
    requires WellFormed(x)
    ensures WellFormed(OneField("a", x)) && (Same(OneField("a", x), OneField("a", y)) ==> Same(x, y))
  {
    var a, b := OneField("a", x), OneField("a", y);
    if Same(a, b) {
      var j :| 0 <= j < |b.fields| && a.fields[0].key == b.fields[j].key && Same(a.fields[0].value, b.fields[j].value);
    }
  }

  lemma NestedKeepsDifference(x: Json, y: Json)
    requires WellFormed(x) && WellFormed(y)
    ensures WellFormed(Nested(x)) && WellFormed(Nested(y)) && (Same(Nested(x), Nested(y)) ==> Same(x, y))
  {
    OneFieldSame(x, y);
    OneFieldSame(y, x);
    hide OneField;
    assert Nested(x).items[0] == OneField("a", x) && Nested(y).items[0] == OneField("a", y);
  }

  function Nested(x: Json): Json { Arr([OneField("a", x)]) }

  lemma NestedProjection(x: Json)
    ensures Project(Nested(x), KeysOf(Nested(x))) == Arr([Obj([])])
  {
    assert KeysOf(Nested(x)) == {NumberText(0)};
    assert NumberText(0) == "0";
    var o := OneField("a", x);
    assert ProjectFields(o.fields, {"0"}) == [];
    assert ProjectAll([o], {"0"}) == [Project(o, {"0"})];
  }

  /** A reference given up for keywords of the schema's own. */
  lemma DroppedReferencesAreMissed(v: Json, name: string, profile: Mode, env: Env)
    requires SafeEnv(env) && name in env.refs && Accepts(v, env.refs[name], env, {name})
    ensures Missed(v, BLANK.(ref := Some(name)), Nothing(), profile, env)
  {
    var prev := BLANK.(ref := Some(name));
    assert {} + {name} == {name};
    SilentReport(prev, Nothing(), profile);
    NothingRefuses(v, env, {});
    assert Accepts(v, prev, env, {});
  }

  // ---------------------------------------------------------------- exactly one

  function AtMostSchema(n: int): Schema { BLANK.(maximum := Some(n), classification := Some(Public)) }

  function AtLeastSchema(n: int): Schema { BLANK.(minimum := Some(n), classification := Some(Public)) }

  lemma WiderBoundIsSilent(low: int, high: int, path: string, profile: Mode)
    requires low <= high
    ensures Findings(AtMostSchema(low), AtMostSchema(high), path, profile) == []
    ensures Findings(AtLeastSchema(high), AtLeastSchema(high), path, profile) == []
  {
  }

  lemma AtMostMatches(v: int, n: int, env: Env)
    requires SafeEnv(env)
    ensures Matches(Num(v), AtMostSchema(n), env) <==> v <= n
  {
    NoConditionNoComposition(Num(v), AtMostSchema(n), env);
  }

  lemma AtLeastMatches(v: int, n: int, env: Env)
    requires SafeEnv(env)
    ensures Matches(Num(v), AtLeastSchema(n), env) <==> v >= n
  {
    NoConditionNoComposition(Num(v), AtLeastSchema(n), env);
  }

  function Either(low: int, high: int): Schema { BLANK.(oneOf := Of([AtMostSchema(low), AtLeastSchema(high)])) }

  lemma OnlyOneOf(v: int, s: Schema, env: Env)
    requires SafeEnv(env) && s == BLANK.(oneOf := s.oneOf)
    ensures Accepts(Num(v), s, env, {}) <==> OneOfOk(Num(v), s, env)
  {
    hide OneOfOk, Matches;
    assert ConditionOk(Num(v), s, env, {}) && AllOfOk(Num(v), s, env, {}) && AnyOfOk(Num(v), s, env);
    assert CompositionOk(Num(v), s, env, {}) <==> OneOfOk(Num(v), s, env);
  }

  lemma EitherAccepts(v: int, low: int, high: int, env: Env)
    requires SafeEnv(env)
    ensures Accepts(Num(v), Either(low, high), env, {}) <==> (v <= low <==> v < high)
  {
    var s := Either(low, high);
    AtMostMatches(v, low, env);
    AtLeastMatches(v, high, env);
    hide Matches, AtMostSchema, AtLeastSchema;
    OnlyOneOf(v, s, env);
    hide Accepts;
    assert s.oneOf.schemas[0] == AtMostSchema(low) && s.oneOf.schemas[1] == AtLeastSchema(high);
    assert OneOfOk(Num(v), s, env) <==> (v <= low <==> v < high);
  }

  /** Every alternative of a `oneOf` is only relaxed, and yet a value that matched one now matches two. */
  lemma WidenedOneOfIsMissed(profile: Mode, env: Env)
    requires SafeEnv(env)
    ensures Findings(Either(0, 5), Either(10, 5), "$", profile) == []
    ensures Missed(Num(7), Either(0, 5), Either(10, 5), profile, env)
  {
    EitherAccepts(7, 0, 5, env);
    EitherAccepts(7, 10, 5, env);
    WidenedOneOfReport(profile);
    hide Accepts, Findings, Either;
  }

  lemma WidenedOneOfReport(profile: Mode)
    ensures Findings(Either(0, 5), Either(10, 5), "$", profile) == []
  {
    hide Findings, ScalarFindings, PropertyFindings, AllAdded, ChoiceFindings, AtMostSchema, AtLeastSchema, ChildPath;
    var prev, next := Either(0, 5), Either(10, 5);
    WiderBoundIsSilent(0, 10, ChildPath("$", OneOf, 0), profile);
    WiderBoundIsSilent(5, 5, ChildPath("$", OneOf, 1), profile);
    OnlyOneOfReport(prev, next, profile);
    ReportOnChildren(prev, next, profile);
    TwoChildrenReport(prev, next, profile);
  }

  lemma OnlyOneOfReport(prev: Schema, next: Schema, profile: Mode)
    requires prev == BLANK.(oneOf := prev.oneOf) && next == BLANK.(oneOf := next.oneOf)
    ensures ScalarFindings(prev, next, "$", profile) == []
    ensures PropertyFindings(prev, next, "$", profile, |Props(prev)|) == []
    ensures AllAdded(prev, next, "$", profile, |Props(next)|) == []
    ensures ChoiceFindings(prev, next, AllOf, "$", profile) == []
    ensures ChoiceFindings(prev, next, AnyOf, "$", profile) == []
  {
  }

  lemma TwoChildrenReport(prev: Schema, next: Schema, profile: Mode)
    requires prev.oneOf.Of? && next.oneOf.Of? && |prev.oneOf.schemas| == |next.oneOf.schemas| == 2
    requires forall i: nat :: i < 2 ==>
      Findings(prev.oneOf.schemas[i], next.oneOf.schemas[i], ChildPath("$", OneOf, i), profile) == []
    ensures ChoiceFindings(prev, next, OneOf, "$", profile) == []
  {
    hide Findings, ChildPath;
    var before, after := prev.oneOf.schemas, next.oneOf.schemas;
    assert PairwiseFindings(prev, before, after, OneOf, "$", profile, 0) == [];
    assert PairwiseFindings(prev, before, after, OneOf, "$", profile, 1) == [];
    assert PairwiseFindings(prev, before, after, OneOf, "$", profile, 2) == [];
  }
}
