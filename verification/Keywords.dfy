/**
 * What each keyword of a schema asks of a value, told one keyword at a time: a schema accepts exactly
 * what each of its keywords accepts on its own.
 */
module Keywords {
  import opened Wrappers
  import opened Json
  import opened Canonical
  import opened CanonicalRoundTrip
  import opened Schema

  // ---------------------------------------------------------------- one keyword at a time

  function ConditionPart(s: Schema): Schema {
    BLANK.(condition := s.condition, consequent := s.consequent, alternative := s.alternative)
  }

  function AllOfPart(s: Schema): Schema { BLANK.(allOf := s.allOf) }

  function AnyOfPart(s: Schema): Schema { BLANK.(anyOf := s.anyOf) }

  function OneOfPart(s: Schema): Schema { BLANK.(oneOf := s.oneOf) }

  function ConstantPart(s: Schema): Schema { BLANK.(constant := s.constant) }

  function EnumPart(s: Schema): Schema { BLANK.(enumeration := s.enumeration) }

  function TypePart(s: Schema): Schema { BLANK.(types := s.types) }

  function TextPart(s: Schema): Schema {
    BLANK.(minLength := s.minLength, maxLength := s.maxLength, pattern := s.pattern, format := s.format)
  }

  function NumberPart(s: Schema): Schema { BLANK.(minimum := s.minimum, maximum := s.maximum) }

  function ListPart(s: Schema): Schema {
    BLANK.(minItems := s.minItems, maxItems := s.maxItems, uniqueItems := s.uniqueItems, items := s.items)
  }

  function RequiredPart(s: Schema): Schema { BLANK.(required := s.required) }

  function ObjectPart(s: Schema): Schema {
    BLANK.(properties := s.properties, patternProperties := s.patternProperties, extra := s.extra)
  }

  /** What is asked of a value of its own kind. */
  ghost predicate KindOk(v: Json, s: Schema, env: Env, stack: set<string>)
    requires SafeEnv(env)
  {
    match v
    case Str(text) => StringOk(text, s, env)
    case Num(n) => NumberOk(n, s)
    case Arr(items) => ArrayOk(items, s, env, stack)
    case Obj(fields) => ObjectOk(fields, s, env, stack)
    case _ => true
  }

  lemma AcceptsApart(v: Json, s: Schema, env: Env, stack: set<string>)
    requires s.ref.None? && SafeEnv(env)
    ensures Accepts(v, s, env, stack) <==>
      && ConditionOk(v, s, env, stack) && AllOfOk(v, s, env, stack) && AnyOfOk(v, s, env) && OneOfOk(v, s, env)
      && ValueOk(v, s) && KindOk(v, s, env, stack)
  {
    hide ConditionOk, AllOfOk, AnyOfOk, OneOfOk, ValueOk, StringOk, NumberOk, ArrayOk, ObjectOk, SafeEnv;
  }

  /** A schema without compositions and conditions. */
  predicate Flat(s: Schema) {
    s.ref.None? && s.condition.None? && s.allOf.NoChoice? && s.anyOf.NoChoice? && s.oneOf.NoChoice?
  }

  lemma FlatAccepts(v: Json, s: Schema, env: Env, stack: set<string>)
    requires Flat(s) && SafeEnv(env)
    ensures Accepts(v, s, env, stack) <==> ValueOk(v, s) && KindOk(v, s, env, stack)
  {
    AcceptsApart(v, s, env, stack);
    hide Accepts, ValueOk, KindOk;
  }

  /** Nothing is asked of any value of its own kind. */
  predicate Kindless(s: Schema) {
    && s.minLength.None? && s.maxLength.None? && s.pattern.None? && s.format.None? && s.minimum.None? && s.maximum.None?
    && s.minItems.None? && s.maxItems.None? && s.uniqueItems.None? && s.items.None? && s.required == []
    && s.properties.NoTable? && s.patternProperties == [] && s.extra.Allowed?
  }

  lemma KindlessAcceptsAll(v: Json, s: Schema, env: Env, stack: set<string>)
    requires Kindless(s) && SafeEnv(env)
    ensures KindOk(v, s, env, stack)
  {
  }

  predicate Valueless(s: Schema) { s.constant.None? && s.enumeration.None? && s.types.None? }

  // ---------------------------------------------------------------- conditions

  /** A schema that holds nothing but `if`, `then` and `else`. */
  predicate OnlyCondition(s: Schema) { s == ConditionPart(s) }

  lemma OnlyConditionAccepts(v: Json, s: Schema, env: Env, stack: set<string>)
    requires OnlyCondition(s) && SafeEnv(env)
    ensures Accepts(v, s, env, stack) <==> ConditionOk(v, s, env, stack)
  {
    AcceptsApart(v, s, env, stack);
    KindlessAcceptsAll(v, s, env, stack);
    hide Accepts, ConditionOk;
  }

  /** `then` is for the values that match the condition, and `else` is for the others. */
  lemma ConditionChooses(v: Json, s: Schema, env: Env, stack: set<string>)
    requires OnlyCondition(s) && s.condition.Some? && SafeEnv(env)
    ensures Matches(v, s.condition.value, env) ==>
      (Accepts(v, s, env, stack) <==> s.consequent.None? || Accepts(v, s.consequent.value, env, stack))
    ensures !Matches(v, s.condition.value, env) ==>
      (Accepts(v, s, env, stack) <==> s.alternative.None? || Accepts(v, s.alternative.value, env, stack))
  {
    OnlyConditionAccepts(v, s, env, stack);
    hide Accepts, Matches;
  }

  /** One branch that refuses everything, and the other one absent: both outcomes of the condition show. */
  lemma EachBranchDecides(v: Json, c: Schema, env: Env, stack: set<string>)
    requires SafeEnv(env)
    ensures var refuse := BLANK.(enumeration := Some([]));
      && (Accepts(v, BLANK.(condition := Some(c), consequent := Some(refuse)), env, stack) <==> !Matches(v, c, env))
      && (Accepts(v, BLANK.(condition := Some(c), alternative := Some(refuse)), env, stack) <==> Matches(v, c, env))
  {
    var refuse := BLANK.(enumeration := Some([]));
    assert !Accepts(v, refuse, env, stack) by { assert !ValueOk(v, refuse); }
    hide Accepts, Matches, SafeEnv;
    ConditionChooses(v, BLANK.(condition := Some(c), consequent := Some(refuse)), env, stack);
    ConditionChooses(v, BLANK.(condition := Some(c), alternative := Some(refuse)), env, stack);
  }

  // ---------------------------------------------------------------- compositions

  lemma OnlyCompositionAccepts(v: Json, s: Schema, env: Env, stack: set<string>)
    requires s == BLANK.(allOf := s.allOf, anyOf := s.anyOf, oneOf := s.oneOf) && SafeEnv(env)
    ensures Accepts(v, s, env, stack) <==> AllOfOk(v, s, env, stack) && AnyOfOk(v, s, env) && OneOfOk(v, s, env)
  {
    AcceptsApart(v, s, env, stack);
    KindlessAcceptsAll(v, s, env, stack);
    hide Accepts, AllOfOk, AnyOfOk, OneOfOk, Matches;
  }

  lemma AllOfMeansAll(v: Json, schemas: seq<Schema>, env: Env, stack: set<string>)
    requires SafeEnv(env)
    ensures Accepts(v, BLANK.(allOf := Of(schemas)), env, stack) <==>
      forall i :: 0 <= i < |schemas| ==> Accepts(v, schemas[i], env, stack)
  {
    OnlyCompositionAccepts(v, BLANK.(allOf := Of(schemas)), env, stack);
    hide Accepts;
  }

  lemma AnyOfMeansSome(v: Json, schemas: seq<Schema>, env: Env, stack: set<string>)
    requires SafeEnv(env)
    ensures Accepts(v, BLANK.(anyOf := Of(schemas)), env, stack) <==>
      exists i :: 0 <= i < |schemas| && Matches(v, schemas[i], env)
  {
    OnlyCompositionAccepts(v, BLANK.(anyOf := Of(schemas)), env, stack);
    hide Accepts, Matches;
  }

  /** The places of the schemas that the value matches. */
  ghost function Matching(v: Json, schemas: seq<Schema>, env: Env): set<nat>
    requires SafeEnv(env)
  {
    set i: nat | i < |schemas| && Matches(v, schemas[i], env)
  }

  lemma OneOfMeansOne(v: Json, schemas: seq<Schema>, env: Env, stack: set<string>)
    requires SafeEnv(env)
    ensures Accepts(v, BLANK.(oneOf := Of(schemas)), env, stack) <==> |Matching(v, schemas, env)| == 1
  {
    OnlyCompositionAccepts(v, BLANK.(oneOf := Of(schemas)), env, stack);
    hide Accepts, Matches, SafeEnv;
    if |Matching(v, schemas, env)| == 1 { OneMatchIsOnly(v, schemas, env); } else { OnlyMatchIsOne(v, schemas, env); }
    hide Matching;
  }

  lemma OneMatchIsOnly(v: Json, schemas: seq<Schema>, env: Env)
    requires SafeEnv(env) && |Matching(v, schemas, env)| == 1
    ensures exists i :: 0 <= i < |schemas| && Matches(v, schemas[i], env)
    ensures forall i, j :: 0 <= i < j < |schemas| ==> !(Matches(v, schemas[i], env) && Matches(v, schemas[j], env))
  {
    hide Matches;
    var which := Matching(v, schemas, env);
    var m :| m in which;
    Singleton(which, m);
    assert forall i: nat :: i < |schemas| && Matches(v, schemas[i], env) ==> i in which;
  }

  lemma OnlyMatchIsOne(v: Json, schemas: seq<Schema>, env: Env)
    requires SafeEnv(env) && |Matching(v, schemas, env)| != 1
    ensures (forall i :: 0 <= i < |schemas| ==> !Matches(v, schemas[i], env)) ||
      exists i, j :: 0 <= i < j < |schemas| && Matches(v, schemas[i], env) && Matches(v, schemas[j], env)
  {
    hide Matches;
    var which := Matching(v, schemas, env);
    if m :| m in which {
      assert which != {m};
      var n :| n in which && n != m;
      assert (m < n || n < m) && Matches(v, schemas[m], env) && Matches(v, schemas[n], env);
    } else {
      forall i: nat | i < |schemas| ensures !Matches(v, schemas[i], env) { assert i !in which; }
    }
  }

  lemma Singleton<T>(a: set<T>, x: T)
    requires x in a && |a| == 1
    ensures a == {x}
  {
    assert |a - {x}| == 0;
  }

  // ---------------------------------------------------------------- values

  lemma OnlyValueAccepts(v: Json, s: Schema, env: Env, stack: set<string>)
    requires s == BLANK.(constant := s.constant, enumeration := s.enumeration, types := s.types) && SafeEnv(env)
    ensures Accepts(v, s, env, stack) <==> ValueOk(v, s)
  {
    FlatAccepts(v, s, env, stack);
    KindlessAcceptsAll(v, s, env, stack);
    hide Accepts, ValueOk;
  }

  lemma ConstMeansSame(v: Json, w: Json, env: Env, stack: set<string>)
    requires SafeEnv(env) && WellFormed(v) && WellFormed(w)
    ensures Accepts(v, BLANK.(constant := Some(w)), env, stack) <==> Same(v, w)
  {
    OnlyValueAccepts(v, BLANK.(constant := Some(w)), env, stack);
    CanonicalIsFaithful(v, w);
    hide Accepts, Same, Canonicalize, WellFormed;
  }

  lemma EnumMeansListed(v: Json, values: seq<Json>, env: Env, stack: set<string>)
    requires SafeEnv(env) && WellFormed(v) && forall i :: 0 <= i < |values| ==> WellFormed(values[i])
    ensures Accepts(v, BLANK.(enumeration := Some(values)), env, stack) <==>
      exists i :: 0 <= i < |values| && Same(v, values[i])
  {
    OnlyValueAccepts(v, BLANK.(enumeration := Some(values)), env, stack);
    hide Accepts, Same, Canonicalize, WellFormed;
    forall i | 0 <= i < |values| ensures SameJson(v, values[i]) <==> Same(v, values[i]) {
      CanonicalIsFaithful(v, values[i]);
    }
    hide SameJson;
  }

  /** The names by which a value can be asked for; the numbers of the model are integers. */
  function NamesOf(v: Json): set<string> {
    match v
    case Null => {"null"}
    case Bool(_) => {"boolean"}
    case Num(_) => {"number", "integer"}
    case Str(_) => {"string"}
    case Arr(_) => {"array"}
    case Obj(_) => {"object"}
  }

  lemma TypeMeansNamed(v: Json, name: string, names: seq<string>, env: Env, stack: set<string>)
    requires SafeEnv(env)
    ensures Accepts(v, BLANK.(types := Some(One(name))), env, stack) <==> name in NamesOf(v)
    ensures Accepts(v, BLANK.(types := Some(Many(names))), env, stack) <==> exists n :: n in names && n in NamesOf(v)
  {
    OnlyValueAccepts(v, BLANK.(types := Some(One(name))), env, stack);
    OnlyValueAccepts(v, BLANK.(types := Some(Many(names))), env, stack);
    hide Accepts;
    assert forall n :: HasType(v, n) <==> n in NamesOf(v);
    hide HasType, NamesOf;
  }

  // ---------------------------------------------------------------- values of one kind

  lemma OnlyKindAccepts(v: Json, s: Schema, env: Env, stack: set<string>)
    requires Flat(s) && Valueless(s) && SafeEnv(env)
    ensures Accepts(v, s, env, stack) <==> KindOk(v, s, env, stack)
  {
    FlatAccepts(v, s, env, stack);
    hide Accepts, KindOk;
  }

  /** Lengths count characters; an empty pattern and an unknown format ask for nothing. */
  lemma TextBounds(v: Json, s: Schema, env: Env, stack: set<string>)
    requires s == TextPart(s) && SafeEnv(env)
    ensures Accepts(v, s, env, stack) <==> v.Str? ==>
      && (s.minLength.Some? ==> s.minLength.value <= |v.s|) && (s.maxLength.Some? ==> |v.s| <= s.maxLength.value)
      && (s.pattern.None? || s.pattern.value == "" || env.regex(s.pattern.value, v.s))
      && (s.format != Some("date-time") || env.dateTime(v.s)) && (s.format != Some("uri") || env.uri(v.s))
  {
    OnlyKindAccepts(v, s, env, stack);
    hide Accepts;
  }

  lemma NumberBounds(v: Json, s: Schema, env: Env, stack: set<string>)
    requires s == NumberPart(s) && SafeEnv(env)
    ensures Accepts(v, s, env, stack) <==> v.Num? ==>
      (s.minimum.Some? ==> s.minimum.value <= v.n) && (s.maximum.Some? ==> v.n <= s.maximum.value)
  {
    OnlyKindAccepts(v, s, env, stack);
    hide Accepts;
  }

  lemma ListBounds(v: Json, s: Schema, env: Env, stack: set<string>)
    requires s == ListPart(s) && SafeEnv(env) && WellFormed(v)
    ensures Accepts(v, s, env, stack) <==> v.Arr? ==>
      && (s.minItems.Some? ==> s.minItems.value <= |v.items|) && (s.maxItems.Some? ==> |v.items| <= s.maxItems.value)
      && (s.uniqueItems == Some(true) ==> forall i, j :: 0 <= i < j < |v.items| ==> !Same(v.items[i], v.items[j]))
      && (s.items.Some? ==> forall i :: 0 <= i < |v.items| ==> Accepts(v.items[i], s.items.value, env, stack))
  {
    OnlyKindAccepts(v, s, env, stack);
    hide Accepts;
    if v.Arr? {
      forall i, j | 0 <= i < j < |v.items|
        ensures Canonicalize(v.items[i]) != Canonicalize(v.items[j]) <==> !Same(v.items[i], v.items[j])
      {
        CanonicalIsFaithful(v.items[i], v.items[j]);
      }
      hide Canonicalize, Same, WellFormed;
    }
  }

  lemma RequiredMeansPresent(v: Json, keys: seq<string>, env: Env, stack: set<string>)
    requires SafeEnv(env)
    ensures Accepts(v, BLANK.(required := keys), env, stack) <==>
      v.Obj? ==> forall key :: key in keys ==> HasKey(v.fields, key)
  {
    var s := BLANK.(required := keys);
    OnlyKindAccepts(v, s, env, stack);
    hide Accepts;
    if v.Obj? {
      assert ObjectOk(v.fields, s, env, stack) <==> forall i :: 0 <= i < |keys| ==> HasKey(v.fields, keys[i]);
      hide HasKey, ObjectOk;
    }
  }

  /** The value stands under a key that is declared with this schema, or matches this schema's pattern. */
  ghost predicate Governs(s: Schema, key: string, child: Schema, env: Env) {
    || (exists i :: 0 <= i < |Props(s)| && Props(s)[i] == Field(key, child))
    || (exists i :: 0 <= i < |s.patternProperties| && env.regex(s.patternProperties[i].key, key) &&
          s.patternProperties[i].value == child)
  }

  /**
   * Whatever governs the field judges its value, declarations and patterns alike; `additionalProperties`
   * judges it, or forbids it except to tolerant readers, only when nothing else governs it.
   */
  ghost predicate FieldJudged(f: Field<Json>, s: Schema, env: Env, stack: set<string>)
    requires SafeEnv(env)
  {
    && (forall child :: Governs(s, f.key, child, env) ==> Accepts(f.value, child, env, stack))
    && ((forall child :: !Governs(s, f.key, child, env)) ==>
          match s.extra
          case Allowed => true
          case Forbidden => env.mode == TolerantReader
          case Governed(child) => Accepts(f.value, child, env, stack))
  }

  /** An object is judged field by field. */
  lemma FieldsAreJudged(v: Json, s: Schema, env: Env, stack: set<string>)
    requires s == ObjectPart(s) && SafeEnv(env)
    ensures Accepts(v, s, env, stack) <==>
      v.Obj? ==> forall k :: 0 <= k < |v.fields| ==> FieldJudged(v.fields[k], s, env, stack)
  {
    OnlyKindAccepts(v, s, env, stack);
    hide Accepts;
    if v.Obj? {
      forall k | 0 <= k < |v.fields|
        ensures FieldJudged(v.fields[k], s, env, stack) <==> FieldOk(v.fields[k], s, env, stack)
      {
        JudgedIff(v.fields[k], s, env, stack);
      }
      FieldsApart(v.fields, s, env, stack);
      hide ObjectOk, FieldJudged, FieldOk;
    }
  }

  ghost predicate FieldOk(f: Field<Json>, s: Schema, env: Env, stack: set<string>)
    requires SafeEnv(env)
  {
    && (forall i :: 0 <= i < |Props(s)| && Props(s)[i].key == f.key ==> Accepts(f.value, Props(s)[i].value, env, stack))
    && (forall i :: 0 <= i < |s.patternProperties| && env.regex(s.patternProperties[i].key, f.key) ==>
          Accepts(f.value, s.patternProperties[i].value, env, stack))
    && (!HasKey(Props(s), f.key) && !MatchesAnyPattern(f.key, s.patternProperties, env) ==>
          && (s.extra.Forbidden? ==> env.mode == TolerantReader)
          && (s.extra.Governed? ==> Accepts(f.value, s.extra.schema, env, stack)))
  }

  lemma FieldsApart(fields: seq<Field<Json>>, s: Schema, env: Env, stack: set<string>)
    requires SafeEnv(env) && s.required == []
    ensures ObjectOk(fields, s, env, stack) <==> forall k :: 0 <= k < |fields| ==> FieldOk(fields[k], s, env, stack)
  {
    hide Accepts, HasKey, MatchesAnyPattern;
  }

  lemma JudgedIff(f: Field<Json>, s: Schema, env: Env, stack: set<string>)
    requires SafeEnv(env)
    ensures FieldJudged(f, s, env, stack) <==> FieldOk(f, s, env, stack)
  {
    hide Accepts;
    forall i | 0 <= i < |Props(s)| && Props(s)[i].key == f.key ensures Governs(s, f.key, Props(s)[i].value, env) {
      assert Props(s)[i] == Field(f.key, Props(s)[i].value);
    }
    forall i | 0 <= i < |s.patternProperties| && env.regex(s.patternProperties[i].key, f.key)
      ensures Governs(s, f.key, s.patternProperties[i].value, env)
    {
    }
  }

  // ---------------------------------------------------------------- all keywords together

  /** A schema accepts exactly what each of its keywords accepts on its own; a reference stands alone. */
  lemma KeywordsAreIndependent(v: Json, s: Schema, env: Env, stack: set<string>)
    requires s.ref.None? && SafeEnv(env)
    ensures Accepts(v, s, env, stack) <==>
      && Accepts(v, ConditionPart(s), env, stack)
      && Accepts(v, AllOfPart(s), env, stack) && Accepts(v, AnyOfPart(s), env, stack)
      && Accepts(v, OneOfPart(s), env, stack)
      && Accepts(v, ConstantPart(s), env, stack) && Accepts(v, EnumPart(s), env, stack)
      && Accepts(v, TypePart(s), env, stack)
      && Accepts(v, TextPart(s), env, stack) && Accepts(v, NumberPart(s), env, stack)
      && Accepts(v, ListPart(s), env, stack) && Accepts(v, RequiredPart(s), env, stack)
      && Accepts(v, ObjectPart(s), env, stack)
  {
    AcceptsApart(v, s, env, stack);
    ConditionOnItsOwn(v, s, env, stack);
    AllOfOnItsOwn(v, s, env, stack);
    AnyOfOnItsOwn(v, s, env, stack);
    OneOfOnItsOwn(v, s, env, stack);
    ValuesOnTheirOwn(v, s, env, stack);
    KindsOnTheirOwn(v, s, env, stack);
    hide Accepts, ConditionOk, AllOfOk, AnyOfOk, OneOfOk, ValueOk, KindOk, ConditionPart, AllOfPart, AnyOfPart,
      OneOfPart,
      ConstantPart, EnumPart, TypePart, TextPart, NumberPart, ListPart, RequiredPart, ObjectPart;
  }

  lemma ConditionOnItsOwn(v: Json, s: Schema, env: Env, stack: set<string>)
    requires s.ref.None? && SafeEnv(env)
    ensures Accepts(v, ConditionPart(s), env, stack) <==> ConditionOk(v, s, env, stack)
  {
    OnlyConditionAccepts(v, ConditionPart(s), env, stack);
    hide Accepts, Matches, SafeEnv;
  }

  lemma AllOfOnItsOwn(v: Json, s: Schema, env: Env, stack: set<string>)
    requires s.ref.None? && SafeEnv(env)
    ensures Accepts(v, AllOfPart(s), env, stack) <==> AllOfOk(v, s, env, stack)
  {
    OnlyCompositionAccepts(v, AllOfPart(s), env, stack);
    hide Accepts, Matches, SafeEnv;
  }

  lemma AnyOfOnItsOwn(v: Json, s: Schema, env: Env, stack: set<string>)
    requires s.ref.None? && SafeEnv(env)
    ensures Accepts(v, AnyOfPart(s), env, stack) <==> AnyOfOk(v, s, env)
  {
    OnlyCompositionAccepts(v, AnyOfPart(s), env, stack);
    hide Accepts, Matches, SafeEnv;
  }

  lemma OneOfOnItsOwn(v: Json, s: Schema, env: Env, stack: set<string>)
    requires s.ref.None? && SafeEnv(env)
    ensures Accepts(v, OneOfPart(s), env, stack) <==> OneOfOk(v, s, env)
  {
    OnlyCompositionAccepts(v, OneOfPart(s), env, stack);
    hide Accepts, Matches, SafeEnv;
  }

  lemma ValuesOnTheirOwn(v: Json, s: Schema, env: Env, stack: set<string>)
    requires SafeEnv(env)
    ensures ValueOk(v, s) <==>
      Accepts(v, ConstantPart(s), env, stack) && Accepts(v, EnumPart(s), env, stack) &&
        Accepts(v, TypePart(s), env, stack)
  {
    OnlyValueAccepts(v, ConstantPart(s), env, stack);
    OnlyValueAccepts(v, EnumPart(s), env, stack);
    OnlyValueAccepts(v, TypePart(s), env, stack);
    hide Accepts, SameJson, MatchesType, SafeEnv;
  }

  lemma KindsOnTheirOwn(v: Json, s: Schema, env: Env, stack: set<string>)
    requires SafeEnv(env)
    ensures KindOk(v, s, env, stack) <==>
      && Accepts(v, TextPart(s), env, stack) && Accepts(v, NumberPart(s), env, stack)
      && Accepts(v, ListPart(s), env, stack)
      && Accepts(v, RequiredPart(s), env, stack) && Accepts(v, ObjectPart(s), env, stack)
  {
    OnlyKindAccepts(v, TextPart(s), env, stack);
    OnlyKindAccepts(v, NumberPart(s), env, stack);
    OnlyKindAccepts(v, ListPart(s), env, stack);
    OnlyKindAccepts(v, RequiredPart(s), env, stack);
    OnlyKindAccepts(v, ObjectPart(s), env, stack);
    hide Accepts, SafeEnv;
  }

  // ---------------------------------------------------------------- definitions

  predicate Fits(n: int, low: Option<int>, high: Option<int>) {
    (low.Some? ==> low.value <= n) && (high.Some? ==> n <= high.value)
  }

  /** Some value goes by this name. */
  ghost predicate NamesSomething(name: string) { exists v: Json :: name in NamesOf(v) }

  /**
   * The checks on one schema object of a definition: types that values can have, lengths and item counts
   * that some number fits, a known classification other than secret, and, where every leaf has to be
   * classified, a classification or a keyword that leads on to other schemas.
   */
  lemma DefinitionCheckMeans(s: Schema, enforce: bool)
    ensures LocallyClean(s, enforce) <==>
      && s.unsupportedKeywords == []
      && (s.classification.Some? ==> s.classification.value in {Public, Internal, Personal, Sensitive})
      && (s.types.Some? && s.types.value.One? ==> NamesSomething(s.types.value.name))
      && (s.types.Some? && s.types.value.Many? ==> forall n :: n in s.types.value.names ==> NamesSomething(n))
      && (exists n :: Fits(n, s.minLength, s.maxLength)) && (exists n :: Fits(n, s.minItems, s.maxItems))
      && (enforce ==>
            || s.classification.Some? || s.ref.Some? || s.properties.Named? || s.items.Some? || s.allOf.Of?
            || s.anyOf.Of? || s.oneOf.Of? || s.defs.Named?
            || s.types == Some(One("object")) || s.types == Some(One("array")))
  {
    BoundsMeet(s.minLength, s.maxLength);
    BoundsMeet(s.minItems, s.maxItems);
    forall name ensures name in SUPPORTED_TYPES <==> NamesSomething(name) { SupportedNames(name); }
    hide NamesSomething, Fits, Exceeds, SUPPORTED_TYPES;
  }

  lemma BoundsMeet(low: Option<int>, high: Option<int>)
    ensures !Exceeds(low, high) <==> exists n :: Fits(n, low, high)
  {
    if !Exceeds(low, high) {
      var n := if low.Some? then low.value else if high.Some? then high.value else 0;
      assert Fits(n, low, high);
    }
  }

  lemma SupportedNames(name: string)
    ensures name in SUPPORTED_TYPES <==> NamesSomething(name)
  {
    assert "null" in NamesOf(Null) && "boolean" in NamesOf(Bool(true)) && "number" in NamesOf(Num(0));
    assert "integer" in NamesOf(Num(0)) && "string" in NamesOf(Str("")) && "array" in NamesOf(Arr([]));
    assert "object" in NamesOf(Obj([]));
  }
}
