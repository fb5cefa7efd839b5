/**
 * The JSON Schema subset of the integration contracts, what a clean definition is, and which
 * values a schema accepts.
 *
 * A schema is a finite tree; `$ref` is looked up in a finite table of what the references of the
 * root schema resolve to. `anyOf`, `oneOf` and `if` start again with an empty reference stack, so
 * references that lead through them back to themselves are excluded: on those validation never ends.
 */
module Schema {
  import opened Wrappers
  import opened Json
  import opened Canonical

  datatype TypeSpec = One(name: string) | Many(names: seq<string>)

  /** A possibly absent table of named schemas. */
  datatype Table = NoTable | Named(fields: seq<Field<Schema>>)

  /** A possibly absent `allOf`, `anyOf` or `oneOf`. */
  datatype Choice = NoChoice | Of(schemas: seq<Schema>)

  /** `additionalProperties`: absent or true, false, or a schema. */
  datatype Extra = Allowed | Forbidden | Governed(schema: Schema)

  datatype Classification = Public | Internal | Personal | Sensitive | Secret | Invalid(text: string)

  datatype Schema = Schema(
    ref: Option<string>,
    types: Option<TypeSpec>,
    required: seq<string>,
    properties: Table,
    patternProperties: seq<Field<Schema>>,
    extra: Extra,
    items: Option<Schema>,
    enumeration: Option<seq<Json>>,
    constant: Option<Json>,
    anyOf: Choice,
    oneOf: Choice,
    allOf: Choice,
    condition: Option<Schema>,
    consequent: Option<Schema>,
    alternative: Option<Schema>,
    pattern: Option<string>,
    format: Option<string>,
    minLength: Option<int>,
    maxLength: Option<int>,
    minimum: Option<int>,
    maximum: Option<int>,
    minItems: Option<int>,
    maxItems: Option<int>,
    uniqueItems: Option<bool>,
    defs: Table,
    classification: Option<Classification>,
    unsupportedKeywords: seq<string>)

  const BLANK := Schema(None, None, [], NoTable, [], Allowed, None, None, None, NoChoice, NoChoice, NoChoice,
                        None, None, None, None, None, None, None, None, None, None, None, None, NoTable, None, [])

  function Props(s: Schema): seq<Field<Schema>> { if s.properties.Named? then s.properties.fields else [] }

  datatype Mode = Strict | TolerantReader | ProviderCompatible

  /** What validation takes from outside: regular expressions, formats and the reference table. */
  datatype Env = Env(
    regex: (string, string) -> bool,
    dateTime: string -> bool,
    uri: string -> bool,
    refs: map<string, Schema>,
    mode: Mode,
    enforceClassification: bool)

  // ---------------------------------------------------------------- references

  /**
   * How many restarting keywords (`anyOf`, `oneOf`, `if`) can be met on one value before its parts are
   * looked at, if `levels` says as much for what each reference resolves to.
   */
  function Level(s: Schema, levels: map<string, nat>): nat {
    if s.ref.Some? then if s.ref.value in levels then levels[s.ref.value] else 0
    else Max(Max(ChoiceLevel(s.allOf, levels), Max(OneLevel(s.consequent, levels), OneLevel(s.alternative, levels))),
             Max(Restarted(s.anyOf, levels), Max(Restarted(s.oneOf, levels), RestartedOne(s.condition, levels))))
  }

  function Max(a: nat, b: nat): nat { if a < b then b else a }

  function OneLevel(s: Option<Schema>, levels: map<string, nat>): (n: nat)
    ensures s.Some? ==> Level(s.value, levels) <= n
  {
    if s.Some? then Level(s.value, levels) else 0
  }

  function ChoiceLevel(c: Choice, levels: map<string, nat>): (n: nat)
    ensures c.Of? ==> forall i :: 0 <= i < |c.schemas| ==> Level(c.schemas[i], levels) <= n
  {
    if c.Of? then ListLevel(c.schemas, levels) else 0
  }

  function RestartedOne(s: Option<Schema>, levels: map<string, nat>): (n: nat)
    ensures s.Some? ==> Level(s.value, levels) < n
  {
    if s.Some? then Level(s.value, levels) + 1 else 0
  }

  function Restarted(c: Choice, levels: map<string, nat>): (n: nat)
    ensures c.Of? ==> forall i :: 0 <= i < |c.schemas| ==> Level(c.schemas[i], levels) < n
  {
    if c.Of? then ListLevel(c.schemas, levels) + 1 else 0
  }

  function ListLevel(schemas: seq<Schema>, levels: map<string, nat>): (n: nat)
    ensures forall i :: 0 <= i < |schemas| ==> Level(schemas[i], levels) <= n
  {
    if schemas == [] then 0 else Max(Level(schemas[0], levels), ListLevel(schemas[1..], levels))
  }

  predicate AreLevels(levels: map<string, nat>, env: Env) {
    forall r :: r in env.refs ==> r in levels && Level(env.refs[r], levels) <= levels[r]
  }

  /** No chain of references comes back to where it was by way of a restarting keyword. */
  ghost predicate SafeEnv(env: Env) { exists levels :: AreLevels(levels, env) }

  ghost function Levels(env: Env): (levels: map<string, nat>)
    requires SafeEnv(env)
    ensures AreLevels(levels, env)
  {
    var levels :| AreLevels(levels, env);
    levels
  }

  /** How many restarts are ahead on this value. */
  ghost function Rank(s: Schema, env: Env): nat
    requires SafeEnv(env)
  {
    Level(s, Levels(env))
  }

  /** How many references can still be followed. */
  ghost function RefBudget(env: Env, stack: set<string>): nat { |env.refs.Keys - stack| }

  // ---------------------------------------------------------------- definitions

  const SUPPORTED_TYPES := ["null", "boolean", "object", "array", "number", "integer", "string"]

  predicate TypesSupported(t: TypeSpec) {
    match t
    case One(name) => name in SUPPORTED_TYPES
    case Many(names) => forall n :: n in names ==> n in SUPPORTED_TYPES
  }

  predicate IsUnclassifiedLeaf(s: Schema) {
    s.ref.None? && s.properties.NoTable? && s.items.None? && s.allOf.NoChoice? && s.anyOf.NoChoice? &&
      s.oneOf.NoChoice? && s.defs.NoTable?
    && s.types != Some(One("object")) && s.types != Some(One("array")) && s.classification.None?
  }

  predicate Exceeds(low: Option<int>, high: Option<int>) { low.Some? && high.Some? && low.value > high.value }

  /** The checks a definition makes on the schema object itself. */
  predicate LocallyClean(s: Schema, enforceClassification: bool) {
    && s.unsupportedKeywords == []
    && (s.classification.Some? ==> !s.classification.value.Invalid? && !s.classification.value.Secret?)
    && (s.types.Some? ==> TypesSupported(s.types.value))
    && !Exceeds(s.minLength, s.maxLength)
    && !Exceeds(s.minItems, s.maxItems)
    && (enforceClassification ==> !IsUnclassifiedLeaf(s))
  }

  /** `validateSchemaDefinition` raises no issue, here or in any subschema. */
  predicate DefinitionClean(s: Schema, enforce: bool) {
    && LocallyClean(s, enforce)
    && (s.properties.Named? ==>
      forall i :: 0 <= i < |s.properties.fields| ==> DefinitionClean(s.properties.fields[i].value, enforce))
    && (forall i :: 0 <= i < |s.patternProperties| ==> DefinitionClean(s.patternProperties[i].value, enforce))
    && (s.defs.Named? ==> forall i :: 0 <= i < |s.defs.fields| ==> DefinitionClean(s.defs.fields[i].value, enforce))
    && (s.allOf.Of? ==> forall i :: 0 <= i < |s.allOf.schemas| ==> DefinitionClean(s.allOf.schemas[i], enforce))
    && (s.anyOf.Of? ==> forall i :: 0 <= i < |s.anyOf.schemas| ==> DefinitionClean(s.anyOf.schemas[i], enforce))
    && (s.oneOf.Of? ==> forall i :: 0 <= i < |s.oneOf.schemas| ==> DefinitionClean(s.oneOf.schemas[i], enforce))
    && (s.items.Some? ==> DefinitionClean(s.items.value, enforce))
    && (s.condition.Some? ==> DefinitionClean(s.condition.value, enforce))
    && (s.consequent.Some? ==> DefinitionClean(s.consequent.value, enforce))
    && (s.alternative.Some? ==> DefinitionClean(s.alternative.value, enforce))
    && (s.extra.Governed? ==> DefinitionClean(s.extra.schema, enforce))
  }

  // ---------------------------------------------------------------- validity

  predicate HasType(v: Json, name: string) {
    match v
    case Null => name == "null"
    case Bool(_) => name == "boolean"
    case Num(_) => name == "number" || name == "integer"
    case Str(_) => name == "string"
    case Arr(_) => name == "array"
    case Obj(_) => name == "object"
  }

  predicate MatchesType(v: Json, t: TypeSpec) {
    match t
    case One(name) => HasType(v, name)
    case Many(names) => exists n :: n in names && HasType(v, n)
  }

  predicate SameJson(v: Json, w: Json) { Canonicalize(v) == Canonicalize(w) }

  predicate IsTrue(b: Option<bool>) { b.Some? && b.value }
  predicate IsFalse(b: Option<bool>) { b.Some? && !b.value }

  predicate AtLeast(n: int, bound: Option<int>) { bound.Some? ==> n >= bound.value }
  predicate AtMost(n: int, bound: Option<int>) { bound.Some? ==> n <= bound.value }

  predicate StringOk(text: string, s: Schema, env: Env) {
    && AtLeast(|text|, s.minLength) && AtMost(|text|, s.maxLength)
    && (s.pattern.Some? && s.pattern.value != "" ==> env.regex(s.pattern.value, text))
    && (s.format == Some("date-time") ==> env.dateTime(text))
    && (s.format == Some("uri") ==> env.uri(text))
  }

  predicate NumberOk(n: int, s: Schema) { AtLeast(n, s.minimum) && AtMost(n, s.maximum) }

  predicate AllDistinct(items: seq<Json>) {
    forall i, j :: 0 <= i < j < |items| ==> Canonicalize(items[i]) != Canonicalize(items[j])
  }

  predicate ValueOk(v: Json, s: Schema) {
    && (s.constant.Some? ==> SameJson(v, s.constant.value))
    && (s.enumeration.Some? ==> exists i :: 0 <= i < |s.enumeration.value| && SameJson(v, s.enumeration.value[i]))
    && (s.types.Some? ==> MatchesType(v, s.types.value))
  }

  predicate MatchesAnyPattern(key: string, patterns: seq<Field<Schema>>, env: Env) {
    exists i :: 0 <= i < |patterns| && env.regex(patterns[i].key, key)
  }

  /** `validate` raises no issue. */
  ghost predicate Accepts(v: Json, s: Schema, env: Env, stack: set<string>)
    requires SafeEnv(env)
    decreases v, Rank(s, env), RefBudget(env, stack), s, 2
  {
    if s.ref.Some? then
      var r := s.ref.value;
      r !in stack && r in env.refs &&
      (assert env.refs.Keys - stack == (env.refs.Keys - (stack + {r})) + {r};
       Accepts(v, env.refs[r], env, stack + {r}))
    else
      && ConditionOk(v, s, env, stack) && CompositionOk(v, s, env, stack) && ValueOk(v, s)
      && match v
         case Str(text) => StringOk(text, s, env)
         case Num(n) => NumberOk(n, s)
         case Arr(items) => ArrayOk(items, s, env, stack)
         case Obj(fields) => ObjectOk(fields, s, env, stack)
         case _ => true
  }

  /** `validateWithoutIssues`: the definition is checked again and the reference stack is empty. */
  ghost predicate Matches(v: Json, s: Schema, env: Env)
    requires SafeEnv(env)
    decreases v, Rank(s, env), RefBudget(env, {}), s, 3
  {
    DefinitionClean(s, env.enforceClassification) && Accepts(v, s, env, {})
  }

  ghost predicate ConditionOk(v: Json, s: Schema, env: Env, stack: set<string>)
    requires s.ref.None? && SafeEnv(env)
    decreases v, Rank(s, env), RefBudget(env, stack), s, 1
  {
    s.condition.Some? ==>
      if Matches(v, s.condition.value, env) then s.consequent.Some? ==> Accepts(v, s.consequent.value, env, stack)
      else s.alternative.Some? ==> Accepts(v, s.alternative.value, env, stack)
  }

  ghost predicate AllOfOk(v: Json, s: Schema, env: Env, stack: set<string>)
    requires s.ref.None? && SafeEnv(env)
    decreases v, Rank(s, env), RefBudget(env, stack), s, 0
  {
    s.allOf.Of? ==> forall i :: 0 <= i < |s.allOf.schemas| ==> Accepts(v, s.allOf.schemas[i], env, stack)
  }

  ghost predicate AnyOfOk(v: Json, s: Schema, env: Env)
    requires s.ref.None? && SafeEnv(env)
    decreases v, Rank(s, env), 0, s, 0
  {
    s.anyOf.Of? ==> exists i :: 0 <= i < |s.anyOf.schemas| && Matches(v, s.anyOf.schemas[i], env)
  }

  /** Exactly one of the alternatives matches. */
  ghost predicate OneOfOk(v: Json, s: Schema, env: Env)
    requires s.ref.None? && SafeEnv(env)
    decreases v, Rank(s, env), 0, s, 0
  {
    s.oneOf.Of? ==>
      (exists i :: 0 <= i < |s.oneOf.schemas| && Matches(v, s.oneOf.schemas[i], env))
      && forall i, j :: 0 <= i < j < |s.oneOf.schemas| ==>
        !(Matches(v, s.oneOf.schemas[i], env) && Matches(v, s.oneOf.schemas[j], env))
  }

  ghost predicate CompositionOk(v: Json, s: Schema, env: Env, stack: set<string>)
    requires s.ref.None? && SafeEnv(env)
    decreases v, Rank(s, env), RefBudget(env, stack), s, 1
  {
    AllOfOk(v, s, env, stack) && AnyOfOk(v, s, env) && OneOfOk(v, s, env)
  }

  ghost predicate ArrayOk(items: seq<Json>, s: Schema, env: Env, stack: set<string>)
    requires SafeEnv(env)
    decreases Arr(items), Rank(s, env), RefBudget(env, stack), s, 1
  {
    && AtLeast(|items|, s.minItems) && AtMost(|items|, s.maxItems)
    && (IsTrue(s.uniqueItems) ==> AllDistinct(items))
    && (s.items.Some? ==> forall i :: 0 <= i < |items| ==> Accepts(items[i], s.items.value, env, stack))
  }

  ghost predicate ObjectOk(fields: seq<Field<Json>>, s: Schema, env: Env, stack: set<string>)
    requires SafeEnv(env)
    decreases Obj(fields), Rank(s, env), RefBudget(env, stack), s, 1
  {
    && (forall i :: 0 <= i < |s.required| ==> HasKey(fields, s.required[i]))
    && (s.properties.Named? ==> forall i,
      k :: 0 <= i < |s.properties.fields| && 0 <= k < |fields| && s.properties.fields[i].key == fields[k].key ==>
          Accepts(fields[k].value, s.properties.fields[i].value, env, stack))
    && (forall i,
      k ::
      0 <= i < |s.patternProperties| && 0 <= k < |fields| && env.regex(s.patternProperties[i].key, fields[k].key) ==>
          Accepts(fields[k].value, s.patternProperties[i].value, env, stack))
    && (forall k ::
      0 <= k < |fields| && !HasKey(Props(s), fields[k].key) &&
      !MatchesAnyPattern(fields[k].key, s.patternProperties, env) ==>
          && (s.extra.Forbidden? ==> env.mode == TolerantReader)
          && (s.extra.Governed? ==> Accepts(fields[k].value, s.extra.schema, env, stack)))
  }

  /** `validateJsonSchema` returns no issue. */
  ghost predicate Valid(v: Json, s: Schema, env: Env)
    requires SafeEnv(env)
  {
    DefinitionClean(s, env.enforceClassification) && Accepts(v, s, env, {})
  }
}
