/** The validator as it runs: issues are pushed onto one list, which stays empty for a valid value. */
module Validator {
  import opened Wrappers
  import opened Json
  import opened Canonical
  import opened Schema

  datatype Issue = Issue(path: string, keyword: string)

  class SchemaValidator {
    const env: Env
    var issues: seq<Issue>

    constructor (env: Env)
      ensures this.env == env && issues == []
    {
      this.env := env;
      issues := [];
    }

    /** Issues are only ever added, and none is added exactly when `ok` holds. */
    twostate predicate Judged(ok: bool)
      reads this
    {
      |old(issues)| <= |issues| && (|issues| == |old(issues)| <==> ok)
    }

    method Report(path: string, keyword: string)
      modifies this`issues
      ensures issues == old(issues) + [Issue(path, keyword)]
    {
      issues := issues + [Issue(path, keyword)];
    }

    method ReportUnless(ok: bool, path: string, keyword: string)
      modifies this`issues
      ensures Judged(ok)
    {
      if !ok { Report(path, keyword); }
    }

    method ValidateString(text: string, s: Schema, path: string)
      modifies this`issues
      ensures Judged(StringOk(text, s, env))
    {
      ReportUnless(AtLeast(|text|, s.minLength), path, "minLength");
      ReportUnless(AtMost(|text|, s.maxLength), path, "maxLength");
      if s.pattern.Some? && s.pattern.value != "" { ReportUnless(env.regex(s.pattern.value, text), path, "pattern"); }
      if s.format == Some("date-time") { ReportUnless(env.dateTime(text), path, "format"); }
      if s.format == Some("uri") { ReportUnless(env.uri(text), path, "format"); }
    }

    method ValidateNumber(n: int, s: Schema, path: string)
      modifies this`issues
      ensures Judged(NumberOk(n, s))
    {
      ReportUnless(AtLeast(n, s.minimum), path, "minimum");
      ReportUnless(AtMost(n, s.maximum), path, "maximum");
    }

    /** Repetitions show as a set of texts smaller than the list of texts. */
    method ValidateUnique(items: seq<Json>, path: string)
      modifies this`issues
      ensures Judged(AllDistinct(items))
    {
      var texts := seq(|items|, i requires 0 <= i < |items| => Canonicalize(items[i]));
      RepetitionShrinks(texts);
      assert forall i :: 0 <= i < |texts| ==> texts[i] == Canonicalize(items[i]);
      hide Canonicalize;
      if AllDistinct(items) {
        assert forall i, j :: 0 <= i < j < |texts| ==> texts[i] != texts[j];
      } else {
        var i, j :| 0 <= i < j < |items| && Canonicalize(items[i]) == Canonicalize(items[j]);
        assert texts[i] == texts[j];
      }
      if |set t | t in texts| != |texts| { Report(path, "uniqueItems"); }
    }

    method ValidateArray(items: seq<Json>, s: Schema, path: string, stack: set<string>)
      requires SafeEnv(env)
      requires forall k :: 0 <= k < |items| ==> WellFormed(items[k])
      modifies this`issues
      ensures Judged(ArrayOk(items, s, env, stack))
      decreases Arr(items), Rank(s, env), RefBudget(env, stack), s, 1
    {
      hide Accepts, AllDistinct, SafeEnv;
      label start:
      ReportUnless(AtLeast(|items|, s.minItems), path, "minItems");
      ReportUnless(AtMost(|items|, s.maxItems), path, "maxItems");
      if IsTrue(s.uniqueItems) { ValidateUnique(items, path); }
      if s.items.Some? {
        label checked:
        for i := 0 to |items|
          invariant Judged@checked(forall k :: 0 <= k < i ==> Accepts(items[k], s.items.value, env, stack))
        {
          Validate(items[i], s.items.value, path + "[" + NumberText(i) + "]", stack);
        }
      }
    }

    method ValidateWithoutIssues(v: Json, s: Schema) returns (ok: bool)
      requires WellFormed(v) && SafeEnv(env)
      ensures ok <==> Matches(v, s, env)
      decreases v, Rank(s, env), RefBudget(env, {}), s, 5
    {
      hide Accepts, DefinitionClean;
      if !DefinitionClean(s, env.enforceClassification) { return false; }
      var inner := new SchemaValidator(env);
      inner.Validate(v, s, "$", {});
      ok := inner.issues == [];
    }

    method ValidateCondition(v: Json, s: Schema, path: string, stack: set<string>)
      requires WellFormed(v) && s.ref.None? && SafeEnv(env)
      modifies this`issues
      ensures Judged(ConditionOk(v, s, env, stack))
      decreases v, Rank(s, env), RefBudget(env, stack), s, 1
    {
      hide Accepts, SafeEnv, Matches;
      if s.condition.Some? {
        var holds := ValidateWithoutIssues(v, s.condition.value);
        if holds {
          if s.consequent.Some? { Validate(v, s.consequent.value, path, stack); }
        } else if s.alternative.Some? {
          Validate(v, s.alternative.value, path, stack);
        }
      }
    }

    /** How many of the schemas the value matches. */
    method CountMatches(v: Json, ghost owner: Schema, schemas: seq<Schema>) returns (count: nat, ghost which: nat)
      requires WellFormed(v) && SafeEnv(env)
      requires forall i :: 0 <= i < |schemas| ==> Rank(schemas[i], env) < Rank(owner, env)
      ensures count == 0 <==> forall i :: 0 <= i < |schemas| ==> !Matches(v, schemas[i], env)
      ensures count > 0 ==> which < |schemas| && Matches(v, schemas[which], env)
      ensures count <= 1 <==>
        forall i, j :: 0 <= i < j < |schemas| ==> !(Matches(v, schemas[i], env) && Matches(v, schemas[j], env))
      decreases v, Rank(owner, env), 0, owner, 0
    {
      hide Matches, SafeEnv;
      count, which := 0, 0;
      ghost var other: nat := 0;
      for n := 0 to |schemas|
        invariant count == 0 <==> forall i :: 0 <= i < n ==> !Matches(v, schemas[i], env)
        invariant count > 0 ==> which < n && Matches(v, schemas[which], env)
        invariant count == 1 ==> forall j :: 0 <= j < n && Matches(v, schemas[j], env) ==> j == which
        invariant count > 1 ==> which < other < n && Matches(v, schemas[other], env)
      {
        var holds := ValidateWithoutIssues(v, schemas[n]);
        if holds {
          if count > 0 { other := n; } else { which := n; }
          count := count + 1;
        }
      }
    }

    method ValidateAllOf(v: Json, s: Schema, path: string, stack: set<string>)
      requires WellFormed(v) && s.ref.None? && SafeEnv(env)
      modifies this`issues
      ensures Judged(AllOfOk(v, s, env, stack))
      decreases v, Rank(s, env), RefBudget(env, stack), s, 0
    {
      hide Accepts, SafeEnv, WellFormed;
      if s.allOf.NoChoice? { return; }
      for i := 0 to |s.allOf.schemas|
        invariant Judged(forall k :: 0 <= k < i ==> Accepts(v, s.allOf.schemas[k], env, stack))
      {
        Validate(v, s.allOf.schemas[i], path, stack);
      }
    }

    method ValidateAnyOf(v: Json, s: Schema, path: string)
      requires WellFormed(v) && s.ref.None? && SafeEnv(env)
      modifies this`issues
      ensures Judged(AnyOfOk(v, s, env))
      decreases v, Rank(s, env), 0, s, 1
    {
      hide Matches;
      if s.anyOf.NoChoice? { return; }
      var count, which := CountMatches(v, s, s.anyOf.schemas);
      ReportUnless(count != 0, path, "anyOf");
    }

    method ValidateOneOf(v: Json, s: Schema, path: string)
      requires WellFormed(v) && s.ref.None? && SafeEnv(env)
      modifies this`issues
      ensures Judged(OneOfOk(v, s, env))
      decreases v, Rank(s, env), 0, s, 1
    {
      hide Matches, WellFormed, SafeEnv;
      if s.oneOf.NoChoice? { return; }
      var count, which := CountMatches(v, s, s.oneOf.schemas);
      ReportUnless(count == 1, path, "oneOf");
    }

    method ValidateComposition(v: Json, s: Schema, path: string, stack: set<string>)
      requires WellFormed(v) && s.ref.None? && SafeEnv(env)
      modifies this`issues
      ensures Judged(CompositionOk(v, s, env, stack))
      decreases v, Rank(s, env), RefBudget(env, stack), s, 2
    {
      hide SafeEnv, WellFormed, AllOfOk, AnyOfOk, OneOfOk;
      ValidateAllOf(v, s, path, stack);
      ValidateAnyOf(v, s, path);
      ValidateOneOf(v, s, path);
    }

    /** The field of that name, or none. */
    method FindField(fields: seq<Field<Json>>, key: string) returns (k: nat)
      ensures k <= |fields| && (k < |fields| ==> fields[k].key == key)
      ensures k == |fields| <==> !HasKey(fields, key)
    {
      k := 0;
      while k < |fields| && fields[k].key != key
        invariant k <= |fields| && forall i :: 0 <= i < k ==> fields[i].key != key
      {
        k := k + 1;
      }
    }

    method ValidateRequired(fields: seq<Field<Json>>, s: Schema, path: string)
      modifies this`issues
      ensures Judged(forall i :: 0 <= i < |s.required| ==> HasKey(fields, s.required[i]))
    {
      for i := 0 to |s.required|
        invariant Judged(forall k :: 0 <= k < i ==> HasKey(fields, s.required[k]))
      {
        ReportUnless(HasKey(fields, s.required[i]), path + "." + s.required[i], "required");
      }
    }

    method ValidateProperty(fields: seq<Field<Json>>, s: Schema, n: nat, path: string, stack: set<string>)
      requires SafeEnv(env) && DistinctKeys(fields) && s.properties.Named? && n < |s.properties.fields|
      requires forall k :: 0 <= k < |fields| ==> WellFormed(fields[k].value)
      modifies this`issues
      ensures Judged(forall k :: 0 <= k < |fields| && s.properties.fields[n].key == fields[k].key ==>
        Accepts(fields[k].value, s.properties.fields[n].value, env, stack))
      decreases Obj(fields), Rank(s, env), RefBudget(env, stack), s, 0
    {
      hide Accepts, SafeEnv, WellFormed;
      var p := s.properties.fields[n];
      var k := FindField(fields, p.key);
      if k < |fields| {
        Validate(fields[k].value, p.value, path + "." + p.key, stack);
      }
    }

    method ValidateProperties(fields: seq<Field<Json>>, s: Schema, path: string, stack: set<string>)
      requires SafeEnv(env) && DistinctKeys(fields) && s.properties.Named?
      requires forall k :: 0 <= k < |fields| ==> WellFormed(fields[k].value)
      modifies this`issues
      ensures Judged(forall i,
        k :: 0 <= i < |s.properties.fields| && 0 <= k < |fields| && s.properties.fields[i].key == fields[k].key ==>
        Accepts(fields[k].value, s.properties.fields[i].value, env, stack))
      decreases Obj(fields), Rank(s, env), RefBudget(env, stack), s, 1
    {
      hide Accepts, SafeEnv, WellFormed;
      for n := 0 to |s.properties.fields|
        invariant Judged(forall i,
          k :: 0 <= i < n && 0 <= k < |fields| && s.properties.fields[i].key == fields[k].key ==>
          Accepts(fields[k].value, s.properties.fields[i].value, env, stack))
      {
        ValidateProperty(fields, s, n, path, stack);
      }
    }

    method ValidatePattern(fields: seq<Field<Json>>, s: Schema, n: nat, path: string, stack: set<string>)
      requires SafeEnv(env) && n < |s.patternProperties|
      requires forall k :: 0 <= k < |fields| ==> WellFormed(fields[k].value)
      modifies this`issues
      ensures Judged(forall k :: 0 <= k < |fields| && env.regex(s.patternProperties[n].key, fields[k].key) ==>
        Accepts(fields[k].value, s.patternProperties[n].value, env, stack))
      decreases Obj(fields), Rank(s, env), RefBudget(env, stack), s, 0
    {
      hide Accepts, SafeEnv, WellFormed;
      var p := s.patternProperties[n];
      for m := 0 to |fields|
        invariant Judged(forall k :: 0 <= k < m && env.regex(p.key, fields[k].key) ==>
          Accepts(fields[k].value, p.value, env, stack))
      {
        if env.regex(p.key, fields[m].key) {
          Validate(fields[m].value, p.value, path + "." + fields[m].key, stack);
        }
      }
    }

    method ValidatePatterns(fields: seq<Field<Json>>, s: Schema, path: string, stack: set<string>)
      requires SafeEnv(env)
      requires forall k :: 0 <= k < |fields| ==> WellFormed(fields[k].value)
      modifies this`issues
      ensures Judged(forall i,
        k ::
        0 <= i < |s.patternProperties| && 0 <= k < |fields| && env.regex(s.patternProperties[i].key, fields[k].key) ==>
        Accepts(fields[k].value, s.patternProperties[i].value, env, stack))
      decreases Obj(fields), Rank(s, env), RefBudget(env, stack), s, 1
    {
      hide Accepts, SafeEnv, WellFormed;
      for n := 0 to |s.patternProperties|
        invariant Judged(forall i,
          k :: 0 <= i < n && 0 <= k < |fields| && env.regex(s.patternProperties[i].key, fields[k].key) ==>
          Accepts(fields[k].value, s.patternProperties[i].value, env, stack))
      {
        ValidatePattern(fields, s, n, path, stack);
      }
    }

    ghost predicate ExtraOk(f: Field<Json>, s: Schema, stack: set<string>)
      requires SafeEnv(env)
    {
      !HasKey(Props(s), f.key) && !MatchesAnyPattern(f.key, s.patternProperties, env) ==>
        && (s.extra.Forbidden? ==> env.mode == TolerantReader)
        && (s.extra.Governed? ==> Accepts(f.value, s.extra.schema, env, stack))
    }

    method ValidateExtras(fields: seq<Field<Json>>, s: Schema, path: string, stack: set<string>)
      requires SafeEnv(env)
      requires forall k :: 0 <= k < |fields| ==> WellFormed(fields[k].value)
      modifies this`issues
      ensures Judged(forall k :: 0 <= k < |fields| ==> ExtraOk(fields[k], s, stack))
      decreases Obj(fields), Rank(s, env), RefBudget(env, stack), s, 0
    {
      hide Accepts, SafeEnv;
      for n := 0 to |fields|
        invariant Judged(forall k :: 0 <= k < n ==> ExtraOk(fields[k], s, stack))
      {
        var f := fields[n];
        if HasKey(Props(s), f.key) || MatchesAnyPattern(f.key, s.patternProperties, env) { continue; }
        if s.extra.Forbidden? && env.mode != TolerantReader { Report(path + "." + f.key, "additionalProperties"); }
        if s.extra.Governed? { Validate(f.value, s.extra.schema, path + "." + f.key, stack); }
      }
    }

    method ValidateObject(fields: seq<Field<Json>>, s: Schema, path: string, stack: set<string>)
      requires SafeEnv(env) && DistinctKeys(fields)
      requires forall k :: 0 <= k < |fields| ==> WellFormed(fields[k].value)
      modifies this`issues
      ensures Judged(ObjectOk(fields, s, env, stack))
      decreases Obj(fields), Rank(s, env), RefBudget(env, stack), s, 2
    {
      hide Accepts, SafeEnv;
      ValidateRequired(fields, s, path);
      if s.properties.Named? { ValidateProperties(fields, s, path, stack); }
      ValidatePatterns(fields, s, path, stack);
      ValidateExtras(fields, s, path, stack);
      assert ObjectOk(fields, s, env, stack) ==> forall k :: 0 <= k < |fields| ==> ExtraOk(fields[k], s, stack);
    }

    /** Adds no issue exactly when the schema accepts the value. */
    method Validate(v: Json, s: Schema, path: string, stack: set<string>)
      requires WellFormed(v) && SafeEnv(env)
      modifies this`issues
      ensures Judged(Accepts(v, s, env, stack))
      decreases v, Rank(s, env), RefBudget(env, stack), s, 4
    {
      if s.ref.Some? {
        var r := s.ref.value;
        if r in stack || r !in env.refs {
          Report(path, "$ref");
          return;
        }
        assert env.refs.Keys - stack == (env.refs.Keys - (stack + {r})) + {r};
        Validate(v, env.refs[r], path, stack + {r});
        return;
      }
      ValidateKeywords(v, s, path, stack);
    }

    method ValidateKeywords(v: Json, s: Schema, path: string, stack: set<string>)
      requires WellFormed(v) && SafeEnv(env) && s.ref.None?
      modifies this`issues
      ensures Judged(Accepts(v, s, env, stack))
      decreases v, Rank(s, env), RefBudget(env, stack), s, 3
    {
      hide ConditionOk, CompositionOk, ArrayOk, ObjectOk, StringOk, NumberOk, SafeEnv, SameJson, MatchesType;
      ValidateCondition(v, s, path, stack);
      ValidateComposition(v, s, path, stack);
      if s.constant.Some? { ReportUnless(SameJson(v, s.constant.value), path, "const"); }
      if s.enumeration.Some? {
        var listed := exists i :: 0 <= i < |s.enumeration.value| && SameJson(v, s.enumeration.value[i]);
        ReportUnless(listed, path, "enum");
      }
      if s.types.Some? && !MatchesType(v, s.types.value) {
        Report(path, "type");
        return;
      }
      match v
      case Str(text) => ValidateString(text, s, path);
      case Num(n) => ValidateNumber(n, s, path);
      case Arr(items) => ValidateArray(items, s, path, stack);
      case Obj(fields) => ValidateObject(fields, s, path, stack);
      case _ =>
    }

    /** `validateJsonSchema`: the definition first, then the value. */
    method ValidateJsonSchema(v: Json, s: Schema)
      requires WellFormed(v) && SafeEnv(env)
      modifies this`issues
      ensures Judged(Valid(v, s, env))
    {
      hide Accepts, DefinitionClean, SafeEnv, WellFormed;
      ReportUnless(DefinitionClean(s, env.enforceClassification), "$", "definition");
      Validate(v, s, "$", {});
    }
  }

  lemma {:induction false} RepetitionShrinks(texts: seq<string>)
    ensures |set t | t in texts| == |texts| <==> NoTwins(texts)
    ensures |set t | t in texts| <= |texts|
  {
    if texts != [] {
      var rest, last := texts[..|texts| - 1], texts[|texts| - 1];
      RepetitionShrinks(rest);
      assert texts == rest + [last];
      OneMoreText(rest, last);
    }
  }

  lemma OneMoreText(rest: seq<string>, last: string)
    ensures |set t | t in rest + [last]| == |set t | t in rest| + if last in rest then 0 else 1
    ensures NoTwins(rest + [last]) <==> NoTwins(rest) && last !in rest
  {
    var more := rest + [last];
    if last in rest {
      assert (set t | t in more) == (set t | t in rest);
      var i :| 0 <= i < |rest| && rest[i] == last;
      assert more[i] == more[|rest|];
    } else {
      assert (set t | t in more) == (set t | t in rest) + {last};
      assert forall i :: 0 <= i < |rest| ==> more[i] == rest[i] && rest[i] in rest;
    }
    if NoTwins(more) {
      forall i, j | 0 <= i < j < |rest| ensures rest[i] != rest[j] { assert more[i] != more[j]; }
    }
  }

  predicate NoTwins(texts: seq<string>) { forall i, j :: 0 <= i < j < |texts| ==> texts[i] != texts[j] }
}
