/** The definition check on objects that hold a schema: the walk is silent exactly when the definition is clean. */
module DefinitionTree {
  import opened Wrappers
  import opened Json
  import opened Schema
  import opened DefinitionWalk

  // ---------------------------------------------------------------- what the check says of one object

  function Unsupported(names: seq<string>): seq<string> {
    if names == [] then []
    else (if names[0] in SUPPORTED_TYPES then [] else ["unsupported schema type"]) + Unsupported(names[1..])
  }

  function TypeNames(t: TypeSpec): seq<string> { match t case One(name) => [name] case Many(names) => names }

  function Fault(condition: bool, text: string): seq<string> { if condition then [text] else [] }

  /** What the check pushes for one object, in its order. */
  function Faults(s: Schema, enforceClassification: bool): seq<string> {
    s.unsupportedKeywords
    + Fault(s.classification.Some? && s.classification.value.Invalid?, "invalid data classification")
    + Fault(s.classification == Some(Secret), "SECRET data is not allowed")
    + (if s.types.Some? then Unsupported(TypeNames(s.types.value)) else [])
    + Fault(Exceeds(s.minLength, s.maxLength), "minLength must not exceed maxLength")
    + Fault(Exceeds(s.minItems, s.maxItems), "minItems must not exceed maxItems")
    + Fault(enforceClassification && IsUnclassifiedLeaf(s), "schema leaf must declare a classification")
  }

  lemma {:induction false} UnsupportedIffNot(names: seq<string>)
    ensures Unsupported(names) == [] <==> forall n :: n in names ==> n in SUPPORTED_TYPES
  {
    if names != [] {
      UnsupportedIffNot(names[1..]);
      assert names == [names[0]] + names[1..];
    }
  }

  lemma NoFaultsIffLocallyClean(s: Schema, enforce: bool)
    ensures Faults(s, enforce) == [] <==> LocallyClean(s, enforce)
  {
    if s.types.Some? { UnsupportedIffNot(TypeNames(s.types.value)); }
  }

  // ---------------------------------------------------------------- subschemas in walking order

  function Values(fields: seq<Field<Schema>>): (r: seq<Schema>)
    ensures |r| == |fields| && forall i :: 0 <= i < |r| ==> r[i] == fields[i].value
  {
    seq(|fields|, i requires 0 <= i < |fields| => fields[i].value)
  }

  function InTable(t: Table): seq<Schema> { if t.Named? then Values(t.fields) else [] }

  function InChoice(c: Choice): seq<Schema> { if c.Of? then c.schemas else [] }

  function InOption(o: Option<Schema>): seq<Schema> { if o.Some? then [o.value] else [] }

  function InExtra(e: Extra): seq<Schema> { if e.Governed? then [e.schema] else [] }

  function Subschemas(s: Schema): seq<Schema> {
    InTable(s.properties) + Values(s.patternProperties) + InTable(s.defs)
    + InChoice(s.allOf) + InChoice(s.anyOf) + InChoice(s.oneOf)
    + InOption(s.items) + InOption(s.condition) + InOption(s.consequent) + InOption(s.alternative) + InExtra(s.extra)
  }

  /** Whatever holds of every subschema, keyword by keyword, holds of the list, and conversely. */
  ghost predicate CleanParts(s: Schema, enforce: bool) {
    && (s.properties.Named? ==> AllClean(Values(s.properties.fields), enforce)) &&
      AllClean(Values(s.patternProperties), enforce)
    && (s.defs.Named? ==> AllClean(Values(s.defs.fields), enforce))
    && AllClean(InChoice(s.allOf), enforce) && AllClean(InChoice(s.anyOf), enforce) &&
      AllClean(InChoice(s.oneOf), enforce)
    && AllClean(InOption(s.items), enforce) && AllClean(InOption(s.condition), enforce)
    && AllClean(InOption(s.consequent), enforce) && AllClean(InOption(s.alternative), enforce)
    && AllClean(InExtra(s.extra), enforce)
  }

  predicate AllClean(schemas: seq<Schema>, enforce: bool) {
    forall i :: 0 <= i < |schemas| ==> DefinitionClean(schemas[i], enforce)
  }

  lemma AllCleanConcat(a: seq<Schema>, b: seq<Schema>, enforce: bool)
    ensures AllClean(a + b, enforce) <==> AllClean(a, enforce) && AllClean(b, enforce)
  {
    hide DefinitionClean;
    if AllClean(a + b, enforce) {
      forall i | 0 <= i < |a| ensures DefinitionClean(a[i], enforce) { assert (a + b)[i] == a[i]; }
      forall i | 0 <= i < |b| ensures DefinitionClean(b[i], enforce) { assert (a + b)[|a| + i] == b[i]; }
    }
  }

  predicate AllFieldsClean(fields: seq<Field<Schema>>, enforce: bool) {
    forall i :: 0 <= i < |fields| ==> DefinitionClean(fields[i].value, enforce)
  }

  predicate OptionClean(o: Option<Schema>, enforce: bool) { o.Some? ==> DefinitionClean(o.value, enforce) }

  /** The definition check below the object itself, keyword by keyword. */
  ghost predicate CleanBelow(s: Schema, enforce: bool) {
    && (s.properties.Named? ==> AllFieldsClean(s.properties.fields, enforce)) &&
      AllFieldsClean(s.patternProperties, enforce)
    && (s.defs.Named? ==> AllFieldsClean(s.defs.fields, enforce))
    && (s.allOf.Of? ==> AllClean(s.allOf.schemas, enforce)) && (s.anyOf.Of? ==> AllClean(s.anyOf.schemas, enforce))
    && (s.oneOf.Of? ==> AllClean(s.oneOf.schemas, enforce))
    && OptionClean(s.items, enforce) && OptionClean(s.condition, enforce) && OptionClean(s.consequent, enforce)
    && OptionClean(s.alternative, enforce) && (s.extra.Governed? ==> DefinitionClean(s.extra.schema, enforce))
  }

  lemma CleanIffBelow(s: Schema, enforce: bool)
    ensures DefinitionClean(s, enforce) <==> LocallyClean(s, enforce) && CleanBelow(s, enforce)
  {
    hide LocallyClean;
  }

  lemma CleanIffParts(s: Schema, enforce: bool)
    ensures DefinitionClean(s, enforce) <==> LocallyClean(s, enforce) && CleanParts(s, enforce)
  {
    CleanIffBelow(s, enforce);
    hide LocallyClean, DefinitionClean, AllFieldsClean, AllClean, Values;
    if s.properties.Named? { ValuesClean(s.properties.fields, enforce); }
    ValuesClean(s.patternProperties, enforce);
    if s.defs.Named? { ValuesClean(s.defs.fields, enforce); }
    OneClean(s.items, enforce);
    OneClean(s.condition, enforce);
    OneClean(s.consequent, enforce);
    OneClean(s.alternative, enforce);
    ExtraClean(s.extra, enforce);
    NothingIsClean(enforce);
  }

  lemma ExtraClean(e: Extra, enforce: bool)
    ensures AllClean(InExtra(e), enforce) <==> (e.Governed? ==> DefinitionClean(e.schema, enforce))
  {
    hide DefinitionClean;
    if e.Governed? { assert InExtra(e)[0] == e.schema; }
  }

  lemma ValuesClean(fields: seq<Field<Schema>>, enforce: bool)
    ensures AllClean(Values(fields), enforce) <==> AllFieldsClean(fields, enforce)
  {
    hide DefinitionClean;
    var values := Values(fields);
    if AllClean(values, enforce) {
      forall i | 0 <= i < |fields| ensures DefinitionClean(fields[i].value, enforce) {
        assert values[i] == fields[i].value;
      }
    }
  }

  lemma OneClean(o: Option<Schema>, enforce: bool)
    ensures AllClean(InOption(o), enforce) <==> OptionClean(o, enforce)
  {
    hide DefinitionClean;
    if o.Some? { assert InOption(o)[0] == o.value; }
  }

  lemma PartsAreSubschemas(s: Schema, enforce: bool)
    ensures CleanParts(s, enforce) <==> AllClean(Subschemas(s), enforce)
  {
    hide AllClean;
    var a, b, c, d, e, f := InTable(s.properties), Values(s.patternProperties), InTable(s.defs), InChoice(s.allOf),
      InChoice(s.anyOf), InChoice(s.oneOf);
    var g, h, i, j, k := InOption(s.items), InOption(s.condition), InOption(s.consequent), InOption(s.alternative),
      InExtra(s.extra);
    NothingIsClean(enforce);
    hide InTable, InChoice, InOption, InExtra, Values;
    AllCleanConcat(a, b, enforce);
    AllCleanConcat(a + b, c, enforce);
    AllCleanConcat(a + b + c, d, enforce);
    AllCleanConcat(a + b + c + d, e, enforce);
    AllCleanConcat(a + b + c + d + e, f, enforce);
    AllCleanConcat(a + b + c + d + e + f, g, enforce);
    AllCleanConcat(a + b + c + d + e + f + g, h, enforce);
    AllCleanConcat(a + b + c + d + e + f + g + h, i, enforce);
    AllCleanConcat(a + b + c + d + e + f + g + h + i, j, enforce);
    AllCleanConcat(a + b + c + d + e + f + g + h + i + j, k, enforce);
    TablesAlike(s, enforce);
  }

  lemma NothingIsClean(enforce: bool)
    ensures AllClean([], enforce)
  {
  }

  lemma TablesAlike(s: Schema, enforce: bool)
    ensures AllClean(InTable(s.properties), enforce) <==>
      (s.properties.Named? ==> AllClean(Values(s.properties.fields), enforce))
    ensures AllClean(InTable(s.defs), enforce) <==> (s.defs.Named? ==> AllClean(Values(s.defs.fields), enforce))
  {
  }

  // ---------------------------------------------------------------- objects that hold a schema

  /** The object holds this schema: its own faults, and an object for each subschema, shared or not. */
  ghost predicate Holds(heap: Heap, id: ObjectId, s: Schema, enforce: bool, depth: nat)
    decreases depth
  {
    && id in heap && heap[id].faults == Faults(s, enforce)
    && |heap[id].children| == |Subschemas(s)|
    && (Subschemas(s) != [] ==> depth > 0)
    && forall k :: 0 <= k < |Subschemas(s)| ==>
      Holds(heap, heap[id].children[k].target, Subschemas(s)[k], enforce, depth - 1)
  }

  ghost predicate AllReachableClean(heap: Heap, root: ObjectId) {
    forall id :: Reachable(heap, root, id) && id in heap ==> heap[id].faults == []
  }

  lemma {:induction false} CleanDefinitionHasNoFaults(heap: Heap, path: seq<ObjectId>, s: Schema, enforce: bool,
                                                      depth: nat)
    requires IsPath(heap, path) && Holds(heap, path[0], s, enforce, depth) && DefinitionClean(s, enforce)
    ensures path[|path| - 1] in heap && heap[path[|path| - 1]].faults == []
    decreases |path|
  {
    NoFaultsIffLocallyClean(s, enforce);
    CleanIffParts(s, enforce);
    PartsAreSubschemas(s, enforce);
    hide Faults, LocallyClean, Subschemas, CleanParts, DefinitionClean;
    if |path| > 1 {
      assert Edge(heap, path[0], path[1]);
      var k :| 0 <= k < |heap[path[0]].children| && heap[path[0]].children[k].target == path[1];
      assert Holds(heap, path[1], Subschemas(s)[k], enforce, depth - 1);
      assert IsPath(heap, path[1..]) by {
        forall j | 0 <= j < |path| - 2 ensures Edge(heap, path[1..][j], path[1..][j + 1]) {
          assert Edge(heap, path[j + 1], path[j + 2]);
        }
      }
      CleanDefinitionHasNoFaults(heap, path[1..], Subschemas(s)[k], enforce, depth - 1);
    }
  }

  lemma {:induction false} NoFaultsMakeACleanDefinition(heap: Heap, id: ObjectId, s: Schema, enforce: bool, depth: nat)
    requires Holds(heap, id, s, enforce, depth) && AllReachableClean(heap, id)
    ensures DefinitionClean(s, enforce)
    decreases depth
  {
    assert IsPath(heap, [id]);
    assert Reachable(heap, id, id);
    NoFaultsIffLocallyClean(s, enforce);
    CleanIffParts(s, enforce);
    PartsAreSubschemas(s, enforce);
    hide Faults, LocallyClean, Subschemas, CleanParts, DefinitionClean, Reachable;
    forall k: nat | k < |Subschemas(s)| ensures DefinitionClean(Subschemas(s)[k], enforce) {
      var child := heap[id].children[k].target;
      forall b | Reachable(heap, child, b) && b in heap ensures heap[b].faults == [] { ThroughChild(heap, id, k, b); }
      assert Holds(heap, child, Subschemas(s)[k], enforce, depth - 1);
      NoFaultsMakeACleanDefinition(heap, child, Subschemas(s)[k], enforce, depth - 1);
    }
  }

  /** On objects that hold a schema, the walk finds nothing exactly when the definition is clean. */
  lemma SilentIffDefinitionClean(heap: Heap, root: ObjectId, s: Schema, enforce: bool, depth: nat)
    requires Holds(heap, root, s, enforce, depth)
    ensures AllReachableClean(heap, root) <==> DefinitionClean(s, enforce)
  {
    hide DefinitionClean, Holds;
    if AllReachableClean(heap, root) { NoFaultsMakeACleanDefinition(heap, root, s, enforce, depth); }
    if DefinitionClean(s, enforce) {
      forall id | Reachable(heap, root, id) && id in heap ensures heap[id].faults == [] {
        var path :| IsPath(heap, path) && path[0] == root && path[|path| - 1] == id;
        CleanDefinitionHasNoFaults(heap, path, s, enforce, depth);
      }
    }
  }

  /** The check of the validator, by the walk: silent exactly when the definition is clean. */
  method CheckDefinition(heap: Heap, root: ObjectId, ghost s: Schema, ghost enforce: bool, ghost depth: nat)
    returns (issues: seq<Issue>)
    requires Holds(heap, root, s, enforce, depth)
    ensures issues == [] <==> DefinitionClean(s, enforce)
  {
    issues := ValidateSchemaDefinition(heap, root);
    SilentIffDefinitionClean(heap, root, s, enforce, depth);
  }
}
