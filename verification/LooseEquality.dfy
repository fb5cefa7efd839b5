/**
 * The equality by which the compatibility checker compares enum and const values. It writes out of
 * each value only what stands under the value's own top-level keys, wherever they occur.
 */
module LooseEquality {
  import opened Json
  import opened Canonical
  import opened CanonicalRoundTrip
  import opened JsonParser
  import opened Compatibility
  import opened CompatibilitySoundness

  // ---------------------------------------------------------------- the checker's equality

  lemma {:induction false} ProjectAllShape(items: seq<Json>, keys: set<string>)
    ensures |ProjectAll(items, keys)| == |items|
    ensures forall i :: 0 <= i < |items| ==> ProjectAll(items, keys)[i] == Project(items[i], keys)
  {
    if items != [] { ProjectAllShape(items[1..], keys); }
  }

  ghost predicate IsProjected(fields: seq<Field<Json>>, keys: set<string>, f: Field<Json>) {
    exists i :: 0 <= i < |fields| && fields[i].key in keys && f == Field(fields[i].key, Project(fields[i].value, keys))
  }

  lemma {:induction false} ProjectFieldsFrom(fields: seq<Field<Json>>, keys: set<string>, j: nat)
    requires j < |ProjectFields(fields, keys)|
    ensures IsProjected(fields, keys, ProjectFields(fields, keys)[j])
  {
    var f, rest := fields[0], fields[1..];
    assert f.value < f;
    var kept := if f.key in keys then 1 else 0;
    if j < kept {
      assert ProjectFields(fields, keys)[0] == Field(fields[0].key, Project(fields[0].value, keys));
    } else {
      ProjectFieldsFrom(rest, keys, j - kept);
      var g := ProjectFields(rest, keys)[j - kept];
      var i :| 0 <= i < |rest| && rest[i].key in keys && g == Field(rest[i].key, Project(rest[i].value, keys));
      assert fields[i + 1] == rest[i];
    }
  }

  lemma {:induction false} ProjectFieldsDistinct(fields: seq<Field<Json>>, keys: set<string>)
    requires DistinctKeys(fields)
    ensures DistinctKeys(ProjectFields(fields, keys))
  {
    if fields != [] {
      var f, rest := fields[0], fields[1..];
      assert f.value < f;
      ProjectFieldsDistinct(rest, keys);
      var tail := ProjectFields(rest, keys);
      forall j | 0 <= j < |tail| ensures tail[j].key != f.key {
        ProjectFieldsFrom(rest, keys, j);
        var i :| 0 <= i < |rest| && rest[i].key in keys && tail[j] == Field(rest[i].key, Project(rest[i].value, keys));
        assert fields[i + 1] == rest[i];
      }
    }
  }

  lemma {:induction false} ProjectFieldsKeepAll(fields: seq<Field<Json>>, keys: set<string>)
    requires forall i :: 0 <= i < |fields| ==> fields[i].key in keys
    ensures |ProjectFields(fields, keys)| == |fields|
    ensures forall i :: 0 <= i < |fields| ==>
      ProjectFields(fields, keys)[i] == Field(fields[i].key, Project(fields[i].value, keys))
  {
    if fields != [] {
      assert fields[0].value < fields[0];
      ProjectFieldsKeepAll(fields[1..], keys);
    }
  }

  lemma {:induction false} ProjectFieldsDrop(fields: seq<Field<Json>>, keys: set<string>)
    ensures |ProjectFields(fields, keys)| <= |fields|
    ensures |ProjectFields(fields, keys)| == |fields| ==> forall i :: 0 <= i < |fields| ==> fields[i].key in keys
  {
    if fields != [] {
      assert fields[0].value < fields[0];
      ProjectFieldsDrop(fields[1..], keys);
    }
  }

  lemma {:induction false} ProjectIsStable(v: Json, keys: set<string>)
    requires WellFormed(v)
    ensures WellFormed(Project(v, keys)) && Project(Project(v, keys), keys) == Project(v, keys)
    decreases v
  {
    match v
    case Arr(items) =>
      ProjectAllShape(items, keys);
      ProjectAllShape(ProjectAll(items, keys), keys);
      forall i | 0 <= i < |items|
        ensures WellFormed(ProjectAll(items, keys)[i])
        ensures ProjectAll(ProjectAll(items, keys), keys)[i] == ProjectAll(items, keys)[i]
      {
        ProjectIsStable(items[i], keys);
      }
    case Obj(fields) =>
      var out := ProjectFields(fields, keys);
      ProjectFieldsDistinct(fields, keys);
      forall j | 0 <= j < |out|
        ensures out[j].key in keys && WellFormed(out[j].value) && Project(out[j].value, keys) == out[j].value
      {
        ProjectFieldsFrom(fields, keys, j);
        var i :| 0 <= i < |fields| && fields[i].key in keys &&
          out[j] == Field(fields[i].key, Project(fields[i].value, keys));
        assert fields[i].value < fields[i];
        ProjectIsStable(fields[i].value, keys);
      }
      ProjectFieldsKeepAll(out, keys);
      assert ProjectFields(out, keys) == out;
    case _ =>
  }

  /** Some field of the list has this field's key and, structurally, its value. */
  ghost predicate Matched(f: Field<Json>, fields: seq<Field<Json>>) {
    exists j :: 0 <= j < |fields| && f.key == fields[j].key && Same(f.value, fields[j].value)
  }

  lemma SameObjects(a: seq<Field<Json>>, b: seq<Field<Json>>)
    requires Same(Obj(a), Obj(b))
    ensures |a| == |b| && forall i :: 0 <= i < |a| ==> Matched(a[i], b)
  {
  }

  lemma SameArrays(a: seq<Json>, b: seq<Json>)
    requires Same(Arr(a), Arr(b))
    ensures |a| == |b| && forall i :: 0 <= i < |a| ==> Same(a[i], b[i])
  {
  }

  /** A projection is structurally the value itself only when nothing was dropped. */
  lemma {:induction false} SameAsProjection(v: Json, keys: set<string>)
    requires WellFormed(v) && Same(v, Project(v, keys))
    ensures Project(v, keys) == v
    decreases v
  {
    match v
    case Arr(items) =>
      var out := ProjectAll(items, keys);
      assert Project(v, keys) == Arr(out) && forall i :: 0 <= i < |items| ==> WellFormed(items[i]);
      hide Same, Project, ProjectAll, WellFormed;
      SameArrays(items, out);
      ProjectAllShape(items, keys);
      forall i | 0 <= i < |items| ensures out[i] == items[i] { SameAsProjection(items[i], keys); }
    case Obj(fields) =>
      var out := ProjectFields(fields, keys);
      assert Project(v, keys) == Obj(out) && DistinctKeys(fields) && forall i :: 0 <= i < |fields| ==>
        WellFormed(fields[i].value);
      hide Same, Project, ProjectFields, WellFormed, DistinctKeys, Matched;
      SameObjects(fields, out);
      ProjectFieldsDrop(fields, keys);
      ProjectFieldsKeepAll(fields, keys);
      forall i: nat | i < |fields| ensures out[i] == fields[i] {
        FieldIsItsOwnMatch(fields, out, keys, i);
        assert fields[i].value < fields[i];
        SameAsProjection(fields[i].value, keys);
      }
    case _ =>
  }

  /** A field matches its own projection, since no other field has its key. */
  lemma FieldIsItsOwnMatch(fields: seq<Field<Json>>, out: seq<Field<Json>>, keys: set<string>, i: nat)
    requires i < |fields| == |out| && DistinctKeys(fields) && Matched(fields[i], out)
    requires forall k :: 0 <= k < |fields| ==> out[k] == Field(fields[k].key, Project(fields[k].value, keys))
    ensures Same(fields[i].value, Project(fields[i].value, keys))
  {
    hide Same, Project;
    var j :| 0 <= j < |out| && fields[i].key == out[j].key && Same(fields[i].value, out[j].value);
    assert fields[j].key == fields[i].key;
  }

  lemma KeysOfProjection(v: Json)
    requires WellFormed(v)
    ensures KeysOf(Project(v, KeysOf(v))) == KeysOf(v)
  {
    match v
    case Arr(items) => ProjectAllShape(items, KeysOf(v));
    case Obj(fields) =>
      var out := ProjectFields(fields, KeysOf(v));
      assert forall i :: 0 <= i < |fields| ==> fields[i].key in KeysOf(v);
      ProjectFieldsKeepAll(fields, KeysOf(v));
      assert forall i :: 0 <= i < |fields| ==> out[i].key == fields[i].key;
    case _ =>
  }

  /** Among values whose own keys cover them, the checker tells this one apart from all others. */
  ghost predicate ToldFromLossless(v: Json) {
    forall w :: WellFormed(w) && Lossless(w) && LooselySame(v, w) ==> Same(v, w)
  }

  lemma ToldFromLosslessIffLossless(v: Json)
    requires WellFormed(v)
    ensures ToldFromLossless(v) <==> Lossless(v)
  {
    if Lossless(v) {
      forall w | WellFormed(w) && Lossless(w) && LooselySame(v, w) ensures Same(v, w) { CanonicalIsFaithful(v, w); }
    }
    if ToldFromLossless(v) {
      var w := Project(v, KeysOf(v));
      ProjectIsStable(v, KeysOf(v));
      KeysOfProjection(v);
      assert WellFormed(w) && Lossless(w) && LooselySame(v, w);
      SameAsProjection(v, KeysOf(v));
    }
  }

  // ---------------------------------------------------------------- objects inside

  /** There is no object anywhere in the value. */
  ghost predicate Bare(v: Json) {
    match v
    case Arr(items) => forall i :: 0 <= i < |items| ==> Bare(items[i])
    case Obj(_) => false
    case _ => true
  }

  /** No object stands strictly inside the value. */
  ghost predicate NoObjectInside(v: Json) {
    match v
    case Arr(items) => forall i :: 0 <= i < |items| ==> Bare(items[i])
    case Obj(fields) => forall i :: 0 <= i < |fields| ==> Bare(fields[i].value)
    case _ => true
  }

  /** Leaving keys out makes no value bare, and changes no bare value. */
  lemma {:induction false} BareProjection(v: Json, keys: set<string>)
    ensures Bare(Project(v, keys)) <==> Bare(v)
    ensures Bare(v) ==> Project(v, keys) == v
    decreases v
  {
    if v.Arr? {
      ProjectAllShape(v.items, keys);
      forall i | 0 <= i < |v.items|
        ensures Bare(ProjectAll(v.items, keys)[i]) <==> Bare(v.items[i])
        ensures Bare(v.items[i]) ==> ProjectAll(v.items, keys)[i] == v.items[i]
      {
        BareProjection(v.items[i], keys);
      }
      hide Project;
      if Bare(v) { assert ProjectAll(v.items, keys) == v.items; }
    }
  }

  lemma {:induction false} SameAsBare(v: Json, w: Json)
    requires Same(v, w) && Bare(w)
    ensures Bare(v)
    decreases v
  {
    if v.Arr? {
      forall i | 0 <= i < |v.items| ensures Bare(v.items[i]) { SameAsBare(v.items[i], w.items[i]); }
    }
  }

  lemma SameHasNoObjectInside(v: Json, w: Json)
    requires Same(v, w) && NoObjectInside(w)
    ensures NoObjectInside(v)
  {
    match v
    case Arr(items) => forall i | 0 <= i < |items| ensures Bare(items[i]) { SameAsBare(items[i], w.items[i]); }
    case Obj(fields) =>
      SameObjects(fields, w.fields);
      hide Same;
      forall i | 0 <= i < |fields| ensures Bare(fields[i].value) {
        var j :| 0 <= j < |w.fields| && fields[i].key == w.fields[j].key && Same(fields[i].value, w.fields[j].value);
        SameAsBare(fields[i].value, w.fields[j].value);
      }
    case _ =>
  }

  /** What the checker writes out of a value is the value itself, if either has no object inside. */
  lemma WrittenInFull(v: Json)
    requires NoObjectInside(v) || NoObjectInside(Project(v, KeysOf(v)))
    ensures Project(v, KeysOf(v)) == v
  {
    var keys := KeysOf(v);
    match v
    case Arr(items) =>
      ProjectAllShape(items, keys);
      forall i | 0 <= i < |items| ensures ProjectAll(items, keys)[i] == items[i] { BareProjection(items[i], keys); }
      assert ProjectAll(items, keys) == items;
    case Obj(fields) =>
      assert forall i :: 0 <= i < |fields| ==> fields[i].key in keys;
      ProjectFieldsKeepAll(fields, keys);
      var out := ProjectFields(fields, keys);
      forall i | 0 <= i < |fields| ensures out[i] == fields[i] { BareProjection(fields[i].value, keys); }
      assert out == fields;
    case _ =>
  }

  // ---------------------------------------------------------------- a twin that looks the same

  /** How long the keys in a value are, taken together. */
  function KeyLength(v: Json): nat {
    match v
    case Arr(items) => KeyLengthAll(items)
    case Obj(fields) => KeyLengthFields(fields)
    case _ => 0
  }

  function KeyLengthAll(items: seq<Json>): nat {
    if items == [] then 0 else KeyLength(items[0]) + KeyLengthAll(items[1..])
  }

  function KeyLengthFields(fields: seq<Field<Json>>): nat {
    if fields == [] then 0 else
      assert fields[0].value < fields[0];
      |fields[0].key| + KeyLength(fields[0].value) + KeyLengthFields(fields[1..])
  }

  lemma {:induction false} LongerThanItems(items: seq<Json>, i: nat)
    requires i < |items|
    ensures KeyLength(items[i]) <= KeyLengthAll(items)
  {
    if i > 0 { LongerThanItems(items[1..], i - 1); }
  }

  lemma {:induction false} LongerThanFields(fields: seq<Field<Json>>, i: nat)
    requires i < |fields|
    ensures |fields[i].key| + KeyLength(fields[i].value) <= KeyLengthFields(fields)
  {
    if i > 0 { LongerThanFields(fields[1..], i - 1); }
  }

  /** The value with one more field in every object. */
  function Stuffed(v: Json, key: string): Json {
    match v
    case Arr(items) => Arr(StuffedAll(items, key))
    case Obj(fields) => Obj(StuffedFields(fields, key) + [Field(key, Null)])
    case _ => v
  }

  function StuffedAll(items: seq<Json>, key: string): (s: seq<Json>)
    ensures |s| == |items| && forall i :: 0 <= i < |items| ==> s[i] == Stuffed(items[i], key)
  {
    if items == [] then [] else [Stuffed(items[0], key)] + StuffedAll(items[1..], key)
  }

  function StuffedFields(fields: seq<Field<Json>>, key: string): (s: seq<Field<Json>>)
    ensures |s| == |fields| && forall i :: 0 <= i < |fields| ==>
      s[i] == Field(fields[i].key, Stuffed(fields[i].value, key))
  {
    if fields == [] then [] else
      assert fields[0].value < fields[0];
      [Field(fields[0].key, Stuffed(fields[0].value, key))] + StuffedFields(fields[1..], key)
  }

  /** The value with one more field in every object strictly inside. */
  function Twin(v: Json, key: string): Json {
    match v
    case Arr(items) => Arr(StuffedAll(items, key))
    case Obj(fields) => Obj(StuffedFields(fields, key))
    case _ => v
  }

  lemma {:induction false} StuffedIsWellFormed(v: Json, key: string)
    requires WellFormed(v) && |key| > KeyLength(v)
    ensures WellFormed(Stuffed(v, key))
    decreases v
  {
    match v
    case Arr(items) =>
      forall i: nat | i < |items| ensures WellFormed(Stuffed(items[i], key)) {
        LongerThanItems(items, i);
        StuffedIsWellFormed(items[i], key);
      }
    case Obj(fields) => StuffedFieldsAreWellFormed(fields, key, v);
    case _ =>
  }

  lemma {:induction false} StuffedFieldsAreWellFormed(fields: seq<Field<Json>>, key: string, v: Json)
    requires v == Obj(fields) && WellFormed(v) && |key| > KeyLength(v)
    ensures WellFormed(Obj(StuffedFields(fields, key))) &&
      WellFormed(Obj(StuffedFields(fields, key) + [Field(key, Null)]))
    decreases v, 0
  {
    forall i: nat | i < |fields| ensures WellFormed(Stuffed(fields[i].value, key)) && fields[i].key != key {
      LongerThanFields(fields, i);
      assert fields[i].value < fields[i] && fields[i].value < v;
      StuffedIsWellFormed(fields[i].value, key);
    }
  }

  /** The added fields do not show under keys that leave the new one out. */
  lemma {:induction false} StuffingDoesNotShow(v: Json, key: string, keys: set<string>)
    requires key !in keys
    ensures Project(Stuffed(v, key), keys) == Project(v, keys)
    decreases v
  {
    match v
    case Arr(items) => StuffedItemsDoNotShow(items, key, keys);
    case Obj(fields) =>
      StuffedFieldsDoNotShow(fields, key, keys);
      LastDoesNotShow(StuffedFields(fields, key), key, keys);
    case _ =>
  }

  lemma {:induction false} StuffedItemsDoNotShow(items: seq<Json>, key: string, keys: set<string>)
    requires key !in keys
    ensures ProjectAll(StuffedAll(items, key), keys) == ProjectAll(items, keys)
    decreases items
  {
    if items != [] {
      StuffingDoesNotShow(items[0], key, keys);
      StuffedItemsDoNotShow(items[1..], key, keys);
      assert StuffedAll(items, key)[1..] == StuffedAll(items[1..], key);
    }
  }

  lemma {:induction false} StuffedFieldsDoNotShow(fields: seq<Field<Json>>, key: string, keys: set<string>)
    requires key !in keys
    ensures ProjectFields(StuffedFields(fields, key), keys) == ProjectFields(fields, keys)
    decreases fields
  {
    if fields != [] {
      assert fields[0].value < fields[0];
      StuffingDoesNotShow(fields[0].value, key, keys);
      StuffedFieldsDoNotShow(fields[1..], key, keys);
      assert StuffedFields(fields, key)[1..] == StuffedFields(fields[1..], key);
    }
  }

  lemma {:induction false} LastDoesNotShow(fields: seq<Field<Json>>, key: string, keys: set<string>)
    requires key !in keys
    ensures ProjectFields(fields + [Field(key, Null)], keys) == ProjectFields(fields, keys)
  {
    if fields != [] {
      assert (fields + [Field(key, Null)])[1..] == fields[1..] + [Field(key, Null)];
      LastDoesNotShow(fields[1..], key, keys);
    }
  }

  /** A value that holds an object is not the same with one more field in each. */
  lemma {:induction false} StuffingTells(v: Json, key: string)
    requires Same(v, Stuffed(v, key))
    ensures Bare(v)
    decreases v
  {
    if v.Arr? {
      SameArrays(v.items, StuffedAll(v.items, key));
      forall i | 0 <= i < |v.items| ensures Bare(v.items[i]) { StuffingTells(v.items[i], key); }
    }
  }

  lemma TwinTells(v: Json, key: string)
    requires WellFormed(v) && Same(v, Twin(v, key))
    ensures NoObjectInside(v)
  {
    match v
    case Arr(items) =>
      SameArrays(items, StuffedAll(items, key));
      hide Same, WellFormed, StuffedAll, Bare;
      forall i | 0 <= i < |items| ensures Bare(items[i]) { StuffingTells(items[i], key); }
    case Obj(fields) =>
      SameObjects(fields, StuffedFields(fields, key));
      assert DistinctKeys(fields);
      hide Same, WellFormed, StuffedFields, Stuffed, DistinctKeys, Matched, Bare;
      forall i: nat | i < |fields| ensures Bare(fields[i].value) { StuffedFieldTells(fields, key, i); }
    case _ =>
  }

  lemma StuffedFieldTells(fields: seq<Field<Json>>, key: string, i: nat)
    requires i < |fields| && DistinctKeys(fields) && Matched(fields[i], StuffedFields(fields, key))
    ensures Bare(fields[i].value)
  {
    var out := StuffedFields(fields, key);
    hide Same, Stuffed, StuffedFields, Bare;
    var j :| 0 <= j < |out| && fields[i].key == out[j].key && Same(fields[i].value, out[j].value);
    assert fields[j].key == fields[i].key;
    StuffingTells(fields[i].value, key);
  }

  function LongKey(n: nat): string { seq(n, _ => 'x') }

  /** A key that is no key of the value, and not one of its indices. */
  lemma LongKeyIsNew(v: Json, n: nat)
    requires n > KeyLength(v)
    ensures LongKey(n) !in KeysOf(v)
  {
    var key := LongKey(n);
    assert key[0] == 'x' && !IsDigit('x');
    forall i: nat ensures NumberText(i) != key { DigitsShape(i); }
    if v.Obj? {
      forall i: nat | i < |v.fields| ensures v.fields[i].key != key { LongerThanFields(v.fields, i); }
    }
  }

  lemma TwinLooksTheSame(v: Json, key: string)
    requires WellFormed(v) && |key| > KeyLength(v) && key !in KeysOf(v)
    ensures WellFormed(Twin(v, key)) && LooselySame(v, Twin(v, key))
  {
    match v
    case Arr(items) =>
      StuffedIsWellFormed(v, key);
      StuffedItemsDoNotShow(items, key, KeysOf(v));
      assert KeysOf(Twin(v, key)) == KeysOf(v);
    case Obj(fields) =>
      StuffedFieldsAreWellFormed(fields, key, v);
      StuffedFieldsDoNotShow(fields, key, KeysOf(v));
      var out := StuffedFields(fields, key);
      assert forall i :: 0 <= i < |fields| ==> out[i].key == fields[i].key;
      assert KeysOf(Twin(v, key)) == KeysOf(v);
    case _ =>
  }

  // ---------------------------------------------------------------- the exact condition

  /** Whatever the checker takes to be equal to this value is equal to it. */
  ghost predicate LooseEqualityIsRight(v: Json) { forall w :: WellFormed(w) && LooselySame(v, w) ==> Same(v, w) }

  /**
   * The checker tells a value from every other value exactly when no object stands strictly inside it:
   * flat objects, lists of scalars and scalars are compared rightly, and nothing else is.
   */
  lemma LooseEqualityIsRightIffFlat(v: Json)
    requires WellFormed(v)
    ensures LooseEqualityIsRight(v) <==> NoObjectInside(v)
  {
    hide WellFormed, LooselySame, Same, NoObjectInside;
    if NoObjectInside(v) {
      forall w | WellFormed(w) && LooselySame(v, w) ensures Same(v, w) { FlatIsToldApart(v, w); }
    }
    if LooseEqualityIsRight(v) {
      hide KeyLength, KeysOf, Twin, LongKey;
      var key := LongKey(KeyLength(v) + 1);
      LongKeyIsNew(v, KeyLength(v) + 1);
      LongKeyLength(KeyLength(v) + 1);
      TwinLooksTheSame(v, key);
      TwinTells(v, key);
    }
  }

  lemma LongKeyLength(n: nat)
    ensures |LongKey(n)| == n
  {
  }

  lemma FlatIsToldApart(v: Json, w: Json)
    requires WellFormed(v) && WellFormed(w) && NoObjectInside(v) && LooselySame(v, w)
    ensures Same(v, w)
  {
    var q := Project(w, KeysOf(w));
    ProjectIsStable(w, KeysOf(w));
    WrittenInFull(v);
    hide Project, KeysOf, Canonicalize, Same, WellFormed, NoObjectInside;
    CanonicalIsFaithful(q, v);
    SameHasNoObjectInside(q, v);
    WrittenInFull(w);
    CanonicalIsFaithful(v, w);
  }
}
