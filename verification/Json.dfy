/**
 * JSON values as JavaScript holds them: objects are ordered lists of fields with distinct keys,
 * numbers are integers, strings are sequences of Unicode scalar values.
 */
module Json {
  datatype Field<+V> = Field(key: string, value: V)

  datatype Json =
    | Null
    | Bool(b: bool)
    | Num(n: int)
    | Str(s: string)
    | Arr(items: seq<Json>)
    | Obj(fields: seq<Field<Json>>)

  ghost predicate DistinctKeys<V>(fields: seq<Field<V>>) {
    forall i, j :: 0 <= i < j < |fields| ==> fields[i].key != fields[j].key
  }

  /** Every object inside `v` has distinct keys. */
  ghost predicate WellFormed(v: Json) {
    match v
    case Arr(items) => forall i :: 0 <= i < |items| ==> WellFormed(items[i])
    case Obj(fields) => DistinctKeys(fields) && forall i :: 0 <= i < |fields| ==> WellFormed(fields[i].value)
    case _ => true
  }

  /** Structural equality: the order of an object's fields does not matter. */
  ghost predicate Same(v: Json, w: Json) {
    match v
    case Arr(items) =>
      w.Arr? && |items| == |w.items| && forall i :: 0 <= i < |items| ==> Same(items[i], w.items[i])
    case Obj(fields) =>
      w.Obj? && |fields| == |w.fields| &&
      forall i :: 0 <= i < |fields| ==>
        exists j :: 0 <= j < |w.fields| && fields[i].key == w.fields[j].key && Same(fields[i].value, w.fields[j].value)
    case _ => v == w
  }

  predicate HasKey<V>(fields: seq<Field<V>>, key: string) {
    exists i :: 0 <= i < |fields| && fields[i].key == key
  }

  // ---------------------------------------------------------------- key order

  /**
   * JavaScript compares strings by UTF-16 code units (section 3.2.3 of RFC 8785), where the
   * surrogate pairs of characters beyond U+FFFF come before U+E000..U+FFFF.
   */
  function UnitRank(c: char): int {
    var code := c as int;
    if code < 0xD800 then code else if code >= 0x10000 then code - 0x10000 + 0xD800 else code + 0x100000
  }

  predicate KeyLess(a: string, b: string) {
    if |b| == 0 then false
    else if |a| == 0 then true
    else if a[0] == b[0] then KeyLess(a[1..], b[1..])
    else UnitRank(a[0]) < UnitRank(b[0])
  }

  lemma {:induction false} KeyLessTotal(a: string, b: string)
    ensures a != b ==> KeyLess(a, b) || KeyLess(b, a)
    ensures !(KeyLess(a, b) && KeyLess(b, a))
    ensures !KeyLess(a, a)
  {
    if |a| > 0 { KeyLessTotal(a[1..], a[1..]); }
    if |a| > 0 && |b| > 0 && a[0] == b[0] {
      KeyLessTotal(a[1..], b[1..]);
      assert a == [a[0]] + a[1..] && b == [b[0]] + b[1..];
    }
  }

  lemma {:induction false} KeyLessTransitive(a: string, b: string, c: string)
    requires KeyLess(a, b) && KeyLess(b, c)
    ensures KeyLess(a, c)
  {
    if |a| > 0 && a[0] == b[0] && b[0] == c[0] {
      KeyLessTransitive(a[1..], b[1..], c[1..]);
    }
  }

  // ---------------------------------------------------------------- sorting fields by key

  function InsertField<V>(f: Field<V>, fields: seq<Field<V>>): seq<Field<V>> {
    if fields == [] || !KeyLess(fields[0].key, f.key) then [f] + fields
    else [fields[0]] + InsertField(f, fields[1..])
  }

  ghost predicate SortedFields<V>(fields: seq<Field<V>>) {
    forall i, j :: 0 <= i < j < |fields| ==> KeyLess(fields[i].key, fields[j].key)
  }

  lemma {:induction false} InsertKeeps<V>(f: Field<V>, fields: seq<Field<V>>)
    ensures |InsertField(f, fields)| == |fields| + 1
    ensures multiset(InsertField(f, fields)) == multiset([f] + fields)
    ensures forall x :: x in InsertField(f, fields) <==> x == f || x in fields
  {
    if !(fields == [] || !KeyLess(fields[0].key, f.key)) {
      InsertKeeps(f, fields[1..]);
      assert fields == [fields[0]] + fields[1..];
    }
  }

  lemma {:induction false} InsertedAt<V>(f: Field<V>, fields: seq<Field<V>>, j: nat)
    requires j < |InsertField(f, fields)|
    ensures InsertField(f, fields)[j] == f || exists k :: 0 <= k < |fields| && fields[k] == InsertField(f, fields)[j]
  {
    if fields == [] || !KeyLess(fields[0].key, f.key) {
      if j > 0 { assert fields[j - 1] == InsertField(f, fields)[j]; }
    } else if j > 0 {
      InsertedAt(f, fields[1..], j - 1);
      if InsertField(f, fields[1..])[j - 1] != f {
        var k :| 0 <= k < |fields[1..]| && fields[1..][k] == InsertField(f, fields[1..])[j - 1];
        assert fields[k + 1] == InsertField(f, fields)[j];
      }
    }
  }

  lemma {:induction false} InsertSorts<V>(f: Field<V>, fields: seq<Field<V>>)
    requires SortedFields(fields) && !HasKey(fields, f.key)
    ensures SortedFields(InsertField(f, fields))
  {
    if fields == [] || !KeyLess(fields[0].key, f.key) {
      forall j | 0 <= j < |fields| ensures KeyLess(f.key, fields[j].key) {
        KeyLessTotal(f.key, fields[0].key);
        if j > 0 { KeyLessTransitive(f.key, fields[0].key, fields[j].key); }
      }
    } else {
      InsertSorts(f, fields[1..]);
      InsertKeeps(f, fields[1..]);
      var rest := InsertField(f, fields[1..]);
      forall j | 0 <= j < |rest| ensures KeyLess(fields[0].key, rest[j].key) {
        InsertedAt(f, fields[1..], j);
        if rest[j] != f {
          var k :| 0 <= k < |fields[1..]| && fields[1..][k] == rest[j];
          assert fields[k + 1] == rest[j];
        }
      }
    }
  }

  /** Two key-sorted lists of one length, the first contained in the second, are the same list. */
  lemma {:induction false} SortedUnique<V>(a: seq<Field<V>>, b: seq<Field<V>>)
    requires SortedFields(a) && SortedFields(b) && |a| == |b|
    requires forall x :: x in a ==> x in b
    ensures a == b
  {
    if a != [] {
      var n := |a| - 1;
      // The greatest element of `b` must be met by `a`, or `a` would have too few places to put its elements.
      SortedSubsetLast(a, b);
      assert a == a[..n] + [a[n]] && b == b[..n] + [b[n]];
      forall x | x in a[..n] ensures x in b[..n] {
        var i :| 0 <= i < n && a[i] == x;
        assert x in a && x in b;
        var j :| 0 <= j < |b| && b[j] == x;
        KeyLessTotal(a[i].key, a[n].key);
      }
      SortedUnique(a[..n], b[..n]);
    }
  }

  lemma {:induction false} SortedSubsetLast<V>(a: seq<Field<V>>, b: seq<Field<V>>)
    requires SortedFields(a) && SortedFields(b) && |a| == |b| > 0
    requires forall x :: x in a ==> x in b
    ensures a[|a| - 1] == b[|b| - 1]
  {
    var n := |a| - 1;
    assert a[n] in b;
    var j :| 0 <= j < |b| && b[j] == a[n];
    if j < n {
      // Then every element of `a` is among the first `j + 1` elements of `b`: too few.
      forall x | x in a ensures x in b[..j + 1] {
        var i :| 0 <= i < |a| && a[i] == x;
        var k :| 0 <= k < |b| && b[k] == x;
        if k > j {
          KeyLessTotal(b[j].key, b[k].key);
          assert false;
        }
      }
      SortedNoDuplicates(a);
      NoMoreThan(a, b[..j + 1]);
    }
  }

  lemma SortedNoDuplicates<V>(a: seq<Field<V>>)
    requires SortedFields(a)
    ensures forall i, j :: 0 <= i < j < |a| ==> a[i] != a[j]
  {
    forall i, j | 0 <= i < j < |a| ensures a[i] != a[j] { KeyLessTotal(a[i].key, a[j].key); }
  }

  /** A list without repetition is no longer than a list containing all its elements. */
  lemma {:induction false} NoMoreThan<T>(a: seq<T>, b: seq<T>)
    requires forall i, j :: 0 <= i < j < |a| ==> a[i] != a[j]
    requires forall x :: x in a ==> x in b
    ensures |a| <= |b|
  {
    if a != [] {
      assert a[0] in a && a[0] in b;
      var j :| 0 <= j < |b| && b[j] == a[0];
      var b' := b[..j] + b[j + 1..];
      forall x | x in a[1..] ensures x in b' {
        var i :| 1 <= i < |a| && a[i] == x;
        assert x in b && x != a[0];
        var k :| 0 <= k < |b| && b[k] == x;
        if k < j { assert b'[k] == x; } else { assert b'[k - 1] == x; }
      }
      NoMoreThan(a[1..], b');
    }
  }
}
