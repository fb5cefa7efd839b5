/** Reading canonical text gives back the key-sorted value; equal texts mean equal values. */
module CanonicalRoundTrip {
  import opened Wrappers
  import opened Json
  import opened Canonical
  import opened JsonParser

  /** What may follow a value inside a larger text. */
  predicate Stops(rest: string) { rest == "" || rest[0] in ",]}" }

  // ---------------------------------------------------------------- strings

  predicate IsShort(c: char) { c == '"' || c == '\\' || c as int in {8, 9, 10, 12, 13} }

  lemma EscapeReads(c: char, rest: string)
    ensures EscapeChar(c) != "" && EscapeChar(c)[0] != '"' && EscapeChar(c)[0] as int >= 0x20
    ensures var e := EscapeChar(c) + rest;
      (if e[0] == '\\' then ReadEscape(e[1..]) else Some((e[0], e[1..]))) == Some((c, rest))
  {
    EscapeShape(c);
    TailOf(EscapeChar(c), rest);
    hide EscapeChar, ReadEscape, HexDigit;
    if IsShort(c) {
      ShortReads(c, rest);
    } else if (c as int) < 0x20 {
      ControlReads(c, rest);
    } else {
      assert "" + rest == rest;
    }
  }

  /** One character, two, or six. */
  lemma EscapeShape(c: char)
    ensures EscapeChar(c) != "" && EscapeChar(c)[0] != '"' && EscapeChar(c)[0] as int >= 0x20
    ensures IsShort(c) ==> |EscapeChar(c)| == 2 && EscapeChar(c)[0] == '\\' && EscapeChar(c)[1..] == [EscapeChar(c)[1]]
    ensures !IsShort(c) && (c as int) < 0x20 ==>
      EscapeChar(c)[0] == '\\' &&
        EscapeChar(c)[1..] == ['u', '0', '0', HexDigit(c as int / 16), HexDigit(c as int % 16)]
    ensures !IsShort(c) && (c as int) >= 0x20 ==> EscapeChar(c)[0] == c != '\\' && EscapeChar(c)[1..] == ""
  {
    hide HexDigit;
  }

  lemma TailOf(t: string, rest: string)
    requires t != ""
    ensures (t + rest)[0] == t[0] && (t + rest)[1..] == t[1..] + rest
  {
  }

  lemma ShortReads(c: char, rest: string)
    requires IsShort(c)
    ensures |EscapeChar(c)| == 2 && EscapeChar(c)[0] == '\\' && ReadEscape([EscapeChar(c)[1]] + rest) == Some((c, rest))
  {
    var s := [EscapeChar(c)[1]] + rest;
    assert s[1..] == rest;
  }

  lemma ControlReads(c: char, rest: string)
    requires (c as int) < 0x20
    ensures ReadEscape(['u', '0', '0', HexDigit(c as int / 16), HexDigit(c as int % 16)] + rest) == Some((c, rest))
  {
    var hi, lo := HexDigit(c as int / 16), HexDigit(c as int % 16);
    var s := ['u', '0', '0', hi, lo] + rest;
    AfterU(hi, lo, rest);
    assert ReadEscape(s) == (var d := HexChar(s[1..5]); if d.None? then None else Some((d.value, s[5..])));
    hide ReadEscape;
    HexReads(c as int / 16);
    HexReads(c as int % 16);
    HexReads(0);
  }

  lemma AfterU(hi: char, lo: char, rest: string)
    ensures var s := ['u', '0', '0', hi, lo] + rest;
      s[0] == 'u' && |s| >= 5 && s[1..5] == ['0', '0', hi, lo] && s[5..] == rest
  {
    var s := ['u', '0', '0', hi, lo] + rest;
    assert s[1] == '0' && s[2] == '0' && s[3] == hi && s[4] == lo;
  }

  lemma HexReads(n: nat)
    requires n < 16
    ensures HexValue(HexDigit(n)) == Some(n)
  {
  }

  lemma {:induction false} CharsRead(s: string, rest: string)
    ensures ReadChars(Escape(s) + "\"" + rest) == Some((s, rest))
  {
    if s == "" {
      assert Escape(s) + "\"" + rest == "\"" + rest;
    } else {
      var tail := Escape(s[1..]) + "\"" + rest;
      hide EscapeChar, ReadEscape, ReadChars;
      Assoc(EscapeChar(s[0]), Escape(s[1..]), "\"");
      Assoc(EscapeChar(s[0]), Escape(s[1..]) + "\"", rest);
      hide Escape;
      CharsRead(s[1..], rest);
      EscapeReads(s[0], tail);
      FirstCharReads(EscapeChar(s[0]) + tail, s[0], tail);
      assert s == [s[0]] + s[1..];
    }
  }

  lemma FirstCharReads(text: string, c: char, tail: string)
    requires text != "" && text[0] != '"' && text[0] as int >= 0x20
    requires (if text[0] == '\\' then ReadEscape(text[1..]) else Some((text[0], text[1..]))) == Some((c, tail))
    ensures ReadChars(text) == var more := ReadChars(tail);
      if more.None? then None else Some(([c] + more.value.0, more.value.1))
  {
    hide ReadEscape;
  }

  lemma QuoteReads(s: string, rest: string)
    ensures ReadString(Quote(s) + rest) == Some((s, rest))
  {
    assert (Quote(s) + rest)[1..] == Escape(s) + "\"" + rest;
    CharsRead(s, rest);
  }

  // ---------------------------------------------------------------- numbers

  lemma {:induction false} DigitsShape(n: nat)
    ensures Digits(n) != "" && forall i :: 0 <= i < |Digits(n)| ==> IsDigit(Digits(n)[i])
    ensures Digits(n)[0] == '0' <==> n == 0
  {
    if n >= 10 { DigitsShape(n / 10); }
  }

  lemma {:induction false} DigitsAppend(a: string, b: string, acc: nat)
    requires forall i :: 0 <= i < |a| ==> IsDigit(a[i])
    ensures ReadDigits(a + b, acc) == ReadDigits(b, ReadDigits(a, acc).0)
  {
    if a == "" {
      assert a + b == b;
    } else {
      assert (a + b)[1..] == a[1..] + b;
      DigitsAppend(a[1..], b, acc * 10 + DigitValue(a[0]));
    }
  }

  lemma {:induction false} DigitsRead(n: nat)
    ensures forall i :: 0 <= i < |Digits(n)| ==> IsDigit(Digits(n)[i])
    ensures ReadDigits(Digits(n), 0) == (n, "")
  {
    DigitsShape(n);
    if n >= 10 {
      DigitsRead(n / 10);
      DigitsShape(n / 10);
      DigitsAppend(Digits(n / 10), [DigitChar(n % 10)], 0);
      assert [DigitChar(n % 10)][1..] == "";
    } else {
      assert [DigitChar(n)][1..] == "";
    }
  }

  lemma NaturalReads(n: nat, rest: string)
    requires Stops(rest)
    ensures ReadNatural(Digits(n) + rest) == Some((n, rest))
  {
    var d := Digits(n);
    assert n == 0 ==> d == "0";
    DigitsShape(n);
    DigitsRead(n);
    DigitsAppend(d, rest, 0);
    assert ReadDigits(rest, n) == (n, rest);
    assert ReadDigits(d + rest, 0) == ReadDigits((d + rest)[1..], DigitValue(d[0]));
    hide Digits, ReadDigits;
    assert (d + rest)[0] == d[0] && (d + rest)[1..] == d[1..] + rest;
  }

  lemma NumberReads(n: int, rest: string)
    requires Stops(rest)
    ensures ReadNumber(NumberText(n) + rest) == Some((n, rest))
    ensures NumberText(n) != "" && (NumberText(n)[0] == '-' || IsDigit(NumberText(n)[0]))
  {
    hide Digits, ReadNatural;
    if n < 0 {
      NaturalReads(-n, rest);
      assert (NumberText(n) + rest)[0] == '-' && (NumberText(n) + rest)[1..] == Digits(-n) + rest;
    } else {
      NaturalReads(n, rest);
      DigitsShape(n);
      assert (Digits(n) + rest)[0] == Digits(n)[0] && !IsDigit('-');
    }
  }

  // ---------------------------------------------------------------- values

  lemma EmitStarts(v: Json)
    ensures Emit(v) != "" && !IsSpace(Emit(v)[0])
    ensures Emit(v)[0] != ']' && Emit(v)[0] != '}'
  {
    if v.Num? { NumberReads(v.n, ""); }
  }

  /** What follows the first part of a joined text that ends in `t`. */
  function JoinTail(parts: seq<string>, t: string): string {
    if parts == [] then t else "," + (Join(parts) + t)
  }

  lemma Assoc(a: string, b: string, c: string)
    ensures (a + b) + c == a + (b + c)
  {
  }

  lemma JoinSplits(parts: seq<string>, t: string)
    requires parts != []
    ensures Join(parts) + t == parts[0] + JoinTail(parts[1..], t)
  {
    if |parts| > 1 {
      Assoc(parts[0] + ",", Join(parts[1..]), t);
      Assoc(parts[0], ",", Join(parts[1..]) + t);
    }
  }

  lemma TailStops(parts: seq<string>, t: string)
    requires t != "" && Stops(t)
    ensures JoinTail(parts, t) != "" && Stops(JoinTail(parts, t)) && SkipSpace(JoinTail(parts, t)) == JoinTail(parts, t)
  {
  }

  lemma {:induction false} EmitReads(v: Json, rest: string)
    requires WellFormed(v) && Stops(rest)
    ensures ReadValue(Emit(v) + rest) == Some((v, rest))
    decreases v, 0
  {
    match v
    case Arr(items) => ArrReads(items, rest);
    case Obj(fields) => ObjReads(fields, rest);
    case _ => ScalarReads(v, rest);
  }

  lemma ScalarReads(v: Json, rest: string)
    requires !v.Arr? && !v.Obj? && Stops(rest)
    ensures ReadValue(Emit(v) + rest) == Some((v, rest))
  {
    EmitStarts(v);
    var text := Emit(v) + rest;
    assert SkipSpace(text) == text;
    match v
    case Null => assert text[4..] == rest;
    case Bool(b) => if b { assert text[4..] == rest; } else { assert text[5..] == rest; }
    case Num(n) => NumberReads(n, rest);
    case Str(s) => QuoteReads(s, rest);
  }

  lemma ReadArray(body: string)
    ensures ReadValue("[" + body) ==
      var t := SkipSpace(body);
      if t != "" && t[0] == ']' then Some((Arr([]), t[1..])) else
        var r := ReadItems(body, []);
        if r.None? then None else Some((Arr(r.value.0), r.value.1))
  {
    OpenReads("[", body);
    ReadFromBracket("[" + body);
    hide ReadValue, ReadItems, SkipSpace;
  }

  lemma ReadFromBracket(s: string)
    requires s != "" && s[0] == '[' && SkipSpace(s) == s
    ensures ReadValue(s) ==
      var t := SkipSpace(s[1..]);
      if t != "" && t[0] == ']' then Some((Arr([]), t[1..])) else
        var r := ReadItems(s[1..], []);
        if r.None? then None else Some((Arr(r.value.0), r.value.1))
  {
    hide ReadLiteral, ReadNumber, ReadString, ReadItems, ReadFields, SkipSpace;
  }

  lemma ReadFromBrace(s: string)
    requires s != "" && s[0] == '{' && SkipSpace(s) == s
    ensures ReadValue(s) ==
      var t := SkipSpace(s[1..]);
      if t != "" && t[0] == '}' then Some((Obj([]), t[1..])) else
        var r := ReadFields(s[1..], []);
        if r.None? then None else Some((Obj(r.value.0), r.value.1))
  {
    hide ReadLiteral, ReadNumber, ReadString, ReadItems, ReadFields, SkipSpace;
  }

  lemma ReadObject(body: string)
    ensures ReadValue("{" + body) ==
      var t := SkipSpace(body);
      if t != "" && t[0] == '}' then Some((Obj([]), t[1..])) else
        var r := ReadFields(body, []);
        if r.None? then None else Some((Obj(r.value.0), r.value.1))
  {
    OpenReads("{", body);
    ReadFromBrace("{" + body);
    hide ReadValue, ReadFields, SkipSpace;
  }

  lemma OpenReads(open: string, body: string)
    requires open == "[" || open == "{"
    ensures (open + body)[1..] == body && (open + body)[0] == open[0]
    ensures SkipSpace(open + body) == open + body
  {
  }

  lemma {:induction false} ArrReads(items: seq<Json>, rest: string)
    requires forall i :: 0 <= i < |items| ==> WellFormed(items[i])
    ensures ReadValue(Emit(Arr(items)) + rest) == Some((Arr(items), rest))
    decreases items, 2
  {
    var body := Join(EmitAll(items)) + ("]" + rest);
    Assoc("[" + Join(EmitAll(items)), "]", rest);
    Assoc("[", Join(EmitAll(items)), "]" + rest);
    assert Emit(Arr(items)) + rest == "[" + body;
    ReadArray(body);
    hide ReadValue, ReadItems, ReadFields;
    if items == [] {
      assert body == "]" + rest && body[1..] == rest;
    } else {
      PartsStart(EmitAll(items), "]" + rest) by { EmitStarts(items[0]); }
      ItemsRead([], items, rest);
      assert [] + items == items;
    }
  }

  lemma PartsStart(parts: seq<string>, t: string)
    requires parts != [] && parts[0] != "" && !IsSpace(parts[0][0])
    ensures var text := Join(parts) + t;
      text != "" && text[0] == parts[0][0] && SkipSpace(text) == text
  {
  }

  lemma {:induction false} ItemsRead(before: seq<Json>, items: seq<Json>, rest: string)
    requires items != [] && forall i :: 0 <= i < |items| ==> WellFormed(items[i])
    ensures ReadItems(Join(EmitAll(items)) + ("]" + rest), before) == Some((before + items, rest))
    decreases items, 1
  {
    var tail := JoinTail(EmitAll(items[1..]), "]" + rest);
    JoinSplits(EmitAll(items), "]" + rest);
    assert EmitAll(items)[1..] == EmitAll(items[1..]);
    TailStops(EmitAll(items[1..]), "]" + rest);
    EmitReads(items[0], tail);
    hide Emit, WellFormed, ReadValue, SkipSpace;
    if |items| == 1 {
      assert tail[1..] == rest;
      assert items == [items[0]];
    } else {
      assert tail[1..] == Join(EmitAll(items[1..])) + ("]" + rest);
      ItemsRead(before + [items[0]], items[1..], rest);
      assert before + [items[0]] + items[1..] == before + items;
    }
  }

  lemma {:induction false} ObjReads(fields: seq<Field<Json>>, rest: string)
    requires DistinctKeys(fields) && forall i :: 0 <= i < |fields| ==> WellFormed(fields[i].value)
    ensures ReadValue(Emit(Obj(fields)) + rest) == Some((Obj(fields), rest))
    decreases fields, 2
  {
    var body := Join(FieldLines(fields)) + ("}" + rest);
    Assoc("{" + Join(FieldLines(fields)), "}", rest);
    Assoc("{", Join(FieldLines(fields)), "}" + rest);
    assert Emit(Obj(fields)) + rest == "{" + body;
    ReadObject(body);
    hide ReadValue, ReadItems, ReadFields;
    if fields == [] {
      assert body == "}" + rest && body[1..] == rest;
    } else {
      PartsStart(FieldLines(fields), "}" + rest);
      FieldsRead([], fields, rest);
      assert [] + fields == fields;
    }
  }

  lemma {:induction false} PutNewField(fields: seq<Field<Json>>, f: Field<Json>)
    requires !HasKey(fields, f.key)
    ensures PutField(fields, f.key, f.value) == fields + [f]
  {
    if fields != [] {
      assert fields[0].key != f.key;
      forall i | 0 <= i < |fields[1..]| ensures fields[1..][i].key != f.key { assert fields[i + 1].key != f.key; }
      PutNewField(fields[1..], f);
    }
  }

  /** What `ReadFields` does once one more field has been read. */
  function AfterField(rest: string, fields: seq<Field<Json>>): Parsed<seq<Field<Json>>> {
    if rest == "" then None
    else if rest[0] == ',' then ReadFields(rest[1..], fields)
    else if rest[0] == '}' then Some((fields, rest[1..]))
    else None
  }

  lemma LineReads(key: string, text: string, tail: string)
    ensures ReadString(SkipSpace(FieldLine(key, text) + tail)) == Some((key, ":" + (text + tail)))
    ensures SkipSpace(":" + (text + tail)) == ":" + (text + tail) && (":" + (text + tail))[1..] == text + tail
  {
    QuoteReads(key, ":" + (text + tail));
    assert FieldLine(key, text) + tail == Quote(key) + (":" + (text + tail));
    assert (FieldLine(key, text) + tail)[0] == '"';
  }

  lemma FieldReads(before: seq<Field<Json>>, f: Field<Json>, text: string, tail: string)
    requires tail != "" && SkipSpace(tail) == tail && ReadValue(text + tail) == Some((f.value, tail))
    requires !HasKey(before, f.key)
    ensures ReadFields(FieldLine(f.key, text) + tail, before) == AfterField(tail, before + [f])
  {
    LineReads(f.key, text, tail);
    PutNewField(before, f);
  }

  lemma KeyIsNew(before: seq<Field<Json>>, fields: seq<Field<Json>>)
    requires fields != [] && DistinctKeys(before + fields)
    ensures !HasKey(before, fields[0].key)
  {
    forall i | 0 <= i < |before| ensures before[i].key != fields[0].key {
      assert (before + fields)[i].key != (before + fields)[|before|].key;
    }
  }

  lemma {:induction false} FieldsRead(before: seq<Field<Json>>, fields: seq<Field<Json>>, rest: string)
    requires fields != [] && DistinctKeys(before + fields)
    requires forall i :: 0 <= i < |fields| ==> WellFormed(fields[i].value)
    ensures ReadFields(Join(FieldLines(fields)) + ("}" + rest), before) == Some((before + fields, rest))
    decreases fields, 1
  {
    hide Emit, ReadValue, SkipSpace, ReadFields, FieldLine, DistinctKeys, FieldLines, Join, HasKey, Stops, JoinTail;
    var f := fields[0];
    assert f.value < f;
    FirstLine(fields, rest);
    EmitReads(f.value, JoinTail(FieldLines(fields[1..]), "}" + rest));
    FirstFieldReads(before, fields, rest);
    if |fields| == 1 {
      assert before + fields == before + [f];
    } else {
      assert before + [f] + fields[1..] == before + fields;
      FieldsRead(before + [f], fields[1..], rest);
    }
  }

  /** Reading goes on after the first field, whose value reads back. */
  lemma FirstFieldReads(before: seq<Field<Json>>, fields: seq<Field<Json>>, rest: string)
    requires fields != [] && DistinctKeys(before + fields)
    requires var tail := JoinTail(FieldLines(fields[1..]), "}" + rest);
      ReadValue(Emit(fields[0].value) + tail) == Some((fields[0].value, tail))
    ensures ReadFields(Join(FieldLines(fields)) + ("}" + rest), before) ==
      if |fields| == 1 then Some((before + [fields[0]], rest))
      else ReadFields(Join(FieldLines(fields[1..])) + ("}" + rest), before + [fields[0]])
  {
    hide Emit, ReadValue, SkipSpace, ReadFields, FieldLine, DistinctKeys, AfterField, FieldLines, Join, HasKey, Stops,
      JoinTail;
    var f, tail := fields[0], JoinTail(FieldLines(fields[1..]), "}" + rest);
    FirstLine(fields, rest);
    KeyIsNew(before, fields);
    FieldReads(before, f, Emit(f.value), tail);
    EndOfFields(before + [f], rest);
    MoreFields(before + [f], Join(FieldLines(fields[1..])) + ("}" + rest));
  }

  /** The first line of the fields, and what follows it. */
  lemma FirstLine(fields: seq<Field<Json>>, rest: string)
    requires fields != []
    ensures var tail := JoinTail(FieldLines(fields[1..]), "}" + rest);
      && Join(FieldLines(fields)) + ("}" + rest) == FieldLine(fields[0].key, Emit(fields[0].value)) + tail
      && tail == (if |fields| == 1 then "}" + rest else "," + (Join(FieldLines(fields[1..])) + ("}" + rest)))
      && tail != "" && Stops(tail) && SkipSpace(tail) == tail
  {
    hide Emit, FieldLine;
    JoinSplits(FieldLines(fields), "}" + rest);
    assert FieldLines(fields)[1..] == FieldLines(fields[1..]);
    TailStops(FieldLines(fields[1..]), "}" + rest);
  }

  lemma EndOfFields(fields: seq<Field<Json>>, rest: string)
    ensures AfterField("}" + rest, fields) == Some((fields, rest))
  {
    assert ("}" + rest)[1..] == rest;
  }

  lemma MoreFields(fields: seq<Field<Json>>, t: string)
    ensures AfterField("," + t, fields) == ReadFields(t, fields)
  {
    assert ("," + t)[1..] == t;
  }

  // ---------------------------------------------------------------- sorting keeps the value

  lemma {:induction false} SortedAllShape(items: seq<Json>)
    requires forall i :: 0 <= i < |items| ==> WellFormed(items[i])
    ensures |SortedAll(items)| == |items|
    ensures forall i :: 0 <= i < |items| ==> SortedAll(items)[i] == Sorted(items[i]) && WellFormed(SortedAll(items)[i])
    decreases items, 1
  {
    if items != [] {
      SortedShape(items[0]);
      SortedAllShape(items[1..]);
    }
  }

  /** Sorting an object's fields keeps exactly its fields, each value sorted. */
  lemma {:induction false} SortedByKeyShape(fields: seq<Field<Json>>)
    requires DistinctKeys(fields) && forall i :: 0 <= i < |fields| ==> WellFormed(fields[i].value)
    ensures |SortedByKey(fields)| == |fields| && SortedFields(SortedByKey(fields))
    ensures forall f :: f in SortedByKey(fields) ==> WellFormed(f.value) && HasSorted(fields, f)
    ensures forall i :: 0 <= i < |fields| ==> Field(fields[i].key, Sorted(fields[i].value)) in SortedByKey(fields)
    decreases fields, 1
  {
    if fields != [] {
      var f, rest := fields[0], fields[1..];
      assert f.value < f;
      SortedShape(f.value);
      SortedByKeyShape(rest);
      InsertedStaysSorted(fields, SortedByKey(rest));
      InsertedHolds(fields, SortedByKey(rest));
      hide SortedFields, HasSorted, WellFormed, Sorted, DistinctKeys, InsertField;
    }
  }

  /** The first field belongs into the sorted rest: it has a key of its own there. */
  lemma InsertedStaysSorted(fields: seq<Field<Json>>, sorted: seq<Field<Json>>)
    requires fields != [] && DistinctKeys(fields) && SortedFields(sorted)
    requires forall f :: f in sorted ==> HasSorted(fields[1..], f)
    ensures var g := Field(fields[0].key, Sorted(fields[0].value));
      SortedFields(InsertField(g, sorted)) && |InsertField(g, sorted)| == |sorted| + 1
  {
    hide Sorted, SortedFields, InsertField;
    var g, rest := Field(fields[0].key, Sorted(fields[0].value)), fields[1..];
    InsertKeeps(g, sorted);
    forall i | 0 <= i < |sorted| ensures sorted[i].key != g.key {
      assert sorted[i] in sorted;
      var j :| 0 <= j < |rest| && sorted[i] == Field(rest[j].key, Sorted(rest[j].value));
      assert fields[j + 1] == rest[j];
    }
    InsertSorts(g, sorted);
  }

  /** What is in the list then: every field, sorted inside. */
  lemma InsertedHolds(fields: seq<Field<Json>>, sorted: seq<Field<Json>>)
    requires fields != [] && WellFormed(Sorted(fields[0].value))
    requires forall f :: f in sorted ==> WellFormed(f.value) && HasSorted(fields[1..], f)
    requires forall i :: 0 <= i < |fields[1..]| ==> Field(fields[1..][i].key, Sorted(fields[1..][i].value)) in sorted
    ensures var out := InsertField(Field(fields[0].key, Sorted(fields[0].value)), sorted);
      && (forall f :: f in out ==> WellFormed(f.value) && HasSorted(fields, f))
      && forall i :: 0 <= i < |fields| ==> Field(fields[i].key, Sorted(fields[i].value)) in out
  {
    hide Sorted, InsertField, WellFormed;
    var g, rest := Field(fields[0].key, Sorted(fields[0].value)), fields[1..];
    InsertKeeps(g, sorted);
    forall h | h in InsertField(g, sorted) ensures WellFormed(h.value) && HasSorted(fields, h) {
      if h == g {
        assert h == Field(fields[0].key, Sorted(fields[0].value));
      } else {
        var j :| 0 <= j < |rest| && h == Field(rest[j].key, Sorted(rest[j].value));
        assert fields[j + 1] == rest[j];
      }
    }
    forall i | 0 <= i < |fields| ensures Field(fields[i].key, Sorted(fields[i].value)) in InsertField(g, sorted) {
      if i > 0 { assert fields[i] == rest[i - 1] && Field(rest[i - 1].key, Sorted(rest[i - 1].value)) in sorted; }
    }
  }

  ghost predicate HasSorted(fields: seq<Field<Json>>, f: Field<Json>) {
    exists i :: 0 <= i < |fields| && f == Field(fields[i].key, Sorted(fields[i].value))
  }

  lemma {:induction false} SortedShape(v: Json)
    requires WellFormed(v)
    ensures WellFormed(Sorted(v))
    decreases v, 0
  {
    match v
    case Arr(items) => SortedAllShape(items);
    case Obj(fields) =>
      SortedByKeyShape(fields);
      var out := SortedByKey(fields);
      forall i, j | 0 <= i < j < |out| ensures out[i].key != out[j].key { KeyLessTotal(out[i].key, out[j].key); }
      forall i | 0 <= i < |out| ensures WellFormed(out[i].value) { assert out[i] in out; }
    case _ =>
  }

  /** Sorting forgets key order and nothing else. */
  lemma {:induction false} SameIffSortedEqual(v: Json, w: Json)
    requires WellFormed(v) && WellFormed(w)
    ensures Same(v, w) <==> Sorted(v) == Sorted(w)
    decreases v
  {
    match v
    case Arr(items) =>
      if w.Arr? {
        SortedAllShape(items);
        SortedAllShape(w.items);
        if |items| == |w.items| {
          forall i | 0 <= i < |items| ensures Same(items[i], w.items[i]) <==> Sorted(items[i]) == Sorted(w.items[i]) {
            SameIffSortedEqual(items[i], w.items[i]);
          }
          if forall i :: 0 <= i < |items| ==> Same(items[i], w.items[i]) {
            assert SortedAll(items) == SortedAll(w.items);
          } else {
            var i :| 0 <= i < |items| && !Same(items[i], w.items[i]);
            assert SortedAll(items)[i] != SortedAll(w.items)[i];
          }
        }
      }
    case Obj(fields) =>
      if w.Obj? {
        SortedByKeyShape(fields);
        SortedByKeyShape(w.fields);
        if Same(v, w) { SameSortsAlike(v, w); }
        if Sorted(v) == Sorted(w) { SortedAlikeSame(v, w); }
      }
    case _ =>
  }

  lemma {:induction false} SameSortsAlike(v: Json, w: Json)
    requires WellFormed(v) && WellFormed(w) && v.Obj? && w.Obj? && Same(v, w)
    ensures Sorted(v) == Sorted(w)
    decreases v, 0
  {
    var a, b := SortedByKey(v.fields), SortedByKey(w.fields);
    SortedByKeyShape(v.fields);
    SortedByKeyShape(w.fields);
    forall x | x in a ensures x in b {
      var i :| 0 <= i < |v.fields| && x == Field(v.fields[i].key, Sorted(v.fields[i].value));
      var j :| 0 <= j < |w.fields| && v.fields[i].key == w.fields[j].key && Same(v.fields[i].value, w.fields[j].value);
      assert v.fields[i].value < v.fields[i];
      SameIffSortedEqual(v.fields[i].value, w.fields[j].value);
    }
    SortedUnique(a, b);
  }

  lemma {:induction false} SortedAlikeSame(v: Json, w: Json)
    requires WellFormed(v) && WellFormed(w) && v.Obj? && w.Obj? && Sorted(v) == Sorted(w)
    ensures Same(v, w)
    decreases v, 0
  {
    SortedByKeyShape(v.fields);
    SortedByKeyShape(w.fields);
    forall i | 0 <= i < |v.fields|
      ensures exists j ::
        0 <= j < |w.fields| && v.fields[i].key == w.fields[j].key && Same(v.fields[i].value, w.fields[j].value)
    {
      var x := Field(v.fields[i].key, Sorted(v.fields[i].value));
      assert x in SortedByKey(w.fields);
      var j :| 0 <= j < |w.fields| && x == Field(w.fields[j].key, Sorted(w.fields[j].value));
      assert v.fields[i].value < v.fields[i];
      SameIffSortedEqual(v.fields[i].value, w.fields[j].value);
    }
  }

  // ---------------------------------------------------------------- the main results

  /** Reading the canonical text gives the key-sorted value. */
  lemma ParseCanonical(v: Json)
    requires WellFormed(v)
    ensures Parse(Canonicalize(v)) == Some(Sorted(v))
  {
    CanonicalIsSortedText(v);
    SortedShape(v);
    EmitReads(Sorted(v), "");
    assert Emit(Sorted(v)) + "" == Emit(Sorted(v));
  }

  /** Canonical texts agree exactly when the values are structurally equal. */
  lemma CanonicalIsFaithful(v: Json, w: Json)
    requires WellFormed(v) && WellFormed(w)
    ensures Canonicalize(v) == Canonicalize(w) <==> Same(v, w)
  {
    ParseCanonical(v);
    ParseCanonical(w);
    CanonicalIsSortedText(v);
    CanonicalIsSortedText(w);
    SameIffSortedEqual(v, w);
  }

  /** The value `canonicalJsonValue` returns. */
  function CanonicalValue(v: Json): Option<Json> { Parse(Canonicalize(v)) }

  /** The key-sorted value has the text of the original and is its own key-sorted form. */
  lemma SortedIsIdempotent(v: Json)
    requires WellFormed(v)
    ensures Sorted(Sorted(v)) == Sorted(v) && Same(v, Sorted(v)) && Canonicalize(Sorted(v)) == Canonicalize(v)
  {
    SortedShape(v);
    SortedTwice(v);
    SameIffSortedEqual(v, Sorted(v));
    CanonicalIsSortedText(v);
    CanonicalIsSortedText(Sorted(v));
  }

  lemma {:induction false} SortedTwice(v: Json)
    requires WellFormed(v)
    ensures Sorted(Sorted(v)) == Sorted(v)
    decreases v
  {
    match v
    case Arr(items) =>
      SortedAllShape(items);
      SortedAllShape(SortedAll(items));
      forall i | 0 <= i < |items| ensures SortedAll(SortedAll(items))[i] == SortedAll(items)[i] {
        SortedTwice(items[i]);
      }
    case Obj(fields) =>
      SortedByKeyShape(fields);
      var out := SortedByKey(fields);
      forall i, j | 0 <= i < j < |out| ensures out[i].key != out[j].key { KeyLessTotal(out[i].key, out[j].key); }
      forall i | 0 <= i < |out| ensures WellFormed(out[i].value) { assert out[i] in out; }
      SortedByKeyShape(out);
      forall x | x in SortedByKey(out) ensures x in out {
        var i :| 0 <= i < |out| && x == Field(out[i].key, Sorted(out[i].value));
        assert out[i] in out;
        var j :| 0 <= j < |fields| && out[i] == Field(fields[j].key, Sorted(fields[j].value));
        assert fields[j].value < fields[j];
        SortedTwice(fields[j].value);
      }
      SortedUnique(SortedByKey(out), out);
    case _ =>
  }

  /** Canonicalising a value twice changes nothing the second time. */
  lemma CanonicalValueIsIdempotent(v: Json)
    requires WellFormed(v)
    ensures CanonicalValue(v).Some? && Same(v, CanonicalValue(v).value)
    ensures CanonicalValue(CanonicalValue(v).value) == CanonicalValue(v)
  {
    ParseCanonical(v);
    SortedIsIdempotent(v);
  }
}
