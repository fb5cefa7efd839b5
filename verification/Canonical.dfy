/**
 * Canonical JSON text: keys sorted, no white space, minimal escapes. A parser for section 7 of
 * RFC 8259 strings and for integer numbers reads it back, which makes the text a faithful name
 * for the value up to the order of its keys.
 */
module Canonical {
  import opened Json

  // ---------------------------------------------------------------- printing

  function HexDigit(n: nat): char
    requires n < 16
  {
    "0123456789abcdef"[n]
  }

  function EscapeChar(c: char): string {
    if c == '"' then "\\\""
    else if c == '\\' then "\\\\"
    else if c as int == 8 then "\\b"
    else if c as int == 9 then "\\t"
    else if c as int == 10 then "\\n"
    else if c as int == 12 then "\\f"
    else if c as int == 13 then "\\r"
    else if (c as int) < 0x20 then "\\u00" + [HexDigit(c as int / 16), HexDigit(c as int % 16)]
    else [c]
  }

  function Escape(s: string): string {
    if s == "" then "" else EscapeChar(s[0]) + Escape(s[1..])
  }

  function Quote(s: string): string { "\"" + Escape(s) + "\"" }

  function DigitChar(n: nat): char
    requires n < 10
  {
    '0' + n as char
  }

  function Digits(n: nat): string {
    if n < 10 then [DigitChar(n)] else Digits(n / 10) + [DigitChar(n % 10)]
  }

  function NumberText(n: int): string { if n < 0 then "-" + Digits(-n) else Digits(n) }

  function Join(parts: seq<string>): string {
    if |parts| == 0 then "" else if |parts| == 1 then parts[0] else parts[0] + "," + Join(parts[1..])
  }

  function FieldLine(key: string, text: string): string { Quote(key) + ":" + text }

  /** The canonical text of a value. */
  function Canonicalize(v: Json): string
    decreases v, 0
  {
    match v
    case Null => "null"
    case Bool(b) => if b then "true" else "false"
    case Num(n) => NumberText(n)
    case Str(s) => Quote(s)
    case Arr(items) => "[" + Join(CanonicalizeAll(items)) + "]"
    case Obj(fields) => "{" + Join(FieldTexts(CanonicalizeFields(fields))) + "}"
  }

  function CanonicalizeAll(items: seq<Json>): seq<string>
    decreases items, 1
  {
    if items == [] then [] else [Canonicalize(items[0])] + CanonicalizeAll(items[1..])
  }

  /** The sorted entries of an object, each value already rendered. */
  function CanonicalizeFields(fields: seq<Field<Json>>): seq<Field<string>>
    decreases fields, 1
  {
    if fields == [] then []
    else
      assert fields[0].value < fields[0];
      InsertField(Field(fields[0].key, Canonicalize(fields[0].value)), CanonicalizeFields(fields[1..]))
  }

  function FieldTexts(fields: seq<Field<string>>): seq<string> {
    if fields == [] then [] else [FieldLine(fields[0].key, fields[0].value)] + FieldTexts(fields[1..])
  }

  /** The key-sorted value. */
  function Sorted(v: Json): Json
    decreases v, 0
  {
    match v
    case Arr(items) => Arr(SortedAll(items))
    case Obj(fields) => Obj(SortedByKey(fields))
    case _ => v
  }

  function SortedAll(items: seq<Json>): seq<Json>
    decreases items, 1
  {
    if items == [] then [] else [Sorted(items[0])] + SortedAll(items[1..])
  }

  function SortedByKey(fields: seq<Field<Json>>): seq<Field<Json>>
    decreases fields, 1
  {
    if fields == [] then []
    else
      assert fields[0].value < fields[0];
      InsertField(Field(fields[0].key, Sorted(fields[0].value)), SortedByKey(fields[1..]))
  }

  /** Printing in the order given, without sorting. */
  function Emit(v: Json): string
    decreases v, 0
  {
    match v
    case Null => "null"
    case Bool(b) => if b then "true" else "false"
    case Num(n) => NumberText(n)
    case Str(s) => Quote(s)
    case Arr(items) => "[" + Join(EmitAll(items)) + "]"
    case Obj(fields) => "{" + Join(FieldLines(fields)) + "}"
  }

  function EmitAll(items: seq<Json>): seq<string>
    decreases items, 1
  {
    if items == [] then [] else [Emit(items[0])] + EmitAll(items[1..])
  }

  function FieldLines(fields: seq<Field<Json>>): seq<string>
    decreases fields, 1
  {
    if fields == [] then []
    else
      assert fields[0].value < fields[0];
      [FieldLine(fields[0].key, Emit(fields[0].value))] + FieldLines(fields[1..])
  }

  // ---------------------------------------------------------------- sorting then printing

  function Rendered(f: Field<Json>): Field<string> { Field(f.key, Emit(f.value)) }

  function RenderedAll(fields: seq<Field<Json>>): seq<Field<string>> {
    if fields == [] then [] else [Rendered(fields[0])] + RenderedAll(fields[1..])
  }

  lemma {:induction false} RenderInsert(f: Field<Json>, fields: seq<Field<Json>>)
    ensures RenderedAll(InsertField(f, fields)) == InsertField(Rendered(f), RenderedAll(fields))
  {
    if !(fields == [] || !KeyLess(fields[0].key, f.key)) {
      RenderInsert(f, fields[1..]);
    } else {
      assert ([f] + fields)[1..] == fields;
    }
  }

  lemma {:induction false} RenderedLines(fields: seq<Field<Json>>)
    ensures FieldTexts(RenderedAll(fields)) == FieldLines(fields)
  {
    if fields != [] {
      RenderedLines(fields[1..]);
      assert RenderedAll(fields)[1..] == RenderedAll(fields[1..]);
    }
  }

  /** The canonical text is the plain text of the key-sorted value. */
  lemma {:induction false} CanonicalIsSortedText(v: Json)
    ensures Canonicalize(v) == Emit(Sorted(v))
    decreases v, 0
  {
    match v
    case Arr(items) => CanonicalItems(items);
    case Obj(fields) =>
      CanonicalFields(fields);
      RenderedLines(SortedByKey(fields));
    case _ =>
  }

  lemma {:induction false} CanonicalItems(items: seq<Json>)
    ensures CanonicalizeAll(items) == EmitAll(SortedAll(items))
    decreases items, 1
  {
    if items != [] {
      CanonicalIsSortedText(items[0]);
      CanonicalItems(items[1..]);
    }
  }

  lemma {:induction false} CanonicalFields(fields: seq<Field<Json>>)
    ensures CanonicalizeFields(fields) == RenderedAll(SortedByKey(fields))
    decreases fields, 1
  {
    if fields != [] {
      assert fields[0].value < fields[0];
      CanonicalIsSortedText(fields[0].value);
      CanonicalFields(fields[1..]);
      RenderInsert(Field(fields[0].key, Sorted(fields[0].value)), SortedByKey(fields[1..]));
    }
  }
}
