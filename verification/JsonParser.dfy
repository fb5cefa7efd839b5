/**
 * A reference reader of JSON text: white space, literals, integer numbers, strings with the
 * escapes of section 7 of RFC 8259, arrays and objects. When a key repeats, the last value wins.
 * Fractions, exponents and escaped surrogates are not read.
 */
module JsonParser {
  import opened Wrappers
  import opened Json

  type Parsed<+T> = Option<(T, string)>

  predicate IsSpace(c: char) { c == ' ' || c == '\t' || c == '\n' || c == '\r' }

  function SkipSpace(s: string): (rest: string)
    ensures |rest| <= |s|
  {
    if s != "" && IsSpace(s[0]) then SkipSpace(s[1..]) else s
  }

  predicate IsDigit(c: char) { '0' <= c <= '9' }

  function DigitValue(c: char): nat
    requires IsDigit(c)
  {
    c as int - '0' as int
  }

  function HexValue(c: char): Option<nat> {
    if '0' <= c <= '9' then Some(c as int - '0' as int)
    else if 'a' <= c <= 'f' then Some(c as int - 'a' as int + 10)
    else if 'A' <= c <= 'F' then Some(c as int - 'A' as int + 10)
    else None
  }

  /** The character named by four hexadecimal digits, unless it is half of a surrogate pair. */
  function HexChar(s: string): Option<char>
    requires |s| >= 4
  {
    var a, b, c, d := HexValue(s[0]), HexValue(s[1]), HexValue(s[2]), HexValue(s[3]);
    if a.None? || b.None? || c.None? || d.None? then None else
      var code := ((a.value * 16 + b.value) * 16 + c.value) * 16 + d.value;
      if code < 0xD800 || 0xE000 <= code < 0x10000 then Some(code as char) else None
  }

  /** One character after a backslash, and what follows it. */
  function ReadEscape(s: string): (r: Parsed<char>)
    ensures r.Some? ==> |r.value.1| < |s|
  {
    if s == "" then None
    else if s[0] == '"' || s[0] == '\\' || s[0] == '/' then Some((s[0], s[1..]))
    else if s[0] == 'b' then Some((8 as char, s[1..]))
    else if s[0] == 't' then Some((9 as char, s[1..]))
    else if s[0] == 'n' then Some((10 as char, s[1..]))
    else if s[0] == 'f' then Some((12 as char, s[1..]))
    else if s[0] == 'r' then Some((13 as char, s[1..]))
    else if s[0] == 'u' && |s| >= 5 then
      var c := HexChar(s[1..5]);
      if c.None? then None else Some((c.value, s[5..]))
    else None
  }

  /** The characters up to the closing quote. */
  function ReadChars(s: string): (r: Parsed<string>)
    ensures r.Some? ==> |r.value.1| < |s|
    decreases |s|
  {
    if s == "" then None
    else if s[0] == '"' then Some(("", s[1..]))
    else if (s[0] as int) < 0x20 then None
    else
      var first := if s[0] == '\\' then ReadEscape(s[1..]) else Some((s[0], s[1..]));
      if first.None? then None else
        var more := ReadChars(first.value.1);
        if more.None? then None else Some(([first.value.0] + more.value.0, more.value.1))
  }

  function ReadString(s: string): (r: Parsed<string>)
    ensures r.Some? ==> |r.value.1| < |s|
  {
    if s == "" || s[0] != '"' then None else ReadChars(s[1..])
  }

  /** The longest run of digits, read after `acc`. */
  function ReadDigits(s: string, acc: nat): (r: (nat, string))
    ensures |r.1| <= |s|
  {
    if s != "" && IsDigit(s[0]) then ReadDigits(s[1..], acc * 10 + DigitValue(s[0])) else (acc, s)
  }

  /** An unsigned integer without superfluous leading zeros. */
  function ReadNatural(s: string): (r: Parsed<nat>)
    ensures r.Some? ==> |r.value.1| < |s|
  {
    if s == "" || !IsDigit(s[0]) then None
    else if s[0] == '0' then
      if |s| > 1 && (IsDigit(s[1]) || s[1] in ".eE") then None else Some((0, s[1..]))
    else
      var r := ReadDigits(s[1..], DigitValue(s[0]));
      if r.1 != "" && r.1[0] in ".eE" then None else Some(r)
  }

  function ReadNumber(s: string): (r: Parsed<int>)
    ensures r.Some? ==> |r.value.1| < |s|
  {
    if s != "" && s[0] == '-' then
      var n := ReadNatural(s[1..]);
      if n.None? then None else
        var m: int := n.value.0;
        Some((-m, n.value.1))
    else
      var n := ReadNatural(s);
      if n.None? then None else Some((n.value.0, n.value.1))
  }

  /** A repeated key keeps its first place and takes the last value. */
  function PutField(fields: seq<Field<Json>>, key: string, value: Json): seq<Field<Json>> {
    if fields == [] then [Field(key, value)]
    else if fields[0].key == key then [Field(key, value)] + fields[1..]
    else [fields[0]] + PutField(fields[1..], key, value)
  }

  function ReadLiteral(s: string, text: string, v: Json): (r: Parsed<Json>)
    requires text != ""
    ensures r.Some? ==> |r.value.1| < |s|
  {
    if text <= s then Some((v, s[|text|..])) else None
  }

  function ReadValue(text: string): (r: Parsed<Json>)
    ensures r.Some? ==> |r.value.1| < |text|
    decreases |text|, 0
  {
    var s := SkipSpace(text);
    if s == "" then None
    else if s[0] == 'n' then ReadLiteral(s, "null", Null)
    else if s[0] == 't' then ReadLiteral(s, "true", Bool(true))
    else if s[0] == 'f' then ReadLiteral(s, "false", Bool(false))
    else if s[0] == '"' then
      var r := ReadString(s);
      if r.None? then None else Some((Str(r.value.0), r.value.1))
    else if s[0] == '[' then
      var t := SkipSpace(s[1..]);
      if t != "" && t[0] == ']' then Some((Arr([]), t[1..])) else
        var r := ReadItems(s[1..], []);
        if r.None? then None else Some((Arr(r.value.0), r.value.1))
    else if s[0] == '{' then
      var t := SkipSpace(s[1..]);
      if t != "" && t[0] == '}' then Some((Obj([]), t[1..])) else
        var r := ReadFields(s[1..], []);
        if r.None? then None else Some((Obj(r.value.0), r.value.1))
    else
      var r := ReadNumber(s);
      if r.None? then None else Some((Num(r.value.0), r.value.1))
  }

  /** One or more items and the closing bracket, after the items already read. */
  function ReadItems(text: string, before: seq<Json>): (r: Parsed<seq<Json>>)
    ensures r.Some? ==> |r.value.1| < |text|
    decreases |text|, 1
  {
    var v := ReadValue(text);
    if v.None? then None else
      var s := SkipSpace(v.value.1);
      if s == "" then None
      else if s[0] == ',' then ReadItems(s[1..], before + [v.value.0])
      else if s[0] == ']' then Some((before + [v.value.0], s[1..]))
      else None
  }

  /** One or more fields and the closing brace, after the fields already read. */
  function ReadFields(text: string, before: seq<Field<Json>>): (r: Parsed<seq<Field<Json>>>)
    ensures r.Some? ==> |r.value.1| < |text|
    decreases |text|, 1
  {
    var k := ReadString(SkipSpace(text));
    if k.None? then None else
      var s := SkipSpace(k.value.1);
      if s == "" || s[0] != ':' then None else
        var v := ReadValue(s[1..]);
        if v.None? then None else
          var rest := SkipSpace(v.value.1);
          var fields := PutField(before, k.value.0, v.value.0);
          if rest == "" then None
          else if rest[0] == ',' then ReadFields(rest[1..], fields)
          else if rest[0] == '}' then Some((fields, rest[1..]))
          else None
  }

  function Parse(text: string): Option<Json> {
    var r := ReadValue(text);
    if r.None? || SkipSpace(r.value.1) != "" then None else Some(r.value.0)
  }
}
