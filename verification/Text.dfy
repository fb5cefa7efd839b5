/** Splitting, joining and reading digits, the way the address parser uses them. */
module Text {
  import opened Wrappers

  // ---------------------------------------------------------------- splitting at a character

  function Index(t: string, c: char): (i: nat)
    ensures i <= |t| && c !in t[..i] && (i < |t| ==> t[i] == c)
  {
    if t == "" || t[0] == c then 0 else
      var j := Index(t[1..], c);
      assert t[..j + 1] == [t[0]] + t[1..][..j];
      j + 1
  }

  function Split(t: string, c: char): (parts: seq<string>)
    ensures |parts| > 0
    decreases |t|
  {
    var i := Index(t, c);
    if i == |t| then [t] else [t[..i]] + Split(t[i + 1..], c)
  }

  function Join(parts: seq<string>, c: char): string {
    if |parts| == 0 then "" else if |parts| == 1 then parts[0] else parts[0] + [c] + Join(parts[1..], c)
  }

  lemma IndexAfter(p: string, c: char, rest: string)
    requires c !in p
    ensures Index(p + [c] + rest, c) == |p|
  {
    var t := p + [c] + rest;
    assert t[|p|] == c;
    assert forall k :: 0 <= k < |p| ==> t[k] in p;
    forall k | |p| < k <= |t| ensures c in t[..k] { assert t[..k][|p|] == c; }
  }

  lemma {:induction false} SplitInvertsJoin(parts: seq<string>, c: char)
    requires |parts| > 0 && forall k :: 0 <= k < |parts| ==> c !in parts[k]
    ensures Split(Join(parts, c), c) == parts
  {
    if |parts| == 1 {
      assert Index(parts[0], c) == |parts[0]|;
    } else {
      var rest := Join(parts[1..], c);
      IndexAfter(parts[0], c, rest);
      assert (parts[0] + [c] + rest)[..|parts[0]|] == parts[0];
      assert (parts[0] + [c] + rest)[|parts[0]| + 1..] == rest;
      SplitInvertsJoin(parts[1..], c);
      assert parts == [parts[0]] + parts[1..];
    }
  }

  lemma JoinFirst(p: string, rest: seq<string>, c: char)
    requires rest != []
    ensures Join([p] + rest, c) == p + [c] + Join(rest, c)
  {
    assert ([p] + rest)[1..] == rest;
  }

  lemma {:induction false} JoinInvertsSplit(t: string, c: char)
    ensures Join(Split(t, c), c) == t
    decreases |t|
  {
    var i := Index(t, c);
    if i < |t| {
      var rest := Split(t[i + 1..], c);
      assert Split(t, c) == [t[..i]] + rest;
      hide Join, Split;
      JoinInvertsSplit(t[i + 1..], c);
      JoinFirst(t[..i], rest, c);
      assert t == t[..i] + [c] + t[i + 1..];
    }
  }

  lemma SplitNowhere(t: string, c: char)
    requires c !in t
    ensures Split(t, c) == [t]
  {
    assert forall k :: 0 <= k < |t| ==> t[k] in t;
  }

  /** A joined text holds nothing but the characters of its parts and the separator. */
  lemma {:induction false} JoinChars(parts: seq<string>, c: char, ch: char)
    requires ch != c && forall k :: 0 <= k < |parts| ==> ch !in parts[k]
    ensures ch !in Join(parts, c)
  {
    if |parts| > 1 {
      JoinChars(parts[1..], c, ch);
    }
  }

  lemma {:induction false} JoinConcat(a: seq<string>, b: seq<string>, c: char)
    requires |a| > 0 && |b| > 0
    ensures Join(a + b, c) == Join(a, c) + [c] + Join(b, c)
  {
    if |a| == 1 {
      assert (a + b)[1..] == b;
    } else {
      assert (a + b)[1..] == a[1..] + b;
      JoinConcat(a[1..], b, c);
      Regroup(a[0], [c], Join(a[1..], c), [c] + Join(b, c));
      assert (Join(a[1..], c) + [c]) + Join(b, c) == Join(a[1..], c) + ([c] + Join(b, c));
      assert Join(a, c) + [c] + Join(b, c) == Join(a, c) + ([c] + Join(b, c));
    }
  }

  lemma Regroup(a: string, b: string, c: string, d: string)
    ensures a + b + (c + d) == (a + b + c) + d
  {
  }

  // ---------------------------------------------------------------- digits

  predicate IsDecimal(c: char) { '0' <= c <= '9' }

  predicate IsHex(c: char) { IsDecimal(c) || 'a' <= c <= 'f' || 'A' <= c <= 'F' }

  function Digit(c: char): (d: nat)
    requires IsHex(c)
    ensures d < 16 && (IsDecimal(c) ==> d < 10)
  {
    if IsDecimal(c) then c as int - '0' as int
    else if 'a' <= c <= 'f' then c as int - 'a' as int + 10
    else c as int - 'A' as int + 10
  }

  predicate AllHex(s: string) { forall k :: 0 <= k < |s| ==> IsHex(s[k]) }

  predicate AllDecimal(s: string): (b: bool)
    ensures b ==> AllHex(s)
  {
    forall k :: 0 <= k < |s| ==> IsDecimal(s[k])
  }

  /** The number written by hexadecimal (or decimal) digits. */
  function ValueOf(s: string, base: nat): nat
    requires AllHex(s)
  {
    if s == "" then 0 else ValueOf(s[..|s| - 1], base) * base + Digit(s[|s| - 1])
  }

  /** The longest prefix of hexadecimal digits. */
  function HexPrefix(s: string): (p: string)
    ensures p <= s && AllHex(p) && (|p| < |s| ==> !IsHex(s[|p|]))
  {
    if s == "" || !IsHex(s[0]) then "" else [s[0]] + HexPrefix(s[1..])
  }

  /** Reading a number in base 16: trailing text is ignored, and no digits at all is not a number. */
  function ParseHex(s: string): Option<nat> {
    var p := HexPrefix(s);
    if p == "" then None else Some(ValueOf(p, 16))
  }

  function HexDigit(d: nat): (c: char)
    requires d < 16
    ensures IsHex(c) && Digit(c) == d
  {
    if d < 10 then '0' + d as char else 'a' + (d - 10) as char
  }

  function ToHex(n: nat): (s: string)
    ensures |s| > 0 && AllHex(s)
  {
    if n < 16 then [HexDigit(n)] else ToHex(n / 16) + [HexDigit(n % 16)]
  }

  lemma {:induction false} ValueOfToHex(n: nat)
    ensures ValueOf(ToHex(n), 16) == n
  {
    if n >= 16 {
      ValueOfToHex(n / 16);
      var s := ToHex(n);
      assert s[..|s| - 1] == ToHex(n / 16);
    } else {
      assert ToHex(n)[..0] == "";
    }
  }

  lemma ParseHexDigits(s: string)
    requires |s| > 0 && AllHex(s)
    ensures ParseHex(s) == Some(ValueOf(s, 16))
  {
    assert HexPrefix(s) == s;
  }

  lemma {:induction false} ValueBound(s: string)
    requires AllHex(s) && |s| <= 4
    ensures ValueOf(s, 16) <= 0xffff
    ensures |s| <= 3 ==> ValueOf(s, 16) <= 0xfff
    ensures |s| <= 2 ==> ValueOf(s, 16) <= 0xff
    ensures |s| <= 1 ==> ValueOf(s, 16) <= 0xf
    ensures |s| == 0 ==> ValueOf(s, 16) == 0
  {
    if s != "" { ValueBound(s[..|s| - 1]); }
  }

  lemma {:induction false} ZeroInEveryBase(s: string)
    requires AllDecimal(s)
    ensures ValueOf(s, 10) == 0 <==> ValueOf(s, 16) == 0
  {
    if s != "" { ZeroInEveryBase(s[..|s| - 1]); }
  }
}
