/** Reading IPv6 literals, and the addresses outbound requests may not go to. */
module Ipv6 {
  import opened Wrappers
  import opened Text

  datatype Expansion = Expanded(groups: seq<nat>) | Rejected | Thrown

  // ---------------------------------------------------------------- expansion

  /** The position after the last colon, or 0. */
  function AfterLastColon(t: string): (i: nat)
    ensures i <= |t| && ':' !in t[i..] && (i > 0 ==> t[i - 1] == ':')
  {
    if t == "" then 0
    else if t[|t| - 1] == ':' then |t|
    else
      var i := AfterLastColon(t[..|t| - 1]);
      assert t[i..] == t[..|t| - 1][i..] + [t[|t| - 1]];
      i
  }

  predicate IsNumber(w: string) { w != "" && AllDecimal(w) }

  predicate AreOctets(octets: seq<string>) {
    |octets| == 4 && IsNumber(octets[0]) && IsNumber(octets[1]) && IsNumber(octets[2]) && IsNumber(octets[3])
  }

  /** The four decimal parts after the last colon, if that is what stands there. */
  function DottedTail(t: string): Option<seq<string>> {
    var i := AfterLastColon(t);
    var octets := Split(t[i..], '.');
    if i > 0 && AreOctets(octets) then Some(octets) else None
  }

  predicate OctetsOk(octets: seq<string>)
    requires AreOctets(octets)
  {
    && ValueOf(octets[0], 10) <= 255 && ValueOf(octets[1], 10) <= 255
    && ValueOf(octets[2], 10) <= 255 && ValueOf(octets[3], 10) <= 255
  }

  function High(octets: seq<string>): nat
    requires AreOctets(octets)
  {
    ValueOf(octets[0], 10) * 256 + ValueOf(octets[1], 10)
  }

  function Low(octets: seq<string>): nat
    requires AreOctets(octets)
  {
    ValueOf(octets[2], 10) * 256 + ValueOf(octets[3], 10)
  }

  /** Folds a trailing dotted quad into two groups; an octet above 255 rejects the text. */
  function FoldDotted(t: string): Option<string> {
    match DottedTail(t)
    case None => Some(t)
    case Some(octets) =>
      if !OctetsOk(octets) then None
      else Some(t[..AfterLastColon(t)] + ToHex(High(octets)) + [':'] + ToHex(Low(octets)))
  }

  /** The first double colon. */
  function IndexDouble(t: string): (i: nat)
    ensures i == |t| || (i + 1 < |t| && t[i] == ':' && t[i + 1] == ':')
  {
    if |t| < 2 then |t| else if t[0] == ':' && t[1] == ':' then 0 else IndexDouble(t[1..]) + 1
  }

  function SplitDouble(t: string): (parts: seq<string>)
    ensures |parts| > 0
    decreases |t|
  {
    var i := IndexDouble(t);
    if i == |t| then [t] else [t[..i]] + SplitDouble(t[i + 2..])
  }

  function ParseGroups(part: string): seq<Option<nat>> {
    if part == "" then [] else var words := Split(part, ':');
      seq(|words|, i requires 0 <= i < |words| => ParseHex(words[i]))
  }

  function Zeros(n: nat): seq<Option<nat>> { seq(n, _ => Some(0)) }

  predicate IsGroup(g: Option<nat>) { g.Some? && g.value <= 0xffff }

  function Checked(groups: seq<Option<nat>>): Expansion {
    if |groups| != 8 || exists i :: 0 <= i < |groups| && !IsGroup(groups[i]) then Rejected
    else Expanded(seq(8, i requires 0 <= i < 8 => groups[i].value))
  }

  /** The groups around a double colon, if there is one. */
  function Assembled(head: seq<Option<nat>>, tail: Option<seq<Option<nat>>>): Expansion {
    if tail.None? then Checked(head)
    // The number of zeros would be negative: the array constructor throws.
    else if |head| + |tail.value| > 8 then Thrown
    else Checked(head + Zeros(8 - |head| - |tail.value|) + tail.value)
  }

  function ExpandPlain(t: string): Expansion {
    var parts := SplitDouble(t);
    if |parts| > 2 then Rejected
    else Assembled(ParseGroups(parts[0]), if |parts| == 2 then Some(ParseGroups(parts[1])) else None)
  }

  function ExpandIpv6(value: string): Expansion {
    match FoldDotted(value)
    case None => Rejected
    case Some(t) => ExpandPlain(Split(t, '%')[0])
  }

  // ---------------------------------------------------------------- legal spellings

  /**
   * A spelling of an address, after section 2.2 of RFC 4291: groups of one to four digits in either
   * case, at most one run of zero groups left out, the last two groups perhaps as a dotted quad; and
   * perhaps a zone id.
   */
  datatype Spelling = Spelling(head: seq<string>, tail: seq<string>, compressed: bool, quad: Option<seq<string>>,
    zone: Option<string>)

  predicate GroupText(w: string) { 1 <= |w| <= 4 && AllHex(w) }

  predicate AreGroups(ws: seq<string>) { forall k :: 0 <= k < |ws| ==> GroupText(ws[k]) }

  predicate QuadText(quad: seq<string>) {
    AreOctets(quad) && OctetsOk(quad) && |quad[0]| <= 3 && |quad[1]| <= 3 && |quad[2]| <= 3 && |quad[3]| <= 3
  }

  predicate Legal(sp: Spelling) {
    && AreGroups(sp.head) && AreGroups(sp.tail)
    && (sp.quad.Some? ==> QuadText(sp.quad.value))
    && var n := |sp.head| + |sp.tail| + (if sp.quad.Some? then 2 else 0);
       if sp.compressed then n <= 7 else n == 8 && sp.tail == []
  }

  function Values(words: seq<string>): seq<nat>
    requires AreGroups(words)
  {
    seq(|words|, i requires 0 <= i < |words| && GroupText(words[i]) => ValueOf(words[i], 16))
  }

  function QuadValues(quad: Option<seq<string>>): seq<nat>
    requires quad.Some? ==> QuadText(quad.value)
  {
    if quad.Some? then [High(quad.value), Low(quad.value)] else []
  }

  function ZeroRun(n: nat): seq<nat> { seq(n, _ => 0) }

  /** The address a spelling stands for. */
  function GroupsOf(sp: Spelling): (g: seq<nat>)
    requires Legal(sp)
  {
    var known := |sp.head| + |sp.tail| + |QuadValues(sp.quad)|;
    Values(sp.head) + ZeroRun(8 - known) + Values(sp.tail) + QuadValues(sp.quad)
  }

  function Body(head: seq<string>, tail: seq<string>, compressed: bool): string {
    if compressed then Join(head, ':') + "::" + Join(tail, ':') else Join(head + tail, ':')
  }

  function QuadWords(quad: Option<seq<string>>): seq<string> { if quad.Some? then [Join(quad.value, '.')] else [] }

  function Printed(sp: Spelling): string {
    Body(sp.head, sp.tail + QuadWords(sp.quad), sp.compressed) + if sp.zone.Some? then ['%'] + sp.zone.value else ""
  }

  // ---------------------------------------------------------------- reading words back

  /** What a word between colons looks like. */
  predicate IsWord(w: string) { w != "" && ':' !in w && '%' !in w }

  predicate AreWords(ws: seq<string>) { forall k :: 0 <= k < |ws| ==> IsWord(ws[k]) }

  ghost predicate NoDouble(t: string) {
    forall i {:trigger t[i]} :: 0 <= i < |t| - 1 ==> !(t[i] == ':' && t[i + 1] == ':')
  }

  /** No double colon, and no colon at either end. */
  ghost predicate Clean(t: string) { NoDouble(t) && (t != "" ==> t[0] != ':' && t[|t| - 1] != ':') }

  lemma {:induction false} JoinIsClean(ws: seq<string>)
    requires AreWords(ws)
    ensures Clean(Join(ws, ':')) && '%' !in Join(ws, ':') && (ws != [] ==> Join(ws, ':') != "")
  {
    if |ws| == 1 {
      assert IsWord(ws[0]);
    } else if |ws| > 1 {
      JoinIsClean(ws[1..]);
      CleanJoin(ws[0], Join(ws[1..], ':'));
    }
  }

  lemma CleanJoin(w: string, rest: string)
    requires IsWord(w) && Clean(rest) && rest != "" && '%' !in rest
    ensures var t := w + [':'] + rest; Clean(t) && '%' !in t && t != ""
  {
    var t := w + [':'] + rest;
    forall i | 0 <= i < |t| - 1 ensures !(t[i] == ':' && t[i + 1] == ':') {
      if i < |w| { assert t[i] == w[i] && w[i] in w; }
      if i > |w| { assert t[i] == rest[i - |w| - 1] && t[i + 1] == rest[i - |w|]; }
    }
  }

  lemma {:induction false} IndexDoubleIn(a: string, b: string, i: nat)
    requires NoDouble(a) && (a != "" ==> a[|a| - 1] != ':') && i <= |a|
    ensures IndexDouble((a + "::" + b)[i..]) == |a| - i
    decreases |a| - i
  {
    var t := (a + "::" + b)[i..];
    if i < |a| {
      IndexDoubleIn(a, b, i + 1);
      assert t[1..] == (a + "::" + b)[i + 1..];
      assert t[0] == a[i] && (i + 1 < |a| ==> t[1] == a[i + 1]);
    }
  }

  lemma {:induction false} IndexDoubleNone(a: string, i: nat)
    requires NoDouble(a) && i <= |a|
    ensures IndexDouble(a[i..]) == |a| - i
    decreases |a| - i
  {
    if i < |a| {
      IndexDoubleNone(a, i + 1);
      assert a[i..][1..] == a[i + 1..];
    }
  }

  function Parsed(ws: seq<string>): seq<Option<nat>> { seq(|ws|, i requires 0 <= i < |ws| => ParseHex(ws[i])) }

  lemma ParseGroupsOfJoin(ws: seq<string>)
    requires AreWords(ws)
    ensures ParseGroups(Join(ws, ':')) == Parsed(ws)
  {
    JoinIsClean(ws);
    if ws != [] {
      forall k | 0 <= k < |ws| ensures ':' !in ws[k] { assert IsWord(ws[k]); }
      SplitInvertsJoin(ws, ':');
    }
  }

  /** Without quad and zone, the words are read one by one. */
  lemma ExpandBody(head: seq<string>, tail: seq<string>, compressed: bool)
    requires AreWords(head) && AreWords(tail)
    ensures ExpandPlain(Body(head, tail, compressed)) ==
      if compressed then Assembled(Parsed(head), Some(Parsed(tail))) else Assembled(Parsed(head + tail), None)
    ensures '%' !in Body(head, tail, compressed)
  {
    if compressed {
      var a, b := Join(head, ':'), Join(tail, ':');
      JoinIsClean(head);
      JoinIsClean(tail);
      ParseGroupsOfJoin(head);
      ParseGroupsOfJoin(tail);
      SplitAround(a, b);
    } else {
      var a := Join(head + tail, ':');
      JoinIsClean(head + tail);
      ParseGroupsOfJoin(head + tail);
      IndexDoubleNone(a, 0);
      assert a[0..] == a;
    }
  }

  lemma SplitAround(a: string, b: string)
    requires Clean(a) && Clean(b)
    ensures SplitDouble(a + "::" + b) == [a, b]
  {
    IndexDoubleIn(a, b, 0);
    var t := a + "::" + b;
    assert t[0..] == t;
    assert t[..|a|] == a && t[|a| + 2..] == b;
    IndexDoubleNone(b, 0);
    assert b[0..] == b;
  }

  // ---------------------------------------------------------------- numbers

  predicate HexWord(w: string) { w != "" && AllHex(w) && ValueOf(w, 16) <= 0xffff }

  predicate AreHexWords(ws: seq<string>) { forall k :: 0 <= k < |ws| ==> HexWord(ws[k]) }

  function Numbers(ws: seq<string>): seq<nat>
    requires AreHexWords(ws)
  {
    seq(|ws|, i requires 0 <= i < |ws| && HexWord(ws[i]) => ValueOf(ws[i], 16))
  }

  lemma GroupsAreHexWords(ws: seq<string>)
    requires AreGroups(ws)
    ensures AreHexWords(ws) && Numbers(ws) == Values(ws)
  {
    forall k | 0 <= k < |ws| ensures HexWord(ws[k]) { assert GroupText(ws[k]); ValueBound(ws[k]); }
  }

  lemma HexWordsAreWords(ws: seq<string>)
    requires AreHexWords(ws)
    ensures AreWords(ws) && Matches(Parsed(ws), Numbers(ws)) && forall k :: 0 <= k < |ws| ==> '.' !in ws[k]
  {
    forall k | 0 <= k < |ws|
      ensures IsWord(ws[k]) && ParseHex(ws[k]) == Some(Numbers(ws)[k]) && IsGroup(ParseHex(ws[k])) && '.' !in ws[k]
    {
      assert HexWord(ws[k]);
      ParseHexDigits(ws[k]);
      assert !IsHex(':') && !IsHex('%') && !IsHex('.');
    }
  }

  /** The parsed groups are these numbers, each of at most sixteen bits. */
  ghost predicate Matches(gs: seq<Option<nat>>, ns: seq<nat>) {
    |gs| == |ns| && forall k :: 0 <= k < |gs| ==> gs[k] == Some(ns[k]) && IsGroup(gs[k])
  }

  lemma MatchesConcat(a: seq<Option<nat>>, x: seq<nat>, b: seq<Option<nat>>, y: seq<nat>)
    requires Matches(a, x) && Matches(b, y)
    ensures Matches(a + b, x + y)
  {
  }

  lemma MatchesZeros(n: nat)
    ensures Matches(Zeros(n), ZeroRun(n))
  {
  }

  lemma CheckedNumbers(gs: seq<Option<nat>>, ns: seq<nat>)
    requires |gs| == 8 && Matches(gs, ns)
    ensures Checked(gs) == Expanded(ns)
  {
    assert seq(8, i requires 0 <= i < 8 => gs[i].value) == ns;
  }

  lemma AssembledNumbers(a: seq<Option<nat>>, x: seq<nat>, b: seq<Option<nat>>, y: seq<nat>)
    requires Matches(a, x) && Matches(b, y) && |x| + |y| <= 8
    ensures Assembled(a, Some(b)) == Expanded(x + ZeroRun(8 - |x| - |y|) + y)
  {
    hide Matches, Checked;
    var n := 8 - |x| - |y|;
    assert |a| == |x| && |b| == |y| by { MatchesLength(a, x); MatchesLength(b, y); }
    MatchesZeros(n);
    MatchesConcat(a, x, Zeros(n), ZeroRun(n));
    MatchesConcat(a + Zeros(n), x + ZeroRun(n), b, y);
    CheckedNumbers(a + Zeros(n) + b, x + ZeroRun(n) + y);
  }

  lemma MatchesLength(a: seq<Option<nat>>, x: seq<nat>)
    requires Matches(a, x)
    ensures |a| == |x|
  {
  }

  /** Hexadecimal words are read as the numbers they write. */
  lemma ExpandHexWords(head: seq<string>, tail: seq<string>, compressed: bool)
    requires AreHexWords(head) && AreHexWords(tail)
    requires if compressed then |head| + |tail| <= 8 else |head| + |tail| == 8
    ensures '%' !in Body(head, tail, compressed)
    ensures ExpandPlain(Body(head, tail, compressed)) ==
      Expanded(Numbers(head) + ZeroRun(8 - |head| - |tail|) + Numbers(tail))
  {
    HexWordsAreWords(head);
    HexWordsAreWords(tail);
    hide ExpandPlain, Body, IsWord, HexWord, ParseHex, ValueOf, Checked, Matches;
    ExpandBody(head, tail, compressed);
    if compressed {
      AssembledNumbers(Parsed(head), Numbers(head), Parsed(tail), Numbers(tail));
    } else {
      ParsedConcat(head, tail);
      MatchesConcat(Parsed(head), Numbers(head), Parsed(tail), Numbers(tail));
      CheckedNumbers(Parsed(head) + Parsed(tail), Numbers(head) + Numbers(tail));
      assert Numbers(head) + ZeroRun(0) == Numbers(head);
    }
  }

  lemma ParsedConcat(a: seq<string>, b: seq<string>)
    ensures Parsed(a + b) == Parsed(a) + Parsed(b)
  {
  }

  // ---------------------------------------------------------------- the dotted tail

  /** The body up to its last words. */
  function Lead(head: seq<string>, tail: seq<string>, compressed: bool): string {
    if !compressed then Join(head + tail, ':') + ":"
    else Join(head, ':') + "::" + if tail == [] then "" else Join(tail, ':') + ":"
  }

  lemma BodyIsLead(head: seq<string>, tail: seq<string>, ws: seq<string>, compressed: bool)
    requires ws != [] && (compressed || head + tail != [])
    ensures Body(head, tail + ws, compressed) == Lead(head, tail, compressed) + Join(ws, ':')
    ensures Lead(head, tail, compressed) != "" &&
      Lead(head, tail, compressed)[|Lead(head, tail, compressed)| - 1] == ':'
  {
    hide Join;
    if !compressed {
      assert head + (tail + ws) == (head + tail) + ws;
      JoinConcat(head + tail, ws, ':');
    } else if tail == [] {
      assert tail + ws == ws;
    } else {
      JoinConcat(tail, ws, ':');
      Regroup(Join(head, ':'), "::", Join(tail, ':') + ":", Join(ws, ':'));
      Regroup3(Join(head, ':') + "::", Join(tail, ':') + ":", Join(ws, ':'));
    }
  }

  lemma Regroup3(a: string, b: string, c: string)
    ensures a + b + c == a + (b + c)
  {
  }

  lemma AfterLead(lead: string, q: string)
    requires lead != "" && lead[|lead| - 1] == ':' && ':' !in q
    ensures AfterLastColon(lead + q) == |lead| && (lead + q)[|lead|..] == q && (lead + q)[..|lead|] == lead
  {
    var t := lead + q;
    assert t[|lead| - 1] == ':';
    forall k | 0 <= k < |lead| ensures ':' in t[k..] { assert t[k..][|lead| - 1 - k] == ':'; }
    forall k | |lead| <= k < |t| ensures t[k] != ':' { assert t[k] == q[k - |lead|]; }
  }

  lemma QuadWordIsWord(quad: seq<string>)
    requires AreOctets(quad)
    ensures IsWord(Join(quad, '.')) && Split(Join(quad, '.'), '.') == quad
  {
    assert !IsDecimal(':') && !IsDecimal('%') && !IsDecimal('.');
    forall k | 0 <= k < |quad| ensures ':' !in quad[k] && '%' !in quad[k] && '.' !in quad[k] {
      assert IsNumber(quad[k]);
    }
    JoinChars(quad, '.', ':');
    JoinChars(quad, '.', '%');
    SplitInvertsJoin(quad, '.');
  }

  lemma QuadTail(lead: string, quad: seq<string>)
    requires lead != "" && lead[|lead| - 1] == ':' && AreOctets(quad)
    ensures var t := lead + Join(quad, '.');
      DottedTail(t) == Some(quad) && AfterLastColon(t) == |lead| && t[..|lead|] == lead
  {
    QuadWordIsWord(quad);
    AfterLead(lead, Join(quad, '.'));
    hide AreOctets, Split, Join;
  }

  lemma FoldQuad(lead: string, quad: seq<string>)
    requires lead != "" && lead[|lead| - 1] == ':' && AreOctets(quad)
    ensures FoldDotted(lead + Join(quad, '.')) ==
      if OctetsOk(quad) then Some(lead + Join([ToHex(High(quad)), ToHex(Low(quad))], ':')) else None
  {
    QuadTail(lead, quad);
    var hi, lo := ToHex(High(quad)), ToHex(Low(quad));
    assert Join([hi, lo], ':') == hi + [':'] + lo by { assert [hi, lo][1..] == [lo]; }
    hide AreOctets, OctetsOk, DottedTail, High, Low, ToHex, AfterLastColon, Join;
    assert lead + hi + [':'] + lo == lead + (hi + [':'] + lo);
  }

  lemma NothingToFold(t: string)
    requires '.' !in t
    ensures FoldDotted(t) == Some(t)
  {
    SplitNowhere(t[AfterLastColon(t)..], '.');
  }

  lemma BodyHasNoDot(head: seq<string>, tail: seq<string>, compressed: bool)
    requires AreHexWords(head) && AreHexWords(tail)
    ensures '.' !in Body(head, tail, compressed)
  {
    HexWordsAreWords(head);
    HexWordsAreWords(tail);
    HexWordsAreWords(head + tail);
    JoinChars(head, ':', '.');
    JoinChars(tail, ':', '.');
    JoinChars(head + tail, ':', '.');
  }

  lemma PairOfWords(quad: seq<string>)
    requires QuadText(quad)
    ensures AreHexWords([ToHex(High(quad)), ToHex(Low(quad))])
    ensures Numbers([ToHex(High(quad)), ToHex(Low(quad))]) == [High(quad), Low(quad)]
  {
    ValueOfToHex(High(quad));
    ValueOfToHex(Low(quad));
  }

  /** Without a quad, the body stands for the address, and folding leaves it alone. */
  lemma PlainBody(sp: Spelling)
    requires Legal(sp) && sp.quad.None?
    ensures var body := Body(sp.head, sp.tail, sp.compressed);
      ExpandPlain(body) == Expanded(GroupsOf(sp)) && '%' !in body && FoldDotted(body) == Some(body)
  {
    GroupsAreHexWords(sp.head);
    GroupsAreHexWords(sp.tail);
    hide GroupText, HexWord, ExpandPlain, FoldDotted, Body, AreOctets;
    ExpandHexWords(sp.head, sp.tail, sp.compressed);
    BodyHasNoDot(sp.head, sp.tail, sp.compressed);
    NothingToFold(Body(sp.head, sp.tail, sp.compressed));
    var g := Values(sp.head) + ZeroRun(8 - |sp.head| - |sp.tail|) + Values(sp.tail);
    assert g + [] == g;
  }

  /** With a quad, folding gives the body with two more words, which stands for the address. */
  lemma QuadBody(sp: Spelling) returns (pair: seq<string>)
    requires Legal(sp) && sp.quad.Some?
    ensures FoldDotted(Body(sp.head, sp.tail + QuadWords(sp.quad), sp.compressed)) ==
      Some(Body(sp.head, sp.tail + pair, sp.compressed))
    ensures var body := Body(sp.head, sp.tail + pair, sp.compressed);
      ExpandPlain(body) == Expanded(GroupsOf(sp)) && '%' !in body
  {
    var quad := sp.quad.value;
    pair := [ToHex(High(quad)), ToHex(Low(quad))];
    PairOfWords(quad);
    GroupsAreHexWords(sp.head);
    GroupsAreHexWords(sp.tail);
    assert QuadText(quad);
    FoldedQuad(sp.head, sp.tail, quad, sp.compressed);
    hide GroupText, HexWord, ExpandPlain, FoldDotted, Body, QuadText, AreOctets, OctetsOk, High, Low, ToHex;
    MoreHexWords(sp.tail, pair);
    ExpandHexWords(sp.head, sp.tail + pair, sp.compressed);
    Regroup4(Values(sp.head), ZeroRun(8 - |sp.head| - |sp.tail| - 2), Values(sp.tail), QuadValues(sp.quad));
  }

  lemma Regroup4(a: seq<nat>, b: seq<nat>, c: seq<nat>, d: seq<nat>)
    ensures a + b + c + d == a + b + (c + d)
  {
  }

  lemma MoreHexWords(a: seq<string>, b: seq<string>)
    requires AreHexWords(a) && AreHexWords(b)
    ensures AreHexWords(a + b) && Numbers(a + b) == Numbers(a) + Numbers(b)
  {
  }

  lemma FoldedQuad(head: seq<string>, tail: seq<string>, quad: seq<string>, compressed: bool)
    requires AreOctets(quad) && OctetsOk(quad) && (compressed || head + tail != [])
    ensures FoldDotted(Body(head, tail + [Join(quad, '.')], compressed)) ==
      Some(Body(head, tail + [ToHex(High(quad)), ToHex(Low(quad))], compressed))
  {
    hide AreOctets, OctetsOk, FoldDotted, Body, Lead;
    var pair := [ToHex(High(quad)), ToHex(Low(quad))];
    BodyIsLead(head, tail, [Join(quad, '.')], compressed);
    BodyIsLead(head, tail, pair, compressed);
    FoldQuad(Lead(head, tail, compressed), quad);
  }

  /** A spelling without zone id is read back as the address it stands for. */
  lemma ExpandWithoutZone(sp: Spelling)
    requires Legal(sp) && sp.zone.None?
    ensures ExpandIpv6(Printed(sp)) == Expanded(GroupsOf(sp))
  {
    hide Legal, ExpandPlain, FoldDotted, Body;
    var words := sp.tail + QuadWords(sp.quad);
    var text := Body(sp.head, words, sp.compressed);
    assert text + "" == text;
    if sp.quad.None? {
      PlainBody(sp);
      assert words == sp.tail;
      SplitNowhere(text, '%');
    } else {
      var pair := QuadBody(sp);
      SplitNowhere(Body(sp.head, sp.tail + pair, sp.compressed), '%');
    }
  }

  // ---------------------------------------------------------------- zone ids

  /** A zone id whose own end reads as a dotted quad with a number above 255. */
  predicate MisleadingZone(zone: string) {
    DottedTail(zone).Some? && !OctetsOk(DottedTail(zone).value)
  }

  /** Folding a text with a zone id touches nothing before the percent sign. */
  lemma FoldZone(body: string, zone: string) returns (rest: string)
    requires '%' !in body
    ensures FoldDotted(body + ['%'] + zone) == if MisleadingZone(zone) then None else Some(body + ['%'] + rest)
  {
    var t := body + ['%'] + zone;
    if ':' in zone {
      AfterColonInZone(body, zone);
      var i := AfterLastColon(zone);
      if DottedTail(zone).Some? && !MisleadingZone(zone) {
        var octets := DottedTail(zone).value;
        rest := zone[..i] + ToHex(High(octets)) + [':'] + ToHex(Low(octets));
        assert t[..AfterLastColon(t)] == body + ['%'] + zone[..i];
        assert body + ['%'] + zone[..i] + ToHex(High(octets)) + [':'] + ToHex(Low(octets)) == body + ['%'] + rest;
      } else {
        rest := zone;
      }
    } else {
      rest := zone;
      assert AfterLastColon(zone) == 0;
      NoQuadAcrossPercent(body, zone);
    }
  }

  lemma AfterColonInZone(body: string, zone: string)
    requires ':' in zone
    ensures var t := body + ['%'] + zone;
      AfterLastColon(zone) > 0 && AfterLastColon(t) == |body| + 1 + AfterLastColon(zone) &&
        t[AfterLastColon(t)..] == zone[AfterLastColon(zone)..]
  {
    var i := AfterLastColon(zone);
    assert zone[0..] == zone;
    AfterLead(body + ['%'] + zone[..i], zone[i..]);
    assert body + ['%'] + zone[..i] + zone[i..] == body + ['%'] + zone;
  }

  lemma NoQuadAcrossPercent(body: string, zone: string)
    requires ':' !in zone
    ensures DottedTail(body + ['%'] + zone).None?
  {
    hide AreOctets;
    PercentAfterColon(body, zone);
    var t := body + ['%'] + zone;
    NotOctets(t[AfterLastColon(t)..]);
  }

  lemma PercentAfterColon(body: string, zone: string)
    requires ':' !in zone
    ensures var t := body + ['%'] + zone; '%' in t[AfterLastColon(t)..]
  {
    var t := body + ['%'] + zone;
    var i := AfterLastColon(t);
    forall k | |body| < k < |t| ensures t[k] != ':' { assert t[k] == zone[k - |body| - 1]; }
    assert t[i..][|body| - i] == t[|body|] == '%';
  }

  lemma NotOctets(x: string)
    requires '%' in x
    ensures !AreOctets(Split(x, '.'))
  {
    JoinInvertsSplit(x, '.');
    if AreOctets(Split(x, '.')) { NoPercent(Split(x, '.')); }
  }

  lemma NoPercent(octets: seq<string>)
    requires AreOctets(octets)
    ensures '%' !in Join(octets, '.')
  {
    assert !IsDecimal('%');
    forall k | 0 <= k < |octets| ensures '%' !in octets[k] {
      assert k == 0 || k == 1 || k == 2 || k == 3;
      assert IsNumber(octets[k]);
    }
    hide AreOctets;
    JoinChars(octets, '.', '%');
  }

  /** What stands before the percent sign is what is read. */
  lemma ExpandBeforeZone(body: string, zone: string)
    requires '%' !in body
    ensures ExpandIpv6(body + ['%'] + zone) == if MisleadingZone(zone) then Rejected else ExpandPlain(body)
  {
    hide ExpandPlain, FoldDotted, MisleadingZone;
    var rest := FoldZone(body, zone);
    IndexAfter(body, '%', rest);
    assert (body + ['%'] + rest)[..|body|] == body;
  }

  /** The only spellings that are misread: a dotted quad before a zone id is taken for one group. */
  predicate QuadWithZone(sp: Spelling) { sp.quad.Some? && sp.zone.Some? }

  /**
   * Reading inverts spelling: any legal spelling is read back as its address, unless it has both a
   * dotted quad and a zone id, or a zone id that itself ends like a quad with a number above 255.
   */
  lemma ExpandInvertsSpelling(sp: Spelling)
    requires Legal(sp) && !QuadWithZone(sp)
    ensures ExpandIpv6(Printed(sp)) ==
      if sp.zone.Some? && MisleadingZone(sp.zone.value) then Rejected else Expanded(GroupsOf(sp))
  {
    hide Legal, ExpandPlain, ExpandIpv6, Body, GroupsOf, MisleadingZone, Printed;
    if sp.zone.None? {
      ExpandWithoutZone(sp);
    } else {
      PlainBody(sp);
      PrintedWithZone(sp);
      assert sp.tail + QuadWords(sp.quad) == sp.tail;
      ExpandBeforeZone(Body(sp.head, sp.tail, sp.compressed), sp.zone.value);
    }
  }

  lemma PrintedWithZone(sp: Spelling)
    requires sp.zone.Some?
    ensures Printed(sp) == Body(sp.head, sp.tail + QuadWords(sp.quad), sp.compressed) + ['%'] + sp.zone.value
  {
    hide Body;
  }

  // ---------------------------------------------------------------- a quad before a zone id

  predicate AllZero(s: seq<nat>) { forall k :: 0 <= k < |s| ==> s[k] == 0 }

  /** The word of a quad is read as its first number, in the wrong base. */
  lemma ParseQuadWord(quad: seq<string>)
    requires QuadText(quad)
    ensures ParseHex(Join(quad, '.')) == Some(ValueOf(quad[0], 16)) && ValueOf(quad[0], 16) <= 0xfff
  {
    ValueBound(quad[0]);
    var rest := Join(quad[1..], '.');
    PrefixUpTo(quad[0], '.', rest);
  }

  lemma {:induction false} PrefixUpTo(w: string, c: char, rest: string)
    requires AllHex(w) && !IsHex(c)
    ensures HexPrefix(w + [c] + rest) == w
  {
    if w == "" {
      assert ("" + [c] + rest)[0] == c;
    } else {
      assert (w + [c] + rest)[1..] == w[1..] + [c] + rest;
      PrefixUpTo(w[1..], c, rest);
    }
  }

  /** The quad counts as one word. */
  lemma QuadAsWord(sp: Spelling)
    requires Legal(sp) && QuadWithZone(sp) && !MisleadingZone(sp.zone.value)
    ensures ExpandIpv6(Printed(sp)) ==
      var last := [Some(ValueOf(sp.quad.value[0], 16))];
      if sp.compressed then Assembled(Parsed(sp.head), Some(Parsed(sp.tail) + last))
      else Assembled(Parsed(sp.head) + Parsed(sp.tail) + last, None)
  {
    hide Legal, ExpandPlain, ExpandIpv6, Body, AreWords, AreGroups, ParseHex, ValueOf, MisleadingZone, Assembled,
      QuadText, Join, Printed, Parsed;
    var quad, word := sp.quad.value, Join(sp.quad.value, '.');
    QuadTextOf(sp);
    ParseQuadWord(quad);
    MoreWords(sp.head, sp.tail, quad);
    ParsedWithLast(sp.head, sp.tail, word, ValueOf(quad[0], 16));
    ExpandBody(sp.head, sp.tail + [word], sp.compressed);
    PrintedWithZone(sp);
    ExpandBeforeZone(Body(sp.head, sp.tail + [word], sp.compressed), sp.zone.value);
  }

  lemma QuadTextOf(sp: Spelling)
    requires Legal(sp) && sp.quad.Some?
    ensures QuadText(sp.quad.value) && AreOctets(sp.quad.value) && AreGroups(sp.head) && AreGroups(sp.tail)
  {
  }

  lemma MoreWords(head: seq<string>, tail: seq<string>, quad: seq<string>)
    requires AreGroups(head) && AreGroups(tail) && AreOctets(quad)
    ensures AreWords(head) && AreWords(tail + [Join(quad, '.')])
  {
    QuadWordIsWord(quad);
    GroupsAreHexWords(head);
    GroupsAreHexWords(tail);
    HexWordsAreWords(head);
    HexWordsAreWords(tail);
    hide IsWord, AreOctets, AreGroups;
  }

  lemma ParsedWithLast(head: seq<string>, tail: seq<string>, w: string, v: nat)
    requires ParseHex(w) == Some(v)
    ensures Parsed(tail + [w]) == Parsed(tail) + [Some(v)] &&
      Parsed(head + (tail + [w])) == Parsed(head) + Parsed(tail) + [Some(v)]
  {
    hide ParseHex;
    ParsedConcat(tail, [w]);
    ParsedConcat(head, tail + [w]);
  }

  /** What is read in place of the address of such a spelling. */
  lemma ExpandQuadWithZone(sp: Spelling)
    requires Legal(sp) && QuadWithZone(sp) && !MisleadingZone(sp.zone.value)
    ensures ExpandIpv6(Printed(sp)) ==
      if !sp.compressed then Rejected
      else Expanded(Values(sp.head) + ZeroRun(7 - |sp.head| - |sp.tail|) +
        (Values(sp.tail) + [ValueOf(sp.quad.value[0], 16)]))
  {
    QuadAsWord(sp);
    ParseQuadWord(sp.quad.value);
    GroupsAreHexWords(sp.head);
    GroupsAreHexWords(sp.tail);
    HexWordsAreWords(sp.head);
    HexWordsAreWords(sp.tail);
    var first := ValueOf(sp.quad.value[0], 16);
    assert Matches([Some(first)], [first]);
    hide ExpandIpv6, Printed, GroupText, HexWord, ParseHex, ValueOf, QuadText, MisleadingZone, IsWord, Checked, Matches;
    if sp.compressed {
      MatchesConcat(Parsed(sp.tail), Values(sp.tail), [Some(first)], [first]);
      AssembledNumbers(Parsed(sp.head), Values(sp.head), Parsed(sp.tail) + [Some(first)], Values(sp.tail) + [first]);
    } else {
      CheckedShort(Parsed(sp.head) + Parsed(sp.tail) + [Some(first)]);
    }
  }

  lemma CheckedShort(gs: seq<Option<nat>>)
    requires |gs| != 8
    ensures Checked(gs) == Rejected
  {
  }

  /**
   * Such a spelling is read as its address exactly when it is compressed and everything after the
   * compressed run is zero.
   */
  lemma QuadWithZoneIsReadIffZero(sp: Spelling)
    requires Legal(sp) && QuadWithZone(sp) && !MisleadingZone(sp.zone.value)
    ensures ExpandIpv6(Printed(sp)) == Expanded(GroupsOf(sp)) <==>
      sp.compressed && AllZero(Values(sp.tail)) && AllZero(QuadValues(sp.quad))
  {
    ExpandQuadWithZone(sp);
    var quad := sp.quad.value;
    ZeroInEveryBase(quad[0]);
    if sp.compressed {
      hide Legal, ExpandIpv6, Printed, ValueOf;
      ShiftedZeros(Values(sp.head), 6 - |sp.head| - |sp.tail|, Values(sp.tail), QuadValues(sp.quad),
        ValueOf(quad[0], 16));
    }
  }

  function Laid(head: seq<nat>, n: nat, tail: seq<nat>, end: seq<nat>): (s: seq<nat>)
    ensures |s| == |head| + n + |tail| + |end|
  {
    head + ZeroRun(n) + tail + end
  }

  lemma LaidAt(head: seq<nat>, n: nat, tail: seq<nat>, end: seq<nat>, k: nat)
    ensures var s := Laid(head, n, tail, end);
      && (k < n ==> s[|head| + k] == 0)
      && (k < |tail| ==> s[|head| + n + k] == tail[k])
      && (k < |end| ==> s[|head| + n + |tail| + k] == end[k])
  {
  }

  lemma LaidOtherwise(head: seq<nat>, n: nat, tail: seq<nat>, end: seq<nat>)
    ensures head + ZeroRun(n) + (tail + end) == Laid(head, n, tail, end)
  {
  }

  /** A tail moved one place to the right is the same only if it is all zero. */
  lemma ShiftedZeros(head: seq<nat>, n: nat, tail: seq<nat>, pair: seq<nat>, x: nat)
    requires |pair| == 2 && (pair[0] == 0 ==> x == 0)
    ensures head + ZeroRun(n + 1) + (tail + [x]) == head + ZeroRun(n) + tail + pair <==> AllZero(tail) && AllZero(pair)
  {
    LaidOtherwise(head, n + 1, tail, [x]);
    assert AllZero(pair) ==> pair[0] == 0;
    assert head + ZeroRun(n) + tail + pair == Laid(head, n, tail, pair);
    hide ZeroRun, AllZero, Laid;
    if Laid(head, n + 1, tail, [x]) == Laid(head, n, tail, pair) { ShiftedIsZero(head, n, tail, pair, x); }
    if AllZero(tail) && AllZero(pair) { ZeroIsShifted(head, n, tail, pair, x); }
  }

  lemma ShiftedIsZero(head: seq<nat>, n: nat, tail: seq<nat>, pair: seq<nat>, x: nat)
    requires |pair| == 2 && (pair[0] == 0 ==> x == 0) && Laid(head, n + 1, tail, [x]) == Laid(head, n, tail, pair)
    ensures AllZero(tail) && AllZero(pair)
  {
    hide Laid, AllZero;
    var a, b, m := Laid(head, n + 1, tail, [x]), Laid(head, n, tail, pair), |head| + n;
    LaidAt(head, n + 1, tail, [x], n);
    LaidAt(head, n + 1, tail, [x], 0);
    LaidAt(head, n, tail, pair, 0);
    LaidAt(head, n, tail, pair, 1);
    forall k | 0 <= k < |tail| ensures a[m + 1 + k] == tail[k] && b[m + k] == tail[k] {
      LaidAt(head, n + 1, tail, [x], k);
      LaidAt(head, n, tail, pair, k);
    }
    SameMeansZero(a, b, m, tail, pair, x);
  }

  lemma ZeroIsShifted(head: seq<nat>, n: nat, tail: seq<nat>, pair: seq<nat>, x: nat)
    requires |pair| == 2 && x == 0 && AllZero(tail) && AllZero(pair)
    ensures Laid(head, n + 1, tail, [x]) == Laid(head, n, tail, pair)
  {
    var a, b := Laid(head, n + 1, tail, [x]), Laid(head, n, tail, pair);
    LaidZeros(head, n + 1, tail, [x]);
    LaidZeros(head, n, tail, pair);
    hide Laid, AllZero;
    assert a == b;
  }

  lemma LaidZeros(head: seq<nat>, n: nat, tail: seq<nat>, end: seq<nat>)
    requires AllZero(tail) && AllZero(end)
    ensures Laid(head, n, tail, end) == head + ZeroRun(n + |tail| + |end|)
  {
    assert ZeroRun(n) + tail + end == ZeroRun(n + |tail| + |end|);
  }

  lemma SameMeansZero(a: seq<nat>, b: seq<nat>, m: nat, tail: seq<nat>, pair: seq<nat>, x: nat)
    requires a == b && |pair| == 2 && (pair[0] == 0 ==> x == 0) && |a| == m + |tail| + 2 && a[m] == 0
    requires forall k :: 0 <= k < |tail| ==> a[m + 1 + k] == tail[k] && b[m + k] == tail[k]
    requires a[m + |tail| + 1] == x && b[m + |tail|] == pair[0] && b[m + |tail| + 1] == pair[1]
    ensures AllZero(tail) && AllZero(pair)
  {
    ShiftedTail(a, b, m, tail);
  }

  lemma {:induction false} ShiftedTail(a: seq<nat>, b: seq<nat>, m: nat, tail: seq<nat>)
    requires a == b && m + |tail| + 1 < |a| && a[m] == 0
    requires forall k :: 0 <= k < |tail| ==> a[m + 1 + k] == tail[k] && b[m + k] == tail[k]
    ensures AllZero(tail) && a[m + |tail|] == 0
  {
    if tail != [] {
      ShiftedTail(a, b, m, tail[..|tail| - 1]);
      assert tail == tail[..|tail| - 1] + [tail[|tail| - 1]];
      assert a[m + 1 + (|tail| - 1)] == tail[|tail| - 1] && b[m + (|tail| - 1)] == tail[|tail| - 1];
    }
  }

  // ---------------------------------------------------------------- blocked addresses

  function EmbeddedIpv4(groups: seq<nat>): nat
    requires |groups| == 8
  {
    groups[6] * 65536 + groups[7]
  }

  predicate Between(value: nat, start: nat, end: nat) { start <= value <= end }

  /** The test on a 32-bit value: `a` and `b` are its two highest bytes. */
  predicate IsBlockedIpv4Value(value: nat) {
    var a, b := value / 0x1000000 % 256, value / 0x10000 % 256;
    || a == 0
    || a == 10
    || a == 127
    || (a == 169 && b == 254)
    || (a == 100 && 64 <= b <= 127)
    || (a == 172 && 16 <= b <= 31)
    || (a == 192 && b == 168)
    || Between(value, 0xc0000000, 0xc00000ff)
    || Between(value, 0xc0000200, 0xc00002ff)
    || Between(value, 0xc0586300, 0xc05863ff)
    || Between(value, 0xc6120000, 0xc613ffff)
    || Between(value, 0xc6336400, 0xc63364ff)
    || Between(value, 0xcb007100, 0xcb0071ff)
    || a >= 224
  }

  /** The high bits of a 16-bit group, as a mask with these low bits cleared leaves them. */
  function Masked(group: nat, clearedBelow: nat): nat
    requires clearedBelow > 0
  {
    group / clearedBelow * clearedBelow
  }

  predicate IsBlockedGroups(g: seq<nat>)
    requires |g| == 8
  {
    var first5AllZero := g[0] == 0 && g[1] == 0 && g[2] == 0 && g[3] == 0 && g[4] == 0;
    if first5AllZero && g[5] == 0xffff then IsBlockedIpv4Value(EmbeddedIpv4(g))
    else if first5AllZero && g[5] == 0 then EmbeddedIpv4(g) <= 1 || IsBlockedIpv4Value(EmbeddedIpv4(g))
    else if g[0] == 0x0064 && g[1] == 0xff9b then true
    else
      || Masked(g[0], 0x200) == 0xfc00
      || Masked(g[0], 0x40) == 0xfe80
      || Masked(g[0], 0x100) == 0xff00
      || g[0] == 0x2002
      || (g[0] == 0x2001 && g[1] == 0x0000)
      || (g[0] == 0x2001 && g[1] == 0x0db8)
  }

  /** The decision on a text that has been found to be an IPv6 literal; throwing is no decision. */
  function IsBlockedIpv6(text: string): Result<bool, ()> {
    match ExpandIpv6(text)
    case Rejected => Ok(true)
    case Thrown => Err(())
    case Expanded(g) => if |g| == 8 then Ok(IsBlockedGroups(g)) else Ok(true)
  }

  // The address ranges meant, as in the registries of special-purpose addresses.

  predicate InIpv4Block(value: nat, first: nat, size: nat) { first <= value < first + size }

  predicate SpecialIpv4(value: nat) {
    || InIpv4Block(value, 0x00000000, 0x1000000)  // 0.0.0.0/8
    || InIpv4Block(value, 0x0a000000, 0x1000000)  // 10.0.0.0/8
    || InIpv4Block(value, 0x7f000000, 0x1000000)  // 127.0.0.0/8
    || InIpv4Block(value, 0xa9fe0000, 0x10000)  // 169.254.0.0/16
    || InIpv4Block(value, 0x64400000, 0x400000)  // 100.64.0.0/10
    || InIpv4Block(value, 0xac100000, 0x100000)  // 172.16.0.0/12
    || InIpv4Block(value, 0xc0a80000, 0x10000)  // 192.168.0.0/16
    || InIpv4Block(value, 0xc0000000, 0x100)  // 192.0.0.0/24
    || InIpv4Block(value, 0xc0000200, 0x100)  // 192.0.2.0/24
    || InIpv4Block(value, 0xc0586300, 0x100)  // 192.88.99.0/24
    || InIpv4Block(value, 0xc6120000, 0x20000)  // 198.18.0.0/15
    || InIpv4Block(value, 0xc6336400, 0x100)  // 198.51.100.0/24
    || InIpv4Block(value, 0xcb007100, 0x100)  // 203.0.113.0/24
    || InIpv4Block(value, 0xe0000000, 0x20000000)  // 224.0.0.0/3
  }

  /** For every 32-bit value the test is membership in these ranges. */
  lemma Ipv4TestIsMembership(value: nat)
    requires value < 0x1_0000_0000
    ensures IsBlockedIpv4Value(value) <==> SpecialIpv4(value)
  {
    TwoBytes(value, 0, 0, 255);
    TwoBytes(value, 10, 0, 255);
    TwoBytes(value, 127, 0, 255);
    TwoBytes(value, 169, 254, 254);
    TwoBytes(value, 100, 64, 127);
    TwoBytes(value, 172, 16, 31);
    TwoBytes(value, 192, 168, 168);
    TopBytes(value);
  }

  /** The first byte, and a range of the second, as a range of the value. */
  lemma TwoBytes(value: nat, first: nat, from: nat, to: nat)
    requires value < 0x1_0000_0000 && first < 256 && from <= to < 256
    ensures value / 0x1000000 % 256 == first && from <= value / 0x10000 % 256 <= to
      <==> first * 0x1000000 + from * 0x10000 <= value < first * 0x1000000 + (to + 1) * 0x10000
  {
    TopBytes(value);
  }

  lemma TopBytes(value: nat)
    requires value < 0x1_0000_0000
    ensures var a, b := value / 0x1000000 % 256, value / 0x10000 % 256;
      a < 256 && b < 256 && a * 0x1000000 + b * 0x10000 <= value < a * 0x1000000 + (b + 1) * 0x10000
  {
    assert value / 0x10000 == value / 0x1000000 * 256 + value / 0x10000 % 256;
  }

  /** The 128 bits of an address. */
  function Address(g: seq<nat>): nat
    requires |g| == 8
  {
    ((((((g[0] * 0x10000 + g[1]) * 0x10000 + g[2]) * 0x10000 + g[3]) * 0x10000 + g[4]) * 0x10000 + g[5]) * 0x10000 +
      g[6]) * 0x10000 + g[7]
  }

  const TWO_96: nat := 0x1_0000_0000_0000_0000_0000_0000

  const TWO_112: nat := 0x1_0000_0000_0000_0000_0000_0000_0000

  /** `value` lies in the block of the given first 16, or first 32, bits. */
  predicate HeadIn(value: nat, first: nat, last: nat) { first * TWO_112 <= value < (last + 1) * TWO_112 }

  predicate PrefixIs(value: nat, prefix: nat) { prefix * TWO_96 <= value < (prefix + 1) * TWO_96 }

  predicate SpecialIpv6(value: nat) {
    || value <= 1  // :: and ::1
    || (value < 0x1_0000_0000 && SpecialIpv4(value))  // ::/96
    || (0xffff_0000_0000 <= value < 0x1_0000_0000_0000 && SpecialIpv4(value - 0xffff_0000_0000))  // ::ffff:0:0/96
    || PrefixIs(value, 0x0064_ff9b)  // 64:ff9b::/32
    || HeadIn(value, 0xfc00, 0xfdff)  // fc00::/7
    || HeadIn(value, 0xfe80, 0xfebf)  // fe80::/10
    || HeadIn(value, 0xff00, 0xffff)  // ff00::/8
    || HeadIn(value, 0x2002, 0x2002)  // 2002::/16
    || PrefixIs(value, 0x2001_0000)  // 2001::/32
    || PrefixIs(value, 0x2001_0db8)  // 2001:db8::/32
  }

  ghost predicate AreGroupValues(g: seq<nat>) { |g| == 8 && forall k :: 0 <= k < 8 ==> g[k] <= 0xffff }

  /** All but the first two groups. */
  function Rest(g: seq<nat>): nat
    requires |g| == 8
  {
    ((((g[2] * 0x10000 + g[3]) * 0x10000 + g[4]) * 0x10000 + g[5]) * 0x10000 + g[6]) * 0x10000 + g[7]
  }

  lemma AddressSplits(g: seq<nat>)
    requires AreGroupValues(g)
    ensures Address(g) == (g[0] * 0x10000 + g[1]) * TWO_96 + Rest(g) && Rest(g) < TWO_96
    ensures Rest(g) < 0x1_0000_0000_0000 <==> g[2] == 0 && g[3] == 0 && g[4] == 0
    ensures g[2] == 0 && g[3] == 0 && g[4] == 0 ==> Rest(g) == g[5] * 0x1_0000_0000 + EmbeddedIpv4(g)
    ensures EmbeddedIpv4(g) < 0x1_0000_0000
  {
  }

  lemma PrefixTest(prefix: nat, rest: nat, p: nat)
    requires rest < TWO_96
    ensures PrefixIs(prefix * TWO_96 + rest, p) <==> prefix == p
  {
  }

  lemma HeadTest(head: nat, second: nat, rest: nat, first: nat, last: nat)
    requires rest < TWO_96 && second < 0x10000
    ensures HeadIn((head * 0x10000 + second) * TWO_96 + rest, first, last) <==> first <= head <= last
  {
  }

  /** An address below 2 to the 48th is one whose first five groups are zero. */
  lemma LowTest(g: seq<nat>)
    requires AreGroupValues(g)
    ensures Address(g) < 0x1_0000_0000_0000 <==> g[0] == 0 && g[1] == 0 && g[2] == 0 && g[3] == 0 && g[4] == 0
    ensures Address(g) < 0x1_0000_0000_0000 ==> Address(g) == g[5] * 0x1_0000_0000 + EmbeddedIpv4(g)
  {
    AddressSplits(g);
  }

  /** The tests on the first two groups are membership in the blocks they name. */
  lemma HighTests(g: seq<nat>)
    requires AreGroupValues(g)
    ensures var v := Address(g);
      && (PrefixIs(v, 0x0064_ff9b) <==> g[0] == 0x0064 && g[1] == 0xff9b)
      && (PrefixIs(v, 0x2001_0000) <==> g[0] == 0x2001 && g[1] == 0x0000)
      && (PrefixIs(v, 0x2001_0db8) <==> g[0] == 0x2001 && g[1] == 0x0db8)
      && (HeadIn(v, 0xfc00, 0xfdff) <==> Masked(g[0], 0x200) == 0xfc00)
      && (HeadIn(v, 0xfe80, 0xfebf) <==> Masked(g[0], 0x40) == 0xfe80)
      && (HeadIn(v, 0xff00, 0xffff) <==> Masked(g[0], 0x100) == 0xff00)
      && (HeadIn(v, 0x2002, 0x2002) <==> g[0] == 0x2002)
  {
    hide Address, PrefixIs, HeadIn, Masked;
    PrefixOf(g, 0x0064, 0xff9b);
    PrefixOf(g, 0x2001, 0x0000);
    PrefixOf(g, 0x2001, 0x0db8);
    HeadOf(g, 0xfc00, 0xfdff);
    HeadOf(g, 0xfe80, 0xfebf);
    HeadOf(g, 0xff00, 0xffff);
    HeadOf(g, 0x2002, 0x2002);
    MaskTests(g[0]);
  }

  lemma PrefixOf(g: seq<nat>, a: nat, b: nat)
    requires AreGroupValues(g) && b <= 0xffff
    ensures PrefixIs(Address(g), a * 0x10000 + b) <==> g[0] == a && g[1] == b
  {
    AddressSplits(g);
    PrefixTest(g[0] * 0x10000 + g[1], Rest(g), a * 0x10000 + b);
    PairIs(g[0], g[1], a, b);
  }

  lemma HeadOf(g: seq<nat>, first: nat, last: nat)
    requires AreGroupValues(g)
    ensures HeadIn(Address(g), first, last) <==> first <= g[0] <= last
  {
    AddressSplits(g);
    HeadTest(g[0], g[1], Rest(g), first, last);
  }

  lemma PairIs(head: nat, second: nat, a: nat, b: nat)
    requires second <= 0xffff && b <= 0xffff
    ensures head * 0x10000 + second == a * 0x10000 + b <==> head == a && second == b
  {
  }

  lemma MaskTests(head: nat)
    ensures Masked(head, 0x200) == 0xfc00 <==> 0xfc00 <= head <= 0xfdff
    ensures Masked(head, 0x40) == 0xfe80 <==> 0xfe80 <= head <= 0xfebf
    ensures Masked(head, 0x100) == 0xff00 <==> 0xff00 <= head <= 0xffff
  {
  }

  /** On groups the decision is membership of the 128-bit value in these ranges. */
  lemma GroupTestIsMembership(g: seq<nat>)
    requires AreGroupValues(g)
    ensures IsBlockedGroups(g) <==> SpecialIpv6(Address(g))
  {
    AddressSplits(g);
    LowTest(g);
    HighTests(g);
    Ipv4TestIsMembership(EmbeddedIpv4(g));
    hide Address, Rest, EmbeddedIpv4, PrefixIs, HeadIn, Masked, IsBlockedIpv4Value, SpecialIpv4;
  }

  lemma SpelledGroups(sp: Spelling)
    requires Legal(sp)
    ensures AreGroupValues(GroupsOf(sp))
  {
    GroupsAreHexWords(sp.head);
    GroupsAreHexWords(sp.tail);
    hide ValueOf;
    forall k | 0 <= k < |sp.head| ensures Values(sp.head)[k] <= 0xffff { assert HexWord(sp.head[k]); }
    forall k | 0 <= k < |sp.tail| ensures Values(sp.tail)[k] <= 0xffff { assert HexWord(sp.tail[k]); }
  }

  /** Without a zone id the decision on a spelling is membership of the address in the ranges. */
  lemma DecisionOnPlainSpelling(sp: Spelling)
    requires Legal(sp) && !QuadWithZone(sp) && (sp.zone.Some? ==> !MisleadingZone(sp.zone.value))
    ensures IsBlockedIpv6(Printed(sp)) == Ok(SpecialIpv6(Address(GroupsOf(sp))))
  {
    ExpandInvertsSpelling(sp);
    SpelledGroups(sp);
    GroupTestIsMembership(GroupsOf(sp));
    hide Legal, Printed, ExpandIpv6, GroupsOf, SpecialIpv6, IsBlockedGroups, Address;
  }

  // ---------------------------------------------------------------- spellings with a zone id

  /** Five zero groups, then 0 or ffff, then an IPv4 address of the special ranges. */
  predicate EmbedsSpecial(g: seq<nat>)
    requires |g| == 8
  {
    && g[0] == 0 && g[1] == 0 && g[2] == 0 && g[3] == 0 && g[4] == 0 && (g[5] == 0 || g[5] == 0xffff)
    && SpecialIpv4(EmbeddedIpv4(g))
  }

  /** The groups read from a compressed spelling with both a dotted quad and a zone id. */
  function Misread(sp: Spelling): (g: seq<nat>)
    requires Legal(sp) && QuadWithZone(sp) && sp.compressed
    ensures |g| == 8
  {
    Laid(Values(sp.head), 7 - |sp.head| - |sp.tail|, Values(sp.tail), [ValueOf(sp.quad.value[0], 16)])
  }

  /** Spellings refused for their zone id, whatever the address. */
  predicate RefusedForItsZone(sp: Spelling)
    requires Legal(sp)
  {
    sp.zone.Some? &&
    (MisleadingZone(sp.zone.value) || (sp.quad.Some? && (!sp.compressed || EmbedsSpecial(Misread(sp)))))
  }

  /** What moving a tail one place to the right does to the first seven groups. */
  lemma ShiftedAt(head: seq<nat>, n: nat, tail: seq<nat>, pair: seq<nat>, x: nat, k: nat)
    requires n > 0 && |head| + n + |tail| == 6 && |pair| == 2 && k < 7
    ensures var g, m := Laid(head, n, tail, pair), Laid(head, n + 1, tail, [x]);
      && (k < |head| ==> m[k] == g[k])
      && (|head| <= k <= |head| + n ==> m[k] == 0)
      && (|head| <= k < |head| + n ==> g[k] == 0)
      && (k > |head| + n ==> m[k] == g[k - 1])
  {
    if |head| <= k < |head| + n { LaidAt(head, n, tail, pair, k - |head|); }
    if |head| <= k <= |head| + n { LaidAt(head, n + 1, tail, [x], k - |head|); }
    if k > |head| + n {
      LaidAt(head, n, tail, pair, k - |head| - n - 1);
      LaidAt(head, n + 1, tail, [x], k - |head| - n - 1);
    }
  }

  lemma ShiftedGroups(head: seq<nat>, n: nat, tail: seq<nat>, pair: seq<nat>, x: nat)
    requires n > 0 && |head| + n + |tail| == 6 && |pair| == 2
    ensures var g, m := Laid(head, n, tail, pair), Laid(head, n + 1, tail, [x]);
      && m[0] == g[0] && (m[0] != 0 ==> m[1] == g[1]) && m[6] == g[5] && m[7] == x
      && (g[0] == g[1] == g[2] == g[3] == g[4] == 0 ==> m[0] == m[1] == m[2] == m[3] == m[4] == m[5] == 0)
  {
    ShiftedAt(head, n, tail, pair, x, 0);
    ShiftedAt(head, n, tail, pair, x, 1);
    ShiftedAt(head, n, tail, pair, x, 2);
    ShiftedAt(head, n, tail, pair, x, 3);
    ShiftedAt(head, n, tail, pair, x, 4);
    ShiftedAt(head, n, tail, pair, x, 5);
    ShiftedAt(head, n, tail, pair, x, 6);
    LaidAt(head, n + 1, tail, [x], 0);
    hide Laid;
  }

  /** The misread groups are blocked if the true ones are, or if they embed a special address of their own. */
  lemma ShiftedDecision(head: seq<nat>, n: nat, tail: seq<nat>, pair: seq<nat>, x: nat)
    requires n > 0 && |head| + n + |tail| == 6 && |pair| == 2 && x <= 0xfff
    requires AreGroupValues(Laid(head, n + 1, tail, [x]))
    ensures IsBlockedGroups(Laid(head, n + 1, tail, [x])) <==>
      IsBlockedGroups(Laid(head, n, tail, pair)) || EmbedsSpecial(Laid(head, n + 1, tail, [x]))
  {
    var g, m := Laid(head, n, tail, pair), Laid(head, n + 1, tail, [x]);
    ShiftedGroups(head, n, tail, pair, x);
    hide Laid;
    Ipv4TestIsMembership(EmbeddedIpv4(m));
    hide SpecialIpv4;
    if g[0] == 0 && g[1] == 0 && g[2] == 0 && g[3] == 0 && g[4] == 0 {
      if g[5] == 0 || g[5] == 0xffff { EmbeddedEnds(g[5], x); }
    }
    SmallIsBlocked(EmbeddedIpv4(m));
    hide IsBlockedIpv4Value;
  }

  lemma SmallIsBlocked(value: nat)
    ensures value <= 1 ==> IsBlockedIpv4Value(value)
  {
  }

  lemma EmbeddedEnds(last: nat, x: nat)
    requires x <= 0xfff && (last == 0 || last == 0xffff)
    ensures IsBlockedIpv4Value(last * 65536 + x)
  {
  }

  // ---------------------------------------------------------------- the decision on every spelling

  /** A misleading zone id alone gets the text refused. */
  lemma MisleadingIsRejected(sp: Spelling)
    requires Legal(sp) && sp.zone.Some? && MisleadingZone(sp.zone.value)
    ensures ExpandIpv6(Printed(sp)) == Rejected
  {
    hide Legal, ExpandPlain, ExpandIpv6, Body, GroupsOf, MisleadingZone, Printed, Join, AreWords;
    PrintedWithZone(sp);
    if sp.quad.None? {
      PlainBody(sp);
      assert sp.tail + QuadWords(sp.quad) == sp.tail;
    } else {
      QuadTextOf(sp);
      MoreWords(sp.head, sp.tail, sp.quad.value);
      ExpandBody(sp.head, sp.tail + QuadWords(sp.quad), sp.compressed);
    }
    ExpandBeforeZone(Body(sp.head, sp.tail + QuadWords(sp.quad), sp.compressed), sp.zone.value);
  }

  lemma MisreadIsShifted(sp: Spelling)
    requires Legal(sp) && QuadWithZone(sp) && sp.compressed
    ensures AreGroups(sp.head) && AreGroups(sp.tail) && |sp.head| + |sp.tail| <= 5 && QuadText(sp.quad.value)
    ensures Misread(sp) ==
      Values(sp.head) + ZeroRun(7 - |sp.head| - |sp.tail|) + (Values(sp.tail) + [ValueOf(sp.quad.value[0], 16)])
  {
    var end := [ValueOf(sp.quad.value[0], 16)];
    hide ValueOf, ZeroRun, GroupText, QuadText, Values, Laid;
    LaidOtherwise(Values(sp.head), 7 - |sp.head| - |sp.tail|, Values(sp.tail), end);
  }

  /** What is read from a compressed spelling with quad and zone id. */
  lemma MisreadIsRead(sp: Spelling)
    requires Legal(sp) && QuadWithZone(sp) && sp.compressed && !MisleadingZone(sp.zone.value)
    ensures ExpandIpv6(Printed(sp)) == Expanded(Misread(sp))
  {
    MisreadIsShifted(sp);
    hide Legal, ExpandIpv6, Printed, ValueOf, MisleadingZone, Values, Misread, ZeroRun, QuadText, AreGroups, Laid;
    ExpandQuadWithZone(sp);
  }

  lemma MisreadIsBounded(sp: Spelling)
    requires Legal(sp) && QuadWithZone(sp) && sp.compressed
    ensures AreGroupValues(Misread(sp)) && ValueOf(sp.quad.value[0], 16) <= 0xfff
  {
    ParseQuadWord(sp.quad.value);
    SpelledValues(sp);
    hide Legal, ValueOf, ParseHex, Values, Laid;
    LaidIsBounded(Values(sp.head), 7 - |sp.head| - |sp.tail|, Values(sp.tail), [ValueOf(sp.quad.value[0], 16)]);
  }

  lemma GroupsAreLaid(sp: Spelling)
    requires Legal(sp) && sp.quad.Some?
    ensures GroupsOf(sp) == Laid(Values(sp.head), 6 - |sp.head| - |sp.tail|, Values(sp.tail), QuadValues(sp.quad))
  {
    hide Legal, Values, ZeroRun, QuadText, High, Low;
  }

  ghost predicate AreBounded(g: seq<nat>) { forall k :: 0 <= k < |g| ==> g[k] <= 0xffff }

  lemma SpelledValues(sp: Spelling)
    requires Legal(sp)
    ensures AreBounded(Values(sp.head)) && AreBounded(Values(sp.tail))
  {
    GroupsAreHexWords(sp.head);
    GroupsAreHexWords(sp.tail);
    hide ValueOf;
    forall k | 0 <= k < |sp.head| ensures Values(sp.head)[k] <= 0xffff { assert HexWord(sp.head[k]); }
    forall k | 0 <= k < |sp.tail| ensures Values(sp.tail)[k] <= 0xffff { assert HexWord(sp.tail[k]); }
  }

  lemma LaidIsBounded(head: seq<nat>, n: nat, tail: seq<nat>, end: seq<nat>)
    requires AreBounded(head) && AreBounded(tail) && AreBounded(end)
    ensures AreBounded(Laid(head, n, tail, end))
  {
  }

  lemma DecisionWithQuadAndZone(sp: Spelling)
    requires Legal(sp) && QuadWithZone(sp) && sp.compressed && !MisleadingZone(sp.zone.value)
    ensures IsBlockedIpv6(Printed(sp)) == Ok(SpecialIpv6(Address(GroupsOf(sp))) || EmbedsSpecial(Misread(sp)))
  {
    MisreadIsRead(sp);
    MisreadIsBounded(sp);
    GroupsAreLaid(sp);
    SpelledGroups(sp);
    hide Legal, ExpandIpv6, Printed, ValueOf, QuadText, MisleadingZone, SpecialIpv6, Address, IsBlockedGroups,
      EmbedsSpecial,
         Laid, GroupsOf;
    var head, tail := Values(sp.head), Values(sp.tail);
    ShiftedDecision(head, 6 - |head| - |tail|, tail, QuadValues(sp.quad), ValueOf(sp.quad.value[0], 16));
    GroupTestIsMembership(GroupsOf(sp));
  }

  /**
   * The decision on any legal spelling: blocked when the address lies in one of the ranges, and otherwise
   * only when the spelling is refused for its zone id.
   */
  lemma DecisionOnEverySpelling(sp: Spelling)
    requires Legal(sp)
    ensures IsBlockedIpv6(Printed(sp)) == Ok(SpecialIpv6(Address(GroupsOf(sp))) || RefusedForItsZone(sp))
  {
    hide Legal, ExpandIpv6, Printed, MisleadingZone, SpecialIpv6, Address, EmbedsSpecial, GroupsOf, IsBlockedGroups,
      Misread;
    if sp.zone.Some? && MisleadingZone(sp.zone.value) {
      MisleadingIsRejected(sp);
    } else if !QuadWithZone(sp) {
      DecisionOnPlainSpelling(sp);
    } else if sp.compressed {
      DecisionWithQuadAndZone(sp);
    } else {
      ExpandQuadWithZone(sp);
    }
  }

  /** No spelling of a special address gets through. */
  lemma SpecialAddressesAreBlocked(sp: Spelling)
    requires Legal(sp) && SpecialIpv6(Address(GroupsOf(sp)))
    ensures IsBlockedIpv6(Printed(sp)) == Ok(true)
  {
    hide IsBlockedIpv6, Printed, SpecialIpv6, Address, GroupsOf, RefusedForItsZone;
    DecisionOnEverySpelling(sp);
  }

  /** The decision is the right one unless an address outside the ranges is refused for its zone id. */
  lemma DecisionIsRightIff(sp: Spelling)
    requires Legal(sp)
    ensures IsBlockedIpv6(Printed(sp)) == Ok(SpecialIpv6(Address(GroupsOf(sp))))
      <==> SpecialIpv6(Address(GroupsOf(sp))) || !RefusedForItsZone(sp)
  {
    hide IsBlockedIpv6, Printed, SpecialIpv6, Address, GroupsOf, RefusedForItsZone;
    DecisionOnEverySpelling(sp);
  }

  /** An address outside the ranges that is refused for its zone id. */
  function ZonedQuad(): Spelling {
    Spelling(["2606", "0", "0", "0", "0", "0"], [], false, Some(["1", "1", "1", "1"]), Some("eth0"))
  }

  lemma PublicAddressRefusedForItsZone()
    ensures Legal(ZonedQuad()) && !SpecialIpv6(Address(GroupsOf(ZonedQuad())))
    ensures IsBlockedIpv6(Printed(ZonedQuad())) == Ok(true)
  {
    var sp := ZonedQuad();
    ZonedQuadGroups();
    hide ZonedQuad, Legal, GroupsOf, Address, SpecialIpv6, IsBlockedIpv6, Printed, RefusedForItsZone;
    SpelledGroups(sp);
    GroupTestIsMembership(GroupsOf(sp));
    DecisionOnEverySpelling(sp);
  }

  lemma ZonedQuadGroups()
    ensures Legal(ZonedQuad()) && GroupsOf(ZonedQuad())[0] == 0x2606 && RefusedForItsZone(ZonedQuad())
  {
    var sp := ZonedQuad();
    OneAndZero();
    assert QuadText(sp.quad.value);
    assert forall k :: 0 <= k < |sp.head| ==> GroupText(sp.head[k]);
    assert Legal(sp);
    hide MisleadingZone;
    assert RefusedForItsZone(sp);
    hide RefusedForItsZone, Legal;
    assert GroupsOf(sp)[0] == 0x2606;
  }

  lemma OneAndZero()
    ensures ValueOf("1", 10) == 1 && ValueOf("2606", 16) == 0x2606
  {
    assert "1"[..0] == "" && "2606"[..3] == "260" && "260"[..2] == "26" && "26"[..1] == "2" && "2"[..0] == "";
  }

  // ---------------------------------------------------------------- mapped addresses

  /** The number a dotted quad writes. */
  function QuadNumber(octets: seq<string>): nat
    requires AreOctets(octets)
  {
    ((ValueOf(octets[0], 10) * 256 + ValueOf(octets[1], 10)) * 256 + ValueOf(octets[2], 10)) * 256 +
      ValueOf(octets[3], 10)
  }

  /** The decision on a text that has been found to be an IPv4 literal. */
  function IsBlockedIpv4(text: string): bool
    requires AreOctets(Split(text, '.'))
  {
    IsBlockedIpv4Value(QuadNumber(Split(text, '.')))
  }

  lemma MappedIsSpecial(value: nat)
    requires value < 0x1_0000_0000
    ensures SpecialIpv6(0xffff_0000_0000 + value) <==> SpecialIpv4(value)
  {
  }

  /**
   * An IPv4 literal and any spelling of the same address mapped into IPv6 are decided alike, compressed or
   * not, in hexadecimal or as a quad, as long as it is not refused for a zone id.
   */
  lemma Ipv4DecidedAlike(text: string, sp: Spelling)
    requires AreOctets(Split(text, '.')) && OctetsOk(Split(text, '.')) && Legal(sp) && !RefusedForItsZone(sp)
    requires Address(GroupsOf(sp)) == 0xffff_0000_0000 + QuadNumber(Split(text, '.'))
    ensures IsBlockedIpv6(Printed(sp)) == Ok(IsBlockedIpv4(text))
  {
    var value := QuadNumber(Split(text, '.'));
    hide IsBlockedIpv6, Printed, SpecialIpv6, SpecialIpv4, Address, GroupsOf, RefusedForItsZone, Split, ValueOf,
      IsBlockedIpv4Value;
    DecisionOnEverySpelling(sp);
    MappedIsSpecial(value);
    Ipv4TestIsMembership(value);
  }
}
