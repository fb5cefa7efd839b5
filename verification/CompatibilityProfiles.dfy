/** How the profiles of the compatibility checker compare. */
module CompatibilityProfiles {
  import opened Json
  import opened Schema
  import opened Compatibility
  import opened CompatibilitySoundness

  // ---------------------------------------------------------------- stricter profiles break more

  function Strictness(m: Mode): nat {
    match m case TolerantReader => 0 case ProviderCompatible => 1 case Strict => 2
  }

  lemma InParts(f: Finding, prev: Schema, next: Schema, path: string, profile: Mode)
    requires !Changed(prev.types, next.types)
    ensures f in Findings(prev, next, path, profile) <==>
      exists i :: 0 <= i < 10 && f in Parts(prev, next, path, profile)[i]
  {
    hide Findings, Parts, Changed;
    var p := Parts(prev, next, path, profile);
    FindingsAreParts(prev, next, path, profile);
    InTen(f, p[0], p[1], p[2], p[3], p[4], p[5], p[6], p[7], p[8], p[9]);
  }

  lemma InTen<T>(x: T, a: seq<T>, b: seq<T>, c: seq<T>, d: seq<T>, e: seq<T>, f: seq<T>, g: seq<T>, h: seq<T>,
                 i: seq<T>, j: seq<T>)
    ensures x in a + b + c + d + e + f + g + h + i + j <==>
      x in a || x in b || x in c || x in d || x in e || x in f || x in g || x in h || x in i || x in j
  {
    InSum(x, a + b + c + d + e + f + g + h + i, j);
    InSum(x, a + b + c + d + e + f + g + h, i);
    InSum(x, a + b + c + d + e + f + g, h);
    InSum(x, a + b + c + d + e + f, g);
    InSum(x, a + b + c + d + e, f);
    InSum(x, a + b + c + d, e);
    InSum(x, a + b + c, d);
    InSum(x, a + b, c);
    InSum(x, a, b);
  }

  lemma InSum<T>(x: T, a: seq<T>, b: seq<T>)
    ensures x in a + b <==> x in a || x in b
  {
  }

  lemma ScalarsGrow(f: Finding, prev: Schema, next: Schema, path: string, p: Mode, q: Mode)
    requires f in ScalarFindings(prev, next, path, p) && f.breaking && Strictness(p) <= Strictness(q)
    ensures f in ScalarFindings(prev, next, path, q)
  {
    hide HasLooselySame, Changed, LowerBoundRaised, UpperBoundLowered;
    if f in EnumFindings(prev, next, path, p) {
      assert f in EnumFindings(prev, next, path, q);
    }
  }

  lemma {:induction false} AddedGrow(f: Finding, prev: Schema, next: Schema, path: string, p: Mode, q: Mode, n: nat)
    requires n <= |Props(next)| && f in AllAdded(prev, next, path, p, n) && f.breaking && Strictness(p) <= Strictness(q)
    ensures f in AllAdded(prev, next, path, q, n)
  {
    if f in AllAdded(prev, next, path, p, n - 1) { AddedGrow(f, prev, next, path, p, q, n - 1); }
  }

  lemma {:induction false} PropertiesGrow(f: Finding, prev: Schema, next: Schema, path: string, p: Mode, q: Mode,
                                          n: nat)
    requires n <= |Props(prev)| && f in PropertyFindings(prev, next, path, p, n) && f.breaking &&
      Strictness(p) <= Strictness(q)
    ensures f in PropertyFindings(prev, next, path, q, n)
    decreases prev, 1, n
  {
    hide Findings;
    if f in PropertyFindings(prev, next, path, p, n - 1) {
      PropertiesGrow(f, prev, next, path, p, q, n - 1);
    } else {
      var g := Props(prev)[n - 1];
      assert g.value < g;
      if HasKey(Props(next), g.key) {
        BreakingGrows(f, g.value, Props(next)[IndexOf(Props(next), g.key)].value, path + "." + g.key, p, q);
      }
    }
  }

  lemma {:induction false} PairsGrow(f: Finding, prev: Schema, before: seq<Schema>, after: seq<Schema>, k: Keyword,
                                     path: string, p: Mode, q: Mode, n: nat)
    requires n <= |before| == |after| && forall i :: 0 <= i < |before| ==> before[i] < prev
    requires f in PairwiseFindings(prev, before, after, k, path, p, n) && f.breaking && Strictness(p) <= Strictness(q)
    ensures f in PairwiseFindings(prev, before, after, k, path, q, n)
    decreases prev, 0, n
  {
    hide Findings, ChildPath;
    if f in PairwiseFindings(prev, before, after, k, path, p, n - 1) {
      PairsGrow(f, prev, before, after, k, path, p, q, n - 1);
    } else {
      BreakingGrows(f, before[n - 1], after[n - 1], ChildPath(path, k, n - 1), p, q);
    }
  }

  lemma {:induction false} ChoiceGrows(f: Finding, prev: Schema, next: Schema, k: Keyword, path: string, p: Mode,
                                       q: Mode)
    requires f in ChoiceFindings(prev, next, k, path, p) && f.breaking && Strictness(p) <= Strictness(q)
    ensures f in ChoiceFindings(prev, next, k, path, q)
    decreases prev, 1, 0
  {
    var before, after := Children(prev, k), Children(next, k);
    if before.Of? && after.Of? && |before.schemas| == |after.schemas| {
      PairsGrow(f, prev, before.schemas, after.schemas, k, path, p, q, |before.schemas|);
    }
  }

  lemma {:induction false} PartGrows(f: Finding, prev: Schema, next: Schema, path: string, p: Mode, q: Mode, i: nat)
    requires i < 10 && f in Parts(prev, next, path, p)[i] && f.breaking && Strictness(p) <= Strictness(q)
    ensures f in Parts(prev, next, path, q)[i]
    decreases prev, 2, 0
  {
    hide Findings, ScalarFindings, PropertyFindings, AllAdded, RelaxedFindings, TightenedFindings, ChoiceFindings,
      Props;
    if i == 0 { ScalarsGrow(f, prev, next, path, p, q); }
    if i == 1 { PropertiesGrow(f, prev, next, path, p, q, |Props(prev)|); }
    if i == 2 { AddedGrow(f, prev, next, path, p, q, |Props(next)|); }
    if i == 6 && prev.items.Some? && next.items.Some? {
      BreakingGrows(f, prev.items.value, next.items.value, path + "[]", p, q);
    }
    if i == 7 { ChoiceGrows(f, prev, next, AllOf, path, p, q); }
    if i == 8 { ChoiceGrows(f, prev, next, AnyOf, path, p, q); }
    if i == 9 { ChoiceGrows(f, prev, next, OneOf, path, p, q); }
  }

  /** Whatever breaks a profile also breaks every stricter one. */
  lemma {:induction false} BreakingGrows(f: Finding, prev: Schema, next: Schema, path: string, p: Mode, q: Mode)
    requires f in Findings(prev, next, path, p) && f.breaking && Strictness(p) <= Strictness(q)
    ensures f in Findings(prev, next, path, q)
    decreases prev, 3, 0
  {
    if Changed(prev.types, next.types) {
    } else {
      hide Findings, Parts;
      InParts(f, prev, next, path, p);
      InParts(f, prev, next, path, q);
      var i :| 0 <= i < 10 && f in Parts(prev, next, path, p)[i];
      PartGrows(f, prev, next, path, p, q, i);
    }
  }
}
