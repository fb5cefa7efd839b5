/**
 * The checker as it runs: findings are pushed onto one list, and comparisons already made at the
 * same path are skipped. It reports the specified findings, no more and no less.
 */
module CompatibilityChecker {
  import opened Json
  import opened Schema
  import opened Compatibility
  import opened CompatibilitySoundness
  import opened CompatibilityReport

  /** `after` is `before` with something appended, and contains exactly `added` in addition. */
  ghost predicate Extends(before: seq<Finding>, after: seq<Finding>, added: seq<Finding>) {
    before <= after && forall f :: f in after <==> f in before || f in added
  }

  lemma ExtendsThen(a: seq<Finding>, b: seq<Finding>, c: seq<Finding>, p: seq<Finding>, q: seq<Finding>)
    requires Extends(a, b, p) && Extends(b, c, q)
    ensures Extends(a, c, p + q)
  {
  }

  lemma ExtendsPush(a: seq<Finding>, b: seq<Finding>, p: seq<Finding>, f: Finding)
    requires Extends(a, b, p)
    ensures Extends(a, b + [f], p + [f])
  {
  }

  /** One comparison, identified by the two schemas and the path. */
  datatype Comparison = Comparison(prev: Schema, next: Schema, path: string)

  class Checker {
    const profile: Mode
    var findings: seq<Finding>
    var seen: set<Comparison>

    constructor (profile: Mode)
      ensures this.profile == profile && findings == [] && seen == {}
    {
      this.profile := profile;
      findings, seen := [], {};
    }

    /** Comparisons at paths of at least this length have all their findings on the list. */
    ghost predicate Settled(length: nat)
      reads this
    {
      forall c :: c in seen && |c.path| >= length ==>
        forall f :: f in Findings(c.prev, c.next, c.path, profile) ==> f in findings
    }

    /** The list grew by exactly `added`, and only comparisons below `length` were added. */
    twostate predicate Reported(added: seq<Finding>, length: nat)
      reads this
    {
      && Extends(old(findings), findings, added)
      && old(seen) <= seen
      && (forall c :: c in seen && c !in old(seen) ==> |c.path| >= length)
    }

    method Push(f: Finding)
      modifies this`findings
      ensures findings == old(findings) + [f]
    {
      findings := findings + [f];
    }

    method CompareEnums(prev: Schema, next: Schema, path: string)
      modifies this`findings
      ensures Extends(old(findings), findings, EnumFindings(prev, next, path, profile))
    {
      ghost var start := findings;
      if prev.enumeration.None? || next.enumeration.None? { return; }
      var before, after := prev.enumeration.value, next.enumeration.value;
      var removed := Broken(path, EnumValueRemoved);
      for n := 0 to |before|
        invariant start <= findings
        invariant forall f :: f in findings <==>
          f in start || (f == removed && exists i :: 0 <= i < n && !HasLooselySame(after, before[i]))
      {
        if !HasLooselySame(after, before[n]) { Push(removed); }
      }
      ghost var middle := findings;
      if exists i :: 0 <= i < |after| && !HasLooselySame(before, after[i]) {
        Push(Finding(path, EnumValueAdded, profile == Strict, if profile == Strict then Error else Warning));
      }
    }

    method PushIf(condition: bool, f: Finding)
      modifies this`findings
      ensures Extends(old(findings), findings, Flag(condition, f))
    {
      if condition { Push(f); }
    }

    method CompareScalars(prev: Schema, next: Schema, path: string)
      modifies this`findings
      ensures Extends(old(findings), findings, ScalarFindings(prev, next, path, profile))
    {
      hide Changed, LowerBoundRaised, UpperBoundLowered, IsTrue, IsFalse, EnumFindings, Flag, Extends;
      ghost var start := findings;
      CompareEnums(prev, next, path);
      ghost var sofar := EnumFindings(prev, next, path, profile);
      sofar := PushNext(start, sofar, Changed(prev.pattern, next.pattern), Broken(path, PatternChanged));
      sofar := PushNext(start, sofar, Changed(prev.format, next.format), Broken(path, FormatChanged));
      sofar := PushNext(start, sofar, LowerBoundRaised(prev.minLength, next.minLength),
        Broken(path, MinLengthIncreased));
      sofar := PushNext(start, sofar, UpperBoundLowered(prev.maxLength, next.maxLength),
        Broken(path, MaxLengthDecreased));
      sofar := PushNext(start, sofar, LowerBoundRaised(prev.minimum, next.minimum), Broken(path, MinimumIncreased));
      sofar := PushNext(start, sofar, UpperBoundLowered(prev.maximum, next.maximum), Broken(path, MaximumDecreased));
      sofar := PushNext(start, sofar, LowerBoundRaised(prev.minItems, next.minItems), Broken(path, MinItemsIncreased));
      sofar := PushNext(start, sofar, UpperBoundLowered(prev.maxItems, next.maxItems), Broken(path, MaxItemsDecreased));
      sofar := PushNext(start, sofar, IsFalse(prev.uniqueItems) && IsTrue(next.uniqueItems),
        Broken(path, UniqueItemsBecameStricter));
    }

    /** One more conditional finding, on top of everything reported since `start`. */
    method PushNext(ghost start: seq<Finding>, ghost sofar: seq<Finding>, condition: bool, f: Finding)
      returns (ghost total: seq<Finding>)
      requires Extends(start, findings, sofar)
      modifies this`findings
      ensures total == sofar + Flag(condition, f) && Extends(start, findings, total)
    {
      ghost var here := findings;
      PushIf(condition, f);
      total := sofar + Flag(condition, f);
      ExtendsThen(start, here, findings, sofar, Flag(condition, f));
    }

    method CompareAdded(prev: Schema, next: Schema, path: string)
      modifies this`findings
      ensures Extends(old(findings), findings, AllAdded(prev, next, path, profile, |Props(next)|))
    {
      ghost var start := findings;
      for n := 0 to |Props(next)|
        invariant Extends(start, findings, AllAdded(prev, next, path, profile, n))
      {
        var key := Props(next)[n].key;
        if HasKey(Props(prev), key) { continue; }
        if key !in next.required && profile == TolerantReader { continue; }
        var required := key in next.required;
        var breaking := required || profile == Strict;
        Push(Finding(path + "." + key, if required then RequiredPropertyAdded else OptionalPropertyAdded,
                     breaking, if breaking then Error else Info));
      }
    }

    method CompareRequired(prev: Schema, next: Schema, path: string)
      modifies this`findings
      ensures Extends(old(findings), findings,
                      RelaxedFindings(prev, next, path, |prev.required|) +
                        TightenedFindings(prev, next, path, |next.required|))
    {
      ghost var start := findings;
      for n := 0 to |prev.required|
        invariant Extends(start, findings, RelaxedFindings(prev, next, path, n))
      {
        PushIf(prev.required[n] !in next.required,
          Finding(path + "." + prev.required[n], RequirednessRelaxed, false, Info));
      }
      ghost var middle := findings;
      for n := 0 to |next.required|
        invariant Extends(middle, findings, TightenedFindings(prev, next, path, n))
      {
        var key := next.required[n];
        PushIf(key !in prev.required && HasKey(Props(prev), key), Broken(path + "." + key, RequirednessTightened));
      }
      ExtendsThen(start, middle, findings, RelaxedFindings(prev, next, path, |prev.required|),
                  TightenedFindings(prev, next, path, |next.required|));
    }

    method CompareExtra(prev: Schema, next: Schema, path: string)
      modifies this`findings
      ensures Extends(old(findings), findings, ExtraFindings(prev, next, path, profile))
    {
      PushIf(prev.extra.Forbidden? && !next.extra.Forbidden?, Finding(path, AdditionalPropertiesRelaxed, false, Info));
      PushIf(!prev.extra.Forbidden? && next.extra.Forbidden?,
             Finding(path, AdditionalPropertiesRestricted, profile != TolerantReader,
                     if profile == TolerantReader then Warning else Error));
    }

    method CompareProperties(prev: Schema, next: Schema, path: string)
      requires Settled(|path| + 1)
      modifies this`findings, this`seen
      ensures Reported(PropertyFindings(prev, next, path, profile, |Props(prev)|), |path| + 1) && Settled(|path| + 1)
      decreases prev, 1
    {
      hide Findings;
      label start:
      for n := 0 to |Props(prev)|
        invariant Reported@start(PropertyFindings(prev, next, path, profile, n), |path| + 1)
        invariant Settled(|path| + 1)
      {
        ghost var here := findings;
        var f := Props(prev)[n];
        assert f.value < f;
        if !HasKey(Props(next), f.key) {
          Push(RemovedFinding(prev, f.key, path, profile));
          ExtendsPush(old@start(findings), here, PropertyFindings(prev, next, path, profile, n),
            RemovedFinding(prev, f.key, path, profile));
          continue;
        }
        var g := Props(next)[IndexOf(Props(next), f.key)];
        assert |path + "." + f.key| >= |path| + 1;
        CompareSchema(f.value, g.value, path + "." + f.key);
        ExtendsThen(old@start(findings), here, findings, PropertyFindings(prev, next, path, profile, n),
                    Findings(f.value, g.value, path + "." + f.key, profile));
      }
    }

    method CompareChildren(prev: Schema, next: Schema, k: Keyword, path: string)
      requires Settled(|path| + 1)
      modifies this`findings, this`seen
      ensures Reported(ChoiceFindings(prev, next, k, path, profile), |path| + 1) && Settled(|path| + 1)
      decreases prev, 1
    {
      hide Findings, ChildPath;
      label start:
      var before, after := Children(prev, k), Children(next, k);
      if before.NoChoice? || after.NoChoice? { return; }
      if |before.schemas| != |after.schemas| {
        Push(Broken(path, CompositionChanged(k)));
        return;
      }
      for n := 0 to |before.schemas|
        invariant Reported@start(PairwiseFindings(prev, before.schemas, after.schemas, k, path, profile, n), |path| + 1)
        invariant Settled(|path| + 1)
      {
        ghost var here := findings;
        ChildPathIsLonger(path, k, n);
        CompareSchema(before.schemas[n], after.schemas[n], ChildPath(path, k, n));
        ExtendsThen(old@start(findings), here, findings,
                    PairwiseFindings(prev, before.schemas, after.schemas, k, path, profile, n),
                    Findings(before.schemas[n], after.schemas[n], ChildPath(path, k, n), profile));
      }
    }

    /** The parts that look at the declared keys only. */
    method CompareDeclarations(prev: Schema, next: Schema, path: string)
      modifies this`findings
      ensures Extends(old(findings), findings,
                      AllAdded(prev, next, path, profile, |Props(next)|)
                      + (RelaxedFindings(prev, next, path, |prev.required|) +
                        TightenedFindings(prev, next, path, |next.required|))
                      + ExtraFindings(prev, next, path, profile))
    {
      hide AllAdded, RelaxedFindings, TightenedFindings, ExtraFindings, Extends;
      ghost var start := findings;
      CompareAdded(prev, next, path);
      ghost var added := findings;
      CompareRequired(prev, next, path);
      ghost var a := AllAdded(prev, next, path, profile, |Props(next)|);
      ghost var r := RelaxedFindings(prev, next, path, |prev.required|) +
        TightenedFindings(prev, next, path, |next.required|);
      ExtendsThen(start, added, findings, a, r);
      ghost var required := findings;
      CompareExtra(prev, next, path);
      ExtendsThen(start, required, findings, a + r, ExtraFindings(prev, next, path, profile));
    }

    method CompareItems(prev: Schema, next: Schema, path: string)
      requires Settled(|path| + 1)
      modifies this`findings, this`seen
      ensures Reported(if prev.items.Some? && next.items.Some?
                       then Findings(prev.items.value, next.items.value, path + "[]", profile) else [], |path| + 1)
      ensures Settled(|path| + 1)
      decreases prev, 1
    {
      hide Findings;
      if prev.items.Some? && next.items.Some? {
        CompareSchema(prev.items.value, next.items.value, path + "[]");
      }
    }

    /** A growing list keeps settled comparisons settled. */
    twostate lemma StillSettled(length: nat)
      requires old(Settled(length)) && seen == old(seen) && old(findings) <= findings
      ensures Settled(length)
    {
      hide Findings;
    }

    method CompareKeywords(prev: Schema, next: Schema, path: string)
      requires Settled(|path| + 1) && !Changed(prev.types, next.types)
      modifies this`findings, this`seen
      ensures Reported(Findings(prev, next, path, profile), |path| + 1) && Settled(|path| + 1)
      decreases prev, 2
    {
      ghost var s, p := ScalarFindings(prev, next, path, profile),
        PropertyFindings(prev, next, path, profile, |Props(prev)|);
      ghost var d := AllAdded(prev, next, path, profile, |Props(next)|)
        + (RelaxedFindings(prev, next, path, |prev.required|) + TightenedFindings(prev, next, path, |next.required|))
        + ExtraFindings(prev, next, path, profile);
      ghost var i := if prev.items.Some? && next.items.Some?
        then Findings(prev.items.value, next.items.value, path + "[]", profile) else [];
      ghost var x, y, z := ChoiceFindings(prev, next, AllOf, path, profile),
        ChoiceFindings(prev, next, AnyOf, path, profile), ChoiceFindings(prev, next, OneOf, path, profile);
      FindingsRegrouped(prev, next, path, profile, s, p, d, i, x, y, z);
      hide Findings, ScalarFindings, PropertyFindings, AllAdded, RelaxedFindings, TightenedFindings, ExtraFindings,
        ChoiceFindings, Extends, Settled;
      ghost var start := findings;
      label a:
      CompareScalars(prev, next, path);
      assert start <= findings by { ExtendsGrows(start, findings, s); }
      StillSettled@a(|path| + 1);
      ghost var f1 := findings;
      CompareProperties(prev, next, path);
      ExtendsThen(start, f1, findings, s, p);
      ghost var f2 := findings;
      label b:
      CompareDeclarations(prev, next, path);
      ExtendsGrows(f2, findings, d);
      StillSettled@b(|path| + 1);
      ExtendsThen(start, f2, findings, s + p, d);
      ghost var f3 := findings;
      CompareItems(prev, next, path);
      ExtendsThen(start, f3, findings, s + p + d, i);
      ghost var f4 := findings;
      CompareChildren(prev, next, AllOf, path);
      ExtendsThen(start, f4, findings, s + p + d + i, x);
      ghost var f5 := findings;
      CompareChildren(prev, next, AnyOf, path);
      ExtendsThen(start, f5, findings, s + p + d + i + x, y);
      ghost var f6 := findings;
      CompareChildren(prev, next, OneOf, path);
      ExtendsThen(start, f6, findings, s + p + d + i + x + y, z);
    }

    /** The comparison at one path. */
    method CompareSchema(prev: Schema, next: Schema, path: string)
      requires Settled(|path|)
      modifies this`findings, this`seen
      ensures Reported(Findings(prev, next, path, profile), |path|) && Settled(|path|)
      decreases prev, 3
    {
      hide Findings, Changed;
      var comparison := Comparison(prev, next, path);
      if comparison in seen {
        SeenIsReported(comparison);
        return;
      }
      seen := seen + {comparison};
      if Changed(prev.types, next.types) {
        ChangedFindings(prev, next, path, profile);
        Push(Broken(path, TypeChanged));
        return;
      }
      CompareKeywords(prev, next, path);
    }

    /** What has been compared before has been reported before. */
    lemma SeenIsReported(c: Comparison)
      requires Settled(|c.path|) && c in seen
      ensures forall f :: f in Findings(c.prev, c.next, c.path, profile) ==> f in findings
    {
      hide Findings;
    }
  }

  lemma ChangedFindings(prev: Schema, next: Schema, path: string, profile: Mode)
    requires Changed(prev.types, next.types)
    ensures Findings(prev, next, path, profile) == [Broken(path, TypeChanged)]
  {
  }

  lemma ExtendsGrows(a: seq<Finding>, b: seq<Finding>, p: seq<Finding>)
    requires Extends(a, b, p)
    ensures a <= b
  {
  }

  lemma FindingsRegrouped(prev: Schema, next: Schema, path: string, profile: Mode,
                          s: seq<Finding>, p: seq<Finding>, d: seq<Finding>, i: seq<Finding>,
                          x: seq<Finding>, y: seq<Finding>, z: seq<Finding>)
    requires !Changed(prev.types, next.types)
    requires s == ScalarFindings(prev, next, path, profile) &&
      p == PropertyFindings(prev, next, path, profile, |Props(prev)|)
    requires d == AllAdded(prev, next, path, profile, |Props(next)|)
      + (RelaxedFindings(prev, next, path, |prev.required|) + TightenedFindings(prev, next, path, |next.required|))
      + ExtraFindings(prev, next, path, profile)
    requires i == if prev.items.Some? && next.items.Some?
      then Findings(prev.items.value, next.items.value, path + "[]", profile) else []
    requires x == ChoiceFindings(prev, next, AllOf, path, profile) &&
      y == ChoiceFindings(prev, next, AnyOf, path, profile)
    requires z == ChoiceFindings(prev, next, OneOf, path, profile)
    ensures Findings(prev, next, path, profile) == s + p + d + i + x + y + z
  {
    hide ScalarFindings, PropertyFindings, AllAdded, RelaxedFindings, TightenedFindings, ExtraFindings, ChoiceFindings;
    var a, r, t, e := AllAdded(prev, next, path, profile, |Props(next)|),
      RelaxedFindings(prev, next, path, |prev.required|),
      TightenedFindings(prev, next, path, |next.required|), ExtraFindings(prev, next, path, profile);
    assert Findings(prev, next, path, profile) == s + p + a + r + t + e + i + x + y + z;
    hide Findings;
    Regroup(s + p, a, r, t, e);
  }

  lemma Regroup(h: seq<Finding>, a: seq<Finding>, r: seq<Finding>, t: seq<Finding>, e: seq<Finding>)
    ensures h + a + r + t + e == h + (a + (r + t) + e)
  {
  }

  /**
   * A whole check: exactly the specified findings, which are those that are true of the schemas it
   * compares. It finds nothing breaking exactly when the change only relaxes, and nothing at all in no change.
   */
  method CheckSchemaCompatibility(prev: Schema, next: Schema, profile: Mode) returns (findings: seq<Finding>)
    ensures forall f :: f in findings <==> f in Findings(prev, next, "$", profile)
    ensures NoBreaking(findings) <==> NoBreaking(Findings(prev, next, "$", profile))
    ensures forall f :: f in findings <==> Observed(f, prev, next, "$", profile)
    ensures NoBreaking(findings) <==> Relaxes(prev, next, profile)
    ensures prev == next && KeysOnce(prev) ==> findings == []
  {
    hide Findings, Observed, Relaxes, KeysOnce;
    var checker := new Checker(profile);
    checker.CompareSchema(prev, next, "$");
    findings := checker.findings;
    SameMembersSameVerdict(findings, Findings(prev, next, "$", profile));
    forall f: Finding ensures f in findings <==> Observed(f, prev, next, "$", profile) {
      CompatibilityReport.Reported(f, prev, next, "$", profile);
    }
    BreaksNothingIffRelaxes(prev, next, "$", profile);
    if prev == next && KeysOnce(prev) {
      UnchangedIsSilent(prev, "$", profile);
      EmptyIffNoMembers(findings);
    }
  }

  lemma EmptyIffNoMembers(fs: seq<Finding>)
    ensures fs == [] <==> forall f :: f !in fs
  {
    if fs != [] { assert fs[0] in fs; }
  }

  lemma SameMembersSameVerdict(a: seq<Finding>, b: seq<Finding>)
    requires forall f :: f in a <==> f in b
    ensures NoBreaking(a) <==> NoBreaking(b)
  {
    if NoBreaking(a) { forall i | 0 <= i < |b| ensures !b[i].breaking { assert b[i] in a; } }
    if NoBreaking(b) { forall i | 0 <= i < |a| ensures !a[i].breaking { assert a[i] in b; } }
  }

  lemma ChildPathIsLonger(path: string, k: Keyword, index: nat)
    ensures |ChildPath(path, k, index)| >= |path| + 1
  {
  }
}
