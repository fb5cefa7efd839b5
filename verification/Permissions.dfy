/** The permission reconciler: from the permissions there are and those the plugins declare to a plan. */
module Permissions {
  import opened Wrappers
  import opened Text
  import opened Json

  datatype Status = Active | Retired

  datatype Record = Record(id: string, displayName: string, status: Status, schemaGeneration: Option<int>)

  datatype Desired = Desired(id: string, displayName: string, aliasOf: Option<string>)

  datatype Op =
    | NoOp(id: string)
    | Add(id: string, displayName: string)
    | UpdateDisplay(id: string, from: string, to: string)
    | Alias(id: string, aliasOf: string, displayName: string)
    | Retire(id: string)

  datatype Diagnostic =
    | DowngradeBlocked(newest: int)
    | InvalidPermissionId(id: string)
    | DuplicatePermissionId(id: string)
    | AliasTargetNotFound(id: string, aliasOf: string)
    | SelfAlias(id: string)

  datatype Plan = Plan(targetGeneration: int, ops: seq<Op>)

  // ---------------------------------------------------------------- ids

  predicate IdStart(c: char) { 'a' <= c <= 'z' || '0' <= c <= '9' }

  predicate IdPart(s: string) { s != "" && IdStart(s[0]) && forall i :: 0 <= i < |s| ==> IdStart(s[i]) || s[i] == '-' }

  /** `<plugin>:<resource>:<action>`. */
  predicate IsPermissionId(id: string) {
    var parts := Split(id, ':');
    |parts| == 3 && IdPart(parts[0]) && IdPart(parts[1]) && IdPart(parts[2])
  }

  ghost predicate IsNamespaced(id: string, plugin: string, resource: string, action: string) {
    id == plugin + ":" + resource + ":" + action && IdPart(plugin) && IdPart(resource) && IdPart(action)
  }

  /** An id is three parts with colons between them, and nothing else is. */
  lemma PermissionIdIff(id: string)
    ensures IsPermissionId(id) <==> exists a, b, c :: IsNamespaced(id, a, b, c)
  {
    var parts := Split(id, ':');
    JoinInvertsSplit(id, ':');
    if IsPermissionId(id) {
      JoinThree(parts[0], parts[1], parts[2]);
      assert parts == [parts[0], parts[1], parts[2]];
      assert IsNamespaced(id, parts[0], parts[1], parts[2]);
    }
    if a, b, c :| IsNamespaced(id, a, b, c) {
      JoinThree(a, b, c);
      SplitInvertsJoin([a, b, c], ':');
    }
  }

  lemma JoinThree(a: string, b: string, c: string)
    ensures Join([a, b, c], ':') == a + ":" + b + ":" + c
  {
    assert [a, b, c][1..] == [b, c] && [b, c][1..] == [c];
    assert Join([b, c], ':') == b + [':'] + c;
  }

  // ---------------------------------------------------------------- the two states

  ghost predicate DistinctCurrent(current: seq<Record>) {
    forall i, j :: 0 <= i < j < |current| ==> current[i].id != current[j].id
  }

  ghost predicate DistinctDesired(desired: seq<Desired>) {
    forall i, j :: 0 <= i < j < |desired| ==> desired[i].id != desired[j].id
  }

  function Generation(r: Record): int { if r.schemaGeneration.Some? then r.schemaGeneration.value else 0 }

  function NewestGeneration(current: seq<Record>): int {
    if current == [] then 0 else
      var rest, g := NewestGeneration(current[..|current| - 1]), Generation(current[|current| - 1]);
      if rest >= g then rest else g
  }

  function ById(current: seq<Record>): map<string, Record> {
    if current == [] then map[] else ById(current[..|current| - 1])[current[|current| - 1].id := current[|current| - 1]]
  }

  function DesiredIds(desired: seq<Desired>): set<string> { set i | 0 <= i < |desired| :: desired[i].id }

  /** The ids that an alias replaces; an empty alias counts for nothing. */
  function AliasedAway(desired: seq<Desired>): set<string> {
    set i | 0 <= i < |desired| && desired[i].aliasOf.Some? && desired[i].aliasOf.value != "" :: desired[i].aliasOf.value
  }

  // ---------------------------------------------------------------- what the plan should hold

  predicate BadAlias(byId: map<string, Record>, d: Desired) {
    d.aliasOf.Some? && (d.aliasOf.value !in byId || d.aliasOf.value == d.id)
  }

  /** Any of these, and there is no plan. */
  ghost predicate HasError(current: seq<Record>, desired: seq<Desired>, target: int) {
    || NewestGeneration(current) > target
    || (exists d :: d in desired && !IsPermissionId(d.id))
    || !DistinctDesired(desired)
    || (exists d :: d in desired && BadAlias(ById(current), d))
  }

  ghost predicate Declared(ds: seq<Desired>, id: string) { exists i :: 0 <= i < |ds| && ds[i].id == id }

  ghost predicate DeclaredTwice(ds: seq<Desired>, id: string) {
    exists i, j :: 0 <= i < j < |ds| && ds[i].id == id && ds[j].id == id
  }

  ghost predicate IdFault(ds: seq<Desired>, x: Diagnostic) {
    || (x.InvalidPermissionId? && !IsPermissionId(x.id) && Declared(ds, x.id))
    || (x.DuplicatePermissionId? && DeclaredTwice(ds, x.id))
  }

  predicate AliasFaultOf(byId: map<string, Record>, d: Desired, x: Diagnostic) {
    && d.aliasOf.Some?
    && ((x == AliasTargetNotFound(d.id, d.aliasOf.value) && d.aliasOf.value !in byId) ||
      (x == SelfAlias(d.id) && d.aliasOf.value == d.id))
  }

  ghost predicate AliasFault(byId: map<string, Record>, ds: seq<Desired>, x: Diagnostic) {
    exists d :: d in ds && AliasFaultOf(byId, d, x)
  }

  /** What there is to report. */
  ghost predicate Reported(current: seq<Record>, desired: seq<Desired>, target: int, x: Diagnostic) {
    || (x == DowngradeBlocked(NewestGeneration(current)) && NewestGeneration(current) > target)
    || IdFault(desired, x)
    || AliasFault(ById(current), desired, x)
  }

  /** The one op of a desired permission. */
  function OpFor(byId: map<string, Record>, d: Desired): Op {
    if d.aliasOf.Some? then Alias(d.id, d.aliasOf.value, d.displayName)
    else if d.id !in byId then Add(d.id, d.displayName)
    else if byId[d.id].displayName != d.displayName then UpdateDisplay(d.id, byId[d.id].displayName, d.displayName)
    else NoOp(d.id)
  }

  /**
   * A permission is retired when it is wanted no longer, neither by id nor through an alias, and is not
   * retired yet.
   */
  predicate Retires(desired: seq<Desired>, c: Record) {
    c.id !in DesiredIds(desired) && c.id !in AliasedAway(desired) && !c.status.Retired?
  }

  ghost predicate Wanted(current: seq<Record>, desired: seq<Desired>, op: Op) {
    || (exists d :: d in desired && op == OpFor(ById(current), d))
    || (exists c :: c in current && Retires(desired, c) && op == Retire(c.id))
  }

  function OpName(op: Op): string {
    match op
    case NoOp(_) => "no-op"
    case Add(_, _) => "add"
    case UpdateDisplay(_, _, _) => "update-display"
    case Alias(_, _, _) => "alias"
    case Retire(_) => "retire"
  }

  function SortKey(op: Op): string { OpName(op) + op.id }

  ghost predicate Sorted(ops: seq<Op>) {
    forall i, j :: 0 <= i < j < |ops| ==> KeyLess(SortKey(ops[i]), SortKey(ops[j]))
  }

  /** Exactly the ops that are wanted, in strict order of their keys. */
  ghost predicate IsPlan(current: seq<Record>, desired: seq<Desired>, ops: seq<Op>) {
    Sorted(ops) && forall op :: op in ops <==> Wanted(current, desired, op)
  }

  // ---------------------------------------------------------------- the reconciler

  method ReconcilePermissions(current: seq<Record>, desired: seq<Desired>, target: int)
    returns (diagnostics: seq<Diagnostic>, plan: Option<Plan>)
    ensures plan.None? <==> HasError(current, desired, target)
    ensures plan.None? <==> diagnostics != []
    ensures forall x :: x in diagnostics <==> Reported(current, desired, target, x)
    ensures plan.Some? && DistinctCurrent(current) ==>
      plan.value.targetGeneration == target && IsPlan(current, desired, plan.value.ops)
    ensures plan.Some? && DistinctCurrent(current) ==>
      forall op :: op in plan.value.ops <==> CalledFor(ById(current), desired, op)
  {
    hide IsPermissionId, BadAlias, OpFor, IsPlan, Retires, IdFault, AliasFault, ById, NewestGeneration, CalledFor;
    diagnostics := [];
    var newest := Newest(current);
    if newest > target { diagnostics := diagnostics + [DowngradeBlocked(newest)]; }
    var ids := CheckIds(desired);
    var currentById := MapById(current);
    var aliases := CheckAliases(currentById, desired);
    diagnostics := diagnostics + ids + aliases;
    if diagnostics != [] { return diagnostics, None; }
    var ops := WantedOps(current, currentById, desired);
    if DistinctCurrent(current) {
      SortedPlan(current, desired, ops);
      forall op ensures op in SortOps(ops) <==> CalledFor(ById(current), desired, op) {
        PlanIsExact(current, desired, SortOps(ops), op);
      }
    }
    return diagnostics, Some(Plan(target, SortOps(ops)));
  }

  method Newest(current: seq<Record>) returns (newest: int)
    ensures newest == NewestGeneration(current)
  {
    newest := 0;
    for n := 0 to |current|
      invariant newest == NewestGeneration(current[..n])
    {
      assert current[..n + 1][..n] == current[..n];
      var g := Generation(current[n]);
      newest := if newest >= g then newest else g;
    }
    assert current[..|current|] == current;
  }

  method MapById(current: seq<Record>) returns (byId: map<string, Record>)
    ensures byId == ById(current)
  {
    byId := map[];
    for n := 0 to |current|
      invariant byId == ById(current[..n])
    {
      assert current[..n + 1][..n] == current[..n];
      byId := byId[current[n].id := current[n]];
    }
    assert current[..|current|] == current;
  }

  method CheckIds(desired: seq<Desired>) returns (diagnostics: seq<Diagnostic>)
    ensures forall x :: x in diagnostics <==> IdFault(desired, x)
    ensures diagnostics != [] <==> (exists d :: d in desired && !IsPermissionId(d.id)) || !DistinctDesired(desired)
  {
    hide IsPermissionId, IdFault, Declared;
    diagnostics := [];
    var seen: set<string> := {};
    NoFaults();
    for n := 0 to |desired|
      invariant forall id :: id in seen <==> Declared(desired[..n], id)
      invariant forall x :: x in diagnostics <==> IdFault(desired[..n], x)
    {
      var entry := desired[n];
      assert desired[..n + 1] == desired[..n] + [entry];
      forall x
        ensures IdFault(desired[..n + 1], x) <==> IdFault(desired[..n], x) || NewIdFault(desired[..n], entry, x)
      {
        IdFaultOneMore(desired[..n], entry, x);
      }
      forall id ensures Declared(desired[..n + 1], id) <==> Declared(desired[..n], id) || id == entry.id {
        DeclaredOneMore(desired[..n], entry, id);
      }
      ghost var was := diagnostics;
      if !IsPermissionId(entry.id) { diagnostics := diagnostics + [InvalidPermissionId(entry.id)]; }
      if entry.id in seen { diagnostics := diagnostics + [DuplicatePermissionId(entry.id)]; }
      assert forall x :: x in diagnostics <==> x in was || NewIdFault(desired[..n], entry, x);
      seen := seen + {entry.id};
    }
    assert desired[..|desired|] == desired;
    FaultsAreErrors(desired);
    assert diagnostics != [] ==> diagnostics[0] in diagnostics;
  }

  /** What one more entry adds to the report. */
  ghost predicate NewIdFault(ds: seq<Desired>, d: Desired, x: Diagnostic) {
    (x == InvalidPermissionId(d.id) && !IsPermissionId(d.id)) ||
      (x == DuplicatePermissionId(d.id) && Declared(ds, d.id))
  }

  lemma NoFaults()
    ensures forall id :: !Declared([], id)
    ensures forall x :: !IdFault([], x)
  {
  }

  lemma DeclaredOneMore(ds: seq<Desired>, d: Desired, id: string)
    ensures Declared(ds + [d], id) <==> Declared(ds, id) || id == d.id
  {
    var more := ds + [d];
    assert more[|ds|] == d;
    if i :| 0 <= i < |ds| && ds[i].id == id { assert more[i].id == id; }
  }

  lemma IdFaultOneMore(ds: seq<Desired>, d: Desired, x: Diagnostic)
    ensures IdFault(ds + [d], x) <==> IdFault(ds, x) || NewIdFault(ds, d, x)
  {
    hide IsPermissionId;
    var more := ds + [d];
    assert more[|ds|] == d;
    if x.InvalidPermissionId? { DeclaredOneMore(ds, d, x.id); }
    if x.DuplicatePermissionId? {
      if i, j :| 0 <= i < j < |ds| && ds[i].id == x.id && ds[j].id == x.id {
        assert more[i].id == x.id && more[j].id == x.id;
      }
      if i :| 0 <= i < |ds| && ds[i].id == x.id && d.id == x.id { assert more[i].id == x.id && more[|ds|].id == x.id; }
    }
  }

  lemma FaultsAreErrors(desired: seq<Desired>)
    ensures (exists x :: IdFault(desired, x)) <==>
      (exists d :: d in desired && !IsPermissionId(d.id)) || !DistinctDesired(desired)
  {
    hide IsPermissionId;
    if x :| IdFault(desired, x) {
      if x.InvalidPermissionId? {
        var i :| 0 <= i < |desired| && desired[i].id == x.id;
        assert desired[i] in desired;
      }
    }
    if d :| d in desired && !IsPermissionId(d.id) {
      var i :| 0 <= i < |desired| && desired[i] == d;
      assert Declared(desired, d.id);
      assert IdFault(desired, InvalidPermissionId(d.id));
    }
    if i, j :| 0 <= i < j < |desired| && desired[i].id == desired[j].id {
      assert DeclaredTwice(desired, desired[i].id);
      assert IdFault(desired, DuplicatePermissionId(desired[i].id));
    }
  }

  method CheckAliases(byId: map<string, Record>, desired: seq<Desired>) returns (diagnostics: seq<Diagnostic>)
    ensures forall x :: x in diagnostics <==> AliasFault(byId, desired, x)
    ensures diagnostics != [] <==> exists d :: d in desired && BadAlias(byId, d)
  {
    diagnostics := [];
    for n := 0 to |desired|
      invariant diagnostics == [] <==> forall i :: 0 <= i < n ==> !BadAlias(byId, desired[i])
      invariant forall x :: x in diagnostics <==> AliasFault(byId, desired[..n], x)
    {
      hide AliasFault;
      var entry := desired[n];
      assert desired[..n + 1] == desired[..n] + [entry];
      forall x
        ensures AliasFault(byId, desired[..n + 1], x) <==>
          AliasFault(byId, desired[..n], x) || AliasFaultOf(byId, entry, x)
      {
        AliasFaultOneMore(byId, desired[..n], entry, x);
      }
      if entry.aliasOf.None? { continue; }
      ghost var was := diagnostics;
      if entry.aliasOf.value !in byId {
        diagnostics := diagnostics + [AliasTargetNotFound(entry.id, entry.aliasOf.value)];
      }
      if entry.aliasOf.value == entry.id { diagnostics := diagnostics + [SelfAlias(entry.id)]; }
      assert forall x :: x in diagnostics <==> x in was || AliasFaultOf(byId, entry, x);
    }
    assert desired[..|desired|] == desired;
    assert forall i :: 0 <= i < |desired| ==> desired[i] in desired;
  }

  lemma AliasFaultOneMore(byId: map<string, Record>, ds: seq<Desired>, d: Desired, x: Diagnostic)
    ensures AliasFault(byId, ds + [d], x) <==> AliasFault(byId, ds, x) || AliasFaultOf(byId, d, x)
  {
    hide AliasFaultOf;
    assert d in ds + [d];
  }

  method WantedOps(current: seq<Record>, byId: map<string, Record>, desired: seq<Desired>) returns (ops: seq<Op>)
    requires byId == ById(current)
    ensures ops == DesiredOps(byId, desired) + RetireOps(desired, current)
  {
    hide OpFor;
    ops := [];
    for n := 0 to |desired|
      invariant ops == DesiredOps(byId, desired[..n])
    {
      assert desired[..n + 1][..n] == desired[..n];
      var op := ChooseOp(byId, desired[n]);
      ops := ops + [op];
    }
    assert desired[..|desired|] == desired;
    for n := 0 to |current|
      invariant ops == DesiredOps(byId, desired) + RetireOps(desired, current[..n])
    {
      assert current[..n + 1][..n] == current[..n];
      var entry := current[n];
      if entry.id in DesiredIds(desired) { continue; }
      if entry.id in AliasedAway(desired) { continue; }
      if entry.status.Retired? { continue; }
      ops := ops + [Retire(entry.id)];
    }
    assert current[..|current|] == current;
  }

  method ChooseOp(byId: map<string, Record>, entry: Desired) returns (op: Op)
    ensures op == OpFor(byId, entry)
  {
    if entry.aliasOf.Some? { return Alias(entry.id, entry.aliasOf.value, entry.displayName); }
    if entry.id !in byId { return Add(entry.id, entry.displayName); }
    if byId[entry.id].displayName != entry.displayName {
      return UpdateDisplay(entry.id, byId[entry.id].displayName, entry.displayName);
    }
    return NoOp(entry.id);
  }

  function DesiredOps(byId: map<string, Record>, desired: seq<Desired>): seq<Op> {
    if desired == [] then [] else DesiredOps(byId, desired[..|desired| - 1]) + [OpFor(byId, desired[|desired| - 1])]
  }

  function RetireOps(desired: seq<Desired>, current: seq<Record>): seq<Op> {
    if current == [] then [] else
      RetireOps(desired, current[..|current| - 1])
        + if Retires(desired, current[|current| - 1]) then [Retire(current[|current| - 1].id)] else []
  }

  // ---------------------------------------------------------------- sorting

  function Keyed(ops: seq<Op>): seq<Field<Op>> {
    if ops == [] then [] else InsertField(Field(SortKey(ops[0]), ops[0]), Keyed(ops[1..]))
  }

  /** The ops in order of their keys; ops with equal keys stay in the order they were in. */
  function SortOps(ops: seq<Op>): seq<Op> {
    var keyed := Keyed(ops); seq(|keyed|, i requires 0 <= i < |keyed| => keyed[i].value)
  }

  ghost predicate DistinctKeysOf(ops: seq<Op>) {
    forall i, j :: 0 <= i < j < |ops| ==> SortKey(ops[i]) != SortKey(ops[j])
  }

  lemma {:induction false} KeyedHolds(ops: seq<Op>)
    ensures forall f :: f in Keyed(ops) <==> f.value in ops && f.key == SortKey(f.value)
    ensures DistinctKeysOf(ops) ==> SortedFields(Keyed(ops))
  {
    hide SortKey;
    if ops != [] {
      var f, rest := Field(SortKey(ops[0]), ops[0]), Keyed(ops[1..]);
      KeyedHolds(ops[1..]);
      InsertKeeps(f, rest);
      assert ops == [ops[0]] + ops[1..];
      if DistinctKeysOf(ops) {
        forall i | 0 <= i < |rest| ensures rest[i].key != f.key {
          assert rest[i] in rest && rest[i].value in ops[1..];
          var k :| 0 <= k < |ops[1..]| && ops[1..][k] == rest[i].value;
          assert SortKey(ops[0]) != SortKey(ops[k + 1]);
        }
        forall i, j | 0 <= i < j < |ops[1..]| ensures SortKey(ops[1..][i]) != SortKey(ops[1..][j]) {
          assert SortKey(ops[i + 1]) != SortKey(ops[j + 1]);
        }
        InsertSorts(f, rest);
      }
    }
  }

  lemma SortOpsHolds(ops: seq<Op>)
    ensures forall op :: op in SortOps(ops) <==> op in ops
    ensures DistinctKeysOf(ops) ==> Sorted(SortOps(ops))
  {
    hide SortKey, DistinctKeysOf;
    KeyedHolds(ops);
    var keyed, sorted := Keyed(ops), SortOps(ops);
    hide Keyed;
    forall op ensures op in sorted <==> op in ops { SortOpsKeeps(ops, op); }
    forall i | 0 <= i < |keyed| ensures keyed[i].key == SortKey(sorted[i]) { assert keyed[i] in keyed; }
  }

  lemma SortOpsKeeps(ops: seq<Op>, op: Op)
    ensures op in SortOps(ops) <==> op in ops
  {
    KeyedHolds(ops);
    hide Keyed, SortKey;
    var keyed, sorted := Keyed(ops), SortOps(ops);
    if op in sorted {
      var i :| 0 <= i < |sorted| && sorted[i] == op;
      assert keyed[i] in keyed;
    }
    if op in ops {
      var f := Field(SortKey(op), op);
      assert f in keyed;
      var i :| 0 <= i < |keyed| && keyed[i] == f;
      assert sorted[i] == op;
    }
  }

  /** No op name begins another, so the key names both the op and the id. */
  lemma KeysAreInjective(a: Op, b: Op)
    requires SortKey(a) == SortKey(b)
    ensures OpName(a) == OpName(b) && a.id == b.id
  {
    NamesDiffer(a, b);
    var k := SortKey(a);
    assert k[..|OpName(a)|] == OpName(a) && k[..|OpName(b)|] == OpName(b);
    assert k[|OpName(a)|..] == a.id && k[|OpName(b)|..] == b.id;
  }

  lemma NamesDiffer(a: Op, b: Op)
    ensures OpName(a) != OpName(b) ==> OpName(a)[0] != OpName(b)[0] || OpName(a)[1] != OpName(b)[1]
    ensures |OpName(a)| >= 3 && |OpName(b)| >= 3 && SortKey(a)[0] == OpName(a)[0] && SortKey(a)[1] == OpName(a)[1]
    ensures SortKey(b)[0] == OpName(b)[0] && SortKey(b)[1] == OpName(b)[1]
  {
  }

  ghost predicate DistinctOpIds(ops: seq<Op>) { forall i, j :: 0 <= i < j < |ops| ==> ops[i].id != ops[j].id }

  lemma DistinctIdsGiveDistinctKeys(ops: seq<Op>)
    requires DistinctOpIds(ops)
    ensures DistinctKeysOf(ops)
  {
    hide SortKey;
    forall i, j | 0 <= i < j < |ops| ensures SortKey(ops[i]) != SortKey(ops[j]) {
      assert ops[i].id != ops[j].id;
      if SortKey(ops[i]) == SortKey(ops[j]) { KeysAreInjective(ops[i], ops[j]); }
    }
  }

  lemma {:induction false} DesiredOpsHold(byId: map<string, Record>, desired: seq<Desired>)
    ensures |DesiredOps(byId, desired)| == |desired|
    ensures forall i :: 0 <= i < |desired| ==> DesiredOps(byId, desired)[i] == OpFor(byId, desired[i])
  {
    if desired != [] { DesiredOpsHold(byId, desired[..|desired| - 1]); }
  }

  lemma {:induction false} RetireOpsHold(desired: seq<Desired>, current: seq<Record>)
    ensures forall op :: op in RetireOps(desired, current) <==>
      exists c :: c in current && Retires(desired, c) && op == Retire(c.id)
    ensures DistinctCurrent(current) ==> DistinctOpIds(RetireOps(desired, current))
  {
    hide Retires;
    if current != [] {
      var n := |current| - 1;
      var c, rest := current[n], RetireOps(desired, current[..n]);
      RetireOpsHold(desired, current[..n]);
      assert current == current[..n] + [c];
      if DistinctCurrent(current) && Retires(desired, c) {
        assert DistinctCurrent(current[..n]);
        forall i | 0 <= i < |rest| ensures rest[i].id != c.id {
          assert rest[i] in rest;
          var d :| d in current[..n] && Retires(desired, d) && rest[i] == Retire(d.id);
          var k :| 0 <= k < n && current[..n][k] == d;
          assert current[k].id != current[n].id;
        }
      }
    }
  }

  lemma WantedOpsAreListed(current: seq<Record>, desired: seq<Desired>, ops: seq<Op>)
    requires ops == DesiredOps(ById(current), desired) + RetireOps(desired, current)
    ensures forall op :: op in ops <==> Wanted(current, desired, op)
  {
    var first, second := DesiredOps(ById(current), desired), RetireOps(desired, current);
    DesiredOpsHold(ById(current), desired);
    RetireOpsHold(desired, current);
    forall op ensures op in first <==> exists d :: d in desired && op == OpFor(ById(current), d) {
      if op in first {
        var i :| 0 <= i < |first| && first[i] == op;
        assert desired[i] in desired;
      }
      if d :| d in desired && op == OpFor(ById(current), d) {
        var i :| 0 <= i < |desired| && desired[i] == d;
        assert first[i] == op;
      }
    }
  }

  lemma WantedIdsAreDistinct(current: seq<Record>, desired: seq<Desired>, ops: seq<Op>)
    requires DistinctCurrent(current) && DistinctDesired(desired)
    requires ops == DesiredOps(ById(current), desired) + RetireOps(desired, current)
    ensures DistinctOpIds(ops)
  {
    var first, second := DesiredOps(ById(current), desired), RetireOps(desired, current);
    DesiredOpsHold(ById(current), desired);
    RetireOpsHold(desired, current);
    forall i | 0 <= i < |first| ensures first[i].id in DesiredIds(desired) && first[i].id == desired[i].id { }
    forall j | 0 <= j < |second| ensures second[j].id !in DesiredIds(desired) { assert second[j] in second; }
    hide OpFor, Retires, ById, DesiredIds;
  }

  lemma SortedPlan(current: seq<Record>, desired: seq<Desired>, ops: seq<Op>)
    requires DistinctCurrent(current) && DistinctDesired(desired)
    requires ops == DesiredOps(ById(current), desired) + RetireOps(desired, current)
    ensures IsPlan(current, desired, SortOps(ops))
  {
    WantedOpsAreListed(current, desired, ops);
    WantedIdsAreDistinct(current, desired, ops);
    DistinctIdsGiveDistinctKeys(ops);
    SortOpsHolds(ops);
    hide Wanted, DistinctOpIds, DistinctKeysOf, SortOps;
  }

  // ---------------------------------------------------------------- the plan

  lemma {:induction false} ByIdHolds(current: seq<Record>)
    requires DistinctCurrent(current)
    ensures forall id :: id in ById(current) <==> exists c :: c in current && c.id == id
    ensures forall c :: c in current ==> c.id in ById(current) && ById(current)[c.id] == c
  {
    if current != [] {
      var n := |current| - 1;
      assert DistinctCurrent(current[..n]);
      ByIdHolds(current[..n]);
      assert current == current[..n] + [current[n]];
      forall c | c in current[..n] ensures c.id != current[n].id {
        var k :| 0 <= k < n && current[..n][k] == c;
        assert current[k].id != current[n].id;
      }
    }
  }

  lemma SameById(a: seq<Record>, b: seq<Record>)
    requires DistinctCurrent(a) && DistinctCurrent(b) && forall c :: c in a <==> c in b
    ensures ById(a) == ById(b)
  {
    ByIdHolds(a);
    ByIdHolds(b);
    forall id ensures id in ById(a) <==> id in ById(b) { }
    forall id | id in ById(a) ensures ById(a)[id] == ById(b)[id] {
      var c :| c in a && c.id == id;
    }
  }

  lemma SameWanted(a: seq<Record>, b: seq<Record>, d: seq<Desired>, e: seq<Desired>, op: Op)
    requires DistinctCurrent(a) && DistinctCurrent(b) && (forall c :: c in a <==> c in b) && forall x :: x in d <==>
      x in e
    requires Wanted(a, d, op)
    ensures Wanted(b, e, op)
  {
    SameById(a, b);
    SameDesired(d, e);
    hide ById, OpFor, DesiredIds, AliasedAway;
    if x :| x in d && op == OpFor(ById(a), x) {
      assert x in e;
    } else {
      var c :| c in a && Retires(d, c) && op == Retire(c.id);
      assert c in b && Retires(e, c);
    }
  }

  lemma SameDesired(d: seq<Desired>, e: seq<Desired>)
    requires forall x :: x in d <==> x in e
    ensures DesiredIds(d) == DesiredIds(e) && AliasedAway(d) == AliasedAway(e)
  {
    WithinDesired(d, e);
    WithinDesired(e, d);
  }

  lemma WithinDesired(d: seq<Desired>, e: seq<Desired>)
    requires forall x :: x in d ==> x in e
    ensures DesiredIds(d) <= DesiredIds(e) && AliasedAway(d) <= AliasedAway(e)
  {
    forall id | id in DesiredIds(d) ensures id in DesiredIds(e) {
      var i :| 0 <= i < |d| && d[i].id == id;
      assert d[i] in e;
    }
    forall id | id in AliasedAway(d) ensures id in AliasedAway(e) {
      var i :| 0 <= i < |d| && d[i].aliasOf.Some? && d[i].aliasOf.value != "" && d[i].aliasOf.value == id;
      assert d[i] in e;
    }
  }

  /** The plan does not depend on the order in which either state was read. */
  lemma OrderOfInputsIsIrrelevant(a: seq<Record>, b: seq<Record>, d: seq<Desired>, e: seq<Desired>, p: seq<Op>,
                                  q: seq<Op>)
    requires multiset(a) == multiset(b) && multiset(d) == multiset(e) && DistinctCurrent(a) && DistinctCurrent(b)
    requires IsPlan(a, d, p) && IsPlan(b, e, q)
    ensures p == q
  {
    forall c ensures c in a <==> c in b { assert c in a <==> c in multiset(a); assert c in b <==> c in multiset(b); }
    forall x ensures x in d <==> x in e { assert x in d <==> x in multiset(d); assert x in e <==> x in multiset(e); }
    forall op ensures op in p <==> op in q {
      if op in p { SameWanted(a, b, d, e, op); }
      if op in q { SameWanted(b, a, e, d, op); }
    }
    hide Wanted;
    SortedOpsUnique(p, q);
  }

  lemma SortedOpsUnique(p: seq<Op>, q: seq<Op>)
    requires Sorted(p) && Sorted(q) && forall op :: op in p <==> op in q
    ensures p == q
  {
    var a, b := seq(|p|, i requires 0 <= i < |p| => Field(SortKey(p[i]), p[i])),
      seq(|q|, i requires 0 <= i < |q| => Field(SortKey(q[i]), q[i]));
    FieldsHold(p, a);
    FieldsHold(q, b);
    SortedNoDuplicates(a);
    SortedNoDuplicates(b);
    NoMoreThan(a, b);
    NoMoreThan(b, a);
    SortedUnique(a, b);
    forall i | 0 <= i < |p| ensures p[i] == q[i] { assert a[i].value == b[i].value; }
  }

  lemma FieldsHold(p: seq<Op>, a: seq<Field<Op>>)
    requires Sorted(p) && |a| == |p| && forall i :: 0 <= i < |a| ==> a[i] == Field(SortKey(p[i]), p[i])
    ensures SortedFields(a) && forall f :: f in a <==> f.value in p && f.key == SortKey(f.value)
  {
    forall f ensures f in a <==> f.value in p && f.key == SortKey(f.value) {
      if f in a { var i :| 0 <= i < |a| && a[i] == f; assert p[i] in p; }
      if f.value in p && f.key == SortKey(f.value) { var i :| 0 <= i < |p| && p[i] == f.value; assert a[i] == f; }
    }
  }

  /** Each desired permission gets the one op meant for it. */
  lemma OneOpPerDesired(current: seq<Record>, desired: seq<Desired>, ops: seq<Op>, d: Desired, i: nat)
    requires DistinctCurrent(current) && DistinctDesired(desired) && IsPlan(current, desired, ops) && d in desired
    ensures OpFor(ById(current), d) in ops
    ensures i < |ops| && ops[i].id == d.id ==> ops[i] == OpFor(ById(current), d)
    ensures forall j, k :: 0 <= j < k < |ops| ==> ops[j] != ops[k]
  {
    assert Wanted(current, desired, OpFor(ById(current), d));
    if i < |ops| && ops[i].id == d.id {
      assert ops[i] in ops;
      WantedForDesired(current, desired, ops[i], d);
    }
    forall j, k | 0 <= j < k < |ops| ensures ops[j] != ops[k] { KeyLessTotal(SortKey(ops[j]), SortKey(ops[k])); }
  }

  lemma WantedForDesired(current: seq<Record>, desired: seq<Desired>, op: Op, d: Desired)
    requires DistinctDesired(desired) && d in desired && op.id == d.id && Wanted(current, desired, op)
    ensures op == OpFor(ById(current), d)
  {
    hide ById;
    var i :| 0 <= i < |desired| && desired[i] == d;
    assert d.id in DesiredIds(desired);
    if e :| e in desired && op == OpFor(ById(current), e) { SameDesiredId(desired, d, e); }
  }

  lemma SameDesiredId(desired: seq<Desired>, d: Desired, e: Desired)
    requires DistinctDesired(desired) && d in desired && e in desired && d.id == e.id
    ensures d == e
  {
    var i :| 0 <= i < |desired| && desired[i] == d;
    var j :| 0 <= j < |desired| && desired[j] == e;
    assert !(i < j) && !(j < i);
  }

  // ---------------------------------------------------------------- applying the plan

  /** What applying an op does: ids stay, nothing is deleted. */
  function ApplyOp(state: map<string, Record>, op: Op, target: int): map<string, Record> {
    match op
    case NoOp(_) => state
    case Add(id, name) => state[id := Record(id, name, Active, Some(target))]
    case UpdateDisplay(id, _, to) => if id in state
      then state[id := state[id].(displayName := to, schemaGeneration := Some(target))] else state
    case Alias(id, _, name) => state[id := Record(id, name, Active, Some(target))]
    case Retire(id) => if id in state then state[id := state[id].(status := Retired, schemaGeneration := Some(target))]
      else state
  }

  function Applied(state: map<string, Record>, ops: seq<Op>, target: int): map<string, Record> {
    if ops == [] then state else ApplyOp(Applied(state, ops[..|ops| - 1], target), ops[|ops| - 1], target)
  }

  /** A permission id is for good: applying a plan deletes no record and renames none. */
  lemma {:induction false} NothingIsDeleted(state: map<string, Record>, ops: seq<Op>, target: int, id: string)
    requires id in state && state[id].id == id
    ensures id in Applied(state, ops, target) && Applied(state, ops, target)[id].id == id
  {
    if ops != [] { NothingIsDeleted(state, ops[..|ops| - 1], target, id); }
  }

  /** Among ops with distinct ids, each has its own effect and no other. */
  lemma {:induction false} AppliedAt(state: map<string, Record>, ops: seq<Op>, target: int, i: nat)
    requires DistinctOpIds(ops) && i < |ops|
    ensures var t, id := Applied(state, ops, target), ops[i].id;
      (id in t <==> id in ApplyOp(state, ops[i], target)) && (id in t ==> t[id] == ApplyOp(state, ops[i], target)[id])
  {
    var n := |ops| - 1;
    if i < n {
      assert DistinctOpIds(ops[..n]);
      AppliedAt(state, ops[..n], target, i);
      assert ops[i].id != ops[n].id;
    } else {
      AppliedElsewhere(state, ops[..n], target, ops[n].id);
    }
  }

  lemma {:induction false} AppliedElsewhere(state: map<string, Record>, ops: seq<Op>, target: int, id: string)
    requires forall i :: 0 <= i < |ops| ==> ops[i].id != id
    ensures var t := Applied(state, ops, target); (id in t <==> id in state) && (id in state ==> t[id] == state[id])
  {
    if ops != [] { AppliedElsewhere(state, ops[..|ops| - 1], target, id); }
  }

  lemma PlanHasDistinctIds(current: seq<Record>, desired: seq<Desired>, ops: seq<Op>)
    requires DistinctCurrent(current) && DistinctDesired(desired) && IsPlan(current, desired, ops)
    ensures DistinctOpIds(ops)
  {
    hide Sorted, ById, OpFor;
    forall i, j | 0 <= i < j < |ops| ensures ops[i].id != ops[j].id {
      assert ops[i] in ops && ops[j] in ops;
      if ops[i].id == ops[j].id {
        SameIdSameOp(current, desired, ops[i], ops[j]);
        SortedHasNoRepeats(ops, i, j);
      }
    }
  }

  lemma SortedHasNoRepeats(ops: seq<Op>, i: nat, j: nat)
    requires Sorted(ops) && i < j < |ops|
    ensures ops[i] != ops[j]
  {
    KeyLessTotal(SortKey(ops[i]), SortKey(ops[j]));
  }

  lemma SameIdSameOp(current: seq<Record>, desired: seq<Desired>, a: Op, b: Op)
    requires DistinctDesired(desired) && Wanted(current, desired, a) && Wanted(current, desired, b) && a.id == b.id
    ensures a == b
  {
    if d :| d in desired && a == OpFor(ById(current), d) {
      WantedForDesired(current, desired, b, d);
    } else if e :| e in desired && b == OpFor(ById(current), e) {
      WantedForDesired(current, desired, a, e);
    }
  }

  /** The newest generation is within the target exactly when every record's is. */
  lemma {:induction false} NewestBound(current: seq<Record>, target: int)
    ensures NewestGeneration(current) <= target <==> 0 <= target && forall c :: c in current ==> Generation(c) <= target
  {
    if current != [] {
      NewestBound(current[..|current| - 1], target);
      assert current == current[..|current| - 1] + [current[|current| - 1]];
    }
  }

  ghost predicate WithinGeneration(state: map<string, Record>, target: int) {
    forall id :: id in state ==> Generation(state[id]) <= target
  }

  lemma {:induction false} AppliedStaysWithin(state: map<string, Record>, ops: seq<Op>, target: int)
    requires WithinGeneration(state, target)
    ensures WithinGeneration(Applied(state, ops, target), target)
  {
    if ops != [] { AppliedStaysWithin(state, ops[..|ops| - 1], target); }
  }

  /** After the plan a desired permission that is no alias is there under its display name. */
  lemma DesiredIsMet(current: seq<Record>, desired: seq<Desired>, ops: seq<Op>, target: int, d: Desired)
    requires DistinctCurrent(current) && DistinctDesired(desired) && IsPlan(current, desired, ops) && d in desired
    requires d.aliasOf.None?
    ensures OpFor(Applied(ById(current), ops, target), d) == NoOp(d.id)
  {
    OneOpPerDesired(current, desired, ops, d, 0);
    PlanHasDistinctIds(current, desired, ops);
    hide IsPlan, DistinctOpIds, DistinctCurrent, DistinctDesired;
    var i :| 0 <= i < |ops| && ops[i] == OpFor(ById(current), d);
    AppliedAt(ById(current), ops, target, i);
    hide Applied, ById;
  }

  /**
   * After the plan a desired permission is active exactly if it replaces another, was not there, or was not
   * retired: a retired permission that is wanted again stays retired, and no later plan says so.
   */
  lemma DesiredIsActiveIff(current: seq<Record>, desired: seq<Desired>, ops: seq<Op>, target: int, d: Desired)
    requires DistinctCurrent(current) && DistinctDesired(desired) && IsPlan(current, desired, ops) && d in desired
    ensures var state, after := ById(current), Applied(ById(current), ops, target);
      && d.id in after
      && (after[d.id].status.Active? <==> d.aliasOf.Some? || d.id !in state || state[d.id].status.Active?)
  {
    OneOpPerDesired(current, desired, ops, d, 0);
    PlanHasDistinctIds(current, desired, ops);
    hide IsPlan, DistinctOpIds, DistinctCurrent, DistinctDesired;
    var i :| 0 <= i < |ops| && ops[i] == OpFor(ById(current), d);
    AppliedAt(ById(current), ops, target, i);
    hide Applied, ById;
  }

  /** Some desired permission replaces this id. */
  ghost predicate Replaced(desired: seq<Desired>, id: string) {
    id != "" && exists i :: 0 <= i < |desired| && desired[i].aliasOf == Some(id)
  }

  /** The op is called for by the two states. */
  ghost predicate CalledFor(state: map<string, Record>, desired: seq<Desired>, op: Op) {
    match op
    case NoOp(id) => id in state && Desired(id, state[id].displayName, None) in desired
    case Add(id, name) => id !in state && Desired(id, name, None) in desired
    case UpdateDisplay(id, from, to) =>
      id in state && state[id].displayName == from && from != to && Desired(id, to, None) in desired
    case Alias(id, replaced, name) => Desired(id, name, Some(replaced)) in desired
    case Retire(id) =>
      id in state && state[id].status != Retired && !Replaced(desired, id) && forall d :: d in desired ==> d.id != id
  }

  /** The plan holds the ops that are called for, and no others. */
  lemma PlanIsExact(current: seq<Record>, desired: seq<Desired>, ops: seq<Op>, op: Op)
    requires DistinctCurrent(current) && IsPlan(current, desired, ops)
    ensures op in ops <==> CalledFor(ById(current), desired, op)
  {
    assert op in ops <==> Wanted(current, desired, op);
    hide IsPlan, Sorted;
    if op.Retire? {
      RetireIsExact(current, desired, op.id);
    } else {
      hide ById, Replaced, Retires;
      if CalledFor(ById(current), desired, op) {
        var d := match op
          case NoOp(id) => Desired(id, ById(current)[id].displayName, None)
          case Add(id, name) => Desired(id, name, None)
          case UpdateDisplay(id, from, to) => Desired(id, to, None)
          case Alias(id, replaced, name) => Desired(id, name, Some(replaced));
        assert d in desired && op == OpFor(ById(current), d);
      }
      if d :| d in desired && op == OpFor(ById(current), d) {
        assert d == Desired(d.id, d.displayName, d.aliasOf);
      }
    }
  }

  lemma RetireIsExact(current: seq<Record>, desired: seq<Desired>, id: string)
    requires DistinctCurrent(current)
    ensures Wanted(current, desired, Retire(id)) <==> CalledFor(ById(current), desired, Retire(id))
  {
    WantedRetirement(current, desired, id);
    WantedIds(desired, id);
    RecordOf(current, id);
    hide ById, AliasedAway, DesiredIds, Replaced, Wanted;
  }

  lemma WantedRetirement(current: seq<Record>, desired: seq<Desired>, id: string)
    ensures Wanted(current, desired, Retire(id)) <==> exists c :: c in current && Retires(desired, c) && c.id == id
  {
    hide ById, Retires;
  }

  lemma RecordOf(current: seq<Record>, id: string)
    requires DistinctCurrent(current)
    ensures id in ById(current) ==> ById(current)[id] in current && ById(current)[id].id == id
    ensures forall c :: c in current && c.id == id ==> id in ById(current) && ById(current)[id] == c
  {
    ByIdHolds(current);
  }

  lemma WantedIds(desired: seq<Desired>, id: string)
    ensures id in AliasedAway(desired) <==> Replaced(desired, id)
    ensures id !in DesiredIds(desired) <==> forall d :: d in desired ==> d.id != id
  {
    assert forall i :: 0 <= i < |desired| ==> desired[i] in desired;
  }

  /** What a plan makes of a permission that is desired. */
  lemma DesiredBecomes(current: seq<Record>, desired: seq<Desired>, ops: seq<Op>, target: int, d: Desired)
    requires DistinctCurrent(current) && DistinctDesired(desired) && IsPlan(current, desired, ops) && d in desired
    ensures var state, after := ById(current), Applied(ById(current), ops, target);
      && d.id in after
      && after[d.id] ==
         if d.aliasOf.Some? || d.id !in state then Record(d.id, d.displayName, Active, Some(target))
         else if state[d.id].displayName == d.displayName then state[d.id]
         else state[d.id].(displayName := d.displayName, schemaGeneration := Some(target))
  {
    OneOpPerDesired(current, desired, ops, d, 0);
    PlanHasDistinctIds(current, desired, ops);
    hide IsPlan, DistinctOpIds, DistinctCurrent, DistinctDesired;
    var i :| 0 <= i < |ops| && ops[i] == OpFor(ById(current), d);
    AppliedAt(ById(current), ops, target, i);
    hide Applied, ById;
  }

  /**
   * What a plan makes of an id that is not desired: one that an alias replaces stays as it is, and so
   * does one that is retired already; any other is retired, and an id that was not there does not appear.
   */
  lemma UndesiredBecomes(current: seq<Record>, desired: seq<Desired>, ops: seq<Op>, target: int, id: string)
    requires DistinctCurrent(current) && DistinctDesired(desired) && IsPlan(current, desired, ops)
    requires forall d :: d in desired ==> d.id != id
    ensures var state, after := ById(current), Applied(ById(current), ops, target);
      && (id in after <==> id in state)
      && (id in state ==>
            after[id] ==
            if Replaced(desired, id) || state[id].status == Retired then state[id]
            else state[id].(status := Retired, schemaGeneration := Some(target)))
  {
    ByIdHolds(current);
    PlanHasDistinctIds(current, desired, ops);
    PlanIsExact(current, desired, ops, Retire(id));
    assert forall op :: op in ops && op.id == id ==> op == Retire(id) by { OnlyRetired(current, desired, ops, id); }
    if op :| op in ops && op.id == id {
      NotDesired(current, desired, op);
      var i :| 0 <= i < |ops| && ops[i] == op;
      AppliedAt(ById(current), ops, target, i);
      hide ById, IsPlan, Applied;
    } else {
      AppliedElsewhere(ById(current), ops, target, id);
      hide ById, IsPlan, Applied;
    }
  }

  lemma OnlyRetired(current: seq<Record>, desired: seq<Desired>, ops: seq<Op>, id: string)
    requires DistinctCurrent(current) && IsPlan(current, desired, ops) && forall d :: d in desired ==> d.id != id
    ensures forall op :: op in ops && op.id == id ==> op == Retire(id)
  {
    hide ById, OpFor, Sorted;
    forall op | op in ops && op.id == id ensures op == Retire(id) { NotDesired(current, desired, op); }
  }

  /** After the plan there is nothing left to retire. */
  lemma NothingLeftToRetire(current: seq<Record>, desired: seq<Desired>, ops: seq<Op>, target: int, c: Record)
    requires DistinctCurrent(current) && DistinctDesired(desired) && IsPlan(current, desired, ops)
    requires var t := Applied(ById(current), ops, target); c.id in t && t[c.id] == c
    ensures !Retires(desired, c)
  {
    if Retires(desired, c) {
      ByIdHolds(current);
      assert c in current ==> Wanted(current, desired, Retire(c.id)) && Retire(c.id) in ops;
      if op :| op in ops && op.id == c.id {
        NotDesired(current, desired, op);
        var i :| 0 <= i < |ops| && ops[i] == op;
        PlanHasDistinctIds(current, desired, ops);
        AppliedAt(ById(current), ops, target, i);
      } else {
        AppliedElsewhere(ById(current), ops, target, c.id);
      }
    }
  }

  lemma NotDesired(current: seq<Record>, desired: seq<Desired>, op: Op)
    requires DistinctCurrent(current) && Wanted(current, desired, op) && op.id !in DesiredIds(desired)
    ensures op.Retire? && op.id in ById(current)
  {
    ByIdHolds(current);
    if d :| d in desired && op == OpFor(ById(current), d) {
      var i :| 0 <= i < |desired| && desired[i] == d;
      assert d.id in DesiredIds(desired);
    }
  }

  /**
   * Once a plan has been applied, planning again for the same desired state meets no error and finds
   * nothing to do: only no-ops and aliases.
   */
  lemma SecondPlanIsIdle(current: seq<Record>, desired: seq<Desired>, target: int, ops: seq<Op>, next: seq<Record>,
                         again: seq<Op>)
    requires DistinctCurrent(current) && !HasError(current, desired, target) && IsPlan(current, desired, ops)
    requires DistinctCurrent(next) && ById(next) == Applied(ById(current), ops, target) && IsPlan(next, desired, again)
    ensures !HasError(next, desired, target)
    ensures forall op :: op in again ==> op.NoOp? || op.Alias?
  {
    SecondMeetsNoError(current, desired, target, ops, next);
    ByIdHolds(next);
    forall op | op in again ensures op.NoOp? || op.Alias? {
      assert Wanted(next, desired, op);
      if d :| d in desired && op == OpFor(ById(next), d) {
        if d.aliasOf.None? { DesiredIsMet(current, desired, ops, target, d); }
      } else {
        var c :| c in next && Retires(desired, c) && op == Retire(c.id);
        NothingLeftToRetire(current, desired, ops, target, c);
      }
    }
  }

  lemma SecondMeetsNoError(current: seq<Record>, desired: seq<Desired>, target: int, ops: seq<Op>, next: seq<Record>)
    requires DistinctCurrent(current) && !HasError(current, desired, target)
    requires DistinctCurrent(next) && ById(next) == Applied(ById(current), ops, target)
    ensures !HasError(next, desired, target)
  {
    ByIdHolds(current);
    ByIdHolds(next);
    NewestBound(current, target);
    forall id | id in ById(current) ensures Generation(ById(current)[id]) <= target && ById(current)[id].id == id {
      var c :| c in current && c.id == id;
    }
    AppliedStaysWithin(ById(current), ops, target);
    NewestBound(next, target);
    forall d | d in desired ensures !BadAlias(ById(next), d) {
      assert !BadAlias(ById(current), d);
      if d.aliasOf.Some? { NothingIsDeleted(ById(current), ops, target, d.aliasOf.value); }
    }
    hide IsPermissionId, DistinctDesired, Applied;
  }
}
