/** The line diff of a change plan: a shortest edit script, and the context shown around it. */
module Diff {
  import opened Wrappers

  datatype Kind = Same | Add | Remove

  datatype DiffOp = DiffOp(kind: Kind, line: string)

  // ---------------------------------------------------------------- edit scripts

  /** The lines an edit script starts from. */
  function Source(ops: seq<DiffOp>): seq<string> {
    if ops == [] then []
    else Source(ops[..|ops| - 1]) + (var op := ops[|ops| - 1]; if op.kind == Add then [] else [op.line])
  }

  /** The lines an edit script produces. */
  function Target(ops: seq<DiffOp>): seq<string> {
    if ops == [] then []
    else Target(ops[..|ops| - 1]) + (var op := ops[|ops| - 1]; if op.kind == Remove then [] else [op.line])
  }

  /** The lines an edit script keeps. */
  function Kept(ops: seq<DiffOp>): seq<string> {
    if ops == [] then []
    else Kept(ops[..|ops| - 1]) + (var op := ops[|ops| - 1]; if op.kind == Same then [op.line] else [])
  }

  predicate Rebuilds(ops: seq<DiffOp>, before: seq<string>, after: seq<string>) {
    Source(ops) == before && Target(ops) == after
  }

  lemma Push(ops: seq<DiffOp>, op: DiffOp)
    ensures Source(ops + [op]) == Source(ops) + (if op.kind == Add then [] else [op.line])
    ensures Target(ops + [op]) == Target(ops) + (if op.kind == Remove then [] else [op.line])
    ensures Kept(ops + [op]) == Kept(ops) + (if op.kind == Same then [op.line] else [])
  {
    assert (ops + [op])[..|ops|] == ops;
  }

  /** Lines changed by an edit script. */
  function Changes(ops: seq<DiffOp>): int { |ops| - |Kept(ops)| }

  // ---------------------------------------------------------------- common subsequences

  predicate Subsequence(s: seq<string>, a: seq<string>) {
    s == [] || (a != [] && ((s[0] == a[0] && Subsequence(s[1..], a[1..])) || Subsequence(s, a[1..])))
  }

  function Max(a: nat, b: nat): nat { if a < b then b else a }

  function Lcs(a: seq<string>, b: seq<string>): nat
    decreases |a| + |b|
  {
    if a == [] || b == [] then 0
    else if a[0] == b[0] then Lcs(a[1..], b[1..]) + 1
    else Max(Lcs(a[1..], b), Lcs(a, b[1..]))
  }

  lemma {:induction false} DropBoth(s: seq<string>, a: seq<string>)
    requires Subsequence(s, a) && s != []
    ensures a != [] && Subsequence(s[1..], a[1..])
  {
    if !(s[0] == a[0] && Subsequence(s[1..], a[1..])) {
      DropBoth(s, a[1..]);
      Weaken(s[1..], a[1..]);
    }
  }

  lemma {:induction false} Weaken(s: seq<string>, a: seq<string>)
    requires a != [] && Subsequence(s, a[1..])
    ensures Subsequence(s, a)
  {
  }

  /** No common subsequence is longer than `Lcs`. */
  lemma {:induction false} LcsBounds(s: seq<string>, a: seq<string>, b: seq<string>)
    requires Subsequence(s, a) && Subsequence(s, b)
    ensures |s| <= Lcs(a, b)
    decreases |a| + |b|
  {
    if s != [] {
      DropBoth(s, a);
      DropBoth(s, b);
      if a[0] == b[0] {
        LcsBounds(s[1..], a[1..], b[1..]);
      } else if s[0] != a[0] {
        LcsBounds(s, a[1..], b);
      } else {
        LcsBounds(s, a, b[1..]);
      }
    }
  }

  /** Some common subsequence is as long as `Lcs`. */
  lemma {:induction false} LcsReached(a: seq<string>, b: seq<string>) returns (s: seq<string>)
    ensures Subsequence(s, a) && Subsequence(s, b) && |s| == Lcs(a, b)
    decreases |a| + |b|
  {
    if a == [] || b == [] {
      s := [];
    } else if a[0] == b[0] {
      var t := LcsReached(a[1..], b[1..]);
      s := [a[0]] + t;
      assert s[1..] == t;
    } else if Lcs(a[1..], b) >= Lcs(a, b[1..]) {
      s := LcsReached(a[1..], b);
    } else {
      s := LcsReached(a, b[1..]);
    }
  }

  lemma {:induction false} SubsequenceAppend(s: seq<string>, a: seq<string>, t: seq<string>, b: seq<string>)
    requires Subsequence(s, a) && Subsequence(t, b)
    ensures Subsequence(s + t, a + b)
    decreases |a|
  {
    if a == [] {
      assert s + t == t && a + b == b;
    } else {
      assert (a + b)[1..] == a[1..] + b;
      if s != [] && s[0] == a[0] && Subsequence(s[1..], a[1..]) {
        assert (s + t)[1..] == s[1..] + t;
        SubsequenceAppend(s[1..], a[1..], t, b);
      } else {
        SubsequenceAppend(s, a[1..], t, b);
        Weaken(s + t, a + b);
      }
    }
  }

  lemma {:induction false} KeptIsCommon(ops: seq<DiffOp>)
    ensures Subsequence(Kept(ops), Source(ops)) && Subsequence(Kept(ops), Target(ops))
    ensures |ops| + |Kept(ops)| == |Source(ops)| + |Target(ops)|
  {
    if ops != [] {
      var rest, op := ops[..|ops| - 1], ops[|ops| - 1];
      KeptIsCommon(rest);
      var k := if op.kind == Same then [op.line] else [];
      SubsequenceAppend(Kept(rest), Source(rest), k, if op.kind == Add then [] else [op.line]);
      SubsequenceAppend(Kept(rest), Target(rest), k, if op.kind == Remove then [] else [op.line]);
    }
  }

  /** A script that keeps `Lcs` lines changes the fewest lines of all scripts between the two texts. */
  lemma KeepingLcsIsShortest(ops: seq<DiffOp>, other: seq<DiffOp>, before: seq<string>, after: seq<string>)
    requires Rebuilds(ops, before, after) && Rebuilds(other, before, after) && |Kept(ops)| == Lcs(before, after)
    ensures |Kept(other)| <= |Kept(ops)| && Changes(ops) <= Changes(other)
  {
    KeptIsCommon(ops);
    KeptIsCommon(other);
    LcsBounds(Kept(other), before, after);
  }

  // ---------------------------------------------------------------- the table and the walk

  /** Fills the table of common subsequence lengths of all pairs of remaining lines. */
  method FillTable(before: seq<string>, after: seq<string>) returns (lcs: array2<nat>)
    ensures fresh(lcs) && lcs.Length0 == |before| + 1 && lcs.Length1 == |after| + 1
    ensures forall i, j :: 0 <= i <= |before| && 0 <= j <= |after| ==> lcs[i, j] == Lcs(before[i..], after[j..])
  {
    var rows, columns := |before|, |after|;
    lcs := new nat[rows + 1, columns + 1]((_, _) => 0);
    LcsEdges(before, after);
    hide Lcs;
    for row := rows downto 0
      invariant forall i, j :: row <= i <= rows && 0 <= j <= columns ==> lcs[i, j] == Lcs(before[i..], after[j..])
      invariant forall i :: 0 <= i <= rows ==> lcs[i, columns] == 0
    {
      for column := columns downto 0
        invariant forall i, j :: row < i <= rows && 0 <= j <= columns ==> lcs[i, j] == Lcs(before[i..], after[j..])
        invariant forall j :: column <= j <= columns ==> lcs[row, j] == Lcs(before[row..], after[j..])
        invariant forall i :: 0 <= i <= rows ==> lcs[i, columns] == 0
      {
        LcsStep(before, after, row, column);
        lcs[row, column] :=
          if before[row] == after[column] then lcs[row + 1, column + 1] + 1
          else Max(lcs[row + 1, column], lcs[row, column + 1]);
      }
    }
  }

  lemma LcsEdges(a: seq<string>, b: seq<string>)
    ensures forall j :: 0 <= j <= |b| ==> Lcs(a[|a|..], b[j..]) == 0
    ensures forall i :: 0 <= i <= |a| ==> Lcs(a[i..], b[|b|..]) == 0
  {
  }

  /** The script so far has dealt with `row` and `column` lines, and can still reach the optimum. */
  ghost predicate Progress(ops: seq<DiffOp>, before: seq<string>, after: seq<string>, row: nat, column: nat) {
    && row <= |before| && column <= |after|
    && Source(ops) == before[..row] && Target(ops) == after[..column]
    && |Kept(ops)| + Lcs(before[row..], after[column..]) == Lcs(before, after)
  }

  lemma StepSame(ops: seq<DiffOp>, before: seq<string>, after: seq<string>, row: nat, column: nat)
    requires Progress(ops, before, after, row, column)
    requires row < |before| && column < |after| && before[row] == after[column]
    ensures Progress(ops + [DiffOp(Same, before[row])], before, after, row + 1, column + 1)
  {
    LcsStep(before, after, row, column);
    hide Lcs;
    Push(ops, DiffOp(Same, before[row]));
  }

  lemma StepRemove(ops: seq<DiffOp>, before: seq<string>, after: seq<string>, row: nat, column: nat)
    requires Progress(ops, before, after, row, column) && row < |before|
    requires Lcs(before[row..], after[column..]) == Lcs(before[row + 1..], after[column..])
    ensures Progress(ops + [DiffOp(Remove, before[row])], before, after, row + 1, column)
  {
    hide Lcs;
    Push(ops, DiffOp(Remove, before[row]));
  }

  lemma StepAdd(ops: seq<DiffOp>, before: seq<string>, after: seq<string>, row: nat, column: nat)
    requires Progress(ops, before, after, row, column) && column < |after|
    requires Lcs(before[row..], after[column..]) == Lcs(before[row..], after[column + 1..])
    ensures Progress(ops + [DiffOp(Add, after[column])], before, after, row, column + 1)
  {
    hide Lcs;
    Push(ops, DiffOp(Add, after[column]));
  }

  lemma ProgressEnds(ops: seq<DiffOp>, before: seq<string>, after: seq<string>)
    ensures Progress([], before, after, 0, 0)
    ensures Progress(ops, before, after, |before|, |after|) ==>
      Rebuilds(ops, before, after) && |Kept(ops)| == Lcs(before, after)
  {
    assert before[0..] == before && after[0..] == after;
    assert before[..|before|] == before && after[..|after|] == after;
  }

  /** Wherever lines are replaced, those that go are listed before those that come. */
  ghost predicate RemovalsFirst(ops: seq<DiffOp>) {
    forall k :: 0 <= k < |ops| - 1 && ops[k].kind == Add ==> ops[k + 1].kind != Remove
  }

  lemma PushKeepsRemovalsFirst(ops: seq<DiffOp>, op: DiffOp)
    requires RemovalsFirst(ops) && (ops != [] && ops[|ops| - 1].kind == Add ==> op.kind != Remove)
    ensures RemovalsFirst(ops + [op])
  {
  }

  /** After an added line there is no line to remove here: adding another one is the better way on. */
  ghost predicate AddsOn(before: seq<string>, after: seq<string>, row: nat, column: nat) {
    row < |before| && column <= |after| ==>
      column < |after| &&
      (before[row] != after[column] ==>
         Lcs(before[row + 1..], after[column..]) < Lcs(before[row..], after[column + 1..]))
  }

  lemma LcsShrinks(a: seq<string>, b: seq<string>)
    requires b != []
    ensures Lcs(a, b[1..]) <= Lcs(a, b)
  {
    var s := LcsReached(a, b[1..]);
    Weaken(s, b);
    LcsBounds(s, a, b);
  }

  lemma AddingGoesOn(before: seq<string>, after: seq<string>, row: nat, column: nat)
    requires row < |before| && column < |after|
    requires Lcs(before[row + 1..], after[column..]) < Lcs(before[row..], after[column + 1..])
    ensures AddsOn(before, after, row, column + 1)
  {
    LcsEdges(before, after);
    LcsShrinks(before[row + 1..], after[column..]);
    assert after[column..][1..] == after[column + 1..];
    if column + 1 < |after| { LcsStep(before, after, row, column + 1); }
    hide Lcs;
  }

  /** The walk has come to `row` and `column` with a script that can be extended to the wanted one. */
  ghost predicate OnTrack(ops: seq<DiffOp>, before: seq<string>, after: seq<string>, row: nat, column: nat) {
    && Progress(ops, before, after, row, column) && RemovalsFirst(ops)
    && (ops != [] && ops[|ops| - 1].kind == Add ==> AddsOn(before, after, row, column))
  }

  lemma KeepLine(ops: seq<DiffOp>, before: seq<string>, after: seq<string>, row: nat, column: nat)
    requires OnTrack(ops, before, after, row, column)
    requires row < |before| && column < |after| && before[row] == after[column]
    ensures OnTrack(ops + [DiffOp(Same, before[row])], before, after, row + 1, column + 1)
  {
    StepSame(ops, before, after, row, column);
    PushKeepsRemovalsFirst(ops, DiffOp(Same, before[row]));
    hide Progress, RemovalsFirst, Lcs;
  }

  lemma RemoveLine(ops: seq<DiffOp>, before: seq<string>, after: seq<string>, row: nat, column: nat)
    requires OnTrack(ops, before, after, row, column) && row < |before| && column <= |after|
    requires column < |after| ==>
      before[row] != after[column] &&
      Lcs(before[row + 1..], after[column..]) >= Lcs(before[row..], after[column + 1..])
    ensures OnTrack(ops + [DiffOp(Remove, before[row])], before, after, row + 1, column)
  {
    if column < |after| { LcsStep(before, after, row, column); } else { LcsEdges(before, after); }
    hide Lcs;
    assert Lcs(before[row..], after[column..]) == Lcs(before[row + 1..], after[column..]);
    StepRemove(ops, before, after, row, column);
    PushKeepsRemovalsFirst(ops, DiffOp(Remove, before[row]));
    hide Progress, RemovalsFirst;
  }

  lemma AddLine(ops: seq<DiffOp>, before: seq<string>, after: seq<string>, row: nat, column: nat)
    requires OnTrack(ops, before, after, row, column) && row <= |before| && column < |after|
    requires row < |before| ==>
      before[row] != after[column] &&
      Lcs(before[row + 1..], after[column..]) < Lcs(before[row..], after[column + 1..])
    ensures OnTrack(ops + [DiffOp(Add, after[column])], before, after, row, column + 1)
  {
    if row < |before| {
      LcsStep(before, after, row, column);
      AddingGoesOn(before, after, row, column);
    } else {
      LcsEdges(before, after);
    }
    hide Lcs;
    assert Lcs(before[row..], after[column..]) == Lcs(before[row..], after[column + 1..]);
    StepAdd(ops, before, after, row, column);
    PushKeepsRemovalsFirst(ops, DiffOp(Add, after[column]));
    hide Progress, RemovalsFirst;
  }

  lemma TrackEnds(ops: seq<DiffOp>, before: seq<string>, after: seq<string>)
    ensures OnTrack([], before, after, 0, 0)
    ensures OnTrack(ops, before, after, |before|, |after|) ==>
      Rebuilds(ops, before, after) && |Kept(ops)| == Lcs(before, after) && RemovalsFirst(ops)
  {
    ProgressEnds(ops, before, after);
    hide Progress, Lcs;
  }

  /**
   * An edit script that rebuilds both texts, keeps as many lines as any common subsequence, and lists
   * removed lines before the added ones that replace them.
   */
  method DiffLines(before: seq<string>, after: seq<string>) returns (ops: seq<DiffOp>)
    ensures Rebuilds(ops, before, after)
    ensures |Kept(ops)| == Lcs(before, after)
    ensures RemovalsFirst(ops)
  {
    hide Lcs, OnTrack, Rebuilds, Kept, RemovalsFirst;
    var rows, columns := |before|, |after|;
    var lcs := FillTable(before, after);
    TrackEnds([], before, after);
    ops := [];
    var row, column := 0, 0;
    while row < rows && column < columns
      invariant 0 <= row <= rows && 0 <= column <= columns && OnTrack(ops, before, after, row, column)
      invariant forall i, j :: 0 <= i <= rows && 0 <= j <= columns ==> lcs[i, j] == Lcs(before[i..], after[j..])
    {
      if before[row] == after[column] {
        KeepLine(ops, before, after, row, column);
        ops := ops + [DiffOp(Same, before[row])];
        row, column := row + 1, column + 1;
      } else if lcs[row + 1, column] >= lcs[row, column + 1] {
        RemoveLine(ops, before, after, row, column);
        ops := ops + [DiffOp(Remove, before[row])];
        row := row + 1;
      } else {
        AddLine(ops, before, after, row, column);
        ops := ops + [DiffOp(Add, after[column])];
        column := column + 1;
      }
    }
    while row < rows
      invariant 0 <= row <= rows && 0 <= column <= columns && OnTrack(ops, before, after, row, column)
      invariant row == rows || column == columns
    {
      RemoveLine(ops, before, after, row, column);
      ops := ops + [DiffOp(Remove, before[row])];
      row := row + 1;
    }
    while column < columns
      invariant 0 <= column <= columns && OnTrack(ops, before, after, rows, column)
    {
      AddLine(ops, before, after, rows, column);
      ops := ops + [DiffOp(Add, after[column])];
      column := column + 1;
    }
    TrackEnds(ops, before, after);
  }

  lemma LcsStep(a: seq<string>, b: seq<string>, i: nat, j: nat)
    requires i < |a| && j < |b|
    ensures Lcs(a[i..], b[j..]) ==
      if a[i] == b[j] then Lcs(a[i + 1..], b[j + 1..]) + 1 else Max(Lcs(a[i + 1..], b[j..]), Lcs(a[i..], b[j + 1..]))
  {
    assert a[i..][1..] == a[i + 1..] && b[j..][1..] == b[j + 1..];
  }

  // ---------------------------------------------------------------- lines of a text

  /** `text.split('\n')`. */
  function SplitLines(text: string): (lines: seq<string>)
    ensures lines != []
  {
    if text == "" then [""]
    else
      var rest := SplitLines(text[1..]);
      if text[0] == '\n' then [""] + rest else [[text[0]] + rest[0]] + rest[1..]
  }

  /** `lines.join('\n')`. */
  function JoinLines(lines: seq<string>): string {
    if lines == [] then "" else if |lines| == 1 then lines[0] else lines[0] + "\n" + JoinLines(lines[1..])
  }

  /** Splitting into lines loses nothing. */
  lemma {:induction false} SplitJoins(text: string)
    ensures JoinLines(SplitLines(text)) == text
  {
    if text != "" {
      SplitJoins(text[1..]);
      var rest := SplitLines(text[1..]);
      assert text == [text[0]] + text[1..];
      hide SplitLines;
      if text[0] == '\n' { JoinNewLine(rest); } else { JoinLongerLine(rest, text[0]); }
    }
  }

  lemma JoinNewLine(rest: seq<string>)
    requires rest != []
    ensures JoinLines([""] + rest) == ['\n'] + JoinLines(rest)
  {
    assert ([""] + rest)[1..] == rest;
    assert "" + "\n" == ['\n'];
  }

  lemma JoinLongerLine(rest: seq<string>, c: char)
    requires rest != []
    ensures JoinLines([[c] + rest[0]] + rest[1..]) == [c] + JoinLines(rest)
  {
    var longer := [[c] + rest[0]] + rest[1..];
    assert longer[1..] == rest[1..];
    if |rest| > 1 {
      var tail := JoinLines(rest[1..]);
      hide JoinLines;
      assert ([c] + rest[0]) + "\n" + tail == [c] + (rest[0] + "\n" + tail);
    }
  }

  // ---------------------------------------------------------------- rendering

  predicate Near(i: int, j: int, context: nat) { i - context <= j <= i + context }

  /** An operation is shown when a changed one lies within the context distance. */
  predicate Shown(ops: seq<DiffOp>, context: nat, i: nat)
    requires i < |ops|
  {
    exists j :: 0 <= j < |ops| && ops[j].kind != Same && Near(j, i, context)
  }

  function Sign(kind: Kind): char {
    match kind case Same => ' ' case Add => '+' case Remove => '-'
  }

  function Rendered(op: DiffOp): string { [Sign(op.kind)] + op.line }

  /** The shown operations among the first `n`. */
  function ShownUpTo(ops: seq<DiffOp>, context: nat, n: nat): (shown: seq<nat>)
    requires n <= |ops|
    ensures forall k :: 0 <= k < |shown| ==> shown[k] < n
  {
    if n == 0 then []
    else ShownUpTo(ops, context, n - 1) + (if Shown(ops, context, n - 1) then [n - 1] else [])
  }

  /** One line for each shown operation, with a mark wherever operations were skipped in between. */
  function Body(ops: seq<DiffOp>, shown: seq<nat>): seq<string>
    requires forall k :: 0 <= k < |shown| ==> shown[k] < |ops|
  {
    if shown == [] then []
    else
      var n := |shown| - 1;
      Body(ops, shown[..n])
      + (if n > 0 && shown[n] > shown[n - 1] + 1 then ["@@"] else [])
      + [Rendered(ops[shown[n]])]
  }

  lemma ShownStep(ops: seq<DiffOp>, context: nat, n: nat)
    requires n < |ops|
    ensures ShownUpTo(ops, context, n + 1) == ShownUpTo(ops, context, n) + (if Shown(ops, context, n) then [n] else [])
  {
  }

  lemma BodyPush(ops: seq<DiffOp>, shown: seq<nat>, index: nat)
    requires index < |ops| && forall k :: 0 <= k < |shown| ==> shown[k] < |ops|
    ensures Body(ops, shown + [index]) ==
      Body(ops, shown) + (if shown != [] && index > shown[|shown| - 1] + 1 then ["@@"] else []) + [Rendered(ops[index])]
  {
    assert (shown + [index])[..|shown|] == shown;
  }

  predicate HasChange(ops: seq<DiffOp>) { exists j :: 0 <= j < |ops| && ops[j].kind != Same }

  function Header(file: string): seq<string> { ["--- a/" + file, "+++ b/" + file] }

  /** The lines of a rendering: none for no change, else two lines of header and what is shown. */
  function Rendering(ops: seq<DiffOp>, file: string, context: nat): seq<string> {
    if HasChange(ops) then Header(file) + Body(ops, ShownUpTo(ops, context, |ops|)) else []
  }

  /** The operations to keep: those within `context` of a changed one. */
  method SelectContext(ops: seq<DiffOp>, context: nat) returns (keep: set<nat>)
    ensures forall i: nat :: i in keep <==> i < |ops| && Shown(ops, context, i)
  {
    keep := {};
    for index := 0 to |ops|
      invariant forall i :: i in keep <==>
        0 <= i < |ops| && exists j :: 0 <= j < index && ops[j].kind != Same && Near(j, i, context)
    {
      if ops[index].kind == Same { continue; }
      ghost var sofar := keep;
      for at := index - context to index + context + 1
        invariant forall i :: i in keep <==> i in sofar || (index - context <= i < at && 0 <= i < |ops|)
      {
        if 0 <= at < |ops| { keep := keep + {at}; }
      }
    }
  }

  method RenderOps(ops: seq<DiffOp>, file: string, context: nat) returns (lines: seq<string>)
    ensures lines == Rendering(ops, file, context)
  {
    if !HasChange(ops) { return []; }
    var keep := SelectContext(ops, context);
    lines := Header(file);
    var previous := -1;
    ghost var shown: seq<nat> := [];
    assert Header(file) + Body(ops, []) == Header(file);
    hide Shown, Rendered, Header, Body;
    for index := 0 to |ops|
      invariant shown == ShownUpTo(ops, context, index)
      invariant lines == Header(file) + Body(ops, shown)
      invariant previous == LastShown(shown)
    {
      ShownStep(ops, context, index);
      hide ShownUpTo;
      if index !in keep {
        assert shown + [] == shown;
        continue;
      }
      BodyPush(ops, shown, index);
      Append(Header(file), Body(ops, shown), previous != -1 && index > previous + 1, Rendered(ops[index]));
      if previous != -1 && index > previous + 1 { lines := lines + ["@@"]; }
      lines := lines + [Rendered(ops[index])];
      previous := index;
      shown := shown + [index];
    }
  }

  function LastShown(shown: seq<nat>): int { if shown == [] then -1 else shown[|shown| - 1] }

  lemma Append(header: seq<string>, body: seq<string>, skipped: bool, line: string)
    ensures header + (body + (if skipped then ["@@"] else []) + [line])
      == (if skipped then header + body + ["@@"] else header + body) + [line]
  {
  }

  datatype FileChange = FileChange(file: string, before: Option<string>, after: string)

  function OldLines(c: FileChange): seq<string> { if c.before.None? then [] else SplitLines(c.before.value) }

  /** A script that turns one list of lines into the other and keeps as many as any can. */
  ghost predicate IsShortest(ops: seq<DiffOp>, before: seq<string>, after: seq<string>) {
    Rebuilds(ops, before, after) && |Kept(ops)| == Lcs(before, after) && RemovalsFirst(ops)
  }

  ghost predicate Renders(text: string, ops: seq<DiffOp>, file: string, context: nat) {
    text == JoinLines(Rendering(ops, file, context))
  }

  /** The rendered diff is the rendering of a shortest edit script; nothing is shown for no change. */
  method RenderDiff(change: FileChange, context: nat) returns (text: string)
    ensures exists ops ::
      IsShortest(ops, OldLines(change), SplitLines(change.after)) && Renders(text, ops, change.file, context)
  {
    var script := DiffLines(OldLines(change), SplitLines(change.after));
    var lines := RenderOps(script, change.file, context);
    text := JoinLines(lines);
    assert IsShortest(script, OldLines(change), SplitLines(change.after)) &&
      Renders(text, script, change.file, context);
  }

  // ---------------------------------------------------------------- what the rendering shows

  /** The lines of a rendering that carry a sign, without it. */
  function Signed(lines: seq<string>, sign: char): seq<string> {
    if lines == [] then []
    else
      var n := |lines| - 1;
      Signed(lines[..n], sign) + (if lines[n] != "" && lines[n][0] == sign then [lines[n][1..]] else [])
  }

  /** The lines of a script's operations of one kind. */
  function LinesOf(ops: seq<DiffOp>, kind: Kind): seq<string> {
    if ops == [] then []
    else
      var n := |ops| - 1;
      LinesOf(ops[..n], kind) + (if ops[n].kind == kind then [ops[n].line] else [])
  }

  lemma SignedPush(lines: seq<string>, line: string, sign: char)
    ensures Signed(lines + [line], sign) ==
      Signed(lines, sign) + (if line != "" && line[0] == sign then [line[1..]] else [])
  {
    assert (lines + [line])[..|lines|] == lines;
  }

  lemma ChangedIsShown(ops: seq<DiffOp>, context: nat, i: nat)
    requires i < |ops|
    ensures ops[i].kind != Same ==> Shown(ops, context, i)
  {
    assert Near(i, i, context);
  }

  /** Every added and every removed line is rendered exactly once, in order, under its sign. */
  lemma {:induction false} ChangesAreShown(ops: seq<DiffOp>, context: nat, n: nat, kind: Kind)
    requires n <= |ops| && kind != Same
    ensures Signed(Body(ops, ShownUpTo(ops, context, n)), Sign(kind)) == LinesOf(ops[..n], kind)
  {
    if n > 0 {
      var m := n - 1;
      var s := ShownUpTo(ops, context, m);
      ShownStep(ops, context, m);
      ChangedIsShown(ops, context, m);
      assert ops[..n] == ops[..m] + [ops[m]];
      LinesPush(ops[..m], ops[m], kind);
      ChangesAreShown(ops, context, m, kind);
      hide ShownUpTo, LinesOf, Shown, Body, Signed;
      if ShownUpTo(ops, context, n) == s + [m] {
        OneMoreShown(ops, s, m, kind);
      } else {
        assert ShownUpTo(ops, context, n) == s;
      }
    }
  }

  /** The header's own line of that sign, without the sign. */
  function HeaderLine(file: string, kind: Kind): string {
    var header := Header(file);
    header[if kind == Remove then 0 else 1][1..]
  }

  lemma {:induction false} SignedConcat(a: seq<string>, b: seq<string>, sign: char)
    ensures Signed(a + b, sign) == Signed(a, sign) + Signed(b, sign)
  {
    if b == [] {
      assert a + b == a;
    } else {
      var n := |b| - 1;
      SignedConcat(a, b[..n], sign);
      assert a + b == (a + b[..n]) + [b[n]] && b == b[..n] + [b[n]];
      SignedPush(a + b[..n], b[n], sign);
      SignedPush(b[..n], b[n], sign);
    }
  }

  lemma NothingSigned(sign: char)
    ensures Signed([], sign) == []
  {
  }

  lemma SignedHeader(file: string, kind: Kind)
    requires kind != Same
    ensures Signed(Header(file), Sign(kind)) == [HeaderLine(file, kind)]
  {
    var header := Header(file);
    HeaderSigns(file);
    hide Header;
    SignedPair(header[0], header[1], Sign(kind));
    assert header == [header[0], header[1]];
  }

  lemma HeaderSigns(file: string)
    ensures var h := Header(file); |h| == 2 && |h[0]| > 0 && |h[1]| > 0 && h[0][0] == '-' && h[1][0] == '+'
  {
  }

  lemma SignedPair(a: string, b: string, sign: char)
    requires a != "" && b != "" && a[0] == '-' && b[0] == '+' && (sign == '-' || sign == '+')
    ensures Signed([a, b], sign) == [if sign == '-' then a[1..] else b[1..]]
  {
    NothingSigned(sign);
    SignedPush([], a, sign);
    SignedPush([a], b, sign);
    assert [] + [a] == [a] && [a] + [b] == [a, b];
  }

  lemma {:induction false} NothingChanged(ops: seq<DiffOp>, kind: Kind)
    requires kind != Same && !HasChange(ops)
    ensures LinesOf(ops, kind) == []
  {
    if ops != [] { NothingChanged(ops[..|ops| - 1], kind); }
  }

  /** Of all lines of a rendering, those with a sign are the header's one and then every changed line, in order. */
  lemma RenderingShowsChanges(ops: seq<DiffOp>, file: string, context: nat, kind: Kind)
    requires kind != Same
    ensures Signed(Rendering(ops, file, context), Sign(kind)) ==
      (if HasChange(ops) then [HeaderLine(file, kind)] else []) + LinesOf(ops, kind)
  {
    hide Signed, LinesOf, Body, ShownUpTo, Header;
    if HasChange(ops) {
      SignedHeader(file, kind);
      ChangesAreShown(ops, context, |ops|, kind);
      assert ops[..|ops|] == ops;
      SignedConcat(Header(file), Body(ops, ShownUpTo(ops, context, |ops|)), Sign(kind));
    } else {
      NothingChanged(ops, kind);
      NothingSigned(Sign(kind));
    }
  }

  lemma LinesPush(ops: seq<DiffOp>, op: DiffOp, kind: Kind)
    ensures LinesOf(ops + [op], kind) == LinesOf(ops, kind) + (if op.kind == kind then [op.line] else [])
  {
    assert (ops + [op])[..|ops|] == ops;
  }

  lemma OneMoreShown(ops: seq<DiffOp>, shown: seq<nat>, index: nat, kind: Kind)
    requires index < |ops| && (forall k :: 0 <= k < |shown| ==> shown[k] < |ops|) && kind != Same
    ensures Signed(Body(ops, shown + [index]), Sign(kind))
      == Signed(Body(ops, shown), Sign(kind)) + (if ops[index].kind == kind then [ops[index].line] else [])
  {
    var body, op := Body(ops, shown), ops[index];
    BodyPush(ops, shown, index);
    hide Body;
    RenderedSign(op, kind);
    if shown != [] && index > shown[|shown| - 1] + 1 {
      SignedPush(body, "@@", Sign(kind));
      SignedPush(body + ["@@"], Rendered(op), Sign(kind));
    } else {
      assert body + [] == body;
      SignedPush(body, Rendered(op), Sign(kind));
    }
  }

  lemma RenderedSign(op: DiffOp, kind: Kind)
    ensures Rendered(op) != "" && Rendered(op)[1..] == op.line && (Rendered(op)[0] == Sign(kind) <==> op.kind == kind)
    ensures kind != Same ==> "@@"[0] != Sign(kind)
  {
  }

  /** Operations appear in increasing order, each at most once. */
  lemma {:induction false} ShownInOrder(ops: seq<DiffOp>, context: nat, n: nat)
    requires n <= |ops|
    ensures var s := ShownUpTo(ops, context, n); forall i, j :: 0 <= i < j < |s| ==> s[i] < s[j]
  {
    if n > 0 {
      ShownInOrder(ops, context, n - 1);
      ShownStep(ops, context, n - 1);
      var s, t := ShownUpTo(ops, context, n - 1), ShownUpTo(ops, context, n);
      assert t == s || t == s + [n - 1];
    }
  }

  /** Exactly the operations near a change appear. */
  lemma {:induction false} ShownExactly(ops: seq<DiffOp>, context: nat, n: nat, i: nat)
    requires i < n <= |ops|
    ensures i in ShownUpTo(ops, context, n) <==>
      exists j :: 0 <= j < |ops| && ops[j].kind != Same && j - i <= context && i - j <= context
  {
    assert Shown(ops, context, i) <==>
      exists j :: 0 <= j < |ops| && ops[j].kind != Same && j - i <= context && i - j <= context;
    var s := ShownUpTo(ops, context, n - 1);
    assert ShownUpTo(ops, context, n) == s + (if Shown(ops, context, n - 1) then [n - 1] else []);
    hide ShownUpTo, Shown;
    if i < n - 1 { ShownExactly(ops, context, n - 1, i); }
  }

  // ---------------------------------------------------------------- where everything stands

  /** How many times operations were skipped before the `k`-th shown one, not counting those at the start. */
  function Gaps(shown: seq<nat>, k: nat): (g: nat)
    requires k < |shown|
    ensures g <= k
  {
    if k == 0 then 0 else Gaps(shown, k - 1) + (if shown[k] == shown[k - 1] + 1 then 0 else 1)
  }

  lemma {:induction false} SameGaps(shown: seq<nat>, n: nat, k: nat)
    requires k < n <= |shown|
    ensures Gaps(shown[..n], k) == Gaps(shown, k)
  {
    if k > 0 { SameGaps(shown, n, k - 1); }
  }

  ghost predicate Ascending(shown: seq<nat>) { forall i, j :: 0 <= i < j < |shown| ==> shown[i] < shown[j] }

  /**
   * This line shows the `k`-th of the shown operations under its sign, and the line before it is a mark
   * if operations were skipped in between.
   */
  ghost predicate ShownAt(ops: seq<DiffOp>, shown: seq<nat>, k: nat, lines: seq<string>, at: nat)
    requires k < |shown| && shown[k] < |ops|
  {
    var op := ops[shown[k]];
    && at < |lines|
    && lines[at] == [if op.kind == Add then '+' else if op.kind == Remove then '-' else ' '] + op.line
    && (k > 0 && shown[k] != shown[k - 1] + 1 ==> at > 0 && lines[at - 1] == "@@")
  }

  lemma StillShownAt(ops: seq<DiffOp>, shown: seq<nat>, n: nat, k: nat, lines: seq<string>, at: nat,
                     more: seq<string>)
    requires k < n <= |shown| && shown[k] < |ops| && ShownAt(ops, shown[..n], k, lines, at)
    ensures ShownAt(ops, shown, k, lines + more, at)
  {
  }

  lemma ShownBehind(ops: seq<DiffOp>, shown: seq<nat>, k: nat, lines: seq<string>, at: nat, header: seq<string>)
    requires k < |shown| && shown[k] < |ops| && ShownAt(ops, shown, k, lines, at)
    ensures ShownAt(ops, shown, k, header + lines, |header| + at)
  {
  }

  /** The last line of a body, and the mark before it. */
  function LastLines(ops: seq<DiffOp>, shown: seq<nat>): seq<string>
    requires shown != [] && shown[|shown| - 1] < |ops|
  {
    var n := |shown| - 1;
    (if n > 0 && shown[n] > shown[n - 1] + 1 then ["@@"] else []) + [Rendered(ops[shown[n]])]
  }

  lemma BodyEndsWith(ops: seq<DiffOp>, shown: seq<nat>)
    requires shown != [] && forall i :: 0 <= i < |shown| ==> shown[i] < |ops|
    ensures Body(ops, shown) == Body(ops, shown[..|shown| - 1]) + LastLines(ops, shown)
  {
    hide Rendered;
  }

  lemma LastShownAt(ops: seq<DiffOp>, shown: seq<nat>, lines: seq<string>)
    requires shown != [] && shown[|shown| - 1] < |ops|
    requires |shown| > 1 ==> shown[|shown| - 2] < shown[|shown| - 1]
    ensures var n := |shown| - 1;
      var gap := if n > 0 && shown[n] != shown[n - 1] + 1 then 1 else 0;
      && |LastLines(ops, shown)| == 1 + gap
      && ShownAt(ops, shown, n, lines + LastLines(ops, shown), |lines| + gap)
  {
  }

  lemma AscendingPrefix(shown: seq<nat>)
    requires shown != [] && Ascending(shown)
    ensures Ascending(shown[..|shown| - 1])
    ensures |shown| > 1 ==> shown[|shown| - 2] < shown[|shown| - 1]
  {
  }

  lemma {:induction false} BodyLength(ops: seq<DiffOp>, shown: seq<nat>)
    requires shown != [] && Ascending(shown) && forall i :: 0 <= i < |shown| ==> shown[i] < |ops|
    ensures |Body(ops, shown)| == |shown| + Gaps(shown, |shown| - 1)
    decreases |shown|
  {
    var n := |shown| - 1;
    BodyEndsWith(ops, shown);
    AscendingPrefix(shown);
    LastShownAt(ops, shown, []);
    if n == 0 {
      assert Body(ops, []) == [];
    } else {
      hide Body, LastLines, ShownAt, Ascending;
      BodyLength(ops, shown[..n]);
      SameGaps(shown, n, n - 1);
    }
  }

  /** Line by line: the `k`-th shown operation stands behind the ones before it and a mark for every gap. */
  lemma {:induction false} BodyAt(ops: seq<DiffOp>, shown: seq<nat>, k: nat)
    requires k < |shown| && Ascending(shown) && forall i :: 0 <= i < |shown| ==> shown[i] < |ops|
    ensures ShownAt(ops, shown, k, Body(ops, shown), k + Gaps(shown, k))
    decreases |shown|
  {
    hide Body, LastLines, ShownAt, Ascending;
    var n := |shown| - 1;
    BodyEndsWith(ops, shown);
    AscendingPrefix(shown);
    if k < n {
      BodyAt(ops, shown[..n], k);
      SameGaps(shown, n, k);
      StillShownAt(ops, shown, n, k, Body(ops, shown[..n]), k + Gaps(shown, k), LastLines(ops, shown));
    } else {
      LastShownAt(ops, shown, Body(ops, shown[..n]));
      BodyBefore(ops, shown);
    }
  }

  lemma BodyBefore(ops: seq<DiffOp>, shown: seq<nat>)
    requires shown != [] && Ascending(shown) && forall i :: 0 <= i < |shown| ==> shown[i] < |ops|
    ensures var n := |shown| - 1;
      |Body(ops, shown[..n])| + (if n > 0 && shown[n] != shown[n - 1] + 1 then 1 else 0) == n + Gaps(shown, n)
  {
    var n := |shown| - 1;
    if n > 0 {
      AscendingPrefix(shown);
      hide Body, Ascending;
      BodyLength(ops, shown[..n]);
      SameGaps(shown, n, n - 1);
    }
  }

  /** A rendering is two lines of header and then, in order and with the gaps marked, what is near a change. */
  lemma RenderingAt(ops: seq<DiffOp>, file: string, context: nat, shown: seq<nat>, k: nat)
    requires HasChange(ops) && shown == ShownUpTo(ops, context, |ops|) && k < |shown|
    ensures |Rendering(ops, file, context)| == 2 + |shown| + Gaps(shown, |shown| - 1)
    ensures ShownAt(ops, shown, k, Rendering(ops, file, context), 2 + k + Gaps(shown, k))
  {
    hide Body, ShownUpTo, Gaps, Ascending, ShownAt, HasChange, Header, Rendering;
    ShownAscends(ops, context);
    RenderingIs(ops, file, context);
    BodyAt(ops, shown, k);
    BodyLength(ops, shown);
    ShownBehind(ops, shown, k, Body(ops, shown), k + Gaps(shown, k), Header(file));
  }

  lemma ShownAscends(ops: seq<DiffOp>, context: nat)
    ensures Ascending(ShownUpTo(ops, context, |ops|))
  {
    ShownInOrder(ops, context, |ops|);
  }

  lemma RenderingIs(ops: seq<DiffOp>, file: string, context: nat)
    requires HasChange(ops)
    ensures Rendering(ops, file, context) == Header(file) + Body(ops, ShownUpTo(ops, context, |ops|))
    ensures |Header(file)| == 2
  {
    hide Body, ShownUpTo, HasChange;
  }

  /** The header names the file twice, as the old and as the new one; without a change there is nothing. */
  lemma RenderingBegins(ops: seq<DiffOp>, file: string, context: nat)
    ensures HasChange(ops) ==>
      |Rendering(ops, file, context)| >= 2 && Rendering(ops, file, context)[0] == "--- a/" + file &&
      Rendering(ops, file, context)[1] == "+++ b/" + file
    ensures (forall i :: 0 <= i < |ops| ==> ops[i].kind == Same) <==> Rendering(ops, file, context) == []
  {
    hide Body;
  }
}
