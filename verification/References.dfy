/**
 * Which reference tables the validator can follow to an end: exactly those in which no chain of
 * references returns to where it was by way of a keyword that starts with an empty reference stack.
 */
module References {
  import opened Wrappers
  import opened Schema

  // ---------------------------------------------------------------- chains of references

  ghost predicate UsesOne(s: Option<Schema>, r: string, restarted: bool) { s.Some? && Uses(s.value, r, restarted) }

  ghost predicate UsesAny(c: Choice, r: string, restarted: bool) {
    c.Of? && exists i :: 0 <= i < |c.schemas| && Uses(c.schemas[i], r, restarted)
  }

  /** The schema applies the reference to the value it is given; `restarted`: under `anyOf`, `oneOf` or `if`. */
  ghost predicate Uses(s: Schema, r: string, restarted: bool)
    decreases s, 1
  {
    if s.ref.Some? then s.ref.value == r && !restarted
    else
      || UsesAny(s.allOf, r, restarted) || UsesOne(s.consequent, r, restarted) || UsesOne(s.alternative, r, restarted)
      || (restarted && exists b :: UsesRestarting(s, r, b))
  }

  ghost predicate UsesRestarting(s: Schema, r: string, below: bool)
    decreases s, 0
  {
    UsesAny(s.anyOf, r, below) || UsesAny(s.oneOf, r, below) || UsesOne(s.condition, r, below)
  }

  ghost predicate Leads(env: Env, p: string, q: string, restarted: bool) {
    p in env.refs && q in env.refs && Uses(env.refs[p], q, restarted)
  }

  ghost predicate IsWalk(env: Env, walk: seq<string>) {
    |walk| > 0 && forall i :: 0 < i < |walk| ==>
      Leads(env, walk[i - 1], walk[i], false) || Leads(env, walk[i - 1], walk[i], true)
  }

  ghost predicate Walks(env: Env, walk: seq<string>, p: string, q: string) {
    IsWalk(env, walk) && walk[0] == p && walk[|walk| - 1] == q
  }

  ghost predicate Reaches(env: Env, p: string, q: string) { exists walk :: Walks(env, walk, p, q) }

  /** Some reference leads back to itself through a restarting keyword. */
  ghost predicate HasRestartingCycle(env: Env) { exists p, q :: Leads(env, p, q, true) && Reaches(env, q, p) }

  // ---------------------------------------------------------------- levels exclude cycles

  lemma {:induction false} UsesIsBelow(s: Schema, r: string, restarted: bool, levels: map<string, nat>)
    requires Uses(s, r, restarted) && r in levels
    ensures levels[r] + (if restarted then 1 else 0) <= Level(s, levels)
    decreases s, 2
  {
    if s.ref.None? {
      if UsesAny(s.allOf, r, restarted) { AnyIsBelow(s, s.allOf, r, restarted, levels); }
      else if UsesOne(s.consequent, r, restarted) { OneIsBelow(s, s.consequent, r, restarted, levels); }
      else if UsesOne(s.alternative, r, restarted) { OneIsBelow(s, s.alternative, r, restarted, levels); }
      else {
        var b :| UsesRestarting(s, r, b);
        RestartIsBelow(s, r, b, levels);
      }
    }
  }

  lemma {:induction false} RestartIsBelow(s: Schema, r: string, below: bool, levels: map<string, nat>)
    requires s.ref.None? && UsesRestarting(s, r, below) && r in levels
    ensures levels[r] < Level(s, levels)
    decreases s, 1
  {
    if UsesAny(s.anyOf, r, below) { AnyIsBelow(s, s.anyOf, r, below, levels); }
    else if UsesAny(s.oneOf, r, below) { AnyIsBelow(s, s.oneOf, r, below, levels); }
    else { OneIsBelow(s, s.condition, r, below, levels); }
  }

  lemma {:induction false} OneIsBelow(s: Schema, o: Option<Schema>, r: string, restarted: bool, levels: map<string,
                                      nat>)
    requires (o == s.condition || o == s.consequent || o == s.alternative) && UsesOne(o, r, restarted) && r in levels
    ensures levels[r] + (if restarted then 1 else 0) <= OneLevel(o, levels)
    decreases s, 0
  {
    UsesIsBelow(o.value, r, restarted, levels);
  }

  lemma {:induction false} AnyIsBelow(s: Schema, c: Choice, r: string, restarted: bool, levels: map<string, nat>)
    requires c == s.allOf || c == s.anyOf || c == s.oneOf
    requires UsesAny(c, r, restarted) && r in levels
    ensures levels[r] + (if restarted then 1 else 0) <= ChoiceLevel(c, levels)
    decreases s, 0
  {
    var i :| 0 <= i < |c.schemas| && Uses(c.schemas[i], r, restarted);
    UsesIsBelow(c.schemas[i], r, restarted, levels);
  }

  lemma LeadsDown(env: Env, levels: map<string, nat>, p: string, q: string, restarted: bool)
    requires AreLevels(levels, env) && Leads(env, p, q, restarted)
    ensures p in env.refs && q in env.refs && levels[q] + (if restarted then 1 else 0) <= levels[p]
  {
    UsesIsBelow(env.refs[p], q, restarted, levels);
  }

  lemma {:induction false} WalksDescend(env: Env, levels: map<string, nat>, walk: seq<string>, p: string, q: string)
    requires AreLevels(levels, env) && Walks(env, walk, p, q) && p in env.refs
    ensures q in env.refs && levels[q] <= levels[p]
    decreases |walk|
  {
    if |walk| > 1 {
      var last := walk[|walk| - 2];
      assert IsWalk(env, walk[..|walk| - 1]);
      WalksDescend(env, levels, walk[..|walk| - 1], p, last);
      if Leads(env, last, q, false) { LeadsDown(env, levels, last, q, false); }
      else { LeadsDown(env, levels, last, q, true); }
    }
  }

  lemma LevelsExcludeCycles(env: Env)
    requires SafeEnv(env)
    ensures !HasRestartingCycle(env)
  {
    var levels := Levels(env);
    if HasRestartingCycle(env) {
      var p, q :| Leads(env, p, q, true) && Reaches(env, q, p);
      var walk :| Walks(env, walk, q, p);
      WalksDescend(env, levels, walk, q, p);
      LeadsDown(env, levels, p, q, true);
      assert false;
    }
  }

  // ---------------------------------------------------------------- without cycles there are levels

  /** Everything met on one value stays within `bound`, restarts below references included. */
  ghost predicate Within(s: Schema, levels: map<string, nat>, height: nat, bound: nat) {
    && Level(s, map[]) <= height <= bound
    && forall q :: q in levels ==>
         && (Uses(s, q, false) ==> levels[q] <= bound)
         && (Uses(s, q, true) ==> levels[q] + height <= bound)
  }

  lemma {:induction false} LevelIsWithin(s: Schema, levels: map<string, nat>, height: nat, bound: nat)
    requires Within(s, levels, height, bound)
    ensures Level(s, levels) <= bound
    decreases s
  {
    if s.ref.None? {
      ListIsWithin(s, s.allOf, levels, height, bound);
      if s.consequent.Some? { PlainIsWithin(s, s.consequent.value, levels, height, bound); }
      if s.alternative.Some? { PlainIsWithin(s, s.alternative.value, levels, height, bound); }
      RestartedIsWithin(s, s.anyOf, levels, height, bound);
      RestartedIsWithin(s, s.oneOf, levels, height, bound);
      if s.condition.Some? {
        var c := s.condition.value;
        assert forall q, b :: Uses(c, q, b) ==> UsesRestarting(s, q, b);
        assert forall q, b :: Uses(c, q, b) ==> Uses(s, q, true);
        LevelIsWithin(c, levels, height - 1, bound - 1);
      }
    }
  }

  lemma {:induction false} PlainIsWithin(s: Schema, c: Schema, levels: map<string, nat>, height: nat, bound: nat)
    requires Within(s, levels, height, bound) && s.ref.None? && (s.consequent == Some(c) || s.alternative == Some(c))
    ensures Level(c, levels) <= bound
    decreases s, 0
  {
    assert forall q, b :: Uses(c, q, b) ==> Uses(s, q, b);
    LevelIsWithin(c, levels, height, bound);
  }

  lemma {:induction false} ListIsWithin(s: Schema, c: Choice, levels: map<string, nat>, height: nat, bound: nat)
    requires Within(s, levels, height, bound) && s.ref.None? && c == s.allOf
    ensures ChoiceLevel(c, levels) <= bound
    decreases s, 0
  {
    if c.Of? {
      forall i | 0 <= i < |c.schemas| ensures Level(c.schemas[i], levels) <= bound {
        assert forall q, b :: Uses(c.schemas[i], q, b) ==> UsesAny(c, q, b);
        assert forall q, b :: UsesAny(c, q, b) ==> Uses(s, q, b);
        LevelIsWithin(c.schemas[i], levels, height, bound);
      }
      ListIsBounded(c.schemas, levels, bound);
    }
  }

  lemma {:induction false} RestartedIsWithin(s: Schema, c: Choice, levels: map<string, nat>, height: nat, bound: nat)
    requires Within(s, levels, height, bound) && s.ref.None? && (c == s.anyOf || c == s.oneOf)
    ensures Restarted(c, levels) <= bound
    decreases s, 0
  {
    if c.Of? {
      assert Restarted(c, map[]) <= height;
      forall i | 0 <= i < |c.schemas| ensures Level(c.schemas[i], levels) <= bound - 1 {
        assert forall q, b :: Uses(c.schemas[i], q, b) ==> UsesAny(c, q, b);
        assert forall q, b :: UsesAny(c, q, b) ==> UsesRestarting(s, q, b);
        LevelIsWithin(c.schemas[i], levels, height - 1, bound - 1);
      }
      ListIsBounded(c.schemas, levels, bound - 1);
    }
  }

  lemma {:induction false} ListIsBounded(schemas: seq<Schema>, levels: map<string, nat>, bound: nat)
    requires forall i :: 0 <= i < |schemas| ==> Level(schemas[i], levels) <= bound
    ensures ListLevel(schemas, levels) <= bound
  {
    if schemas != [] { ListIsBounded(schemas[1..], levels, bound); }
  }

  // ---------------------------------------------------------------- counting what is ahead

  /** The references ahead of `p`, itself included, that lead on through a restarting keyword. */
  ghost function Ahead(env: Env, p: string): set<string> {
    set q | q in env.refs && Reaches(env, p, q) && exists t :: Leads(env, q, t, true)
  }

  lemma ReachesItself(env: Env, p: string)
    ensures Reaches(env, p, p)
  {
    assert Walks(env, [p], p, p);
  }

  lemma StepThenReach(env: Env, p: string, q: string, t: string, restarted: bool)
    requires Leads(env, p, q, restarted) && Reaches(env, q, t)
    ensures Reaches(env, p, t)
  {
    var walk :| Walks(env, walk, q, t);
    var longer := [p] + walk;
    forall i | 0 < i < |longer|
      ensures Leads(env, longer[i - 1], longer[i], false) || Leads(env, longer[i - 1], longer[i], true)
    {
      if i > 1 { assert longer[i - 1] == walk[i - 2] && longer[i] == walk[i - 1]; }
    }
    assert Walks(env, longer, p, t);
  }

  lemma AheadShrinks(env: Env, p: string, q: string, restarted: bool)
    requires Leads(env, p, q, restarted) && !HasRestartingCycle(env)
    ensures |Ahead(env, q)| + (if restarted then 1 else 0) <= |Ahead(env, p)|
  {
    assert p in env.refs;
    hide Reaches, Leads;
    forall t | t in Ahead(env, q) ensures t in Ahead(env, p) { StepThenReach(env, p, q, t, restarted); }
    if restarted {
      ReachesItself(env, p);
      assert p in Ahead(env, p) && p !in Ahead(env, q);
      assert Ahead(env, q) + {p} <= Ahead(env, p);
      Subset(Ahead(env, q) + {p}, Ahead(env, p));
    } else {
      Subset(Ahead(env, q), Ahead(env, p));
    }
  }

  lemma {:induction false} Subset(a: set<string>, b: set<string>)
    requires a <= b
    ensures |a| <= |b|
  {
    assert b == a + (b - a);
  }

  ghost predicate TallestWithin(env: Env, names: set<string>, height: nat) {
    forall r :: r in names && r in env.refs ==> Level(env.refs[r], map[]) <= height
  }

  lemma {:induction false} Tallest(env: Env, names: set<string>) returns (height: nat)
    ensures TallestWithin(env, names, height)
    decreases |names|
  {
    height := 0;
    if names != {} {
      var r :| r in names;
      height := Tallest(env, names - {r});
      if r in env.refs { height := Max(height, Level(env.refs[r], map[])); }
    }
  }

  lemma CyclesAreAllThatHinders(env: Env)
    requires !HasRestartingCycle(env)
    ensures SafeEnv(env)
  {
    hide HasRestartingCycle, Ahead, Uses, Level, Within, TallestWithin;
    var height := Tallest(env, env.refs.Keys);
    var levels: map<string, nat> := map r | r in env.refs :: (height + 1) * |Ahead(env, r)| + height;
    forall r | r in env.refs ensures r in levels && Level(env.refs[r], levels) <= levels[r] {
      WithinItsLevel(env, levels, height, r);
      LevelIsWithin(env.refs[r], levels, height, levels[r]);
    }
    assert AreLevels(levels, env);
  }

  lemma WithinItsLevel(env: Env, levels: map<string, nat>, height: nat, r: string)
    requires !HasRestartingCycle(env) && r in env.refs && TallestWithin(env, env.refs.Keys, height)
    requires levels == map p | p in env.refs :: (height + 1) * |Ahead(env, p)| + height
    ensures Within(env.refs[r], levels, height, levels[r])
  {
    hide HasRestartingCycle, Ahead, Uses, Level;
    var n := |Ahead(env, r)|;
    forall q | q in levels
      ensures Uses(env.refs[r], q, false) ==> levels[q] <= levels[r]
      ensures Uses(env.refs[r], q, true) ==> levels[q] + height <= levels[r]
    {
      var m := |Ahead(env, q)|;
      if Uses(env.refs[r], q, false) {
        AheadShrinks(env, r, q, false);
        Multiply(height + 1, m, n);
      }
      if Uses(env.refs[r], q, true) {
        AheadShrinks(env, r, q, true);
        Multiply(height + 1, m + 1, n);
        assert (height + 1) * (m + 1) == (height + 1) * m + height + 1;
      }
    }
  }

  lemma Multiply(k: nat, m: nat, n: nat)
    requires m <= n
    ensures k * m <= k * n
  {
  }

  /** The tables on which validation is defined are exactly those without a restarting cycle. */
  lemma SafeIffNoRestartingCycle(env: Env)
    ensures SafeEnv(env) <==> !HasRestartingCycle(env)
  {
    if SafeEnv(env) { LevelsExcludeCycles(env); }
    if !HasRestartingCycle(env) { CyclesAreAllThatHinders(env); }
  }
}
