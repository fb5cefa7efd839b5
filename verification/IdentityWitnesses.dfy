/** Two runs from the empty database: one that orphans an account, and one that misreports a link. */
module IdentityWitnesses {
  import opened Wrappers
  import opened Identity
  import opened IdentityInvariants

  /** The run leads from the empty database to this state. */
  ghost predicate Reaches(run: seq<Event>, s: State) { IsRun(START, run) && After(START, run) == s }

  lemma {:induction false} RunMore(s: State, run: seq<Event>, e: Event)
    requires IsRun(s, run) && Enabled(After(s, run), e)
    ensures IsRun(s, run + [e]) && After(s, run + [e]) == Apply(After(s, run), e)
    decreases |run|
  {
    if run == [] {
      assert run + [e] == [e] && [e][1..] == [];
    } else {
      assert (run + [e])[0] == run[0] && (run + [e])[1..] == run[1..] + [e];
      RunMore(Apply(s, run[0]), run[1..], e);
    }
  }

  lemma Step(run: seq<Event>, s: State, e: Event) returns (t: State)
    requires Reaches(run, s) && Enabled(s, e)
    ensures t == Apply(s, e) && Reaches(run + [e], t)
  {
    RunMore(START, run, e);
    t := Apply(s, e);
  }

  /** What matters of a state: who has an account, how identities are mapped, and where the logins stand. */
  ghost predicate Shows(s: State, accounts: map<UserId, Account>, mapping: map<Key, Row>, logins: map<LoginId, Login>,
                        issued: set<UserId>, rows: nat) {
    s.accounts == accounts && s.mapping == mapping && s.logins == logins && s.issued == issued && |s.written| == rows
  }

  ghost predicate Usable(i: Identity) { Trimmed(i.issuer) != "" && Trimmed(i.subject) != "" && i.emailVerified }

  function AccountOf(i: Identity): Account { Account(i.email, true) }

  /** The row of an account provisioned by a login. */
  function Provisioned(id: nat, i: Identity, u: UserId, c: LoginId): Row { Row(id, KeyOf(i), u, false, c, true) }

  // ---------------------------------------------------------------- a login begins

  function Begins(c: LoginId, i: Identity): seq<Event> { [Resolve(c, i), ReadMapping(c)] }

  lemma Begin(run: seq<Event>, s: State, c: LoginId, i: Identity) returns (t: State)
    requires Reaches(run, s) && c !in s.logins && Usable(i)
    ensures Reaches(run + Begins(c, i), t)
    ensures var key := KeyOf(i);
      t ==
        s.(logins := s.logins[c := Login(i,
        if key in s.mapping then Checking(s.mapping[key].user, s.mapping[key].id) else FindingByEmail)])
  {
    var t1 := Step(run, s, Resolve(c, i));
    assert t1 == s.(logins := s.logins[c := Login(i, ReadingMapping)]);
    t := Step(run + [Resolve(c, i)], t1, ReadMapping(c));
    assert run + [Resolve(c, i)] + [ReadMapping(c)] == run + Begins(c, i);
    assert s.logins[c := Login(i, ReadingMapping)][c := t.logins[c]] == s.logins[c := t.logins[c]];
  }

  // ---------------------------------------------------------------- the misreported link

  function FlagRun(i: Identity, u: UserId): seq<Event> {
    Begins(0, i) + [FindByEmail(0, None)] + Begins(1, i) + [Provision(0, u, Committed)] +
      [FindByEmail(1, Some(u)), Link(1, RolledBack), Reread(1)]
  }

  /**
   * Two first logins of one new identity. One provisions the account; the other, whose link is rolled
   * back, ends by reporting a link from a legacy account, although there was none and it wrote nothing.
   */
  lemma LegacyFlagCanBeWrong(i: Identity, u: UserId) returns (s: State)
    requires Usable(i)
    ensures Reaches(FlagRun(i, u), s) && NoDeletions(FlagRun(i, u)) && !Links(FlagRun(i, u), 1)
    ensures s.logins == map[0 := Login(i, Returned(u, false, true, 0)), 1 := Login(i, Returned(u, true, false, 0))]
    ensures s.mapping == map[KeyOf(i) := Provisioned(0, i, u, 0)]
  {
    FlagRunShape(i, u);
    var s1 := Begin([], START, 0, i);
    assert [] + Begins(0, i) == Begins(0, i);
    hide IsRun, After, Apply, Enabled, Begins, NoDeletions, Links;
    var s2 := FindNobody(Begins(0, i), s1, 0, i);
    var s3 := Begin(Begins(0, i) + [FindByEmail(0, None)], s2, 1, i);
    assert s3.logins == map[0 := Login(i, Provisioning), 1 := Login(i, FindingByEmail)];
    var s4 := ProvisionNow(Begins(0, i) + [FindByEmail(0, None)] + Begins(1, i), s3, 0, i, u);
    assert s4.logins == map[0 := Login(i, Returned(u, false, true, 0)), 1 := Login(i, FindingByEmail)];
    s := LinkInVain(Begins(0, i) + [FindByEmail(0, None)] + Begins(1, i) + [Provision(0, u, Committed)], s4, i, u);
  }

  lemma FlagRunShape(i: Identity, u: UserId)
    ensures NoDeletions(FlagRun(i, u)) && !Links(FlagRun(i, u), 1)
  {
  }

  lemma FindNobody(run: seq<Event>, s: State, c: LoginId, i: Identity) returns (t: State)
    requires Reaches(run, s) && c in s.logins && s.logins[c] == Login(i, FindingByEmail) && s.accounts == map[]
    ensures Reaches(run + [FindByEmail(c, None)], t) && t == s.(logins := s.logins[c := Login(i, Provisioning)])
  {
    t := Step(run, s, FindByEmail(c, None));
  }

  lemma ProvisionNow(run: seq<Event>, s: State, c: LoginId, i: Identity, u: UserId) returns (t: State)
    requires Reaches(run, s) && c in s.logins && s.logins[c] == Login(i, Provisioning)
    requires s.accounts == map[] && s.mapping == map[] && u !in s.issued
    ensures Reaches(run + [Provision(c, u, Committed)], t) && u in t.madeBy
    ensures Shows(t, map[u := AccountOf(i)], map[KeyOf(i) := Provisioned(|s.written|, i, u, c)],
                  s.logins[c := Login(i, Returned(u, false, true, |s.written|))], s.issued + {u}, |s.written| + 1)
  {
    t := Step(run, s, Provision(c, u, Committed));
  }

  lemma LinkInVain(run: seq<Event>, s: State, i: Identity, u: UserId) returns (t: State)
    requires Reaches(run, s) && s.accounts == map[u := AccountOf(i)] &&
      s.mapping == map[KeyOf(i) := Provisioned(0, i, u, 0)]
    requires s.logins == map[0 := Login(i, Returned(u, false, true, 0)), 1 := Login(i, FindingByEmail)]
    ensures Reaches(run + [FindByEmail(1, Some(u)), Link(1, RolledBack), Reread(1)], t)
    ensures t.mapping == s.mapping
    ensures t.logins == map[0 := Login(i, Returned(u, false, true, 0)), 1 := Login(i, Returned(u, true, false, 0))]
  {
    var find, link, reread := FindByEmail(1, Some(u)), Link(1, RolledBack), Reread(1);
    var s1 := FindsAccount(run, s, i, u);
    assert s1.logins[1] == Login(i, Linking(u, true)) && s1.logins[0] == s.logins[0];
    var s2 := Step(run + [find], s1, link);
    assert s2.logins[1] == Login(i, Resolving(u, true)) && s2.logins[0] == s.logins[0] && s2.mapping == s.mapping;
    t := Step(run + [find] + [link], s2, reread);
    assert run + [find] + [link] + [reread] == run + [find, link, reread];
  }

  lemma FindsAccount(run: seq<Event>, s: State, i: Identity, u: UserId) returns (t: State)
    requires Reaches(run, s) && u in s.accounts && s.accounts[u] == AccountOf(i)
    requires 1 in s.logins && s.logins[1] == Login(i, FindingByEmail)
    ensures Reaches(run + [FindByEmail(1, Some(u))], t) && t == s.(logins := s.logins[1 := Login(i, Linking(u, true))])
  {
    t := Step(run, s, FindByEmail(1, Some(u)));
  }

  // ---------------------------------------------------------------- the orphaned account

  function OrphanRun(i: Identity, u: UserId, v: UserId): seq<Event> {
    Begins(0, i) + [FindByEmail(0, None), Provision(0, u, Committed)] + Begins(1, i) + Begins(2, i) +
      [AccountDeleted(u)]
      + [ReadAccount(1), DropMapping(1)] + [FindByEmail(1, None), Provision(1, v, Committed)] + [ReadAccount(2)] +
        [DropMapping(2)]
  }

  lemma MakeAccount(run: seq<Event>, s: State, c: LoginId, i: Identity, u: UserId) returns (t: State)
    requires Reaches(run, s) && c in s.logins && s.logins[c] == Login(i, FindingByEmail)
    requires s.accounts == map[] && s.mapping == map[] && u !in s.issued
    ensures Reaches(run + [FindByEmail(c, None), Provision(c, u, Committed)], t)
    ensures Shows(t, map[u := AccountOf(i)], map[KeyOf(i) := Provisioned(|s.written|, i, u, c)],
                  s.logins[c := Login(i, Returned(u, false, true, |s.written|))], s.issued + {u}, |s.written| + 1)
    ensures u in t.madeBy
  {
    hide Reaches, Apply, Enabled;
    var s1 := FindNobody(run, s, c, i);
    t := ProvisionNow(run + [FindByEmail(c, None)], s1, c, i, u);
    assert run + [FindByEmail(c, None)] + [Provision(c, u, Committed)] ==
      run + [FindByEmail(c, None), Provision(c, u, Committed)];
    assert t.logins == s.logins[c := Login(i, Returned(u, false, true, |s.written|))];
  }

  lemma DropDangling(run: seq<Event>, s: State, c: LoginId, i: Identity, u: UserId, r: nat) returns (t: State)
    requires Reaches(run, s) && c in s.logins && s.logins[c] == Login(i, Checking(u, r)) && i.emailVerified
    requires u !in s.accounts && s.mapping.Keys == {KeyOf(i)}
    ensures Reaches(run + [ReadAccount(c), DropMapping(c)], t)
    ensures t == s.(mapping := map[], logins := s.logins[c := Login(i, FindingByEmail)])
  {
    var s1 := Step(run, s, ReadAccount(c));
    assert s1 == s.(logins := s.logins[c := Login(i, Dropping(u, r))]);
    t := Step(run + [ReadAccount(c)], s1, DropMapping(c));
    assert run + [ReadAccount(c)] + [DropMapping(c)] == run + [ReadAccount(c), DropMapping(c)];
    assert s.mapping - {KeyOf(i)} == map[];
    assert t.logins == s.logins[c := Login(i, FindingByEmail)];
  }

  /**
   * One deletion and two logins that overlap. Both have read the mapping of the deleted account; the
   * first clears it and provisions a new account; only then does the second find the account gone, and it
   * clears the mapping of the new one, while no other login is about to delete anything.
   */
  lemma OrphanedByOverlap(i: Identity, u: UserId, v: UserId) returns (before: State, s: State)
    requires Usable(i) && u != v
    ensures Reaches(OrphanRun(i, u, v)[..|OrphanRun(i, u, v)| - 1], before) && Reaches(OrphanRun(i, u, v), s)
    ensures Enabled(before, DropMapping(2)) && s == Apply(before, DropMapping(2)) && TakesFromTheLiving(before, 2)
    ensures forall d :: d in before.logins && d != 2 ==> !before.logins[d].phase.Dropping?
    ensures 1 in s.logins && s.logins[1] == Login(i, Returned(v, false, true, 1))
    ensures v in s.madeBy && v in s.accounts && s.mapping == map[]
  {
    var s1 := Begin([], START, 0, i);
    assert [] + Begins(0, i) == Begins(0, i);
    var s2 := MakeAccount(Begins(0, i), s1, 0, i, u);
    var run := Begins(0, i) + [FindByEmail(0, None), Provision(0, u, Committed)];
    var s3 := Begin(run, s2, 1, i);
    var s4 := Begin(run + Begins(1, i), s3, 2, i);
    before, s := Overlap(run + Begins(1, i) + Begins(2, i), s4, i, u, v);
    assert OrphanRun(i, u, v)[..|OrphanRun(i, u, v)| - 1] == run + Begins(1, i) + Begins(2, i) + [AccountDeleted(u)]
      + [ReadAccount(1), DropMapping(1)] + [FindByEmail(1, None), Provision(1, v, Committed)] + [ReadAccount(2)];
  }

  lemma Overlap(run: seq<Event>, s: State, i: Identity, u: UserId, v: UserId) returns (before: State, t: State)
    requires Reaches(run, s) && Usable(i) && u != v && s.issued == {u} && |s.written| == 1 &&
      s.accounts == map[u := AccountOf(i)]
    requires s.mapping == map[KeyOf(i) := Provisioned(0, i, u, 0)] && s.logins.Keys == {0, 1, 2} &&
      s.logins[0].phase.Returned?
    requires s.logins[1] == Login(i, Checking(u, 0)) && s.logins[2] == Login(i, Checking(u, 0))
    ensures var more := run + [AccountDeleted(u)] + [ReadAccount(1), DropMapping(1)]
      + [FindByEmail(1, None), Provision(1, v, Committed)] + [ReadAccount(2)];
      Reaches(more, before) && Reaches(more + [DropMapping(2)], t)
    ensures forall d :: d in before.logins && d != 2 ==> !before.logins[d].phase.Dropping?
    ensures Enabled(before, DropMapping(2)) && t == Apply(before, DropMapping(2)) && TakesFromTheLiving(before, 2)
    ensures 1 in t.logins && t.logins[1] == Login(i, Returned(v, false, true, 1)) && v in t.madeBy && v in t.accounts &&
      t.mapping == map[]
  {
    var s1 := Step(run, s, AccountDeleted(u));
    assert s1 == s.(accounts := map[]);
    var run1 := run + [AccountDeleted(u)];
    var s2 := DropDangling(run1, s1, 1, i, u, 0);
    var run2 := run1 + [ReadAccount(1), DropMapping(1)];
    var s3 := MakeAccount(run2, s2, 1, i, v);
    var run3 := run2 + [FindByEmail(1, None), Provision(1, v, Committed)];
    before, t := DropFresh(run3, s3, i, u, v);
  }

  /** The second login finds its account gone, and clears the mapping of the new one. */
  lemma DropFresh(run: seq<Event>, s: State, i: Identity, u: UserId, v: UserId) returns (before: State, t: State)
    requires Reaches(run, s) && u != v && s.accounts == map[v := AccountOf(i)] && v in s.madeBy
    requires s.mapping == map[KeyOf(i) := Provisioned(1, i, v, 1)] && s.logins.Keys == {0, 1, 2} &&
      s.logins[0].phase.Returned?
    requires s.logins[1] == Login(i, Returned(v, false, true, 1)) && s.logins[2] == Login(i, Checking(u, 0))
    ensures Reaches(run + [ReadAccount(2)], before) && Reaches(run + [ReadAccount(2)] + [DropMapping(2)], t)
    ensures forall d :: d in before.logins && d != 2 ==> !before.logins[d].phase.Dropping?
    ensures Enabled(before, DropMapping(2)) && t == Apply(before, DropMapping(2)) && TakesFromTheLiving(before, 2)
    ensures 1 in t.logins && t.logins[1] == s.logins[1] && v in t.madeBy && v in t.accounts && t.mapping == map[]
  {
    before := Step(run, s, ReadAccount(2));
    assert before == s.(logins := s.logins[2 := Login(i, Dropping(u, 0))]);
    t := Step(run + [ReadAccount(2)], before, DropMapping(2));
    assert before.mapping - {KeyOf(i)} == map[];
    assert KeyOf(i) in before.mapping && KeyOf(i) !in t.mapping;
  }
}
