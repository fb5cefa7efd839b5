/**
 * What every interleaving of logins keeps, account deletions included; what the logins of one identity
 * keep when those that clear a dangling mapping do not overlap; and exactly what goes wrong when they do.
 */
module IdentityInvariants {
  import opened Identity

  // ---------------------------------------------------------------- the invariant of all runs

  /** The row with this id names this user and this identity. */
  ghost predicate Names(written: seq<Row>, r: nat, key: Key, u: UserId) {
    r < |written| && written[r].user == u && written[r].key == key
  }

  /** Each row ever written has its audit row, its writer, and, if it came with an account, that account. */
  ghost predicate RowOk(s: State, i: nat)
    requires i < |s.written| == |s.audits|
  {
    var row := s.written[i];
    && row.id == i && row.user in s.issued
    && row.writer in s.logins && s.logins[row.writer].Key() == row.key
    && s.audits[i] == Audit(row.user, if row.created then CREATE else UPDATE)
    && (row.created ==> row.user in s.madeBy && s.madeBy[row.user] == i)
  }

  ghost predicate WrittenOk(s: State) {
    |s.written| == |s.audits| && forall i: nat :: i < |s.written| ==> RowOk(s, i)
  }

  ghost predicate MappingOk(s: State) {
    forall k :: k in s.mapping ==>
      s.mapping[k].key == k && s.mapping[k].id < |s.written| && s.written[s.mapping[k].id] == s.mapping[k]
  }

  ghost predicate MadeOk(s: State) {
    forall u :: u in s.madeBy ==>
      s.madeBy[u] < |s.written| && s.written[s.madeBy[u]].created && s.written[s.madeBy[u]].user == u
  }

  /** What a login has read, and vouches for, was written for its identity. */
  ghost predicate LoginOk(s: State, c: LoginId, login: Login) {
    match login.phase
    case Checking(u, r) => Names(s.written, r, login.Key(), u)
    case Dropping(u, r) => Names(s.written, r, login.Key(), u) && u !in s.accounts
    case Linking(u, _) => u in s.issued
    case Resolving(u, _) => u in s.issued
    case Returned(u, _, provisioned, r) =>
      Names(s.written, r, login.Key(), u) && (provisioned ==> s.written[r].created && s.written[r].writer == c)
    case _ => true
  }

  /** The login has not got so far as to write anything. */
  predicate IsEarly(p: Phase) {
    p.ReadingMapping? || p.Checking? || p.Dropping? || p.FindingByEmail? || p.Provisioning? || (p.Linking? && p.legacy)
  }

  /** A login that links a legacy account writes nothing but the row that does so. */
  ghost predicate AuthorOk(written: seq<Row>, c: LoginId, p: Phase) {
    && (IsEarly(p) ==> forall i :: 0 <= i < |written| ==> written[i].writer != c)
    && ((p.Resolving? || p.Returned?) && p.legacy ==>
          forall i :: 0 <= i < |written| && written[i].writer == c ==>
            written[i].user == p.user && written[i].legacy && !written[i].created)
  }

  ghost predicate Inv(s: State) {
    && s.accounts.Keys <= s.issued && s.madeBy.Keys <= s.issued
    && WrittenOk(s) && MappingOk(s) && MadeOk(s)
    && (forall c :: c in s.logins ==> LoginOk(s, c, s.logins[c]))
    && (forall c :: c in s.logins ==> AuthorOk(s.written, c, s.logins[c].phase))
  }

  // ---------------------------------------------------------------- what a step writes

  /** The event commits a transaction that creates a mapping row. */
  predicate Writes(e: Event) { (e.Provision? || e.Link?) && !e.outcome.RolledBack? }

  function NewRow(s: State, e: Event): Row
    requires (e.Provision? || e.Link?) && e.login in s.logins && (e.Link? ==> s.logins[e.login].phase.Linking?)
  {
    var login := s.logins[e.login];
    Row(|s.written|, login.Key(), if e.Link? then login.phase.user else e.user, e.Link? && login.phase.legacy, e.login,
      e.Provision?)
  }

  lemma StepWrites(s: State, e: Event)
    requires Enabled(s, e)
    ensures var t := Apply(s, e);
      if Writes(e) then
        var row := NewRow(s, e);
        && row.key !in s.mapping && t.mapping == s.mapping[row.key := row] && t.written == s.written + [row]
        && t.audits == s.audits + [Audit(row.user, if row.created then CREATE else UPDATE)]
        && t.madeBy == if row.created then s.madeBy[row.user := row.id] else s.madeBy
      else
        && t.written == s.written && t.audits == s.audits && t.madeBy == s.madeBy
        && t.mapping == if e.DropMapping? then s.mapping - {s.logins[e.login].Key()} else s.mapping
  {
  }

  /** User ids are never given out twice. */
  lemma StepKeepsIds(s: State, e: Event)
    requires Enabled(s, e) && s.accounts.Keys <= s.issued && s.madeBy.Keys <= s.issued
    ensures var t := Apply(s, e);
      && s.issued <= t.issued && t.accounts.Keys <= t.issued && t.madeBy.Keys <= t.issued
      && (forall u :: u in s.issued && u in t.accounts ==> u in s.accounts)
      && (e.Provision? ==> e.user !in s.issued && e.user in t.issued)
  {
  }

  /** Logins keep their identity, and only the acting one moves. */
  lemma StepKeepsLogins(s: State, e: Event)
    requires Enabled(s, e)
    ensures var t := Apply(s, e);
      && (forall c :: c in s.logins ==> c in t.logins && t.logins[c].identity == s.logins[c].identity)
      && (forall c :: c in t.logins && (IsUserEvent(e) || c != e.login) ==> c in s.logins && t.logins[c] == s.logins[c])
  {
    hide Written, PhaseAfter;
    WrittenKeepsLogins(s, e);
  }

  lemma WrittenKeepsLogins(s: State, e: Event)
    requires Enabled(s, e)
    ensures Written(s, e).logins == s.logins
  {
  }

  /** Nothing that has been written is written differently, and logins and user ids are for good. */
  ghost predicate Extends(s: State, t: State) {
    && s.written <= t.written && s.audits <= t.audits && |t.written| == |t.audits| && s.issued <= t.issued
    && (forall u :: u in s.madeBy ==> u in t.madeBy && t.madeBy[u] == s.madeBy[u])
    && (forall c :: c in s.logins ==> c in t.logins && t.logins[c].identity == s.logins[c].identity)
    && (forall u :: u in s.issued && u in t.accounts ==> u in s.accounts)
  }

  lemma StepExtends(s: State, e: Event)
    requires Inv(s) && Enabled(s, e)
    ensures Extends(s, Apply(s, e))
  {
    StepWrites(s, e);
    StepKeepsIds(s, e);
    StepKeepsLogins(s, e);
    assert |s.written| == |s.audits| && s.madeBy.Keys <= s.issued;
    hide Apply, Enabled, Inv;
  }

  lemma RowKept(s: State, t: State, i: nat)
    requires |s.written| == |s.audits| && i < |s.written| && RowOk(s, i) && Extends(s, t)
    ensures RowOk(t, i)
  {
  }

  lemma NewRowOk(s: State, e: Event)
    requires Inv(s) && Enabled(s, e) && Writes(e)
    ensures |Apply(s, e).written| == |Apply(s, e).audits| == |s.written| + 1 && RowOk(Apply(s, e), |s.written|)
  {
    StepWrites(s, e);
    StepKeepsIds(s, e);
    StepKeepsLogins(s, e);
    assert e.Link? ==> LoginOk(s, e.login, s.logins[e.login]);
    assert |s.written| == |s.audits|;
    hide Apply, Enabled, Inv;
  }

  lemma StepKeepsRows(s: State, e: Event)
    requires Inv(s) && Enabled(s, e)
    ensures WrittenOk(Apply(s, e))
  {
    var t := Apply(s, e);
    StepWrites(s, e);
    StepExtends(s, e);
    if Writes(e) { NewRowOk(s, e); }
    hide Apply, Enabled, RowOk;
    forall i: nat | i < |t.written| ensures RowOk(t, i) {
      if i < |s.written| { RowKept(s, t, i); }
    }
  }

  lemma StepKeepsMapping(s: State, e: Event)
    requires MappingOk(s) && MadeOk(s) && s.madeBy.Keys <= s.issued && Enabled(s, e)
    ensures MappingOk(Apply(s, e)) && MadeOk(Apply(s, e))
  {
    StepWrites(s, e);
    var t := Apply(s, e);
    if Writes(e) {
      var row := NewRow(s, e);
      assert row.id == |s.written| && (row.created ==> row.user == e.user);
      hide Apply, Enabled, NewRow;
      RowKeepsMapping(s, t, row);
    } else {
      hide Apply, Enabled, NewRow;
    }
  }

  lemma RowKeepsMapping(s: State, t: State, row: Row)
    requires MappingOk(s) && MadeOk(s) && row.id == |s.written| && t.written == s.written + [row]
    requires t.mapping == s.mapping[row.key := row]
    requires t.madeBy == if row.created then s.madeBy[row.user := row.id] else s.madeBy
    ensures MappingOk(t) && MadeOk(t)
  {
  }

  lemma ActingLogin(s: State, e: Event)
    requires Inv(s) && Enabled(s, e) && !IsUserEvent(e)
    ensures LoginOk(Apply(s, e), e.login, Apply(s, e).logins[e.login])
  {
    if Writes(e) { ActingWriter(s, e); } else { ActingReader(s, e); }
  }

  lemma ActingWriter(s: State, e: Event)
    requires Inv(s) && Enabled(s, e) && Writes(e)
    ensures LoginOk(Apply(s, e), e.login, Apply(s, e).logins[e.login])
  {
    StepWrites(s, e);
    StepKeepsIds(s, e);
    StepKeepsLogins(s, e);
    assert e.Link? ==> s.logins[e.login].phase.user in s.issued by {
      if e.Link? { assert LoginOk(s, e.login, s.logins[e.login]); }
    }
    hide Inv, Written;
  }

  lemma ActingReader(s: State, e: Event)
    requires Inv(s) && Enabled(s, e) && !IsUserEvent(e) && !Writes(e)
    ensures LoginOk(Apply(s, e), e.login, Apply(s, e).logins[e.login])
  {
    StepWrites(s, e);
    StepKeepsIds(s, e);
    StepKeepsAccountsButMakes(s, e);
    assert e.login in s.logins ==> LoginOk(s, e.login, s.logins[e.login]);
    assert s.accounts.Keys <= s.issued && MappingOk(s);
    hide Inv, Written, AuthorOk;
  }

  lemma StepKeepsAccountsButMakes(s: State, e: Event)
    requires Enabled(s, e) && !IsUserEvent(e) && !Writes(e)
    ensures Apply(s, e).accounts == s.accounts
  {
  }

  lemma OtherLogin(s: State, t: State, c: LoginId, login: Login)
    requires LoginOk(s, c, login) && Extends(s, t) && (login.phase.Dropping? ==> login.phase.user in s.issued)
    ensures LoginOk(t, c, login)
  {
  }

  lemma DroppedWasIssued(s: State, c: LoginId)
    requires Inv(s) && c in s.logins && s.logins[c].phase.Dropping?
    ensures s.logins[c].phase.user in s.issued
  {
    assert LoginOk(s, c, s.logins[c]) && RowOk(s, s.logins[c].phase.row);
  }

  lemma WroteNothingYet(s: State, c: LoginId)
    requires Inv(s) && c !in s.logins
    ensures forall i :: 0 <= i < |s.written| ==> s.written[i].writer != c
  {
    forall i: nat | i < |s.written| ensures s.written[i].writer != c { assert RowOk(s, i); }
  }

  /** Others write nothing in the name of this login. */
  lemma OtherAuthor(s: State, e: Event, c: LoginId)
    requires Inv(s) && Enabled(s, e) && c in s.logins && (IsUserEvent(e) || c != e.login)
    ensures AuthorOk(Apply(s, e).written, c, s.logins[c].phase)
  {
    StepWrites(s, e);
    assert AuthorOk(s.written, c, s.logins[c].phase);
    hide Apply, Enabled, Inv;
  }

  lemma ActingAuthor(s: State, e: Event)
    requires Inv(s) && Enabled(s, e) && !IsUserEvent(e)
    ensures AuthorOk(Apply(s, e).written, e.login, Apply(s, e).logins[e.login].phase)
  {
    StepWrites(s, e);
    NextPhase(s, e);
    if e.login !in s.logins { WroteNothingYet(s, e.login); }
    assert e.login in s.logins ==> AuthorOk(s.written, e.login, s.logins[e.login].phase);
    assert Writes(e) ==> e.login in s.logins;
    hide Apply, Enabled, Inv;
  }

  predicate LinksTo(p: Phase, u: UserId) { (p.Linking? || p.Resolving?) && p.legacy && p.user == u }

  /** How the acting login comes by a phase that says what it has written. */
  lemma NextPhase(s: State, e: Event)
    requires Enabled(s, e) && !IsUserEvent(e)
    ensures var p := Apply(s, e).logins[e.login].phase;
      && (IsEarly(p) ==> !Writes(e) && (e.login in s.logins ==> IsEarly(s.logins[e.login].phase)))
      && ((p.Resolving? || p.Returned?) && p.legacy ==>
        e.login in s.logins && !e.Provision? && LinksTo(s.logins[e.login].phase, p.user))
  {
  }

  lemma StepKeepsInv(s: State, e: Event)
    requires Inv(s) && Enabled(s, e)
    ensures Inv(Apply(s, e))
  {
    var t := Apply(s, e);
    StepKeepsIds(s, e);
    StepKeepsLogins(s, e);
    StepExtends(s, e);
    StepKeepsRows(s, e);
    StepKeepsMapping(s, e);
    hide Extends;
    forall c | c in t.logins ensures LoginOk(t, c, t.logins[c]) && AuthorOk(t.written, c, t.logins[c].phase) {
      if !IsUserEvent(e) && c == e.login {
        ActingLogin(s, e);
        ActingAuthor(s, e);
      } else {
        OtherAuthor(s, e, c);
        if s.logins[c].phase.Dropping? { DroppedWasIssued(s, c); }
        OtherLogin(s, t, c, s.logins[c]);
      }
    }
    assert s.accounts.Keys <= s.issued && s.madeBy.Keys <= s.issued;
    hide Apply, Enabled, LoginOk, AuthorOk, WrittenOk, MappingOk, MadeOk;
  }

  lemma {:induction false} RunKeepsInv(s: State, run: seq<Event>)
    requires Inv(s) && IsRun(s, run)
    ensures Inv(After(s, run))
    decreases |run|
  {
    if run != [] {
      StepKeepsInv(s, run[0]);
      hide Inv, Apply, Enabled;
      RunKeepsInv(Apply(s, run[0]), run[1..]);
    }
  }

  // ---------------------------------------------------------------- calm runs

  /** The identity is mapped by the row with this id. */
  ghost predicate HasRow(s: State, key: Key, r: nat) { key in s.mapping && s.mapping[key].id == r }

  /** A row stands as long as the account it names, and what a login has read still stands. */
  ghost predicate CalmOk(s: State) {
    && (forall i: nat :: i < |s.written| && s.written[i].user in s.accounts ==> HasRow(s, s.written[i].key, i))
    && (forall c, key :: c in s.logins && Holds(s.logins[c], key) ==> HasRow(s, key, s.logins[c].phase.row))
  }

  /** A row that stands is removed by nothing but a delete for its identity. */
  lemma RowStands(s: State, e: Event, key: Key, r: nat)
    requires Enabled(s, e) && HasRow(s, key, r) && (e.DropMapping? ==> s.logins[e.login].Key() != key)
    ensures HasRow(Apply(s, e), key, r)
  {
    StepWrites(s, e);
    hide Apply, Enabled;
  }

  /** In calm, a delete hits the row its login has read, whose account is gone. */
  lemma CalmDropHitsTheDead(s: State, c: LoginId)
    requires Inv(s) && CalmOk(s) && c in s.logins && s.logins[c].phase.Dropping?
    ensures var key := s.logins[c].Key(); key in s.mapping && s.mapping[key].user !in s.accounts
  {
    var key := s.logins[c].Key();
    assert Holds(s.logins[c], key) && HasRow(s, key, s.logins[c].phase.row);
    assert LoginOk(s, c, s.logins[c]);
  }

  lemma CalmRowKept(s: State, e: Event, i: nat)
    requires Inv(s) && CalmOk(s) && Enabled(s, e) && i < |s.written| && s.written[i].user in Apply(s, e).accounts
    ensures HasRow(Apply(s, e), s.written[i].key, i)
  {
    assert RowOk(s, i);
    StepExtends(s, e);
    if e.DropMapping? { CalmDropHitsTheDead(s, e.login); }
    assert HasRow(s, s.written[i].key, i) && s.mapping[s.written[i].key] == s.written[i];
    RowStands(s, e, s.written[i].key, i);
  }

  lemma CalmHoldKept(s: State, e: Event, c: LoginId, key: Key)
    requires Inv(s) && CalmOk(s) && Enabled(s, e) && Calm(s, e) && c in Apply(s, e).logins &&
      Holds(Apply(s, e).logins[c], key)
    ensures HasRow(Apply(s, e), key, Apply(s, e).logins[c].phase.row)
  {
    if !IsUserEvent(e) && c == e.login {
      StepWrites(s, e);
      HoldBegins(s, e, key);
    } else {
      StepKeepsLogins(s, e);
      assert Holds(s.logins[c], key);
      RowStands(s, e, key, s.logins[c].phase.row);
    }
  }

  /** The acting login holds what it has just read, or what it held before. */
  lemma HoldBegins(s: State, e: Event, key: Key)
    requires Enabled(s, e) && !IsUserEvent(e) && Holds(Apply(s, e).logins[e.login], key)
    ensures e.login in s.logins && !Writes(e) && !e.DropMapping?
    ensures var r := Apply(s, e).logins[e.login].phase.row;
      HasRow(s, key, r) || (Holds(s.logins[e.login], key) && s.logins[e.login].phase.row == r)
  {
  }

  lemma StepStaysCalm(s: State, e: Event)
    requires Inv(s) && CalmOk(s) && Enabled(s, e) && Calm(s, e)
    ensures CalmOk(Apply(s, e))
  {
    var t := Apply(s, e);
    StepWrites(s, e);
    forall i: nat | i < |t.written| && t.written[i].user in t.accounts ensures HasRow(t, t.written[i].key, i) {
      if i < |s.written| { CalmRowKept(s, e, i); }
    }
    forall c, key | c in t.logins && Holds(t.logins[c], key) ensures HasRow(t, key, t.logins[c].phase.row) {
      CalmHoldKept(s, e, c, key);
    }
  }

  lemma {:induction false} RunStaysCalm(s: State, run: seq<Event>)
    requires Inv(s) && CalmOk(s) && IsRun(s, run) && IsCalm(s, run)
    ensures Inv(After(s, run)) && CalmOk(After(s, run))
    decreases |run|
  {
    if run != [] {
      StepKeepsInv(s, run[0]);
      StepStaysCalm(s, run[0]);
      hide Inv, Apply, Enabled, CalmOk, Calm;
      RunStaysCalm(Apply(s, run[0]), run[1..]);
    }
  }

  /** A run in which no account is deleted. */
  ghost predicate NoDeletions(run: seq<Event>) { forall i :: 0 <= i < |run| ==> !run[i].AccountDeleted? }

  /** The login is about to map its identity to this user. */
  predicate LinksAccount(p: Phase, u: UserId) { (p.Linking? || p.Resolving?) && p.user == u }

  /** The login has not found an account missing, and the one it links exists. */
  ghost predicate RelyOk(accounts: map<UserId, Account>, p: Phase) {
    !p.Dropping? && forall u :: LinksAccount(p, u) ==> u in accounts
  }

  /** Every account that a mapping or a login relies on exists. */
  ghost predicate NobodyGone(s: State) {
    && (forall i :: 0 <= i < |s.written| ==> s.written[i].user in s.accounts)
    && (forall c :: c in s.logins ==> RelyOk(s.accounts, s.logins[c].phase))
  }

  lemma StepLosesNobody(s: State, e: Event)
    requires Inv(s) && NobodyGone(s) && Enabled(s, e) && !e.AccountDeleted?
    ensures NobodyGone(Apply(s, e))
  {
    var t := Apply(s, e);
    StepWrites(s, e);
    StepKeepsLogins(s, e);
    StepKeepsAccounts(s, e);
    assert Writes(e) && e.Link? ==> NewRow(s, e).user in s.accounts by {
      if e.Link? {
        assert RelyOk(s.accounts, s.logins[e.login].phase) &&
          LinksAccount(s.logins[e.login].phase, s.logins[e.login].phase.user);
      }
    }
    if !IsUserEvent(e) { ActingRelies(s, e); }
    hide Inv, Apply, Enabled, RelyOk, LinksAccount;
    forall c | c in t.logins ensures RelyOk(t.accounts, t.logins[c].phase) {
      if c in s.logins { ReliesStill(s.accounts, t.accounts, s.logins[c].phase); }
      if !IsUserEvent(e) && c == e.login { ReliesStill(s.accounts, t.accounts, t.logins[c].phase); }
    }
  }

  lemma ReliesStill(a: map<UserId, Account>, b: map<UserId, Account>, p: Phase)
    requires a.Keys <= b.Keys && RelyOk(a, p)
    ensures RelyOk(b, p)
  {
  }

  lemma StepKeepsAccounts(s: State, e: Event)
    requires Enabled(s, e) && !e.AccountDeleted?
    ensures s.accounts.Keys <= Apply(s, e).accounts.Keys &&
      (e.Provision? && Writes(e) ==> e.user in Apply(s, e).accounts)
  {
  }

  lemma ActingRelies(s: State, e: Event)
    requires Inv(s) && NobodyGone(s) && Enabled(s, e) && !IsUserEvent(e)
    ensures RelyOk(s.accounts, Apply(s, e).logins[e.login].phase)
  {
    if e.ReadAccount? {
      assert LoginOk(s, e.login, s.logins[e.login]);
    }
    if e.login in s.logins {
      var q := s.logins[e.login].phase;
      assert RelyOk(s.accounts, q);
      assert q.Linking? || q.Resolving? ==> LinksAccount(q, q.user);
    }
    hide Inv, NobodyGone, LoginOk;
  }

  /** Without deletions there is no dangling mapping to clear, so the run is calm. */
  lemma {:induction false} NoDeletionsIsCalm(s: State, run: seq<Event>)
    requires Inv(s) && NobodyGone(s) && IsRun(s, run) && NoDeletions(run)
    ensures IsCalm(s, run)
    decreases |run|
  {
    if run != [] {
      assert run[0].DropMapping? ==> RelyOk(s.accounts, s.logins[run[0].login].phase);
      StepKeepsInv(s, run[0]);
      StepLosesNobody(s, run[0]);
      hide Inv, Apply, Enabled, NobodyGone;
      assert forall i :: 0 <= i < |run[1..]| ==> run[1..][i] == run[i + 1];
      NoDeletionsIsCalm(Apply(s, run[0]), run[1..]);
    }
  }

  lemma StartHolds()
    ensures Inv(START) && CalmOk(START) && NobodyGone(START)
  {
  }

  /** Some run, of any events, leads here from the empty database. */
  ghost predicate Reachable(s: State) { exists run :: IsRun(START, run) && s == After(START, run) }

  /** Some calm run does. */
  ghost predicate CalmlyReachable(s: State) {
    exists run :: IsRun(START, run) && IsCalm(START, run) && s == After(START, run)
  }

  lemma ReachableHolds(s: State)
    requires Reachable(s)
    ensures Inv(s)
  {
    hide Inv;
    var run :| IsRun(START, run) && s == After(START, run);
    StartHolds();
    RunKeepsInv(START, run);
  }

  lemma CalmlyReachableHolds(s: State)
    requires CalmlyReachable(s)
    ensures Inv(s) && CalmOk(s)
  {
    hide Inv, CalmOk;
    var run :| IsRun(START, run) && IsCalm(START, run) && s == After(START, run);
    StartHolds();
    RunStaysCalm(START, run);
  }

  // ---------------------------------------------------------------- the main results, over all runs

  /**
   * Mapping rows and audit rows go together, one for one and for good: the row with id `i` was audited
   * by record `i`, as CREATE exactly when it came with an account, and no account comes with two.
   */
  lemma EveryMappingIsAudited(s: State, k: Key, l: Key)
    requires Reachable(s) && k in s.mapping && l in s.mapping
    ensures |s.written| == |s.audits| && s.mapping[k].id < |s.audits| && s.written[s.mapping[k].id] == s.mapping[k]
    ensures s.audits[s.mapping[k].id] == Audit(s.mapping[k].user, if s.mapping[k].created then CREATE else UPDATE)
    ensures s.mapping[k].id == s.mapping[l].id ==> k == l
    ensures s.mapping[k].created && s.mapping[l].created && s.mapping[k].user == s.mapping[l].user ==> k == l
  {
    ReachableHolds(s);
    assert RowOk(s, s.mapping[k].id) && RowOk(s, s.mapping[l].id);
  }

  /** A login returns only a user to whom its identity has been mapped. */
  lemma ReturnsAMappedUser(s: State, c: LoginId)
    requires Reachable(s) && c in s.logins && s.logins[c].phase.Returned?
    ensures var p := s.logins[c].phase; Names(s.written, p.row, s.logins[c].Key(), p.user)
  {
    ReachableHolds(s);
    assert LoginOk(s, c, s.logins[c]);
  }

  /** Only the login that made the account says that it was provisioned. */
  lemma ProvisionedByOne(s: State, c: LoginId, d: LoginId)
    requires Reachable(s) && c in s.logins && d in s.logins
    requires var p, q := s.logins[c].phase, s.logins[d].phase;
      p.Returned? && q.Returned? && p.provisioned && q.provisioned && p.user == q.user
    ensures c == d
  {
    ReachableHolds(s);
    assert LoginOk(s, c, s.logins[c]) && LoginOk(s, d, s.logins[d]);
    assert RowOk(s, s.logins[c].phase.row) && RowOk(s, s.logins[d].phase.row);
  }

  // ---------------------------------------------------------------- the main results, in calm

  /** The login has ended well, with this user for this identity. */
  ghost predicate Succeeded(s: State, c: LoginId, key: Key, u: UserId) {
    c in s.logins && s.logins[c].Key() == key && s.logins[c].phase.Returned? && s.logins[c].phase.user == u
  }

  /**
   * One user for good: as long as the account lives, the identity is mapped to it, and every other
   * login of the identity whose account lives has returned the same user. Runs without deletions are
   * all calm, and in them every account lives.
   */
  lemma OneUserForGood(s: State, key: Key, c: LoginId, u: UserId, d: LoginId, v: UserId)
    requires CalmlyReachable(s) && Succeeded(s, c, key, u) && Succeeded(s, d, key, v) && u in s.accounts &&
      v in s.accounts
    ensures u == v && key in s.mapping && s.mapping[key].user == u
  {
    CalmlyReachableHolds(s);
    var r, q := s.logins[c].phase.row, s.logins[d].phase.row;
    assert LoginOk(s, c, s.logins[c]) && LoginOk(s, d, s.logins[d]);
    assert HasRow(s, s.written[r].key, r) && HasRow(s, s.written[q].key, q);
  }

  /** No orphans: an account a login made is mapped, by the row it was made with, as long as it lives. */
  lemma NoOrphans(s: State, u: UserId)
    requires CalmlyReachable(s) && u in s.madeBy && u in s.accounts
    ensures var r := s.madeBy[u];
      r < |s.written| && s.written[r].user == u && s.mapping.Values >= {s.written[r]} && HasRow(s, s.written[r].key, r)
  {
    CalmlyReachableHolds(s);
    var r := s.madeBy[u];
    assert HasRow(s, s.written[r].key, r) && s.mapping[s.written[r].key] == s.written[r];
  }

  /** In runs without deletions both hold of every account. */
  lemma WithoutDeletionsAllLive(run: seq<Event>)
    requires IsRun(START, run) && NoDeletions(run)
    ensures CalmlyReachable(After(START, run)) && NobodyGone(After(START, run))
  {
    StartHolds();
    NoDeletionsIsCalm(START, run);
    RunLosesNobody(START, run);
  }

  lemma {:induction false} RunLosesNobody(s: State, run: seq<Event>)
    requires Inv(s) && NobodyGone(s) && IsRun(s, run) && NoDeletions(run)
    ensures NobodyGone(After(s, run))
    decreases |run|
  {
    if run != [] {
      StepKeepsInv(s, run[0]);
      StepLosesNobody(s, run[0]);
      hide Inv, Apply, Enabled, NobodyGone;
      assert forall i :: 0 <= i < |run[1..]| ==> run[1..][i] == run[i + 1];
      RunLosesNobody(Apply(s, run[0]), run[1..]);
    }
  }

  // ---------------------------------------------------------------- when a living mapping is lost

  /** Some login of the identity deletes its mapping in the course of the run. */
  ghost predicate Drops(s: State, run: seq<Event>, key: Key)
    requires IsRun(s, run)
    decreases |run|
  {
    run != [] &&
      ((run[0].DropMapping? && s.logins[run[0].login].Key() == key) || Drops(Apply(s, run[0]), run[1..], key))
  }

  lemma StepKeepsRowIff(s: State, e: Event, key: Key, r: nat)
    requires Inv(s) && Enabled(s, e) && r < |s.written|
    ensures HasRow(Apply(s, e), key, r) <==> HasRow(s, key, r) && !(e.DropMapping? && s.logins[e.login].Key() == key)
    ensures r < |Apply(s, e).written|
  {
    StepWrites(s, e);
    hide Apply, Enabled, Inv;
  }

  /** Over any run, a row stays exactly until a login of its identity deletes the mapping, and never comes back. */
  lemma {:induction false} RowStaysUntilDropped(s: State, run: seq<Event>, key: Key, r: nat)
    requires Inv(s) && IsRun(s, run) && r < |s.written|
    ensures HasRow(After(s, run), key, r) <==> HasRow(s, key, r) && !Drops(s, run, key)
    decreases |run|
  {
    if run != [] {
      StepKeepsInv(s, run[0]);
      StepKeepsRowIff(s, run[0], key, r);
      hide Inv, Apply, Enabled, HasRow;
      RowStaysUntilDropped(Apply(s, run[0]), run[1..], key, r);
    }
  }

  /** The delete of this login takes the mapping away from an account that lives. */
  ghost predicate TakesFromTheLiving(s: State, c: LoginId)
    requires Enabled(s, DropMapping(c))
  {
    exists k :: k in s.mapping && k !in Apply(s, DropMapping(c)).mapping && s.mapping[k].user in s.accounts
  }

  /**
   * Exactly what goes wrong with deletions. A login has read a mapping, and now deletes it because the
   * account was gone. It deletes the row it read if and only if no other login of the identity has
   * deleted the mapping in between; and it takes the mapping from a living account, never the one it
   * looked up, if and only if one has, and the identity has since been mapped to an account that lives.
   */
  lemma LivingMappingIsLostIff(s: State, c: LoginId, u: UserId, r: nat, run: seq<Event>)
    requires Reachable(s) && c in s.logins && s.logins[c].phase == Checking(u, r) && HasRow(s, s.logins[c].Key(), r)
    requires IsRun(s, run) && c in After(s, run).logins && After(s, run).logins[c].phase == Dropping(u, r)
    ensures var t, key := After(s, run), s.logins[c].Key();
      && t.logins[c].Key() == key
      && (HasRow(t, key, r) <==> !Drops(s, run, key))
      && (TakesFromTheLiving(t, c) <==> Drops(s, run, key) && key in t.mapping && t.mapping[key].user in t.accounts)
      && (TakesFromTheLiving(t, c) ==> t.mapping[key].user != u)
  {
    ReachableHolds(s);
    var t, key := After(s, run), s.logins[c].Key();
    assert LoginOk(s, c, s.logins[c]);
    RowStaysUntilDropped(s, run, key, r);
    RunKeepsInv(s, run);
    RunKeepsIdentity(s, run, c);
    assert LoginOk(t, c, t.logins[c]) && MappingOk(t);
    StepWrites(t, DropMapping(c));
    hide Inv, Apply, Enabled, Drops;
    assert key in t.mapping ==> key !in Apply(t, DropMapping(c)).mapping;
  }

  lemma {:induction false} RunKeepsIdentity(s: State, run: seq<Event>, c: LoginId)
    requires IsRun(s, run) && c in s.logins
    ensures c in After(s, run).logins && After(s, run).logins[c].identity == s.logins[c].identity
    decreases |run|
  {
    if run != [] {
      StepKeepsLogins(s, run[0]);
      hide Apply, Enabled;
      RunKeepsIdentity(Apply(s, run[0]), run[1..], c);
    }
  }

  // ---------------------------------------------------------------- what the legacy flag says

  /** The link transaction of this login commits in the course of the run, acknowledged or not. */
  ghost predicate Links(run: seq<Event>, c: LoginId) {
    exists i :: 0 <= i < |run| && run[i].Link? && run[i].login == c && Writes(run[i])
  }

  /** The login has written a mapping row for an account it did not make. */
  ghost predicate HasLinked(s: State, c: LoginId) {
    exists i :: 0 <= i < |s.written| && s.written[i].writer == c && !s.written[i].created
  }

  lemma StepLinks(s: State, e: Event, c: LoginId)
    requires Enabled(s, e)
    ensures HasLinked(Apply(s, e), c) <==> HasLinked(s, c) || (e.Link? && e.login == c && Writes(e))
  {
    StepWrites(s, e);
    var t := Apply(s, e);
    hide Apply, Enabled;
    if Writes(e) { assert t.written[|s.written|] == NewRow(s, e); }
    if i :| 0 <= i < |s.written| && s.written[i].writer == c && !s.written[i].created {
      assert t.written[i] == s.written[i];
    }
  }

  lemma {:induction false} RunLinks(s: State, run: seq<Event>, c: LoginId)
    requires IsRun(s, run)
    ensures HasLinked(After(s, run), c) <==> HasLinked(s, c) || Links(run, c)
    decreases |run|
  {
    if run != [] {
      StepLinks(s, run[0], c);
      RunLinks(Apply(s, run[0]), run[1..], c);
      LinksFirst(run, c);
    }
  }

  lemma LinksFirst(run: seq<Event>, c: LoginId)
    requires run != []
    ensures Links(run, c) <==> (run[0].Link? && run[0].login == c && Writes(run[0])) || Links(run[1..], c)
  {
    if i :| 0 <= i < |run[1..]| && run[1..][i].Link? && run[1..][i].login == c && Writes(run[1..][i]) {
      assert run[i + 1] == run[1..][i];
    }
    if i :| 0 < i < |run| && run[i].Link? && run[i].login == c && Writes(run[i]) { assert run[1..][i - 1] == run[i]; }
  }

  /** In the course of the run this login's link transaction finds its identity unmapped and is not rolled back. */
  ghost predicate LinksUnmapped(s: State, run: seq<Event>, c: LoginId)
    requires IsRun(s, run)
    decreases |run|
  {
    run != [] && (FindsUnmapped(s, run[0], c) || LinksUnmapped(Apply(s, run[0]), run[1..], c))
  }

  ghost predicate FindsUnmapped(s: State, e: Event, c: LoginId) {
    && e.Link? && e.login == c && !e.outcome.RolledBack?
    && c in s.logins && s.logins[c].Key() !in s.mapping
  }

  /** A link transaction commits exactly then: on a mapped identity it changes nothing. */
  lemma {:induction false} LinksIffUnmapped(s: State, run: seq<Event>, c: LoginId)
    requires IsRun(s, run)
    ensures Links(run, c) <==> LinksUnmapped(s, run, c)
    decreases |run|
  {
    if run != [] {
      assert run[0].Link? && run[0].login == c && Writes(run[0]) <==> FindsUnmapped(s, run[0], c);
      LinksFirst(run, c);
      hide Apply, Enabled, FindsUnmapped, Links;
      LinksIffUnmapped(Apply(s, run[0]), run[1..], c);
    }
  }

  /**
   * `linkedFromLegacyEmail` means that this login created the mapping by linking an existing account.
   * Over every calm run, for a login that reports it and whose account lives, that is true if and only
   * if its identity was still unmapped when its link transaction ran, and that was not rolled back;
   * otherwise another login wrote the row.
   */
  lemma LegacyFlagIsRightIffUnmapped(run: seq<Event>, c: LoginId)
    requires IsRun(START, run) && IsCalm(START, run)
    requires var s := After(START, run);
      c in s.logins && s.logins[c].phase.Returned? && s.logins[c].phase.legacy && s.logins[c].phase.user in s.accounts
    ensures var s := After(START, run);
      var r := s.logins[c].phase.row;
      && r < |s.written| && HasRow(s, s.logins[c].Key(), r)
      && (s.written[r].writer == c <==> LinksUnmapped(START, run, c))
      && (s.written[r].writer == c ==> s.written[r].legacy)
  {
    StartHolds();
    RunStaysCalm(START, run);
    RunLinks(START, run, c);
    LinksIffUnmapped(START, run, c);
    var s := After(START, run);
    var r := s.logins[c].phase.row;
    assert LoginOk(s, c, s.logins[c]) && AuthorOk(s.written, c, s.logins[c].phase);
    assert HasRow(s, s.written[r].key, r) && RowOk(s, r);
    if i: nat :| i < |s.written| && s.written[i].writer == c && !s.written[i].created {
      assert HasRow(s, s.written[i].key, i) && RowOk(s, i);
    }
  }
}
