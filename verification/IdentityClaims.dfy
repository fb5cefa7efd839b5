/**
 * What a login's claims let it do, over every interleaving: without a verified email it writes nothing,
 * without an issuer and a subject it gets nowhere, and it links only an account that it found active.
 */
module IdentityClaims {
  import opened Wrappers
  import opened Identity
  import opened IdentityInvariants

  // ---------------------------------------------------------------- the key

  /** Trimming takes the white space off both ends, and nothing else. */
  lemma {:induction false} TrimTakesOffSpace(s: string) returns (a: nat, b: nat)
    ensures a <= b <= |s| && Trim(s) == s[a..b]
    ensures forall i :: 0 <= i < a || b <= i < |s| ==> IsSpace(s[i])
    ensures a < b ==> !IsSpace(s[a]) && !IsSpace(s[b - 1])
    decreases |s|
  {
    hide IsSpace;
    if s == "" {
      a, b := 0, 0;
    } else if IsSpace(s[0]) {
      a, b := TrimTakesOffSpace(s[1..]);
      assert forall i :: 0 <= i < |s[1..]| ==> s[1..][i] == s[i + 1];
      assert s[1..][a..b] == s[a + 1..b + 1];
      forall i | 0 <= i < a + 1 || b + 1 <= i < |s| ensures IsSpace(s[i]) {
        if i > 0 { assert s[1..][i - 1] == s[i]; }
      }
      a, b := a + 1, b + 1;
    } else if IsSpace(s[|s| - 1]) {
      a, b := TrimTakesOffSpace(s[..|s| - 1]);
      assert s[..|s| - 1][a..b] == s[a..b];
    } else {
      a, b := 0, |s|;
    }
  }

  /** A claim is usable if it is there and holds more than white space. */
  ghost predicate Usable(claim: Option<string>) {
    claim.Some? && exists i :: 0 <= i < |claim.value| && !IsSpace(claim.value[i])
  }

  lemma TrimmedIsEmptyIffUnusable(claim: Option<string>)
    ensures Trimmed(claim) == "" <==> !Usable(claim)
  {
    if claim.Some? {
      var a, b := TrimTakesOffSpace(claim.value);
      hide IsSpace, Trim;
      if a < b { assert !IsSpace(claim.value[a]); }
    }
  }

  // ---------------------------------------------------------------- the invariant

  /** The login is on its way to an account it has no mapping to. */
  predicate SeeksAccount(p: Phase) {
    p.FindingByEmail? || p.Provisioning? || p.Recovering? || p.Linking? || p.Resolving?
  }

  /** How far a login has got fits its claims. */
  ghost predicate ClaimsOk(login: Login) {
    var i, p := login.identity, login.phase;
    && (p == Refused(MissingIssuer) <==> !Usable(i.issuer))
    && (p == Refused(MissingSubject) <==> Usable(i.issuer) && !Usable(i.subject))
    && (SeeksAccount(p) ==> i.emailVerified)
    && (p == Refused(EmailNotVerified) ==> !i.emailVerified)
    && (p.Returned? && (p.legacy || p.provisioned) ==> i.emailVerified)
  }

  /** A row was written by a login with a verified email, under a complete key. */
  ghost predicate RowClaimed(s: State, row: Row) {
    && row.writer in s.logins && s.logins[row.writer].identity.emailVerified
    && row.key.issuer != "" && row.key.subject != ""
  }

  ghost predicate AllClaimed(s: State) {
    && (forall c :: c in s.logins ==> ClaimsOk(s.logins[c]))
    && (forall i :: 0 <= i < |s.written| ==> RowClaimed(s, s.written[i]))
  }

  lemma BegunClaims(i: Identity)
    ensures ClaimsOk(Login(i, Begun(i)))
  {
    TrimmedIsEmptyIffUnusable(i.issuer);
    TrimmedIsEmptyIffUnusable(i.subject);
    hide Usable, Trimmed;
  }

  lemma MovedClaims(s: State, e: Event)
    requires Enabled(s, e) && !IsUserEvent(e) && !e.Resolve? && ClaimsOk(s.logins[e.login])
    ensures ClaimsOk(s.logins[e.login].(phase := PhaseAfter(s, e, s.logins[e.login])))
  {
    hide Usable, KeyOf;
  }

  lemma ActingClaims(s: State, e: Event)
    requires Enabled(s, e) && !IsUserEvent(e) && (e.login in s.logins ==> ClaimsOk(s.logins[e.login]))
    ensures ClaimsOk(Apply(s, e).logins[e.login])
  {
    if e.Resolve? { BegunClaims(e.identity); } else { MovedClaims(s, e); }
    hide ClaimsOk, Begun, PhaseAfter, Written;
  }

  lemma WriterClaims(s: State, e: Event)
    requires Enabled(s, e) && Writes(e) && ClaimsOk(s.logins[e.login])
    ensures RowClaimed(s, NewRow(s, e))
  {
    var login := s.logins[e.login];
    TrimmedIsEmptyIffUnusable(login.identity.issuer);
    TrimmedIsEmptyIffUnusable(login.identity.subject);
    hide Usable, Trimmed;
  }

  lemma StepKeepsClaims(s: State, e: Event)
    requires AllClaimed(s) && Enabled(s, e)
    ensures AllClaimed(Apply(s, e))
  {
    var t := Apply(s, e);
    StepWrites(s, e);
    StepKeepsLogins(s, e);
    if !IsUserEvent(e) { ActingClaims(s, e); }
    if Writes(e) { WriterClaims(s, e); }
    hide Apply, Enabled, ClaimsOk, NewRow;
    forall i | 0 <= i < |t.written| ensures RowClaimed(t, t.written[i]) {
      assert i < |s.written| ==> t.written[i] == s.written[i] && RowClaimed(s, s.written[i]);
    }
  }

  lemma {:induction false} RunKeepsClaims(s: State, run: seq<Event>)
    requires AllClaimed(s) && IsRun(s, run)
    ensures AllClaimed(After(s, run))
    decreases |run|
  {
    if run != [] {
      StepKeepsClaims(s, run[0]);
      hide AllClaimed, Apply, Enabled;
      RunKeepsClaims(Apply(s, run[0]), run[1..]);
    }
  }

  lemma ReachableClaims(s: State)
    requires Reachable(s)
    ensures AllClaimed(s)
  {
    var run :| IsRun(START, run) && s == After(START, run);
    hide IsRun, After;
    RunKeepsClaims(START, run);
  }

  // ---------------------------------------------------------------- the main results, over all runs

  /** Every mapping row ever written was written by a login whose email is verified, under a complete key. */
  lemma OnlyVerifiedEmailsMap(s: State, i: nat)
    requires Reachable(s) && i < |s.written|
    ensures var row := s.written[i];
      && row.writer in s.logins && s.logins[row.writer].identity.emailVerified
      && s.logins[row.writer].Key() == row.key && row.key.issuer != "" && row.key.subject != ""
  {
    ReachableClaims(s);
    ReachableHolds(s);
    assert RowOk(s, i) && RowClaimed(s, s.written[i]);
  }

  /** So no identity is mapped, now or ever, without an issuer or without a subject. */
  lemma MappedKeysAreComplete(s: State, k: Key)
    requires Reachable(s) && k in s.mapping
    ensures k.issuer != "" && k.subject != ""
  {
    ReachableHolds(s);
    assert MappingOk(s);
    OnlyVerifiedEmailsMap(s, s.mapping[k].id);
  }

  /**
   * A login without a verified email never takes an account over: it writes nothing, and if it returns,
   * it returns an account to which another login, with a verified email, had mapped its identity.
   */
  lemma UnverifiedOnlyReturnsWhatWasMapped(s: State, c: LoginId)
    requires Reachable(s) && c in s.logins && !s.logins[c].identity.emailVerified
    ensures forall i :: 0 <= i < |s.written| ==> s.written[i].writer != c
    ensures var p := s.logins[c].phase;
      && !SeeksAccount(p)
      && (p.Returned? ==>
            && Names(s.written, p.row, s.logins[c].Key(), p.user) && !p.legacy && !p.provisioned
            && s.written[p.row].writer != c && s.written[p.row].writer in s.logins
            && s.logins[s.written[p.row].writer].identity.emailVerified)
  {
    ReachableClaims(s);
    assert ClaimsOk(s.logins[c]);
    assert forall i :: 0 <= i < |s.written| ==> RowClaimed(s, s.written[i]);
    if s.logins[c].phase.Returned? { ReturnsAMappedUser(s, c); }
    hide Reachable, AllClaimed;
  }

  /** Claims are refused for what is wrong with them, and only for that. */
  lemma ClaimsAreRefusedRightly(s: State, c: LoginId)
    requires Reachable(s) && c in s.logins
    ensures var i, p := s.logins[c].identity, s.logins[c].phase;
      && (p == Refused(MissingIssuer) <==> !Usable(i.issuer))
      && (p == Refused(MissingSubject) <==> Usable(i.issuer) && !Usable(i.subject))
      && (p == Refused(EmailNotVerified) ==> !i.emailVerified)
  {
    ReachableClaims(s);
    assert ClaimsOk(s.logins[c]);
  }

  // ---------------------------------------------------------------- only active accounts are linked

  /** The login is linking this account, or has linked it. */
  ghost predicate LinksAccountTo(s: State, c: LoginId, u: UserId) {
    || (c in s.logins && (s.logins[c].phase.Linking? || s.logins[c].phase.Resolving?) && s.logins[c].phase.user == u)
    || (exists i :: 0 <= i < |s.written| && s.written[i].writer == c && s.written[i].user == u && !s.written[i].created)
  }

  /** This event finds, under the email of the login, this account, and the account is active. */
  ghost predicate FindsActive(s: State, e: Event, c: LoginId, u: UserId) {
    && e == FindByEmail(c, Some(u)) && c in s.logins && u in s.accounts
    && s.accounts[u] == Account(s.logins[c].identity.email, true)
  }

  /** In the course of the run the login finds the account active. */
  ghost predicate FoundActive(s: State, run: seq<Event>, c: LoginId, u: UserId)
    requires IsRun(s, run)
    decreases |run|
  {
    run != [] && (FindsActive(s, run[0], c, u) || FoundActive(Apply(s, run[0]), run[1..], c, u))
  }

  lemma StepLinksActive(s: State, e: Event, c: LoginId, u: UserId)
    requires Enabled(s, e) && LinksAccountTo(Apply(s, e), c, u)
    ensures LinksAccountTo(s, c, u) || FindsActive(s, e, c, u)
  {
    var t := Apply(s, e);
    StepWrites(s, e);
    StepKeepsLogins(s, e);
    if !IsUserEvent(e) { ActingLinks(s, e); }
    if Writes(e) { NewRowIsTheWriters(s, e); }
    hide Apply, Enabled, FindsActive, NewRow;
    if i :| 0 <= i < |t.written| && t.written[i].writer == c && t.written[i].user == u && !t.written[i].created {
      assert i < |s.written| ==> t.written[i] == s.written[i];
    }
  }

  lemma NewRowIsTheWriters(s: State, e: Event)
    requires Enabled(s, e) && Writes(e)
    ensures NewRow(s, e).writer == e.login
    ensures !NewRow(s, e).created ==> LinksAccountTo(s, e.login, NewRow(s, e).user)
  {
  }

  lemma ActingLinks(s: State, e: Event)
    requires Enabled(s, e) && !IsUserEvent(e)
    ensures var p := Apply(s, e).logins[e.login].phase;
      p.Linking? || p.Resolving? ==>
        FindsActive(s, e, e.login, p.user) || LinksAccountTo(s, e.login, p.user)
  {
  }

  /** Whatever a login links, it has found under its own email, and active. */
  lemma {:induction false} LinkedWasFoundActive(s: State, run: seq<Event>, c: LoginId, u: UserId)
    requires IsRun(s, run) && LinksAccountTo(After(s, run), c, u) && !LinksAccountTo(s, c, u)
    ensures FoundActive(s, run, c, u)
    decreases |run|
  {
    var t := Apply(s, run[0]);
    if LinksAccountTo(t, c, u) {
      StepLinksActive(s, run[0], c, u);
    } else {
      hide Apply, Enabled, LinksAccountTo, FindsActive;
      LinkedWasFoundActive(t, run[1..], c, u);
    }
  }

  /** Over every run from the empty database: a row that came without an account links one found active. */
  lemma OnlyActiveAccountsAreLinked(run: seq<Event>, i: nat)
    requires IsRun(START, run) && i < |After(START, run).written| && !After(START, run).written[i].created
    ensures FoundActive(START, run, After(START, run).written[i].writer, After(START, run).written[i].user)
  {
    var row := After(START, run).written[i];
    LinkedWasFoundActive(START, run, row.writer, row.user);
  }

  // ---------------------------------------------------------------- a login on its own

  ghost predicate Moves(s: State, e: Event, t: State) { Enabled(s, e) && t == Apply(s, e) }

  /** A login begins and looks for its mapping: the account it is mapped to decides, or else its email does. */
  lemma LoginBegins(s: State, c: LoginId, i: Identity) returns (s1: State, s2: State)
    requires c !in s.logins && Usable(i.issuer) && Usable(i.subject)
    ensures Moves(s, Resolve(c, i), s1) && Moves(s1, ReadMapping(c), s2)
    ensures var key := KeyOf(i);
      s2 == s.(logins := s.logins[c := Login(i,
        if key in s.mapping then Checking(s.mapping[key].user, s.mapping[key].id)
        else if i.emailVerified then FindingByEmail else Refused(EmailNotVerified))])
  {
    TrimmedIsEmptyIffUnusable(i.issuer);
    TrimmedIsEmptyIffUnusable(i.subject);
    s1 := Apply(s, Resolve(c, i));
    s2 := Apply(s1, ReadMapping(c));
    assert s1.logins[c := s2.logins[c]] == s.logins[c := s2.logins[c]];
  }

  /** A mapped identity returns the account it is mapped to, as long as that exists, whatever its email. */
  lemma MappedLoginReturns(s: State, c: LoginId, i: Identity) returns (s1: State, s2: State, s3: State)
    requires c !in s.logins && Usable(i.issuer) && Usable(i.subject)
    requires KeyOf(i) in s.mapping && s.mapping[KeyOf(i)].user in s.accounts
    ensures Moves(s, Resolve(c, i), s1) && Moves(s1, ReadMapping(c), s2) && Moves(s2, ReadAccount(c), s3)
    ensures var row := s.mapping[KeyOf(i)];
      s3 == s.(logins := s.logins[c := Login(i, Returned(row.user, false, false, row.id))])
  {
    s1, s2 := LoginBegins(s, c, i);
    s3 := Apply(s2, ReadAccount(c));
    assert s2.logins[c := s3.logins[c]] == s.logins[c := s3.logins[c]];
  }

  /**
   * An identity that is not mapped, with a verified email that an account has: if the account is active
   * it is mapped to it, and otherwise it is refused.
   */
  lemma UnmappedLoginLinks(s: State, c: LoginId, i: Identity, u: UserId)
    returns (s1: State, s2: State, s3: State, s4: State)
    requires c !in s.logins && Usable(i.issuer) && Usable(i.subject) && i.emailVerified && KeyOf(i) !in s.mapping
    requires u in s.accounts && s.accounts[u].email == i.email
    ensures Moves(s, Resolve(c, i), s1) && Moves(s1, ReadMapping(c), s2) && Moves(s2, FindByEmail(c, Some(u)), s3)
    ensures !s.accounts[u].active ==> s3 == s.(logins := s.logins[c := Login(i, Refused(Inactive))])
    ensures s.accounts[u].active ==>
      && Moves(s3, Link(c, Committed), s4)
      && s4.logins == s.logins[c := Login(i, Returned(u, true, false, |s.written|))]
      && s4.mapping == s.mapping[KeyOf(i) := Row(|s.written|, KeyOf(i), u, true, c, false)]
      && s4.accounts == s.accounts && s4.audits == s.audits + [Audit(u, UPDATE)]
  {
    s1, s2 := LoginBegins(s, c, i);
    s3 := Apply(s2, FindByEmail(c, Some(u)));
    assert s2.logins[c := s3.logins[c]] == s.logins[c := s3.logins[c]];
    s4 := s3;
    if s.accounts[u].active {
      s4 := Apply(s3, Link(c, Committed));
      assert s3.logins[c := s4.logins[c]] == s.logins[c := s4.logins[c]];
    }
  }

  /** An identity that is not mapped, with a verified email that nobody has, is given an account of its own. */
  lemma NewLoginProvisions(s: State, c: LoginId, i: Identity, u: UserId)
    returns (s1: State, s2: State, s3: State, s4: State)
    requires c !in s.logins && Usable(i.issuer) && Usable(i.subject) && i.emailVerified && KeyOf(i) !in s.mapping
    requires EmailFree(s.accounts, i.email) && u !in s.issued
    ensures Moves(s, Resolve(c, i), s1) && Moves(s1, ReadMapping(c), s2) && Moves(s2, FindByEmail(c, None), s3)
    ensures Moves(s3, Provision(c, u, Committed), s4)
    ensures s4.logins == s.logins[c := Login(i, Returned(u, false, true, |s.written|))]
    ensures s4.mapping == s.mapping[KeyOf(i) := Row(|s.written|, KeyOf(i), u, false, c, true)]
    ensures s4.accounts == s.accounts[u := Account(i.email, true)] && s4.audits == s.audits + [Audit(u, CREATE)]
  {
    s1, s2 := LoginBegins(s, c, i);
    s3 := Apply(s2, FindByEmail(c, None));
    assert s3 == s.(logins := s.logins[c := Login(i, Provisioning)]) by {
      assert s2.logins[c := s3.logins[c]] == s.logins[c := s3.logins[c]];
    }
    s4 := Provisions(s, s3, c, i, u);
  }

  lemma Provisions(s: State, ready: State, c: LoginId, i: Identity, u: UserId) returns (done: State)
    requires ready == s.(logins := s.logins[c := Login(i, Provisioning)])
    requires KeyOf(i) !in s.mapping && EmailFree(s.accounts, i.email) && u !in s.issued
    ensures Moves(ready, Provision(c, u, Committed), done)
    ensures done.logins == s.logins[c := Login(i, Returned(u, false, true, |s.written|))]
    ensures done.mapping == s.mapping[KeyOf(i) := Row(|s.written|, KeyOf(i), u, false, c, true)]
    ensures done.accounts == s.accounts[u := Account(i.email, true)] && done.audits == s.audits + [Audit(u, CREATE)]
  {
    done := Apply(ready, Provision(c, u, Committed));
    assert ready.logins[c := done.logins[c]] == s.logins[c := done.logins[c]];
  }
}
