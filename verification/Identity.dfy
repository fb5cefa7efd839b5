/**
 * Mapping verified OIDC tokens to local users. Any number of logins run at once against one database
 * with a unique (issuer, subject) key on mappings and a unique email on accounts; an event of the
 * model is one read, or one whole transaction, of one login, or a change made by the Users API.
 */
module Identity {
  import opened Wrappers

  type UserId = nat
  type LoginId = nat

  datatype Identity = Identity(issuer: Option<string>, subject: Option<string>, email: string, emailVerified: bool)

  datatype Key = Key(issuer: string, subject: string)

  datatype Account = Account(email: string, active: bool)

  /**
   * A mapping row. Its id is its place among all rows ever written; the login that wrote it, and
   * whether it provisioned the account, are remembered beside it.
   */
  datatype Row = Row(id: nat, key: Key, user: UserId, legacy: bool, writer: LoginId, created: bool)

  datatype Action = CREATE | UPDATE

  datatype Audit = Audit(entity: UserId, action: Action)

  datatype Refusal = MissingIssuer | MissingSubject | EmailNotVerified | Inactive | DifferentAccount | Fault

  /** Where a login stands; `row` is the id of the mapping row it has read or vouches for. */
  datatype Phase =
    | ReadingMapping
    | Checking(user: UserId, row: nat)
    | Dropping(user: UserId, row: nat)
    | FindingByEmail
    | Provisioning
    | Recovering
    | Linking(user: UserId, legacy: bool)
    | Resolving(user: UserId, legacy: bool)
    | Returned(user: UserId, legacy: bool, provisioned: bool, row: nat)
    | Refused(reason: Refusal)

  datatype Login = Login(identity: Identity, phase: Phase) {
    function Key(): Key { KeyOf(identity) }
  }

  /**
   * `issued` holds every user id ever given out, `written` every mapping row ever written, and
   * `madeBy` the row with which a login provisioned an account.
   */
  datatype State = State(accounts: map<UserId, Account>, mapping: map<Key, Row>, audits: seq<Audit>,
                         logins: map<LoginId, Login>, issued: set<UserId>, written: seq<Row>, madeBy: map<UserId, nat>)

  /** How a transaction ends: a commit may go unacknowledged, and anything may roll it back. */
  datatype Outcome = Committed | Unacknowledged | RolledBack

  datatype Event =
    | Resolve(login: LoginId, identity: Identity)
    | ReadMapping(login: LoginId)
    | ReadAccount(login: LoginId)
    | DropMapping(login: LoginId)
    | FindByEmail(login: LoginId, found: Option<UserId>)
    | Provision(login: LoginId, user: UserId, outcome: Outcome)
    | Link(login: LoginId, outcome: Outcome)
    | Reread(login: LoginId)
    | ReadFails(login: LoginId)
    | AccountAdded(user: UserId, account: Account)
    | AccountChanged(user: UserId, account: Account)
    | AccountDeleted(user: UserId)

  const START := State(map[], map[], [], map[], {}, [], map[])

  // ---------------------------------------------------------------- the claims

  predicate IsSpace(c: char) {
    c in " \t\n\r" ||
      c in ['\U{000B}', '\U{000C}', '\U{00A0}', '\U{1680}', '\U{2028}', '\U{2029}', '\U{202F}', '\U{205F}', '\U{3000}',
      '\U{FEFF}']
      || '\U{2000}' <= c <= '\U{200A}'
  }

  function Trim(s: string): string {
    if s == "" then ""
    else if IsSpace(s[0]) then Trim(s[1..])
    else if IsSpace(s[|s| - 1]) then Trim(s[..|s| - 1])
    else s
  }

  function Trimmed(s: Option<string>): string { if s.Some? then Trim(s.value) else "" }

  function KeyOf(i: Identity): Key { Key(Trimmed(i.issuer), Trimmed(i.subject)) }

  // ---------------------------------------------------------------- the steps

  predicate Ended(p: Phase) { p.Returned? || p.Refused? }

  predicate IsUserEvent(e: Event) { e.AccountAdded? || e.AccountChanged? || e.AccountDeleted? }

  ghost predicate EmailFree(accounts: map<UserId, Account>, email: string) {
    forall u :: u in accounts ==> accounts[u].email != email
  }

  ghost predicate Finds(accounts: map<UserId, Account>, email: string, found: Option<UserId>) {
    match found
    case None => EmailFree(accounts, email)
    case Some(u) => u in accounts && accounts[u].email == email
  }

  ghost predicate Enabled(s: State, e: Event) {
    match e
    case Resolve(c, _) => c !in s.logins
    case AccountAdded(u, a) => u !in s.issued && EmailFree(s.accounts, a.email)
    case AccountChanged(u, a) => u in s.accounts && EmailFree(s.accounts - {u}, a.email)
    case AccountDeleted(u) => u in s.accounts
    case _ => e.login in s.logins && LoginEnabled(s, e, s.logins[e.login])
  }

  ghost predicate LoginEnabled(s: State, e: Event, login: Login)
    requires !IsUserEvent(e) && !e.Resolve?
  {
    match e
    case ReadMapping(_) => login.phase.ReadingMapping?
    case ReadAccount(_) => login.phase.Checking?
    case DropMapping(_) => login.phase.Dropping?
    case FindByEmail(_, found) =>
      (login.phase.FindingByEmail? || login.phase.Recovering?) && Finds(s.accounts, login.identity.email, found)
    case Provision(_, user, outcome) =>
      && login.phase.Provisioning? && user !in s.issued
      && (outcome.RolledBack? || (login.Key() !in s.mapping && EmailFree(s.accounts, login.identity.email)))
    case Link(_, outcome) => login.phase.Linking? && (outcome.RolledBack? || login.Key() !in s.mapping)
    case Reread(_) => login.phase.Resolving?
    case ReadFails(_) => !Ended(login.phase) && !login.phase.Provisioning? && !login.phase.Linking?
  }

  function Begun(i: Identity): Phase {
    if Trimmed(i.issuer) == "" then Refused(MissingIssuer)
    else if Trimmed(i.subject) == "" then Refused(MissingSubject)
    else ReadingMapping
  }

  function Verified(i: Identity): Phase { if i.emailVerified then FindingByEmail else Refused(EmailNotVerified) }

  /** Where a login goes with its event. */
  function PhaseAfter(s: State, e: Event, login: Login): Phase
    requires !IsUserEvent(e) && !e.Resolve?
    requires (e.ReadAccount? ==> login.phase.Checking?) && (e.Link? ==> login.phase.Linking?) &&
      (e.Reread? ==> login.phase.Resolving?)
    requires e.FindByEmail? && e.found.Some? ==> e.found.value in s.accounts
  {
    var key := login.Key();
    match e
    case ReadMapping(_) => if key in s.mapping then Checking(s.mapping[key].user, s.mapping[key].id)
      else Verified(login.identity)
    case ReadAccount(_) =>
      if login.phase.user in s.accounts then Returned(login.phase.user, false, false, login.phase.row)
      else Dropping(login.phase.user, login.phase.row)
    // Deleting a row that is no longer there is an error.
    case DropMapping(_) => if key in s.mapping then Verified(login.identity) else Refused(Fault)
    case FindByEmail(_, found) =>
      if found.None? then (if login.phase.Recovering? then Refused(Fault) else Provisioning)
      else if !s.accounts[found.value].active then Refused(Inactive)
      else Linking(found.value, !login.phase.Recovering?)
    case Provision(_, user, outcome) => if outcome.Committed? then Returned(user, false, true, |s.written|)
      else Recovering
    case Link(_, outcome) =>
      if outcome.Committed? then Returned(login.phase.user, login.phase.legacy, false, |s.written|)
      else Resolving(login.phase.user, login.phase.legacy)
    case Reread(_) =>
      if key !in s.mapping then Refused(Fault)
      else if s.mapping[key].user != login.phase.user then Refused(DifferentAccount)
      else Returned(login.phase.user, login.phase.legacy, false, s.mapping[key].id)
    case ReadFails(_) => Refused(Fault)
  }

  /** A transaction that creates a mapping row and the audit record that goes with it. */
  function WithRow(s: State, c: LoginId, user: UserId, legacy: bool, created: bool): State
    requires c in s.logins
  {
    var key := s.logins[c].Key();
    var row := Row(|s.written|, key, user, legacy, c, created);
    s.(mapping := s.mapping[key := row], written := s.written + [row],
      audits := s.audits + [Audit(user, if created then CREATE else UPDATE)])
  }

  /** What the event writes, apart from the login's own progress. */
  function Written(s: State, e: Event): State
    requires Enabled(s, e)
  {
    match e
    case DropMapping(c) => s.(mapping := s.mapping - {s.logins[c].Key()})
    case Provision(c, user, outcome) =>
      var used := s.(issued := s.issued + {user});
      if outcome.RolledBack? then used
      else WithRow(used.(accounts := s.accounts[user := Account(s.logins[c].identity.email, true)],
        madeBy := s.madeBy[user := |s.written|]),
                   c, user, false, true)
    case Link(c, outcome) => if outcome.RolledBack? then s
      else WithRow(s, c, s.logins[c].phase.user, s.logins[c].phase.legacy, false)
    case AccountAdded(u, a) => s.(accounts := s.accounts[u := a], issued := s.issued + {u})
    case AccountChanged(u, a) => s.(accounts := s.accounts[u := a])
    case AccountDeleted(u) => s.(accounts := s.accounts - {u})
    case _ => s
  }

  function Apply(s: State, e: Event): State
    requires Enabled(s, e)
  {
    var t := Written(s, e);
    if IsUserEvent(e) then t
    else if e.Resolve? then t.(logins := s.logins[e.login := Login(e.identity, Begun(e.identity))])
    else t.(logins := s.logins[e.login := s.logins[e.login].(phase := PhaseAfter(s, e, s.logins[e.login]))])
  }

  ghost predicate IsRun(s: State, run: seq<Event>)
    decreases |run|
  {
    run != [] ==> Enabled(s, run[0]) && IsRun(Apply(s, run[0]), run[1..])
  }

  ghost function After(s: State, run: seq<Event>): State
    requires IsRun(s, run)
    decreases |run|
  {
    if run == [] then s else After(Apply(s, run[0]), run[1..])
  }

  /** The login has read a mapping row and has not done with it. */
  predicate Holds(login: Login, key: Key) { login.Key() == key && (login.phase.Checking? || login.phase.Dropping?) }

  /** No login deletes a mapping while another login of the same identity is acting on one it has read. */
  ghost predicate Calm(s: State, e: Event)
    requires Enabled(s, e)
  {
    e.DropMapping? ==> forall d :: d in s.logins && d != e.login ==> !Holds(s.logins[d], s.logins[e.login].Key())
  }

  /** Logins that clear a dangling mapping have it to themselves. */
  ghost predicate IsCalm(s: State, run: seq<Event>)
    requires IsRun(s, run)
    decreases |run|
  {
    run != [] ==> Calm(s, run[0]) && IsCalm(Apply(s, run[0]), run[1..])
  }
}
