/** What any history of identity edits, logins and grants leaves of an accepted session. */
module IdentityRuns {
  import opened Wrappers
  import opened Selection
  import opened Identity
  import opened Versioned

  datatype Step =
    | CreateOperator(created: UserId, code: Code, name: string, roleIds: seq<RoleId>)
    | Rename(renamed: UserId, newName: string)
    | ChangeStatus(operator: UserId, active: bool)
    | AssignRoles(member: UserId, newRoles: seq<RoleId>)
    | CreateRole(role: RoleId, roleCode: Code, roleName: string, codes: seq<Permission>)
    | UpdatePermissions(updated: RoleId, newCodes: seq<Permission>)
    | ChangeRoleStatus(switched: RoleId, on: bool)
    | ReplaceCredential(owner: UserId, pin: int)
    | ExpireCredential(holder: UserId)
    | AuthorizeEnrollment(id: int, ticket: Ticket)
    | ConsumeEnrollment(secret: Token, newPin: int, node: NodeId, terminal: TerminalId, newUser: UserId)
    | ApplyGrant(granted: UserId, grant: Grant)
    | Provision(admin: UserId, adminRole: RoleId, adminCode: Code, adminName: string, adminPin: int,
                all: seq<Permission>)
    | LogIn(attempt: Attempt)
    | Verify(token: Token)
    | Revoke(revoked: Token)
    | Purge(threshold: Instant)
    | PurgeTickets(before: Instant)

  function Edited(t: Tables, step: Step, now: Instant): Tables {
    match step
    case CreateOperator(u, code, name, roleIds) => CreatedOperator(t, u, code, name, roleIds).1
    case Rename(u, name) => RenamedOperator(t, u, name).1
    case ChangeStatus(u, active) => StatusChanged(t, u, active).1
    case AssignRoles(u, roleIds) => RolesAssigned(t, u, roleIds).1
    case CreateRole(r, code, name, codes) => CreatedRole(t, r, code, name, codes).1
    case UpdatePermissions(r, codes) => PermissionsUpdated(t, r, codes).1
    case ChangeRoleStatus(r, active) => RoleStatusChanged(t, r, active).1
    case ReplaceCredential(u, pin) => CredentialReplaced(t, u, pin).1
    case ExpireCredential(u) => CredentialExpired(t, u).1
    case AuthorizeEnrollment(id, ticket) => EnrollmentAuthorized(t, id, ticket, now)
    case ConsumeEnrollment(token, pin, node, terminal, newUser) =>
      EnrollmentConsumed(t, token, pin, node, terminal, newUser, now).1
    case ApplyGrant(g, grant) => GrantApplied(t, g, grant)
    case Provision(u, r, code, name, pin, codes) => Provisioned(t, u, r, code, name, pin, codes).1
    case LogIn(a) => AttemptTables(t, a, now)
    case Verify(token) => VerifiedTables(t, token, now)
    case Revoke(token) => Revoked(t, token, now)
    case Purge(threshold) => SessionsPurged(t, threshold)
    case PurgeTickets(before) => TicketsPurged(t, before)
  }

  /** What a login established: the local permissions then, and what the principal carried. */
  datatype Record = Record(governed: bool, local: set<Permission>, carried: set<Permission>)

  datatype Books = Books(t: Tables, atLogin: map<Token, Record>)

  function Next(b: Books, step: Step, now: Instant): Books {
    var t' := Edited(b.t, step, now);
    if step.LogIn? && Opens(b.t, step.attempt, now) then
      var a := step.attempt;
      Books(t', b.atLogin[a.issue.value.0 :=
        Record(GrantOfUser(b.t, a.userId).Some?, LocalPermissions(b.t, a.userId),
               Effective(t', a.userId, now))])
    else b.(t := t')
  }

  function Run(b: Books, steps: seq<(Step, Instant)>): Books
    decreases |steps|
  {
    if steps == [] then b else Run(Next(b, steps[0].0, steps[0].1), steps[1..])
  }

  // ---------- references and versions ----------

  /** The foreign keys, and every grant in its insertion order. */
  ghost predicate Keyed(t: Tables) {
    && (forall x :: x in t.memberships ==> x.owner in t.users && x.item in t.roles)
    && (forall x :: x in t.allowed ==> x.owner in t.roles && x.item in t.permissions)
    && (forall s :: s in t.sessions ==> t.sessions[s].userId in t.users)
    && (forall g :: g in t.grants ==> g in t.grantOrder)
  }

  predicate SameAuthority(t: Tables, t': Tables, u: UserId) {
    LocalPermissions(t, u) == LocalPermissions(t', u) && LocalRoles(t, u) == LocalRoles(t', u)
  }

  predicate AsActive(t: Tables, t': Tables, u: UserId) {
    u in t.users && u in t'.users && t.users[u].active == t'.users[u].active
  }

  /** Versions never fall, and an operator whose version stands may do exactly what it could. */
  ghost predicate Honest(t: Tables, t': Tables) {
    forall u :: u in t.users ==>
      && u in t'.users
      && t.users[u].version <= t'.users[u].version
      && (t.users[u].version == t'.users[u].version ==> SameAuthority(t, t', u) && AsActive(t, t', u))
  }

  lemma SameRolesSameAuthority(t: Tables, t': Tables, u: UserId)
    requires t'.permissions == t.permissions
    requires forall r :: Bears(t, u, r) <==> Bears(t', u, r)
    requires forall r, p :: Bears(t, u, r) ==> (Link(r, p) in t.allowed <==> Link(r, p) in t'.allowed)
    ensures SameAuthority(t, t', u)
  {
  }

  /** A user row may only change its status together with its version. */
  predicate Raises(user: User, user': User) {
    user.version <= user'.version && (user.version == user'.version ==> user.active == user'.active)
  }

  /** An edit that leaves roles, memberships and permissions alone. */
  lemma SameTablesAreHonest(t: Tables, t': Tables)
    requires t'.roles == t.roles && t'.permissions == t.permissions && t'.memberships == t.memberships
      && t'.allowed == t.allowed
    requires forall u :: u in t.users ==> u in t'.users && Raises(t.users[u], t'.users[u])
    ensures Honest(t, t')
  {
  }

  lemma NewOperatorIsHonest(t: Tables, u: UserId, user: User, roleIds: seq<RoleId>)
    requires Keyed(t) && u !in t.users && forall r :: r in roleIds ==> r in t.roles
    ensures
      var t' := t.(users := t.users[u := user], memberships := Joined(t.memberships, u, roleIds));
      Keyed(t') && Honest(t, t')
  {
  }

  lemma {:induction false} AssignableExist(roles: map<RoleId, Role>, roleIds: seq<RoleId>)
    requires Unassignable(roles, roleIds).None?
    ensures forall r :: r in roleIds ==> r in roles
  {
    if roleIds != [] {
      AssignableExist(roles, roleIds[1..]);
    }
  }

  lemma RolesAssignedIsHonest(t: Tables, u: UserId, roleIds: seq<RoleId>)
    requires Keyed(t)
    ensures Keyed(RolesAssigned(t, u, roleIds).1) && Honest(t, RolesAssigned(t, u, roleIds).1)
  {
    var (outcome, t') := RolesAssigned(t, u, roleIds);
    if outcome.Applied? {
      AssignableExist(t.roles, roleIds);
      forall v | v in t.users && v != u
        ensures SameAuthority(t, t', v)
      {
        SameRolesSameAuthority(t, t', v);
      }
    } else {
      SameTablesAreHonest(t, t);
    }
  }

  lemma CreatedRoleIsHonest(t: Tables, r: RoleId, code: Code, name: string, codes: seq<Permission>)
    requires Keyed(t)
    ensures Keyed(CreatedRole(t, r, code, name, codes).1) && Honest(t, CreatedRole(t, r, code, name, codes).1)
  {
    var (outcome, t') := CreatedRole(t, r, code, name, codes);
    if outcome.Applied? {
      forall u | u in t.users
        ensures SameAuthority(t, t', u)
      {
        assert Link(u, r) !in t.memberships;
        SameRolesSameAuthority(t, t', u);
      }
    } else {
      SameTablesAreHonest(t, t);
    }
  }

  /** An edit of one role that bumps all its bearers. */
  lemma RoleEditIsHonest(t: Tables, t': Tables, r: RoleId)
    requires Keyed(t) && r in t.roles
    requires t'.users == Bumped(t.users, Bearers(t, r)) && t'.permissions == t.permissions
      && t'.memberships == t.memberships
    requires t'.roles.Keys == t.roles.Keys && forall q :: q in t.roles && q != r ==> t'.roles[q] == t.roles[q]
    requires forall x: Link :: x.owner != r ==> (x in t'.allowed <==> x in t.allowed)
    ensures Honest(t, t')
  {
    forall u | u in t.users && u !in Bearers(t, r)
      ensures SameAuthority(t, t', u)
    {
      assert Link(u, r) !in t.memberships;
      SameRolesSameAuthority(t, t', u);
    }
  }

  lemma RoleStatusIsHonest(t: Tables, r: RoleId, active: bool)
    requires Keyed(t)
    ensures Keyed(RoleStatusChanged(t, r, active).1) && Honest(t, RoleStatusChanged(t, r, active).1)
  {
    if r in t.roles {
      RoleEditIsHonest(t, RoleStatusChanged(t, r, active).1, r);
    } else {
      SameTablesAreHonest(t, t);
    }
  }

  lemma PermissionsUpdatedIsHonest(t: Tables, r: RoleId, codes: seq<Permission>)
    requires Keyed(t)
    ensures Keyed(PermissionsUpdated(t, r, codes).1) && Honest(t, PermissionsUpdated(t, r, codes).1)
  {
    if r in t.roles && AllKnown(t.permissions, codes) {
      RoleEditIsHonest(t, PermissionsUpdated(t, r, codes).1, r);
    } else {
      SameTablesAreHonest(t, t);
    }
  }

  lemma EnrolledIsHonest(t: Tables, id: int, operator: Enrollable, u: UserId, pin: int, now: Instant)
    requires Keyed(t) && id in t.tickets && (if operator.userId.None? then u !in t.users else u in t.users)
    ensures Keyed(EnrolledTables(t, id, operator, u, pin, now))
      && Honest(t, EnrolledTables(t, id, operator, u, pin, now))
  {
    SameTablesAreHonest(t, EnrolledTables(t, id, operator, u, pin, now));
  }

  lemma EnrollmentIsHonest(t: Tables, token: Token, pin: int, node: NodeId, terminal: TerminalId, newUser: UserId,
                           now: Instant)
    requires Keyed(t)
    ensures
      var t' := EnrollmentConsumed(t, token, pin, node, terminal, newUser, now).1;
      Keyed(t') && Honest(t, t')
  {
    var (outcome, t') := EnrollmentConsumed(t, token, pin, node, terminal, newUser, now);
    if outcome.Enrolled? {
      var id := TicketOf(t, token).value;
      var operator := EnrollableOperator(t, t.tickets[id].code, now).value;
      assert t' == EnrolledTables(t, id, operator, outcome.userId, pin, now);
      EnrolledIsHonest(t, id, operator, outcome.userId, pin, now);
    } else {
      assert t' == t;
      SameTablesAreHonest(t, t);
    }
  }

  /** Every call raises the version of whoever it changes, and keeps the references. */
  lemma EditIsHonest(t: Tables, step: Step, now: Instant)
    requires Keyed(t)
    ensures Keyed(Edited(t, step, now)) && Honest(t, Edited(t, step, now))
  {
    match step
    case CreateOperator(u, code, name, roleIds) => CreatedOperatorIsHonest(t, u, code, name, roleIds);
    case AssignRoles(u, roleIds) => RolesAssignedIsHonest(t, u, roleIds);
    case CreateRole(r, code, name, codes) => CreatedRoleIsHonest(t, r, code, name, codes);
    case UpdatePermissions(r, codes) => PermissionsUpdatedIsHonest(t, r, codes);
    case ChangeRoleStatus(r, active) => RoleStatusIsHonest(t, r, active);
    case ConsumeEnrollment(token, pin, node, terminal, newUser) =>
      EnrollmentIsHonest(t, token, pin, node, terminal, newUser, now);
    case Provision(u, r, code, name, pin, codes) => ProvisionIsHonest(t, u, r, code, name, pin, codes);
    case _ => PlainEditIsHonest(t, step, now);
  }

  predicate Plain(step: Step) {
    || step.Rename? || step.ChangeStatus? || step.ReplaceCredential? || step.ExpireCredential?
    || step.AuthorizeEnrollment?
    || step.ApplyGrant? || step.LogIn? || step.Verify? || step.Revoke? || step.Purge? || step.PurgeTickets?
  }

  /** What no plain edit touches. */
  ghost predicate Frame(t: Tables, t': Tables) {
    && t'.roles == t.roles && t'.permissions == t.permissions && t'.memberships == t.memberships
    && t'.allowed == t.allowed
    && (forall u :: u in t.users ==> u in t'.users && Raises(t.users[u], t'.users[u]))
    && (forall s :: s in t'.sessions ==> t'.sessions[s].userId in t.users)
    && (forall g :: g in t'.grants ==> g in t'.grantOrder)
  }

  lemma UsersFrame(t: Tables, users: map<UserId, User>, credentials: map<UserId, Credential>)
    requires Keyed(t) && forall u :: u in t.users ==> u in users && Raises(t.users[u], users[u])
    ensures Frame(t, t.(users := users, credentials := credentials))
  {
  }

  lemma SessionsFrame(t: Tables, sessions: map<Token, Session>, lockouts: map<(NodeId, UserId), Lockout>)
    requires Keyed(t) && forall s :: s in sessions ==> sessions[s].userId in t.users
    ensures Frame(t, t.(sessions := sessions, lockouts := lockouts))
  {
  }

  lemma OneUserFrame(t: Tables, u: UserId, user: User)
    requires Keyed(t) && u in t.users && Raises(t.users[u], user)
    ensures Frame(t, t.(users := t.users[u := user])) && Frame(t, t)
  {
  }

  lemma RenameFrame(t: Tables, u: UserId, name: string)
    requires Keyed(t)
    ensures Frame(t, RenamedOperator(t, u, name).1)
  {
    if u in t.users {
      OneUserFrame(t, u, t.users[u].(name := name));
    }
  }

  lemma StatusFrame(t: Tables, u: UserId, active: bool)
    requires Keyed(t)
    ensures Frame(t, StatusChanged(t, u, active).1)
  {
    if u in t.users {
      OneUserFrame(t, u, t.users[u].(active := active, version := t.users[u].version + 1));
    }
  }

  lemma CredentialFrame(t: Tables, u: UserId, pin: int)
    requires Keyed(t)
    ensures Frame(t, CredentialReplaced(t, u, pin).1) && Frame(t, CredentialExpired(t, u).1)
  {
    UsersFrame(t, t.users, CredentialReplaced(t, u, pin).1.credentials);
    UsersFrame(t, CredentialExpired(t, u).1.users, CredentialExpired(t, u).1.credentials);
  }

  lemma LogInFrame(t: Tables, a: Attempt, now: Instant)
    requires Keyed(t)
    ensures Frame(t, AttemptTables(t, a, now))
  {
  }

  lemma PurgesFrame(t: Tables, threshold: Instant)
    requires Keyed(t)
    ensures Frame(t, SessionsPurged(t, threshold)) && Frame(t, TicketsPurged(t, threshold))
  {
  }

  lemma RevokeFrame(t: Tables, token: Token, now: Instant)
    requires Keyed(t)
    ensures Frame(t, Revoked(t, token, now))
  {
  }

  lemma VerifyFrame(t: Tables, token: Token, now: Instant)
    requires Keyed(t)
    ensures Frame(t, VerifiedTables(t, token, now))
  {
    RevokeFrame(t, token, now);
    if Acceptable(t, token, now) {
      SessionsFrame(t, t.sessions[token := Touched(t.sessions[token], now)], t.lockouts);
    } else {
      SessionsFrame(t, t.sessions, t.lockouts);
    }
  }

  lemma TicketFrame(t: Tables, id: int, ticket: Ticket, now: Instant)
    requires Keyed(t)
    ensures Frame(t, EnrollmentAuthorized(t, id, ticket, now))
  {
  }

  lemma GrantsFrame(t: Tables, grants: map<UserId, Grant>, order: seq<UserId>)
    requires Keyed(t) && forall g :: g in grants ==> g in order
    ensures Frame(t, t.(grants := grants, grantOrder := order))
  {
  }

  lemma GrantFrame(t: Tables, g: UserId, grant: Grant)
    requires Keyed(t)
    ensures Frame(t, GrantApplied(t, g, grant))
  {
    if g !in t.grants {
      GrantsFrame(t, t.grants[g := grant], t.grantOrder + [g]);
    } else {
      GrantsFrame(t, if t.grants[g].version < grant.version then t.grants[g := grant] else t.grants, t.grantOrder);
    }
  }

  lemma SessionEditFrame(t: Tables, step: Step, now: Instant)
    requires Keyed(t) && (step.LogIn? || step.Verify? || step.Revoke? || step.Purge? || step.PurgeTickets?)
    ensures Frame(t, Edited(t, step, now))
  {
    match step
    case LogIn(a) => LogInFrame(t, a, now);
    case Verify(token) => VerifyFrame(t, token, now);
    case Revoke(token) => RevokeFrame(t, token, now);
    case Purge(threshold) => PurgesFrame(t, threshold);
    case PurgeTickets(before) => PurgesFrame(t, before);
  }

  lemma PlainEditFrame(t: Tables, step: Step, now: Instant)
    requires Keyed(t) && Plain(step)
    ensures Frame(t, Edited(t, step, now))
  {
    match step
    case Rename(u, name) => RenameFrame(t, u, name);
    case ChangeStatus(u, active) => StatusFrame(t, u, active);
    case ReplaceCredential(u, pin) => CredentialFrame(t, u, pin);
    case ExpireCredential(u) => CredentialFrame(t, u, 0);
    case AuthorizeEnrollment(id, ticket) => TicketFrame(t, id, ticket, now);
    case ApplyGrant(g, grant) => GrantFrame(t, g, grant);
    case _ => SessionEditFrame(t, step, now);
  }

  lemma PlainEditIsHonest(t: Tables, step: Step, now: Instant)
    requires Keyed(t) && Plain(step)
    ensures Keyed(Edited(t, step, now)) && Honest(t, Edited(t, step, now))
  {
    PlainEditFrame(t, step, now);
    FrameIsHonest(t, Edited(t, step, now));
  }

  lemma FrameIsHonest(t: Tables, t': Tables)
    requires Keyed(t) && Frame(t, t')
    ensures Keyed(t') && Honest(t, t')
  {
  }

  lemma ProvisionIsHonest(t: Tables, u: UserId, r: RoleId, code: Code, name: string, pin: int, codes: seq<Permission>)
    requires Keyed(t)
    ensures
      var t' := Provisioned(t, u, r, code, name, pin, codes).1;
      Keyed(t') && Honest(t, t')
  {
  }

  lemma CreatedOperatorIsHonest(t: Tables, u: UserId, code: Code, name: string, roleIds: seq<RoleId>)
    requires Keyed(t)
    ensures
      var t' := CreatedOperator(t, u, code, name, roleIds).1;
      Keyed(t') && Honest(t, t')
  {
    if CreatedOperator(t, u, code, name, roleIds).0.Applied? {
      AssignableExist(t.roles, roleIds);
      NewOperatorIsHonest(t, u, User(code, name, true, 1), roleIds);
    } else {
      SameTablesAreHonest(t, t);
    }
  }

  lemma HonestIsTransitive(a: Tables, b: Tables, c: Tables)
    requires Honest(a, b) && Honest(b, c)
    ensures Honest(a, c)
  {
  }

  /** Over any history, equal versions mean equal authority, and no version falls. */
  lemma {:induction false} HistoryIsHonest(b: Books, steps: seq<(Step, Instant)>)
    requires Keyed(b.t)
    ensures Keyed(Run(b, steps).t) && Honest(b.t, Run(b, steps).t)
    decreases |steps|
  {
    if steps == [] {
      SameTablesAreHonest(b.t, b.t);
    } else {
      var next := Next(b, steps[0].0, steps[0].1);
      EditIsHonest(b.t, steps[0].0, steps[0].1);
      HistoryIsHonest(next, steps[1..]);
      HonestIsTransitive(b.t, next.t, Run(b, steps).t);
    }
  }

  // ---------- what calls leave alone ----------

  /** What only logins, session calls and enrolments write. */
  predicate Spares(t: Tables, t': Tables) {
    t'.tickets == t.tickets && t'.lockouts == t.lockouts && t'.sessions == t.sessions
  }

  /** What no session call writes either. */
  predicate SparesOthers(t: Tables, t': Tables) {
    t'.tickets == t.tickets && t'.lockouts == t.lockouts
  }

  lemma CreationSpares(t: Tables, u: UserId, code: Code, name: string, roleIds: seq<RoleId>)
    ensures Spares(t, CreatedOperator(t, u, code, name, roleIds).1)
  {
  }

  lemma StatusSpares(t: Tables, u: UserId, name: string, active: bool)
    ensures Spares(t, RenamedOperator(t, u, name).1) && Spares(t, StatusChanged(t, u, active).1)
  {
  }

  lemma AssignmentSpares(t: Tables, u: UserId, roleIds: seq<RoleId>)
    ensures Spares(t, RolesAssigned(t, u, roleIds).1)
  {
    if u in t.users && Unassignable(t.roles, roleIds).None? {
      assert Spares(t, t.(memberships := Joined(Without(t.memberships, u), u, roleIds), users := Bumped(t.users, [u])));
    }
  }

  lemma RoleCreationSpares(t: Tables, r: RoleId, code: Code, name: string, codes: seq<Permission>)
    ensures Spares(t, CreatedRole(t, r, code, name, codes).1)
  {
  }

  lemma PermissionsSpare(t: Tables, r: RoleId, codes: seq<Permission>)
    ensures Spares(t, PermissionsUpdated(t, r, codes).1)
  {
  }

  lemma RoleStatusSpares(t: Tables, r: RoleId, active: bool)
    ensures Spares(t, RoleStatusChanged(t, r, active).1)
  {
  }

  lemma CredentialSpares(t: Tables, u: UserId, pin: int)
    ensures Spares(t, CredentialReplaced(t, u, pin).1) && Spares(t, CredentialExpired(t, u).1)
  {
  }

  lemma ProvisionSpares(t: Tables, u: UserId, r: RoleId, code: Code, name: string, pin: int, codes: seq<Permission>)
    ensures Spares(t, Provisioned(t, u, r, code, name, pin, codes).1)
  {
  }

  lemma GrantSpares(t: Tables, g: UserId, grant: Grant)
    ensures Spares(t, GrantApplied(t, g, grant))
  {
  }

  lemma SessionCallSpares(t: Tables, token: Token, threshold: Instant, now: Instant)
    ensures SparesOthers(t, SessionsPurged(t, threshold))
    ensures SparesOthers(t, Revoked(t, token, now)) && SparesOthers(t, VerifiedTables(t, token, now))
  {
    RevokedSpares(t, token, now);
    if token in t.sessions && t.sessions[token].userId in t.users {
      AcceptedSpares(t, token, now);
    }
  }

  lemma RevokedSpares(t: Tables, token: Token, now: Instant)
    ensures SparesOthers(t, Revoked(t, token, now))
  {
  }

  lemma AcceptedSpares(t: Tables, token: Token, now: Instant)
    requires token in t.sessions
    ensures SparesOthers(t, t.(sessions := t.sessions[token := Touched(t.sessions[token], now)]))
  {
  }

  lemma TableEditsSpare(t: Tables, step: Step, now: Instant)
    requires
      || step.CreateOperator? || step.Rename? || step.ChangeStatus? || step.AssignRoles? || step.CreateRole?
      || step.UpdatePermissions? || step.ChangeRoleStatus? || step.Provision?
    ensures Spares(t, Edited(t, step, now))
  {
    match step
    case CreateOperator(u, code, name, roleIds) => CreationSpares(t, u, code, name, roleIds);
    case Rename(u, name) => StatusSpares(t, u, name, true);
    case ChangeStatus(u, active) => StatusSpares(t, u, "", active);
    case AssignRoles(u, roleIds) => AssignmentSpares(t, u, roleIds);
    case CreateRole(r, code, name, codes) => RoleCreationSpares(t, r, code, name, codes);
    case UpdatePermissions(r, codes) => PermissionsSpare(t, r, codes);
    case ChangeRoleStatus(r, active) => RoleStatusSpares(t, r, active);
    case Provision(u, r, code, name, pin, codes) => ProvisionSpares(t, u, r, code, name, pin, codes);
  }

  /** Calls on the operator, role, credential and grant tables. */
  predicate Administers(step: Step) {
    || step.CreateOperator? || step.Rename? || step.ChangeStatus? || step.AssignRoles? || step.CreateRole?
    || step.UpdatePermissions? || step.ChangeRoleStatus? || step.Provision? || step.ReplaceCredential?
    || step.ExpireCredential? || step.ApplyGrant?
  }

  lemma AdministrationSpares(t: Tables, step: Step, now: Instant)
    requires Administers(step)
    ensures Spares(t, Edited(t, step, now))
  {
    match step
    case ReplaceCredential(u, pin) => CredentialSpares(t, u, pin);
    case ExpireCredential(u) => CredentialSpares(t, u, 0);
    case ApplyGrant(g, grant) => GrantSpares(t, g, grant);
    case _ => TableEditsSpare(t, step, now);
  }

  lemma EnrollmentKeeps(t: Tables, step: Step, now: Instant)
    requires step.AuthorizeEnrollment? || step.ConsumeEnrollment? || step.PurgeTickets?
    ensures Edited(t, step, now).lockouts == t.lockouts && Edited(t, step, now).sessions == t.sessions
  {
  }

  lemma OthersSpare(t: Tables, step: Step, now: Instant)
    requires !step.AuthorizeEnrollment? && !step.ConsumeEnrollment? && !step.PurgeTickets? && !step.LogIn?
    ensures SparesOthers(t, Edited(t, step, now))
  {
    match step
    case Verify(token) => SessionCallSpares(t, token, 0, now);
    case Revoke(token) => SessionCallSpares(t, token, 0, now);
    case Purge(threshold) => SessionCallSpares(t, 0, threshold, now);
    case _ => AdministrationSpares(t, step, now);
  }

  // ---------- sessions ----------

  /** While the version it was issued with stands, a session's operator may do what it could at login. */
  ghost predicate Faithful(b: Books) {
    forall s :: s in b.t.sessions ==>
      && s in b.atLogin
      && b.t.sessions[s].userId in b.t.users
      && b.t.sessions[s].version <= b.t.users[b.t.sessions[s].userId].version
      && (b.t.sessions[s].version == b.t.users[b.t.sessions[s].userId].version ==>
            b.atLogin[s].local == LocalPermissions(b.t, b.t.sessions[s].userId))
      && (!b.atLogin[s].governed ==> b.atLogin[s].carried == b.atLogin[s].local)
  }

  /** Every session but one just issued was there, with the same operator and version. */
  ghost predicate Descends(t: Tables, t': Tables, issued: set<Token>) {
    forall s :: s in t'.sessions && s !in issued ==>
      s in t.sessions && t'.sessions[s].userId == t.sessions[s].userId
        && t'.sessions[s].version == t.sessions[s].version
  }

  function OpenedBy(t: Tables, step: Step, now: Instant): set<Token> {
    if step.LogIn? && Opens(t, step.attempt, now) then {step.attempt.issue.value.0} else {}
  }

  lemma SessionsUntouched(t: Tables, step: Step, now: Instant)
    requires !step.LogIn? && !step.Verify? && !step.Revoke? && !step.Purge?
    ensures Edited(t, step, now).sessions == t.sessions
  {
    if step.AuthorizeEnrollment? || step.ConsumeEnrollment? || step.PurgeTickets? {
      EnrollmentKeeps(t, step, now);
    } else {
      AdministrationSpares(t, step, now);
    }
  }

  lemma TouchDescends(t: Tables, token: Token, now: Instant)
    ensures Descends(t, VerifiedTables(t, token, now), {})
  {
  }

  lemma LogInDescends(t: Tables, a: Attempt, now: Instant)
    ensures Descends(t, AttemptTables(t, a, now), OpenedBy(t, LogIn(a), now))
  {
  }

  lemma RevocationDescends(t: Tables, token: Token, threshold: Instant, now: Instant)
    ensures Descends(t, Revoked(t, token, now), {}) && Descends(t, SessionsPurged(t, threshold), {})
  {
  }

  lemma SessionsDescend(t: Tables, step: Step, now: Instant)
    ensures Descends(t, Edited(t, step, now), OpenedBy(t, step, now))
  {
    if step.Verify? {
      TouchDescends(t, step.token, now);
    } else if step.LogIn? {
      LogInDescends(t, step.attempt, now);
    } else if step.Revoke? {
      RevocationDescends(t, step.revoked, 0, now);
    } else if step.Purge? {
      RevocationDescends(t, 0, step.threshold, now);
    } else {
      SessionsUntouched(t, step, now);
    }
  }

  lemma StaysFaithful(b: Books, b': Books, issued: set<Token>)
    requires Faithful(b) && Honest(b.t, b'.t) && Descends(b.t, b'.t, issued)
    requires forall s :: s in b.atLogin && s !in issued ==> s in b'.atLogin && b'.atLogin[s] == b.atLogin[s]
    requires forall s :: s in issued && s in b'.t.sessions ==>
      && s in b'.atLogin && b'.t.sessions[s].userId in b'.t.users
      && b'.t.sessions[s].version == b'.t.users[b'.t.sessions[s].userId].version
      && b'.atLogin[s].local == LocalPermissions(b'.t, b'.t.sessions[s].userId)
      && (!b'.atLogin[s].governed ==> b'.atLogin[s].carried == b'.atLogin[s].local)
    ensures Faithful(b')
  {
  }

  lemma SameGrants(t: Tables, t': Tables, u: UserId)
    requires t'.users == t.users && t'.grants == t.grants && t'.grantOrder == t.grantOrder
    ensures GrantOfUser(t', u) == GrantOfUser(t, u)
  {
  }

  lemma LogInRecord(b: Books, a: Attempt, now: Instant)
    requires Keyed(b.t) && Opens(b.t, a, now)
    ensures
      var t', record := AttemptTables(b.t, a, now), Next(b, LogIn(a), now).atLogin[a.issue.value.0];
      && t'.sessions[a.issue.value.0].version == t'.users[a.userId].version
      && record.local == LocalPermissions(t', a.userId)
      && (!record.governed ==> record.carried == record.local)
  {
    var t' := AttemptTables(b.t, a, now);
    SameGrants(b.t, t', a.userId);
    SameRolesSameAuthority(b.t, t', a.userId);
  }

  lemma LogInStaysFaithful(b: Books, a: Attempt, now: Instant)
    requires Keyed(b.t) && Faithful(b) && Opens(b.t, a, now)
    ensures Faithful(Next(b, LogIn(a), now))
  {
    LogInFrame(b.t, a, now);
    FrameIsHonest(b.t, AttemptTables(b.t, a, now));
    LogInRecord(b, a, now);
    StaysFaithful(b, Next(b, LogIn(a), now), {a.issue.value.0});
  }

  lemma NextStaysFaithful(b: Books, step: Step, now: Instant)
    requires Keyed(b.t) && Faithful(b)
    ensures Keyed(Next(b, step, now).t) && Faithful(Next(b, step, now))
  {
    EditIsHonest(b.t, step, now);
    if step.LogIn? && Opens(b.t, step.attempt, now) {
      LogInStaysFaithful(b, step.attempt, now);
    } else {
      SessionsDescend(b.t, step, now);
      StaysFaithful(b, Next(b, step, now), {});
    }
  }

  /** A node whose rows are whatever its migrations and earlier calls left, before any session. */
  ghost predicate Fresh(b: Books) {
    Keyed(b.t) && b.t.sessions == map[]
  }

  lemma {:induction false} RunStaysFaithful(b: Books, steps: seq<(Step, Instant)>)
    requires Keyed(b.t) && Faithful(b)
    ensures Keyed(Run(b, steps).t) && Faithful(Run(b, steps))
    decreases |steps|
  {
    if steps != [] {
      NextStaysFaithful(b, steps[0].0, steps[0].1);
      RunStaysFaithful(Next(b, steps[0].0, steps[0].1), steps[1..]);
    }
  }

  // ---------- what an accepted session may do ----------

  lemma TouchKeepsAuthority(t: Tables, token: Token, now: Instant)
    requires Acceptable(t, token, now)
    ensures
      var t', u := VerifiedTables(t, token, now), t.sessions[token].userId;
      && GrantOfUser(t', u) == GrantOfUser(t, u)
      && LocalPermissions(t', u) == LocalPermissions(t, u)
      && (GrantOfUser(t, u).Some? ==> Usable(t', GrantOfUser(t, u).value, now))
  {
  }

  /**
   * In every history of any node, an accepted session's operator has exactly the local permissions it had at
   * login; so the principal carries what it carried then exactly when no grant governs the
   * operator now, or the grant says the same.
   */
  lemma AcceptedMeansUnchanged(start: Books, steps: seq<(Step, Instant)>, token: Token, now: Instant)
    requires Fresh(start) && Acceptable(Run(start, steps).t, token, now)
    ensures
      var b := Run(start, steps);
      var u := b.t.sessions[token].userId;
      var accepted := Verified(b.t, token, now).0;
      && token in b.atLogin && accepted.Some?
      && b.atLogin[token].local == LocalPermissions(b.t, u)
      && (!b.atLogin[token].governed ==>
            (accepted.value.permissions == b.atLogin[token].carried
             <==> GrantOfUser(b.t, u).None? || GrantOfUser(b.t, u).value.permissions == LocalPermissions(b.t, u)))
  {
    var b := Run(start, steps);
    RunStaysFaithful(start, steps);
    TouchKeepsAuthority(b.t, token, now);
  }

  /** The principal of an accepted session lists exactly the permissions that authorize its actor. */
  lemma PrincipalIsAuthority(t: Tables, token: Token, now: Instant, p: Permission)
    requires Acceptable(t, token, now)
    ensures
      var (accepted, t') := Verified(t, token, now);
      accepted.Some? && (p in accepted.value.permissions <==> HasPermission(t', accepted.value.actor, p, now))
  {
  }

  // ---------- who an edit affects ----------

  /** The operators an edit reports as affected, or whose credential it renews or expires. */
  function Affected(t: Tables, step: Step, now: Instant): seq<UserId> {
    match step
    case CreateOperator(u, code, name, roleIds) => Reported(CreatedOperator(t, u, code, name, roleIds).0)
    case Rename(u, name) => Reported(RenamedOperator(t, u, name).0)
    case ChangeStatus(u, active) => Reported(StatusChanged(t, u, active).0)
    case AssignRoles(u, roleIds) => Reported(RolesAssigned(t, u, roleIds).0)
    case CreateRole(r, code, name, codes) => Reported(CreatedRole(t, r, code, name, codes).0)
    case UpdatePermissions(r, codes) => Reported(PermissionsUpdated(t, r, codes).0)
    case ChangeRoleStatus(r, active) => Reported(RoleStatusChanged(t, r, active).0)
    case ExpireCredential(u) => if u in t.credentials then [u] else []
    case ConsumeEnrollment(token, _, node, terminal, newUser) => Renewed(Judged(t, token, node, terminal, newUser, now))
    case _ => []
  }

  function Reported(outcome: Outcome): seq<UserId> {
    if outcome.Applied? then outcome.affected else []
  }

  function Renewed(outcome: Consumption): seq<UserId> {
    if outcome.Enrolled? then [outcome.userId] else []
  }

  predicate Advances(t: Tables, t': Tables, affected: seq<UserId>, u: UserId)
    requires u in t.users
  {
    u in t'.users && (t.users[u].version < t'.users[u].version <==> u in affected)
  }

  lemma CreationAdvances(t: Tables, v: UserId, code: Code, name: string, roleIds: seq<RoleId>, u: UserId)
    requires u in t.users
    ensures Advances(t, CreatedOperator(t, v, code, name, roleIds).1,
                     Reported(CreatedOperator(t, v, code, name, roleIds).0), u)
  {
  }

  lemma AssignmentAdvances(t: Tables, v: UserId, roleIds: seq<RoleId>, u: UserId)
    requires u in t.users
    ensures Advances(t, RolesAssigned(t, v, roleIds).1, Reported(RolesAssigned(t, v, roleIds).0), u)
  {
  }

  lemma StatusAdvances(t: Tables, v: UserId, active: bool, u: UserId)
    requires u in t.users
    ensures Advances(t, StatusChanged(t, v, active).1, Reported(StatusChanged(t, v, active).0), u)
  {
  }

  lemma RenameAdvances(t: Tables, v: UserId, name: string, u: UserId)
    requires u in t.users
    ensures Advances(t, RenamedOperator(t, v, name).1, Reported(RenamedOperator(t, v, name).0), u)
  {
  }

  lemma RoleCreationAdvances(t: Tables, r: RoleId, code: Code, name: string, codes: seq<Permission>, u: UserId)
    requires u in t.users
    ensures Advances(t, CreatedRole(t, r, code, name, codes).1, Reported(CreatedRole(t, r, code, name, codes).0), u)
  {
  }

  lemma RoleEditsAdvance(t: Tables, r: RoleId, codes: seq<Permission>, active: bool, u: UserId)
    requires u in t.users
    ensures Advances(t, PermissionsUpdated(t, r, codes).1, Reported(PermissionsUpdated(t, r, codes).0), u)
    ensures Advances(t, RoleStatusChanged(t, r, active).1, Reported(RoleStatusChanged(t, r, active).0), u)
  {
  }

  lemma EnrollmentAdvances(t: Tables, token: Token, pin: int, node: NodeId, terminal: TerminalId, newUser: UserId,
                           now: Instant, u: UserId)
    requires u in t.users
    ensures Advances(t, EnrollmentConsumed(t, token, pin, node, terminal, newUser, now).1,
                     Renewed(Judged(t, token, node, terminal, newUser, now)), u)
  {
  }

  lemma LogInAdvances(t: Tables, a: Attempt, now: Instant, u: UserId)
    requires u in t.users
    ensures Advances(t, AttemptTables(t, a, now), [], u)
  {
  }

  lemma VerifyAdvances(t: Tables, token: Token, now: Instant, u: UserId)
    requires u in t.users
    ensures Advances(t, VerifiedTables(t, token, now), [], u)
  {
  }

  lemma CredentialAdvances(t: Tables, step: Step, now: Instant, u: UserId)
    requires u in t.users && (step.ReplaceCredential? || step.ExpireCredential?)
    ensures Advances(t, Edited(t, step, now), Affected(t, step, now), u)
  {
  }

  /** Calls that write no operator, but for the first one of a node that has none. */
  lemma OthersAdvance(t: Tables, step: Step, now: Instant, u: UserId)
    requires u in t.users
    requires
      || step.AuthorizeEnrollment? || step.ApplyGrant? || step.Provision? || step.Revoke? || step.Purge?
      || step.PurgeTickets?
    ensures Advances(t, Edited(t, step, now), Affected(t, step, now), u)
  {
  }

  lemma OperatorAdvances(t: Tables, step: Step, now: Instant, u: UserId)
    requires u in t.users && (step.CreateOperator? || step.Rename? || step.ChangeStatus? || step.AssignRoles?)
    ensures Advances(t, Edited(t, step, now), Affected(t, step, now), u)
  {
    match step
    case CreateOperator(v, code, name, roleIds) => CreationAdvances(t, v, code, name, roleIds, u);
    case Rename(v, name) => RenameAdvances(t, v, name, u);
    case ChangeStatus(v, active) => StatusAdvances(t, v, active, u);
    case AssignRoles(v, roleIds) => AssignmentAdvances(t, v, roleIds, u);
  }

  lemma RoleAdvances(t: Tables, step: Step, now: Instant, u: UserId)
    requires u in t.users && (step.CreateRole? || step.UpdatePermissions? || step.ChangeRoleStatus?)
    ensures Advances(t, Edited(t, step, now), Affected(t, step, now), u)
  {
    match step
    case CreateRole(r, code, name, codes) => RoleCreationAdvances(t, r, code, name, codes, u);
    case UpdatePermissions(r, codes) => RoleEditsAdvance(t, r, codes, true, u);
    case ChangeRoleStatus(r, active) => RoleEditsAdvance(t, r, [], active, u);
  }

  /** Of the operators there were, exactly the affected ones advance their version. */
  lemma AffectedIff(t: Tables, step: Step, now: Instant, u: UserId)
    requires u in t.users
    ensures Advances(t, Edited(t, step, now), Affected(t, step, now), u)
  {
    if step.CreateOperator? || step.Rename? || step.ChangeStatus? || step.AssignRoles? {
      OperatorAdvances(t, step, now, u);
    } else if step.CreateRole? || step.UpdatePermissions? || step.ChangeRoleStatus? {
      RoleAdvances(t, step, now, u);
    } else if step.ConsumeEnrollment? {
      EnrollmentAdvances(t, step.secret, step.newPin, step.node, step.terminal, step.newUser, now, u);
    } else if step.LogIn? {
      LogInAdvances(t, step.attempt, now, u);
    } else if step.Verify? {
      VerifyAdvances(t, step.token, now, u);
    } else if step.ReplaceCredential? || step.ExpireCredential? {
      CredentialAdvances(t, step, now, u);
    } else {
      OthersAdvance(t, step, now, u);
    }
  }

  /** Once an edit affects an operator, no session it had is accepted again, whatever comes later. */
  lemma AffectedSessionsEnd(start: Books, steps: seq<(Step, Instant)>, step: Step, now: Instant,
                            later: seq<(Step, Instant)>, token: Token, at: Instant)
    requires Fresh(start)
    requires
      var t := Run(start, steps).t;
      token in t.sessions && t.sessions[token].userId in Affected(t, step, now)
    requires
      var t, t' := Run(start, steps).t, Run(Next(Run(start, steps), step, now), later).t;
      token in t'.sessions && SameSession(t.sessions[token], t'.sessions[token])
    ensures !Acceptable(Run(Next(Run(start, steps), step, now), later).t, token, at)
  {
    RunStaysFaithful(start, steps);
    OutdatedStaysRefused(Run(start, steps), step, now, later, Run(start, steps).t.sessions[token].userId);
  }

  predicate SameSession(s: Session, s': Session) {
    s'.userId == s.userId && s'.version == s.version
  }

  lemma OutdatedStaysRefused(b: Books, step: Step, now: Instant, later: seq<(Step, Instant)>, u: UserId)
    requires Keyed(b.t) && u in b.t.users && u in Affected(b.t, step, now)
    ensures u in Run(Next(b, step, now), later).t.users
    ensures b.t.users[u].version < Run(Next(b, step, now), later).t.users[u].version
  {
    AffectedIff(b.t, step, now, u);
    EditIsHonest(b.t, step, now);
    HistoryIsHonest(Next(b, step, now), later);
  }

  // ---------- enrolment tickets ----------

  type Tickets = map<int, Ticket>

  predicate Live(m: Tickets, i: int) {
    i in m && m[i].consumedAt.None?
  }

  /** One row for each token, and at most one live ticket for each operator code. */
  ghost predicate TicketsSound(m: Tickets) {
    && (forall i, j :: i in m && j in m && m[i].tokenHash == m[j].tokenHash ==> i == j)
    && (forall i, j :: Live(m, i) && Live(m, j) && m[i].code == m[j].code ==> i == j)
  }

  /** No ticket disappears, changes its token or comes back to life. */
  ghost predicate TicketsAge(m: Tickets, m': Tickets) {
    forall i :: i in m ==>
      && i in m' && m'[i].tokenHash == m[i].tokenHash
      && (m[i].consumedAt.Some? ==> m'[i] == m[i])
  }

  predicate Spent(m: Tickets, id: int, token: Token) {
    id in m && m[id].tokenHash == token && m[id].consumedAt.Some?
  }

  lemma LogInKeepsTickets(t: Tables, a: Attempt, now: Instant)
    ensures AttemptTables(t, a, now).tickets == t.tickets
  {
  }

  lemma AuthorizationKeeps(m: Tickets, id: int, ticket: Ticket, at: Instant)
    requires TicketsSound(m)
    ensures TicketsSound(TicketAuthorized(m, id, ticket, at)) && TicketsAge(m, TicketAuthorized(m, id, ticket, at))
  {
  }

  lemma AgeTransitive(a: Tickets, b: Tickets, c: Tickets)
    requires TicketsAge(a, b) && TicketsAge(b, c)
    ensures TicketsAge(a, c)
  {
  }

  lemma SpendingKeeps(m: Tickets, id: int, now: Instant)
    requires TicketsSound(m) && id in m && m[id].consumedAt.None?
    ensures
      var m' := m[id := m[id].(consumedAt := Some(now))];
      TicketsSound(m') && TicketsAge(m, m') && Spent(m', id, m[id].tokenHash)
  {
  }

  /** What a consumption does to the tickets: nothing, or it spends the one that was presented. */
  lemma ConsumptionSpends(t: Tables, token: Token, pin: int, node: NodeId, terminal: TerminalId, newUser: UserId,
                          now: Instant)
    ensures
      var (outcome, t') := EnrollmentConsumed(t, token, pin, node, terminal, newUser, now);
      var id := TicketOf(t, token);
      if outcome.Enrolled?
      then id.Some? && Live(t.tickets, id.value)
           && t'.tickets == t.tickets[id.value := t.tickets[id.value].(consumedAt := Some(now))]
      else t'.tickets == t.tickets
  {
  }

  lemma ConsumptionKeeps(t: Tables, token: Token, pin: int, node: NodeId, terminal: TerminalId, newUser: UserId,
                         now: Instant)
    requires TicketsSound(t.tickets)
    ensures
      var m' := EnrollmentConsumed(t, token, pin, node, terminal, newUser, now).1.tickets;
      TicketsSound(m') && TicketsAge(t.tickets, m')
  {
    ConsumptionSpends(t, token, pin, node, terminal, newUser, now);
    if EnrollmentConsumed(t, token, pin, node, terminal, newUser, now).0.Enrolled? {
      SpendingKeeps(t.tickets, TicketOf(t, token).value, now);
    }
  }

  /** Every call keeps the tickets sound, and only a purge drops any. */
  lemma TicketsKept(t: Tables, step: Step, now: Instant)
    requires TicketsSound(t.tickets)
    ensures TicketsSound(Edited(t, step, now).tickets)
    ensures !step.PurgeTickets? ==> TicketsAge(t.tickets, Edited(t, step, now).tickets)
  {
    match step
    case AuthorizeEnrollment(id, ticket) => AuthorizationKeeps(t.tickets, id, ticket, now);
    case ConsumeEnrollment(token, pin, node, terminal, newUser) =>
      ConsumptionKeeps(t, token, pin, node, terminal, newUser, now);
    case LogIn(a) => LogInKeepsTickets(t, a, now);
    case PurgeTickets(_) =>
    case _ => OthersSpare(t, step, now);
  }

  lemma {:induction false} TicketsKeptByRuns(b: Books, steps: seq<(Step, Instant)>)
    requires TicketsSound(b.t.tickets)
    ensures TicketsSound(Run(b, steps).t.tickets)
    ensures (forall i :: 0 <= i < |steps| ==> !steps[i].0.PurgeTickets?) ==>
      TicketsAge(b.t.tickets, Run(b, steps).t.tickets)
    decreases |steps|
  {
    if steps != [] {
      var next := Next(b, steps[0].0, steps[0].1);
      TicketsKept(b.t, steps[0].0, steps[0].1);
      TicketsKeptByRuns(next, steps[1..]);
      if forall i :: 0 <= i < |steps| ==> !steps[i].0.PurgeTickets? {
        assert forall i :: 0 <= i < |steps[1..]| ==> steps[1..][i] == steps[i + 1];
        AgeTransitive(b.t.tickets, next.t.tickets, Run(b, steps).t.tickets);
      }
    }
  }

  lemma EnrollingSpends(t: Tables, step: Step, now: Instant)
    requires TicketsSound(t.tickets) && step.ConsumeEnrollment?
    requires Judged(t, step.secret, step.node, step.terminal, step.newUser, now).Enrolled?
    ensures TicketOf(t, step.secret).Some?
      && Spent(Edited(t, step, now).tickets, TicketOf(t, step.secret).value, step.secret)
  {
    ConsumptionSpends(t, step.secret, step.newPin, step.node, step.terminal, step.newUser, now);
  }

  /** No row that has the token is live. */
  ghost predicate Dead(m: Tickets, token: Token) {
    forall i :: i in m && m[i].tokenHash == token ==> m[i].consumedAt.Some?
  }

  /** The call issues the token again, which the unique column allows only once its row was purged. */
  predicate Reissues(t: Tables, step: Step, token: Token) {
    step.AuthorizeEnrollment? && step.ticket.tokenHash == token && !TokenInUse(t.tickets, token)
  }

  predicate NeverReissued(b: Books, steps: seq<(Step, Instant)>, token: Token)
    decreases |steps|
  {
    steps == [] ||
    (!Reissues(b.t, steps[0].0, token) && NeverReissued(Next(b, steps[0].0, steps[0].1), steps[1..], token))
  }

  lemma AuthorizationKeepsDead(m: Tickets, id: int, ticket: Ticket, at: Instant, token: Token)
    requires Dead(m, token) && !(ticket.tokenHash == token && !TokenInUse(m, token))
    ensures Dead(TicketAuthorized(m, id, ticket, at), token)
  {
  }

  lemma ConsumptionKeepsDead(t: Tables, step: Step, now: Instant, token: Token)
    requires step.ConsumeEnrollment? && Dead(t.tickets, token)
    ensures Dead(Edited(t, step, now).tickets, token)
  {
    ConsumptionSpends(t, step.secret, step.newPin, step.node, step.terminal, step.newUser, now);
  }

  lemma StaysDead(t: Tables, step: Step, now: Instant, token: Token)
    requires Dead(t.tickets, token) && !Reissues(t, step, token)
    ensures Dead(Edited(t, step, now).tickets, token)
  {
    match step
    case AuthorizeEnrollment(id, ticket) => AuthorizationKeepsDead(t.tickets, id, ticket, now, token);
    case ConsumeEnrollment(_, _, _, _, _) => ConsumptionKeepsDead(t, step, now, token);
    case LogIn(a) => LogInKeepsTickets(t, a, now);
    case PurgeTickets(_) =>
    case _ => OthersSpare(t, step, now);
  }

  lemma {:induction false} RunStaysDead(b: Books, steps: seq<(Step, Instant)>, token: Token)
    requires Dead(b.t.tickets, token) && NeverReissued(b, steps, token)
    ensures Dead(Run(b, steps).t.tickets, token)
    decreases |steps|
  {
    if steps != [] {
      StaysDead(b.t, steps[0].0, steps[0].1, token);
      RunStaysDead(Next(b, steps[0].0, steps[0].1), steps[1..], token);
    }
  }

  lemma SpentIsDead(m: Tickets, id: int, token: Token)
    requires TicketsSound(m) && Spent(m, id, token)
    ensures Dead(m, token)
  {
  }

  /** A token without a live row is refused: as consumed while its row stands, and not found after a purge. */
  lemma DeadIsRefused(t: Tables, again: Step, at: Instant)
    requires again.ConsumeEnrollment? && Dead(t.tickets, again.secret)
    ensures EnrollmentConsumed(t, again.secret, again.newPin, again.node, again.terminal, again.newUser, at)
      == (if TokenInUse(t.tickets, again.secret) then Consumed else Identity.NotFound, t)
  {
  }

  /**
   * A ticket enrols once: whatever comes later, purges included, its token is refused and changes
   * nothing, unless the same token is issued again after its row was purged.
   */
  lemma TicketEnrolsOnce(start: Books, steps: seq<(Step, Instant)>, first: Step, now: Instant,
                         later: seq<(Step, Instant)>, again: Step, at: Instant)
    requires TicketsSound(start.t.tickets)
    requires first.ConsumeEnrollment? && again.ConsumeEnrollment? && again.secret == first.secret
    requires Judged(Run(start, steps).t, first.secret, first.node, first.terminal, first.newUser, now).Enrolled?
    requires NeverReissued(Next(Run(start, steps), first, now), later, first.secret)
    ensures
      var t := Run(Next(Run(start, steps), first, now), later).t;
      EnrollmentConsumed(t, again.secret, again.newPin, again.node, again.terminal, again.newUser, at)
        == (if TokenInUse(t.tickets, again.secret) then Consumed else Identity.NotFound, t)
  {
    var before := Run(start, steps);
    TicketsKeptByRuns(start, steps);
    EnrolledIsDead(before, first, now);
    RunStaysDead(Next(before, first, now), later, first.secret);
    DeadIsRefused(Run(Next(before, first, now), later).t, again, at);
  }

  lemma EnrolledIsDead(b: Books, first: Step, now: Instant)
    requires TicketsSound(b.t.tickets) && first.ConsumeEnrollment?
    requires Judged(b.t, first.secret, first.node, first.terminal, first.newUser, now).Enrolled?
    ensures Dead(Next(b, first, now).t.tickets, first.secret)
  {
    TicketsKept(b.t, first, now);
    EnrollingSpends(b.t, first, now);
    SpentIsDead(Next(b, first, now).t.tickets, TicketOf(b.t, first.secret).value, first.secret);
  }

  /** While nothing is purged no token is issued twice: the column is unique. */
  lemma {:induction false} UnpurgedIsNeverReissued(b: Books, steps: seq<(Step, Instant)>, token: Token)
    requires TicketsSound(b.t.tickets) && TokenInUse(b.t.tickets, token)
    requires forall i :: 0 <= i < |steps| ==> !steps[i].0.PurgeTickets?
    ensures NeverReissued(b, steps, token) && TokenInUse(Run(b, steps).t.tickets, token)
    decreases |steps|
  {
    if steps != [] {
      var (step, now) := steps[0];
      TicketsKept(b.t, step, now);
      var i :| i in b.t.tickets && b.t.tickets[i].tokenHash == token;
      assert i in Next(b, step, now).t.tickets;
      UnpurgedIsNeverReissued(Next(b, step, now), steps[1..], token);
    }
  }

  // ---------- lockouts ----------

  type Key = (NodeId, UserId)

  predicate OfKey(a: Attempt, key: Key) {
    a.node == key.0 && a.userId == key.1
  }

  /** The call opens a session for the operator on the node. */
  predicate LogsIn(t: Tables, step: Step, now: Instant, key: Key) {
    step.LogIn? && OfKey(step.attempt, key) && Opens(t, step.attempt, now)
  }

  /** The call is a wrong PIN that counts against the operator on the node. */
  predicate Fails(t: Tables, step: Step, now: Instant, key: Key) {
    step.LogIn? && OfKey(step.attempt, key) && MayAttempt(t, step.attempt, now) && !step.attempt.pinVerified
  }

  predicate NeverLogsIn(b: Books, steps: seq<(Step, Instant)>, key: Key)
    decreases |steps|
  {
    steps == [] ||
    (!LogsIn(b.t, steps[0].0, steps[0].1, key) && NeverLogsIn(Next(b, steps[0].0, steps[0].1), steps[1..], key))
  }

  /** The instants of the failures that count, in the order of the run. */
  function Failures(b: Books, steps: seq<(Step, Instant)>, key: Key): seq<Instant>
    decreases |steps|
  {
    if steps == [] then []
    else
      (if Fails(b.t, steps[0].0, steps[0].1, key) then [steps[0].1] else [])
      + Failures(Next(b, steps[0].0, steps[0].1), steps[1..], key)
  }

  predicate WithinWindow(times: seq<Instant>) {
    forall i :: 0 <= i < |times| ==> 0 <= times[i] - times[0] < FAILURE_WINDOW
  }

  /** A window of failures starts with the first: nothing counts yet, or what did is too old. */
  predicate FreshWindow(t: Tables, key: Key, start: Instant) {
    key in t.lockouts ==> start - t.lockouts[key].windowStart >= FAILURE_WINDOW
  }

  function CountOf(times: seq<Instant>): Lockout
    requires times != []
  {
    Lockout(times[0], |times|, if |times| == MAX_FAILURES then Some(times[|times| - 1] + LOCKOUT) else None)
  }

  /** The lockout row says `past` failures of this window, or when there are none that the next starts one. */
  predicate Counted(t: Tables, key: Key, past: seq<Instant>, next: seq<Instant>) {
    if past == [] then next != [] ==> FreshWindow(t, key, next[0])
    else key in t.lockouts && t.lockouts[key] == CountOf(past)
  }

  predicate SameLockout(t: Tables, t': Tables, key: Key) {
    (key in t'.lockouts <==> key in t.lockouts) && (key in t.lockouts ==> t'.lockouts[key] == t.lockouts[key])
  }

  predicate OneFailureMore(t: Tables, t': Tables, key: Key, now: Instant) {
    && key in t'.lockouts
    && t'.lockouts[key] == AfterFailure(if key in t.lockouts then Some(t.lockouts[key]) else None, now)
  }

  lemma AttemptLockout(t: Tables, a: Attempt, now: Instant, key: Key)
    requires !(OfKey(a, key) && Opens(t, a, now))
    ensures
      var t', failed := AttemptTables(t, a, now), OfKey(a, key) && MayAttempt(t, a, now) && !a.pinVerified;
      && (!failed ==> SameLockout(t, t', key))
      && (failed ==> OneFailureMore(t, t', key, now))
  {
  }

  /** A call that does not log the operator in counts a failure or leaves its lockout row. */
  lemma StepLockout(t: Tables, step: Step, now: Instant, key: Key)
    requires !LogsIn(t, step, now, key)
    ensures
      var t' := Edited(t, step, now);
      if Fails(t, step, now, key)
      then OneFailureMore(t, t', key, now)
      else SameLockout(t, t', key)
  {
    match step
    case LogIn(a) => AttemptLockout(t, a, now, key);
    case AuthorizeEnrollment(_, _) => EnrollmentKeeps(t, step, now);
    case PurgeTickets(_) => EnrollmentKeeps(t, step, now);
    case ConsumeEnrollment(_, _, _, _, _) => EnrollmentKeeps(t, step, now);
    case _ => OthersSpare(t, step, now);
  }

  lemma OneMoreFailure(t: Tables, t': Tables, key: Key, past: seq<Instant>, now: Instant)
    requires |past| < MAX_FAILURES && WithinWindow(past + [now]) && Counted(t, key, past, [now])
    requires OneFailureMore(t, t', key, now)
    ensures t'.lockouts[key] == CountOf(past + [now])
  {
    var all := past + [now];
    assert all[|past|] == now && (past != [] ==> all[0] == past[0]);
  }

  /** Whatever calls come between them, failures of one window add up. */
  lemma {:induction false} FailuresCount(b: Books, steps: seq<(Step, Instant)>, key: Key, past: seq<Instant>)
    requires NeverLogsIn(b, steps, key)
    requires
      var all := past + Failures(b, steps, key);
      |all| <= MAX_FAILURES && WithinWindow(all)
    requires Counted(b.t, key, past, Failures(b, steps, key))
    ensures Counted(Run(b, steps).t, key, past + Failures(b, steps, key), [])
    decreases |steps|
  {
    if steps == [] {
      assert past + [] == past;
    } else {
      var (step, now) := steps[0];
      var next, rest := Next(b, step, now), Failures(Next(b, step, now), steps[1..], key);
      StepLockout(b.t, step, now, key);
      if Fails(b.t, step, now, key) {
        assert past + ([now] + rest) == past + [now] + rest;
        assert WithinWindow(past + [now]) by {
          var all := past + [now] + rest;
          assert forall i :: 0 <= i <= |past| ==> (past + [now])[i] == all[i];
        }
        OneMoreFailure(b.t, next.t, key, past, now);
        FailuresCount(next, steps[1..], key, past + [now]);
      } else {
        assert [] + rest == rest;
        FailuresCount(next, steps[1..], key, past);
      }
    }
  }

  /**
   * After a fifth failure in one window, with any calls between that do not log the operator in on the
   * node, no PIN opens a session there, nor does anything change, until the lockout ends.
   */
  lemma FiveFailuresLockOut(b: Books, steps: seq<(Step, Instant)>, right: Attempt, now: Instant)
    requires
      var key := (right.node, right.userId);
      var times := Failures(b, steps, key);
      && NeverLogsIn(b, steps, key) && |times| == MAX_FAILURES
      && WithinWindow(times) && FreshWindow(b.t, key, times[0]) && now < times[MAX_FAILURES - 1] + LOCKOUT
    ensures Attempted(Run(b, steps).t, right, now) == (Refused, Run(b, steps).t)
  {
    var key := (right.node, right.userId);
    var times := Failures(b, steps, key);
    assert [] + times == times;
    FailuresCount(b, steps, key, []);
    LockedIsRefused(Run(b, steps).t, right, now);
  }

  lemma LockedIsRefused(t: Tables, a: Attempt, now: Instant)
    requires Locked(t, (a.node, a.userId), now)
    ensures Attempted(t, a, now) == (Refused, t)
  {
  }

  // ---------- grants ----------

  function GrantRows(grants: map<UserId, Grant>): map<int, Row<Grant>> {
    map g | g in grants :: Row(grants[g], grants[g].version)
  }

  predicate Consistent(ds: seq<Delivery<Grant>>) {
    forall d :: d in ds ==> d.row.version == d.row.content.version
  }

  function GrantsAfter(ds: seq<Delivery<Grant>>): Tables {
    if ds == [] then EMPTY
    else GrantApplied(GrantsAfter(ds[..|ds| - 1]), ds[|ds| - 1].key, ds[|ds| - 1].row.content)
  }

  lemma {:induction false} GrantsAreUpserts(ds: seq<Delivery<Grant>>)
    requires Consistent(ds)
    ensures GrantRows(GrantsAfter(ds).grants) == Versioned.Applied(ds)
  {
    if ds != [] {
      var rest, last := ds[..|ds| - 1], ds[|ds| - 1];
      assert last in ds && forall d :: d in rest ==> d in ds;
      GrantsAreUpserts(rest);
      OneGrant(GrantsAfter(rest), last);
    }
  }

  lemma OneGrant(t: Tables, d: Delivery<Grant>)
    requires d.row.version == d.row.content.version
    ensures GrantRows(GrantApplied(t, d.key, d.row.content).grants) == Upserted(GrantRows(t.grants), d)
  {
    if d.key !in t.grants || t.grants[d.key].version < d.row.version {
      OneGrantMore(t.grants, d.key, d.row.content);
    }
  }

  lemma OneGrantMore(grants: map<UserId, Grant>, g: UserId, grant: Grant)
    ensures GrantRows(grants[g := grant]) == GrantRows(grants)[g := Row(grant, grant.version)]
  {
  }

  /** Grants converge like every versioned reference. */
  lemma GrantsConverge(ds: seq<Delivery<Grant>>, es: seq<Delivery<Grant>>)
    requires Consistent(ds) && SameFacts(ds, es) && OneContent(ds)
    ensures GrantsAfter(ds).grants == GrantsAfter(es).grants
  {
    GrantsAreUpserts(ds);
    GrantsAreUpserts(es);
    TablesOfSameFacts(ds, es);
    var a, b := GrantsAfter(ds).grants, GrantsAfter(es).grants;
    assert forall g :: (g in a <==> g in GrantRows(a)) && (g in b <==> g in GrantRows(b));
    forall g | g in a
      ensures a[g] == b[g]
    {
      assert GrantRows(a)[g] == GrantRows(b)[g];
    }
    assert a.Keys == b.Keys;
  }
}
