/** The administration and authentication stores over one database: calls that edit the tables in place. */
module IdentityStore {
  import opened Wrappers
  import opened Identity

  class IdentityDatabase {
    var users: map<UserId, User>
    var credentials: map<UserId, Credential>
    var roles: map<RoleId, Role>
    var permissions: map<Permission, bool>
    var memberships: set<Link>
    var allowed: set<Link>
    var sessions: map<Token, Session>
    var lockouts: map<(NodeId, UserId), Lockout>
    var grants: map<UserId, Grant>
    var grantOrder: seq<UserId>
    var tickets: map<int, Ticket>

    function Snapshot(): Tables
      reads this
    {
      Tables(users, credentials, roles, permissions, memberships, allowed, sessions, lockouts, grants, grantOrder,
             tickets)
    }

    constructor ()
      ensures Snapshot() == EMPTY
    {
      users, credentials, roles, permissions := map[], map[], map[], map[];
      memberships, allowed := {}, {};
      sessions, lockouts, tickets := map[], map[], map[];
      grants, grantOrder := map[], [];
    }

    // ---------- administration ----------

    method CreateOperator(u: UserId, code: Code, name: string, roleIds: seq<RoleId>) returns (outcome: Outcome)
      modifies this
      ensures (outcome, Snapshot()) == CreatedOperator(old(Snapshot()), u, code, name, roleIds)
    {
      if CodeInUse(users, code) {
        return CodeTaken;
      }
      var problem := CheckRoles(roles, roleIds);
      if problem.Some? {
        return problem.value;
      }
      if u in users {
        return Conflict;
      }
      users := users[u := User(code, name, true, 1)];
      memberships := InsertPairs(memberships, u, roleIds);
      return Applied([u]);
    }

    method UpdateOperator(u: UserId, name: string) returns (outcome: Outcome)
      modifies this`users
      ensures (outcome, Snapshot()) == RenamedOperator(old(Snapshot()), u, name)
    {
      if u !in users {
        return OperatorNotFound;
      }
      users := users[u := users[u].(name := name)];
      return Applied([]);
    }

    method ChangeOperatorStatus(u: UserId, active: bool) returns (outcome: Outcome)
      modifies this`users
      ensures (outcome, Snapshot()) == StatusChanged(old(Snapshot()), u, active)
    {
      if u !in users {
        return OperatorNotFound;
      }
      users := users[u := users[u].(active := active, version := users[u].version + 1)];
      return Applied([u]);
    }

    method AssignOperatorRoles(u: UserId, roleIds: seq<RoleId>) returns (outcome: Outcome)
      modifies this`users, this`memberships
      ensures (outcome, Snapshot()) == RolesAssigned(old(Snapshot()), u, roleIds)
    {
      if u !in users {
        return OperatorNotFound;
      }
      var problem := CheckRoles(roles, roleIds);
      if problem.Some? {
        return problem.value;
      }
      memberships := InsertPairs(Without(memberships, u), u, roleIds);
      users := BumpAuthorization(users, [u]);
      return Applied([u]);
    }

    method CreateRole(r: RoleId, code: Code, name: string, codes: seq<Permission>) returns (outcome: Outcome)
      modifies this`roles, this`allowed
      ensures (outcome, Snapshot()) == CreatedRole(old(Snapshot()), r, code, name, codes)
    {
      if RoleCodeInUse(roles, code) {
        return RoleCodeTaken;
      }
      var known := CheckPermissions(permissions, codes);
      if !known {
        return PermissionUnknown;
      }
      if r in roles {
        return Conflict;
      }
      roles := roles[r := Role(code, name, true, true)];
      allowed := InsertPairs(allowed, r, codes);
      return Applied([]);
    }

    method UpdateRolePermissions(r: RoleId, codes: seq<Permission>) returns (outcome: Outcome)
      modifies this`users, this`allowed
      ensures (outcome, Snapshot()) == PermissionsUpdated(old(Snapshot()), r, codes)
    {
      if r !in roles {
        return RoleNotFound;
      }
      var known := CheckPermissions(permissions, codes);
      if !known {
        return PermissionUnknown;
      }
      var bearers := Bearers(Snapshot(), r);
      allowed := InsertPairs(Without(allowed, r), r, codes);
      users := BumpAuthorization(users, bearers);
      return Applied(bearers);
    }

    method ChangeRoleStatus(r: RoleId, active: bool) returns (outcome: Outcome)
      modifies this`users, this`roles
      ensures (outcome, Snapshot()) == RoleStatusChanged(old(Snapshot()), r, active)
    {
      var bearers := Bearers(Snapshot(), r);
      if r !in roles {
        return RoleNotFound;
      }
      roles := roles[r := roles[r].(active := active)];
      users := BumpAuthorization(users, bearers);
      return Applied(bearers);
    }

    method ReplaceOwnCredential(u: UserId, pinHash: int) returns (replaced: bool)
      modifies this`credentials
      ensures (replaced, Snapshot()) == CredentialReplaced(old(Snapshot()), u, pinHash)
    {
      replaced := u in credentials;
      if replaced {
        credentials := credentials[u := Credential(pinHash, credentials[u].version + 1, false)];
      }
    }

    method ExpireCredential(u: UserId) returns (expired: bool)
      modifies this`users, this`credentials
      ensures (expired, Snapshot()) == CredentialExpired(old(Snapshot()), u)
    {
      expired := u in credentials;
      if expired {
        credentials := credentials[u := credentials[u].(mustChange := true)];
        users := BumpAuthorization(users, [u]);
      }
    }

    method AuthorizeEnrollment(id: int, ticket: Ticket, at: Instant)
      modifies this`tickets
      ensures Snapshot() == EnrollmentAuthorized(old(Snapshot()), id, ticket, at)
    {
      if id !in tickets && !TokenInUse(tickets, ticket.tokenHash) {
        tickets := AllSuperseded(tickets, ticket.code, at);
        tickets := tickets[id := ticket.(consumedAt := None)];
      }
    }

    method ConsumeEnrollment(token: Token, pinHash: int, node: NodeId, terminal: TerminalId, newUser: UserId,
                             now: Instant)
      returns (outcome: Consumption)
      modifies this
      ensures (outcome, Snapshot()) == EnrollmentConsumed(old(Snapshot()), token, pinHash, node, terminal, newUser, now)
    {
      var id := TicketOf(Snapshot(), token);
      if id.None? {
        return NotFound;
      }
      var ticket := tickets[id.value];
      if ticket.consumedAt.Some? {
        return Consumed;
      }
      if ticket.node != node || ticket.terminal != terminal {
        return NodeMismatch;
      }
      if now >= ticket.expiresAt {
        return Expired;
      }
      var operator := EnrollableOperator(Snapshot(), ticket.code, now);
      if operator.None? {
        return NotEnrollable;
      }
      if operator.value.userId.None? && newUser in users {
        return Collision;
      }
      var u := if operator.value.userId.Some? then operator.value.userId.value else newUser;
      Enroll(id.value, operator.value, u, pinHash, now);
      return Enrolled(u);
    }

    /** Writes the credential, and the operator when only the coordinator knew it, and spends the ticket. */
    method Enroll(id: int, operator: Enrollable, u: UserId, pinHash: int, now: Instant)
      requires id in tickets
      modifies this`users, this`credentials, this`tickets
      ensures Snapshot() == EnrolledTables(old(Snapshot()), id, operator, u, pinHash, now)
    {
      if operator.userId.None? {
        users := users[u := User(operator.code, operator.name, true, 1)];
      }
      var version := 1;
      if u in credentials {
        version := credentials[u].version + 1;
      }
      credentials := credentials[u := Credential(pinHash, version, false)];
      users := BumpAuthorization(users, [u]);
      tickets := tickets[id := tickets[id].(consumedAt := Some(now))];
    }

    method PurgeExpiredSessions(threshold: Instant)
      modifies this`sessions
      ensures Snapshot() == SessionsPurged(old(Snapshot()), threshold)
      ensures forall s :: s in sessions ==> s in old(sessions) && sessions[s] == old(sessions)[s]
      ensures forall s :: s in old(sessions) ==> (s !in sessions <==> old(sessions)[s].absoluteExpiresAt < threshold)
    {
      sessions := map s | s in sessions && sessions[s].absoluteExpiresAt >= threshold :: sessions[s];
    }

    method PurgeConsumedEnrollments(threshold: Instant)
      modifies this`tickets
      ensures Snapshot() == TicketsPurged(old(Snapshot()), threshold)
      ensures forall i :: i in tickets ==> i in old(tickets) && tickets[i] == old(tickets)[i]
      ensures forall i :: i in old(tickets) ==> (i !in tickets <==> Purgeable(old(tickets)[i], threshold))
    {
      tickets := map i | i in tickets && !Purgeable(tickets[i], threshold) :: tickets[i];
    }

    // ---------- authentication ----------

    method CompleteAttempt(a: Attempt, now: Instant) returns (login: Login)
      modifies this`sessions, this`lockouts
      ensures (login, Snapshot()) == Attempted(old(Snapshot()), a, now)
    {
      if a.userId !in users || a.userId !in credentials || !users[a.userId].active
         || credentials[a.userId].version != a.credentialVersion {
        return Refused;
      }
      var key := (a.node, a.userId);
      if Locked(Snapshot(), key, now) {
        return Refused;
      }
      if !a.pinVerified {
        var failed, started := 1, now;
        if key in lockouts && now - lockouts[key].windowStart < FAILURE_WINDOW {
          failed, started := lockouts[key].failed + 1, lockouts[key].windowStart;
        }
        var until := if failed >= MAX_FAILURES then Some(now + LOCKOUT) else None;
        lockouts := lockouts[key := Lockout(started, failed, until)];
        return Refused;
      }
      if a.issue.None? {
        return Refused;
      }
      var (token, idle, absolute) := a.issue.value;
      if token in sessions {
        return TokenCollision;
      }
      lockouts := lockouts[key := Lockout(now, 0, None)];
      sessions := sessions[token :=
        Session(a.userId, a.terminal, a.node, users[a.userId].version, now, idle, absolute, None)];
      return Authenticated(PrincipalOf(Snapshot(), sessions[token], now));
    }

    method VerifyAndTouchSession(token: Token, now: Instant) returns (principal: Option<Principal>)
      modifies this`sessions
      ensures (principal, Snapshot()) == Verified(old(Snapshot()), token, now)
    {
      if token !in sessions || sessions[token].userId !in users {
        return None;
      }
      var s := sessions[token];
      var grant := GrantOfUser(Snapshot(), s.userId);
      var invalid :=
        || s.revokedAt.Some?
        || !users[s.userId].active
        || s.version != users[s.userId].version
        || (grant.Some? && !Usable(Snapshot(), grant.value, now))
        || now >= s.idleExpiresAt
        || now >= s.absoluteExpiresAt;
      if invalid {
        if s.revokedAt.None? {
          sessions := sessions[token := s.(revokedAt := Some(now))];
        }
        return None;
      }
      var idle := now + IDLE_SESSION;
      if s.absoluteExpiresAt <= idle {
        idle := s.absoluteExpiresAt;
      }
      sessions := sessions[token := s.(lastSeen := now, idleExpiresAt := idle)];
      return Some(PrincipalOf(Snapshot(), sessions[token], now));
    }

    method RevokeSession(token: Token, now: Instant)
      modifies this`sessions
      ensures Snapshot() == Revoked(old(Snapshot()), token, now)
    {
      if token in sessions && sessions[token].revokedAt.None? {
        sessions := sessions[token := sessions[token].(revokedAt := Some(now))];
      }
    }

    /** The rows of a first operator and its role. */
    method InsertAdmin(u: UserId, r: RoleId, user: User, pinHash: int, codes: seq<Permission>)
      modifies this
      ensures Snapshot() == WithAdmin(old(Snapshot()), u, r, user, pinHash, codes)
    {
      permissions := IntroducePermissions(permissions, codes);
      allowed := InsertPairs(allowed, r, codes);
      users, credentials := users[u := user], credentials[u := Credential(pinHash, 1, false)];
      roles, memberships := roles[r := Role(ADMIN, ADMIN_NAME, true, true)], memberships + {Link(u, r)};
    }

    method ProvisionInitialAdmin(u: UserId, r: RoleId, code: Code, name: string, pinHash: int, codes: seq<Permission>)
      returns (outcome: Provision)
      modifies this
      ensures (outcome, Snapshot()) == Provisioned(old(Snapshot()), u, r, code, name, pinHash, codes)
    {
      if users != map[] {
        return AlreadyProvisioned;
      }
      if r in roles || RoleCodeInUse(roles, ADMIN) || !Distinct(codes) {
        return ProvisionFailed;
      }
      InsertAdmin(u, r, User(code, name, true, 1), pinHash, codes);
      return NewlyProvisioned;
    }
  }
}
