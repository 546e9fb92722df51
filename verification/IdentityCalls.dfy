/** What each call of the identity stores answers and writes, said of the rows alone. */
module IdentityCalls {
  import opened Wrappers
  import opened Selection
  import opened Identity
  import opened SessionRuns

  // ---------- administration ----------

  /** The first role asked for that cannot be given: it is unknown, or retired or reserved. */
  ghost predicate Stops(roles: map<RoleId, Role>, ids: seq<RoleId>, i: nat, problem: Outcome)
    requires i < |ids|
  {
    && (forall j :: 0 <= j < i ==> ids[j] in roles && roles[ids[j]].active && roles[ids[j]].assignable)
    && if ids[i] !in roles then problem == RoleNotFound
       else problem == RoleNotAssignable && (!roles[ids[i]].active || !roles[ids[i]].assignable)
  }

  lemma {:induction false} UnassignableIff(roles: map<RoleId, Role>, ids: seq<RoleId>)
    ensures
      var problem := Unassignable(roles, ids);
      if problem.None?
      then forall i :: 0 <= i < |ids| ==> ids[i] in roles && roles[ids[i]].active && roles[ids[i]].assignable
      else exists i :: 0 <= i < |ids| && Stops(roles, ids, i, problem.value)
  {
    if ids == [] {
    } else if ids[0] in roles && roles[ids[0]].active && roles[ids[0]].assignable {
      var rest := ids[1..];
      UnassignableIff(roles, rest);
      assert forall i :: 0 < i < |ids| ==> ids[i] == rest[i - 1];
      if Unassignable(roles, rest).Some? {
        var i :| 0 <= i < |rest| && Stops(roles, rest, i, Unassignable(roles, rest).value);
        assert ids[i + 1] == rest[i];
        assert Stops(roles, ids, i + 1, Unassignable(roles, ids).value);
      }
    } else {
      assert Stops(roles, ids, 0, Unassignable(roles, ids).value);
    }
  }

  /** The links of one owner are to exactly the items; every other link stays, and links it had stay if `keeps`. */
  ghost predicate Linked(links: set<Link>, links': set<Link>, owner: int, items: seq<int>, keeps: bool) {
    forall x: Link ::
      x in links' <==> (if x.owner == owner then x.item in items || (keeps && x in links) else x in links)
  }

  predicate CodeTakenBy(t: Tables, code: Code, v: UserId) {
    v in t.users && t.users[v].code == code
  }

  /** An operator is created under a free code and id, with roles that can all be given. */
  lemma CreateOperatorIs(t: Tables, u: UserId, code: Code, name: string, roleIds: seq<RoleId>)
    ensures
      var (answer, t') := CreatedOperator(t, u, code, name, roleIds);
      var taken := exists v :: CodeTakenBy(t, code, v);
      var problem := Unassignable(t.roles, roleIds);
      && (taken ==> answer == CodeTaken)
      && (!taken && problem.Some? ==> answer == problem.value)
      && (!taken && problem.None? ==> answer == (if u in t.users then Conflict else Applied([u])))
      && (!answer.Applied? ==> t' == t)
      && (answer.Applied? ==>
            && t'.users == t.users[u := User(code := code, name := name, active := true, version := 1)]
            && Linked(t.memberships, t'.memberships, u, roleIds, true)
            && t' == t.(users := t'.users, memberships := t'.memberships))
  {
    if CodeInUse(t.users, code) {
      var v :| v in t.users && t.users[v].code == code;
      assert CodeTakenBy(t, code, v);
    }
    if v :| CodeTakenBy(t, code, v) {
      assert v in t.users && t.users[v].code == code;
    }
  }

  /** An edit of one operator that is there; otherwise it is not found and nothing changes. */
  lemma OperatorEditsAre(t: Tables, u: UserId, name: string, active: bool)
    ensures
      var (renamed, a) := RenamedOperator(t, u, name);
      var (changed, b) := StatusChanged(t, u, active);
      if u !in t.users then renamed == changed == OperatorNotFound && a == b == t
      else
        && renamed == Applied([]) && changed == Applied([u])
        && a == t.(users := a.users) && a.users == t.users[u := t.users[u].(name := name)]
        && b == t.(users := b.users)
        && b.users == t.users[u := t.users[u].(active := active, version := t.users[u].version + 1)]
  {
  }

  /** Exactly the operators named have a greater version, and no other column changes. */
  ghost predicate Renewed(users: map<UserId, User>, users': map<UserId, User>, u: UserId, named: bool) {
    && (u in users' <==> u in users)
    && (u in users ==>
          && users'[u] == users[u].(version := users'[u].version)
          && if named then users[u].version < users'[u].version else users'[u] == users[u])
  }

  /** An operator's roles are replaced, once it is there and all of them can be given. */
  lemma AssignRolesIs(t: Tables, u: UserId, roleIds: seq<RoleId>, v: UserId)
    ensures
      var (answer, t') := RolesAssigned(t, u, roleIds);
      var problem := Unassignable(t.roles, roleIds);
      if u !in t.users then answer == OperatorNotFound && t' == t
      else if problem.Some? then answer == problem.value && t' == t
      else
        && answer == Applied([u])
        && t' == t.(memberships := t'.memberships, users := t'.users)
        && Linked(t.memberships, t'.memberships, u, roleIds, false) && Renewed(t.users, t'.users, v, v == u)
  {
  }

  predicate Grantable(t: Tables, codes: seq<Permission>) {
    forall i :: 0 <= i < |codes| ==> codes[i] in t.permissions && t.permissions[codes[i]] == true
  }

  /** A role is created under a free code and id, active and assignable, with known active permissions. */
  lemma CreateRoleIs(t: Tables, r: RoleId, code: Code, name: string, codes: seq<Permission>)
    ensures
      var (answer, t') := CreatedRole(t, r, code, name, codes);
      if exists q :: q in t.roles && t.roles[q].code == code then answer == RoleCodeTaken && t' == t
      else if !Grantable(t, codes) then answer == PermissionUnknown && t' == t
      else if r in t.roles then answer == Conflict && t' == t
      else
        && answer == Applied([])
        && t'.roles == t.roles[r := Role(code := code, name := name, active := true, assignable := true)]
        && Linked(t.allowed, t'.allowed, r, codes, true) && t' == t.(roles := t'.roles, allowed := t'.allowed)
  {
    assert RoleCodeInUse(t.roles, code) <==> exists q :: q in t.roles && t.roles[q].code == code;
    assert AllKnown(t.permissions, codes) <==> Grantable(t, codes);
  }

  /** The status of a role that is there; it affects exactly the operators that have the role. */
  lemma RoleStatusIs(t: Tables, r: RoleId, active: bool, u: UserId)
    ensures
      var (answer, t') := RoleStatusChanged(t, r, active);
      var bearer := u in t.users && Link(u, r) in t.memberships;
      if r !in t.roles then answer == RoleNotFound && t' == t
      else
        && answer.Applied? && (u in answer.affected <==> bearer)
        && t' == t.(roles := t'.roles, users := t'.users)
        && t'.roles == t.roles[r := t.roles[r].(active := active)] && Renewed(t.users, t'.users, u, bearer)
  {
  }

  /** The permissions of a role that is there, once all of them can be granted; it affects the same operators. */
  lemma RolePermissionsAre(t: Tables, r: RoleId, codes: seq<Permission>, u: UserId)
    ensures
      var (answer, t') := PermissionsUpdated(t, r, codes);
      var bearer := u in t.users && Link(u, r) in t.memberships;
      if r !in t.roles then answer == RoleNotFound && t' == t
      else if !Grantable(t, codes) then answer == PermissionUnknown && t' == t
      else
        && answer.Applied? && (u in answer.affected <==> bearer)
        && t' == t.(allowed := t'.allowed, users := t'.users)
        && Linked(t.allowed, t'.allowed, r, codes, false) && Renewed(t.users, t'.users, u, bearer)
  {
  }

  /** A new PIN clears the mark to change it and keeps the version; the mark alone raises the version. */
  lemma CredentialEditsAre(t: Tables, u: UserId, pin: int, v: UserId)
    ensures
      var (replaced, a) := CredentialReplaced(t, u, pin);
      var (expired, b) := CredentialExpired(t, u);
      if u !in t.credentials then !replaced && !expired && a == b == t
      else
        && replaced && expired
        && a == t.(credentials := a.credentials)
        && a.credentials == t.credentials[u :=
             Credential(pinHash := pin, version := t.credentials[u].version + 1, mustChange := false)]
        && b == t.(credentials := b.credentials, users := b.users)
        && b.credentials == t.credentials[u := Credential(
             pinHash := t.credentials[u].pinHash, version := t.credentials[u].version, mustChange := true)]
        && Renewed(t.users, b.users, v, v == u)
  {
  }

  // ---------- enrolment ----------

  /** A ticket is stored live under a free id and token, and spends the live one of its operator code. */
  lemma AuthorizeIs(t: Tables, id: int, ticket: Ticket, at: Instant)
    ensures
      var t' := EnrollmentAuthorized(t, id, ticket, at);
      if id in t.tickets || exists i :: i in t.tickets && t.tickets[i].tokenHash == ticket.tokenHash then t' == t
      else
        && t' == t.(tickets := t'.tickets) && t'.tickets.Keys == t.tickets.Keys + {id}
        && t'.tickets[id] == Ticket(tokenHash := ticket.tokenHash, code := ticket.code, node := ticket.node,
                                    terminal := ticket.terminal, expiresAt := ticket.expiresAt, consumedAt := None)
        && forall i :: i in t.tickets ==>
             t'.tickets[i] == if t.tickets[i].code == ticket.code && t.tickets[i].consumedAt == None
                              then t.tickets[i].(consumedAt := Some(at)) else t.tickets[i]
  {
  }

  /** The token of a ticket that can still be used here and now. */
  predicate Valid(ticket: Ticket, node: NodeId, terminal: TerminalId, now: Instant) {
    ticket.consumedAt == None && ticket.node == node && ticket.terminal == terminal && now < ticket.expiresAt
  }

  /** The refusals of a ticket, each on its own cause and in this order; its token is in a unique column. */
  lemma RefusalsAre(t: Tables, token: Token, pin: int, node: NodeId, terminal: TerminalId, newUser: UserId,
                    now: Instant, id: int)
    requires id in t.tickets && t.tickets[id].tokenHash == token
    requires forall i :: i in t.tickets && t.tickets[i].tokenHash == token ==> i == id
    ensures
      var ticket, (answer, t') := t.tickets[id], EnrollmentConsumed(t, token, pin, node, terminal, newUser, now);
      && answer != NotFound
      && (answer == Consumed <==> ticket.consumedAt != None)
      && (answer == NodeMismatch <==>
            ticket.consumedAt == None && (ticket.node != node || ticket.terminal != terminal))
      && (answer == Expired <==>
            ticket.consumedAt == None && ticket.node == node && ticket.terminal == terminal && ticket.expiresAt <= now)
      && (answer == NotEnrollable || answer == Collision || answer.Enrolled? <==> Valid(ticket, node, terminal, now))
      && (!answer.Enrolled? ==> t' == t)
  {
  }

  lemma UnknownTokenIs(t: Tables, token: Token, pin: int, node: NodeId, terminal: TerminalId, newUser: UserId,
                       now: Instant)
    ensures EnrollmentConsumed(t, token, pin, node, terminal, newUser, now).0 == NotFound
      <==> (forall i :: i in t.tickets ==> t.tickets[i].tokenHash != token)
  {
  }

  /** The local operator of a code, when it has one: codes are in a unique column. */
  ghost predicate Local(t: Tables, code: Code, u: UserId) {
    u in t.users && t.users[u].code == code && forall v :: v in t.users && t.users[v].code == code ==> v == u
  }

  /** A valid ticket of an operator that is local: it enrols it unless it is inactive, or under a grant that fails. */
  lemma EnrolsLocal(t: Tables, token: Token, pin: int, node: NodeId, terminal: TerminalId, newUser: UserId,
                    now: Instant, id: int, u: UserId)
    requires id in t.tickets && t.tickets[id].tokenHash == token && Valid(t.tickets[id], node, terminal, now)
    requires forall i :: i in t.tickets && t.tickets[i].tokenHash == token ==> i == id
    requires Local(t, t.tickets[id].code, u)
    ensures EnrollmentConsumed(t, token, pin, node, terminal, newUser, now).0
      == if Ungoverned(t, t.tickets[id].code, now) && t.users[u].active then Enrolled(u) else NotEnrollable
  {
    UngovernedIff(t, t.tickets[id].code, now);
    assert UserByCode(t, t.tickets[id].code) == Some(u);
  }

  /** Of an operator that is not local: only a grant that stands enrols it, under a new id. */
  lemma EnrolsGranted(t: Tables, token: Token, pin: int, node: NodeId, terminal: TerminalId, newUser: UserId,
                      now: Instant, id: int)
    requires id in t.tickets && t.tickets[id].tokenHash == token && Valid(t.tickets[id], node, terminal, now)
    requires forall i :: i in t.tickets && t.tickets[i].tokenHash == token ==> i == id
    requires forall v :: v in t.users ==> t.users[v].code != t.tickets[id].code
    ensures
      var code := t.tickets[id].code;
      EnrollmentConsumed(t, token, pin, node, terminal, newUser, now).0
        == if !(exists i :: FirstOf(t, i, code)) || !Ungoverned(t, code, now) then NotEnrollable
           else if newUser in t.users then Collision
           else Enrolled(newUser)
  {
    UngovernedIff(t, t.tickets[id].code, now);
    FoundIsFirst(t, t.tickets[id].code);
  }

  /** What an enrolment writes: the credential, a version more of its operator, and the ticket spent. */
  lemma EnrolmentWrites(t: Tables, token: Token, pin: int, node: NodeId, terminal: TerminalId, newUser: UserId,
                        now: Instant, id: int, v: UserId)
    requires EnrollmentConsumed(t, token, pin, node, terminal, newUser, now).0.Enrolled?
    requires id in t.tickets && t.tickets[id].tokenHash == token
    requires forall i :: i in t.tickets && t.tickets[i].tokenHash == token ==> i == id
    ensures
      var (answer, t') := EnrollmentConsumed(t, token, pin, node, terminal, newUser, now);
      var u, code := answer.userId, t.tickets[id].code;
      && t' == t.(users := t'.users, credentials := t'.credentials, tickets := t'.tickets)
      && t'.tickets == t.tickets[id := t.tickets[id].(consumedAt := Some(now))]
      && t'.credentials == t.credentials[u := Credential(
           pinHash := pin, version := if u in t.credentials then t.credentials[u].version + 1 else 1,
           mustChange := false)]
      && u in t'.users && t'.users[u].code == code
      && (u in t.users ==> Renewed(t.users, t'.users, v, v == u))
      && (u !in t.users ==>
            && t'.users[u].active && t'.users[u].version == 2
            && (forall i :: FirstOf(t, i, code) ==> t'.users[u].name == t.grants[t.grantOrder[i]].name)
            && (v != u ==> (v in t'.users <==> v in t.users) && (v in t.users ==> t'.users[v] == t.users[v])))
  {
    EnrolledIs(t, token, node, terminal, newUser, now, id);
    var answer := Judged(t, token, node, terminal, newUser, now);
    EnrolledWrites(t, id, EnrollableOperator(t, t.tickets[id].code, now).value, answer.userId, pin, now, v);
  }

  /** The operator an enrolment is for: the local one of the code, or the first grant's under the new id. */
  lemma EnrolledIs(t: Tables, token: Token, node: NodeId, terminal: TerminalId, newUser: UserId, now: Instant, id: int)
    requires Judged(t, token, node, terminal, newUser, now).Enrolled?
    requires id in t.tickets && t.tickets[id].tokenHash == token
    requires forall i :: i in t.tickets && t.tickets[i].tokenHash == token ==> i == id
    ensures
      var u, code := Judged(t, token, node, terminal, newUser, now).userId, t.tickets[id].code;
      && TicketOf(t, token) == Some(id) && EnrollableOperator(t, code, now).Some?
      && var operator := EnrollableOperator(t, code, now).value;
         && operator.code == code
         && (operator.userId == None <==> u !in t.users)
         && (u in t.users ==> t.users[u].code == code)
         && (u !in t.users ==> forall i :: FirstOf(t, i, code) ==> operator.name == t.grants[t.grantOrder[i]].name)
  {
    FoundIsFirst(t, t.tickets[id].code);
  }

  lemma EnrolledWrites(t: Tables, id: int, operator: Enrollable, u: UserId, pin: int, now: Instant, v: UserId)
    requires id in t.tickets && (operator.userId == None ==> u !in t.users)
    ensures
      var t' := EnrolledTables(t, id, operator, u, pin, now);
      && t'.tickets == t.tickets[id := t.tickets[id].(consumedAt := Some(now))]
      && t'.credentials == t.credentials[u := Credential(
           pinHash := pin, version := if u in t.credentials then t.credentials[u].version + 1 else 1,
           mustChange := false)]
      && (operator.userId != None ==> Renewed(t.users, t'.users, v, v == u))
      && (operator.userId == None ==>
            && u in t'.users && t'.users[u] == User(operator.code, operator.name, true, 2)
            && (v != u ==> (v in t'.users <==> v in t.users) && (v in t.users ==> t'.users[v] == t.users[v])))
  {
    if operator.userId == None {
      var users := t.users[u := User(operator.code, operator.name, true, 1)];
      assert [u][..0] == [] && Bumped(users, []) == users;
      assert Bumped(users, [u]) == BumpedOne(users, u);
    }
  }

  // ---------- logging in ----------

  /** The PIN may be tried: an active operator, whose credential is the one it was checked against, not locked out. */
  predicate MayTry(t: Tables, a: Attempt, now: Instant) {
    var key := (a.node, a.userId);
    && a.userId in t.users && t.users[a.userId].active == true
    && a.userId in t.credentials && t.credentials[a.userId].version == a.credentialVersion
    && (key in t.lockouts && t.lockouts[key].lockedUntil != None ==> t.lockouts[key].lockedUntil.value <= now)
  }

  /** A login is answered with a session exactly for a right PIN that may be tried, under a token that is new. */
  lemma LogInIs(t: Tables, a: Attempt, now: Instant)
    ensures
      var (answer, t') := Attempted(t, a, now);
      var key, tried := (a.node, a.userId), MayTry(t, a, now);
      && (answer.Authenticated? <==> tried && a.pinVerified && a.issue != None && a.issue.value.0 !in t.sessions)
      && (answer == TokenCollision <==> tried && a.pinVerified && a.issue != None && a.issue.value.0 in t.sessions)
      && (answer.Authenticated? ==>
            && t' == t.(lockouts := t'.lockouts, sessions := t'.sessions)
            && t'.lockouts == t.lockouts[key := Lockout(windowStart := now, failed := 0, lockedUntil := None)]
            && t'.sessions == t.sessions[a.issue.value.0 := Session(
                 userId := a.userId, terminal := a.terminal, node := a.node, version := t.users[a.userId].version,
                 lastSeen := now, idleExpiresAt := a.issue.value.1, absoluteExpiresAt := a.issue.value.2,
                 revokedAt := None)]
            && answer.principal.actor == a.userId && answer.principal.node == a.node
            && answer.principal.terminal == a.terminal && answer.principal.idleExpiresAt == a.issue.value.1
            && answer.principal.absoluteExpiresAt == a.issue.value.2)
      && (!answer.Authenticated? && (!tried || a.pinVerified) ==> t' == t)
  {
  }

  /** A wrong PIN counts one failure more in its window of a quarter of an hour; the fifth locks out for as long. */
  lemma FailureIs(t: Tables, a: Attempt, now: Instant)
    requires MayTry(t, a, now) && !a.pinVerified
    ensures
      var t', key := Attempted(t, a, now).1, (a.node, a.userId);
      var going := key in t.lockouts && now < t.lockouts[key].windowStart + 900_000;
      && t' == t.(lockouts := t'.lockouts) && key in t'.lockouts
      && t'.lockouts == t.lockouts[key := t'.lockouts[key]]
      && t'.lockouts[key].windowStart == (if going then t.lockouts[key].windowStart else now)
      && t'.lockouts[key].failed == (if going then t.lockouts[key].failed + 1 else 1)
      && t'.lockouts[key].lockedUntil == (if t'.lockouts[key].failed >= 5 then Some(now + 900_000) else None)
  {
  }

  // ---------- grants and the first operator ----------

  /** A published grant is stored unless a version as high is, and keeps its row's place. */
  lemma GrantIs(t: Tables, g: UserId, grant: Grant)
    ensures
      var t' := GrantApplied(t, g, grant);
      && t' == t.(grants := t'.grants, grantOrder := t'.grantOrder)
      && t'.grants == (if g in t.grants && grant.version <= t.grants[g].version then t.grants
                       else t.grants[g := grant])
      && t'.grantOrder == (if g in t.grants then t.grantOrder else t.grantOrder + [g])
  {
  }

  /** The first operator of a node without any: it gets the ADMIN role, and the role every permission. */
  lemma ProvisionIs(t: Tables, u: UserId, r: RoleId, code: Code, name: string, pin: int, codes: seq<Permission>,
                    p: Permission)
    ensures
      var (answer, t') := Provisioned(t, u, r, code, name, pin, codes);
      && (answer == AlreadyProvisioned <==> exists v :: v in t.users)
      && (answer == NewlyProvisioned <==>
            && (forall v :: v !in t.users) && r !in t.roles && (forall q :: q in t.roles ==> t.roles[q].code != 0)
            && forall i, j :: 0 <= i < |codes| && 0 <= j < |codes| && codes[i] == codes[j] ==> i == j)
      && (answer != NewlyProvisioned ==> t' == t)
      && (answer == NewlyProvisioned ==>
            && t'.users == map[u := User(code := code, name := name, active := true, version := 1)]
            && t'.credentials == t.credentials[u := Credential(pinHash := pin, version := 1, mustChange := false)]
            && t'.roles == t.roles[r := Role(code := 0, name := "Administrador", active := true, assignable := true)]
            && (p in t'.permissions <==> p in t.permissions || p in codes)
            && (p in t'.permissions ==> t'.permissions[p] == if p in t.permissions then t.permissions[p] else true)
            && Linked(t.memberships, t'.memberships, u, [r], true) && Linked(t.allowed, t'.allowed, r, codes, true)
            && t' == t.(users := t'.users, credentials := t'.credentials, roles := t'.roles,
                        permissions := t'.permissions, allowed := t'.allowed, memberships := t'.memberships))
  {
    if t.users.Keys != {} {
      HasSmallest(t.users.Keys);
      var v :| Smallest(v, t.users.Keys);
      assert v in t.users;
    }
  }

  // ---------- purges ----------

  /** A ticket goes when it was spent, or expired, before the threshold; a session when its absolute end was. */
  lemma PurgesAre(t: Tables, threshold: Instant, i: int, s: Token)
    ensures
      var a, b := TicketsPurged(t, threshold), SessionsPurged(t, threshold);
      && a == t.(tickets := a.tickets) && b == t.(sessions := b.sessions)
      && (i in a.tickets <==>
            i in t.tickets && t.tickets[i].expiresAt >= threshold
            && (t.tickets[i].consumedAt == None || t.tickets[i].consumedAt.value >= threshold))
      && (i in a.tickets ==> a.tickets[i] == t.tickets[i])
      && (s in b.sessions <==> s in t.sessions && t.sessions[s].absoluteExpiresAt >= threshold)
      && (s in b.sessions ==> b.sessions[s] == t.sessions[s])
  {
  }
}
