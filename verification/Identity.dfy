/**
 * Operators, roles, sessions and coordinator grants of one node. Every table is a map from its
 * primary key; each store call is one transaction.
 */
module Identity {
  import opened Wrappers
  import opened Selection

  type UserId = int
  type RoleId = int
  type Permission = int
  type Token = int
  type NodeId = int
  type TerminalId = int
  type Instant = int

  /** Operator codes are compared without case: this is the folded code. */
  type Code = int

  datatype User = User(code: Code, name: string, active: bool, version: nat)

  datatype Credential = Credential(pinHash: int, version: nat, mustChange: bool)

  datatype Role = Role(code: Code, name: string, active: bool, assignable: bool)

  datatype Session = Session(
    userId: UserId, terminal: TerminalId, node: NodeId, version: nat, lastSeen: Instant,
    idleExpiresAt: Instant, absoluteExpiresAt: Instant, revokedAt: Option<Instant>)

  datatype Lockout = Lockout(windowStart: Instant, failed: nat, lockedUntil: Option<Instant>)

  datatype Grant = Grant(
    code: Code, name: string, roles: set<Code>, permissions: set<Permission>, active: bool,
    version: int, expiresAt: Instant, appliedAt: Instant)

  datatype Ticket = Ticket(
    tokenHash: Token, code: Code, node: NodeId, terminal: TerminalId, expiresAt: Instant, consumedAt: Option<Instant>)

  /** A row that joins an operator to a role, or a role to a permission. */
  datatype Link = Link(owner: int, item: int)

  /** `grantOrder` is the order in which the rows of grants were inserted; an update keeps a row's place. */
  datatype Tables = Tables(
    users: map<UserId, User>,
    credentials: map<UserId, Credential>,
    roles: map<RoleId, Role>,
    permissions: map<Permission, bool>,
    memberships: set<Link>,
    allowed: set<Link>,
    sessions: map<Token, Session>,
    lockouts: map<(NodeId, UserId), Lockout>,
    grants: map<UserId, Grant>,
    grantOrder: seq<UserId>,
    tickets: map<int, Ticket>)

  const EMPTY := Tables(map[], map[], map[], map[], {}, {}, map[], map[], map[], [], map[])

  datatype Outcome =
    | Applied(affected: seq<UserId>)
    | CodeTaken | OperatorNotFound | RoleNotFound | RoleNotAssignable | RoleCodeTaken | PermissionUnknown
    | Conflict

  // ---------- what an operator may do ----------

  predicate Bears(t: Tables, u: UserId, r: RoleId) {
    Link(u, r) in t.memberships && r in t.roles && t.roles[r].active
  }

  predicate Permits(t: Tables, u: UserId, p: Permission) {
    p in t.permissions && t.permissions[p] && exists r :: r in t.roles && Bears(t, u, r) && Link(r, p) in t.allowed
  }

  function LocalPermissions(t: Tables, u: UserId): set<Permission> {
    set p | p in t.permissions && Permits(t, u, p)
  }

  function LocalRoles(t: Tables, u: UserId): set<RoleId> {
    set r | r in t.roles && Bears(t, u, r)
  }

  // ---------- helpers of the administration store ----------

  /** The first of the rows a query finds. */
  function First(ids: set<int>): (id: Option<int>)
    ensures id.None? <==> ids == {}
    ensures id.Some? ==> id.value in ids && forall x :: x in ids ==> id.value <= x
  {
    var rows := Ascending(ids);
    if rows == [] then None
    else
      assert rows[0] in rows;
      assert forall x :: x in ids ==> x in rows;
      Some(rows[0])
  }

  predicate CodeInUse(users: map<UserId, User>, code: Code) {
    exists u :: u in users && users[u].code == code
  }

  function Unassignable(roles: map<RoleId, Role>, roleIds: seq<RoleId>): (problem: Option<Outcome>)
    ensures problem.Some? ==> problem.value in {RoleNotFound, RoleNotAssignable}
  {
    if roleIds == [] then None
    else if roleIds[0] !in roles then Some(RoleNotFound)
    else if !roles[roleIds[0]].active || !roles[roleIds[0]].assignable then Some(RoleNotAssignable)
    else Unassignable(roles, roleIds[1..])
  }

  predicate AllKnown(permissions: map<Permission, bool>, codes: seq<Permission>) {
    forall i :: 0 <= i < |codes| ==> codes[i] in permissions && permissions[codes[i]]
  }

  /** The pairs of `pairs` and those that join `key` to each of `ids`. */
  function Joined(pairs: set<Link>, key: int, ids: seq<int>): (r: set<Link>)
    ensures forall x :: x in r <==> x in pairs || (x.owner == key && x.item in ids)
  {
    if ids == [] then pairs
    else
      var last := |ids| - 1;
      assert forall x :: x in ids <==> x in ids[..last] || x == ids[last];
      Joined(pairs, key, ids[..last]) + {Link(key, ids[last])}
  }

  function Without(pairs: set<Link>, key: int): set<Link> {
    set x | x in pairs && x.owner != key
  }

  /** The operators that bear a role, ordered. */
  function Bearers(t: Tables, r: RoleId): (ids: seq<UserId>)
    ensures forall u :: u in ids <==> u in t.users && Link(u, r) in t.memberships
  {
    Ascending(set u | u in t.users && Link(u, r) in t.memberships)
  }

  /** Each operator named advances its authorization version. */
  function Bumped(users: map<UserId, User>, ids: seq<UserId>): (r: map<UserId, User>)
    ensures r.Keys == users.Keys
    ensures forall u :: u in users ==> r[u] == users[u].(version := r[u].version)
    ensures forall u :: u in users ==> if u in ids then users[u].version < r[u].version else r[u] == users[u]
  {
    if ids == [] then users
    else
      var last := |ids| - 1;
      var before := Bumped(users, ids[..last]);
      assert forall u :: u in ids <==> u in ids[..last] || u == ids[last];
      BumpedOne(before, ids[last])
  }

  function BumpedOne(users: map<UserId, User>, u: UserId): map<UserId, User> {
    if u in users then users[u := users[u].(version := users[u].version + 1)] else users
  }

  method CheckRoles(roles: map<RoleId, Role>, roleIds: seq<RoleId>) returns (problem: Option<Outcome>)
    ensures problem == Unassignable(roles, roleIds)
  {
    for i := 0 to |roleIds|
      invariant Unassignable(roles, roleIds) == Unassignable(roles, roleIds[i..])
    {
      if roleIds[i] !in roles {
        return Some(RoleNotFound);
      }
      var role := roles[roleIds[i]];
      if !role.active || !role.assignable {
        return Some(RoleNotAssignable);
      }
      assert roleIds[i..][1..] == roleIds[i + 1..];
    }
    return None;
  }

  method CheckPermissions(permissions: map<Permission, bool>, codes: seq<Permission>) returns (known: bool)
    ensures known == AllKnown(permissions, codes)
  {
    for i := 0 to |codes|
      invariant AllKnown(permissions, codes[..i])
    {
      if codes[i] !in permissions || !permissions[codes[i]] {
        return false;
      }
    }
    return true;
  }

  /** `insert or ignore` of one pair for each id. */
  method InsertPairs(pairs: set<Link>, key: int, ids: seq<int>) returns (r: set<Link>)
    ensures r == Joined(pairs, key, ids)
  {
    r := pairs;
    for i := 0 to |ids|
      invariant r == Joined(pairs, key, ids[..i])
    {
      r := r + {Link(key, ids[i])};
      assert ids[..i + 1][..i] == ids[..i];
    }
    assert ids[..|ids|] == ids;
  }

  method BumpAuthorization(users: map<UserId, User>, ids: seq<UserId>) returns (r: map<UserId, User>)
    ensures r == Bumped(users, ids)
  {
    r := users;
    for i := 0 to |ids|
      invariant r == Bumped(users, ids[..i])
    {
      r := BumpedOne(r, ids[i]);
      assert ids[..i + 1][..i] == ids[..i];
    }
    assert ids[..|ids|] == ids;
  }

  // ---------- what each edit makes of the tables ----------

  function CreatedOperator(t: Tables, u: UserId, code: Code, name: string, roleIds: seq<RoleId>): (Outcome, Tables) {
    var problem := Unassignable(t.roles, roleIds);
    if CodeInUse(t.users, code) then (CodeTaken, t)
    else if problem.Some? then (problem.value, t)
    else if u in t.users then (Conflict, t)
    else (Applied([u]), t.(users := t.users[u := User(code, name, true, 1)],
                           memberships := Joined(t.memberships, u, roleIds)))
  }

  function RenamedOperator(t: Tables, u: UserId, name: string): (Outcome, Tables) {
    if u in t.users then (Applied([]), t.(users := t.users[u := t.users[u].(name := name)])) else (OperatorNotFound, t)
  }

  function StatusChanged(t: Tables, u: UserId, active: bool): (Outcome, Tables) {
    if u !in t.users then (OperatorNotFound, t)
    else
      var user := t.users[u];
      (Applied([u]), t.(users := t.users[u := user.(active := active, version := user.version + 1)]))
  }

  function RolesAssigned(t: Tables, u: UserId, roleIds: seq<RoleId>): (Outcome, Tables) {
    var problem := Unassignable(t.roles, roleIds);
    if u !in t.users then (OperatorNotFound, t)
    else if problem.Some? then (problem.value, t)
    else (Applied([u]), t.(memberships := Joined(Without(t.memberships, u), u, roleIds), users := Bumped(t.users, [u])))
  }

  predicate RoleCodeInUse(roles: map<RoleId, Role>, code: Code) {
    exists r :: r in roles && roles[r].code == code
  }

  function CreatedRole(t: Tables, r: RoleId, code: Code, name: string, codes: seq<Permission>): (Outcome, Tables) {
    if RoleCodeInUse(t.roles, code) then (RoleCodeTaken, t)
    else if !AllKnown(t.permissions, codes) then (PermissionUnknown, t)
    else if r in t.roles then (Conflict, t)
    else (Applied([]), t.(roles := t.roles[r := Role(code, name, true, true)], allowed := Joined(t.allowed, r, codes)))
  }

  function PermissionsUpdated(t: Tables, r: RoleId, codes: seq<Permission>): (Outcome, Tables) {
    if r !in t.roles then (RoleNotFound, t)
    else if !AllKnown(t.permissions, codes) then (PermissionUnknown, t)
    else (Applied(Bearers(t, r)),
          t.(allowed := Joined(Without(t.allowed, r), r, codes), users := Bumped(t.users, Bearers(t, r))))
  }

  function RoleStatusChanged(t: Tables, r: RoleId, active: bool): (Outcome, Tables) {
    if r !in t.roles then (RoleNotFound, t)
    else (Applied(Bearers(t, r)),
          t.(roles := t.roles[r := t.roles[r].(active := active)], users := Bumped(t.users, Bearers(t, r))))
  }

  function CredentialReplaced(t: Tables, u: UserId, pinHash: int): (bool, Tables) {
    if u !in t.credentials then (false, t)
    else (true, t.(credentials := t.credentials[u := Credential(pinHash, t.credentials[u].version + 1, false)]))
  }

  function CredentialExpired(t: Tables, u: UserId): (bool, Tables) {
    if u !in t.credentials then (false, t)
    else (true, t.(credentials := t.credentials[u := t.credentials[u].(mustChange := true)],
                   users := Bumped(t.users, [u])))
  }

  // ---------- coordinator grants ----------

  predicate HasGrant(t: Tables, code: Code) {
    exists g :: g in t.grantOrder && g in t.grants && t.grants[g].code == code
  }

  /** Of the rows that have the code, the one inserted first. */
  function FirstGrant(grants: map<UserId, Grant>, order: seq<UserId>, code: Code): (r: Option<Grant>)
    ensures r.Some? <==> exists g :: g in order && g in grants && grants[g].code == code
    ensures r.Some? ==> r.value.code == code
  {
    if order == [] then None
    else if order[0] in grants && grants[order[0]].code == code then
      var first := order[0];
      assert first in order && first in grants && grants[first].code == code;
      Some(grants[first])
    else
      assert forall g :: g in order <==> g == order[0] || g in order[1..];
      FirstGrant(grants, order[1..], code)
  }

  /** The grant of an operator code; of several, the first row. */
  function FindGrant(t: Tables, code: Code): (r: Option<Grant>)
    ensures r.Some? <==> HasGrant(t, code)
    ensures r.Some? ==> r.value.code == code
  {
    FirstGrant(t.grants, t.grantOrder, code)
  }

  /**
   * Active, and not expired at the highest instant the node has observed: the clock, the last time
   * any session was seen, the application of any grant.
   */
  predicate Usable(t: Tables, g: Grant, now: Instant) {
    && g.active
    && now < g.expiresAt
    && (forall s :: s in t.sessions ==> t.sessions[s].lastSeen < g.expiresAt)
    && (forall o :: o in t.grants ==> t.grants[o].appliedAt < g.expiresAt)
  }

  function GrantApplied(t: Tables, g: UserId, grant: Grant): Tables {
    if g !in t.grants then t.(grants := t.grants[g := grant], grantOrder := t.grantOrder + [g])
    else if t.grants[g].version < grant.version then t.(grants := t.grants[g := grant])
    else t
  }

  function GrantOfUser(t: Tables, u: UserId): Option<Grant> {
    if u in t.users then FindGrant(t, t.users[u].code) else None
  }

  // ---------- enrolment ----------

  datatype Enrollable = Enrollable(userId: Option<UserId>, code: Code, name: string)

  function UserByCode(t: Tables, code: Code): (u: Option<UserId>)
    ensures u.Some? ==> u.value in t.users && t.users[u.value].code == code
    ensures u.None? ==> !CodeInUse(t.users, code)
  {
    var ids := set u | u in t.users && t.users[u].code == code;
    assert forall u :: u in ids <==> u in t.users && t.users[u].code == code;
    First(ids)
  }

  function EnrollableOperator(t: Tables, code: Code, now: Instant): Option<Enrollable> {
    var grant, local := FindGrant(t, code), UserByCode(t, code);
    if grant.Some? && !Usable(t, grant.value, now) then None
    else if local.Some? then
      if t.users[local.value].active then Some(Enrollable(local, code, t.users[local.value].name)) else None
    else if grant.Some? then Some(Enrollable(None, code, grant.value.name))
    else None
  }

  function Superseded(ticket: Ticket, code: Code, at: Instant): Ticket {
    if ticket.code == code && ticket.consumedAt.None? then ticket.(consumedAt := Some(at)) else ticket
  }

  function AllSuperseded(m: map<int, Ticket>, code: Code, at: Instant): map<int, Ticket> {
    map i | i in m :: Superseded(m[i], code, at)
  }

  predicate TokenInUse(m: map<int, Ticket>, token: Token) {
    exists i :: i in m && m[i].tokenHash == token
  }

  /** A new ticket supersedes the live one of its operator code. */
  function TicketAuthorized(m: map<int, Ticket>, id: int, ticket: Ticket, at: Instant): map<int, Ticket> {
    if id in m || TokenInUse(m, ticket.tokenHash) then m
    else AllSuperseded(m, ticket.code, at)[id := ticket.(consumedAt := None)]
  }

  function EnrollmentAuthorized(t: Tables, id: int, ticket: Ticket, at: Instant): Tables {
    t.(tickets := TicketAuthorized(t.tickets, id, ticket, at))
  }

  datatype Consumption =
    | NotFound | Consumed | NodeMismatch | Expired | NotEnrollable | Collision
    | Enrolled(userId: UserId)

  function TicketOf(t: Tables, token: Token): (id: Option<int>)
    ensures id.Some? ==> id.value in t.tickets && t.tickets[id.value].tokenHash == token
    ensures id.None? ==> forall i :: i in t.tickets ==> t.tickets[i].tokenHash != token
  {
    var ids := set i | i in t.tickets && t.tickets[i].tokenHash == token;
    assert forall i :: i in ids <==> i in t.tickets && t.tickets[i].tokenHash == token;
    First(ids)
  }

  function EnrolledTables(t: Tables, id: int, operator: Enrollable, u: UserId, pinHash: int, now: Instant): Tables
    requires id in t.tickets
  {
    var users := if operator.userId.None? then t.users[u := User(operator.code, operator.name, true, 1)] else t.users;
    var credential :=
      if u in t.credentials then Credential(pinHash, t.credentials[u].version + 1, false)
      else Credential(pinHash, 1, false);
    t.(users := Bumped(users, [u]), credentials := t.credentials[u := credential],
       tickets := t.tickets[id := t.tickets[id].(consumedAt := Some(now))])
  }

  /** The answer to a ticket, before anything is written. */
  function Judged(t: Tables, token: Token, node: NodeId, terminal: TerminalId, newUser: UserId,
                  now: Instant): (r: Consumption)
    ensures r.Enrolled? ==>
      && TicketOf(t, token).Some? && t.tickets[TicketOf(t, token).value].consumedAt.None?
      && EnrollableOperator(t, t.tickets[TicketOf(t, token).value].code, now).Some?
  {
    var id := TicketOf(t, token);
    if id.None? then NotFound
    else
      var ticket := t.tickets[id.value];
      var operator := EnrollableOperator(t, ticket.code, now);
      if ticket.consumedAt.Some? then Consumed
      else if ticket.node != node || ticket.terminal != terminal then NodeMismatch
      else if ticket.expiresAt <= now then Expired
      else if operator.None? then NotEnrollable
      else if operator.value.userId.Some? then Enrolled(operator.value.userId.value)
      else if newUser in t.users then Collision
      else Enrolled(newUser)
  }

  function EnrollmentConsumed(t: Tables, token: Token, pinHash: int, node: NodeId, terminal: TerminalId,
                              newUser: UserId, now: Instant): (Consumption, Tables) {
    var answer := Judged(t, token, node, terminal, newUser, now);
    if answer.Enrolled? then
      var id := TicketOf(t, token).value;
      (answer, EnrolledTables(t, id, EnrollableOperator(t, t.tickets[id].code, now).value, answer.userId, pinHash, now))
    else (answer, t)
  }

  // ---------- authentication ----------

  const MAX_FAILURES := 5
  const FAILURE_WINDOW := 900_000
  const LOCKOUT := 900_000
  const IDLE_SESSION := 1_800_000

  datatype Principal = Principal(
    actor: UserId, permissions: set<Permission>, terminal: TerminalId, node: NodeId,
    idleExpiresAt: Instant, absoluteExpiresAt: Instant, mustChange: bool)

  /** A verified or failed PIN; `issue` is the session to open when it is verified. */
  datatype Attempt = Attempt(
    userId: UserId, credentialVersion: nat, pinVerified: bool, issue: Option<(Token, Instant, Instant)>,
    terminal: TerminalId, node: NodeId)

  datatype Login = Refused | TokenCollision | Authenticated(principal: Principal)

  /** With a usable grant the coordinator's permissions stand in for the local ones. */
  function Effective(t: Tables, u: UserId, now: Instant): set<Permission> {
    var grant := GrantOfUser(t, u);
    if grant.Some? && Usable(t, grant.value, now) then grant.value.permissions else LocalPermissions(t, u)
  }

  function PrincipalOf(t: Tables, s: Session, now: Instant): Principal {
    Principal(s.userId, Effective(t, s.userId, now), s.terminal, s.node, s.idleExpiresAt, s.absoluteExpiresAt,
              s.userId in t.credentials && t.credentials[s.userId].mustChange)
  }

  predicate HasPermission(t: Tables, u: UserId, p: Permission, now: Instant) {
    var grant := GrantOfUser(t, u);
    if grant.Some? then Usable(t, grant.value, now) && p in grant.value.permissions
    else u in t.users && t.users[u].active && Permits(t, u, p)
  }

  predicate Locked(t: Tables, key: (NodeId, UserId), now: Instant) {
    key in t.lockouts && t.lockouts[key].lockedUntil.Some? && now < t.lockouts[key].lockedUntil.value
  }

  function AfterFailure(previous: Option<Lockout>, now: Instant): Lockout {
    var within := previous.Some? && now - previous.value.windowStart < FAILURE_WINDOW;
    var failed := if within then previous.value.failed + 1 else 1;
    Lockout(if within then previous.value.windowStart else now, failed,
            if failed >= MAX_FAILURES then Some(now + LOCKOUT) else None)
  }

  predicate MayAttempt(t: Tables, a: Attempt, now: Instant) {
    && a.userId in t.users && a.userId in t.credentials && t.users[a.userId].active
    && t.credentials[a.userId].version == a.credentialVersion
    && !Locked(t, (a.node, a.userId), now)
  }

  predicate Opens(t: Tables, a: Attempt, now: Instant) {
    MayAttempt(t, a, now) && a.pinVerified && a.issue.Some? && a.issue.value.0 !in t.sessions
  }

  function AttemptTables(t: Tables, a: Attempt, now: Instant): Tables {
    var key := (a.node, a.userId);
    if Opens(t, a, now) then
      var (token, idle, absolute) := a.issue.value;
      t.(lockouts := t.lockouts[key := Lockout(now, 0, None)],
         sessions := t.sessions[token :=
           Session(a.userId, a.terminal, a.node, t.users[a.userId].version, now, idle, absolute, None)])
    else if MayAttempt(t, a, now) && !a.pinVerified then
      t.(lockouts := t.lockouts[key := AfterFailure(if key in t.lockouts then Some(t.lockouts[key]) else None, now)])
    else t
  }

  function Attempted(t: Tables, a: Attempt, now: Instant): (Login, Tables) {
    var t' := AttemptTables(t, a, now);
    (if Opens(t, a, now) then Authenticated(PrincipalOf(t', t'.sessions[a.issue.value.0], now))
     else if MayAttempt(t, a, now) && a.pinVerified && a.issue.Some? then TokenCollision
     else Refused, t')
  }

  predicate Acceptable(t: Tables, token: Token, now: Instant) {
    && token in t.sessions && t.sessions[token].userId in t.users
    && var s := t.sessions[token];
       && s.revokedAt.None?
       && t.users[s.userId].active
       && s.version == t.users[s.userId].version
       && (GrantOfUser(t, s.userId).Some? ==> Usable(t, GrantOfUser(t, s.userId).value, now))
       && now < s.idleExpiresAt
       && now < s.absoluteExpiresAt
  }

  function Touched(s: Session, now: Instant): Session {
    var idle := if now + IDLE_SESSION < s.absoluteExpiresAt then now + IDLE_SESSION else s.absoluteExpiresAt;
    s.(lastSeen := now, idleExpiresAt := idle)
  }

  function VerifiedTables(t: Tables, token: Token, now: Instant): Tables {
    if token !in t.sessions || t.sessions[token].userId !in t.users then t
    else if Acceptable(t, token, now) then t.(sessions := t.sessions[token := Touched(t.sessions[token], now)])
    else Revoked(t, token, now)
  }

  function Verified(t: Tables, token: Token, now: Instant): (Option<Principal>, Tables) {
    var t' := VerifiedTables(t, token, now);
    (if Acceptable(t, token, now) then Some(PrincipalOf(t', t'.sessions[token], now)) else None, t')
  }

  function Revoked(t: Tables, token: Token, now: Instant): Tables {
    if token in t.sessions && t.sessions[token].revokedAt.None?
    then t.(sessions := t.sessions[token := t.sessions[token].(revokedAt := Some(now))])
    else t
  }

  /** A first operator with the ADMIN role and every permission. */
  function WithAdmin(t: Tables, u: UserId, r: RoleId, user: User, pinHash: int, codes: seq<Permission>): Tables {
    t.(users := t.users[u := user],
       credentials := t.credentials[u := Credential(pinHash, 1, false)],
       roles := t.roles[r := Role(ADMIN, ADMIN_NAME, true, true)],
       permissions := Introduced(t.permissions, codes),
       allowed := Joined(t.allowed, r, codes),
       memberships := t.memberships + {Link(u, r)})
  }

  function Provisioned(t: Tables, u: UserId, r: RoleId, code: Code, name: string, pinHash: int, codes: seq<Permission>):
    (Provision, Tables)
  {
    if t.users != map[] then (AlreadyProvisioned, t)
    else if r in t.roles || RoleCodeInUse(t.roles, ADMIN) || !Distinct(codes) then (ProvisionFailed, t)
    else (NewlyProvisioned, WithAdmin(t, u, r, User(code, name, true, 1), pinHash, codes))
  }

  /** A second row for one key, or for the ADMIN code, aborts the transaction. */
  datatype Provision = NewlyProvisioned | AlreadyProvisioned | ProvisionFailed

  predicate Distinct(codes: seq<Permission>) {
    forall i, j :: 0 <= i < j < |codes| ==> codes[i] != codes[j]
  }

  const ADMIN: Code := 0
  const ADMIN_NAME := "Administrador"

  /** `insert or ignore` of each permission, active. */
  function Introduced(permissions: map<Permission, bool>, codes: seq<Permission>): (r: map<Permission, bool>)
    ensures forall p :: p in r <==> p in permissions || p in codes
    ensures forall p :: p in permissions ==> r[p] == permissions[p]
    ensures forall p :: p in r && p !in permissions ==> r[p]
  {
    if codes == [] then permissions
    else
      var last := |codes| - 1;
      assert forall p :: p in codes <==> p in codes[..last] || p == codes[last];
      WithPermission(Introduced(permissions, codes[..last]), codes[last])
  }

  function WithPermission(permissions: map<Permission, bool>, p: Permission): map<Permission, bool> {
    if p in permissions then permissions else permissions[p := true]
  }

  method IntroducePermissions(permissions: map<Permission, bool>, codes: seq<Permission>)
    returns (r: map<Permission, bool>)
    ensures r == Introduced(permissions, codes)
  {
    r := permissions;
    for i := 0 to |codes|
      invariant r == Introduced(permissions, codes[..i])
    {
      r := WithPermission(r, codes[i]);
      assert codes[..i + 1][..i] == codes[..i];
    }
    assert codes[..|codes|] == codes;
  }

  function SessionsPurged(t: Tables, threshold: Instant): Tables {
    t.(sessions := map s | s in t.sessions && threshold <= t.sessions[s].absoluteExpiresAt :: t.sessions[s])
  }

  predicate Purgeable(ticket: Ticket, threshold: Instant) {
    (ticket.consumedAt.Some? && ticket.consumedAt.value < threshold) || ticket.expiresAt < threshold
  }

  function TicketsPurged(t: Tables, threshold: Instant): Tables {
    t.(tickets := map i | i in t.tickets && !Purgeable(t.tickets[i], threshold) :: t.tickets[i])
  }
}
