/**
 * What the calls and their clocks decide about a session: the life of one token, told from the answers to
 * the calls alone, and when a verification is accepted.
 */
module SessionRuns {
  import opened Wrappers
  import opened Identity
  import opened IdentityRuns

  /**
   * What an observer of the calls knows of a token: nothing, a login that stands with the last
   * verification accepted since, or a login that was ended.
   */
  datatype Watch =
    | Unknown
    | Standing(user: UserId, terminal: TerminalId, node: NodeId, version: nat, idle: Instant, absolute: Instant,
               since: Instant, seen: Option<Instant>)
    | Ended(absolute: Instant, last: Instant, at: Instant)

  /** The call issues the token: a login that names it is answered with a session. */
  predicate Issues(t: Tables, step: Step, now: Instant, token: Token) {
    && step.LogIn? && step.attempt.issue.Some? && step.attempt.issue.value.0 == token
    && Attempted(t, step.attempt, now).0.Authenticated?
  }

  function AtLogin(t: Tables, a: Attempt, now: Instant): Watch
    requires a.issue.Some?
  {
    var version := if a.userId in t.users then t.users[a.userId].version else 0;
    Standing(a.userId, a.terminal, a.node, version, a.issue.value.1, a.issue.value.2, now, None)
  }

  /** The login, or the last verification accepted since. */
  function LastSeen(w: Watch): Instant
    requires !w.Unknown?
  {
    if w.Ended? then w.last else if w.seen.Some? then w.seen.value else w.since
  }

  function Closed(w: Watch, now: Instant): Watch {
    if w.Standing? then Ended(w.absolute, LastSeen(w), now) else w
  }

  function Observed(w: Watch, t: Tables, step: Step, now: Instant, token: Token): Watch {
    if Issues(t, step, now, token) then AtLogin(t, step.attempt, now)
    else if step.Verify? && step.token == token then
      if Verified(t, token, now).0.None? then Closed(w, now)
      else if w.Standing? then w.(seen := Some(now))
      else w
    else if step.Revoke? && step.revoked == token then Closed(w, now)
    else if step.Purge? && !w.Unknown? && w.absolute < step.threshold then Unknown
    else w
  }

  function Watched(w: Watch, b: Books, steps: seq<(Step, Instant)>, token: Token): Watch
    decreases |steps|
  {
    if steps == [] then w
    else Watched(Observed(w, b.t, steps[0].0, steps[0].1, token), Next(b, steps[0].0, steps[0].1), steps[1..], token)
  }

  // ---------- the row of a watched token ----------

  function IdleEnd(w: Watch): Instant
    requires w.Standing?
  {
    if w.seen.None? then w.idle
    else if w.absolute < w.seen.value + 1_800_000 then w.absolute
    else w.seen.value + 1_800_000
  }

  /** The stored session says what the calls did. */
  ghost predicate Agrees(t: Tables, token: Token, w: Watch) {
    && (token in t.sessions <==> !w.Unknown?)
    && (!w.Unknown? ==>
          t.sessions[token].absoluteExpiresAt == w.absolute && t.sessions[token].lastSeen == LastSeen(w))
    && (w.Ended? ==> t.sessions[token].revokedAt == Some(w.at))
    && (w.Standing? ==>
          && w.user in t.users
          && var s := t.sessions[token];
             && s.userId == w.user && s.terminal == w.terminal && s.node == w.node && s.version == w.version
             && s.revokedAt.None? && s.idleExpiresAt == IdleEnd(w))
  }

  lemma LogInAgrees(t: Tables, a: Attempt, now: Instant, token: Token, w: Watch)
    requires Agrees(t, token, w)
    ensures Agrees(AttemptTables(t, a, now), token, Observed(w, t, LogIn(a), now, token))
  {
  }

  /** Calls that leave the row of the token as it is. */
  lemma SameRowAgrees(t: Tables, t': Tables, token: Token, w: Watch)
    requires Agrees(t, token, w) && t'.users == t.users
    requires token in t'.sessions <==> token in t.sessions
    requires token in t.sessions ==> t'.sessions[token] == t.sessions[token]
    ensures Agrees(t', token, w)
  {
  }

  lemma ClosedAgrees(t: Tables, now: Instant, token: Token, w: Watch)
    requires Agrees(t, token, w)
    ensures Agrees(Revoked(t, token, now), token, Closed(w, now))
  {
  }

  lemma TouchedAgrees(t: Tables, now: Instant, token: Token, w: Watch)
    requires Agrees(t, token, w) && w.Standing?
    ensures Agrees(t.(sessions := t.sessions[token := Touched(t.sessions[token], now)]), token, w.(seen := Some(now)))
  {
  }

  lemma OwnVerifyAgrees(t: Tables, now: Instant, token: Token, w: Watch)
    requires Keyed(t) && Agrees(t, token, w)
    ensures Agrees(VerifiedTables(t, token, now), token, Observed(w, t, Verify(token), now, token))
  {
    if Acceptable(t, token, now) {
      TouchedAgrees(t, now, token, w);
    } else {
      ClosedAgrees(t, now, token, w);
    }
  }

  lemma OtherVerifyAgrees(t: Tables, presented: Token, now: Instant, token: Token, w: Watch)
    requires Agrees(t, token, w) && presented != token
    ensures Agrees(VerifiedTables(t, presented, now), token, w)
  {
    SameRowAgrees(t, VerifiedTables(t, presented, now), token, w);
  }

  lemma VerifyAgrees(t: Tables, presented: Token, now: Instant, token: Token, w: Watch)
    requires Keyed(t) && Agrees(t, token, w)
    ensures Agrees(VerifiedTables(t, presented, now), token, Observed(w, t, Verify(presented), now, token))
  {
    if presented == token {
      OwnVerifyAgrees(t, now, token, w);
    } else {
      OtherVerifyAgrees(t, presented, now, token, w);
    }
  }

  lemma RevokeAgrees(t: Tables, revoked: Token, now: Instant, token: Token, w: Watch)
    requires Agrees(t, token, w)
    ensures Agrees(Revoked(t, revoked, now), token, Observed(w, t, Revoke(revoked), now, token))
  {
    if revoked == token {
      ClosedAgrees(t, now, token, w);
    } else {
      SameRowAgrees(t, Revoked(t, revoked, now), token, w);
    }
  }

  lemma PurgeAgrees(t: Tables, threshold: Instant, now: Instant, token: Token, w: Watch)
    requires Agrees(t, token, w)
    ensures Agrees(SessionsPurged(t, threshold), token, Observed(w, t, Purge(threshold), now, token))
  {
  }

  lemma OtherStepAgrees(t: Tables, t': Tables, token: Token, w: Watch)
    requires Agrees(t, token, w) && t'.sessions == t.sessions && Honest(t, t')
    ensures Agrees(t', token, w)
  {
  }

  lemma SessionStepAgrees(t: Tables, step: Step, now: Instant, token: Token, w: Watch)
    requires Keyed(t) && Agrees(t, token, w) && (step.LogIn? || step.Verify? || step.Revoke? || step.Purge?)
    ensures Agrees(Edited(t, step, now), token, Observed(w, t, step, now, token))
  {
    match step
    case LogIn(a) => LogInAgrees(t, a, now, token, w);
    case Verify(presented) => VerifyAgrees(t, presented, now, token, w);
    case Revoke(revoked) => RevokeAgrees(t, revoked, now, token, w);
    case Purge(threshold) => PurgeAgrees(t, threshold, now, token, w);
  }

  lemma StepAgrees(t: Tables, step: Step, now: Instant, token: Token, w: Watch)
    requires Keyed(t) && Agrees(t, token, w)
    ensures Agrees(Edited(t, step, now), token, Observed(w, t, step, now, token))
  {
    if step.LogIn? || step.Verify? || step.Revoke? || step.Purge? {
      SessionStepAgrees(t, step, now, token, w);
    } else {
      EditIsHonest(t, step, now);
      SessionsUntouched(t, step, now);
      OtherStepAgrees(t, Edited(t, step, now), token, w);
    }
  }

  lemma {:induction false} RunAgrees(b: Books, steps: seq<(Step, Instant)>, token: Token, w: Watch)
    requires Keyed(b.t) && Agrees(b.t, token, w)
    ensures Keyed(Run(b, steps).t) && Agrees(Run(b, steps).t, token, Watched(w, b, steps, token))
    decreases |steps|
  {
    if steps != [] {
      var (step, now) := steps[0];
      StepAgrees(b.t, step, now, token, w);
      EditIsHonest(b.t, step, now);
      assert Next(b, step, now).t == Edited(b.t, step, now);
      RunAgrees(Next(b, step, now), steps[1..], token, Observed(w, b.t, step, now, token));
    }
  }

  // ---------- when a verification is accepted ----------

  /** The grant is active and outlives the clock, every session seen and every grant applied. */
  ghost predicate Stands(t: Tables, g: Grant, now: Instant) {
    && g.active && now < g.expiresAt
    && (forall s :: s in t.sessions ==> t.sessions[s].lastSeen < g.expiresAt)
    && (forall o :: o in t.grants ==> t.grants[o].appliedAt < g.expiresAt)
  }

  /** The grant at place `i` is the first of an operator code. */
  predicate FirstOf(t: Tables, i: int, code: Code) {
    && 0 <= i < |t.grantOrder| && t.grantOrder[i] in t.grants && t.grants[t.grantOrder[i]].code == code
    && forall j :: 0 <= j < i && t.grantOrder[j] in t.grants ==> t.grants[t.grantOrder[j]].code != code
  }

  /** No grant of the operator's code forbids it: there is none, or the first one stands. */
  ghost predicate Ungoverned(t: Tables, code: Code, now: Instant) {
    forall i :: FirstOf(t, i, code) ==> Stands(t, t.grants[t.grantOrder[i]], now)
  }

  lemma {:induction false} FirstGrantIs(t: Tables, order: seq<UserId>, code: Code, i: int)
    requires FirstOf(t.(grantOrder := order), i, code)
    ensures FirstGrant(t.grants, order, code) == Some(t.grants[order[i]])
  {
    if i > 0 {
      FirstGrantIs(t, order[1..], code, i - 1);
    }
  }

  lemma {:induction false} SomeFirst(t: Tables, order: seq<UserId>, code: Code)
    requires FirstGrant(t.grants, order, code).Some?
    ensures exists i :: FirstOf(t.(grantOrder := order), i, code)
  {
    if order[0] in t.grants && t.grants[order[0]].code == code {
      assert FirstOf(t.(grantOrder := order), 0, code);
    } else {
      SomeFirst(t, order[1..], code);
      var i :| FirstOf(t.(grantOrder := order[1..]), i, code);
      assert FirstOf(t.(grantOrder := order), i + 1, code);
    }
  }

  /** The grant the store finds is the first of its code. */
  lemma FoundIsFirst(t: Tables, code: Code)
    ensures forall i :: FirstOf(t, i, code) ==> FindGrant(t, code) == Some(t.grants[t.grantOrder[i]])
    ensures FindGrant(t, code).Some? ==> exists i :: FirstOf(t, i, code)
  {
    assert t.(grantOrder := t.grantOrder) == t;
    forall i | FirstOf(t, i, code)
      ensures FindGrant(t, code) == Some(t.grants[t.grantOrder[i]])
    {
      FirstGrantIs(t, t.grantOrder, code, i);
    }
    if FindGrant(t, code).Some? {
      SomeFirst(t, t.grantOrder, code);
    }
  }

  /** The grant found is usable exactly when it stands. */
  lemma UngovernedIff(t: Tables, code: Code, now: Instant)
    ensures Ungoverned(t, code, now) <==> FindGrant(t, code).None? || Usable(t, FindGrant(t, code).value, now)
  {
    FoundIsFirst(t, code);
  }

  /** The session is not past its end given at login, nor idle since the last verification accepted. */
  predicate Unexpired(w: Watch, now: Instant)
    requires w.Standing?
  {
    && now < w.absolute
    && (if w.seen.None? then now < w.idle else now < w.seen.value + 1_800_000)
  }

  lemma AgreedIff(t: Tables, token: Token, w: Watch, now: Instant)
    requires Agrees(t, token, w)
    ensures Verified(t, token, now).0.Some?
      <==> (w.Standing? && Unexpired(w, now) && t.users[w.user].active && t.users[w.user].version == w.version
            && Ungoverned(t, t.users[w.user].code, now))
  {
    if w.Standing? {
      UngovernedIff(t, t.users[w.user].code, now);
    }
  }

  /**
   * In every history of a node, from before its first session: a verification is accepted exactly when the token
   * was issued and neither revoked, refused nor purged since, its times have not run out, and its operator is
   * active, has the version of the login and is under no grant that does not stand.
   */
  lemma AcceptedIff(start: Books, steps: seq<(Step, Instant)>, token: Token, now: Instant)
    requires Fresh(start)
    ensures
      var t, w := Run(start, steps).t, Watched(Unknown, start, steps, token);
      && (w.Standing? ==> w.user in t.users)
      && (Verified(t, token, now).0.Some?
          <==> (w.Standing? && Unexpired(w, now) && t.users[w.user].active && t.users[w.user].version == w.version
                && Ungoverned(t, t.users[w.user].code, now)))
  {
    RunAgrees(start, steps, token, Unknown);
    AgreedIff(Run(start, steps).t, token, Watched(Unknown, start, steps, token), now);
  }

  /** The principal of an accepted verification, and the times it is given. */
  lemma AcceptedPrincipal(start: Books, steps: seq<(Step, Instant)>, token: Token, now: Instant)
    requires Fresh(start) && Verified(Run(start, steps).t, token, now).0.Some?
    ensures
      var t, w := Run(start, steps).t, Watched(Unknown, start, steps, token);
      var p := Verified(t, token, now).0.value;
      && w.Standing? && p.actor == w.user && p.terminal == w.terminal && p.node == w.node
      && p.absoluteExpiresAt == w.absolute
      && p.idleExpiresAt == (if w.absolute < now + 1_800_000 then w.absolute else now + 1_800_000)
      && (p.mustChange <==> w.user in t.credentials && t.credentials[w.user].mustChange)
  {
    RunAgrees(start, steps, token, Unknown);
    AgreedIff(Run(start, steps).t, token, Watched(Unknown, start, steps, token), now);
  }

  /**
   * The row says when the token was last seen, at its login or at the last verification accepted since, and when it
   * was first revoked or refused.
   */
  lemma SeenIsLast(start: Books, steps: seq<(Step, Instant)>, token: Token)
    requires Fresh(start)
    ensures
      var t, w := Run(start, steps).t, Watched(Unknown, start, steps, token);
      && (token in t.sessions <==> !w.Unknown?)
      && (token in t.sessions ==>
            && t.sessions[token].lastSeen == LastSeen(w)
            && t.sessions[token].revokedAt == if w.Ended? then Some(w.at) else None)
  {
    RunAgrees(start, steps, token, Unknown);
  }

  /**
   * What an accepted session may do: what the first grant of its operator's code says, or, without a grant, the
   * active permissions that some active role of the operator has.
   */
  lemma AcceptedMay(t: Tables, token: Token, now: Instant, p: Permission)
    requires Verified(t, token, now).0.Some?
    ensures
      var may := p in Verified(t, token, now).0.value.permissions;
      var u := t.sessions[token].userId;
      && u in t.users
      && (forall i :: FirstOf(t, i, t.users[u].code) ==>
            (may <==> p in t.grants[t.grantOrder[i]].permissions))
      && ((forall i :: !FirstOf(t, i, t.users[u].code)) ==>
            (may <==> p in t.permissions && t.permissions[p]
                      && exists r :: r in t.roles && t.roles[r].active && Link(u, r) in t.memberships
                                     && Link(r, p) in t.allowed))
  {
    var u := t.sessions[token].userId;
    TouchKeepsAuthority(t, token, now);
    FoundIsFirst(t, t.users[u].code);
  }

  /**
   * What authorizes an action: the first grant of the operator's code, while it stands; or, without one, an active
   * role of an active operator that has the active permission.
   */
  lemma AuthorizedIff(t: Tables, u: UserId, p: Permission, now: Instant)
    ensures
      var may := HasPermission(t, u, p, now);
      && (u !in t.users ==> !may)
      && (u in t.users ==>
            && (forall i :: FirstOf(t, i, t.users[u].code) ==>
                  (may <==> Stands(t, t.grants[t.grantOrder[i]], now) && p in t.grants[t.grantOrder[i]].permissions))
            && ((forall i :: !FirstOf(t, i, t.users[u].code)) ==>
                  (may <==> t.users[u].active && p in t.permissions && t.permissions[p]
                            && exists r :: r in t.roles && t.roles[r].active && Link(u, r) in t.memberships
                                           && Link(r, p) in t.allowed)))
  {
    if u in t.users {
      FoundIsFirst(t, t.users[u].code);
    }
  }

  // ---------- a session that was ended ----------

  predicate NeverIssued(b: Books, steps: seq<(Step, Instant)>, token: Token)
    decreases |steps|
  {
    steps == [] ||
    (!Issues(b.t, steps[0].0, steps[0].1, token) && NeverIssued(Next(b, steps[0].0, steps[0].1), steps[1..], token))
  }

  /** The call ends the session of a token: it revokes it, or verifies it and is refused. */
  predicate Ends(t: Tables, step: Step, now: Instant, token: Token) {
    || (step.Revoke? && step.revoked == token)
    || (step.Verify? && step.token == token && Verified(t, token, now).0.None?)
  }

  lemma {:induction false} EndedStays(w: Watch, b: Books, steps: seq<(Step, Instant)>, token: Token)
    requires !w.Standing? && NeverIssued(b, steps, token)
    ensures !Watched(w, b, steps, token).Standing?
    decreases |steps|
  {
    if steps != [] {
      EndedStays(Observed(w, b.t, steps[0].0, steps[0].1, token), Next(b, steps[0].0, steps[0].1), steps[1..], token);
    }
  }

  /**
   * Once a token is revoked, or a verification of it refused, no later verification accepts it, whatever comes
   * between, unless a login issues it anew.
   */
  lemma EndedForGood(start: Books, steps: seq<(Step, Instant)>, ending: Step, at: Instant,
                     later: seq<(Step, Instant)>, token: Token, now: Instant)
    requires Fresh(start) && Ends(Run(start, steps).t, ending, at, token)
    requires NeverIssued(Next(Run(start, steps), ending, at), later, token)
    ensures Verified(Run(Next(Run(start, steps), ending, at), later).t, token, now).0.None?
  {
    var b := Run(start, steps);
    var w := Watched(Unknown, start, steps, token);
    RunAgrees(start, steps, token, Unknown);
    StepAgrees(b.t, ending, at, token, w);
    EditIsHonest(b.t, ending, at);
    var b', w' := Next(b, ending, at), Observed(w, b.t, ending, at, token);
    assert b'.t == Edited(b.t, ending, at);
    RunAgrees(b', later, token, w');
    EndedStays(w', b', later, token);
    AgreedIff(Run(b', later).t, token, Watched(w', b', later, token), now);
  }
}
