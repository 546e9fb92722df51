/** What each call of the outbox may touch and what it writes, said of rows and clocks alone. */
module OutboxClaims {
  import opened Wrappers
  import opened Selection
  import opened Outbox

  // ---------- which rows a claim may take ----------

  /** The row a claim finds: the stored one, or the one it makes for a fact without any, due when the fact occurred. */
  function RowBefore(t: Tables, slot: Slot, now: Instant): Delivery
    requires slot.eventId in t.events
  {
    if slot in t.deliveries then t.deliveries[slot]
    else
      Delivery(status := Pending, attempts := 0, cycleAttempts := 0, nextAttemptAt := t.events[slot.eventId].occurredAt,
               leaseUntil := None, lastError := None, publishedAt := None, pausedAt := None, resumedAt := None,
               resumedBy := None, createdAt := now)
  }

  /** Pending and its next attempt has come, or under a lease that has run out. */
  predicate Takeable(row: Delivery, now: Instant) {
    match row.status
    case Pending => row.nextAttemptAt <= now
    case Processing => row.leaseUntil.Some? && row.leaseUntil.value <= now
    case _ => false
  }

  predicate PublishedTo(t: Tables, id: EventId, node: NodeId) {
    Slot(id, node) in t.deliveries && t.deliveries[Slot(id, node)].status == Published
  }

  /** An earlier fact of the same aggregate: a lower version, or the same one with a lower id. */
  predicate Earlier(p: Event, c: Event) {
    && p.aggregate == c.aggregate && p.aggregateVersion <= c.aggregateVersion
    && (p.aggregateVersion == c.aggregateVersion ==> p.eventId < c.eventId)
  }

  /** A fact that may be sent: its row can be taken and all that came before it was published to the node. */
  predicate Sendable(t: Tables, id: EventId, node: NodeId, now: Instant) {
    && id in t.events && Takeable(RowBefore(t, Slot(id, node), now), now)
    && forall p :: p in t.events && Earlier(t.events[p], t.events[id]) ==> PublishedTo(t, p, node)
  }

  /** `a` occurred before `b`, or at the same instant with a lower id. */
  predicate Sooner(t: Tables, a: EventId, b: EventId)
    requires a in t.events && b in t.events
  {
    t.events[a].occurredAt <= t.events[b].occurredAt && (t.events[a].occurredAt == t.events[b].occurredAt ==> a < b)
  }

  predicate Supported(catalog: Catalog, e: Event) {
    e.eventType in catalog ==> e.contractVersion in catalog[e.eventType]
  }

  /** The row of a claim: one generation and one attempt of the cycle more, under the lease. */
  predicate IsLeased(row: Delivery, row': Delivery, leaseUntil: Instant) {
    row' == row.(status := Processing, attempts := row.attempts + 1, cycleAttempts := row.cycleAttempts + 1,
                 leaseUntil := Some(leaseUntil))
  }

  predicate IsIsolated(row: Delivery, row': Delivery) {
    row' == row.(status := Blocked, leaseUntil := None, lastError := Some("OUTBOX_CONTRACT_VERSION_UNSUPPORTED"))
  }

  /** The facts whose row for the node a claim changed. */
  function Changed(t: Tables, t': Tables, node: NodeId, now: Instant): set<EventId> {
    set id | id in t.events && Slot(id, node) in t'.deliveries
             && t'.deliveries[Slot(id, node)] != RowBefore(t, Slot(id, node), now)
  }

  /** The claims a worker is handed. */
  function Handed(t: Tables, catalog: Catalog, node: NodeId, now: Instant, limit: int): seq<Claim> {
    var m := Materialized(t, node, now);
    var rows := Selected(m, node, now, limit);
    SelectedIsSelectable(m, node, now, limit);
    KeptIsDeliverable(m, catalog, rows);
    ClaimsOf(m, node, Kept(m, catalog, rows))
  }

  // ---------- the selection ----------

  lemma SendableIff(t: Tables, id: EventId, node: NodeId, now: Instant)
    ensures Claimable(Materialized(t, node, now), id, node, now) <==> Sendable(t, id, node, now)
  {
  }

  /** What is selected is sendable, in order, within the limit; what is left out is later than all of it. */
  ghost predicate SelectsRightly(t: Tables, rows: seq<EventId>, node: NodeId, now: Instant, limit: int) {
    && (forall id :: id in rows ==> Sendable(t, id, node, now))
    && (forall i, j :: 0 <= i < j < |rows| ==>
          rows[i] != rows[j] && rows[i] in t.events && rows[j] in t.events && Sooner(t, rows[i], rows[j]))
    && (0 <= limit ==> |rows| <= limit)
    && (forall id :: Sendable(t, id, node, now) && id !in rows ==>
          |rows| == limit && forall r :: r in rows ==> r in t.events && Sooner(t, r, id))
  }

  /** All that is sendable, in order. */
  ghost predicate AllInOrder(t: Tables, all: seq<EventId>, node: NodeId, now: Instant) {
    && (forall id :: id in all <==> Sendable(t, id, node, now))
    && (forall i, j :: 0 <= i < j < |all| ==>
          all[i] != all[j] && all[i] in t.events && all[j] in t.events && Sooner(t, all[i], all[j]))
  }

  lemma CandidatesInOrder(t: Tables, node: NodeId, now: Instant)
    ensures AllInOrder(t, Candidates(Materialized(t, node, now), node, now), node, now)
  {
    var m := Materialized(t, node, now);
    var all := Candidates(m, node, now);
    forall id
      ensures id in all <==> Sendable(t, id, node, now)
    {
      SendableIff(t, id, node, now);
    }
    forall i, j | 0 <= i < j < |all|
      ensures all[i] != all[j] && all[i] in t.events && all[j] in t.events && Sooner(t, all[i], all[j])
    {
      assert all[i] in all && all[j] in all && Older(m, all[i], all[j]);
    }
  }

  lemma FirstRowsRightly(t: Tables, all: seq<EventId>, node: NodeId, now: Instant, limit: int)
    requires AllInOrder(t, all, node, now)
    ensures SelectsRightly(t, FirstRows(all, limit), node, now, limit)
  {
    var rows := FirstRows(all, limit);
    assert forall id :: id in rows ==> id in all;
    forall id | Sendable(t, id, node, now) && id !in rows
      ensures |rows| == limit && forall r :: r in rows ==> r in t.events && Sooner(t, r, id)
    {
      var k :| 0 <= k < |all| && all[k] == id;
      assert forall i :: 0 <= i < |rows| ==> rows[i] in rows && all[i] == rows[i];
      assert |rows| <= k;
      forall r | r in rows
        ensures r in t.events && Sooner(t, r, id)
      {
        var i :| 0 <= i < |rows| && rows[i] == r;
        assert all[i] == r && i < k;
      }
    }
  }

  lemma SelectedRightly(t: Tables, node: NodeId, now: Instant, limit: int)
    ensures SelectsRightly(t, Selected(Materialized(t, node, now), node, now, limit), node, now, limit)
  {
    CandidatesInOrder(t, node, now);
    FirstRowsRightly(t, Candidates(Materialized(t, node, now), node, now), node, now, limit);
  }

  // ---------- what the claim writes ----------

  /** What becomes of a row that is selected. */
  predicate Decided(catalog: Catalog, e: Event, row: Delivery, row': Delivery, leaseUntil: Instant) {
    if Supported(catalog, e) then IsLeased(row, row', leaseUntil) else IsIsolated(row, row')
  }

  lemma MarkedSlot(m: Tables, catalog: Catalog, node: NodeId, rows: seq<EventId>, leaseUntil: Instant, slot: Slot)
    requires Selectable(m, node, rows) && slot in m.deliveries
    ensures
      var t' := Marked(m, node, Rejected(m, catalog, rows), Members(Kept(m, catalog, rows)), leaseUntil);
      && slot in t'.deliveries
      && if slot.node != node || slot.eventId !in rows then t'.deliveries[slot] == m.deliveries[slot]
         else Decided(catalog, m.events[slot.eventId], m.deliveries[slot], t'.deliveries[slot], leaseUntil)
  {
    KeptIsDeliverable(m, catalog, rows);
  }

  lemma MaterializedSlot(t: Tables, node: NodeId, now: Instant, slot: Slot)
    ensures
      var m := Materialized(t, node, now).deliveries;
      && (slot in m <==> slot in t.deliveries || (slot.node == node && slot.eventId in t.events))
      && (slot in t.deliveries ==> m[slot] == t.deliveries[slot])
      && (slot in m && slot.eventId in t.events ==> m[slot] == RowBefore(t, slot, now))
  {
    MaterializedIs(t, node, now);
  }

  /** Every row after a claim, given what is selected. */
  lemma ClaimWrites(t: Tables, catalog: Catalog, node: NodeId, now: Instant, leaseUntil: Instant, limit: int,
                    slot: Slot)
    ensures
      var t' := ClaimedTables(t, catalog, node, now, leaseUntil, limit);
      var rows := Selected(Materialized(t, node, now), node, now, limit);
      && t'.events == t.events
      && (slot in t'.deliveries <==> slot in t.deliveries || (slot.node == node && slot.eventId in t.events))
      && (slot in t.deliveries && slot.eventId !in t.events ==> t'.deliveries[slot] == t.deliveries[slot])
      && (slot in t'.deliveries && slot.eventId in t.events ==>
            if slot.node != node || slot.eventId !in rows then t'.deliveries[slot] == RowBefore(t, slot, now)
            else Decided(catalog, t.events[slot.eventId], RowBefore(t, slot, now), t'.deliveries[slot], leaseUntil))
  {
    var m := Materialized(t, node, now);
    var rows := Selected(m, node, now, limit);
    SelectedIsSelectable(m, node, now, limit);
    MaterializedSlot(t, node, now, slot);
    if slot in m.deliveries {
      MarkedSlot(m, catalog, node, rows, leaseUntil, slot);
    }
  }

  lemma ChangedIff(t: Tables, catalog: Catalog, node: NodeId, now: Instant, leaseUntil: Instant, limit: int,
                   id: EventId)
    ensures
      var t' := ClaimedTables(t, catalog, node, now, leaseUntil, limit);
      var rows := Selected(Materialized(t, node, now), node, now, limit);
      id in Changed(t, t', node, now) <==> id in rows
  {
    ClaimWrites(t, catalog, node, now, leaseUntil, limit, Slot(id, node));
    var rows := Selected(Materialized(t, node, now), node, now, limit);
    assert id in rows ==> Takeable(RowBefore(t, Slot(id, node), now), now) by {
      SelectedRightly(t, node, now, limit);
    }
  }

  /** The facts whose rows a claim changes are those selected. */
  lemma ChangedIsSelected(t: Tables, catalog: Catalog, node: NodeId, now: Instant, leaseUntil: Instant, limit: int)
    ensures
      var t' := ClaimedTables(t, catalog, node, now, leaseUntil, limit);
      var rows := Selected(Materialized(t, node, now), node, now, limit);
      Changed(t, t', node, now) == Members(rows) && |Changed(t, t', node, now)| == |rows|
  {
    var t' := ClaimedTables(t, catalog, node, now, leaseUntil, limit);
    var rows := Selected(Materialized(t, node, now), node, now, limit);
    forall id
      ensures id in Changed(t, t', node, now) <==> id in Members(rows)
    {
      ChangedIff(t, catalog, node, now, leaseUntil, limit, id);
    }
    DistinctRows(t, rows, node, now, limit);
  }

  lemma DistinctRows(t: Tables, rows: seq<EventId>, node: NodeId, now: Instant, limit: int)
    requires rows == Selected(Materialized(t, node, now), node, now, limit)
    ensures |Members(rows)| == |rows|
  {
    SelectedRightly(t, node, now, limit);
    SizeOfMembers(rows);
  }

  lemma {:induction false} SizeOfMembers(rows: seq<EventId>)
    requires forall i, j :: 0 <= i < j < |rows| ==> rows[i] != rows[j]
    ensures |Members(rows)| == |rows|
  {
    if rows != [] {
      var n := |rows| - 1;
      SizeOfMembers(rows[..n]);
      MembersOneMore(rows, n);
      assert rows[..n + 1] == rows;
    }
  }

  // ---------- what a claim promises ----------

  /**
   * A claim changes only rows that can be taken of facts whose predecessors were all published: each is
   * leased with one generation more, or isolated when the catalogue lacks its version.
   */
  lemma ClaimTakesOnlySendable(t: Tables, catalog: Catalog, node: NodeId, now: Instant, leaseUntil: Instant,
                               limit: int, slot: Slot)
    ensures
      var t' := ClaimedTables(t, catalog, node, now, leaseUntil, limit);
      && t'.events == t.events
      && (slot in t'.deliveries <==> slot in t.deliveries || (slot.node == node && slot.eventId in t.events))
      && (slot in t.deliveries && slot.eventId !in t.events ==> t'.deliveries[slot] == t.deliveries[slot])
      && (slot in t'.deliveries && slot.eventId in t.events ==>
            var row, row' := RowBefore(t, slot, now), t'.deliveries[slot];
            row' == row || (slot.node == node && Sendable(t, slot.eventId, node, now)
                            && Decided(catalog, t.events[slot.eventId], row, row', leaseUntil)))
  {
    ClaimWrites(t, catalog, node, now, leaseUntil, limit, slot);
    SelectedRightly(t, node, now, limit);
  }

  /** A live lease and a wait are respected, and so is any row that is published, blocked or paused. */
  lemma LiveRowsStand(t: Tables, catalog: Catalog, node: NodeId, now: Instant, leaseUntil: Instant, limit: int,
                      slot: Slot)
    requires slot in t.deliveries
    requires
      var row := t.deliveries[slot];
      || (row.status == Processing && (row.leaseUntil == None || now < row.leaseUntil.value))
      || (row.status == Pending && now < row.nextAttemptAt)
      || row.status == Published || row.status == Blocked || row.status == Paused
    ensures ClaimedTables(t, catalog, node, now, leaseUntil, limit).deliveries[slot] == t.deliveries[slot]
    ensures forall c :: c in Handed(t, catalog, node, now, limit) ==> c.slot != slot
  {
    ClaimTakesOnlySendable(t, catalog, node, now, leaseUntil, limit, slot);
    forall c | c in Handed(t, catalog, node, now, limit)
      ensures c.slot != slot
    {
      HandedIsSendable(t, catalog, node, now, leaseUntil, limit, c);
    }
  }

  /** The claims are those of the selected facts the catalogue supports, in their order. */
  lemma HandedIs(t: Tables, catalog: Catalog, node: NodeId, now: Instant, limit: int)
    ensures
      var claims, m := Handed(t, catalog, node, now, limit), Materialized(t, node, now);
      var rows := Selected(m, node, now, limit);
      && (forall id :: id in rows ==> id in m.events)
      && var kept := Kept(m, catalog, rows);
         && |claims| == |kept|
         && (forall id :: id in kept <==> id in rows && Supported(catalog, t.events[id]))
         && (forall i :: 0 <= i < |kept| ==>
              && kept[i] in kept && claims[i].slot == Slot(kept[i], node) && claims[i].slot in m.deliveries
              && claims[i].attempts == m.deliveries[claims[i].slot].attempts + 1
              && claims[i].cycleAttempts == m.deliveries[claims[i].slot].cycleAttempts + 1)
  {
    var m := Materialized(t, node, now);
    var rows := Selected(m, node, now, limit);
    SelectedIsSelectable(m, node, now, limit);
    KeptIsDeliverable(m, catalog, rows);
  }

  lemma HandedIsSelected(t: Tables, catalog: Catalog, node: NodeId, now: Instant, limit: int, c: Claim)
    requires c in Handed(t, catalog, node, now, limit)
    ensures
      var id := c.slot.eventId;
      && c.slot.node == node && id in Selected(Materialized(t, node, now), node, now, limit)
      && id in t.events && Supported(catalog, t.events[id])
      && c.attempts == RowBefore(t, c.slot, now).attempts + 1
      && c.cycleAttempts == RowBefore(t, c.slot, now).cycleAttempts + 1
  {
    HandedIs(t, catalog, node, now, limit);
    var claims := Handed(t, catalog, node, now, limit);
    var i :| 0 <= i < |claims| && claims[i] == c;
    MaterializedSlot(t, node, now, c.slot);
  }

  /** Every claim is of a supported fact that could be sent, and names the generation its row now has. */
  lemma HandedIsSendable(t: Tables, catalog: Catalog, node: NodeId, now: Instant, leaseUntil: Instant, limit: int,
                         c: Claim)
    requires c in Handed(t, catalog, node, now, limit)
    ensures
      var id, t' := c.slot.eventId, ClaimedTables(t, catalog, node, now, leaseUntil, limit);
      && c.slot.node == node && Sendable(t, id, node, now) && Supported(catalog, t.events[id])
      && c.slot in t'.deliveries && IsLeased(RowBefore(t, c.slot, now), t'.deliveries[c.slot], leaseUntil)
      && c.attempts == t'.deliveries[c.slot].attempts && c.cycleAttempts == t'.deliveries[c.slot].cycleAttempts
  {
    HandedIsSelected(t, catalog, node, now, limit, c);
    SelectedRightly(t, node, now, limit);
    ClaimWrites(t, catalog, node, now, leaseUntil, limit, c.slot);
  }

  /** Every row that was leased is handed to the worker. */
  lemma LeasedIsHanded(t: Tables, catalog: Catalog, node: NodeId, now: Instant, leaseUntil: Instant, limit: int,
                       id: EventId)
    requires id in Changed(t, ClaimedTables(t, catalog, node, now, leaseUntil, limit), node, now)
    requires Supported(catalog, t.events[id])
    ensures exists c :: c in Handed(t, catalog, node, now, limit) && c.slot == Slot(id, node)
  {
    ChangedIff(t, catalog, node, now, leaseUntil, limit, id);
    SelectedIsHanded(t, catalog, node, now, limit, id);
  }

  lemma SelectedIsHanded(t: Tables, catalog: Catalog, node: NodeId, now: Instant, limit: int, id: EventId)
    requires id in Selected(Materialized(t, node, now), node, now, limit) && id in t.events
    requires Supported(catalog, t.events[id])
    ensures exists c :: c in Handed(t, catalog, node, now, limit) && c.slot == Slot(id, node)
  {
    HandedIs(t, catalog, node, now, limit);
    var kept := Kept(Materialized(t, node, now), catalog, Selected(Materialized(t, node, now), node, now, limit));
    var i :| 0 <= i < |kept| && kept[i] == id;
    var c := Handed(t, catalog, node, now, limit)[i];
    assert c in Handed(t, catalog, node, now, limit) && c.slot == Slot(id, node);
  }

  /** A limit that is not negative bounds the rows a claim changes; each is sooner than any sendable one left out. */
  lemma ClaimKeepsLimit(t: Tables, catalog: Catalog, node: NodeId, now: Instant, leaseUntil: Instant, limit: int)
    ensures
      var changed := Changed(t, ClaimedTables(t, catalog, node, now, leaseUntil, limit), node, now);
      && (0 <= limit ==> |changed| <= limit && |Handed(t, catalog, node, now, limit)| <= limit)
      && (forall id :: Sendable(t, id, node, now) && id !in changed ==>
            |changed| == limit && forall c :: c in changed ==> Sooner(t, c, id))
  {
    ChangedIsSelected(t, catalog, node, now, leaseUntil, limit);
    SelectedRightly(t, node, now, limit);
    var m := Materialized(t, node, now);
    SelectedIsSelectable(m, node, now, limit);
    KeptIsShort(m, catalog, Selected(m, node, now, limit));
  }

  lemma {:induction false} KeptIsShort(m: Tables, catalog: Catalog, rows: seq<EventId>)
    requires forall id :: id in rows ==> id in m.events
    ensures |Kept(m, catalog, rows)| <= |rows|
  {
    if rows != [] {
      KeptIsShort(m, catalog, rows[..|rows| - 1]);
    }
  }

  lemma {:induction false} KeptInOrder(t: Tables, m: Tables, catalog: Catalog, rows: seq<EventId>)
    requires m.events == t.events && forall id :: id in rows ==> id in t.events
    requires forall i, j :: 0 <= i < j < |rows| ==> Sooner(t, rows[i], rows[j])
    ensures
      var kept := Kept(m, catalog, rows);
      && (forall id :: id in kept ==> id in rows)
      && (forall i, j :: 0 <= i < j < |kept| ==> kept[i] in kept && kept[j] in kept && Sooner(t, kept[i], kept[j]))
  {
    if rows != [] {
      var n := |rows| - 1;
      var before, kept := Kept(m, catalog, rows[..n]), Kept(m, catalog, rows);
      KeptInOrder(t, m, catalog, rows[..n]);
      assert forall id :: id in rows[..n] ==> id in rows && Sooner(t, id, rows[n]);
      forall i, j | 0 <= i < j < |kept|
        ensures kept[i] in kept && kept[j] in kept && Sooner(t, kept[i], kept[j])
      {
        assert kept[i] == before[i] && before[i] in before;
        assert j < |before| ==> kept[j] == before[j];
      }
    }
  }

  /** The claims come in the order of the facts. */
  lemma HandedInOrder(t: Tables, catalog: Catalog, node: NodeId, now: Instant, limit: int)
    ensures
      var claims := Handed(t, catalog, node, now, limit);
      forall i, j :: 0 <= i < j < |claims| ==>
        && claims[i].slot.eventId in t.events && claims[j].slot.eventId in t.events
        && Sooner(t, claims[i].slot.eventId, claims[j].slot.eventId)
  {
    var m := Materialized(t, node, now);
    SelectedRightly(t, node, now, limit);
    KeptInOrder(t, m, catalog, Selected(m, node, now, limit));
    HandedIs(t, catalog, node, now, limit);
  }

  // ---------- what becomes of a claim ----------

  /** Everything before the fact was published to the node. */
  ghost predicate FirstInLine(t: Tables, slot: Slot) {
    && slot in t.deliveries && slot.eventId in t.events
    && forall p :: p in t.events && Earlier(t.events[p], t.events[slot.eventId]) ==> PublishedTo(t, p, slot.node)
  }

  /** A settlement by a worker whose generation is not the one being processed changes nothing. */
  lemma LateSettlementIsVoid(t: Tables, slot: Slot, attempts: nat, outcome: Outcome)
    requires slot in t.deliveries ==>
      t.deliveries[slot].status != Processing || t.deliveries[slot].attempts != attempts
    ensures SettledTables(t, slot, attempts, outcome) == t
  {
  }

  /** A settlement in time: what it writes of its row, and nothing else. */
  lemma SettlementWrites(t: Tables, slot: Slot, attempts: nat, outcome: Outcome)
    requires slot in t.deliveries && t.deliveries[slot].status == Processing && t.deliveries[slot].attempts == attempts
    ensures
      var row, t' := t.deliveries[slot], SettledTables(t, slot, attempts, outcome);
      && t'.events == t.events && t'.deliveries.Keys == t.deliveries.Keys
      && (forall other :: other in t.deliveries && other != slot ==> t'.deliveries[other] == t.deliveries[other])
      && var row' := t'.deliveries[slot];
         && row'.leaseUntil == None && row'.attempts == row.attempts && row'.createdAt == row.createdAt
         && row'.resumedAt == row.resumedAt && row'.resumedBy == row.resumedBy
         && row'.cycleAttempts == (if outcome.Publish? then 0 else row.cycleAttempts)
         && row'.nextAttemptAt == (if outcome.Fail? then outcome.nextAttemptAt else row.nextAttemptAt)
         && row'.publishedAt == (if outcome.Publish? then Some(outcome.at) else row.publishedAt)
         && row'.pausedAt == (if outcome.Pause? then Some(row.nextAttemptAt) else row.pausedAt)
         && match outcome
            case Publish(_) => row'.status == Published && row'.lastError == None
            case Fail(_, code) => row'.status == Pending && row'.lastError == Some(code)
            case Block(code) => row'.status == Blocked && row'.lastError == Some(code)
            case Pause(code) => row'.status == Paused && row'.lastError == Some(code)
  {
  }

  /** Facts first in line stay so when their own row is written. */
  lemma StaysFirst(t: Tables, t': Tables, slot: Slot)
    requires FirstInLine(t, slot) && t'.events == t.events && slot in t'.deliveries
    requires forall other :: other in t.deliveries && other != slot ==>
      other in t'.deliveries && t'.deliveries[other] == t.deliveries[other]
    ensures FirstInLine(t', slot)
  {
    assert !Earlier(t.events[slot.eventId], t.events[slot.eventId]);
  }

  /** A failed delivery may be sent again exactly from its next attempt on. */
  lemma FailedIsRetried(t: Tables, slot: Slot, attempts: nat, next: Instant, code: string, now: Instant)
    requires FirstInLine(t, slot)
    requires t.deliveries[slot].status == Processing && t.deliveries[slot].attempts == attempts
    ensures Sendable(SettledTables(t, slot, attempts, Fail(next, code)), slot.eventId, slot.node, now) <==> next <= now
  {
    var t' := SettledTables(t, slot, attempts, Fail(next, code));
    SettlementWrites(t, slot, attempts, Fail(next, code));
    StaysFirst(t, t', slot);
  }

  /** A delivery that was published, blocked or paused is not sent again, whenever. */
  lemma ClosedIsNotSent(t: Tables, slot: Slot, attempts: nat, outcome: Outcome, now: Instant)
    requires slot in t.deliveries && t.deliveries[slot].status == Processing && t.deliveries[slot].attempts == attempts
    requires !outcome.Fail?
    ensures !Sendable(SettledTables(t, slot, attempts, outcome), slot.eventId, slot.node, now)
  {
    SettlementWrites(t, slot, attempts, outcome);
  }

  /** A paused delivery that is resumed may be sent from then on, in a new cycle of the same generation. */
  lemma ResumedIsSent(t: Tables, slot: Slot, at: Instant, actor: string, now: Instant)
    requires FirstInLine(t, slot) && t.deliveries[slot].status == Paused
    ensures
      var t' := ResumedTables(t, slot, at, actor);
      && (Sendable(t', slot.eventId, slot.node, now) <==> at <= now)
      && var row' := t'.deliveries[slot];
         && row'.cycleAttempts == 0 && row'.attempts == t.deliveries[slot].attempts
         && row'.resumedAt == Some(at) && row'.resumedBy == Some(actor)
  {
    StaysFirst(t, ResumedTables(t, slot, at, actor), slot);
  }

  /** Only a paused delivery can be resumed. */
  lemma OnlyPausedResumes(t: Tables, slot: Slot, at: Instant, actor: string)
    requires slot in t.deliveries ==> t.deliveries[slot].status != Paused
    ensures ResumedTables(t, slot, at, actor) == t
  {
  }

  /** A claim is active exactly while its generation is being processed and its lease has not run out. */
  lemma ActiveIff(t: Tables, slot: Slot, attempts: nat, now: Instant)
    ensures ClaimActive(t, slot, attempts, now)
      <==> (slot in t.deliveries
            && var row := t.deliveries[slot];
               row.status == Processing && row.attempts == attempts
               && row.leaseUntil != None && now < row.leaseUntil.value)
  {
  }
}
