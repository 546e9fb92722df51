/** What every call of the outbox keeps, and what it promises about order, fencing and progress. */
module OutboxOrder {
  import opened Wrappers
  import opened Selection
  import opened Outbox

  /** A row that was ever claimed, or that left PENDING. */
  predicate Touched(row: Delivery) {
    row.attempts > 0 || !row.status.Pending?
  }

  ghost predicate Keyed(t: Tables) {
    && (forall id :: id in t.events ==> t.events[id].eventId == id)
    && (forall slot :: slot in t.deliveries ==> slot.eventId in t.events)
  }

  predicate RowSound(row: Delivery) {
    && row.cycleAttempts <= row.attempts
    && (row.status in {Processing, Published, Paused} ==> row.attempts > 0)
    && (row.status.Processing? <==> row.leaseUntil.Some?)
  }

  ghost predicate RowsSound(t: Tables) {
    forall slot :: slot in t.deliveries ==> RowSound(t.deliveries[slot])
  }

  /** All the predecessors of a row are published to its destination. */
  ghost predicate Clear(t: Tables, slot: Slot) {
    slot.eventId in t.events
    && forall p :: p in t.events && Precedes(t.events[p], t.events[slot.eventId]) ==> IsPublished(t, Slot(p, slot.node))
  }

  ghost predicate Ordered(t: Tables) {
    forall slot :: slot in t.deliveries && Touched(t.deliveries[slot]) ==> Clear(t, slot)
  }

  ghost predicate Sound(t: Tables) {
    Keyed(t) && RowsSound(t) && Ordered(t)
  }

  /** No fact that `batch` adds precedes a fact some destination has already been offered. */
  ghost predicate InOrder(t: Tables, batch: seq<Event>)
    requires Keyed(t)
  {
    var r := Enqueued(t.events, batch);
    forall id, slot :: id in r && id !in t.events && slot in t.deliveries && Touched(t.deliveries[slot])
                       ==> !Precedes(r[id], t.events[slot.eventId])
  }

  // ---------- every call keeps the tables sound ----------

  /** Enqueueing in order is exactly what the per-aggregate order needs. */
  lemma EnqueueKeepsIff(t: Tables, batch: seq<Event>)
    requires Sound(t)
    ensures Sound(t.(events := Enqueued(t.events, batch))) <==> InOrder(t, batch)
  {
  }

  const SECOND := Event(2, 0, 1, Aggregate(1, 0, 0), 2, 10, "")
  const FIRST := Event(3, 0, 1, Aggregate(1, 0, 0), 1, 5, "")

  /** The second fact of an aggregate, being processed for node 9. */
  const OFFERED := Tables(
    map[2 := SECOND], map[Slot(2, 9) := Leased(Fresh(SECOND, 10), 20)])

  /** The first fact enqueued after the second was offered: the order is lost. */
  lemma LateFactBreaksOrder()
    ensures Sound(OFFERED) && !Sound(OFFERED.(events := Enqueued(OFFERED.events, [FIRST])))
  {
    var t := OFFERED.(events := Enqueued(OFFERED.events, [FIRST]));
    assert Enqueued(OFFERED.events, []) == OFFERED.events && [FIRST][..0] == [];
    assert t.events[3] == FIRST && Precedes(FIRST, SECOND);
    assert Touched(t.deliveries[Slot(2, 9)]) && !IsPublished(t, Slot(3, 9));
    assert !Clear(t, Slot(2, 9));
  }

  lemma MaterializeKeeps(t: Tables, node: NodeId, now: Instant)
    requires Sound(t)
    ensures Sound(Materialized(t, node, now))
    ensures forall id :: id in t.events ==> Slot(id, node) in Materialized(t, node, now).deliveries
  {
  }

  lemma MarkKeeps(t: Tables, node: NodeId, isolated: set<EventId>, leased: set<EventId>, leaseUntil: Instant)
    requires Sound(t)
    requires forall id :: id in isolated + leased ==>
      id in t.events && Slot(id, node) in t.deliveries && !IsPublished(t, Slot(id, node)) && Clear(t, Slot(id, node))
    ensures Sound(Marked(t, node, isolated, leased, leaseUntil))
  {
  }

  lemma SelectedIsClear(t: Tables, node: NodeId, now: Instant, limit: int)
    requires Sound(t) && forall id :: id in t.events ==> Slot(id, node) in t.deliveries
    ensures forall id :: id in Selected(t, node, now, limit) ==>
      id in t.events && Slot(id, node) in t.deliveries && !IsPublished(t, Slot(id, node)) && Clear(t, Slot(id, node))
  {
  }

  lemma ClaimKeeps(t: Tables, catalog: Catalog, node: NodeId, now: Instant, leaseUntil: Instant, limit: int)
    requires Sound(t)
    ensures Sound(ClaimedTables(t, catalog, node, now, leaseUntil, limit))
  {
    var m := Materialized(t, node, now);
    var rows := Selected(m, node, now, limit);
    MaterializeKeeps(t, node, now);
    SelectedIsClear(m, node, now, limit);
    MarkRowsKeeps(m, catalog, node, rows, leaseUntil);
  }

  lemma MarkRowsKeeps(m: Tables, catalog: Catalog, node: NodeId, rows: seq<EventId>, leaseUntil: Instant)
    requires Sound(m)
    requires forall j, k :: 0 <= j < k < |rows| ==> rows[j] != rows[k]
    requires forall id :: id in rows ==>
      id in m.events && Slot(id, node) in m.deliveries && !IsPublished(m, Slot(id, node)) && Clear(m, Slot(id, node))
    ensures Sound(Marked(m, node, Rejected(m, catalog, rows), Members(Kept(m, catalog, rows)), leaseUntil))
  {
    KeptIsDeliverable(m, catalog, rows);
    MarkKeeps(m, node, Rejected(m, catalog, rows), Members(Kept(m, catalog, rows)), leaseUntil);
  }

  lemma SettleKeeps(t: Tables, slot: Slot, attempts: nat, outcome: Outcome)
    requires Sound(t)
    ensures Sound(SettledTables(t, slot, attempts, outcome))
  {
  }

  lemma ResumeKeeps(t: Tables, slot: Slot, now: Instant, actor: string)
    requires Sound(t)
    ensures Sound(ResumedTables(t, slot, now, actor))
  {
  }

  // ---------- order ----------

  /** A head that is not published stops every successor, for its own destination. */
  lemma HeadStopsSuccessors(t: Tables, head: EventId, id: EventId, node: NodeId)
    requires Sound(t) && head in t.events && id in t.events && Precedes(t.events[head], t.events[id])
    requires Slot(id, node) in t.deliveries && !IsPublished(t, Slot(head, node))
    ensures t.deliveries[Slot(id, node)].status.Pending? && t.deliveries[Slot(id, node)].attempts == 0
  {
  }

  lemma OneProcessingPerAggregate(t: Tables, a: Slot, b: Slot)
    requires Sound(t) && a in t.deliveries && b in t.deliveries && a.node == b.node
    requires t.events[a.eventId].aggregate == t.events[b.eventId].aggregate
    requires t.deliveries[a].status.Processing? && t.deliveries[b].status.Processing?
    ensures a == b
  {
  }

  /** A claim batch never touches another destination's rows. */
  lemma DestinationsAreIndependent(t: Tables, catalog: Catalog, node: NodeId, now: Instant, leaseUntil: Instant,
                                   limit: int, other: Slot)
    requires other.node != node
    ensures
      var t' := ClaimedTables(t, catalog, node, now, leaseUntil, limit);
      (other in t'.deliveries <==> other in t.deliveries)
      && (other in t.deliveries ==> t'.deliveries[other] == t.deliveries[other])
  {
  }

  // ---------- progress ----------

  /** The least unpublished fact of its aggregate for a destination. */
  ghost predicate Head(t: Tables, id: EventId, node: NodeId) {
    id in t.events && Slot(id, node) in t.deliveries && !IsPublished(t, Slot(id, node)) && Clear(t, Slot(id, node))
  }

  /** If some head is due, the claim takes at least one row: it opens a generation or isolates it. */
  lemma ClaimProgress(t: Tables, catalog: Catalog, node: NodeId, now: Instant, leaseUntil: Instant, limit: int,
                      head: EventId)
    requires Sound(t) && limit != 0
    requires Head(Materialized(t, node, now), head, node)
    requires Due(Materialized(t, node, now).deliveries[Slot(head, node)], now)
    ensures
      var m := Materialized(t, node, now);
      var t' := ClaimedTables(t, catalog, node, now, leaseUntil, limit);
      exists id :: id in Selected(m, node, now, limit) && Slot(id, node) in t'.deliveries
        && if Deliverable(catalog, m.events[id])
           then t'.deliveries[Slot(id, node)] == Leased(m.deliveries[Slot(id, node)], leaseUntil)
           else t'.deliveries[Slot(id, node)] == Isolated(m.deliveries[Slot(id, node)])
  {
    var m := Materialized(t, node, now);
    var rows := Selected(m, node, now, limit);
    DueHeadSelects(m, node, now, limit, head);
    SelectedIsMarked(m, catalog, node, rows, leaseUntil, rows[0]);
  }

  lemma SelectedIsMarked(m: Tables, catalog: Catalog, node: NodeId, rows: seq<EventId>, leaseUntil: Instant,
                         id: EventId)
    requires Selectable(m, node, rows) && id in rows && Slot(id, node) in m.deliveries
    ensures
      var t' := Marked(m, node, Rejected(m, catalog, rows), Members(Kept(m, catalog, rows)), leaseUntil);
      && Slot(id, node) in t'.deliveries
      && if Deliverable(catalog, m.events[id])
         then t'.deliveries[Slot(id, node)] == Leased(m.deliveries[Slot(id, node)], leaseUntil)
         else t'.deliveries[Slot(id, node)] == Isolated(m.deliveries[Slot(id, node)])
  {
    KeptIsDeliverable(m, catalog, rows);
  }

  lemma DueHeadSelects(m: Tables, node: NodeId, now: Instant, limit: int, head: EventId)
    requires Head(m, head, node) && Due(m.deliveries[Slot(head, node)], now) && limit != 0
    ensures Selected(m, node, now, limit) != []
  {
    assert head in ClaimableSet(m, node, now);
    assert |ClaimableSet(m, node, now)| > 0;
  }

  /** Every unpublished fact waits behind an unpublished head of its aggregate, possibly itself. */
  lemma WaitsBehindHead(t: Tables, id: EventId, node: NodeId)
    requires Keyed(t) && id in t.events && !IsPublished(t, Slot(id, node))
    requires forall p :: p in t.events ==> Slot(p, node) in t.deliveries
    ensures exists head :: Head(t, head, node) && (head == id || Precedes(t.events[head], t.events[id]))
  {
    var open := set p | p in t.events && t.events[p].aggregate == t.events[id].aggregate
      && !IsPublished(t, Slot(p, node));
    var before := (a: EventId, b: EventId) => a in t.events && b in t.events && Precedes(t.events[a], t.events[b]);
    assert id in open;
    HasLeast(open, before);
    var head :| Leads(head, open, before);
    forall p | p in t.events && Precedes(t.events[p], t.events[head])
      ensures IsPublished(t, Slot(p, node))
    {
      assert p in open ==> before(head, p);
    }
    assert Head(t, head, node);
  }
}
