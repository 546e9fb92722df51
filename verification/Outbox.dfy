/**
 * The sender's outbox: one immutable row per business fact, and one delivery row per fact
 * and destination with its own claim generation, lease, cycle budget and outcome.
 */
module Outbox {
  import opened Wrappers
  import opened Selection

  /* Identifiers matter only through equality and SQLite's total order on them. */
  type EventId = int
  type NodeId = int
  type Instant = int

  datatype Aggregate = Aggregate(originNodeId: NodeId, aggregateType: int, aggregateId: int)

  /** A row of outbox_event; `next_attempt_at` and `created_at` are written from `occurredAt` and stay. */
  datatype Event = Event(
    eventId: EventId, eventType: int, contractVersion: int,
    aggregate: Aggregate, aggregateVersion: int, occurredAt: Instant, body: string)

  datatype Status = Pending | Processing | Published | Blocked | Paused

  datatype Slot = Slot(eventId: EventId, node: NodeId)

  /** A row of sync_delivery. */
  datatype Delivery = Delivery(
    status: Status, attempts: nat, cycleAttempts: nat, nextAttemptAt: Instant,
    leaseUntil: Option<Instant>, lastError: Option<string>, publishedAt: Option<Instant>,
    pausedAt: Option<Instant>, resumedAt: Option<Instant>, resumedBy: Option<string>,
    createdAt: Instant)

  datatype Tables = Tables(events: map<EventId, Event>, deliveries: map<Slot, Delivery>)

  /** The contract versions the closed catalogue publishes for each type. */
  type Catalog = map<int, set<int>>

  /** What a worker holds after claiming: the slot and the generation of its claim. */
  datatype Claim = Claim(slot: Slot, attempts: nat, cycleAttempts: nat)

  /** What the destination's answer becomes in the delivery row. */
  datatype Outcome =
    | Publish(at: Instant)
    | Fail(nextAttemptAt: Instant, failCode: string)
    | Block(blockCode: string)
    | Pause(pauseCode: string)

  // ---------- the queries ----------

  /** The order of facts inside one aggregate. */
  predicate Precedes(p: Event, c: Event) {
    && p.aggregate == c.aggregate
    && (p.aggregateVersion < c.aggregateVersion
        || (p.aggregateVersion == c.aggregateVersion && p.eventId < c.eventId))
  }

  predicate Due(row: Delivery, now: Instant) {
    || (row.status.Pending? && row.nextAttemptAt <= now)
    || (row.status.Processing? && row.leaseUntil.Some? && row.leaseUntil.value <= now)
  }

  predicate IsPublished(t: Tables, slot: Slot) {
    slot in t.deliveries && t.deliveries[slot].status.Published?
  }

  /** No predecessor has a delivery row to `node` that is still unpublished. */
  predicate Unblocked(t: Tables, id: EventId, node: NodeId)
    requires id in t.events
  {
    forall p :: p in t.events && Precedes(t.events[p], t.events[id]) && Slot(p, node) in t.deliveries
                ==> IsPublished(t, Slot(p, node))
  }

  predicate Claimable(t: Tables, id: EventId, node: NodeId, now: Instant) {
    && id in t.events
    && Slot(id, node) in t.deliveries
    && Due(t.deliveries[Slot(id, node)], now)
    && Unblocked(t, id, node)
  }

  function ClaimableSet(t: Tables, node: NodeId, now: Instant): set<EventId> {
    set id | id in t.events && Claimable(t, id, node, now)
  }

  /** `order by created_at, event_id`. */
  predicate Older(t: Tables, a: EventId, b: EventId) {
    var at := (id: EventId) => if id in t.events then t.events[id].occurredAt else 0;
    at(a) < at(b) || (at(a) == at(b) && a < b)
  }

  /** Every claimable row, in that order. */
  function Candidates(t: Tables, node: NodeId, now: Instant): (rows: seq<EventId>)
    ensures |rows| == |ClaimableSet(t, node, now)|
    ensures forall id :: id in rows <==> Claimable(t, id, node, now)
    ensures forall i, j :: 0 <= i < j < |rows| ==> Older(t, rows[i], rows[j])
  {
    Arrange(ClaimableSet(t, node, now), (a, b) => Older(t, a, b))
  }

  function Selected(t: Tables, node: NodeId, now: Instant, limit: int): (rows: seq<EventId>)
    ensures forall id :: id in rows ==> Claimable(t, id, node, now)
    ensures forall i, j :: 0 <= i < j < |rows| ==> Older(t, rows[i], rows[j])
  {
    var all := Candidates(t, node, now);
    var rows := FirstRows(all, limit);
    assert forall id :: id in rows ==> id in all;
    rows
  }

  /** An unknown type is the relay's to judge; a known type needs a published version. */
  predicate Deliverable(catalog: Catalog, e: Event) {
    e.eventType !in catalog || e.contractVersion in catalog[e.eventType]
  }

  // ---------- what each call makes of the tables ----------

  function Enqueued(events: map<EventId, Event>, batch: seq<Event>): (r: map<EventId, Event>)
    ensures r.Keys == events.Keys + set e | e in batch :: e.eventId
    ensures forall id :: id in events ==> r[id] == events[id]
    ensures forall id :: id in r && id !in events ==> r[id] in batch && r[id].eventId == id
    decreases |batch|
  {
    if batch == [] then events
    else
      var last := |batch| - 1;
      assert forall e :: e in batch <==> e in batch[..last] || e == batch[last];
      Inserted(Enqueued(events, batch[..last]), batch[last])
  }

  /** `on conflict do nothing`. */
  function Inserted(events: map<EventId, Event>, e: Event): map<EventId, Event> {
    if e.eventId in events then events else events[e.eventId := e]
  }

  function Fresh(e: Event, now: Instant): Delivery {
    Delivery(Pending, 0, 0, e.occurredAt, None, None, None, None, None, None, now)
  }

  function Materialized(t: Tables, node: NodeId, now: Instant): Tables {
    t.(deliveries := t.deliveries + Missing(t, node, now))
  }

  function Missing(t: Tables, node: NodeId, now: Instant): map<Slot, Delivery> {
    map id | id in t.events && Slot(id, node) !in t.deliveries :: Slot(id, node) := Fresh(t.events[id], now)
  }

  const UNSUPPORTED := "OUTBOX_CONTRACT_VERSION_UNSUPPORTED"

  function Isolated(row: Delivery): Delivery {
    row.(status := Blocked, leaseUntil := None, lastError := Some(UNSUPPORTED))
  }

  function Leased(row: Delivery, leaseUntil: Instant): Delivery {
    row.(status := Processing, attempts := row.attempts + 1, cycleAttempts := row.cycleAttempts + 1,
         leaseUntil := Some(leaseUntil))
  }

  /** The tables with the rows of `isolated` blocked and those of `leased` claimed, for one destination. */
  function Marked(t: Tables, node: NodeId, isolated: set<EventId>, leased: set<EventId>, leaseUntil: Instant): Tables {
    t.(deliveries := map slot | slot in t.deliveries ::
         var row := t.deliveries[slot];
         if slot.node == node && slot.eventId in leased then Leased(row, leaseUntil)
         else if slot.node == node && slot.eventId in isolated then Isolated(row)
         else row)
  }

  function Members(ids: seq<EventId>): set<EventId> {
    set id | id in ids
  }

  /** The selected rows the catalogue lets through, in row order. */
  function Kept(t: Tables, catalog: Catalog, rows: seq<EventId>): seq<EventId>
    requires forall id :: id in rows ==> id in t.events
  {
    if rows == [] then []
    else
      var last := rows[|rows| - 1];
      Kept(t, catalog, rows[..|rows| - 1]) + if Deliverable(catalog, t.events[last]) then [last] else []
  }

  /** The selected rows that are isolated before they can be mapped. */
  function Rejected(t: Tables, catalog: Catalog, rows: seq<EventId>): set<EventId> {
    set id | id in rows && id in t.events && !Deliverable(catalog, t.events[id])
  }

  /**
   * `claimAvailable` on the tables: the selected rows are claimed, or isolated if the catalogue lacks their
   * version.
   */
  function ClaimedTables(t: Tables, catalog: Catalog, node: NodeId, now: Instant, leaseUntil: Instant,
                         limit: int): Tables {
    var m := Materialized(t, node, now);
    var rows := Selected(m, node, now, limit);
    Marked(m, node, Rejected(m, catalog, rows), Members(Kept(m, catalog, rows)), leaseUntil)
  }

  /** The claims handed to the worker: the kept rows, with the generation each of them was given. */
  function ClaimsOf(m: Tables, node: NodeId, kept: seq<EventId>): seq<Claim>
    requires forall id :: id in kept ==> Slot(id, node) in m.deliveries
  {
    seq(|kept|, i requires 0 <= i < |kept| =>
      var row := m.deliveries[Slot(kept[i], node)];
      Claim(Slot(kept[i], node), row.attempts + 1, row.cycleAttempts + 1))
  }

  predicate Holds(t: Tables, slot: Slot, attempts: nat) {
    slot in t.deliveries && t.deliveries[slot].status.Processing? && t.deliveries[slot].attempts == attempts
  }

  function SettledRow(row: Delivery, outcome: Outcome): Delivery {
    var free := row.(leaseUntil := None);
    match outcome
    case Publish(at) =>
      free.(status := Published, publishedAt := Some(at), lastError := None, cycleAttempts := 0)
    case Fail(next, code) => free.(status := Pending, nextAttemptAt := next, lastError := Some(code))
    case Block(code) => free.(status := Blocked, lastError := Some(code))
    case Pause(code) => free.(status := Paused, lastError := Some(code), pausedAt := Some(row.nextAttemptAt))
  }

  /** A settlement takes effect only on the generation that is being processed. */
  function SettledTables(t: Tables, slot: Slot, attempts: nat, outcome: Outcome): Tables {
    if Holds(t, slot, attempts)
    then t.(deliveries := t.deliveries[slot := SettledRow(t.deliveries[slot], outcome)])
    else t
  }

  function ResumedTables(t: Tables, slot: Slot, now: Instant, actor: string): Tables {
    if slot in t.deliveries && t.deliveries[slot].status.Paused?
    then t.(deliveries := t.deliveries[slot := t.deliveries[slot].(
                status := Pending, cycleAttempts := 0, nextAttemptAt := now, leaseUntil := None,
                resumedAt := Some(now), resumedBy := Some(actor))])
    else t
  }

  predicate ClaimActive(t: Tables, slot: Slot, attempts: nat, now: Instant) {
    && Holds(t, slot, attempts)
    && t.deliveries[slot].leaseUntil.Some?
    && now < t.deliveries[slot].leaseUntil.value
  }

  // ---------- one row more in either loop of the claim ----------

  lemma {:induction false} KeptIsDeliverable(t: Tables, catalog: Catalog, rows: seq<EventId>)
    requires forall id :: id in rows ==> id in t.events
    requires forall j, k :: 0 <= j < k < |rows| ==> rows[j] != rows[k]
    ensures forall id :: id in Kept(t, catalog, rows) <==> id in rows && Deliverable(catalog, t.events[id])
    ensures forall j, k :: 0 <= j < k < |Kept(t, catalog, rows)| ==>
      Kept(t, catalog, rows)[j] != Kept(t, catalog, rows)[k]
  {
    if rows != [] {
      KeptIsDeliverable(t, catalog, rows[..|rows| - 1]);
      assert rows == rows[..|rows| - 1] + [rows[|rows| - 1]];
    }
  }

  lemma OneRowMore(m: Tables, catalog: Catalog, rows: seq<EventId>, i: nat)
    requires forall id :: id in rows ==> id in m.events
    requires forall j, k :: 0 <= j < k < |rows| ==> rows[j] != rows[k]
    requires i < |rows| && rows[i] in m.events
    ensures
      var before, after := rows[..i], rows[..i + 1];
      && rows[i] !in Rejected(m, catalog, before)
      && if Deliverable(catalog, m.events[rows[i]]) then
        && Kept(m, catalog, after) == Kept(m, catalog, before) + [rows[i]]
        && Rejected(m, catalog, after) == Rejected(m, catalog, before)
      else
        && Kept(m, catalog, after) == Kept(m, catalog, before)
        && Rejected(m, catalog, after) == Rejected(m, catalog, before) + {rows[i]}
  {
    assert rows[..i + 1][..i] == rows[..i];
    assert forall id :: id in rows[..i + 1] <==> id in rows[..i] || id == rows[i];
  }

  lemma MembersOneMore(ids: seq<EventId>, i: nat)
    requires i < |ids|
    ensures Members(ids[..i + 1]) == Members(ids[..i]) + {ids[i]}
    ensures (forall j, k :: 0 <= j < k < |ids| ==> ids[j] != ids[k]) ==> ids[i] !in Members(ids[..i])
  {
  }

  lemma MarkOneMore(m: Tables, node: NodeId, isolated: set<EventId>, leased: set<EventId>, id: EventId,
                    leaseUntil: Instant)
    requires Slot(id, node) in m.deliveries && id !in isolated && id !in leased
    ensures
      var now := Marked(m, node, isolated, leased, leaseUntil).deliveries;
      var slot := Slot(id, node);
      && slot in now && now[slot] == m.deliveries[slot]
      && now[slot := Leased(now[slot], leaseUntil)] == Marked(m, node, isolated, leased + {id}, leaseUntil).deliveries
      && now[slot := Isolated(now[slot])] == Marked(m, node, isolated + {id}, leased, leaseUntil).deliveries
  {
  }

  ghost predicate Selectable(m: Tables, node: NodeId, rows: seq<EventId>) {
    && (forall j, k :: 0 <= j < k < |rows| ==> rows[j] != rows[k])
    && (forall id :: id in rows ==> id in m.events && Slot(id, node) in m.deliveries
                                    && m.deliveries[Slot(id, node)].status in {Pending, Processing})
  }

  lemma SelectedIsSelectable(m: Tables, node: NodeId, now: Instant, limit: int)
    ensures Selectable(m, node, Selected(m, node, now, limit))
  {
  }

  function Blocking(rows: map<Slot, Delivery>, slot: Slot, attempts: nat, code: string): map<Slot, Delivery> {
    if slot in rows && rows[slot].attempts == attempts && rows[slot].status in {Pending, Processing}
    then rows[slot := rows[slot].(status := Blocked, leaseUntil := None, lastError := Some(code))]
    else rows
  }

  /** Keeps the deliverable rows and isolates the others, so that they do not abort the batch. */
  method Filter(m: Tables, catalog: Catalog, node: NodeId, rows: seq<EventId>, ghost leaseUntil: Instant)
    returns (table: map<Slot, Delivery>, kept: seq<EventId>)
    requires Selectable(m, node, rows)
    ensures kept == Kept(m, catalog, rows)
    ensures table == Marked(m, node, Rejected(m, catalog, rows), {}, leaseUntil).deliveries
  {
    table, kept := m.deliveries, [];
    assert table == Marked(m, node, {}, {}, leaseUntil).deliveries;
    for i := 0 to |rows|
      invariant kept == Kept(m, catalog, rows[..i])
      invariant table == Marked(m, node, Rejected(m, catalog, rows[..i]), {}, leaseUntil).deliveries
    {
      var slot := Slot(rows[i], node);
      OneRowMore(m, catalog, rows, i);
      MarkOneMore(m, node, Rejected(m, catalog, rows[..i]), {}, rows[i], leaseUntil);
      if Deliverable(catalog, m.events[rows[i]]) {
        kept := kept + [rows[i]];
      } else {
        table := Blocking(table, slot, m.deliveries[slot].attempts, UNSUPPORTED);
      }
    }
    assert rows[..|rows|] == rows;
  }

  /** Opens a new generation on every kept row whose generation is still the one selected. */
  method Lease(m: Tables, node: NodeId, filtered: map<Slot, Delivery>, kept: seq<EventId>,
               ghost isolated: set<EventId>, leaseUntil: Instant)
    returns (table: map<Slot, Delivery>)
    requires Selectable(m, node, kept)
    requires Members(kept) !! isolated
    requires filtered == Marked(m, node, isolated, {}, leaseUntil).deliveries
    ensures table == Marked(m, node, isolated, Members(kept), leaseUntil).deliveries
  {
    table := filtered;
    for i := 0 to |kept|
      invariant table == Marked(m, node, isolated, Members(kept[..i]), leaseUntil).deliveries
    {
      var slot := Slot(kept[i], node);
      MembersOneMore(kept, i);
      MarkOneMore(m, node, isolated, Members(kept[..i]), kept[i], leaseUntil);
      if slot in table && table[slot].attempts == m.deliveries[slot].attempts
         && table[slot].status !in {Published, Blocked, Paused} {
        table := table[slot := Leased(table[slot], leaseUntil)];
      }
    }
    assert kept[..|kept|] == kept;
  }

  method ClaimRows(m: Tables, catalog: Catalog, node: NodeId, rows: seq<EventId>, leaseUntil: Instant)
    returns (table: map<Slot, Delivery>, claims: seq<Claim>)
    requires Selectable(m, node, rows)
    ensures table == Marked(m, node, Rejected(m, catalog, rows), Members(Kept(m, catalog, rows)), leaseUntil).deliveries
    ensures (forall id :: id in Kept(m, catalog, rows) ==> Slot(id, node) in m.deliveries)
            && claims == ClaimsOf(m, node, Kept(m, catalog, rows))
  {
    KeptIsDeliverable(m, catalog, rows);
    var filtered, kept := Filter(m, catalog, node, rows, leaseUntil);
    table := Lease(m, node, filtered, kept, Rejected(m, catalog, rows), leaseUntil);
    claims := ClaimsOf(m, node, kept);
  }

  // ---------- one row more in either insert ----------

  /** The first fact of the batch that has its id. */
  predicate FirstOfId(batch: seq<Event>, i: nat)
    requires i < |batch|
  {
    forall j :: 0 <= j < i ==> batch[j].eventId != batch[i].eventId
  }

  /** The first fact of the batch with an id that is new, the one an enqueue stores. */
  predicate StoresFirst(events: map<EventId, Event>, batch: seq<Event>, r: map<EventId, Event>, i: nat)
    requires i < |batch|
  {
    FirstOfId(batch, i) && batch[i].eventId !in events ==> batch[i].eventId in r && r[batch[i].eventId] == batch[i]
  }

  lemma {:induction false} FirstIsStored(events: map<EventId, Event>, batch: seq<Event>, i: nat)
    requires i < |batch|
    ensures StoresFirst(events, batch, Enqueued(events, batch), i)
  {
    var last := |batch| - 1;
    if i < last {
      FirstIsStored(events, batch[..last], i);
      assert FirstOfId(batch, i) ==> FirstOfId(batch[..last], i);
    } else {
      EnqueuedLast(events, batch);
    }
  }

  /** Known facts keep their row; of the facts with an id that is new, the first is stored; nothing else is. */
  lemma EnqueuedIs(events: map<EventId, Event>, batch: seq<Event>)
    ensures
      var r := Enqueued(events, batch);
      && (forall id :: id in r <==> id in events || exists i :: 0 <= i < |batch| && batch[i].eventId == id)
      && (forall id :: id in events ==> r[id] == events[id])
      && (forall i :: 0 <= i < |batch| ==> StoresFirst(events, batch, r, i))
  {
    forall i | 0 <= i < |batch|
      ensures StoresFirst(events, batch, Enqueued(events, batch), i)
    {
      FirstIsStored(events, batch, i);
    }
    forall id | id in Enqueued(events, batch) && id !in events
      ensures exists i :: 0 <= i < |batch| && batch[i].eventId == id
    {
      var i :| 0 <= i < |batch| && batch[i] == Enqueued(events, batch)[id];
    }
  }

  lemma EnqueuedLast(events: map<EventId, Event>, batch: seq<Event>)
    requires batch != []
    ensures
      var last := |batch| - 1;
      FirstOfId(batch, last) && batch[last].eventId !in events ==>
        Enqueued(events, batch)[batch[last].eventId] == batch[last]
  {
    var last := |batch| - 1;
    if FirstOfId(batch, last) && batch[last].eventId !in events {
      assert forall e :: e in batch[..last] ==> e.eventId != batch[last].eventId;
      assert batch[last].eventId !in Enqueued(events, batch[..last]);
    }
  }

  /** Enqueueing facts that are all known changes nothing, so a repeated enqueue is as one. */
  lemma {:induction false} KnownChangeNothing(events: map<EventId, Event>, batch: seq<Event>)
    requires forall e :: e in batch ==> e.eventId in events
    ensures Enqueued(events, batch) == events
  {
    if batch != [] {
      var last := |batch| - 1;
      assert batch[last] in batch;
      KnownChangeNothing(events, batch[..last]);
    }
  }

  lemma EnqueueTwiceIsOnce(events: map<EventId, Event>, batch: seq<Event>)
    ensures Enqueued(Enqueued(events, batch), batch) == Enqueued(events, batch)
  {
    KnownChangeNothing(Enqueued(events, batch), batch);
  }

  /** Every fact has a delivery for the destination; rows there were stay, and the others start pending and due. */
  lemma MaterializedIs(t: Tables, node: NodeId, now: Instant)
    ensures
      var rows := Materialized(t, node, now).deliveries;
      && (forall id :: id in t.events ==> Slot(id, node) in rows)
      && (forall slot :: slot in t.deliveries ==> slot in rows && rows[slot] == t.deliveries[slot])
      && (forall slot :: slot in rows && slot !in t.deliveries ==>
            slot.node == node && slot.eventId in t.events && rows[slot] == Fresh(t.events[slot.eventId], now))
  {
    var rows := Materialized(t, node, now).deliveries;
    forall id | id in t.events
      ensures Slot(id, node) in rows
    {
      assert Slot(id, node) !in t.deliveries ==> Slot(id, node) in Missing(t, node, now);
    }
  }

  /** `insert ... on conflict do nothing`, fact by fact. */
  method InsertEvents(events: map<EventId, Event>, batch: seq<Event>) returns (r: map<EventId, Event>)
    ensures r == Enqueued(events, batch)
  {
    r := events;
    for i := 0 to |batch|
      invariant r == Enqueued(events, batch[..i])
    {
      assert batch[..i + 1][..i] == batch[..i];
      r := Inserted(r, batch[i]);
    }
    assert batch[..|batch|] == batch;
  }

  /** The missing deliveries of the facts in `ids` only. */
  function MaterializedFor(t: Tables, node: NodeId, now: Instant, ids: set<EventId>): map<Slot, Delivery> {
    t.deliveries
    + map id | id in t.events && id in ids && Slot(id, node) !in t.deliveries ::
        Slot(id, node) := Fresh(t.events[id], now)
  }

  /** Inserts the deliveries of these facts that do not exist. */
  method InsertMissing(t: Tables, node: NodeId, now: Instant, ids: seq<EventId>) returns (rows: map<Slot, Delivery>)
    requires forall i :: 0 <= i < |ids| ==> ids[i] in t.events
    ensures rows == MaterializedFor(t, node, now, Members(ids))
  {
    rows := t.deliveries;
    MaterializedForNone(t, node, now, ids);
    for i := 0 to |ids|
      invariant rows == MaterializedFor(t, node, now, Members(ids[..i]))
    {
      MaterializedOneMore(t, node, now, ids, i);
      if Slot(ids[i], node) !in rows {
        rows := rows[Slot(ids[i], node) := Fresh(t.events[ids[i]], now)];
      }
    }
    assert ids[..|ids|] == ids;
  }

  /** `insert ... select ... where not exists`, over every fact. */
  method InsertDeliveries(t: Tables, node: NodeId, now: Instant) returns (rows: map<Slot, Delivery>)
    ensures rows == Materialized(t, node, now).deliveries
  {
    var ids := Ascending(t.events.Keys);
    rows := InsertMissing(t, node, now, ids);
    MaterializedForAll(t, node, now, ids);
  }

  lemma MaterializedOneMore(t: Tables, node: NodeId, now: Instant, ids: seq<EventId>, i: nat)
    requires i < |ids| && ids[i] in t.events
    ensures
      var before, slot := MaterializedFor(t, node, now, Members(ids[..i])), Slot(ids[i], node);
      MaterializedFor(t, node, now, Members(ids[..i + 1]))
        == if slot in before then before else before[slot := Fresh(t.events[ids[i]], now)]
  {
    MembersOneMore(ids, i);
  }

  lemma MaterializedForNone(t: Tables, node: NodeId, now: Instant, ids: seq<EventId>)
    ensures MaterializedFor(t, node, now, Members(ids[..0])) == t.deliveries
  {
  }

  lemma MaterializedForAll(t: Tables, node: NodeId, now: Instant, ids: seq<EventId>)
    requires forall id :: id in ids <==> id in t.events
    ensures MaterializedFor(t, node, now, Members(ids)) == Materialized(t, node, now).deliveries
  {
  }

  // ---------- the store ----------

  class OutboxStore {
    var events: map<EventId, Event>
    var deliveries: map<Slot, Delivery>
    const catalog: Catalog

    function Snapshot(): Tables
      reads this
    {
      Tables(events, deliveries)
    }

    constructor (catalog: Catalog)
      ensures this.catalog == catalog && Snapshot() == Tables(map[], map[])
    {
      this.catalog := catalog;
      events, deliveries := map[], map[];
    }

    method Enqueue(batch: seq<Event>)
      modifies this`events
      ensures Snapshot() == old(Snapshot()).(events := Enqueued(old(events), batch))
      ensures forall id :: id in events <==> id in old(events) || exists i :: 0 <= i < |batch| && batch[i].eventId == id
      ensures forall id :: id in old(events) ==> events[id] == old(events)[id]
      ensures forall i :: 0 <= i < |batch| ==> StoresFirst(old(events), batch, events, i)
    {
      EnqueuedIs(events, batch);
      events := InsertEvents(events, batch);
    }

    method ClaimAvailable(node: NodeId, now: Instant, leaseUntil: Instant, limit: int) returns (claims: seq<Claim>)
      modifies this`deliveries
      ensures Snapshot() == ClaimedTables(old(Snapshot()), catalog, node, now, leaseUntil, limit)
      ensures
        var m := Materialized(old(Snapshot()), node, now);
        var kept := Kept(m, catalog, Selected(m, node, now, limit));
        (forall id :: id in kept ==> Slot(id, node) in m.deliveries) && claims == ClaimsOf(m, node, kept)
    {
      Materialize(node, now);
      var m := Snapshot();
      var rows := Selected(m, node, now, limit);
      SelectedIsSelectable(m, node, now, limit);
      deliveries, claims := ClaimRows(m, catalog, node, rows, leaseUntil);
    }

    method Materialize(node: NodeId, now: Instant)
      modifies this`deliveries
      ensures Snapshot() == Materialized(old(Snapshot()), node, now)
      ensures forall id :: id in events ==> Slot(id, node) in deliveries
      ensures forall slot :: slot in old(deliveries) ==> slot in deliveries && deliveries[slot] == old(deliveries)[slot]
      ensures forall slot :: slot in deliveries && slot !in old(deliveries) ==>
        slot.node == node && slot.eventId in events && deliveries[slot] == Fresh(events[slot.eventId], now)
    {
      MaterializedIs(Snapshot(), node, now);
      deliveries := InsertDeliveries(Snapshot(), node, now);
    }

    method MarkPublished(slot: Slot, attempts: nat, publishedAt: Instant) returns (settled: bool)
      modifies this`deliveries
      ensures settled == Holds(old(Snapshot()), slot, attempts)
      ensures Snapshot() == SettledTables(old(Snapshot()), slot, attempts, Publish(publishedAt))
    {
      settled := slot in deliveries && deliveries[slot].status.Processing? && deliveries[slot].attempts == attempts;
      if settled {
        deliveries := deliveries[slot := deliveries[slot].(
          status := Published, publishedAt := Some(publishedAt), leaseUntil := None, lastError := None,
          cycleAttempts := 0)];
      }
    }

    method MarkFailed(slot: Slot, attempts: nat, nextAttemptAt: Instant, code: string) returns (settled: bool)
      modifies this`deliveries
      ensures settled == Holds(old(Snapshot()), slot, attempts)
      ensures Snapshot() == SettledTables(old(Snapshot()), slot, attempts, Fail(nextAttemptAt, code))
    {
      settled := slot in deliveries && deliveries[slot].status.Processing? && deliveries[slot].attempts == attempts;
      if settled {
        deliveries := deliveries[slot := deliveries[slot].(
          status := Pending, nextAttemptAt := nextAttemptAt, leaseUntil := None, lastError := Some(code))];
      }
    }

    method MarkBlocked(slot: Slot, attempts: nat, code: string) returns (settled: bool)
      modifies this`deliveries
      ensures settled == Holds(old(Snapshot()), slot, attempts)
      ensures Snapshot() == SettledTables(old(Snapshot()), slot, attempts, Block(code))
    {
      settled := slot in deliveries && deliveries[slot].status.Processing? && deliveries[slot].attempts == attempts;
      if settled {
        deliveries := deliveries[slot := deliveries[slot].(
          status := Blocked, leaseUntil := None, lastError := Some(code))];
      }
    }

    method MarkPaused(slot: Slot, attempts: nat, code: string) returns (settled: bool)
      modifies this`deliveries
      ensures settled == Holds(old(Snapshot()), slot, attempts)
      ensures Snapshot() == SettledTables(old(Snapshot()), slot, attempts, Pause(code))
    {
      settled := slot in deliveries && deliveries[slot].status.Processing? && deliveries[slot].attempts == attempts;
      if settled {
        deliveries := deliveries[slot := deliveries[slot].(
          status := Paused, leaseUntil := None, lastError := Some(code),
          pausedAt := Some(deliveries[slot].nextAttemptAt))];
      }
    }

    method ResumeDelivery(slot: Slot, now: Instant, resumedBy: string) returns (resumed: bool)
      modifies this`deliveries
      ensures resumed == (slot in old(deliveries) && old(deliveries)[slot].status.Paused?)
      ensures Snapshot() == ResumedTables(old(Snapshot()), slot, now, resumedBy)
    {
      resumed := slot in deliveries && deliveries[slot].status.Paused?;
      if resumed {
        deliveries := deliveries[slot := deliveries[slot].(
          status := Pending, cycleAttempts := 0, nextAttemptAt := now, leaseUntil := None,
          resumedAt := Some(now), resumedBy := Some(resumedBy))];
      }
    }
  }
}
