/** Repeated batches whose every claim is acknowledged terminate, and leave only heads that wait for someone else. */
module OutboxDrain {
  import opened Outbox
  import opened OutboxOrder

  /** The relay confirms each claim of a batch in turn, at the generation it holds. */
  function Acknowledged(t: Tables, claims: seq<Claim>, at: Instant): Tables
    decreases |claims|
  {
    if claims == [] then t
    else Acknowledged(SettledTables(t, claims[0].slot, claims[0].attempts, Publish(at)), claims[1..], at)
  }

  lemma {:induction false} AcknowledgedPublishes(t: Tables, claims: seq<Claim>, at: Instant)
    requires forall i, j :: 0 <= i < j < |claims| ==> claims[i].slot != claims[j].slot
    ensures
      var t' := Acknowledged(t, claims, at);
      && t'.events == t.events && t'.deliveries.Keys == t.deliveries.Keys
      && (forall c :: c in claims && Holds(t, c.slot, c.attempts) ==> IsPublished(t', c.slot))
      && (forall slot :: slot in t.deliveries && (forall c :: c in claims ==> c.slot != slot)
                         ==> t'.deliveries[slot] == t.deliveries[slot])
    decreases |claims|
  {
    if claims != [] {
      var next := SettledTables(t, claims[0].slot, claims[0].attempts, Publish(at));
      AcknowledgedPublishes(next, claims[1..], at);
      assert forall c :: c in claims <==> c == claims[0] || c in claims[1..];
      assert forall c :: c in claims[1..] ==> c.slot != claims[0].slot;
    }
  }

  lemma {:induction false} AcknowledgedKeeps(t: Tables, claims: seq<Claim>, at: Instant)
    requires Sound(t)
    ensures Sound(Acknowledged(t, claims, at))
    decreases |claims|
  {
    if claims != [] {
      SettleKeeps(t, claims[0].slot, claims[0].attempts, Publish(at));
      AcknowledgedKeeps(SettledTables(t, claims[0].slot, claims[0].attempts, Publish(at)), claims[1..], at);
    }
  }

  /** A batch that takes the selected rows of materialized tables and confirms every claim. */
  function Batch(m: Tables, catalog: Catalog, node: NodeId, now: Instant, leaseUntil: Instant, limit: int): Tables {
    var rows := Selected(m, node, now, limit);
    KeptIsSelected(m, catalog, node, now, limit);
    var kept := Kept(m, catalog, rows);
    Acknowledged(Marked(m, node, Rejected(m, catalog, rows), Members(kept), leaseUntil), ClaimsOf(m, node, kept), now)
  }

  lemma KeptIsSelected(m: Tables, catalog: Catalog, node: NodeId, now: Instant, limit: int)
    ensures
      var rows := Selected(m, node, now, limit);
      var kept := Kept(m, catalog, rows);
      && Selectable(m, node, rows) && Selectable(m, node, kept)
      && (forall id :: id in kept <==> id in rows && Deliverable(catalog, m.events[id]))
  {
    SelectedIsSelectable(m, node, now, limit);
    KeptIsDeliverable(m, catalog, Selected(m, node, now, limit));
  }

  /** The rows that a batch may still take. */
  function Open(m: Tables, node: NodeId): set<EventId> {
    set id | id in m.events && Slot(id, node) in m.deliveries
             && m.deliveries[Slot(id, node)].status !in {Published, Blocked}
  }

  /** A batch closes exactly the rows it selected. */
  lemma BatchCloses(m: Tables, catalog: Catalog, node: NodeId, now: Instant, leaseUntil: Instant, limit: int)
    ensures
      var m' := Batch(m, catalog, node, now, leaseUntil, limit);
      && m'.events == m.events && m'.deliveries.Keys == m.deliveries.Keys
      && Open(m', node) == Open(m, node) - Members(Selected(m, node, now, limit))
  {
    var rows := Selected(m, node, now, limit);
    KeptIsSelected(m, catalog, node, now, limit);
    CloseRows(m, catalog, node, rows, Kept(m, catalog, rows), now, leaseUntil);
  }

  /** Each claim names the generation its row was given. */
  lemma ClaimsHold(m: Tables, node: NodeId, isolated: set<EventId>, kept: seq<EventId>, leaseUntil: Instant)
    requires Selectable(m, node, kept)
    ensures forall i, j :: 0 <= i < j < |kept| ==> ClaimsOf(m, node, kept)[i].slot != ClaimsOf(m, node, kept)[j].slot
    ensures forall i :: 0 <= i < |kept| ==>
      var c := ClaimsOf(m, node, kept)[i];
      c.slot == Slot(kept[i], node) && Holds(Marked(m, node, isolated, Members(kept), leaseUntil), c.slot, c.attempts)
  {
  }

  /** The acknowledgements publish the kept rows and nothing else. */
  lemma KeptRowsPublished(m: Tables, node: NodeId, isolated: set<EventId>, kept: seq<EventId>, at: Instant,
                          leaseUntil: Instant)
    requires Selectable(m, node, kept)
    ensures
      var marked := Marked(m, node, isolated, Members(kept), leaseUntil);
      var m' := Acknowledged(marked, ClaimsOf(m, node, kept), at);
      && m'.events == m.events && m'.deliveries.Keys == m.deliveries.Keys
      && (forall id :: id in kept ==> IsPublished(m', Slot(id, node)))
      && (forall slot :: slot in m.deliveries && (slot.node != node || slot.eventId !in kept)
                         ==> m'.deliveries[slot] == marked.deliveries[slot])
  {
    var marked := Marked(m, node, isolated, Members(kept), leaseUntil);
    var claims := ClaimsOf(m, node, kept);
    ClaimsHold(m, node, isolated, kept, leaseUntil);
    AcknowledgedPublishes(marked, claims, at);
    forall id | id in kept
      ensures exists c :: c in claims && c.slot == Slot(id, node) && Holds(marked, c.slot, c.attempts)
    {
      var i :| 0 <= i < |kept| && kept[i] == id;
      assert claims[i] in claims;
    }
  }

  lemma CloseRows(m: Tables, catalog: Catalog, node: NodeId, rows: seq<EventId>, kept: seq<EventId>, at: Instant,
                  leaseUntil: Instant)
    requires Selectable(m, node, rows) && Selectable(m, node, kept)
    requires forall id :: id in kept <==> id in rows && Deliverable(catalog, m.events[id])
    ensures
      var m' := Acknowledged(Marked(m, node, Rejected(m, catalog, rows), Members(kept), leaseUntil),
                             ClaimsOf(m, node, kept), at);
      && m'.events == m.events && m'.deliveries.Keys == m.deliveries.Keys
      && Open(m', node) == Open(m, node) - Members(rows)
  {
    var marked := Marked(m, node, Rejected(m, catalog, rows), Members(kept), leaseUntil);
    var m' := Acknowledged(marked, ClaimsOf(m, node, kept), at);
    KeptRowsPublished(m, node, Rejected(m, catalog, rows), kept, at, leaseUntil);
    forall id | id in m.events && Slot(id, node) in m.deliveries
      ensures id in Open(m', node) <==> id in Open(m, node) && id !in rows
    {
      if id in kept {
        assert IsPublished(m', Slot(id, node));
      } else {
        assert m'.deliveries[Slot(id, node)] == marked.deliveries[Slot(id, node)];
      }
    }
  }

  lemma BatchKeeps(m: Tables, catalog: Catalog, node: NodeId, now: Instant, leaseUntil: Instant, limit: int)
    requires Sound(m) && forall id :: id in m.events ==> Slot(id, node) in m.deliveries
    ensures Sound(Batch(m, catalog, node, now, leaseUntil, limit))
  {
    var rows := Selected(m, node, now, limit);
    SelectedIsClear(m, node, now, limit);
    KeptIsSelected(m, catalog, node, now, limit);
    var kept := Kept(m, catalog, rows);
    MarkRowsKeeps(m, catalog, node, rows, leaseUntil);
    AcknowledgedKeeps(Marked(m, node, Rejected(m, catalog, rows), Members(kept), leaseUntil),
                      ClaimsOf(m, node, kept), now);
  }

  lemma OpenShrinks(all: set<EventId>, rows: seq<EventId>)
    requires rows != [] && forall id :: id in rows ==> id in all
    ensures |all - Members(rows)| < |all|
  {
    var gone := all * Members(rows);
    var id := rows[0];
    assert id in rows && id in gone;
    assert all == (all - Members(rows)) + gone;
  }

  /** Batches until a claim selects nothing. */
  function Drain(m: Tables, catalog: Catalog, node: NodeId, now: Instant, leaseUntil: Instant, limit: int): Tables
    decreases |Open(m, node)|
  {
    var rows := Selected(m, node, now, limit);
    if rows == [] then m
    else
      BatchCloses(m, catalog, node, now, leaseUntil, limit);
      SelectedIsSelectable(m, node, now, limit);
      OpenShrinks(Open(m, node), rows);
      Drain(Batch(m, catalog, node, now, leaseUntil, limit), catalog, node, now, leaseUntil, limit)
  }

  /** What holds a head back once no claim can take it. */
  predicate Waiting(row: Delivery, now: Instant) {
    || row.status in {Blocked, Paused}
    || (row.status.Pending? && now < row.nextAttemptAt)
    || (row.status.Processing? && row.leaseUntil.Some? && now < row.leaseUntil.value)
  }

  /** After the drain every fact is published, or waits behind a blocked, paused or waiting head. */
  lemma {:induction false} DrainLeavesOnlyWaitingHeads(
    m: Tables, catalog: Catalog, node: NodeId, now: Instant, leaseUntil: Instant, limit: int, id: EventId)
    requires Sound(m) && limit != 0 && id in m.events
    requires forall p :: p in m.events ==> Slot(p, node) in m.deliveries
    ensures
      var d := Drain(m, catalog, node, now, leaseUntil, limit);
      && Sound(d) && d.events == m.events && d.deliveries.Keys == m.deliveries.Keys
      && (IsPublished(d, Slot(id, node))
          || exists head :: Head(d, head, node) && Waiting(d.deliveries[Slot(head, node)], now)
                            && (head == id || Precedes(d.events[head], d.events[id])))
    decreases |Open(m, node)|
  {
    var rows := Selected(m, node, now, limit);
    if rows == [] {
      if !IsPublished(m, Slot(id, node)) {
        WaitsBehindHead(m, id, node);
        var head :| Head(m, head, node) && (head == id || Precedes(m.events[head], m.events[id]));
        NothingSelected(m, node, now, limit, head);
      }
    } else {
      BatchCloses(m, catalog, node, now, leaseUntil, limit);
      SelectedIsSelectable(m, node, now, limit);
      OpenShrinks(Open(m, node), rows);
      BatchKeeps(m, catalog, node, now, leaseUntil, limit);
      DrainLeavesOnlyWaitingHeads(Batch(m, catalog, node, now, leaseUntil, limit),
                                  catalog, node, now, leaseUntil, limit, id);
    }
  }

  lemma NothingSelected(m: Tables, node: NodeId, now: Instant, limit: int, head: EventId)
    requires Sound(m) && limit != 0 && Selected(m, node, now, limit) == [] && Head(m, head, node)
    ensures Waiting(m.deliveries[Slot(head, node)], now)
  {
    assert |ClaimableSet(m, node, now)| == 0;
    assert head !in ClaimableSet(m, node, now);
  }
}
