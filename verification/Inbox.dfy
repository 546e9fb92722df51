/**
 * The receiver: durable custody of each fact, the work it owes to each consumer, and the
 * discrepancies opened when a consumer cannot apply it.
 */
module Inbox {
  import opened Wrappers
  import opened Selection
  import opened Outbox

  type Consumer = int
  type DiscrepancyId = int

  datatype Classification = PendingConsumer | PendingDependency | PendingReview

  /** A row of sync_inbox_event: the envelope as received, immutable. */
  datatype Custody = Custody(envelope: Event, application: Classification, receivedFrom: NodeId, receivedAt: Instant)

  datatype WorkState = ToApply | Applied | Disputed

  datatype Item = Item(eventId: EventId, consumer: Consumer)

  /** A row of sync_inbox_work. */
  datatype Work = Work(
    state: WorkState, attempts: nat, nextAttemptAt: Instant, leaseUntil: Option<Instant>,
    lastError: Option<string>, appliedAt: Option<Instant>, updatedAt: Instant)

  datatype Resolution = Open | Resolved(at: Instant, actor: string, reason: string)

  /** A row of sync_discrepancy. */
  datatype Discrepancy = Discrepancy(item: Item, reasonCode: string, resolution: Resolution, openedAt: Instant)

  datatype Desk = Desk(
    custody: map<EventId, Custody>,
    work: map<Item, Work>,
    disputes: map<DiscrepancyId, Discrepancy>)

  datatype Entry = Entry(
    envelope: Event, application: Classification, sender: NodeId, receivedAt: Instant, consumers: seq<Consumer>)

  /** `CONSTRAINT` is the answer when SQLite rejects a row: the transaction leaves the tables as they were. */
  const CONSTRAINT := "DATABASE_CONSTRAINT_VIOLATION"

  datatype Progress = NoCustody | ProgressApplied | ProgressPending | ProgressDiscrepancy

  // ---------- what each call makes of the tables ----------

  function NewWork(at: Instant): Work {
    Work(ToApply, 0, at, None, None, None, at)
  }

  predicate Distinct(consumers: seq<Consumer>) {
    forall i, j :: 0 <= i < j < |consumers| ==> consumers[i] != consumers[j]
  }

  function WithWork(work: map<Item, Work>, id: EventId, consumers: set<Consumer>, at: Instant): map<Item, Work> {
    work + map c | c in consumers :: Item(id, c) := NewWork(at)
  }

  /** A new custody row brings all its work with it; a duplicate brings nothing. */
  function RecordedDesk(d: Desk, e: Entry): Desk {
    if e.envelope.eventId in d.custody then d
    else
      d.(custody := d.custody[e.envelope.eventId := Custody(e.envelope, e.application, e.sender, e.receivedAt)],
         work := WithWork(d.work, e.envelope.eventId, Members(e.consumers), e.receivedAt))
  }

  predicate Ready(d: Desk, item: Item, now: Instant) {
    && item in d.work && item.eventId in d.custody
    && d.work[item].state.ToApply?
    && d.work[item].nextAttemptAt <= now
    && (d.work[item].leaseUntil.None? || d.work[item].leaseUntil.value <= now)
  }

  /** `order by received_at, event_id, consumer`. */
  predicate Earlier(d: Desk, a: Item, b: Item) {
    var at := (item: Item) => if item.eventId in d.custody then d.custody[item.eventId].receivedAt else 0;
    || at(a) < at(b)
    || (at(a) == at(b) && (a.eventId < b.eventId || (a.eventId == b.eventId && a.consumer < b.consumer)))
  }

  /** Every item that is ready, in order. */
  function InOrder(d: Desk, now: Instant): (all: seq<Item>)
    ensures forall item :: item in all <==> item in d.work && Ready(d, item, now)
    ensures forall i, j :: 0 <= i < j < |all| ==> all[i] != all[j] && Earlier(d, all[i], all[j])
  {
    Arrange(set item | item in d.work && Ready(d, item, now), (a, b) => Earlier(d, a, b))
  }

  function ReadyItems(d: Desk, now: Instant, limit: int): (rows: seq<Item>)
    ensures forall item :: item in rows ==> Ready(d, item, now)
    ensures forall i, j :: 0 <= i < j < |rows| ==> rows[i] != rows[j]
  {
    var all := InOrder(d, now);
    var rows := FirstRows(all, limit);
    assert forall item :: item in rows ==> item in all;
    rows
  }

  function LeasedWork(row: Work, leaseUntil: Instant): Work {
    row.(attempts := row.attempts + 1, leaseUntil := Some(leaseUntil))
  }

  function LeasedDesk(d: Desk, items: set<Item>, leaseUntil: Instant): Desk {
    d.(work := map item | item in d.work ::
         if item in items then LeasedWork(d.work[item], leaseUntil) else d.work[item])
  }

  /** The generation `attempts` of the item is the current one and the item is still to apply. */
  predicate Current(d: Desk, item: Item, attempts: nat) {
    item in d.work && d.work[item].state.ToApply? && d.work[item].attempts == attempts
  }

  predicate WorkActive(d: Desk, item: Item, attempts: nat, now: Instant) {
    Current(d, item, attempts) && d.work[item].leaseUntil.Some? && now < d.work[item].leaseUntil.value
  }

  function AppliedDesk(d: Desk, item: Item, attempts: nat, at: Instant): Desk {
    if Current(d, item, attempts)
    then d.(work := d.work[item := d.work[item].(state := Applied, leaseUntil := None, lastError := None,
                                                 appliedAt := Some(at), updatedAt := at)])
    else d
  }

  function RetryableDesk(d: Desk, item: Item, attempts: nat, next: Instant, code: string): Desk {
    if Current(d, item, attempts)
    then d.(work := d.work[item := d.work[item].(leaseUntil := None, nextAttemptAt := next, lastError := Some(code),
                                                 updatedAt := next)])
    else d
  }

  predicate HasDispute(d: Desk, item: Item) {
    exists id :: id in d.disputes && d.disputes[id].item == item
  }

  /** The insert would reuse the primary key of another discrepancy. */
  predicate IdClash(d: Desk, item: Item, id: DiscrepancyId) {
    !HasDispute(d, item) && id in d.disputes
  }

  function OpenedDesk(d: Desk, item: Item, attempts: nat, id: DiscrepancyId, code: string, at: Instant): Desk {
    if !Current(d, item, attempts) || IdClash(d, item, id) then d
    else
      d.(work := d.work[item := d.work[item].(
           state := Disputed, leaseUntil := None, lastError := Some(code), updatedAt := at)],
         disputes := if HasDispute(d, item) then d.disputes else d.disputes[id := Discrepancy(item, code, Open, at)])
  }

  predicate Retriable(d: Desk, id: DiscrepancyId) {
    && id in d.disputes && d.disputes[id].resolution.Open?
    && d.disputes[id].item in d.work && d.work[d.disputes[id].item].state.Disputed?
  }

  function RescheduledDesk(d: Desk, id: DiscrepancyId, now: Instant): Desk {
    if Retriable(d, id)
    then
      var item := d.disputes[id].item;
      d.(work := d.work[item := d.work[item].(
           state := ToApply, nextAttemptAt := now, leaseUntil := None, updatedAt := now)])
    else d
  }

  predicate Resolvable(d: Desk, id: DiscrepancyId) {
    && id in d.disputes && d.disputes[id].resolution.Open?
    && d.disputes[id].item in d.work && d.work[d.disputes[id].item].state.Applied?
  }

  function ResolvedDesk(d: Desk, id: DiscrepancyId, at: Instant, actor: string, reason: string): Desk {
    if Resolvable(d, id)
    then d.(disputes := d.disputes[id := d.disputes[id].(resolution := Resolved(at, actor, reason))])
    else d
  }

  // ---------- the queries ----------

  predicate AnyWork(d: Desk, id: EventId, states: set<WorkState>) {
    exists item :: item in d.work && item.eventId == id && d.work[item].state in states
  }

  function ApplicationProgress(d: Desk, id: EventId): Progress {
    if id !in d.custody then NoCustody
    else if AnyWork(d, id, {Disputed}) then ProgressDiscrepancy
    else if AnyWork(d, id, {ToApply, Disputed}) then ProgressPending
    else ProgressApplied
  }

  /** The items handed to the processor, with the generation each of them was given. */
  function WorkClaims(work: map<Item, Work>, rows: seq<Item>): seq<(Item, nat)>
    requires forall item :: item in rows ==> item in work
  {
    seq(|rows|, i requires 0 <= i < |rows| => (rows[i], work[rows[i]].attempts + 1))
  }

  function ItemSet(items: seq<Item>): set<Item> {
    set item | item in items
  }

  lemma ItemSetOneMore(items: seq<Item>, i: nat)
    requires i < |items|
    ensures ItemSet(items[..i + 1]) == ItemSet(items[..i]) + {items[i]}
    ensures (forall j, k :: 0 <= j < k < |items| ==> items[j] != items[k]) ==> items[i] !in ItemSet(items[..i])
  {
  }

  predicate NoWork(work: map<Item, Work>, id: EventId, consumers: set<Consumer>) {
    forall c :: c in consumers ==> Item(id, c) !in work
  }

  lemma WithWorkOneMore(work: map<Item, Work>, id: EventId, consumers: set<Consumer>, c: Consumer, at: Instant)
    ensures Item(id, c) in WithWork(work, id, consumers, at) <==> Item(id, c) in work || c in consumers
    ensures WithWork(work, id, consumers, at)[Item(id, c) := NewWork(at)] == WithWork(work, id, consumers + {c}, at)
  {
  }

  lemma DistinctOneMore(consumers: seq<Consumer>, i: nat)
    requires i < |consumers|
    ensures consumers[i] in Members(consumers)
    ensures Distinct(consumers[..i + 1]) <==> Distinct(consumers[..i]) && consumers[i] !in Members(consumers[..i])
    ensures Distinct(consumers) ==> Distinct(consumers[..i + 1])
  {
  }

  /** One PENDING row per consumer; a primary key met twice aborts the transaction. */
  method InsertWork(work: map<Item, Work>, id: EventId, consumers: seq<Consumer>, at: Instant)
    returns (r: Result<map<Item, Work>, string>)
    ensures r == if Distinct(consumers) && NoWork(work, id, Members(consumers))
                 then Ok(WithWork(work, id, Members(consumers), at)) else Err(CONSTRAINT)
  {
    var table := work;
    for i := 0 to |consumers|
      invariant Distinct(consumers[..i]) && NoWork(work, id, Members(consumers[..i]))
      invariant table == WithWork(work, id, Members(consumers[..i]), at)
    {
      var item := Item(id, consumers[i]);
      MembersOneMore(consumers, i);
      DistinctOneMore(consumers, i);
      WithWorkOneMore(work, id, Members(consumers[..i]), consumers[i], at);
      if item in table {
        return Err(CONSTRAINT);
      }
      table := table[item := NewWork(at)];
    }
    assert consumers[..|consumers|] == consumers;
    return Ok(table);
  }

  /** Opens a new generation on every selected row whose generation is still the one selected. */
  method LeaseItems(d: Desk, rows: seq<Item>, leaseUntil: Instant) returns (table: map<Item, Work>)
    requires forall i, j :: 0 <= i < j < |rows| ==> rows[i] != rows[j]
    requires forall item :: item in rows ==> item in d.work && d.work[item].state.ToApply?
    ensures table == LeasedDesk(d, ItemSet(rows), leaseUntil).work
  {
    table := d.work;
    for i := 0 to |rows|
      invariant table == LeasedDesk(d, ItemSet(rows[..i]), leaseUntil).work
    {
      var item := rows[i];
      ItemSetOneMore(rows, i);
      if item in table && table[item].attempts == d.work[item].attempts && table[item].state.ToApply? {
        table := table[item := LeasedWork(table[item], leaseUntil)];
      }
    }
    assert rows[..|rows|] == rows;
  }

  // ---------- the two stores over one database ----------

  class InboxStore {
    var custody: map<EventId, Custody>
    var work: map<Item, Work>
    var disputes: map<DiscrepancyId, Discrepancy>

    function Snapshot(): Desk
      reads this
    {
      Desk(custody, work, disputes)
    }

    constructor ()
      ensures Snapshot() == Desk(map[], map[], map[])
    {
      custody, work, disputes := map[], map[], map[];
    }

    /** `Ok(true)` is RECORDED, `Ok(false)` is DUPLICATE. */
    method Record(e: Entry) returns (r: Result<bool, string>)
      modifies this
      ensures
        var d := old(Snapshot());
        var id := e.envelope.eventId;
        if id in d.custody then r == Ok(false) && Snapshot() == d
        else if Distinct(e.consumers) && NoWork(d.work, id, Members(e.consumers))
        then r == Ok(true) && Snapshot() == RecordedDesk(d, e)
        else r == Err(CONSTRAINT) && Snapshot() == d
    {
      var id := e.envelope.eventId;
      if id in custody {
        return Ok(false);
      }
      var table := InsertWork(work, id, e.consumers, e.receivedAt);
      if table.Err? {
        return Err(CONSTRAINT);
      }
      custody := custody[id := Custody(e.envelope, e.application, e.sender, e.receivedAt)];
      work := table.value;
      return Ok(true);
    }

    method ClaimPending(now: Instant, leaseUntil: Instant, limit: int) returns (claims: seq<(Item, nat)>)
      modifies this`work
      ensures
        var rows := ReadyItems(old(Snapshot()), now, limit);
        && Snapshot() == LeasedDesk(old(Snapshot()), ItemSet(rows), leaseUntil)
        && claims == WorkClaims(old(work), rows)
    {
      var rows := ReadyItems(Snapshot(), now, limit);
      claims := WorkClaims(work, rows);
      work := LeaseItems(Snapshot(), rows, leaseUntil);
    }

    method MarkApplied(item: Item, attempts: nat, at: Instant) returns (marked: bool)
      modifies this`work
      ensures marked == Current(old(Snapshot()), item, attempts)
      ensures Snapshot() == AppliedDesk(old(Snapshot()), item, attempts, at)
    {
      marked := item in work && work[item].attempts == attempts && work[item].state.ToApply?;
      if marked {
        work := work[item := work[item].(
          state := Applied, leaseUntil := None, lastError := None, appliedAt := Some(at), updatedAt := at)];
      }
    }

    method MarkRetryable(item: Item, attempts: nat, next: Instant, code: string) returns (marked: bool)
      modifies this`work
      ensures marked == Current(old(Snapshot()), item, attempts)
      ensures Snapshot() == RetryableDesk(old(Snapshot()), item, attempts, next, code)
    {
      marked := item in work && work[item].attempts == attempts && work[item].state.ToApply?;
      if marked {
        work := work[item := work[item].(
          leaseUntil := None, nextAttemptAt := next, lastError := Some(code), updatedAt := next)];
      }
    }

    /** `Ok(false)` when the generation is no longer current. */
    method OpenDiscrepancy(item: Item, attempts: nat, id: DiscrepancyId, code: string, at: Instant)
      returns (r: Result<bool, string>)
      modifies this`work, this`disputes
      ensures
        var d := old(Snapshot());
        r == if !Current(d, item, attempts) then Ok(false)
             else if IdClash(d, item, id) then Err(CONSTRAINT)
             else Ok(true)
      ensures Snapshot() == OpenedDesk(old(Snapshot()), item, attempts, id, code, at)
    {
      if item !in work || work[item].attempts != attempts || !work[item].state.ToApply? {
        return Ok(false);
      }
      if !exists other :: other in disputes && disputes[other].item == item {
        if id in disputes {
          return Err(CONSTRAINT);
        }
        disputes := disputes[id := Discrepancy(item, code, Open, at)];
      }
      work := work[item := work[item].(
        state := Disputed, leaseUntil := None, lastError := Some(code), updatedAt := at)];
      return Ok(true);
    }

    method ScheduleDiscrepancyRetry(id: DiscrepancyId, now: Instant) returns (scheduled: bool)
      modifies this`work
      ensures scheduled == Retriable(old(Snapshot()), id)
      ensures Snapshot() == RescheduledDesk(old(Snapshot()), id, now)
    {
      scheduled := false;
      if id in disputes && disputes[id].resolution.Open? {
        var item := disputes[id].item;
        if item in work && work[item].state.Disputed? {
          work := work[item := work[item].(
            state := ToApply, nextAttemptAt := now, leaseUntil := None, updatedAt := now)];
          scheduled := true;
        }
      }
    }

    method ResolveDiscrepancy(id: DiscrepancyId, at: Instant, actor: string, reason: string) returns (resolved: bool)
      modifies this`disputes
      ensures resolved == Resolvable(old(Snapshot()), id)
      ensures Snapshot() == ResolvedDesk(old(Snapshot()), id, at, actor, reason)
    {
      resolved := false;
      if id in disputes && disputes[id].resolution.Open? {
        var item := disputes[id].item;
        if item in work && work[item].state.Applied? {
          disputes := disputes[id := disputes[id].(resolution := Resolved(at, actor, reason))];
          resolved := true;
        }
      }
    }
  }
}
