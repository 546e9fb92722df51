/** What each call of the inbox may touch and what it writes, said of rows and clocks alone. */
module InboxClaims {
  import opened Wrappers
  import opened Selection
  import opened Outbox
  import opened Inbox
  import opened Reception

  /** Work of a fact in custody that is to apply, is not waiting, and is under no lease that lasts. */
  predicate Due(d: Desk, item: Item, now: Instant) {
    && item in d.work && item.eventId in d.custody
    && var row := d.work[item];
       && row.state == ToApply && row.nextAttemptAt <= now
       && (row.leaseUntil == None || row.leaseUntil.value <= now)
  }

  /** `a` was received first, or together with `b` and its event, or then its consumer, comes first. */
  predicate Before(d: Desk, a: Item, b: Item)
    requires a.eventId in d.custody && b.eventId in d.custody
  {
    var x, y := d.custody[a.eventId].receivedAt, d.custody[b.eventId].receivedAt;
    if x != y then x < y else if a.eventId != b.eventId then a.eventId < b.eventId else a.consumer < b.consumer
  }

  ghost predicate Comes(d: Desk, a: Item, b: Item) {
    a.eventId in d.custody && b.eventId in d.custody && Before(d, a, b)
  }

  ghost predicate AllDue(d: Desk, all: seq<Item>, now: Instant) {
    && (forall item :: item in all <==> Due(d, item, now))
    && (forall i, j :: 0 <= i < j < |all| ==> all[i] != all[j] && Comes(d, all[i], all[j]))
  }

  lemma InOrderIsAllDue(d: Desk, now: Instant)
    ensures AllDue(d, InOrder(d, now), now)
  {
    var all := InOrder(d, now);
    forall i, j | 0 <= i < j < |all|
      ensures Comes(d, all[i], all[j])
    {
      assert all[i] in all && all[j] in all && Earlier(d, all[i], all[j]);
    }
  }

  /** Only due work is handed out, in order and within the limit; what is left out comes after all of it. */
  ghost predicate SelectsRightly(d: Desk, rows: seq<Item>, now: Instant, limit: int) {
    && (forall item :: item in rows ==> Due(d, item, now))
    && (forall i, j :: 0 <= i < j < |rows| ==> rows[i] != rows[j] && Comes(d, rows[i], rows[j]))
    && (0 <= limit ==> |rows| <= limit)
    && (forall item :: Due(d, item, now) && item !in rows ==>
          |rows| == limit && forall r :: r in rows ==> Comes(d, r, item))
  }

  lemma FirstRowsRightly(d: Desk, all: seq<Item>, now: Instant, limit: int)
    requires AllDue(d, all, now)
    ensures SelectsRightly(d, FirstRows(all, limit), now, limit)
  {
    var rows := FirstRows(all, limit);
    assert forall item :: item in rows ==> item in all;
    forall item | Due(d, item, now) && item !in rows
      ensures |rows| == limit && forall r :: r in rows ==> Comes(d, r, item)
    {
      var k :| 0 <= k < |all| && all[k] == item;
      assert forall i :: 0 <= i < |rows| ==> rows[i] in rows && all[i] == rows[i];
      assert |rows| <= k;
      forall r | r in rows
        ensures Comes(d, r, item)
      {
        var i :| 0 <= i < |rows| && rows[i] == r;
        assert all[i] == r && i < k;
      }
    }
  }

  lemma SelectedRightly(d: Desk, now: Instant, limit: int)
    ensures SelectsRightly(d, ReadyItems(d, now, limit), now, limit)
  {
    InOrderIsAllDue(d, now);
    FirstRowsRightly(d, InOrder(d, now), now, limit);
  }

  // ---------- a claim ----------

  function ClaimedDesk(d: Desk, now: Instant, leaseUntil: Instant, limit: int): Desk {
    LeasedDesk(d, ItemSet(ReadyItems(d, now, limit)), leaseUntil)
  }

  function Handed(d: Desk, now: Instant, limit: int): seq<(Item, nat)> {
    WorkClaims(d.work, ReadyItems(d, now, limit))
  }

  predicate IsHanded(claims: seq<(Item, nat)>, item: Item) {
    exists i :: 0 <= i < |claims| && claims[i].0 == item
  }

  lemma HandedIs(d: Desk, now: Instant, limit: int)
    ensures
      var rows, claims := ReadyItems(d, now, limit), Handed(d, now, limit);
      && |claims| == |rows|
      && (forall i :: 0 <= i < |claims| ==>
            claims[i].0 == rows[i] && rows[i] in rows && rows[i] in d.work
            && claims[i].1 == d.work[rows[i]].attempts + 1)
      && (forall item :: item in rows <==> IsHanded(claims, item))
  {
    var rows, claims := ReadyItems(d, now, limit), Handed(d, now, limit);
    assert forall i :: 0 <= i < |claims| ==> rows[i] in rows && claims[i].0 == rows[i];
    forall item | item in rows
      ensures IsHanded(claims, item)
    {
      var i :| 0 <= i < |rows| && rows[i] == item;
      assert claims[i].0 == item;
    }
  }

  lemma LeasedRow(d: Desk, items: set<Item>, leaseUntil: Instant, item: Item)
    requires item in d.work
    ensures
      var row, row' := d.work[item], LeasedDesk(d, items, leaseUntil).work[item];
      row' == if item in items then row.(attempts := row.attempts + 1, leaseUntil := Some(leaseUntil)) else row
  {
  }

  /** A claim touches only due work, and opens one generation more of it, under the lease. */
  lemma ClaimWrites(d: Desk, now: Instant, leaseUntil: Instant, limit: int, item: Item)
    ensures
      var d', handed := ClaimedDesk(d, now, leaseUntil, limit), IsHanded(Handed(d, now, limit), item);
      && d'.custody == d.custody && d'.disputes == d.disputes && d'.work.Keys == d.work.Keys
      && (handed ==> Due(d, item, now))
      && (item in d.work ==>
            var row, row' := d.work[item], d'.work[item];
            row' == if handed then row.(attempts := row.attempts + 1, leaseUntil := Some(leaseUntil)) else row)
  {
    HandedIs(d, now, limit);
    SelectedRightly(d, now, limit);
    if item in d.work {
      LeasedRow(d, ItemSet(ReadyItems(d, now, limit)), leaseUntil, item);
    }
  }

  /** The generation handed out is the one its row is then in. */
  lemma HandedNamesGeneration(d: Desk, now: Instant, leaseUntil: Instant, limit: int, i: nat)
    requires i < |Handed(d, now, limit)|
    ensures
      var (item, attempts) := Handed(d, now, limit)[i];
      item in d.work && ClaimedDesk(d, now, leaseUntil, limit).work[item].attempts == attempts
  {
    HandedIs(d, now, limit);
    var item := Handed(d, now, limit)[i].0;
    assert IsHanded(Handed(d, now, limit), item);
    ClaimWrites(d, now, leaseUntil, limit, item);
  }

  /** Work that is applied or disputed, that waits, or that is under a lease that lasts, is left as it is. */
  lemma LiveWorkStands(d: Desk, now: Instant, leaseUntil: Instant, limit: int, item: Item)
    requires item in d.work
    requires
      var row := d.work[item];
      row.state != ToApply || now < row.nextAttemptAt || (row.leaseUntil != None && now < row.leaseUntil.value)
    ensures ClaimedDesk(d, now, leaseUntil, limit).work[item] == d.work[item]
    ensures !IsHanded(Handed(d, now, limit), item)
  {
    ClaimWrites(d, now, leaseUntil, limit, item);
  }

  /** The limit, and the order: what is handed out comes in order, before any due work that is left out. */
  lemma ClaimKeepsLimit(d: Desk, now: Instant, limit: int)
    ensures
      var claims := Handed(d, now, limit);
      && (0 <= limit ==> |claims| <= limit)
      && (forall i, j :: 0 <= i < j < |claims| ==> Comes(d, claims[i].0, claims[j].0))
      && (forall item :: Due(d, item, now) && !IsHanded(claims, item) ==>
            |claims| == limit && forall i :: 0 <= i < |claims| ==> Comes(d, claims[i].0, item))
  {
    HandedIs(d, now, limit);
    SelectedRightly(d, now, limit);
  }

  // ---------- what becomes of an item ----------

  /** The generation is the last one given and its work is still to apply. */
  predicate Held(d: Desk, item: Item, attempts: nat) {
    item in d.work && d.work[item].state == ToApply && d.work[item].attempts == attempts
  }

  /** Nothing but the row of one item changes. */
  predicate OnlyRow(d: Desk, d': Desk, item: Item, row: Work) {
    d' == d.(work := d.work[item := row])
  }

  lemma AppliedIs(d: Desk, item: Item, attempts: nat, at: Instant)
    ensures
      var d' := AppliedDesk(d, item, attempts, at);
      if !Held(d, item, attempts) then d' == d
      else
        var row := d.work[item];
        OnlyRow(d, d', item, Work(Applied, row.attempts, row.nextAttemptAt, None, None, Some(at), at))
  {
  }

  lemma PostponedIs(d: Desk, item: Item, attempts: nat, next: Instant, code: string)
    ensures
      var d' := RetryableDesk(d, item, attempts, next, code);
      if !Held(d, item, attempts) then d' == d
      else
        var row := d.work[item];
        OnlyRow(d, d', item, Work(ToApply, row.attempts, next, None, Some(code), row.appliedAt, next))
  {
  }

  /** Postponed work in custody is due again exactly from its next attempt on, and never once it is applied. */
  lemma PostponedIsDue(d: Desk, item: Item, attempts: nat, next: Instant, code: string, now: Instant)
    requires Held(d, item, attempts) && item.eventId in d.custody
    ensures Due(RetryableDesk(d, item, attempts, next, code), item, now) <==> next <= now
    ensures !Due(AppliedDesk(d, item, attempts, next), item, now)
  {
  }

  /** The item has a record, open or resolved. */
  predicate OnRecord(d: Desk, item: Item) {
    exists id :: id in d.disputes && d.disputes[id].item == item
  }

  /** Disputed work gets a record unless it has one; a new record needs an id of its own. */
  lemma DisputedIs(d: Desk, item: Item, attempts: nat, id: DiscrepancyId, code: string, at: Instant)
    ensures
      var d' := OpenedDesk(d, item, attempts, id, code, at);
      if !Held(d, item, attempts) || (!OnRecord(d, item) && id in d.disputes) then d' == d
      else
        && d'.custody == d.custody
        && (var row := d.work[item];
            d'.work == d.work[item :=
              Work(Disputed, row.attempts, row.nextAttemptAt, None, Some(code), row.appliedAt, at)])
        && d'.disputes == (if OnRecord(d, item) then d.disputes
                           else d.disputes[id := Discrepancy(item, code, Open, at)])
        && !Due(d', item, at)
  {
    assert OnRecord(d, item) <==> HasDispute(d, item);
  }

  /** Disputed work of an open record may be tried again at once, in the generation it had. */
  lemma RescheduledIs(d: Desk, id: DiscrepancyId, now: Instant)
    ensures
      var d' := RescheduledDesk(d, id, now);
      if id in d.disputes && d.disputes[id].resolution == Open && d.disputes[id].item in d.work
         && d.work[d.disputes[id].item].state == Disputed
      then
        var item := d.disputes[id].item;
        var row := d.work[item];
        && OnlyRow(d, d', item, Work(ToApply, row.attempts, now, None, row.lastError, row.appliedAt, now))
        && (item.eventId in d.custody ==> Due(d', item, now))
      else d' == d
  {
  }

  /** An open record is resolved, by whom and why, only once its work is applied. */
  lemma ResolvedIs(d: Desk, id: DiscrepancyId, at: Instant, actor: string, reason: string)
    ensures
      var d' := ResolvedDesk(d, id, at, actor, reason);
      if id in d.disputes && d.disputes[id].resolution == Open && d.disputes[id].item in d.work
         && d.work[d.disputes[id].item].state == Applied
      then
        var row := d.disputes[id];
        d' == d.(disputes := d.disputes[id :=
                   Discrepancy(row.item, row.reasonCode, Resolved(at, actor, reason), row.openedAt)])
      else d' == d
  {
  }

  /** A worker's hold on an item: its generation is the last one given, and its lease has not run out. */
  lemma ActiveIff(d: Desk, item: Item, attempts: nat, now: Instant)
    ensures WorkActive(d, item, attempts, now)
      <==> (Held(d, item, attempts) && d.work[item].leaseUntil != None && now < d.work[item].leaseUntil.value)
  {
  }

  /** The progress of a fact: disputed when some work is, pending when some is to apply, applied when all is. */
  lemma ProgressIs(d: Desk, id: EventId)
    ensures
      var progress := ApplicationProgress(d, id);
      && (progress == NoCustody <==> id !in d.custody)
      && (progress == ProgressDiscrepancy
          <==> (id in d.custody && exists c :: Item(id, c) in d.work && d.work[Item(id, c)].state == Disputed))
      && (progress == ProgressApplied
          <==> (id in d.custody && forall c :: Item(id, c) in d.work ==> d.work[Item(id, c)].state == Applied))
  {
    forall item | item in d.work && item.eventId == id
      ensures item == Item(id, item.consumer)
    {
    }
  }

  /** What custody brings: the envelope as received, and one pending row for each of its consumers. */
  lemma RecordedIs(d: Desk, e: Entry)
    requires e.envelope.eventId !in d.custody
    ensures
      var d', id := RecordedDesk(d, e), e.envelope.eventId;
      && d'.custody == d.custody[id := Custody(e.envelope, e.application, e.sender, e.receivedAt)]
      && d'.disputes == d.disputes
      && (forall item :: item in d'.work <==> item in d.work || (item.eventId == id && item.consumer in e.consumers))
      && (forall item :: item in d'.work ==>
            if item.eventId == id && item.consumer in e.consumers
            then d'.work[item] == Work(ToApply, 0, e.receivedAt, None, None, None, e.receivedAt)
                 && Due(d', item, e.receivedAt)
            else d'.work[item] == d.work[item])
  {
  }

  // ---------- the processor ----------

  /** Work of a fact of the aggregate is still to apply, or disputed. */
  ghost predicate Owes(d: Desk, aggregateType: int, aggregateId: int) {
    exists id, c :: id in d.custody && Item(id, c) in d.work && d.work[Item(id, c)].state != Applied
                    && d.custody[id].envelope.aggregate.aggregateType == aggregateType
                    && d.custody[id].envelope.aggregate.aggregateId == aggregateId
  }

  lemma DependencyIff(d: Desk, aggregateType: int, aggregateId: int)
    ensures DependencyApplied(d, aggregateType, aggregateId)
      <==> HasFactOf(d, aggregateType, aggregateId) && !Owes(d, aggregateType, aggregateId)
  {
    if Owes(d, aggregateType, aggregateId) {
      var id, c :| id in d.custody && Item(id, c) in d.work && d.work[Item(id, c)].state != Applied
                   && d.custody[id].envelope.aggregate.aggregateType == aggregateType
                   && d.custody[id].envelope.aggregate.aggregateId == aggregateId;
      assert OfAggregate(d.custody[Item(id, c).eventId], aggregateType, aggregateId);
    }
    if item :| item in d.work && item.eventId in d.custody
               && OfAggregate(d.custody[item.eventId], aggregateType, aggregateId) && !d.work[item].state.Applied? {
      assert Item(item.eventId, item.consumer) == item;
      assert Owes(d, aggregateType, aggregateId);
    }
    assert Known(d, aggregateType, aggregateId) <==> HasFactOf(d, aggregateType, aggregateId);
  }

  /** An item waits exactly while some dependency was never received, or has work that is not applied. */
  lemma WaitsIff(d: Desk, contract: Contract)
    ensures Waits(d, contract)
      <==> (exists p :: p in contract.dependencies && (!HasFactOf(d, p.0, p.1) || Owes(d, p.0, p.1)))
  {
    forall p | p in contract.dependencies
      ensures DependencyApplied(d, p.0, p.1) <==> HasFactOf(d, p.0, p.1) && !Owes(d, p.0, p.1)
    {
      DependencyIff(d, p.0, p.1);
    }
    if p :| p in contract.dependencies && (!HasFactOf(d, p.0, p.1) || Owes(d, p.0, p.1)) {
      var i :| 0 <= i < |contract.dependencies| && contract.dependencies[i] == p;
      assert !DependencyApplied(d, contract.dependencies[i].0, contract.dependencies[i].1);
    }
    if Waits(d, contract) {
      var i :| 0 <= i < |contract.dependencies|
               && !DependencyApplied(d, contract.dependencies[i].0, contract.dependencies[i].1);
      assert contract.dependencies[i] in contract.dependencies;
    }
  }

  /** The worker holds the item: the generation is the last one given, to apply, and its lease has not run out. */
  ghost predicate Holds(d: Desk, item: Item, attempts: nat, now: Instant) {
    Held(d, item, attempts) && d.work[item].leaseUntil != None && now < d.work[item].leaseUntil.value
  }

  /**
   * What the consuming transaction does: a held item that does not wait gets its effect and its confirmation
   * together, and in every other case nothing changes and the sequel says why.
   */
  lemma ConsumedIs(b: Books, item: Item, attempts: nat, waiting: bool, verdict: Verdict, now: Instant)
    ensures
      var (sequel, b') := Consumed(b, item, attempts, waiting, verdict, now);
      var held := Holds(b.desk, item, attempts, now);
      && (sequel == Finished <==> !waiting && held && verdict.Effect?)
      && (sequel == Skipped <==> !waiting && !held)
      && (waiting ==> sequel == Reschedule("SYNC_DEPENDENCY_NOT_APPLIED"))
      && (!waiting && held && verdict.Unavailable? ==> sequel == Reschedule(verdict.code))
      && (!waiting && held && verdict.Discrepant? ==> sequel == Dispute(verdict.id, verdict.reason))
      && (sequel != Finished ==> b' == b)
      && (sequel == Finished ==>
            && b'.desk.work[item].state == Applied && b'.desk.work[item].appliedAt == Some(now)
            && b'.effects == b.effects[item := (if item in b.effects then b.effects[item] else 0) + 1])
  {
  }

  /** What the later transaction does with a sequel, whoever holds the lease by then. */
  lemma ConcludedIs(b: Books, item: Item, attempts: nat, sequel: Sequel, now: Instant)
    ensures
      var b' := Concluded(b, item, attempts, sequel, now);
      && b'.effects == b.effects && b'.desk.custody == b.desk.custody
      && (!Held(b.desk, item, attempts) || sequel == Finished || sequel == Skipped ==> b' == b)
      && (Held(b.desk, item, attempts) && sequel.Reschedule? ==>
            && b'.desk.work[item].state == ToApply && b'.desk.work[item].lastError == Some(sequel.code)
            && b'.desk.work[item].nextAttemptAt == now + Backoff(attempts)
            && b'.desk.work[item].leaseUntil == None)
      && (Held(b.desk, item, attempts) && sequel.Dispute? ==>
            b' == b || (b'.desk.work[item].state == Disputed && b'.desk.work[item].lastError == Some(sequel.reason)))
      && (Held(b.desk, item, attempts) && sequel.Dispute? && sequel.id !in b.desk.disputes ==>
            b'.desk.work[item].state == Disputed)
  {
  }

  /** Half a second, then twice as long each time, up to a minute. */
  lemma BackoffDoubles(attempts: nat)
    ensures Backoff(0) == 500
    ensures Backoff(attempts + 1) == (if 2 * Backoff(attempts) < 60_000 then 2 * Backoff(attempts) else 60_000)
  {
    assert Doubled(0) == 1 && Doubled(1) == 2 && Doubled(2) == 4 && Doubled(3) == 8 && Doubled(4) == 16
      && Doubled(5) == 32;
  }
}
