/** The receiver's application boundary: ownership, deduplication, classification, and the processor of pending work. */
module Reception {
  import opened Wrappers
  import opened Outbox
  import opened Inbox

  datatype Receipt =
    | Accepted(application: Classification)
    | Duplicate(application: Classification)
    | Refused(code: string)
    | TryAgain(cause: string)

  /** What the registry of trusted nodes says of an aggregate's owner. */
  datatype Authority = Owned(node: NodeId) | Unresolved | Unreachable

  /** Who delivers, as verified by the transport. */
  datatype Sender = Sender(verifiedNode: NodeId, terminal: Option<int>, isCoordinator: bool, authority: Authority)

  /**
   * The contract of an event type for one payload. Where the type names a payload field for the origin or
   * the terminal, `origin` or `terminal` is what the payload holds there, which may be nothing.
   */
  datatype Contract = Contract(
    fromCoordinator: bool, origin: Option<Option<NodeId>>, terminal: Option<Option<int>>,
    consumers: seq<Consumer>, dependencies: seq<(int, int)>)

  const NOT_AUTHORIZED := "SYNC_SENDER_NOT_AUTHORIZED"

  /** Sender, declared origin, verified terminal, owner; an unknown owner is only the coordinator's to publish for. */
  function OwnershipRejection(e: Event, contract: Contract, sender: Sender): Option<string> {
    if e.aggregate.originNodeId != sender.verifiedNode then Some(NOT_AUTHORIZED)
    else if contract.origin.Some? && contract.origin.value != Some(e.aggregate.originNodeId) then Some(NOT_AUTHORIZED)
    else if contract.terminal.Some? && (sender.terminal.None? || contract.terminal.value != sender.terminal)
    then Some(NOT_AUTHORIZED)
    else if sender.authority.Owned? then
      if sender.authority.node == e.aggregate.originNodeId then None else Some(NOT_AUTHORIZED)
    else if contract.fromCoordinator && sender.isCoordinator then None
    else Some("SYNC_AGGREGATE_OWNER_UNRESOLVED")
  }

  predicate Known(d: Desk, aggregateType: int, aggregateId: int) {
    exists id :: id in d.custody && OfAggregate(d.custody[id], aggregateType, aggregateId)
  }

  predicate OfAggregate(c: Custody, aggregateType: int, aggregateId: int) {
    c.envelope.aggregate.aggregateType == aggregateType && c.envelope.aggregate.aggregateId == aggregateId
  }

  /** The highest version in custody for the aggregate is above the envelope's. */
  predicate Overtaken(d: Desk, e: Event) {
    exists id :: id in d.custody
      && OfAggregate(d.custody[id], e.aggregate.aggregateType, e.aggregate.aggregateId)
      && e.aggregateVersion < d.custody[id].envelope.aggregateVersion
  }

  function Classify(d: Desk, e: Event, contract: Contract): Classification {
    if Overtaken(d, e) then PendingReview
    else if exists i :: 0 <= i < |contract.dependencies|
                        && !Known(d, contract.dependencies[i].0, contract.dependencies[i].1) then PendingDependency
    else PendingConsumer
  }

  const IDENTITY_CONFLICT := "SYNC_EVENT_IDENTITY_CONFLICT"
  const UNAVAILABLE := "SYNC_RECEIVER_UNAVAILABLE"

  /** The receipt and the tables after one delivery. */
  function Taken(d: Desk, e: Event, contract: Contract, sender: Sender, at: Instant): (Receipt, Desk) {
    var rejection := OwnershipRejection(e, contract, sender);
    if sender.authority.Unreachable? then (TryAgain(UNAVAILABLE), d)
    else if rejection.Some? then (Refused(rejection.value), d)
    else if e.eventId in d.custody then
      var stored := d.custody[e.eventId];
      if stored.envelope == e then (Duplicate(stored.application), d) else (Refused(IDENTITY_CONFLICT), d)
    else if Distinct(contract.consumers) && NoWork(d.work, e.eventId, Members(contract.consumers)) then
      var application := Classify(d, e, contract);
      (Accepted(application), RecordedDesk(d, Entry(e, application, sender.verifiedNode, at, contract.consumers)))
    else (TryAgain(UNAVAILABLE), d)
  }

  // ---------- what a receipt means ----------

  /** The envelope is not the sender's: another node's, origin, terminal or owner. */
  predicate Misattributed(e: Event, contract: Contract, sender: Sender) {
    var origin := e.aggregate.originNodeId;
    && sender.authority != Unreachable
    && (|| sender.verifiedNode != origin
        || (contract.origin != None && contract.origin != Some(Some(origin)))
        || (contract.terminal != None && (sender.terminal == None || contract.terminal != Some(sender.terminal)))
        || (sender.authority.Owned? && sender.authority.node != origin))
  }

  /** Nobody is registered as the owner, and it is not the coordinator publishing what coordinators publish. */
  predicate Ownerless(contract: Contract, sender: Sender) {
    sender.authority == Unresolved && !(contract.fromCoordinator && sender.isCoordinator)
  }

  predicate Entitled(e: Event, contract: Contract, sender: Sender) {
    sender.authority != Unreachable && !Misattributed(e, contract, sender) && !Ownerless(contract, sender)
  }

  /** Custody of some fact of the aggregate. */
  predicate HasFactOf(d: Desk, aggregateType: int, aggregateId: int) {
    exists id :: id in d.custody && d.custody[id].envelope.aggregate.aggregateType == aggregateType
                 && d.custody[id].envelope.aggregate.aggregateId == aggregateId
  }

  /** Custody of a newer fact of the envelope's aggregate. */
  predicate HasNewer(d: Desk, e: Event) {
    exists id :: id in d.custody && d.custody[id].envelope.aggregate.aggregateType == e.aggregate.aggregateType
                 && d.custody[id].envelope.aggregate.aggregateId == e.aggregate.aggregateId
                 && d.custody[id].envelope.aggregateVersion > e.aggregateVersion
  }

  predicate RightClassification(d: Desk, e: Event, contract: Contract, application: Classification) {
    && (application == PendingReview <==> HasNewer(d, e))
    && (application == PendingDependency <==>
          !HasNewer(d, e) && exists p :: p in contract.dependencies && !HasFactOf(d, p.0, p.1))
  }

  /** Every row of the envelope's work can be inserted. */
  predicate Storable(d: Desk, e: Event, contract: Contract) {
    && (forall i, j :: 0 <= i < |contract.consumers| && 0 <= j < |contract.consumers| && i != j ==>
          contract.consumers[i] != contract.consumers[j])
    && (forall c :: c in contract.consumers ==> Item(e.eventId, c) !in d.work)
  }

  /** The tables once custody of the envelope was taken: its row, and one piece of work for each consumer. */
  ghost predicate TookCustody(d: Desk, d': Desk, e: Event, contract: Contract, sender: Sender, at: Instant,
                              c: Classification) {
    && d'.custody == d.custody[e.eventId := Custody(envelope := e, application := c,
                                                    receivedFrom := sender.verifiedNode,
                                                    receivedAt := at)]
    && d'.disputes == d.disputes
    && (forall item :: item in d'.work <==>
          item in d.work || (item.eventId == e.eventId && item.consumer in contract.consumers))
    && (forall item :: item in d.work ==> item in d'.work && d'.work[item] == d.work[item])
    && (forall item :: item in d'.work && item !in d.work ==>
          d'.work[item] == Work(state := ToApply, attempts := 0, nextAttemptAt := at, leaseUntil := None,
                                lastError := None, appliedAt := None, updatedAt := at))
  }

  /** Each receipt on its own cause, and custody only with an acceptance. */
  ghost predicate RightReceipt(d: Desk, e: Event, contract: Contract, sender: Sender, at: Instant, r: Receipt,
                               d': Desk) {
    var entitled, known := Entitled(e, contract, sender), e.eventId in d.custody;
    && (r == Refused("SYNC_SENDER_NOT_AUTHORIZED") <==> Misattributed(e, contract, sender))
    && (r == Refused("SYNC_AGGREGATE_OWNER_UNRESOLVED") <==>
          !Misattributed(e, contract, sender) && Ownerless(contract, sender))
    && (r == Refused("SYNC_EVENT_IDENTITY_CONFLICT") <==> entitled && known && d.custody[e.eventId].envelope != e)
    && (r.Duplicate? <==> entitled && known && d.custody[e.eventId].envelope == e)
    && (r.Accepted? <==> entitled && !known && Storable(d, e, contract))
    && (r == TryAgain("SYNC_RECEIVER_UNAVAILABLE") <==>
          sender.authority == Unreachable || (entitled && !known && !Storable(d, e, contract)))
    && (r.Duplicate? ==> r.application == d.custody[e.eventId].application)
    && (r.Accepted? ==> RightClassification(d, e, contract, r.application)
                        && TookCustody(d, d', e, contract, sender, at, r.application))
    && (!r.Accepted? ==> d' == d)
  }

  lemma ClassifiesRightly(d: Desk, e: Event, contract: Contract)
    ensures RightClassification(d, e, contract, Classify(d, e, contract))
  {
    assert Overtaken(d, e) <==> HasNewer(d, e);
    forall t, id
      ensures Known(d, t, id) <==> HasFactOf(d, t, id)
    {
    }
    if p :| p in contract.dependencies && !HasFactOf(d, p.0, p.1) {
      var i :| 0 <= i < |contract.dependencies| && contract.dependencies[i] == p;
      assert !Known(d, contract.dependencies[i].0, contract.dependencies[i].1);
    }
  }

  lemma OwnershipIs(e: Event, contract: Contract, sender: Sender)
    requires sender.authority != Unreachable
    ensures
      match OwnershipRejection(e, contract, sender)
      case None => Entitled(e, contract, sender)
      case Some(code) =>
        && (code == "SYNC_SENDER_NOT_AUTHORIZED" <==> Misattributed(e, contract, sender))
        && (code == "SYNC_AGGREGATE_OWNER_UNRESOLVED" <==>
              !Misattributed(e, contract, sender) && Ownerless(contract, sender))
        && !Entitled(e, contract, sender)
  {
  }

  lemma TakenIsRight(d: Desk, e: Event, contract: Contract, sender: Sender, at: Instant)
    ensures
      var (r, d') := Taken(d, e, contract, sender, at);
      RightReceipt(d, e, contract, sender, at, r, d')
  {
    if sender.authority != Unreachable {
      OwnershipIs(e, contract, sender);
    }
    ClassifiesRightly(d, e, contract);
  }

  /** `execute` after validation, over the store's own methods. */
  method Receive(store: InboxStore, e: Event, contract: Contract, sender: Sender, at: Instant)
    returns (receipt: Receipt)
    modifies store
    ensures (receipt, store.Snapshot()) == Taken(old(store.Snapshot()), e, contract, sender, at)
    ensures RightReceipt(old(store.Snapshot()), e, contract, sender, at, receipt, store.Snapshot())
  {
    TakenIsRight(store.Snapshot(), e, contract, sender, at);
    if sender.authority.Unreachable? {
      return TryAgain(UNAVAILABLE);
    }
    var rejection := OwnershipRejection(e, contract, sender);
    if rejection.Some? {
      return Refused(rejection.value);
    }
    if e.eventId in store.custody {
      var stored := store.custody[e.eventId];
      return if stored.envelope == e then Duplicate(stored.application) else Refused(IDENTITY_CONFLICT);
    }
    var application := Classify(store.Snapshot(), e, contract);
    var outcome := store.Record(Entry(e, application, sender.verifiedNode, at, contract.consumers));
    return if outcome.Ok? then Accepted(application) else TryAgain(UNAVAILABLE);
  }

  // ---------- the processor ----------

  /** What the consumer answers inside the transaction that would also mark the progress. */
  datatype Verdict = Effect | Discrepant(id: DiscrepancyId, reason: string) | Unavailable(code: string)

  /** The store's tables and the effects the consumers committed with them. */
  datatype Books = Books(desk: Desk, effects: map<Item, nat>)

  function Effects(b: Books, item: Item): nat {
    if item in b.effects then b.effects[item] else 0
  }

  /** Base one second, doubled six times at most, capped at one minute. */
  function Backoff(attempts: nat): nat {
    if attempts == 0 then 500
    else if attempts < 7 then 1000 * Doubled(attempts - 1)
    else 60000
  }

  function Doubled(n: nat): nat {
    if n == 0 then 1 else 2 * Doubled(n - 1)
  }

  /** Waits never shrink from one generation to the next, and stay between half a second and a minute. */
  lemma BackoffGrows(attempts: nat)
    ensures 500 <= Backoff(attempts) <= Backoff(attempts + 1) <= 60000
  {
    assert Doubled(0) == 1 && Doubled(1) == 2 && Doubled(2) == 4 && Doubled(3) == 8 && Doubled(4) == 16
      && Doubled(5) == 32;
  }

  /** A received dependency is satisfied once every consumer applied everything in its aggregate. */
  predicate DependencyApplied(d: Desk, aggregateType: int, aggregateId: int) {
    && Known(d, aggregateType, aggregateId)
    && !exists item :: item in d.work && item.eventId in d.custody
                       && OfAggregate(d.custody[item.eventId], aggregateType, aggregateId)
                       && !d.work[item].state.Applied?
  }

  predicate Waits(d: Desk, contract: Contract) {
    exists i :: 0 <= i < |contract.dependencies|
                && !DependencyApplied(d, contract.dependencies[i].0, contract.dependencies[i].1)
  }

  /** What is left to do once the consuming transaction committed or rolled back. */
  datatype Sequel = Finished | Skipped | Reschedule(code: string) | Dispute(id: DiscrepancyId, reason: string)

  /**
   * The consuming transaction of one claimed item: the effect and its confirmation commit together, or
   * neither does. `waiting` is what an earlier read said of its dependencies.
   */
  function Consumed(b: Books, item: Item, attempts: nat, waiting: bool, verdict: Verdict, now: Instant):
    (Sequel, Books)
  {
    if waiting then (Reschedule("SYNC_DEPENDENCY_NOT_APPLIED"), b)
    else if !WorkActive(b.desk, item, attempts, now) then (Skipped, b)
    else match verdict
      case Effect =>
        (Finished, Books(AppliedDesk(b.desk, item, attempts, now), b.effects[item := Effects(b, item) + 1]))
      case Discrepant(id, reason) => (Dispute(id, reason), b)
      case Unavailable(code) => (Reschedule(code), b)
  }

  /** The transaction after it, at any later time: guarded by the generation alone, not by the lease. */
  function Concluded(b: Books, item: Item, attempts: nat, sequel: Sequel, now: Instant): Books {
    match sequel
    case Reschedule(code) => Postponed(b, item, attempts, now, code)
    case Dispute(id, reason) => b.(desk := OpenedDesk(b.desk, item, attempts, id, reason, now))
    case _ => b
  }

  function Postponed(b: Books, item: Item, attempts: nat, now: Instant, code: string): Books {
    b.(desk := RetryableDesk(b.desk, item, attempts, now + Backoff(attempts), code))
  }

  class Processor {
    const store: InboxStore
    var effects: map<Item, nat>

    constructor (store: InboxStore)
      ensures this.store == store && effects == map[]
    {
      this.store := store;
      effects := map[];
    }

    function Snapshot(): Books
      reads this, store
    {
      Books(store.Snapshot(), effects)
    }

    method PendingDependency(contract: Contract) returns (waiting: bool)
      ensures waiting == Waits(Snapshot().desk, contract)
    {
      for i := 0 to |contract.dependencies|
        invariant forall j :: 0 <= j < i ==>
          DependencyApplied(Snapshot().desk, contract.dependencies[j].0, contract.dependencies[j].1)
      {
        if !DependencyApplied(store.Snapshot(), contract.dependencies[i].0, contract.dependencies[i].1) {
          return true;
        }
      }
      return false;
    }

    method Consume(item: Item, attempts: nat, waiting: bool, verdict: Verdict, now: Instant) returns (sequel: Sequel)
      modifies this, store
      ensures (sequel, Snapshot()) == Consumed(old(Snapshot()), item, attempts, waiting, verdict, now)
    {
      if waiting {
        return Reschedule("SYNC_DEPENDENCY_NOT_APPLIED");
      }
      if !WorkActive(store.Snapshot(), item, attempts, now) {
        return Skipped;
      }
      match verdict
      case Effect =>
        effects := effects[item := (if item in effects then effects[item] else 0) + 1];
        var _ := store.MarkApplied(item, attempts, now);
        return Finished;
      case Discrepant(id, reason) =>
        return Dispute(id, reason);
      case Unavailable(code) =>
        return Reschedule(code);
    }

    method Conclude(item: Item, attempts: nat, sequel: Sequel, now: Instant)
      modifies store
      ensures Snapshot() == Concluded(old(Snapshot()), item, attempts, sequel, now)
    {
      match sequel
      case Reschedule(code) =>
        var _ := store.MarkRetryable(item, attempts, now + Backoff(attempts), code);
      case Dispute(id, reason) =>
        var _ := store.OpenDiscrepancy(item, attempts, id, reason, now);
      case _ =>
    }
  }
}
