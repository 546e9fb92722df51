/** What holds in every run of the receiver: no duplicate effects, one discrepancy per item, stable progress. */
module InboxRuns {
  import opened Wrappers
  import opened Outbox
  import opened Inbox
  import opened Reception

  datatype Step =
    | Deliver(envelope: Event, delivered: Contract, sender: Sender)
    | Claim(leaseUntil: Instant, limit: int)
    | Consume(item: Item, attempts: nat, waiting: bool, verdict: Verdict)
    | Conclude(late: Item, generation: nat, sequel: Sequel)
    | Retry(retried: DiscrepancyId)
    | Resolve(resolved: DiscrepancyId, actor: string, reason: string)

  function Next(b: Books, step: Step, now: Instant): Books {
    match step
    case Deliver(e, contract, sender) => b.(desk := Taken(b.desk, e, contract, sender, now).1)
    case Claim(leaseUntil, limit) => b.(desk := LeasedDesk(b.desk, ItemSet(ReadyItems(b.desk, now, limit)), leaseUntil))
    case Consume(item, attempts, waiting, verdict) => Consumed(b, item, attempts, waiting, verdict, now).1
    case Conclude(item, attempts, sequel) => Concluded(b, item, attempts, sequel, now)
    case Retry(id) => b.(desk := RescheduledDesk(b.desk, id, now))
    case Resolve(id, actor, reason) => b.(desk := ResolvedDesk(b.desk, id, now, actor, reason))
  }

  /** Any steps, in any order, at any clock readings: each is one transaction, and workers may stop between theirs. */
  function Run(b: Books, steps: seq<(Step, Instant)>): Books
    decreases |steps|
  {
    if steps == [] then b else Run(Next(b, steps[0].0, steps[0].1), steps[1..])
  }

  const EMPTY := Books(Desk(map[], map[], map[]), map[])

  // ---------- the invariant ----------

  ghost predicate CustodySound(d: Desk) {
    && (forall id :: id in d.custody ==> d.custody[id].envelope.eventId == id)
    && (forall item :: item in d.work ==> item.eventId in d.custody)
  }

  /** The dispute that an item is entitled to, if any. */
  ghost predicate DisputesSound(d: Desk) {
    && (forall id :: id in d.disputes ==> d.disputes[id].item in d.work)
    && (forall a, b :: a in d.disputes && b in d.disputes && d.disputes[a].item == d.disputes[b].item ==> a == b)
    && (forall id :: id in d.disputes && d.disputes[id].resolution.Resolved? ==>
          d.work[d.disputes[id].item].state.Applied?)
    && (forall item :: item in d.work && d.work[item].state.Disputed? ==> HasDispute(d, item))
  }

  ghost predicate EffectsMatch(b: Books) {
    forall item :: Effects(b, item) == if item in b.desk.work && b.desk.work[item].state.Applied? then 1 else 0
  }

  ghost predicate Sound(b: Books) {
    CustodySound(b.desk) && DisputesSound(b.desk) && EffectsMatch(b)
  }

  /** What no later step undoes: custody, applied rows, evidence of disputes, and the list of work owed. */
  ghost predicate Extends(b: Books, b': Books) {
    var d, d' := b.desk, b'.desk;
    && (forall id :: id in d.custody ==> id in d'.custody && d'.custody[id] == d.custody[id])
    && (forall item :: item in d.work ==> item in d'.work)
    && (forall item :: item in d'.work && item.eventId in d.custody ==> item in d.work)
    && (forall item :: item in d.work && d.work[item].state.Applied? ==> d'.work[item] == d.work[item])
    && (forall item :: item in d.work ==> d.work[item].attempts <= d'.work[item].attempts)
    && (forall id :: id in d.disputes ==> id in d'.disputes && d'.disputes[id].item == d.disputes[id].item
                                          && d'.disputes[id].reasonCode == d.disputes[id].reasonCode
                                          && (d.disputes[id].resolution.Resolved? ==>
                                                d'.disputes[id] == d.disputes[id]))
    && (forall item :: Effects(b, item) <= Effects(b', item))
  }

  lemma ExtendsTransitive(a: Books, b: Books, c: Books)
    requires Extends(a, b) && Extends(b, c)
    ensures Extends(a, c)
  {
  }

  // ---------- every step keeps it and extends the books ----------

  /** One row of unapplied work changes; the effect count follows it into APPLIED. */
  ghost predicate WorkChange(b: Books, item: Item, row: Work, b': Books) {
    && item in b.desk.work && !b.desk.work[item].state.Applied?
    && b.desk.work[item].attempts <= row.attempts && (row.state.Disputed? ==> HasDispute(b.desk, item))
    && b'.desk == b.desk.(work := b.desk.work[item := row])
    && b'.effects == if row.state.Applied? then b.effects[item := Effects(b, item) + 1] else b.effects
  }

  lemma WorkChangeKeeps(b: Books, item: Item, row: Work, b': Books)
    requires Sound(b) && WorkChange(b, item, row, b')
    ensures Sound(b')
  {
    forall other | other in b'.desk.work && b'.desk.work[other].state.Disputed?
      ensures HasDispute(b'.desk, other)
    {
      assert HasDispute(b.desk, other);
    }
  }

  lemma WorkChanges(b: Books, item: Item, row: Work, b': Books)
    requires Sound(b) && WorkChange(b, item, row, b')
    ensures Sound(b') && Extends(b, b')
  {
    WorkChangeKeeps(b, item, row, b');
  }

  lemma DisputeAdded(b: Books, item: Item, id: DiscrepancyId, code: string, now: Instant)
    requires Sound(b) && item in b.desk.work && !HasDispute(b.desk, item) && id !in b.desk.disputes
    ensures
      var b' := b.(desk := b.desk.(disputes := b.desk.disputes[id := Discrepancy(item, code, Open, now)]));
      Sound(b') && Extends(b, b') && HasDispute(b'.desk, item)
  {
    var d' := b.desk.(disputes := b.desk.disputes[id := Discrepancy(item, code, Open, now)]);
    assert id in d'.disputes;
    DisputesStay(b.desk, d');
    DisputesOnly(b, d');
  }

  /** Records that stay keep their items in dispute. */
  lemma DisputesStay(d: Desk, d': Desk)
    requires forall w :: w in d.disputes ==> w in d'.disputes && d'.disputes[w].item == d.disputes[w].item
    ensures forall item :: HasDispute(d, item) ==> HasDispute(d', item)
  {
  }

  /** A change of the discrepancy table alone. */
  lemma DisputesOnly(b: Books, d': Desk)
    requires Sound(b) && d' == b.desk.(disputes := d'.disputes) && DisputesSound(d')
    requires forall id :: id in b.desk.disputes ==>
      && id in d'.disputes && d'.disputes[id].item == b.desk.disputes[id].item
      && d'.disputes[id].reasonCode == b.desk.disputes[id].reasonCode
      && (b.desk.disputes[id].resolution.Resolved? ==> d'.disputes[id] == b.desk.disputes[id])
    ensures Sound(b.(desk := d')) && Extends(b, b.(desk := d'))
  {
  }

  lemma OpenKeeps(b: Books, item: Item, attempts: nat, id: DiscrepancyId, code: string, now: Instant)
    requires Sound(b)
    ensures
      var b' := b.(desk := OpenedDesk(b.desk, item, attempts, id, code, now));
      Sound(b') && Extends(b, b')
  {
    var b' := b.(desk := OpenedDesk(b.desk, item, attempts, id, code, now));
    if Current(b.desk, item, attempts) && !IdClash(b.desk, item, id) {
      if HasDispute(b.desk, item) {
        WorkChanges(b, item, b'.desk.work[item], b');
      } else {
        var mid := b.(desk := b.desk.(disputes := b'.desk.disputes));
        DisputeAdded(b, item, id, code, now);
        WorkChanges(mid, item, b'.desk.work[item], b');
        ExtendsTransitive(b, mid, b');
      }
    }
  }

  lemma PostponedKeeps(b: Books, item: Item, attempts: nat, now: Instant, code: string)
    requires Sound(b)
    ensures
      var b' := Postponed(b, item, attempts, now, code);
      Sound(b') && Extends(b, b')
  {
    var b' := Postponed(b, item, attempts, now, code);
    if Current(b.desk, item, attempts) {
      WorkChanges(b, item, b'.desk.work[item], b');
    }
  }

  lemma EffectKeeps(b: Books, item: Item, attempts: nat, now: Instant)
    requires Sound(b) && Current(b.desk, item, attempts)
    ensures
      var b' := Books(AppliedDesk(b.desk, item, attempts, now), b.effects[item := Effects(b, item) + 1]);
      Sound(b') && Extends(b, b')
  {
    var b' := Books(AppliedDesk(b.desk, item, attempts, now), b.effects[item := Effects(b, item) + 1]);
    WorkChanges(b, item, b'.desk.work[item], b');
  }

  lemma ConsumeKeeps(b: Books, item: Item, attempts: nat, waiting: bool, verdict: Verdict, now: Instant)
    requires Sound(b)
    ensures
      var b' := Consumed(b, item, attempts, waiting, verdict, now).1;
      Sound(b') && Extends(b, b')
  {
    if !waiting && WorkActive(b.desk, item, attempts, now) && verdict.Effect? {
      EffectKeeps(b, item, attempts, now);
    }
  }

  lemma ConcludeKeeps(b: Books, item: Item, attempts: nat, sequel: Sequel, now: Instant)
    requires Sound(b)
    ensures
      var b' := Concluded(b, item, attempts, sequel, now);
      Sound(b') && Extends(b, b')
  {
    match sequel
    case Reschedule(code) => PostponedKeeps(b, item, attempts, now, code);
    case Dispute(id, reason) => OpenKeeps(b, item, attempts, id, reason, now);
    case _ =>
  }

  lemma DeliverKeeps(b: Books, e: Event, contract: Contract, sender: Sender, now: Instant)
    requires Sound(b)
    ensures
      var b' := Next(b, Deliver(e, contract, sender), now);
      Sound(b') && Extends(b, b')
  {
    var b' := Next(b, Deliver(e, contract, sender), now);
    if b' != b {
      CustodyAdded(b, Entry(e, Classify(b.desk, e, contract), sender.verifiedNode, now, contract.consumers), b');
    }
  }

  lemma CustodyAdded(b: Books, e: Entry, b': Books)
    requires Sound(b) && e.envelope.eventId !in b.desk.custody && b' == b.(desk := RecordedDesk(b.desk, e))
    ensures Sound(b') && Extends(b, b')
  {
    NewWorkOnly(b.desk, e);
    CustodyAddedKeeps(b, e, b');
  }

  lemma CustodyAddedKeeps(b: Books, e: Entry, b': Books)
    requires Sound(b) && e.envelope.eventId !in b.desk.custody && b' == b.(desk := RecordedDesk(b.desk, e))
    ensures Sound(b')
  {
    NewWorkOnly(b.desk, e);
    forall item | item in b'.desk.work && b'.desk.work[item].state.Disputed?
      ensures HasDispute(b'.desk, item)
    {
      assert HasDispute(b.desk, item);
    }
  }

  lemma NewWorkOnly(d: Desk, e: Entry)
    requires CustodySound(d) && e.envelope.eventId !in d.custody
    ensures
      var work := RecordedDesk(d, e).work;
      && (forall item :: item in d.work ==>
            item in work && work[item] == d.work[item] && item.eventId != e.envelope.eventId)
      && (forall item :: item in work && item !in d.work ==>
            item.eventId == e.envelope.eventId && work[item] == NewWork(e.receivedAt))
  {
  }

  lemma ClaimKeeps(b: Books, leaseUntil: Instant, items: set<Item>)
    requires Sound(b) && forall item :: item in items && item in b.desk.work ==> !b.desk.work[item].state.Applied?
    ensures
      var b' := b.(desk := LeasedDesk(b.desk, items, leaseUntil));
      Sound(b') && Extends(b, b')
  {
    var b' := b.(desk := LeasedDesk(b.desk, items, leaseUntil));
    forall item | item in b'.desk.work && b'.desk.work[item].state.Disputed?
      ensures HasDispute(b'.desk, item)
    {
      assert HasDispute(b.desk, item);
    }
  }

  lemma RetryKeeps(b: Books, id: DiscrepancyId, now: Instant)
    requires Sound(b)
    ensures
      var b' := b.(desk := RescheduledDesk(b.desk, id, now));
      Sound(b') && Extends(b, b')
  {
    var b' := b.(desk := RescheduledDesk(b.desk, id, now));
    if Retriable(b.desk, id) {
      var item := b.desk.disputes[id].item;
      WorkChanges(b, item, b'.desk.work[item], b');
    }
  }

  lemma ResolveKeeps(b: Books, id: DiscrepancyId, actor: string, reason: string, now: Instant)
    requires Sound(b)
    ensures
      var b' := b.(desk := ResolvedDesk(b.desk, id, now, actor, reason));
      Sound(b') && Extends(b, b')
  {
    if Resolvable(b.desk, id) {
      DisputeResolved(b, id, b.desk.disputes[id].(resolution := Resolved(now, actor, reason)));
    }
  }

  lemma DisputeResolved(b: Books, id: DiscrepancyId, row: Discrepancy)
    requires Sound(b) && Resolvable(b.desk, id)
    requires row.item == b.desk.disputes[id].item && row.reasonCode == b.desk.disputes[id].reasonCode
    ensures
      var b' := b.(desk := b.desk.(disputes := b.desk.disputes[id := row]));
      Sound(b') && Extends(b, b')
  {
    var d' := b.desk.(disputes := b.desk.disputes[id := row]);
    DisputesStay(b.desk, d');
    DisputesOnly(b, d');
  }

  lemma NextKeeps(b: Books, step: Step, now: Instant)
    requires Sound(b)
    ensures Sound(Next(b, step, now)) && Extends(b, Next(b, step, now))
  {
    match step
    case Deliver(e, contract, sender) => DeliverKeeps(b, e, contract, sender, now);
    case Claim(leaseUntil, limit) => ClaimKeeps(b, leaseUntil, ItemSet(ReadyItems(b.desk, now, limit)));
    case Consume(item, attempts, waiting, verdict) => ConsumeKeeps(b, item, attempts, waiting, verdict, now);
    case Conclude(item, attempts, sequel) => ConcludeKeeps(b, item, attempts, sequel, now);
    case Retry(id) => RetryKeeps(b, id, now);
    case Resolve(id, actor, reason) => ResolveKeeps(b, id, actor, reason, now);
  }

  lemma {:induction false} RunKeeps(b: Books, steps: seq<(Step, Instant)>)
    requires Sound(b)
    ensures Sound(Run(b, steps)) && Extends(b, Run(b, steps))
    decreases |steps|
  {
    if steps != [] {
      var next := Next(b, steps[0].0, steps[0].1);
      NextKeeps(b, steps[0].0, steps[0].1);
      RunKeeps(next, steps[1..]);
      ExtendsTransitive(b, next, Run(next, steps[1..]));
    }
  }

  // ---------- the promises ----------

  /**
   * No duplicate effects: in every run an item's effect was committed once if its row is APPLIED, and never
   * otherwise.
   */
  lemma EffectsHappenOnce(steps: seq<(Step, Instant)>, item: Item)
    ensures
      var b := Run(EMPTY, steps);
      Effects(b, item) == if item in b.desk.work && b.desk.work[item].state.Applied? then 1 else 0
  {
    RunKeeps(EMPTY, steps);
  }

  /** Custody never loses a fact nor the work it owes, and an applied row is never written again. */
  lemma NothingIsLost(steps: seq<(Step, Instant)>, later: seq<(Step, Instant)>)
    ensures Extends(Run(EMPTY, steps), Run(Run(EMPTY, steps), later))
  {
    RunKeeps(EMPTY, steps);
    RunKeeps(Run(EMPTY, steps), later);
  }

  /** An item in dispute has exactly one record and it is open; a resolved record's item is applied for ever. */
  lemma DisputesAgree(steps: seq<(Step, Instant)>, item: Item)
    ensures
      var d := Run(EMPTY, steps).desk;
      && (item in d.work && d.work[item].state.Disputed? ==>
            exists id :: id in d.disputes && d.disputes[id].item == item && d.disputes[id].resolution.Open?)
      && (forall a, b :: a in d.disputes && b in d.disputes && d.disputes[a].item == item == d.disputes[b].item ==>
            a == b)
      && (forall id :: id in d.disputes && d.disputes[id].item == item && d.disputes[id].resolution.Resolved? ==>
            item in d.work && d.work[item].state.Applied?)
  {
    RunKeeps(EMPTY, steps);
    var d := Run(EMPTY, steps).desk;
    if item in d.work && d.work[item].state.Disputed? {
      var id :| id in d.disputes && d.disputes[id].item == item;
      assert d.disputes[id].resolution.Open?;
    }
  }

  /** Once APPLIED, always APPLIED; and never without custody. */
  lemma ProgressIsStable(steps: seq<(Step, Instant)>, later: seq<(Step, Instant)>, id: EventId)
    requires ApplicationProgress(Run(EMPTY, steps).desk, id) == ProgressApplied
    ensures id in Run(EMPTY, steps).desk.custody
    ensures ApplicationProgress(Run(Run(EMPTY, steps), later).desk, id) == ProgressApplied
  {
    NothingIsLost(steps, later);
    var d, d' := Run(EMPTY, steps).desk, Run(Run(EMPTY, steps), later).desk;
    forall item | item in d'.work && item.eventId == id
      ensures d'.work[item].state.Applied?
    {
      assert item in d.work && d.work[item].state in {ToApply, Disputed, Applied};
    }
  }
}
