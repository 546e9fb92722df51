/**
 * One sender, any number of destinations, and a network that loses, repeats and reorders messages.
 * Workers may stop anywhere: what they hold, what was sent and what was answered only accumulates,
 * and every later step may use any of it or none.
 */
module LanProtocol {
  import opened Wrappers
  import opened Outbox
  import OutboxOrder
  import OutboxClaims
  import opened Inbox
  import opened Reception
  import InboxRuns

  datatype Message = Message(node: NodeId, envelope: Event)

  datatype Net = Net(
    self: NodeId,
    outbox: Tables,
    held: set<Claim>,
    wire: set<Message>,
    acks: set<Slot>,
    nodes: map<NodeId, Books>,
    settled: multiset<(Slot, nat)>)

  datatype Step =
    | Enqueue(batch: seq<Event>)
    | TakeBatch(node: NodeId, catalog: Catalog, now: Instant, leaseUntil: Instant, limit: int)
    | Send(claim: Claim, at: Instant)
    | Arrive(message: Message, contract: Contract, registered: Sender, received: Instant)
    | Settle(settling: Claim, outcome: Outcome)
    | Resume(slot: Slot, resumed: Instant, actor: string)
    | AtNode(worker: NodeId, inner: InboxRuns.Step, clock: Instant)

  function Start(self: NodeId, nodes: set<NodeId>): Net {
    Net(self, Tables(map[], map[]), {}, {}, {}, map n | n in nodes :: InboxRuns.EMPTY, multiset{})
  }

  function ClaimsTaken(n: Net, node: NodeId, catalog: Catalog, now: Instant, limit: int): set<Claim> {
    set c | c in OutboxClaims.Handed(n.outbox, catalog, node, now, limit)
  }

  /** What the receiver knows of the sender, whatever its registry says. */
  function SenderOf(n: Net, registered: Sender): Sender {
    registered.(verifiedNode := n.self)
  }

  /** What the code and its environment allow: no settlement without the answer it stands for. */
  ghost predicate Enabled(n: Net, step: Step) {
    match step
    case Enqueue(batch) => OutboxOrder.Keyed(n.outbox) && OutboxOrder.InOrder(n.outbox, batch)
    case TakeBatch(_, _, _, _, _) => true
    case Send(claim, at) => claim in n.held && ClaimActive(n.outbox, claim.slot, claim.attempts, at)
    case Arrive(m, _, _, _) => m in n.wire && m.node in n.nodes
    case Settle(claim, outcome) => claim in n.held && (outcome.Publish? ==> claim.slot in n.acks)
    case Resume(_, _, _) => true
    case AtNode(worker, inner, _) => worker in n.nodes && !inner.Deliver?
  }

  function Next(n: Net, step: Step): Net {
    match step
    case Enqueue(batch) => n.(outbox := n.outbox.(events := Enqueued(n.outbox.events, batch)))
    case TakeBatch(node, catalog, now, leaseUntil, limit) =>
      n.(outbox := ClaimedTables(n.outbox, catalog, node, now, leaseUntil, limit),
         held := n.held + ClaimsTaken(n, node, catalog, now, limit))
    case Send(claim, _) =>
      if claim.slot.eventId in n.outbox.events
      then n.(wire := n.wire + {Message(claim.slot.node, n.outbox.events[claim.slot.eventId])})
      else n
    case Arrive(m, contract, registered, at) =>
      if m.node !in n.nodes then n
      else
        var (receipt, desk) := Taken(n.nodes[m.node].desk, m.envelope, contract, SenderOf(n, registered), at);
        n.(nodes := n.nodes[m.node := n.nodes[m.node].(desk := desk)],
           acks := if receipt.Accepted? || receipt.Duplicate?
                   then n.acks + {Slot(m.envelope.eventId, m.node)} else n.acks)
    case Settle(claim, outcome) =>
      n.(outbox := SettledTables(n.outbox, claim.slot, claim.attempts, outcome),
         settled := if Holds(n.outbox, claim.slot, claim.attempts)
                    then n.settled + multiset{(claim.slot, claim.attempts)} else n.settled)
    case Resume(slot, now, actor) => n.(outbox := ResumedTables(n.outbox, slot, now, actor))
    case AtNode(worker, inner, now) =>
      if worker !in n.nodes then n
      else n.(nodes := n.nodes[worker := InboxRuns.Next(n.nodes[worker], inner, now)])
  }

  function Run(n: Net, steps: seq<Step>): Net
    decreases |steps|
  {
    if steps == [] then n else Run(Next(n, steps[0]), steps[1..])
  }

  ghost predicate Allowed(n: Net, steps: seq<Step>)
    decreases |steps|
  {
    steps == [] || (Enabled(n, steps[0]) && Allowed(Next(n, steps[0]), steps[1..]))
  }

  // ---------- the invariant ----------

  predicate Offered(t: Tables, slot: Slot) {
    slot in t.deliveries && t.deliveries[slot].attempts > 0
  }

  ghost predicate HeldSound(n: Net) {
    forall c :: c in n.held ==> c.slot in n.outbox.deliveries && 1 <= c.attempts <= n.outbox.deliveries[c.slot].attempts
  }

  ghost predicate WireSound(n: Net) {
    forall m :: m in n.wire ==>
      && m.envelope.eventId in n.outbox.events && n.outbox.events[m.envelope.eventId] == m.envelope
      && Offered(n.outbox, Slot(m.envelope.eventId, m.node))
  }

  predicate HasCustody(n: Net, slot: Slot) {
    slot.node in n.nodes && slot.eventId in n.nodes[slot.node].desk.custody
  }

  ghost predicate CustodySound(n: Net) {
    forall slot :: HasCustody(n, slot) ==>
      && slot.eventId in n.outbox.events
      && n.nodes[slot.node].desk.custody[slot.eventId].envelope == n.outbox.events[slot.eventId]
      && n.outbox.events[slot.eventId].aggregate.originNodeId == n.self
      && Offered(n.outbox, slot)
  }

  ghost predicate AcksSound(n: Net) {
    && (forall slot :: slot in n.acks ==> HasCustody(n, slot))
    && (forall slot :: IsPublished(n.outbox, slot) ==> slot in n.acks)
  }

  /** A generation settles at most once, and the one being processed has not settled yet. */
  ghost predicate SettledSound(n: Net) {
    forall slot, g: nat :: (slot, g) in n.settled ==>
      && n.settled[(slot, g)] == 1
      && slot in n.outbox.deliveries
      && g <= n.outbox.deliveries[slot].attempts
      && (g == n.outbox.deliveries[slot].attempts ==> !n.outbox.deliveries[slot].status.Processing?)
  }

  ghost predicate NodesSound(n: Net) {
    forall node :: node in n.nodes ==> InboxRuns.Sound(n.nodes[node])
  }

  ghost predicate Sound(n: Net) {
    && OutboxOrder.Sound(n.outbox) && HeldSound(n) && WireSound(n) && CustodySound(n)
    && AcksSound(n) && SettledSound(n) && NodesSound(n)
  }

  /** What no step of the sender undoes. */
  ghost predicate OutboxExtends(t: Tables, t': Tables) {
    && (forall id :: id in t.events ==> id in t'.events && t'.events[id] == t.events[id])
    && (forall slot :: slot in t.deliveries ==>
          && slot in t'.deliveries
          && t.deliveries[slot].attempts <= t'.deliveries[slot].attempts
          && (t.deliveries[slot].status.Published? ==> t'.deliveries[slot] == t.deliveries[slot]))
  }

  // ---------- steps of the sender ----------

  /** A move of the outbox carries everything that leans on it. */
  ghost predicate Moves(n: Net, t': Tables) {
    && OutboxOrder.Sound(t') && OutboxExtends(n.outbox, t')
    && (forall slot :: IsPublished(t', slot) ==> slot in n.acks)
    && NewGenerationsOnly(n.outbox, t')
  }

  /** Whatever starts being processed is a new generation. */
  ghost predicate NewGenerationsOnly(t: Tables, t': Tables)
    requires OutboxExtends(t, t')
  {
    forall slot ::
      slot in t.deliveries && t'.deliveries[slot].status.Processing? && !t.deliveries[slot].status.Processing? ==>
        t.deliveries[slot].attempts < t'.deliveries[slot].attempts
  }

  lemma OutboxMoves(n: Net, t': Tables)
    requires Sound(n) && Moves(n, t')
    ensures Sound(n.(outbox := t'))
  {
  }

  lemma EnqueueKeeps(n: Net, batch: seq<Event>)
    requires Sound(n) && Enabled(n, Enqueue(batch))
    ensures Sound(Next(n, Enqueue(batch))) && OutboxExtends(n.outbox, Next(n, Enqueue(batch)).outbox)
  {
    OutboxOrder.EnqueueKeepsIff(n.outbox, batch);
    OutboxMoves(n, n.outbox.(events := Enqueued(n.outbox.events, batch)));
  }

  lemma ResumeKeeps(n: Net, slot: Slot, now: Instant, actor: string)
    requires Sound(n)
    ensures Sound(Next(n, Resume(slot, now, actor)))
      && OutboxExtends(n.outbox, Next(n, Resume(slot, now, actor)).outbox)
  {
    OutboxOrder.ResumeKeeps(n.outbox, slot, now, actor);
    OutboxMoves(n, ResumedTables(n.outbox, slot, now, actor));
  }

  /** What claiming does to the rows: nothing is undone, nothing gets published, and processing opens a generation. */
  ghost predicate Claimed(t: Tables, t': Tables) {
    && OutboxExtends(t, t') && NewGenerationsOnly(t, t')
    && (forall slot :: IsPublished(t', slot) ==> IsPublished(t, slot))
  }

  /** The rows of `t`, and new ones that wait. */
  ghost predicate Adds(t: Tables, m: Tables) {
    && m.events == t.events
    && (forall slot :: slot in t.deliveries ==> slot in m.deliveries && m.deliveries[slot] == t.deliveries[slot])
    && (forall slot :: slot in m.deliveries && slot !in t.deliveries ==> m.deliveries[slot].status.Pending?)
  }

  lemma MaterializeAdds(t: Tables, node: NodeId, now: Instant)
    ensures Adds(t, Materialized(t, node, now))
  {
  }

  lemma MarkClaims(m: Tables, node: NodeId, isolated: set<EventId>, leased: set<EventId>, leaseUntil: Instant)
    requires forall id :: id in isolated + leased ==>
      Slot(id, node) in m.deliveries && m.deliveries[Slot(id, node)].status in {Pending, Processing}
    ensures Claimed(m, Marked(m, node, isolated, leased, leaseUntil))
  {
  }

  lemma AddThenClaim(t: Tables, m: Tables, t': Tables)
    requires Adds(t, m) && Claimed(m, t')
    ensures Claimed(t, t')
  {
  }

  lemma MarkRowsClaims(m: Tables, catalog: Catalog, node: NodeId, rows: seq<EventId>, leaseUntil: Instant)
    requires Selectable(m, node, rows)
    ensures Claimed(m, Marked(m, node, Rejected(m, catalog, rows), Members(Kept(m, catalog, rows)), leaseUntil))
  {
    KeptIsDeliverable(m, catalog, rows);
    MarkClaims(m, node, Rejected(m, catalog, rows), Members(Kept(m, catalog, rows)), leaseUntil);
  }

  lemma ClaimMoves(t: Tables, catalog: Catalog, node: NodeId, now: Instant, leaseUntil: Instant, limit: int)
    ensures Claimed(t, ClaimedTables(t, catalog, node, now, leaseUntil, limit))
  {
    var m := Materialized(t, node, now);
    var rows := Selected(m, node, now, limit);
    SelectedIsSelectable(m, node, now, limit);
    MarkRowsClaims(m, catalog, node, rows, leaseUntil);
    MaterializeAdds(t, node, now);
    AddThenClaim(t, m, ClaimedTables(t, catalog, node, now, leaseUntil, limit));
  }

  lemma LeasedByOne(m: Tables, node: NodeId, isolated: set<EventId>, leased: set<EventId>, leaseUntil: Instant,
                    id: EventId)
    requires id in leased && Slot(id, node) in m.deliveries
    ensures
      var t' := Marked(m, node, isolated, leased, leaseUntil);
      Slot(id, node) in t'.deliveries
        && t'.deliveries[Slot(id, node)].attempts == m.deliveries[Slot(id, node)].attempts + 1
  {
  }

  lemma KeptClaim(m: Tables, catalog: Catalog, node: NodeId, rows: seq<EventId>, leaseUntil: Instant, c: Claim)
    requires Selectable(m, node, rows)
    requires
      var kept := Kept(m, catalog, rows);
      (forall id :: id in kept ==> Slot(id, node) in m.deliveries) && c in ClaimsOf(m, node, kept)
    ensures
      var t' := Marked(m, node, Rejected(m, catalog, rows), Members(Kept(m, catalog, rows)), leaseUntil);
      && c.slot in m.deliveries && c.slot in t'.deliveries
      && 1 <= c.attempts == m.deliveries[c.slot].attempts + 1 == t'.deliveries[c.slot].attempts
  {
    var kept := Kept(m, catalog, rows);
    var i :| 0 <= i < |kept| && ClaimsOf(m, node, kept)[i] == c;
    assert kept[i] in kept;
    LeasedByOne(m, node, Rejected(m, catalog, rows), Members(kept), leaseUntil, kept[i]);
  }

  lemma ClaimsNameGenerations(n: Net, node: NodeId, catalog: Catalog, now: Instant, leaseUntil: Instant, limit: int,
                              c: Claim)
    requires c in ClaimsTaken(n, node, catalog, now, limit)
    ensures
      var t' := ClaimedTables(n.outbox, catalog, node, now, leaseUntil, limit);
      && c.slot in t'.deliveries && 1 <= c.attempts == t'.deliveries[c.slot].attempts
      && (c.slot in n.outbox.deliveries ==> c.attempts == n.outbox.deliveries[c.slot].attempts + 1)
  {
    var m := Materialized(n.outbox, node, now);
    var rows := Selected(m, node, now, limit);
    SelectedIsSelectable(m, node, now, limit);
    KeptIsDeliverable(m, catalog, rows);
    KeptClaim(m, catalog, node, rows, leaseUntil, c);
  }

  /** The claims hold the generations the tables now have. */
  ghost predicate Current(t: Tables, claims: set<Claim>) {
    forall c :: c in claims ==> c.slot in t.deliveries && 1 <= c.attempts == t.deliveries[c.slot].attempts
  }

  lemma ClaimsTakenAreCurrent(n: Net, node: NodeId, catalog: Catalog, now: Instant, leaseUntil: Instant, limit: int)
    ensures Current(ClaimedTables(n.outbox, catalog, node, now, leaseUntil, limit),
                    ClaimsTaken(n, node, catalog, now, limit))
  {
    forall c | c in ClaimsTaken(n, node, catalog, now, limit)
      ensures
        var t' := ClaimedTables(n.outbox, catalog, node, now, leaseUntil, limit);
        c.slot in t'.deliveries && 1 <= c.attempts == t'.deliveries[c.slot].attempts
    {
      ClaimsNameGenerations(n, node, catalog, now, leaseUntil, limit, c);
    }
  }

  lemma TakeBatchKeeps(n: Net, node: NodeId, catalog: Catalog, now: Instant, leaseUntil: Instant, limit: int)
    requires Sound(n)
    ensures
      var n' := Next(n, TakeBatch(node, catalog, now, leaseUntil, limit));
      Sound(n') && OutboxExtends(n.outbox, n'.outbox)
  {
    OutboxOrder.ClaimKeeps(n.outbox, catalog, node, now, leaseUntil, limit);
    ClaimMoves(n.outbox, catalog, node, now, leaseUntil, limit);
    ClaimsTakenAreCurrent(n, node, catalog, now, leaseUntil, limit);
    ClaimedAndHeld(n, ClaimedTables(n.outbox, catalog, node, now, leaseUntil, limit),
                   ClaimsTaken(n, node, catalog, now, limit));
  }

  lemma ClaimedAndHeld(n: Net, t': Tables, claims: set<Claim>)
    requires Sound(n) && OutboxOrder.Sound(t') && Claimed(n.outbox, t') && Current(t', claims)
    ensures Sound(n.(outbox := t', held := n.held + claims)) && OutboxExtends(n.outbox, t')
  {
    OutboxMoves(n, t');
    HeldGrows(n.(outbox := t'), claims);
  }

  lemma HeldGrows(n: Net, claims: set<Claim>)
    requires Sound(n)
    requires forall c :: c in claims ==>
      c.slot in n.outbox.deliveries && 1 <= c.attempts <= n.outbox.deliveries[c.slot].attempts
    ensures Sound(n.(held := n.held + claims))
  {
  }

  lemma SendKeeps(n: Net, claim: Claim, at: Instant)
    requires Sound(n) && Enabled(n, Send(claim, at))
    ensures Sound(Next(n, Send(claim, at))) && OutboxExtends(n.outbox, Next(n, Send(claim, at)).outbox)
  {
    var n' := Next(n, Send(claim, at));
    assert forall slot :: HasCustody(n', slot) ==> HasCustody(n, slot);
    assert forall slot :: HasCustody(n, slot) ==> HasCustody(n', slot);
  }

  lemma SettlementMoves(n: Net, claim: Claim, outcome: Outcome)
    requires Sound(n) && Enabled(n, Settle(claim, outcome)) && Holds(n.outbox, claim.slot, claim.attempts)
    ensures Moves(n, SettledTables(n.outbox, claim.slot, claim.attempts, outcome))
  {
    var t' := SettledTables(n.outbox, claim.slot, claim.attempts, outcome);
    OutboxOrder.SettleKeeps(n.outbox, claim.slot, claim.attempts, outcome);
    OneRowMoves(n, t', claim.slot, t'.deliveries[claim.slot]);
  }

  /** A row that stops being processed, published only with an answer. */
  lemma OneRowMoves(n: Net, t': Tables, slot: Slot, row: Delivery)
    requires Sound(n) && OutboxOrder.Sound(t') && slot in n.outbox.deliveries
    requires t' == n.outbox.(deliveries := n.outbox.deliveries[slot := row])
    requires n.outbox.deliveries[slot].status.Processing? && row.attempts == n.outbox.deliveries[slot].attempts
    requires !row.status.Processing? && (row.status.Published? ==> slot in n.acks)
    ensures Moves(n, t')
  {
  }

  lemma SettleKeeps(n: Net, claim: Claim, outcome: Outcome)
    requires Sound(n) && Enabled(n, Settle(claim, outcome))
    ensures Sound(Next(n, Settle(claim, outcome))) && OutboxExtends(n.outbox, Next(n, Settle(claim, outcome)).outbox)
  {
    if Holds(n.outbox, claim.slot, claim.attempts) {
      var t' := SettledTables(n.outbox, claim.slot, claim.attempts, outcome);
      SettlementMoves(n, claim, outcome);
      OutboxMoves(n, t');
      SettlementRecorded(n.(outbox := t'), claim.slot, claim.attempts);
    }
  }

  lemma SettlementRecorded(n: Net, slot: Slot, g: nat)
    requires Sound(n) && slot in n.outbox.deliveries && n.outbox.deliveries[slot].attempts == g
    requires !n.outbox.deliveries[slot].status.Processing? && (slot, g) !in n.settled
    ensures Sound(n.(settled := n.settled + multiset{(slot, g)}))
  {
  }

  // ---------- steps of the destinations ----------

  /** A destination's books may grow by facts it was offered, and answers name only what it then has. */
  lemma NodeMoves(n: Net, node: NodeId, b: Books, acks: set<Slot>)
    requires Sound(n) && node in n.nodes && InboxRuns.Sound(b)
    requires forall id :: id in n.nodes[node].desk.custody ==> id in b.desk.custody
    requires forall id :: id in b.desk.custody ==>
      && id in n.outbox.events && b.desk.custody[id].envelope == n.outbox.events[id]
      && n.outbox.events[id].aggregate.originNodeId == n.self && Offered(n.outbox, Slot(id, node))
    requires n.acks <= acks
    requires forall slot :: slot in acks && slot !in n.acks ==> slot.node == node && slot.eventId in b.desk.custody
    ensures Sound(n.(nodes := n.nodes[node := b], acks := acks))
  {
    var n' := n.(nodes := n.nodes[node := b], acks := acks);
    assert forall slot :: HasCustody(n, slot) ==> HasCustody(n', slot);
    forall slot | HasCustody(n', slot)
      ensures HasCustody(n, slot) || slot.node == node
    {
    }
  }

  lemma ArriveKeeps(n: Net, m: Message, contract: Contract, registered: Sender, at: Instant)
    requires Sound(n) && Enabled(n, Arrive(m, contract, registered, at))
    ensures
      var n' := Next(n, Arrive(m, contract, registered, at));
      Sound(n') && OutboxExtends(n.outbox, n'.outbox)
  {
    var n' := Next(n, Arrive(m, contract, registered, at));
    var b := n.nodes[m.node];
    var sender := SenderOf(n, registered);
    InboxRuns.DeliverKeeps(b, m.envelope, contract, sender, at);
    CustodyAfterDelivery(b.desk, m.envelope, contract, sender, at);
    forall id | id in b.desk.custody
      ensures id in n.outbox.events && b.desk.custody[id].envelope == n.outbox.events[id]
              && n.outbox.events[id].aggregate.originNodeId == n.self && Offered(n.outbox, Slot(id, m.node))
    {
      assert HasCustody(n, Slot(id, m.node));
    }
    NodeMoves(n, m.node, n'.nodes[m.node], n'.acks);
  }

  lemma CustodyAfterDelivery(d: Desk, e: Event, contract: Contract, sender: Sender, at: Instant)
    ensures
      var (receipt, d') := Taken(d, e, contract, sender, at);
      && (d'.custody.Keys == d.custody.Keys || d'.custody.Keys == d.custody.Keys + {e.eventId})
      && (forall id :: id in d.custody ==> d'.custody[id] == d.custody[id])
      && (receipt.Accepted? || receipt.Duplicate? ==> e.eventId in d'.custody)
      && (e.eventId in d'.custody && e.eventId !in d.custody ==>
            d'.custody[e.eventId].envelope == e && e.aggregate.originNodeId == sender.verifiedNode)
  {
  }

  lemma AtNodeKeeps(n: Net, worker: NodeId, inner: InboxRuns.Step, now: Instant)
    requires Sound(n) && Enabled(n, AtNode(worker, inner, now))
    ensures Sound(Next(n, AtNode(worker, inner, now)))
      && OutboxExtends(n.outbox, Next(n, AtNode(worker, inner, now)).outbox)
  {
    var b := n.nodes[worker];
    InboxRuns.NextKeeps(b, inner, now);
    OnlyDeliveriesBringCustody(b, inner, now);
    forall id | id in b.desk.custody
      ensures id in n.outbox.events && b.desk.custody[id].envelope == n.outbox.events[id]
              && n.outbox.events[id].aggregate.originNodeId == n.self && Offered(n.outbox, Slot(id, worker))
    {
      assert HasCustody(n, Slot(id, worker));
    }
    NodeMoves(n, worker, InboxRuns.Next(b, inner, now), n.acks);
  }

  lemma OnlyDeliveriesBringCustody(b: Books, inner: InboxRuns.Step, now: Instant)
    requires !inner.Deliver?
    ensures InboxRuns.Next(b, inner, now).desk.custody == b.desk.custody
  {
  }

  lemma NextKeeps(n: Net, step: Step)
    requires Sound(n) && Enabled(n, step)
    ensures Sound(Next(n, step)) && OutboxExtends(n.outbox, Next(n, step).outbox)
  {
    match step
    case Enqueue(batch) => EnqueueKeeps(n, batch);
    case TakeBatch(node, catalog, now, leaseUntil, limit) => TakeBatchKeeps(n, node, catalog, now, leaseUntil, limit);
    case Send(claim, at) => SendKeeps(n, claim, at);
    case Arrive(m, contract, registered, at) => ArriveKeeps(n, m, contract, registered, at);
    case Settle(claim, outcome) => SettleKeeps(n, claim, outcome);
    case Resume(slot, now, actor) => ResumeKeeps(n, slot, now, actor);
    case AtNode(worker, inner, now) => AtNodeKeeps(n, worker, inner, now);
  }

  lemma {:induction false} RunKeeps(n: Net, steps: seq<Step>)
    requires Sound(n) && Allowed(n, steps)
    ensures Sound(Run(n, steps)) && OutboxExtends(n.outbox, Run(n, steps).outbox)
    decreases |steps|
  {
    if steps != [] {
      NextKeeps(n, steps[0]);
      RunKeeps(Next(n, steps[0]), steps[1..]);
      ExtendsTransitive(n.outbox, Next(n, steps[0]).outbox, Run(n, steps).outbox);
    }
  }

  lemma ExtendsTransitive(a: Tables, b: Tables, c: Tables)
    requires OutboxExtends(a, b) && OutboxExtends(b, c)
    ensures OutboxExtends(a, c)
  {
  }

  // ---------- the promises, over every run ----------

  /** The custody of each aggregate is always a prefix of the sender's order, fact by fact unchanged. */
  lemma CustodyIsPrefix(self: NodeId, nodes: set<NodeId>, steps: seq<Step>, node: NodeId, id: EventId)
    requires Allowed(Start(self, nodes), steps) && HasCustody(Run(Start(self, nodes), steps), Slot(id, node))
    ensures
      var n := Run(Start(self, nodes), steps);
      && id in n.outbox.events && n.nodes[node].desk.custody[id].envelope == n.outbox.events[id]
      && forall p :: p in n.outbox.events && Precedes(n.outbox.events[p], n.outbox.events[id]) ==>
            HasCustody(n, Slot(p, node))
  {
    RunKeeps(Start(self, nodes), steps);
    var n := Run(Start(self, nodes), steps);
    assert OutboxOrder.Clear(n.outbox, Slot(id, node));
  }

  lemma PublishedMeansCustody(self: NodeId, nodes: set<NodeId>, steps: seq<Step>, slot: Slot)
    requires Allowed(Start(self, nodes), steps) && IsPublished(Run(Start(self, nodes), steps).outbox, slot)
    ensures HasCustody(Run(Start(self, nodes), steps), slot)
  {
    RunKeeps(Start(self, nodes), steps);
  }

  /** Each generation of a delivery settles at most once. */
  lemma GenerationsSettleOnce(self: NodeId, nodes: set<NodeId>, steps: seq<Step>, slot: Slot, g: nat)
    requires Allowed(Start(self, nodes), steps)
    ensures Run(Start(self, nodes), steps).settled[(slot, g)] <= 1
  {
    RunKeeps(Start(self, nodes), steps);
    var n := Run(Start(self, nodes), steps);
    assert (slot, g) in n.settled ==> n.settled[(slot, g)] == 1;
  }

  /** Once a newer generation was opened, whatever an older claim brings changes nothing, at any later time. */
  lemma OldClaimsAreSpent(self: NodeId, nodes: set<NodeId>, steps: seq<Step>, later: seq<Step>, claim: Claim,
                          outcome: Outcome)
    requires Allowed(Start(self, nodes), steps) && Allowed(Run(Start(self, nodes), steps), later)
    requires
      var t := Run(Start(self, nodes), steps).outbox;
      claim.slot in t.deliveries && claim.attempts < t.deliveries[claim.slot].attempts
    ensures
      var t := Run(Run(Start(self, nodes), steps), later).outbox;
      SettledTables(t, claim.slot, claim.attempts, outcome) == t
  {
    OutboxOnlyAdvances(self, nodes, steps, later);
  }

  /** Generations never go back and a published row is never written again. */
  lemma OutboxOnlyAdvances(self: NodeId, nodes: set<NodeId>, steps: seq<Step>, later: seq<Step>)
    requires Allowed(Start(self, nodes), steps) && Allowed(Run(Start(self, nodes), steps), later)
    ensures
      var n := Run(Start(self, nodes), steps);
      OutboxExtends(n.outbox, Run(n, later).outbox)
  {
    RunKeeps(Start(self, nodes), steps);
    RunKeeps(Run(Start(self, nodes), steps), later);
  }

  /** A fact taken into custody is never classified as late: nothing newer of its aggregate arrived before. */
  lemma NothingArrivesLate(self: NodeId, nodes: set<NodeId>, steps: seq<Step>, m: Message, contract: Contract,
                           registered: Sender, at: Instant)
    requires Allowed(Start(self, nodes), steps)
    requires m in Run(Start(self, nodes), steps).wire && m.node in Run(Start(self, nodes), steps).nodes
    ensures
      var n := Run(Start(self, nodes), steps);
      Taken(n.nodes[m.node].desk, m.envelope, contract, SenderOf(n, registered), at).0 != Accepted(PendingReview)
  {
    RunKeeps(Start(self, nodes), steps);
    var n := Run(Start(self, nodes), steps);
    var d, e := n.nodes[m.node].desk, m.envelope;
    if Taken(d, e, contract, SenderOf(n, registered), at).0 == Accepted(PendingReview) {
      var late :| late in d.custody && OfAggregate(d.custody[late], e.aggregate.aggregateType, e.aggregate.aggregateId)
                  && e.aggregateVersion < d.custody[late].envelope.aggregateVersion;
      assert HasCustody(n, Slot(late, m.node));
      CustodyIsPrefix(self, nodes, steps, m.node, late);
      assert false;
    }
  }

  /** The whole way: a published fact is in custody, and its effect was committed once if its work is APPLIED there. */
  lemma PublishedAppliesAtMostOnce(self: NodeId, nodes: set<NodeId>, steps: seq<Step>, slot: Slot, consumer: Consumer)
    requires Allowed(Start(self, nodes), steps) && IsPublished(Run(Start(self, nodes), steps).outbox, slot)
    ensures
      var n := Run(Start(self, nodes), steps);
      var item := Item(slot.eventId, consumer);
      HasCustody(n, slot) && Effects(n.nodes[slot.node], item)
         == if item in n.nodes[slot.node].desk.work && n.nodes[slot.node].desk.work[item].state.Applied? then 1 else 0
  {
    RunKeeps(Start(self, nodes), steps);
    PublishedMeansCustody(self, nodes, steps, slot);
  }
}
