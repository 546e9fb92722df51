/** Distributed stock operations: one intention for each fingerprint, and a status derived from its steps. */
module CoordinatedOperations {
  import opened Wrappers

  type OperationId = int
  type NodeId = int
  type Instant = int

  datatype Kind = PurchaseReceipt | StockCount | SaleReturn

  datatype Status = PendingReconciliation | Completed | NeedsReview

  datatype Operation = Operation(
    kind: Kind, fingerprint: int, status: Status, coordinator: Option<NodeId>, origin: NodeId, details: string,
    startedAt: Instant, updatedAt: Instant)

  datatype Name = LocalEffect | CoordinatorEffect

  datatype StepState = Pending | Applied | Rejected

  datatype Step = Step(state: StepState, node: NodeId, evidence: Option<string>, recordedAt: Instant)

  datatype Key = Key(operation: OperationId, name: Name)

  datatype Tables = Tables(operations: map<OperationId, Operation>, steps: map<Key, Step>)

  const EMPTY := Tables(map[], map[])

  datatype Intention = Intention(
    id: OperationId, kind: Kind, fingerprint: int, coordinator: Option<NodeId>, origin: NodeId, details: string,
    startedAt: Instant, names: seq<Name>)

  datatype StoreError = IdTaken | NotFound

  // ---------- reading ----------

  predicate Named(t: Tables, id: OperationId, kind: Kind, fingerprint: int) {
    id in t.operations && t.operations[id].kind == kind && t.operations[id].fingerprint == fingerprint
  }

  predicate Known(t: Tables, kind: Kind, fingerprint: int) {
    exists id :: id in t.operations && Named(t, id, kind, fingerprint)
  }

  /** A kind and a fingerprint are unique. */
  ghost predicate Unique(t: Tables) {
    forall a, b, kind, fingerprint :: Named(t, a, kind, fingerprint) && Named(t, b, kind, fingerprint) ==> a == b
  }

  predicate Has(t: Tables, id: OperationId, name: Name, state: StepState) {
    Key(id, name) in t.steps && t.steps[Key(id, name)].state == state
  }

  /** What the steps of an operation say; vacuously completed without any. */
  function Derived(t: Tables, id: OperationId): Status {
    if Has(t, id, LocalEffect, Rejected) || Has(t, id, CoordinatorEffect, Rejected) then NeedsReview
    else if (Key(id, LocalEffect) in t.steps ==> Has(t, id, LocalEffect, Applied))
            && (Key(id, CoordinatorEffect) in t.steps ==> Has(t, id, CoordinatorEffect, Applied)) then Completed
    else PendingReconciliation
  }

  // ---------- writing ----------

  function NodeFor(input: Intention, name: Name): NodeId {
    if name.CoordinatorEffect? && input.coordinator.Some? then input.coordinator.value else input.origin
  }

  /** `on conflict do nothing`: each missing step inserted as pending. */
  function StepsBegun(steps: map<Key, Step>, id: OperationId, input: Intention, names: seq<Name>): map<Key, Step> {
    if names == [] then steps
    else
      var before, name := StepsBegun(steps, id, input, names[..|names| - 1]), names[|names| - 1];
      if Key(id, name) in before then before
      else before[Key(id, name) := Step(Pending, NodeFor(input, name), None, input.startedAt)]
  }

  lemma {:induction false} StepsBegunIs(steps: map<Key, Step>, id: OperationId, input: Intention, names: seq<Name>)
    ensures
      var r := StepsBegun(steps, id, input, names);
      && (forall k :: k in steps ==> k in r && r[k] == steps[k])
      && (forall k :: k in r && k !in steps ==> k.operation == id && k.name in names && r[k].state == Pending)
      && (forall name :: name in names ==> Key(id, name) in r)
  {
    if names != [] {
      StepsBegunIs(steps, id, input, names[..|names| - 1]);
    }
  }

  function Opened(input: Intention): Operation {
    Operation(input.kind, input.fingerprint, PendingReconciliation, input.coordinator, input.origin, input.details,
              input.startedAt, input.startedAt)
  }

  /** The operation of a kind and fingerprint: the one there is, or the one that is being opened. */
  function Target(t: Tables, input: Intention): (id: OperationId)
    requires Unique(t)
    ensures Known(t, input.kind, input.fingerprint) ==> Named(t, id, input.kind, input.fingerprint)
    ensures !Known(t, input.kind, input.fingerprint) ==> id == input.id
  {
    if Known(t, input.kind, input.fingerprint)
    then var id :| id in t.operations && Named(t, id, input.kind, input.fingerprint); id
    else input.id
  }

  function Begun(t: Tables, input: Intention): Result<Tables, StoreError>
    requires Unique(t)
  {
    var id := Target(t, input);
    var steps := StepsBegun(t.steps, id, input, input.names);
    if Known(t, input.kind, input.fingerprint) then Ok(Tables(t.operations, steps))
    else if input.id in t.operations then Err(IdTaken)
    else Ok(Tables(t.operations[id := Opened(input)], steps))
  }

  /** An applied step is history; any other takes what is recorded. */
  function StepRecorded(steps: map<Key, Step>, key: Key, step: Step): map<Key, Step> {
    if key in steps && steps[key].state.Applied? then steps else steps[key := step]
  }

  function Refreshed(t: Tables, id: OperationId, at: Instant): Tables {
    if id in t.operations
    then t.(operations := t.operations[id := t.operations[id].(status := Derived(t, id), updatedAt := at)])
    else t
  }

  function Recorded(t: Tables, key: Key, step: Step): Result<Tables, StoreError> {
    if key.operation !in t.operations then Err(NotFound)
    else Ok(Refreshed(t.(steps := StepRecorded(t.steps, key, step)), key.operation, step.recordedAt))
  }

  /** One step after another. */
  method InsertSteps(steps: map<Key, Step>, id: OperationId, input: Intention) returns (r: map<Key, Step>)
    ensures r == StepsBegun(steps, id, input, input.names)
  {
    r := steps;
    for i := 0 to |input.names|
      invariant r == StepsBegun(steps, id, input, input.names[..i])
    {
      var name := input.names[i];
      if Key(id, name) !in r {
        r := r[Key(id, name) := Step(Pending, NodeFor(input, name), None, input.startedAt)];
      }
      assert input.names[..i + 1][..i] == input.names[..i];
    }
    assert input.names[..|input.names|] == input.names;
  }

  class CoordinatedOperationStore {
    var operations: map<OperationId, Operation>
    var steps: map<Key, Step>

    function Snapshot(): Tables
      reads this
    {
      Tables(operations, steps)
    }

    constructor ()
      ensures Snapshot() == EMPTY
    {
      operations, steps := map[], map[];
    }

    method Begin(input: Intention) returns (r: Result<OperationId, StoreError>)
      requires Unique(Snapshot())
      modifies this
      ensures match Begun(old(Snapshot()), input)
              case Ok(t) => r == Ok(Target(old(Snapshot()), input)) && Snapshot() == t
              case Err(e) => r == Err(e) && Snapshot() == old(Snapshot())
    {
      var known := Known(Snapshot(), input.kind, input.fingerprint);
      if !known && input.id in operations {
        return Err(IdTaken);
      }
      var id := Target(Snapshot(), input);
      if !known {
        operations := operations[id := Opened(input)];
      }
      steps := InsertSteps(steps, id, input);
      return Ok(id);
    }

    method RecordStep(key: Key, step: Step) returns (error: Option<StoreError>)
      modifies this
      ensures match Recorded(old(Snapshot()), key, step)
              case Ok(t) => error == None && Snapshot() == t
              case Err(e) => error == Some(e) && Snapshot() == old(Snapshot())
    {
      if key.operation !in operations {
        return Some(NotFound);
      }
      if key !in steps || !steps[key].state.Applied? {
        steps := steps[key := step];
      }
      RefreshStatus(key.operation, step.recordedAt);
      return None;
    }

    method RefreshStatus(id: OperationId, at: Instant)
      requires id in operations
      modifies this`operations
      ensures Snapshot() == Refreshed(old(Snapshot()), id, at)
    {
      var status := PendingReconciliation;
      if Has(Snapshot(), id, LocalEffect, Rejected) || Has(Snapshot(), id, CoordinatorEffect, Rejected) {
        status := NeedsReview;
      } else if (Key(id, LocalEffect) in steps ==> Has(Snapshot(), id, LocalEffect, Applied))
                && (Key(id, CoordinatorEffect) in steps ==> Has(Snapshot(), id, CoordinatorEffect, Applied)) {
        status := Completed;
      }
      operations := operations[id := operations[id].(status := status, updatedAt := at)];
    }
  }

  // ---------- when the stored status is the derived one ----------

  predicate Settled(t: Tables, id: OperationId) {
    id in t.operations && t.operations[id].status == Derived(t, id)
  }

  ghost predicate Keyed(t: Tables) {
    Unique(t) && forall k :: k in t.steps ==> k.operation in t.operations
  }

  /** A name of the intention that the operation does not have yet. */
  predicate Extends(t: Tables, id: OperationId, names: seq<Name>) {
    || (LocalEffect in names && Key(id, LocalEffect) !in t.steps)
    || (CoordinatorEffect in names && Key(id, CoordinatorEffect) !in t.steps)
  }

  /**
   * Beginning keeps the status true to the steps exactly when a new operation has a step, and a
   * repetition does not extend a completed one.
   */
  lemma BeginSettlesIff(t: Tables, input: Intention)
    requires Keyed(t) && Begun(t, input).Ok?
    requires Known(t, input.kind, input.fingerprint) ==> Settled(t, Target(t, input))
    ensures
      var id := Target(t, input);
      Settled(Begun(t, input).value, id)
      <==> if Known(t, input.kind, input.fingerprint)
           then !t.operations[id].status.Completed? || !Extends(t, id, input.names)
           else input.names != []
  {
    var id, t' := Target(t, input), Begun(t, input).value;
    StepsAfterBegin(t, input, LocalEffect);
    StepsAfterBegin(t, input, CoordinatorEffect);
    assert input.names == [] || input.names[0] in input.names;
  }

  /** Begun without steps, an operation waits for a reconciliation its steps already call completed. */
  lemma BegunWithoutSteps(input: Intention)
    requires input.names == []
    ensures Begun(EMPTY, input).Ok?
    ensures
      var t := Begun(EMPTY, input).value;
      t.operations[input.id].status == PendingReconciliation && Derived(t, input.id) == Completed
  {
  }

  const DONE := Operation(SaleReturn, 5, Completed, None, 1, "", 0, 0)

  /** An operation of a standalone node, completed by its one step. */
  const STANDALONE := Tables(map[7 := DONE], map[Key(7, LocalEffect) := Step(Applied, 1, None, 0)])

  /** Begun again for a coordinator, it stays completed while its new step is pending. */
  lemma RepetitionExtendsCompleted()
    ensures
      var input := Intention(8, SaleReturn, 5, Some(2), 1, "", 1, [LocalEffect, CoordinatorEffect]);
      && Keyed(STANDALONE) && Settled(STANDALONE, 7) && Begun(STANDALONE, input).Ok?
      && var t := Begun(STANDALONE, input).value;
         t.operations[7].status == Completed && Derived(t, 7) == PendingReconciliation
  {
    var input := Intention(8, SaleReturn, 5, Some(2), 1, "", 1, [LocalEffect, CoordinatorEffect]);
    assert Named(STANDALONE, 7, SaleReturn, 5);
    assert Target(STANDALONE, input) == 7;
    StepsAfterBegin(STANDALONE, input, LocalEffect);
    StepsAfterBegin(STANDALONE, input, CoordinatorEffect);
    assert input.names[1] in input.names;
  }

  lemma StepsAfterBegin(t: Tables, input: Intention, name: Name)
    requires Keyed(t) && Begun(t, input).Ok?
    ensures
      var id := Target(t, input);
      var k, t' := Key(id, name), Begun(t, input).value;
      && (k in t'.steps <==> k in t.steps || name in input.names)
      && (k in t.steps ==> t'.steps[k] == t.steps[k])
      && (k in t'.steps && k !in t.steps ==> t'.steps[k].state == Pending)
      && (!Known(t, input.kind, input.fingerprint) ==> k !in t.steps)
  {
    StepsBegunIs(t.steps, Target(t, input), input, input.names);
  }

  /** Recording a step always leaves its operation's status true to its steps. */
  lemma RecordSettles(t: Tables, key: Key, step: Step)
    requires Recorded(t, key, step).Ok?
    ensures Settled(Recorded(t, key, step).value, key.operation)
  {
  }

  /** A completed operation stays so exactly when what is recorded is no new step short of applied. */
  lemma RecordKeepsCompletedIff(t: Tables, key: Key, step: Step)
    requires Recorded(t, key, step).Ok? && Settled(t, key.operation) && t.operations[key.operation].status.Completed?
    ensures Recorded(t, key, step).value.operations[key.operation].status.Completed?
      <==> key in t.steps || step.state.Applied?
  {
    var other := Key(key.operation, if key.name.LocalEffect? then CoordinatorEffect else LocalEffect);
    assert other in t.steps ==> t.steps[other].state.Applied?;
  }

  // ---------- what the calls answer and write ----------

  /** The status an operation's steps call for: a rejected one asks for review, and all applied complete it. */
  predicate Calls(steps: map<Key, Step>, id: OperationId, status: Status) {
    var rejected := exists name :: Key(id, name) in steps && steps[Key(id, name)].state == Rejected;
    var applied := forall name :: Key(id, name) in steps ==> steps[Key(id, name)].state == Applied;
    match status
    case NeedsReview => rejected
    case Completed => applied
    case PendingReconciliation => !rejected && !applied
  }

  lemma NamesAre(steps: map<Key, Step>, id: OperationId)
    ensures (exists name :: Key(id, name) in steps && steps[Key(id, name)].state == Rejected)
      <==> (|| (Key(id, LocalEffect) in steps && steps[Key(id, LocalEffect)].state == Rejected)
            || (Key(id, CoordinatorEffect) in steps && steps[Key(id, CoordinatorEffect)].state == Rejected))
    ensures (forall name :: Key(id, name) in steps ==> steps[Key(id, name)].state == Applied)
      <==> (&& (Key(id, LocalEffect) in steps ==> steps[Key(id, LocalEffect)].state == Applied)
            && (Key(id, CoordinatorEffect) in steps ==> steps[Key(id, CoordinatorEffect)].state == Applied))
  {
    forall name
      ensures Key(id, name) == Key(id, LocalEffect) || Key(id, name) == Key(id, CoordinatorEffect)
    {
      match name
      case LocalEffect =>
      case CoordinatorEffect =>
    }
  }

  /** The derived status is the one the steps call for, and they call for one alone. */
  lemma DerivedIff(t: Tables, id: OperationId, status: Status)
    ensures Derived(t, id) == status <==> Calls(t.steps, id, status)
  {
    NamesAre(t.steps, id);
  }

  /**
   * A step of a known operation is written unless it is applied already, and the operation takes the status that
   * all its steps call for then. Nothing else changes, and an operation that is not known is answered.
   */
  lemma RecordIs(t: Tables, key: Key, step: Step)
    ensures
      var id := key.operation;
      if id !in t.operations then Recorded(t, key, step) == Err(NotFound)
      else
        && Recorded(t, key, step).Ok?
        && var t' := Recorded(t, key, step).value;
           && t'.steps == (if key in t.steps && t.steps[key].state == Applied then t.steps else t.steps[key := step])
           && id in t'.operations && Calls(t'.steps, id, t'.operations[id].status)
           && t'.operations == t.operations[id := t.operations[id].(status := t'.operations[id].status,
                                                                    updatedAt := step.recordedAt)]
  {
    if key.operation in t.operations {
      var steps' := StepRecorded(t.steps, key, step);
      DerivedIff(t.(steps := steps'), key.operation, Derived(t.(steps := steps'), key.operation));
    }
  }

  /** A missing step as beginning writes it: pending, at the coordinator for its effect when there is one. */
  predicate PendingStep(input: Intention, name: Name, step: Step) {
    && step.state == Pending && step.evidence == None && step.recordedAt == input.startedAt
    && step.node == (match name
                     case LocalEffect => input.origin
                     case CoordinatorEffect =>
                       if input.coordinator == None then input.origin else input.coordinator.value)
  }

  lemma {:induction false} StepsArePending(steps: map<Key, Step>, id: OperationId, input: Intention, names: seq<Name>)
    ensures
      var r := StepsBegun(steps, id, input, names);
      && (forall k :: k in r <==> k in steps || (k.operation == id && k.name in names))
      && (forall k :: k in r ==> if k in steps then r[k] == steps[k] else PendingStep(input, k.name, r[k]))
  {
    if names != [] {
      StepsArePending(steps, id, input, names[..|names| - 1]);
      assert forall n :: n in names <==> n in names[..|names| - 1] || n == names[|names| - 1];
    }
  }

  /**
   * Beginning an intention: the operation that has its kind and fingerprint takes the steps it is missing; without
   * one the intention is opened, pending, unless its id is another operation's.
   */
  lemma BeginIs(t: Tables, input: Intention)
    requires Unique(t)
    ensures
      var known := exists id :: id in t.operations && t.operations[id].kind == input.kind
                                && t.operations[id].fingerprint == input.fingerprint;
      var id := Target(t, input);
      && (if known then id in t.operations && t.operations[id].kind == input.kind
                        && t.operations[id].fingerprint == input.fingerprint
          else id == input.id)
      && if !known && input.id in t.operations then Begun(t, input) == Err(IdTaken)
         else
           && Begun(t, input).Ok?
           && var t' := Begun(t, input).value;
              && t'.operations == (if known then t.operations else t.operations[input.id :=
                   Operation(kind := input.kind, fingerprint := input.fingerprint, status := PendingReconciliation,
                             coordinator := input.coordinator, origin := input.origin, details := input.details,
                             startedAt := input.startedAt, updatedAt := input.startedAt)])
              && (forall k :: k in t'.steps <==> k in t.steps || (k.operation == id && k.name in input.names))
              && (forall k :: k in t'.steps ==>
                    if k in t.steps then t'.steps[k] == t.steps[k] else PendingStep(input, k.name, t'.steps[k]))
  {
    StepsArePending(t.steps, Target(t, input), input, input.names);
    if id :| id in t.operations && t.operations[id].kind == input.kind
             && t.operations[id].fingerprint == input.fingerprint {
      assert Named(t, id, input.kind, input.fingerprint);
    }
  }

  // ---------- histories ----------

  datatype Call = Begin(input: Intention) | Record(key: Key, step: Step)

  function Next(t: Tables, call: Call): Tables
    requires Unique(t)
  {
    match call
    case Begin(input) => if Begun(t, input).Ok? then Begun(t, input).value else t
    case Record(key, step) => if Recorded(t, key, step).Ok? then Recorded(t, key, step).value else t
  }

  /** Fingerprints keep their operation, and an applied step its outcome. */
  ghost predicate Keeps(t: Tables, t': Tables) {
    && (forall id, kind, fingerprint :: Named(t, id, kind, fingerprint) ==> Named(t', id, kind, fingerprint))
    && (forall k :: k in t.steps ==> k in t'.steps && (t.steps[k].state.Applied? ==> t'.steps[k] == t.steps[k]))
  }

  lemma NextKeeps(t: Tables, call: Call)
    requires Keyed(t)
    ensures Keyed(Next(t, call)) && Keeps(t, Next(t, call))
  {
    var t' := Next(t, call);
    if call.Begin? {
      StepsBegunIs(t.steps, Target(t, call.input), call.input, call.input.names);
    }
    if call.Begin? && !Known(t, call.input.kind, call.input.fingerprint) && call.input.id !in t.operations {
      assert forall id, kind, fingerprint ::
        Named(t', id, kind, fingerprint) && id != call.input.id ==> Named(t, id, kind, fingerprint);
      assert forall id :: !Named(t, id, call.input.kind, call.input.fingerprint);
    } else {
      assert forall id, kind, fingerprint :: Named(t', id, kind, fingerprint) <==> Named(t, id, kind, fingerprint);
    }
  }

  /** A call within the steps the operation was begun with. */
  predicate Regular(t: Tables, call: Call)
    requires Unique(t)
  {
    match call
    case Begin(input) =>
      if Known(t, input.kind, input.fingerprint) then !Extends(t, Target(t, input), input.names) else input.names != []
    case Record(key, _) => key in t.steps
  }

  ghost predicate AllRegular(t: Tables, calls: seq<Call>)
    requires Keyed(t)
    decreases |calls|
  {
    calls == [] || (Regular(t, calls[0]) && (NextKeeps(t, calls[0]); AllRegular(Next(t, calls[0]), calls[1..])))
  }

  function Run(t: Tables, calls: seq<Call>): Tables
    requires Keyed(t)
    decreases |calls|
  {
    if calls == [] then t
    else
      NextKeeps(t, calls[0]);
      Run(Next(t, calls[0]), calls[1..])
  }

  lemma KeepsTransitive(a: Tables, b: Tables, c: Tables)
    requires Keeps(a, b) && Keeps(b, c)
    ensures Keeps(a, c)
  {
  }

  /** In every history a fingerprint names one operation for ever, and an applied step never changes. */
  lemma {:induction false} RunKeeps(t: Tables, calls: seq<Call>)
    requires Keyed(t)
    ensures Keyed(Run(t, calls)) && Keeps(t, Run(t, calls))
    decreases |calls|
  {
    if calls != [] {
      NextKeeps(t, calls[0]);
      RunKeeps(Next(t, calls[0]), calls[1..]);
      KeepsTransitive(t, Next(t, calls[0]), Run(t, calls));
    }
  }

  ghost predicate AllSettled(t: Tables) {
    forall id :: id in t.operations ==> Settled(t, id)
  }

  /** What a regular call does to an operation and its steps, other than the one it is about. */
  lemma OthersUntouched(t: Tables, call: Call, id: OperationId)
    requires Keyed(t) && id in t.operations && id != (if call.Begin? then Target(t, call.input) else call.key.operation)
    ensures
      var t' := Next(t, call);
      id in t'.operations && t'.operations[id] == t.operations[id] && Derived(t', id) == Derived(t, id)
  {
    var t' := Next(t, call);
    if call.Begin? {
      StepsBegunIs(t.steps, Target(t, call.input), call.input, call.input.names);
    }
    assert forall name :: Key(id, name) in t'.steps <==> Key(id, name) in t.steps;
    assert forall name :: Key(id, name) in t.steps ==> t'.steps[Key(id, name)] == t.steps[Key(id, name)];
  }

  lemma RegularSettles(t: Tables, call: Call)
    requires Keyed(t) && AllSettled(t) && Regular(t, call)
    ensures AllSettled(Next(t, call))
    ensures forall id :: id in t.operations && t.operations[id].status.Completed? ==>
      id in Next(t, call).operations && Next(t, call).operations[id].status.Completed?
  {
    var t', about := Next(t, call), if call.Begin? then Target(t, call.input) else call.key.operation;
    NextKeeps(t, call);
    if call.Begin? {
      if Begun(t, call.input).Ok? {
        BeginSettlesIff(t, call.input);
      }
    } else {
      RecordSettles(t, call.key, call.step);
      if t.operations[about].status.Completed? {
        RecordKeepsCompletedIff(t, call.key, call.step);
      }
    }
    forall id | id in t.operations && id != about
      ensures Settled(t', id) && t'.operations[id] == t.operations[id]
    {
      OthersUntouched(t, call, id);
    }
  }

  /** While calls stay within the steps begun, every status is the derived one and COMPLETED is for ever. */
  lemma {:induction false} RunSettles(t: Tables, calls: seq<Call>)
    requires Keyed(t) && AllSettled(t) && AllRegular(t, calls)
    ensures AllSettled(Run(t, calls))
    ensures forall id :: id in t.operations && t.operations[id].status.Completed? ==>
      id in Run(t, calls).operations && Run(t, calls).operations[id].status.Completed?
    decreases |calls|
  {
    if calls != [] {
      NextKeeps(t, calls[0]);
      RegularSettles(t, calls[0]);
      RunSettles(Next(t, calls[0]), calls[1..]);
    }
  }
}
