/** Fiscal documents: a snapshot row and an append-only log of numbered transitions for each. */
module FiscalDocuments {
  import opened Wrappers
  import opened Sorting

  type DocumentId = int
  type EventId = int

  datatype State = Pending | Printing | Issued | Error | Retrying | Failed

  /** `details` stands for the actor, instant, error code and evidence, which no rule below reads. */
  datatype Transition = Transition(eventId: EventId, version: int, from: Option<State>, to: State, details: string)

  /** A document in memory. `identity` is its content, keys and fingerprint; `details` what a save may replace. */
  datatype Document = Document(
    id: DocumentId, identity: string, status: State, version: int, details: string, transitions: seq<Transition>)

  datatype Row = Row(identity: string, status: State, version: int, details: string)

  /** The rows, and the transition rows of each document in version order. */
  datatype Tables = Tables(rows: map<DocumentId, Row>, log: map<DocumentId, seq<Transition>>)

  const EMPTY := Tables(map[], map[])

  datatype SaveError = SequenceInvalid | ContentConflict | StaleVersion | IssuedImmutable | DuplicateEvent

  // ---------- checks on histories ----------

  predicate ByVersion(a: Transition, b: Transition) {
    a.version <= b.version
  }

  predicate Consecutive(rows: seq<Transition>, first: int) {
    forall i :: 0 <= i < |rows| ==> rows[i].version == first + i
  }

  /** Numbered from one to the version, ending in the state. */
  predicate RowsAgree(version: int, state: State, rows: seq<Transition>) {
    |rows| == version && Consecutive(rows, 1) && rows != [] && rows[|rows| - 1].to == state
  }

  function LogOf(t: Tables, id: DocumentId): seq<Transition> {
    if id in t.log then t.log[id] else []
  }

  /** The transitions still to be stored, or None when the history contradicts the snapshot or is behind. */
  function NewTransitions(d: Document, persisted: int): Option<seq<Transition>> {
    var pending := Sort(Filter(d.transitions, (x: Transition) => x.version > persisted), ByVersion);
    var expected := d.version - persisted;
    if !RowsAgree(d.version, d.status, Sort(d.transitions, ByVersion)) then None
    else if expected < 0 || |pending| != expected || !Consecutive(pending, persisted + 1) then None
    else Some(pending)
  }

  predicate EventIdsFree(log: map<DocumentId, seq<Transition>>, pending: seq<Transition>) {
    && (forall i, j :: 0 <= i < j < |pending| ==> pending[i].eventId != pending[j].eventId)
    && (forall id, x, y :: id in log && x in log[id] && y in pending ==> x.eventId != y.eventId)
  }

  // ---------- the repository ----------

  function Stored(t: Tables, d: Document, pending: seq<Transition>): Tables {
    Tables(t.rows[d.id := Row(d.identity, d.status, d.version, d.details)], t.log[d.id := LogOf(t, d.id) + pending])
  }

  function Saved(t: Tables, d: Document): Result<Tables, SaveError> {
    var existing := d.id in t.rows;
    if existing && !RowsAgree(t.rows[d.id].version, t.rows[d.id].status, LogOf(t, d.id)) then Err(SequenceInvalid)
    else
      var pending := NewTransitions(d, if existing then t.rows[d.id].version else 0);
      if pending.None? then Err(SequenceInvalid)
      else if existing && t.rows[d.id].identity != d.identity then Err(ContentConflict)
      else if existing && d.version <= t.rows[d.id].version then Err(StaleVersion)
      else if existing && t.rows[d.id].status.Issued? then Err(IssuedImmutable)
      else if !EventIdsFree(t.log, pending.value) then Err(DuplicateEvent)
      else Ok(Stored(t, d, pending.value))
  }

  /** A read checks the log again before it rebuilds the document. */
  function FindById(t: Tables, id: DocumentId): Result<Option<Document>, SaveError> {
    if id !in t.rows then Ok(None)
    else
      var row := t.rows[id];
      if !RowsAgree(row.version, row.status, LogOf(t, id)) then Err(SequenceInvalid)
      else Ok(Some(Document(id, row.identity, row.status, row.version, row.details, LogOf(t, id))))
  }

  class FiscalDocumentRepository {
    var rows: map<DocumentId, Row>
    var log: map<DocumentId, seq<Transition>>

    function Snapshot(): Tables
      reads this
    {
      Tables(rows, log)
    }

    constructor ()
      ensures Snapshot() == EMPTY
    {
      rows, log := map[], map[];
    }

    method Save(d: Document) returns (error: Option<SaveError>)
      modifies this
      ensures match Saved(old(Snapshot()), d)
              case Ok(t) => error == None && Snapshot() == t
              case Err(e) => error == Some(e) && Snapshot() == old(Snapshot())
    {
      var persisted := 0;
      if d.id in rows {
        if !RowsAgree(rows[d.id].version, rows[d.id].status, LogOf(Snapshot(), d.id)) {
          return Some(SequenceInvalid);
        }
        persisted := rows[d.id].version;
      }
      var pending := NewTransitions(d, persisted);
      if pending.None? {
        return Some(SequenceInvalid);
      }
      if d.id in rows {
        if rows[d.id].identity != d.identity {
          return Some(ContentConflict);
        }
        if d.version <= rows[d.id].version {
          return Some(StaleVersion);
        }
        if rows[d.id].status.Issued? {
          return Some(IssuedImmutable);
        }
      }
      if !EventIdsFree(log, pending.value) {
        return Some(DuplicateEvent);
      }
      rows := rows[d.id := Row(d.identity, d.status, d.version, d.details)];
      log := log[d.id := LogOf(Tables(rows, log), d.id) + pending.value];
      return None;
    }
  }

  // ---------- what a save keeps ----------

  ghost predicate Sound(t: Tables) {
    && t.log.Keys == t.rows.Keys
    && (forall id :: id in t.rows ==> RowsAgree(t.rows[id].version, t.rows[id].status, LogOf(t, id)))
  }

  lemma {:induction false} SuffixIsFilter(rows: seq<Transition>, first: int, persisted: int)
    requires Consecutive(rows, first) && first - 1 <= persisted <= first - 1 + |rows|
    ensures Filter(rows, (x: Transition) => x.version > persisted) == rows[persisted - first + 1..]
    decreases |rows|
  {
    var keep := (x: Transition) => x.version > persisted;
    if rows != [] {
      if persisted >= first {
        SuffixIsFilter(rows[1..], first + 1, persisted);
      } else {
        SuffixIsFilter(rows[1..], first + 1, first);
        AllKept(rows, persisted);
      }
    }
  }

  lemma {:induction false} AllKept(rows: seq<Transition>, persisted: int)
    requires forall i :: 0 <= i < |rows| ==> rows[i].version > persisted
    ensures Filter(rows, (x: Transition) => x.version > persisted) == rows
  {
    if rows != [] {
      AllKept(rows[1..], persisted);
    }
  }

  /** Of a history that agrees with its snapshot, exactly the part after the stored version is pending. */
  lemma PendingIsSuffix(d: Document, persisted: nat)
    requires RowsAgree(d.version, d.status, Sort(d.transitions, ByVersion))
    ensures NewTransitions(d, persisted)
      == if persisted <= d.version then Some(Sort(d.transitions, ByVersion)[persisted..]) else None
  {
    PendingIsFilter(d, persisted);
    if persisted <= d.version {
      SuffixIsFilter(Sort(d.transitions, ByVersion), 1, persisted);
    }
  }

  lemma PendingIsFilter(d: Document, persisted: int)
    ensures Sort(Filter(d.transitions, (x: Transition) => x.version > persisted), ByVersion)
      == Filter(Sort(d.transitions, ByVersion), (x: Transition) => x.version > persisted)
  {
    FilterOfSort(d.transitions, ByVersion, (x: Transition) => x.version > persisted);
  }

  /** The stored log and the part after it agree with the new snapshot. */
  lemma AppendAgrees(log: seq<Transition>, ordered: seq<Transition>, version: int, state: State)
    requires Consecutive(log, 1) && RowsAgree(version, state, ordered) && |log| < version
    ensures RowsAgree(version, state, log + ordered[|log|..])
  {
  }

  /** A save that is accepted appends, and never rewrites, what the log already says. */
  lemma SaveAppends(t: Tables, d: Document)
    requires Sound(t) && Saved(t, d).Ok?
    ensures
      var t' := Saved(t, d).value;
      var stored := if d.id in t.rows then t.rows[d.id].version else 0;
      && Sound(t')
      && stored < d.version
      && t'.rows == t.rows[d.id := Row(d.identity, d.status, d.version, d.details)]
      && t'.log == t.log[d.id := LogOf(t, d.id) + Sort(d.transitions, ByVersion)[stored..]]
  {
    var stored := if d.id in t.rows then t.rows[d.id].version else 0;
    PendingIsSuffix(d, stored);
    AppendAgrees(LogOf(t, d.id), Sort(d.transitions, ByVersion), d.version, d.status);
    var t' := Stored(t, d, Sort(d.transitions, ByVersion)[stored..]);
    assert forall id :: id != d.id ==> LogOf(t', id) == LogOf(t, id);
  }

  // ---------- which saves are accepted ----------

  /** The versions of the rows are 1, 2, and so on to `version`, and the last row leads to `state`. */
  ghost predicate Numbered(rows: seq<Transition>, version: int, state: State) {
    && |rows| == version && version > 0 && rows[version - 1].to == state
    && forall i :: 0 <= i < |rows| ==> rows[i].version == i + 1
  }

  /** The history contradicts its snapshot, or is older than what is stored, or what is stored is broken. */
  ghost predicate Broken(t: Tables, d: Document, ordered: seq<Transition>) {
    || !Numbered(ordered, d.version, d.status)
    || (d.id in t.rows
        && (d.version < t.rows[d.id].version
            || d.id !in t.log || !Numbered(t.log[d.id], t.rows[d.id].version, t.rows[d.id].status)))
  }

  /** An event to be stored has the id of another one, or of one that is stored for some document. */
  ghost predicate Repeats(t: Tables, added: seq<Transition>) {
    || (exists i, j :: 0 <= i < j < |added| && added[i].eventId == added[j].eventId)
    || (exists id, i, j :: id in t.log && 0 <= i < |t.log[id]| && 0 <= j < |added|
                           && t.log[id][i].eventId == added[j].eventId)
  }

  lemma NumberedIff(rows: seq<Transition>, version: int, state: State)
    ensures Numbered(rows, version, state) <==> RowsAgree(version, state, rows)
  {
  }

  lemma RepeatsIff(t: Tables, added: seq<Transition>)
    ensures Repeats(t, added) <==> !EventIdsFree(t.log, added)
  {
  }

  /** What the sequence checks decide. */
  lemma SequenceIff(t: Tables, d: Document)
    ensures
      var ordered := Sort(d.transitions, ByVersion);
      var stored := if d.id in t.rows then t.rows[d.id].version else 0;
      && (Saved(t, d) == Err(SequenceInvalid) <==> Broken(t, d, ordered))
      && (!Broken(t, d, ordered) ==>
            0 <= stored <= |ordered| && NewTransitions(d, stored) == Some(ordered[stored..]))
  {
    var ordered := Sort(d.transitions, ByVersion);
    NumberedIff(ordered, d.version, d.status);
    NumberedIff(LogOf(t, d.id), if d.id in t.rows then t.rows[d.id].version else 0,
                if d.id in t.rows then t.rows[d.id].status else Pending);
    var stored := if d.id in t.rows then t.rows[d.id].version else 0;
    if 0 <= stored && Numbered(ordered, d.version, d.status) {
      PendingIsSuffix(d, stored);
    }
  }

  /**
   * The answer to a save, each error on its own cause and in this order: a broken sequence, another content, the
   * version that is stored already, an issued document, an event id in use. Any other save is accepted.
   */
  lemma SaveAnswers(t: Tables, d: Document)
    ensures
      var ordered := Sort(d.transitions, ByVersion);
      var known := d.id in t.rows;
      if Broken(t, d, ordered) then Saved(t, d) == Err(SequenceInvalid)
      else if known && t.rows[d.id].identity != d.identity then Saved(t, d) == Err(ContentConflict)
      else if known && d.version == t.rows[d.id].version then Saved(t, d) == Err(StaleVersion)
      else if known && t.rows[d.id].status == Issued then Saved(t, d) == Err(IssuedImmutable)
      else
        var stored := if known then t.rows[d.id].version else 0;
        0 <= stored <= |ordered|
        && if Repeats(t, ordered[stored..]) then Saved(t, d) == Err(DuplicateEvent) else Saved(t, d).Ok?
  {
    SequenceIff(t, d);
    var ordered := Sort(d.transitions, ByVersion);
    var stored := if d.id in t.rows then t.rows[d.id].version else 0;
    if !Broken(t, d, ordered) {
      RepeatsIff(t, ordered[stored..]);
    }
  }

  function WithNext(d: Document, next: Transition): Document {
    d.(status := next.to, version := d.version + 1, transitions := d.transitions + [next])
  }

  /** The history of a stored document with its next transition is in order. */
  lemma NextInOrder(t: Tables, d: Document, next: Transition)
    requires Sound(t) && FindById(t, d.id) == Ok(Some(d)) && next.version == d.version + 1
    ensures
      var d' := WithNext(d, next);
      && Sort(d'.transitions, ByVersion) == d'.transitions
      && !Broken(t, d', d'.transitions) && d'.transitions[d.version..] == [next]
  {
    var d' := WithNext(d, next);
    NumberedIff(t.log[d.id], t.rows[d.id].version, t.rows[d.id].status);
    SortedStays(d'.transitions, ByVersion);
  }

  /** A document that is stored and not issued takes its next transition, if its id is new, and reads it back. */
  lemma NextIsSaved(t: Tables, d: Document, next: Transition)
    requires Sound(t) && FindById(t, d.id) == Ok(Some(d)) && d.status != Issued
    requires next.version == d.version + 1
    requires forall id, i :: id in t.log && 0 <= i < |t.log[id]| ==> t.log[id][i].eventId != next.eventId
    ensures
      var d' := WithNext(d, next);
      Saved(t, d').Ok? && FindById(Saved(t, d').value, d.id) == Ok(Some(d'))
  {
    var d' := WithNext(d, next);
    NextInOrder(t, d, next);
    SaveAnswers(t, d');
    SaveAppends(t, d');
    ReadAfterSave(Saved(t, d').value, d');
  }

  // ---------- histories of saves ----------

  function Run(t: Tables, saves: seq<Document>): Tables
    decreases |saves|
  {
    if saves == [] then t else Run(if Saved(t, saves[0]).Ok? then Saved(t, saves[0]).value else t, saves[1..])
  }

  /** The log grows at its end, and an issued document never changes again. */
  ghost predicate Grows(t: Tables, t': Tables) {
    forall id :: id in t.rows ==>
      && id in t'.rows
      && LogOf(t, id) <= LogOf(t', id)
      && t'.rows[id].identity == t.rows[id].identity
      && (t.rows[id].status.Issued? ==> t'.rows[id] == t.rows[id] && LogOf(t', id) == LogOf(t, id))
  }

  /** Whatever is saved, accepted or refused, the log stays whole and only grows. */
  lemma {:induction false} RunGrows(t: Tables, saves: seq<Document>)
    requires Sound(t)
    ensures Sound(Run(t, saves)) && Grows(t, Run(t, saves))
    decreases |saves|
  {
    if saves != [] {
      var t' := if Saved(t, saves[0]).Ok? then Saved(t, saves[0]).value else t;
      if Saved(t, saves[0]).Ok? {
        SaveAppends(t, saves[0]);
      }
      RunGrows(t', saves[1..]);
      GrowsTransitive(t, t', Run(t, saves));
    }
  }

  lemma GrowsTransitive(a: Tables, b: Tables, c: Tables)
    requires Grows(a, b) && Grows(b, c)
    ensures Grows(a, c)
  {
  }

  /** So the check on read never fails on what saves wrote. */
  lemma ReadNeverFails(saves: seq<Document>, id: DocumentId)
    ensures FindById(Run(EMPTY, saves), id).Ok?
  {
    RunGrows(EMPTY, saves);
  }

  /** A save is read back as it was given exactly when the memory's history starts with the stored one. */
  lemma SaveThenReadIff(saves: seq<Document>, d: Document)
    requires Saved(Run(EMPTY, saves), d).Ok?
    ensures
      var t := Run(EMPTY, saves);
      var ordered := Sort(d.transitions, ByVersion);
      FindById(Saved(t, d).value, d.id) == Ok(Some(d.(transitions := ordered))) <==> LogOf(t, d.id) <= ordered
  {
    var t := Run(EMPTY, saves);
    RunGrows(EMPTY, saves);
    SaveAppends(t, d);
    AppendIsWhole(LogOf(t, d.id), Sort(d.transitions, ByVersion));
    ReadAfterSave(Saved(t, d).value, d);
  }

  lemma AppendIsWhole(log: seq<Transition>, ordered: seq<Transition>)
    requires |log| <= |ordered|
    ensures log + ordered[|log|..] == ordered <==> log <= ordered
  {
  }

  lemma ReadAfterSave(t: Tables, d: Document)
    requires Sound(t) && d.id in t.rows && t.rows[d.id] == Row(d.identity, d.status, d.version, d.details)
    ensures FindById(t, d.id) == Ok(Some(d.(transitions := LogOf(t, d.id))))
  {
  }
}
