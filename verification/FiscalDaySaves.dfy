/** Which saves of a fiscal day are accepted and what they write, and what the calls of the domain make of a day. */
module FiscalDaySaves {
  import opened Wrappers
  import opened Selection
  import opened Sorting
  import opened FiscalDays
  import F = FiscalDocuments

  // ---------- which saves are accepted ----------

  /** The day's own version is 1; its transitions are 2, 3, and so on to `version`. */
  ghost predicate Numbered(rows: seq<Entry>, version: int) {
    |rows| + 1 == version && forall i :: 0 <= i < |rows| ==> rows[i].step.version == i + 2
  }

  /** The last of the rows of a report leads to `state`. */
  ghost predicate EndsIn(rows: seq<Entry>, report: ReportId, state: F.State) {
    exists k :: 0 <= k < |rows| && rows[k].report == report && rows[k].step.to == state
                && forall j :: k < j < |rows| ==> rows[j].report != report
  }

  /** What is stored of a day contradicts itself. */
  ghost predicate BrokenStore(t: Tables, id: DayId)
    requires id in t.days
  {
    var rows := if id in t.log then t.log[id] else [];
    || !Numbered(rows, t.days[id].version)
    || exists r :: r in t.reports && t.reports[r].day == id && !EndsIn(rows, r, t.reports[r].status)
  }

  /** The memory contradicts itself, or is older than what is stored. */
  ghost predicate BrokenMemory(d: Day, ordered: seq<Entry>, stored: int) {
    || !Numbered(ordered, d.version) || d.version < stored
    || exists i :: 0 <= i < |d.reports|
                   && (d.reports[i].transitions == []
                       || d.reports[i].transitions[|d.reports[i].transitions| - 1].to != d.reports[i].status)
  }

  /** A stored report is of another day, or another report. */
  ghost predicate Impostor(t: Tables, d: Day) {
    exists i :: 0 <= i < |d.reports| && d.reports[i].id in t.reports
                && var row := t.reports[d.reports[i].id];
                   row.day != d.id || row.identity != d.reports[i].identity || row.z != d.reports[i].z
  }

  /** A report that is not stored is inserted twice. */
  ghost predicate InsertedTwice(t: Tables, d: Day) {
    exists i, j :: 0 <= i < j < |d.reports| && d.reports[i].id == d.reports[j].id && d.reports[i].id !in t.reports
  }

  /** An event to be stored has the id of another one, or of one that is stored for some day. */
  ghost predicate Repeats(t: Tables, added: seq<Entry>) {
    || (exists i, j :: 0 <= i < j < |added| && added[i].step.eventId == added[j].step.eventId)
    || (exists id, i, j :: id in t.log && 0 <= i < |t.log[id]| && 0 <= j < |added|
                           && t.log[id][i].step.eventId == added[j].step.eventId)
  }

  lemma {:induction false} LastIs(rows: seq<Entry>, id: ReportId, state: F.State)
    ensures LastOf(rows, id) == Some(state) <==> EndsIn(rows, id, state)
  {
    if rows != [] {
      var n := |rows| - 1;
      var own := (e: Entry) => e.report == id;
      LastIs(rows[..n], id, state);
      assert rows[..n] + [rows[n]] == rows;
      FilterOfSum(rows[..n], [rows[n]], own);
      if own(rows[n]) {
        FilterAll([rows[n]], own);
      } else {
        FilterNone([rows[n]], own);
        EndsBefore(rows, id, state);
      }
    }
  }

  lemma EndsBefore(rows: seq<Entry>, id: ReportId, state: F.State)
    requires rows != [] && rows[|rows| - 1].report != id
    ensures EndsIn(rows, id, state) <==> EndsIn(rows[..|rows| - 1], id, state)
  {
    var n := |rows| - 1;
    if EndsIn(rows, id, state) {
      var k :| 0 <= k < |rows| && rows[k].report == id && rows[k].step.to == state
               && forall j :: k < j < |rows| ==> rows[j].report != id;
      assert rows[..n][k] == rows[k];
    }
    if EndsIn(rows[..n], id, state) {
      var k :| 0 <= k < n && rows[..n][k].report == id && rows[..n][k].step.to == state
               && forall j :: k < j < n ==> rows[..n][j].report != id;
      assert rows[k] == rows[..n][k];
      assert forall j :: k < j < n ==> rows[j] == rows[..n][j];
    }
  }

  lemma StoreIff(t: Tables, id: DayId)
    requires id in t.days
    ensures LogAgrees(t, id) <==> !BrokenStore(t, id)
  {
    forall r | r in t.reports
      ensures LastOf(LogOf(t, id), r) == Some(t.reports[r].status) <==> EndsIn(LogOf(t, id), r, t.reports[r].status)
    {
      LastIs(LogOf(t, id), r, t.reports[r].status);
    }
  }

  lemma {:induction false} AfterIsSuffix(rows: seq<Entry>, first: int, version: int)
    requires forall i :: 0 <= i < |rows| ==> rows[i].step.version == first + i
    requires first - 1 <= version <= first - 1 + |rows|
    ensures After(rows, version) == rows[version - first + 1..]
    decreases |rows|
  {
    if rows != [] {
      if version >= first {
        AfterIsSuffix(rows[1..], first + 1, version);
      } else {
        FilterAll(rows, (e: Entry) => e.step.version > version);
      }
    }
  }

  /** Of a memory that agrees with itself, exactly the part after the stored version is pending. */
  lemma PendingIff(d: Day, stored: int)
    requires 1 <= stored
    ensures
      var ordered := InVersionOrder(d);
      && (BrokenMemory(d, ordered, stored) <==> NewTransitions(d, stored).None?)
      && (!BrokenMemory(d, ordered, stored) ==>
            stored - 1 <= |ordered| && NewTransitions(d, stored) == Some(ordered[stored - 1..]))
  {
    var ordered := InVersionOrder(d);
    if MemoryAgrees(d) && stored <= d.version {
      AfterIsSuffix(ordered, 2, stored);
    }
  }

  lemma RepeatsIff(t: Tables, added: seq<Entry>)
    ensures Repeats(t, added) <==> !EventIdsFree(t.log, added)
  {
  }

  lemma ImpostorIff(t: Tables, d: Day)
    ensures Impostor(t, d) <==> exists i :: 0 <= i < |d.reports| && !SameIdentity(t, d, d.reports[i])
  {
  }

  lemma InsertedTwiceIff(t: Tables, d: Day)
    ensures InsertedTwice(t, d) <==> !NoNewReportTwice(t.reports, d.reports)
  {
  }

  /**
   * The answer to a save, each error on its own cause and in this order: a day that is stored broken, a report that
   * is stored as another, a memory that is broken or behind, another day, the version that is stored already, a
   * closed day, a report inserted twice, an event id in use. Any other save is accepted.
   */
  lemma SaveAnswers(t: Tables, d: Day)
    ensures
      var ordered, known := InVersionOrder(d), d.id in t.days;
      var stored := if known then t.days[d.id].version else 1;
      if known && BrokenStore(t, d.id) then Saved(t, d) == Err(SequenceInvalid)
      else if Impostor(t, d) then Saved(t, d) == Err(ReportConflict)
      else if BrokenMemory(d, ordered, stored) then Saved(t, d) == Err(SequenceInvalid)
      else if known && t.days[d.id].identity != d.identity then Saved(t, d) == Err(DayConflict)
      else if known && d.version == stored then Saved(t, d) == Err(StaleVersion)
      else if known && t.days[d.id].state == DayClosed then Saved(t, d) == Err(DayImmutable)
      else if InsertedTwice(t, d) then Saved(t, d) == Err(DuplicateReport)
      else
        1 <= stored <= |ordered| + 1
        && if Repeats(t, ordered[stored - 1..]) then Saved(t, d) == Err(DuplicateEvent) else Saved(t, d).Ok?
  {
    var ordered, known := InVersionOrder(d), d.id in t.days;
    var stored := if known then t.days[d.id].version else 1;
    if known {
      StoreIff(t, d.id);
    }
    if !known || !BrokenStore(t, d.id) {
      PendingIff(d, stored);
      ImpostorIff(t, d);
      InsertedTwiceIff(t, d);
      if !BrokenMemory(d, ordered, stored) {
        RepeatsIff(t, ordered[stored - 1..]);
      }
    }
  }

  /** The columns a save gives the row of a report; a report issued before the save keeps its row. */
  ghost predicate ReportWritten(t: Tables, d: Day, r: Report, row: ReportRow) {
    if r.id in t.reports && t.reports[r.id].status == F.Issued then row == t.reports[r.id]
    else
      row.day == d.id && row.identity == r.identity && row.z == r.z && row.status == r.status
      && row.details == r.details
  }

  /** The report rows after a save: those of the memory as written, the others as they were. */
  ghost predicate ReportsWritten(t: Tables, d: Day, rows: map<ReportId, ReportRow>) {
    && (forall i :: 0 <= i < |d.reports| ==>
          d.reports[i].id in rows && ReportWritten(t, d, d.reports[i], rows[d.reports[i].id]))
    && (forall id :: (forall i :: 0 <= i < |d.reports| ==> d.reports[i].id != id) ==>
          (id in rows <==> id in t.reports) && (id in t.reports ==> rows[id] == t.reports[id]))
  }

  lemma ReportsAreWritten(t: Tables, d: Day)
    requires NoReportTwice(d.reports)
    ensures ReportsWritten(t, d, ReportsSaved(t.reports, d, d.reports))
  {
    ReportsSavedIs(t.reports, d, d.reports);
  }

  /** What an accepted save of a day with distinct reports writes, and that it writes nothing else. */
  lemma SaveWrites(t: Tables, d: Day)
    requires NoReportTwice(d.reports) && Saved(t, d).Ok?
    ensures
      var t', ordered := Saved(t, d).value, InVersionOrder(d);
      var stored := if d.id in t.days then t.days[d.id].version else 1;
      && t'.days == t.days[d.id := DayRow(d.identity, d.state, d.version)]
      && 1 <= stored <= |ordered| + 1
      && t'.log == t.log[d.id := (if d.id in t.log then t.log[d.id] else []) + ordered[stored - 1..]]
      && ReportsWritten(t, d, t'.reports)
  {
    ReportsAreWritten(t, d);
    LogIsWritten(t, d);
  }

  lemma LogIsWritten(t: Tables, d: Day)
    requires Saved(t, d).Ok?
    ensures
      var ordered := InVersionOrder(d);
      var stored := if d.id in t.days then t.days[d.id].version else 1;
      && 1 <= stored <= |ordered| + 1
      && Saved(t, d) == Ok(Stored(t, d, ordered[stored - 1..]))
  {
    var stored := if d.id in t.days then t.days[d.id].version else 1;
    SaveAnswers(t, d);
    assert d.id in t.days ==> LogAgrees(t, d.id);
    PendingIff(d, stored);
  }

  // ---------- the life of a day ----------

  /** A day as the domain opens it. */
  predicate Opening(d: Day) {
    d.state == DayOpen && d.version == 1 && d.reports == []
  }

  /** The steps a report may take: printed from waiting, settled from printing or after an error, retried after one. */
  predicate Step(from: F.State, to: F.State) {
    || (from == F.Pending && to == F.Printing)
    || (from == F.Printing && (to == F.Issued || to == F.Error))
    || (from == F.Error && (to == F.Issued || to == F.Retrying || to == F.Failed))
    || (from == F.Retrying && (to == F.Printing || to == F.Issued || to == F.Failed))
  }

  /** A report's transitions lead from its request, step by step, to where it stands. */
  ghost predicate Lived(r: Report) {
    && r.transitions != []
    && r.transitions[0].from == None && r.transitions[0].to == F.Pending
    && (forall i :: 0 < i < |r.transitions| ==>
          && r.transitions[i].from == Some(r.transitions[i - 1].to)
          && Step(r.transitions[i - 1].to, r.transitions[i].to))
    && r.transitions[|r.transitions| - 1].to == r.status
  }

  /** The day is open without a Z report, closed when it was issued, and waits for it in between. */
  ghost predicate Living(d: Day) {
    && (forall i :: 0 <= i < |d.reports| ==> Lived(d.reports[i]))
    && (forall i :: 0 <= i < |d.reports| && d.reports[i].z ==> i == |d.reports| - 1)
    && (d.state == DayOpen <==> forall i :: 0 <= i < |d.reports| ==> !d.reports[i].z)
    && (d.state == DayClosed <==> exists i :: 0 <= i < |d.reports| && d.reports[i].z && d.reports[i].status == F.Issued)
  }

  lemma RequestLives(d: Day, move: Move)
    requires Living(d) && move.Request?
    ensures Living(Moved(d, move))
  {
    var d' := Moved(d, move);
    if d' != d {
      assert forall i :: 0 <= i < |d.reports| ==> d'.reports[i] == d.reports[i];
      assert d'.reports[|d.reports|].z == move.z && Lived(d'.reports[|d.reports|]);
    }
  }

  /** The report that is moved takes one step more, and no issued one is moved. */
  lemma AdvanceLengthens(d: Day, move: Move, k: nat)
    requires move.Advance? && Moved(d, move) != d && k == PlaceOf(d.reports, move.moved)
    requires forall i :: 0 <= i < |d.reports| ==> Lived(d.reports[i])
    ensures
      var d' := Moved(d, move);
      && k < |d.reports| == |d'.reports| && Lived(d'.reports[k]) && d.reports[k].status != F.Issued
      && d'.reports[k].z == d.reports[k].z
      && (forall i :: 0 <= i < |d.reports| && i != k ==> d'.reports[i] == d.reports[i])
      && d'.state == (if d.reports[k].z && d'.reports[k].status == F.Issued then DayClosed else d.state)
  {
    assert Lived(d.reports[k]);
  }

  lemma AdvanceLives(d: Day, move: Move)
    requires Living(d) && move.Advance?
    ensures Living(Moved(d, move))
  {
    if Moved(d, move) != d {
      var k := PlaceOf(d.reports, move.moved);
      AdvanceLengthens(d, move, k);
      OneReportLives(d, Moved(d, move), k);
    }
  }

  lemma OneReportLives(d: Day, d': Day, k: nat)
    requires Living(d) && k < |d.reports| == |d'.reports|
    requires Lived(d'.reports[k]) && d'.reports[k].z == d.reports[k].z && d.reports[k].status != F.Issued
    requires forall i :: 0 <= i < |d.reports| && i != k ==> d'.reports[i] == d.reports[i]
    requires d'.state == (if d.reports[k].z && d'.reports[k].status == F.Issued then DayClosed else d.state)
    ensures Living(d')
  {
  }

  /**
   * However the domain moves a day from its opening, every report's transitions are a path of its state machine, at
   * most the last report is the Z, and the day is open without it and closed exactly when it was issued.
   */
  lemma {:induction false} MovesLive(d: Day, moves: seq<Move>)
    requires Living(d)
    ensures Living(MovedBy(d, moves))
    decreases |moves|
  {
    if moves != [] {
      if moves[0].Request? {
        RequestLives(d, moves[0]);
      } else {
        AdvanceLives(d, moves[0]);
      }
      MovesLive(Moved(d, moves[0]), moves[1..]);
    }
  }

  lemma OpenedLives(d: Day, moves: seq<Move>)
    requires Opening(d)
    ensures Living(MovedBy(d, moves))
  {
    MovesLive(d, moves);
  }

  /** A report that was issued or has failed is not moved again. */
  ghost predicate Settled(d: Day, r: Report) {
    r in d.reports && (r.status == F.Issued || r.status == F.Failed)
  }

  lemma MoveKeepsSettled(d: Day, move: Move, r: Report)
    requires Settled(d, r)
    ensures Settled(Moved(d, move), r)
  {
    var d' := Moved(d, move);
    var k :| 0 <= k < |d.reports| && d.reports[k] == r;
    assert k < |d'.reports| && d'.reports[k] == r;
  }

  lemma {:induction false} SettledStays(d: Day, moves: seq<Move>, r: Report)
    requires Settled(d, r)
    ensures Settled(MovedBy(d, moves), r)
    decreases |moves|
  {
    if moves != [] {
      MoveKeepsSettled(d, moves[0], r);
      SettledStays(Moved(d, moves[0]), moves[1..], r);
    }
  }

  /** What a call does to the day: when it is taken, what it writes, and that it touches no other report. */
  lemma MoveIs(d: Day, move: Move)
    requires NoReportTwice(d.reports)
    ensures
      var d' := Moved(d, move);
      match move
      case Request(id, identity, z, event) =>
        if d.state != DayOpen || (exists i :: 0 <= i < |d.reports| && d.reports[i].id == id) then d' == d
        else
          && d' == Day(d.id, d.identity, if z then ZPending else DayOpen, d.version + 1, d'.reports)
          && d'.reports == d.reports
             + [Report(id, identity, z, F.Pending, "", [F.Transition(event, d.version + 1, None, F.Pending, "")])]
      case Advance(id, to, details, event) =>
        forall i :: 0 <= i < |d.reports| && d.reports[i].id == id ==>
          var r := d.reports[i];
          if !Step(r.status, to) then d' == d
          else
            && d' == Day(d.id, d.identity, if r.z && to == F.Issued then DayClosed else d.state, d.version + 1,
                         d'.reports)
            && d'.reports == d.reports[i := r.(status := to, details := details,
                 transitions := r.transitions + [F.Transition(event, d.version + 1, Some(r.status), to, details)])]
  {
  }
}
