/** Fiscal days: several reports whose transitions share the day's version counter. */
module FiscalDays {
  import opened Wrappers
  import opened Selection
  import opened Sorting
  import F = FiscalDocuments

  type DayId = int
  type ReportId = int

  datatype DayState = DayOpen | ZPending | DayClosed

  /** `z` marks the report that closes the day. */
  datatype Report = Report(
    id: ReportId, identity: string, z: bool, status: F.State, details: string, transitions: seq<F.Transition>)

  /** A day in memory. */
  datatype Day = Day(id: DayId, identity: string, state: DayState, version: int, reports: seq<Report>)

  datatype DayRow = DayRow(identity: string, state: DayState, version: int)

  datatype ReportRow = ReportRow(day: DayId, identity: string, z: bool, status: F.State, details: string)

  datatype Entry = Entry(report: ReportId, step: F.Transition)

  /** The rows, and the transition rows of each day in version order. */
  datatype Tables = Tables(days: map<DayId, DayRow>, reports: map<ReportId, ReportRow>, log: map<DayId, seq<Entry>>)

  const EMPTY := Tables(map[], map[], map[])

  datatype SaveError =
    SequenceInvalid | ReportConflict | DayConflict | StaleVersion | DayImmutable | DuplicateReport | DuplicateEvent

  // ---------- histories ----------

  predicate ByVersion(a: Entry, b: Entry) {
    a.step.version <= b.step.version
  }

  predicate Consecutive(rows: seq<Entry>, first: int) {
    forall i :: 0 <= i < |rows| ==> rows[i].step.version == first + i
  }

  function Entries(r: Report): (rows: seq<Entry>)
    ensures |rows| == |r.transitions| && forall i :: 0 <= i < |rows| ==> rows[i] == Entry(r.id, r.transitions[i])
  {
    seq(|r.transitions|, i requires 0 <= i < |r.transitions| => Entry(r.id, r.transitions[i]))
  }

  function History(reports: seq<Report>): seq<Entry> {
    if reports == [] then [] else Entries(reports[0]) + History(reports[1..])
  }

  function OfReport(rows: seq<Entry>, id: ReportId): seq<Entry> {
    Filter(rows, (e: Entry) => e.report == id)
  }

  function After(rows: seq<Entry>, version: int): seq<Entry> {
    Filter(rows, (e: Entry) => e.step.version > version)
  }

  /** Where the last transition of a report leads. */
  function LastOf(rows: seq<Entry>, id: ReportId): Option<F.State> {
    var own := OfReport(rows, id);
    if own == [] then None else Some(own[|own| - 1].step.to)
  }

  function InVersionOrder(d: Day): seq<Entry> {
    Sort(History(d.reports), ByVersion)
  }

  predicate ReportAgrees(r: Report) {
    r.transitions != [] && r.transitions[|r.transitions| - 1].to == r.status
  }

  predicate MemoryAgrees(d: Day) {
    && |InVersionOrder(d)| == d.version - 1
    && Consecutive(InVersionOrder(d), 2)
    && forall i :: 0 <= i < |d.reports| ==> ReportAgrees(d.reports[i])
  }

  function NewTransitions(d: Day, persisted: int): Option<seq<Entry>> {
    var pending := After(InVersionOrder(d), persisted);
    if !MemoryAgrees(d) then None
    else if d.version < persisted || |pending| != d.version - persisted || !Consecutive(pending, persisted + 1)
    then None
    else Some(pending)
  }

  function LogOf(t: Tables, id: DayId): seq<Entry> {
    if id in t.log then t.log[id] else []
  }

  /** The check before a save and on every read. */
  predicate LogAgrees(t: Tables, id: DayId) {
    && id in t.days
    && 1 <= t.days[id].version == |LogOf(t, id)| + 1
    && Consecutive(LogOf(t, id), 2)
    && forall r :: r in t.reports && t.reports[r].day == id ==> LastOf(LogOf(t, id), r) == Some(t.reports[r].status)
  }

  // ---------- the repository ----------

  predicate SameIdentity(t: Tables, d: Day, r: Report) {
    r.id in t.reports ==>
      t.reports[r.id].day == d.id && t.reports[r.id].identity == r.identity && t.reports[r.id].z == r.z
  }

  function RowOf(d: Day, r: Report): ReportRow {
    ReportRow(d.id, r.identity, r.z, r.status, r.details)
  }

  /** Each report of the day inserted or updated, but a row that was issued before the save stays. */
  function ReportsSaved(before: map<ReportId, ReportRow>, d: Day, reports: seq<Report>): map<ReportId, ReportRow> {
    if reports == [] then before
    else
      var last := reports[|reports| - 1];
      var rows := ReportsSaved(before, d, reports[..|reports| - 1]);
      if last.id in before && before[last.id].status.Issued? then rows else rows[last.id := RowOf(d, last)]
  }

  /** A report inserted twice breaks its primary key. */
  predicate NoNewReportTwice(before: map<ReportId, ReportRow>, reports: seq<Report>) {
    forall i, j :: 0 <= i < j < |reports| && reports[i].id !in before ==> reports[i].id != reports[j].id
  }

  predicate EventIdsFree(log: map<DayId, seq<Entry>>, pending: seq<Entry>) {
    && (forall i, j :: 0 <= i < j < |pending| ==> pending[i].step.eventId != pending[j].step.eventId)
    && (forall id, x, y :: id in log && x in log[id] && y in pending ==> x.step.eventId != y.step.eventId)
  }

  function Stored(t: Tables, d: Day, pending: seq<Entry>): Tables {
    Tables(t.days[d.id := DayRow(d.identity, d.state, d.version)],
           ReportsSaved(t.reports, d, d.reports),
           t.log[d.id := LogOf(t, d.id) + pending])
  }

  function Persisted(t: Tables, id: DayId): int {
    if id in t.days then t.days[id].version else 1
  }

  function Saved(t: Tables, d: Day): Result<Tables, SaveError> {
    var existing := d.id in t.days;
    var pending := NewTransitions(d, Persisted(t, d.id));
    if existing && !LogAgrees(t, d.id) then Err(SequenceInvalid)
    else if exists i :: 0 <= i < |d.reports| && !SameIdentity(t, d, d.reports[i]) then Err(ReportConflict)
    else if pending.None? then Err(SequenceInvalid)
    else if existing && t.days[d.id].identity != d.identity then Err(DayConflict)
    else if existing && d.version <= t.days[d.id].version then Err(StaleVersion)
    else if existing && t.days[d.id].state.DayClosed? then Err(DayImmutable)
    else if !NoNewReportTwice(t.reports, d.reports) then Err(DuplicateReport)
    else if !EventIdsFree(t.log, pending.value) then Err(DuplicateEvent)
    else Ok(Stored(t, d, pending.value))
  }

  method SaveReports(before: map<ReportId, ReportRow>, d: Day) returns (rows: map<ReportId, ReportRow>)
    ensures rows == ReportsSaved(before, d, d.reports)
  {
    rows := before;
    for i := 0 to |d.reports|
      invariant rows == ReportsSaved(before, d, d.reports[..i])
    {
      var r := d.reports[i];
      if r.id !in before || !before[r.id].status.Issued? {
        rows := rows[r.id := RowOf(d, r)];
      }
      assert d.reports[..i + 1][..i] == d.reports[..i];
    }
    assert d.reports[..|d.reports|] == d.reports;
  }

  class FiscalDayRepository {
    var days: map<DayId, DayRow>
    var reports: map<ReportId, ReportRow>
    var log: map<DayId, seq<Entry>>

    function Snapshot(): Tables
      reads this
    {
      Tables(days, reports, log)
    }

    constructor ()
      ensures Snapshot() == EMPTY
    {
      days, reports, log := map[], map[], map[];
    }

    method Save(d: Day) returns (error: Option<SaveError>)
      modifies this
      ensures match Saved(old(Snapshot()), d)
              case Ok(t) => error == None && Snapshot() == t
              case Err(e) => error == Some(e) && Snapshot() == old(Snapshot())
    {
      var existing := d.id in days;
      if existing && !LogAgrees(Snapshot(), d.id) {
        return Some(SequenceInvalid);
      }
      for i := 0 to |d.reports|
        invariant forall j :: 0 <= j < i ==> SameIdentity(Snapshot(), d, d.reports[j])
      {
        if !SameIdentity(Snapshot(), d, d.reports[i]) {
          return Some(ReportConflict);
        }
      }
      var pending := NewTransitions(d, Persisted(Snapshot(), d.id));
      if pending.None? {
        return Some(SequenceInvalid);
      }
      if existing && days[d.id].identity != d.identity {
        return Some(DayConflict);
      }
      if existing && d.version <= days[d.id].version {
        return Some(StaleVersion);
      }
      if existing && days[d.id].state.DayClosed? {
        return Some(DayImmutable);
      }
      if !NoNewReportTwice(reports, d.reports) {
        return Some(DuplicateReport);
      }
      if !EventIdsFree(log, pending.value) {
        return Some(DuplicateEvent);
      }
      days := days[d.id := DayRow(d.identity, d.state, d.version)];
      reports := SaveReports(reports, d);
      log := log[d.id := (if d.id in log then log[d.id] else []) + pending.value];
      return None;
    }
  }

  // ---------- what a save keeps, and when ----------

  ghost predicate Sound(t: Tables) {
    && t.log.Keys == t.days.Keys
    && (forall id :: id in t.days ==> LogAgrees(t, id))
    && (forall r :: r in t.reports ==> t.reports[r].day in t.days)
    && (forall id :: id in t.log ==> Referenced(t.reports, id, t.log[id]))
  }

  /** The foreign keys of transition rows. */
  ghost predicate Referenced(reports: map<ReportId, ReportRow>, id: DayId, rows: seq<Entry>) {
    forall e :: e in rows ==> e.report in reports && reports[e.report].day == id
  }

  predicate NoReportTwice(reports: seq<Report>) {
    forall i, j :: 0 <= i < j < |reports| ==> reports[i].id != reports[j].id
  }

  predicate Rising(r: Report) {
    forall i, j :: 0 <= i < j < |r.transitions| ==> r.transitions[i].version <= r.transitions[j].version
  }

  /** What a day keeps by itself: one report for each id, and each report's transitions in order. */
  predicate WellFormed(d: Day) {
    NoReportTwice(d.reports) && forall i :: 0 <= i < |d.reports| ==> Rising(d.reports[i])
  }

  predicate Touched(r: Report, persisted: int) {
    exists i :: 0 <= i < |r.transitions| && r.transitions[i].version > persisted
  }

  /**
   * A report follows the store: it moves only if it is not issued there, and if it does not move it is as
   * it is there.
   */
  predicate Follows(t: Tables, d: Day, r: Report) {
    if Touched(r, Persisted(t, d.id))
    then r.id in t.reports && t.reports[r.id].status.Issued? ==> r.status.Issued?
    else r.id in t.reports && (t.reports[r.id].status.Issued? || t.reports[r.id].status == r.status)
  }

  lemma {:induction false} OfHistory(reports: seq<Report>, id: ReportId)
    requires NoReportTwice(reports)
    ensures forall i :: 0 <= i < |reports| && reports[i].id == id ==>
      OfReport(History(reports), id) == Entries(reports[i])
    ensures (forall i :: 0 <= i < |reports| ==> reports[i].id != id) ==> OfReport(History(reports), id) == []
  {
    if reports != [] {
      var keep := (e: Entry) => e.report == id;
      var head, rest := Entries(reports[0]), History(reports[1..]);
      OfHistory(reports[1..], id);
      FilterOfSum(head, rest, keep);
      if reports[0].id == id {
        FilterAll(head, keep);
        assert OfReport(rest, id) == [] by {
          assert forall i :: 0 <= i < |reports[1..]| ==> reports[1..][i] == reports[i + 1];
        }
      } else {
        FilterNone(head, keep);
        assert forall i :: 0 < i < |reports| ==> reports[i] == reports[1..][i - 1];
      }
    }
  }

  lemma OfMemory(d: Day, i: nat)
    requires WellFormed(d) && i < |d.reports|
    ensures OfReport(InVersionOrder(d), d.reports[i].id) == Entries(d.reports[i])
  {
    var r := d.reports[i];
    FilterOfSort(History(d.reports), ByVersion, (e: Entry) => e.report == r.id);
    OfHistory(d.reports, r.id);
    assert Rising(r);
    SortedStays(Entries(r), ByVersion);
  }

  lemma OfNobody(d: Day, id: ReportId)
    requires WellFormed(d) && forall i :: 0 <= i < |d.reports| ==> d.reports[i].id != id
    ensures OfReport(InVersionOrder(d), id) == []
  {
    FilterOfSort(History(d.reports), ByVersion, (e: Entry) => e.report == id);
    OfHistory(d.reports, id);
  }

  /** Of rising rows, those after a version end where the rows end. */
  lemma {:induction false} SuffixEnds(rows: seq<Entry>, version: int)
    requires forall i, j :: 0 <= i < j < |rows| ==> rows[i].step.version <= rows[j].step.version
    ensures After(rows, version) != [] ==>
      rows != [] && After(rows, version)[|After(rows, version)| - 1] == rows[|rows| - 1]
  {
    var keep := (e: Entry) => e.step.version > version;
    if rows != [] {
      SuffixEnds(rows[1..], version);
      if keep(rows[0]) {
        assert forall x :: x in rows ==> keep(x);
        FilterAll(rows, keep);
      }
    }
  }

  lemma AfterIsTouched(r: Report, version: int)
    ensures After(Entries(r), version) != [] <==> Touched(r, version)
  {
    var keep := (e: Entry) => e.step.version > version;
    var rows := Entries(r);
    FilterMembers(rows, keep);
    if Touched(r, version) {
      var i :| 0 <= i < |r.transitions| && r.transitions[i].version > version;
      assert rows[i] in rows && rows[i] in After(rows, version);
    }
    if After(rows, version) != [] {
      var x := After(rows, version)[0];
      assert x in After(rows, version) && x in rows;
      var i :| 0 <= i < |rows| && rows[i] == x;
      assert r.transitions[i].version > version;
    }
  }

  lemma LastOfSum(a: seq<Entry>, b: seq<Entry>, id: ReportId)
    ensures LastOf(a + b, id) == if OfReport(b, id) == [] then LastOf(a, id) else LastOf(b, id)
  {
    FilterOfSum(a, b, (e: Entry) => e.report == id);
  }

  /** Where a report of the memory stands once its new transitions are stored. */
  lemma LastAfterSave(d: Day, log: seq<Entry>, i: nat, persisted: int)
    requires WellFormed(d) && MemoryAgrees(d) && i < |d.reports|
    ensures
      var r := d.reports[i];
      LastOf(log + After(InVersionOrder(d), persisted), r.id)
        == if Touched(r, persisted) then Some(r.status) else LastOf(log, r.id)
  {
    var r, pending := d.reports[i], After(InVersionOrder(d), persisted);
    assert Rising(r) && ReportAgrees(r);
    OfMemory(d, i);
    FilterTwice(InVersionOrder(d), (e: Entry) => e.step.version > persisted, (e: Entry) => e.report == r.id);
    assert OfReport(pending, r.id) == After(Entries(r), persisted);
    AfterIsTouched(r, persisted);
    SuffixEnds(Entries(r), persisted);
    LastOfSum(log, pending, r.id);
  }

  lemma LastOfOthers(d: Day, log: seq<Entry>, id: ReportId, persisted: int)
    requires WellFormed(d) && forall i :: 0 <= i < |d.reports| ==> d.reports[i].id != id
    ensures LastOf(log + After(InVersionOrder(d), persisted), id) == LastOf(log, id)
  {
    OfNobody(d, id);
    FilterTwice(InVersionOrder(d), (e: Entry) => e.step.version > persisted, (e: Entry) => e.report == id);
    LastOfSum(log, After(InVersionOrder(d), persisted), id);
  }

  function SavedRow(before: map<ReportId, ReportRow>, d: Day, r: Report): ReportRow {
    if r.id in before && before[r.id].status.Issued? then before[r.id] else RowOf(d, r)
  }

  lemma {:induction false} ReportsSavedIs(before: map<ReportId, ReportRow>, d: Day, reports: seq<Report>)
    requires NoReportTwice(reports)
    ensures
      var rows := ReportsSaved(before, d, reports);
      && (forall i :: 0 <= i < |reports| ==>
            reports[i].id in rows && rows[reports[i].id] == SavedRow(before, d, reports[i]))
      && (forall id :: (forall i :: 0 <= i < |reports| ==> reports[i].id != id) ==>
            (id in rows <==> id in before) && (id in before ==> rows[id] == before[id]))
      && (forall id :: id in before ==> id in rows)
  {
    if reports != [] {
      var n := |reports| - 1;
      ReportsSavedIs(before, d, reports[..n]);
      assert forall i :: 0 <= i < n ==> reports[..n][i] == reports[i];
    }
  }

  lemma HasFirst(rows: seq<Entry>)
    ensures rows == [] || exists e :: e in rows
  {
    assert rows == [] || rows[0] in rows;
  }

  lemma StrangerHasNoEntries(t: Tables, id: DayId, r: ReportId)
    requires Sound(t) && r !in t.reports
    ensures LastOf(LogOf(t, id), r) == None
  {
    FilterMembers(LogOf(t, id), (e: Entry) => e.report == r);
    HasFirst(OfReport(LogOf(t, id), r));
  }

  /** A report of the memory reads back well exactly when it follows the store. */
  lemma ReportReadsIff(t: Tables, d: Day, i: nat)
    requires Sound(t) && WellFormed(d) && Saved(t, d).Ok? && i < |d.reports|
    ensures
      var r := d.reports[i];
      var log := LogOf(t, d.id) + After(InVersionOrder(d), Persisted(t, d.id));
      LastOf(log, r.id) == Some(SavedRow(t.reports, d, r).status) <==> Follows(t, d, r)
  {
    var r, log := d.reports[i], LogOf(t, d.id);
    LastAfterSave(d, log, i, Persisted(t, d.id));
    assert SameIdentity(t, d, r);
    if r.id in t.reports {
      assert LogAgrees(t, d.id);
      assert LastOf(log, r.id) == Some(t.reports[r.id].status);
    } else {
      StrangerHasNoEntries(t, d.id, r.id);
    }
  }

  predicate InMemory(d: Day, id: ReportId) {
    exists i :: 0 <= i < |d.reports| && d.reports[i].id == id
  }

  lemma {:induction false} HistoryMembers(reports: seq<Report>, e: Entry)
    requires e in History(reports)
    ensures exists i :: 0 <= i < |reports| && reports[i].id == e.report
  {
    if e in Entries(reports[0]) {
      assert reports[0].id == e.report;
    } else {
      HistoryMembers(reports[1..], e);
      var i :| 0 <= i < |reports[1..]| && reports[1..][i].id == e.report;
      assert reports[i + 1].id == e.report;
    }
  }

  lemma PendingIsOfMemory(d: Day, version: int, e: Entry)
    requires e in After(InVersionOrder(d), version)
    ensures InMemory(d, e.report)
  {
    FilterMembers(InVersionOrder(d), (x: Entry) => x.step.version > version);
    SortMembers(History(d.reports), ByVersion);
    HistoryMembers(d.reports, e);
  }

  /** The report rows after a save: those of the memory as saved, the others as they were, each of its day. */
  ghost predicate RowsFollow(t: Tables, d: Day, rows: map<ReportId, ReportRow>) {
    && (forall i :: 0 <= i < |d.reports| ==>
          d.reports[i].id in rows && rows[d.reports[i].id] == SavedRow(t.reports, d, d.reports[i])
          && rows[d.reports[i].id].day == d.id)
    && (forall id :: !InMemory(d, id) ==>
          (id in rows <==> id in t.reports) && (id in rows ==> rows[id] == t.reports[id]))
    && (forall id :: id in t.reports ==> id in rows && rows[id].day == t.reports[id].day)
  }

  lemma ReportsSavedFollow(t: Tables, d: Day)
    requires NoReportTwice(d.reports) && forall i :: 0 <= i < |d.reports| ==> SameIdentity(t, d, d.reports[i])
    ensures RowsFollow(t, d, ReportsSaved(t.reports, d, d.reports))
  {
    ReportsSavedIs(t.reports, d, d.reports);
    var rows := ReportsSaved(t.reports, d, d.reports);
    forall id | id in t.reports
      ensures id in rows && rows[id].day == t.reports[id].day
    {
      if InMemory(d, id) {
        var i :| 0 <= i < |d.reports| && d.reports[i].id == id;
        assert SameIdentity(t, d, d.reports[i]);
      }
    }
  }

  lemma RowsAfterSave(t: Tables, d: Day)
    requires Sound(t) && WellFormed(d) && Saved(t, d).Ok?
    ensures RowsFollow(t, d, Saved(t, d).value.reports)
  {
    SavedReports(t, d);
    ReportsSavedFollow(t, d);
  }

  lemma SavedReports(t: Tables, d: Day)
    requires Saved(t, d).Ok?
    ensures Saved(t, d).value.reports == ReportsSaved(t.reports, d, d.reports)
    ensures forall i :: 0 <= i < |d.reports| ==> SameIdentity(t, d, d.reports[i])
  {
  }

  lemma SaveKeepsReferences(t: Tables, d: Day)
    requires Sound(t) && WellFormed(d) && Saved(t, d).Ok?
    ensures
      var t' := Saved(t, d).value;
      forall id :: id in t'.log ==> Referenced(t'.reports, id, t'.log[id])
  {
    var t' := Saved(t, d).value;
    RowsAfterSave(t, d);
    forall id, e | id in t'.log && e in t'.log[id]
      ensures e.report in t'.reports && t'.reports[e.report].day == id
    {
      if e in LogOf(t, id) {
        assert Referenced(t.reports, id, t.log[id]);
      } else {
        PendingIsOfMemory(d, Persisted(t, d.id), e);
      }
    }
  }

  lemma OtherDaysAgree(t: Tables, d: Day, id: DayId)
    requires Sound(t) && WellFormed(d) && Saved(t, d).Ok? && id in t.days && id != d.id
    ensures LogAgrees(Saved(t, d).value, id)
  {
    var t' := Saved(t, d).value;
    RowsAfterSave(t, d);
    assert LogAgrees(t, id) && LogOf(t', id) == LogOf(t, id);
    forall r | r in t'.reports && t'.reports[r].day == id
      ensures LastOf(LogOf(t', id), r) == Some(t'.reports[r].status)
    {
      assert !InMemory(d, r);
    }
  }

  lemma LogAfterSave(t: Tables, d: Day)
    requires Saved(t, d).Ok?
    ensures
      var t' := Saved(t, d).value;
      && LogOf(t', d.id) == LogOf(t, d.id) + After(InVersionOrder(d), Persisted(t, d.id))
      && MemoryAgrees(d) && t'.days == t.days[d.id := DayRow(d.identity, d.state, d.version)]
      && (Sound(t) ==> 1 <= d.version == |LogOf(t', d.id)| + 1 && Consecutive(LogOf(t', d.id), 2))
  {
    assert d.id in t.days ==> LogAgrees(t, d.id);
  }

  /** A report row of the day reads back well exactly when its report, if the memory has it, follows the store. */
  lemma RowReadsIff(t: Tables, d: Day, r: ReportId)
    requires Sound(t) && WellFormed(d) && Saved(t, d).Ok?
    requires r in Saved(t, d).value.reports && Saved(t, d).value.reports[r].day == d.id
    ensures
      var log := LogOf(t, d.id) + After(InVersionOrder(d), Persisted(t, d.id));
      LastOf(log, r) == Some(Saved(t, d).value.reports[r].status)
      <==> forall i :: 0 <= i < |d.reports| && d.reports[i].id == r ==> Follows(t, d, d.reports[i])
  {
    RowsAfterSave(t, d);
    if InMemory(d, r) {
      var i :| 0 <= i < |d.reports| && d.reports[i].id == r;
      ReportReadsIff(t, d, i);
      assert forall j :: 0 <= j < |d.reports| && d.reports[j].id == r ==> j == i;
    } else {
      LastOfOthers(d, LogOf(t, d.id), r, Persisted(t, d.id));
      assert LogAgrees(t, d.id);
    }
  }

  lemma ThisDayIff(t: Tables, d: Day)
    requires Sound(t) && WellFormed(d) && Saved(t, d).Ok?
    ensures LogAgrees(Saved(t, d).value, d.id) <==> forall i :: 0 <= i < |d.reports| ==> Follows(t, d, d.reports[i])
  {
    var t' := Saved(t, d).value;
    LogAfterSave(t, d);
    forall r | r in t'.reports && t'.reports[r].day == d.id
      ensures LastOf(LogOf(t', d.id), r) == Some(t'.reports[r].status)
        <==> forall i :: 0 <= i < |d.reports| && d.reports[i].id == r ==> Follows(t, d, d.reports[i])
    {
      RowReadsIff(t, d, r);
    }
    RowsAfterSave(t, d);
  }

  lemma DaysOfReports(t: Tables, d: Day)
    requires Sound(t) && WellFormed(d) && Saved(t, d).Ok?
    ensures
      var t' := Saved(t, d).value;
      t'.log.Keys == t'.days.Keys && forall r :: r in t'.reports ==> t'.reports[r].day in t'.days
  {
    RowsAfterSave(t, d);
    DaysFollow(t, d, Saved(t, d).value.reports);
  }

  lemma DaysFollow(t: Tables, d: Day, rows: map<ReportId, ReportRow>)
    requires Sound(t) && RowsFollow(t, d, rows)
    ensures forall r :: r in rows ==> rows[r].day == d.id || rows[r].day in t.days
  {
  }

  lemma SoundButForOne(t: Tables, k: DayId)
    requires t.log.Keys == t.days.Keys && k in t.days
    requires forall r :: r in t.reports ==> t.reports[r].day in t.days
    requires forall id :: id in t.log ==> Referenced(t.reports, id, t.log[id])
    requires forall id :: id in t.days && id != k ==> LogAgrees(t, id)
    ensures Sound(t) <==> LogAgrees(t, k)
  {
  }

  /** A save keeps every history readable exactly when each report of the memory follows the store. */
  lemma SaveKeepsIff(t: Tables, d: Day)
    requires Sound(t) && WellFormed(d) && Saved(t, d).Ok?
    ensures Sound(Saved(t, d).value) <==> forall i :: 0 <= i < |d.reports| ==> Follows(t, d, d.reports[i])
  {
    ThisDayIff(t, d);
    DaysOfReports(t, d);
    SaveKeepsReferences(t, d);
    forall id | id in t.days && id != d.id
      ensures LogAgrees(Saved(t, d).value, id)
    {
      OtherDaysAgree(t, d, id);
    }
    SoundButForOne(Saved(t, d).value, d.id);
  }

  // ---------- days that the domain moves ----------

  datatype Move =
    | Request(report: ReportId, identity: string, z: bool, requestEvent: F.EventId)
    | Advance(moved: ReportId, to: F.State, details: string, event: F.EventId)

  /** The transitions of a report the domain allows. */
  predicate Legal(from: F.State, to: F.State) {
    match to
    case Pending => false
    case Printing => from.Pending? || from.Retrying?
    case Issued => from.Printing? || from.Error? || from.Retrying?
    case Error => from.Printing?
    case Retrying => from.Error?
    case Failed => from.Error? || from.Retrying?
  }

  function PlaceOf(reports: seq<Report>, id: ReportId): (i: nat)
    ensures i <= |reports| && (i < |reports| ==> reports[i].id == id)
    ensures i == |reports| ==> forall j :: 0 <= j < |reports| ==> reports[j].id != id
  {
    if reports == [] || reports[0].id == id then 0
    else
      assert forall j :: 0 < j < |reports| ==> reports[j] == reports[1..][j - 1];
      1 + PlaceOf(reports[1..], id)
  }

  /** One call of the domain; a call it refuses leaves the day as it is. */
  function Moved(d: Day, move: Move): Day {
    match move
    case Request(id, identity, z, event) =>
      if !d.state.DayOpen? || PlaceOf(d.reports, id) < |d.reports| then d
      else
        var first := F.Transition(event, d.version + 1, None, F.Pending, "");
        d.(state := if z then ZPending else d.state, version := d.version + 1,
           reports := d.reports + [Report(id, identity, z, F.Pending, "", [first])])
    case Advance(id, to, details, event) =>
      var i := PlaceOf(d.reports, id);
      if i == |d.reports| || !Legal(d.reports[i].status, to) then d
      else
        var r := d.reports[i];
        var step := F.Transition(event, d.version + 1, Some(r.status), to, details);
        d.(state := if r.z && to.Issued? then DayClosed else d.state, version := d.version + 1,
           reports := d.reports[i := r.(status := to, details := details, transitions := r.transitions + [step])])
  }

  function MovedBy(d: Day, moves: seq<Move>): Day
    decreases |moves|
  {
    if moves == [] then d else MovedBy(Moved(d, moves[0]), moves[1..])
  }

  function Steps(rows: seq<Entry>): (r: seq<F.Transition>)
    ensures |r| == |rows| && forall i :: 0 <= i < |r| ==> r[i] == rows[i].step
  {
    seq(|rows|, i requires 0 <= i < |rows| => rows[i].step)
  }

  function ReportsOf(t: Tables, id: DayId): set<ReportId> {
    set r | r in t.reports && t.reports[r].day == id
  }

  function ReportRead(t: Tables, id: DayId, r: ReportId): Report
    requires r in t.reports
  {
    var row := t.reports[r];
    Report(r, row.identity, row.z, row.status, row.details, Steps(OfReport(LogOf(t, id), r)))
  }

  function ReportsRead(t: Tables, id: DayId, ids: seq<ReportId>): (reports: seq<Report>)
    requires forall r :: r in ids ==> r in t.reports
    ensures |reports| == |ids| && forall i :: 0 <= i < |ids| ==> reports[i] == ReportRead(t, id, ids[i])
  {
    if ids == [] then [] else ReportsRead(t, id, ids[..|ids| - 1]) + [ReportRead(t, id, ids[|ids| - 1])]
  }

  /** The day as a read rebuilds it, each report with its own transitions. */
  function Read(t: Tables, id: DayId): Result<Day, SaveError> {
    if !LogAgrees(t, id) then Err(SequenceInvalid)
    else Ok(Day(id, t.days[id].identity, t.days[id].state, t.days[id].version,
                ReportsRead(t, id, Ascending(ReportsOf(t, id)))))
  }

  /** A memory that started from the store of `t`. */
  ghost predicate Derived(t: Tables, d: Day) {
    && WellFormed(d)
    && Persisted(t, d.id) <= d.version
    && (forall r :: r in t.reports && t.reports[r].day == d.id ==> InMemory(d, r))
    && (forall i :: 0 <= i < |d.reports| ==> ReportDerived(t, d, d.reports[i]))
  }

  ghost predicate ReportDerived(t: Tables, d: Day, r: Report) {
    && (forall i :: 0 <= i < |r.transitions| ==> r.transitions[i].version <= d.version)
    && (!Touched(r, Persisted(t, d.id)) ==>
          r.id in t.reports && t.reports[r.id].day == d.id && t.reports[r.id].status == r.status)
    && (r.id in t.reports && t.reports[r.id].day == d.id && t.reports[r.id].status.Issued? ==> r.status.Issued?)
  }

  lemma ReadReportIsDerived(t: Tables, id: DayId, d: Day, r: ReportId)
    requires LogAgrees(t, id) && r in t.reports && t.reports[r].day == id
    requires d.id == id && d.version == t.days[id].version
    ensures Rising(ReportRead(t, id, r)) && ReportDerived(t, d, ReportRead(t, id, r))
  {
    var log, keep := LogOf(t, id), (e: Entry) => e.report == r;
    FilterMembers(log, keep);
    assert forall e :: e in OfReport(log, r) ==> e in log && e.step.version <= d.version;
    SortedStays(log, ByVersion);
    FilterOfSort(log, ByVersion, keep);
    SortIs(OfReport(log, r), ByVersion);
    var report := ReportRead(t, id, r);
    forall i | 0 <= i < |report.transitions|
      ensures report.transitions[i].version <= d.version
    {
      assert OfReport(log, r)[i] in OfReport(log, r);
    }
    forall i, j | 0 <= i < j < |report.transitions|
      ensures report.transitions[i].version <= report.transitions[j].version
    {
      assert ByVersion(OfReport(log, r)[i], OfReport(log, r)[j]);
    }
  }

  lemma ReadHasAll(t: Tables, id: DayId, d: Day)
    requires Read(t, id) == Ok(d)
    ensures NoReportTwice(d.reports) && forall r :: r in t.reports && t.reports[r].day == id ==> InMemory(d, r)
  {
    var ids := Ascending(ReportsOf(t, id));
    forall r | r in t.reports && t.reports[r].day == id
      ensures InMemory(d, r)
    {
      assert r in ReportsOf(t, id) && r in ids;
      var i :| 0 <= i < |ids| && ids[i] == r;
      assert d.reports[i].id == r;
    }
  }

  lemma ReadIsDerived(t: Tables, id: DayId)
    requires Sound(t) && Read(t, id).Ok?
    ensures Derived(t, Read(t, id).value) && Read(t, id).value.id == id
  {
    var d, ids := Read(t, id).value, Ascending(ReportsOf(t, id));
    ReadHasAll(t, id, d);
    forall i | 0 <= i < |d.reports|
      ensures Rising(d.reports[i]) && ReportDerived(t, d, d.reports[i])
    {
      assert ids[i] in ids;
      ReadReportIsDerived(t, id, d, ids[i]);
    }
  }

  lemma RequestKeepsDerived(t: Tables, d: Day, move: Move)
    requires Derived(t, d) && move.Request?
    ensures Derived(t, Moved(d, move)) && Moved(d, move).id == d.id
  {
    var d' := Moved(d, move);
    if d' != d {
      assert forall i :: 0 <= i < |d.reports| ==> d'.reports[i] == d.reports[i] && ReportDerived(t, d, d.reports[i]);
      var r := d'.reports[|d.reports|];
      assert r.transitions[0].version > Persisted(t, d.id) && Touched(r, Persisted(t, d.id));
      assert !InMemory(d, r.id);
      forall id | InMemory(d, id)
        ensures InMemory(d', id)
      {
        var i :| 0 <= i < |d.reports| && d.reports[i].id == id;
        assert d'.reports[i].id == id;
      }
    }
  }

  lemma AdvanceKeepsDerived(t: Tables, d: Day, move: Move)
    requires Derived(t, d) && move.Advance?
    ensures Derived(t, Moved(d, move)) && Moved(d, move).id == d.id
  {
    var d' := Moved(d, move);
    if d' != d {
      var k := PlaceOf(d.reports, move.moved);
      var r, r' := d.reports[k], d'.reports[k];
      assert ReportDerived(t, d, r) && Rising(r);
      assert r'.transitions[|r.transitions|].version > Persisted(t, d.id) && Touched(r', Persisted(t, d.id));
      assert Rising(r') && ReportDerived(t, d', r');
      forall i | 0 <= i < |d'.reports| && i != k
        ensures Rising(d'.reports[i]) && ReportDerived(t, d', d'.reports[i])
      {
        assert d'.reports[i] == d.reports[i] && ReportDerived(t, d, d.reports[i]);
      }
      forall id | InMemory(d, id)
        ensures InMemory(d', id)
      {
        var i :| 0 <= i < |d.reports| && d.reports[i].id == id;
        assert d'.reports[i].id == id;
      }
    }
  }

  lemma {:induction false} MovesKeepDerived(t: Tables, d: Day, moves: seq<Move>)
    requires Derived(t, d)
    ensures Derived(t, MovedBy(d, moves)) && MovedBy(d, moves).id == d.id
    decreases |moves|
  {
    if moves != [] {
      if moves[0].Request? {
        RequestKeepsDerived(t, d, moves[0]);
      } else {
        AdvanceKeepsDerived(t, d, moves[0]);
      }
      MovesKeepDerived(t, Moved(d, moves[0]), moves[1..]);
    }
  }

  lemma DerivedSaveIsSound(t: Tables, d: Day)
    requires Sound(t) && Derived(t, d) && Saved(t, d).Ok?
    ensures Sound(Saved(t, d).value)
  {
    forall i | 0 <= i < |d.reports|
      ensures Follows(t, d, d.reports[i])
    {
      assert ReportDerived(t, d, d.reports[i]) && SameIdentity(t, d, d.reports[i]);
    }
    SaveKeepsIff(t, d);
  }

  // ---------- a memory that does not follow the store ----------

  const ASKED := F.Transition(70, 2, None, F.Pending, "")
  const STARTED := F.Transition(71, 3, Some(F.Pending), F.Printing, "")
  const ASKED_LATE := F.Transition(80, 3, None, F.Pending, "")
  const STARTED_LATE := F.Transition(81, 4, Some(F.Pending), F.Printing, "")

  /** Report 7 was requested, and another writer has started to print it. */
  const AHEAD := Tables(
    map[1 := DayRow("day", DayOpen, 3)],
    map[7 := ReportRow(1, "seven", false, F.Printing, "")],
    map[1 := [Entry(7, ASKED), Entry(7, STARTED)]])

  /** A memory read before that, which has since requested and started report 8. */
  const BEHIND := Day(1, "day", DayOpen, 4, [
    Report(7, "seven", false, F.Pending, "", [ASKED]),
    Report(8, "eight", false, F.Printing, "", [ASKED_LATE, STARTED_LATE])])

  lemma AheadIsSound()
    ensures Sound(AHEAD)
  {
    var log := LogOf(AHEAD, 1);
    FilterAll(log, (e: Entry) => e.report == 7);
    assert OfReport(log, 7) == log;
  }

  lemma BehindInOrder()
    ensures InVersionOrder(BEHIND) == [Entry(7, ASKED), Entry(8, ASKED_LATE), Entry(8, STARTED_LATE)]
  {
    var rows := [Entry(7, ASKED), Entry(8, ASKED_LATE), Entry(8, STARTED_LATE)];
    assert Entries(BEHIND.reports[0]) == [Entry(7, ASKED)];
    assert Entries(BEHIND.reports[1]) == [Entry(8, ASKED_LATE), Entry(8, STARTED_LATE)];
    assert BEHIND.reports[1..] == [BEHIND.reports[1]];
    assert History(BEHIND.reports[1..]) == Entries(BEHIND.reports[1]) + History([]);
    assert History(BEHIND.reports) == rows;
    SortedStays(rows, ByVersion);
  }

  lemma BehindIsPending()
    ensures After(InVersionOrder(BEHIND), 3) == [Entry(8, STARTED_LATE)]
  {
    BehindInOrder();
    var keep := (e: Entry) => e.step.version > 3;
    FilterNone([Entry(7, ASKED), Entry(8, ASKED_LATE)], keep);
    FilterAll([Entry(8, STARTED_LATE)], keep);
    FilterOfSum([Entry(7, ASKED), Entry(8, ASKED_LATE)], [Entry(8, STARTED_LATE)], keep);
    assert [Entry(7, ASKED), Entry(8, ASKED_LATE)] + [Entry(8, STARTED_LATE)] == InVersionOrder(BEHIND);
  }

  lemma BehindIsAccepted()
    ensures NewTransitions(BEHIND, 3) == Some([Entry(8, STARTED_LATE)])
    ensures WellFormed(BEHIND) && EventIdsFree(AHEAD.log, [Entry(8, STARTED_LATE)])
    ensures forall i :: 0 <= i < |BEHIND.reports| ==> SameIdentity(AHEAD, BEHIND, BEHIND.reports[i])
  {
    BehindInOrder();
    BehindIsPending();
    assert ReportAgrees(BEHIND.reports[0]) && ReportAgrees(BEHIND.reports[1]);
    assert Rising(BEHIND.reports[0]) && Rising(BEHIND.reports[1]);
  }

  /** The save of a memory behind the store can be accepted, and then the day no longer reads. */
  lemma StaleMemoryBreaksTheDay()
    ensures Sound(AHEAD) && WellFormed(BEHIND) && Saved(AHEAD, BEHIND).Ok?
    ensures Read(Saved(AHEAD, BEHIND).value, 1) == Err(SequenceInvalid)
  {
    AheadIsSound();
    BehindIsAccepted();
    assert LogAgrees(AHEAD, 1) && Persisted(AHEAD, 1) == 3;
    assert NoNewReportTwice(AHEAD.reports, BEHIND.reports);
    assert Saved(AHEAD, BEHIND).Ok?;
    assert !Follows(AHEAD, BEHIND, BEHIND.reports[0]);
    ThisDayIff(AHEAD, BEHIND);
  }
}
