/** Memories of fiscal days held across other writers' saves, and the caller that holds them. */
module FiscalFlows {
  import opened Wrappers
  import opened Sorting
  import opened FiscalDays
  import F = FiscalDocuments

  type Holder = int

  /** A day in memory, with the version it was read at, opened at or last saved at. */
  datatype Memory = Memory(day: Day, base: int)

  datatype World = World(tables: Tables, held: map<Holder, Memory>)

  datatype Act =
    | Load(holder: Holder, stored: DayId)
    | Open(holder: Holder, unstored: DayId, identity: string)
    | Change(holder: Holder, move: Move)
    | Save(holder: Holder)

  function Opened(id: DayId, identity: string): Memory {
    Memory(Day(id, identity, DayOpen, 1, []), 1)
  }

  function Done(w: World, act: Act): World {
    match act
    case Load(h, id) =>
      var read := Read(w.tables, id);
      if read.Ok? then w.(held := w.held[h := Memory(read.value, read.value.version)]) else w
    case Open(h, id, identity) => w.(held := w.held[h := Opened(id, identity)])
    case Change(h, move) =>
      if h in w.held then w.(held := w.held[h := w.held[h].(day := Moved(w.held[h].day, move))]) else w
    case Save(h) =>
      if h !in w.held then w
      else
        var d := w.held[h].day;
        var saved := Saved(w.tables, d);
        if saved.Ok? then World(saved.value, w.held[h := Memory(d, d.version)]) else w
  }

  /** A save of a memory whose base still stands, or that is at most one transition past it. */
  predicate Careful(w: World, act: Act) {
    act.Save? && act.holder in w.held ==>
      var m := w.held[act.holder];
      Persisted(w.tables, m.day.id) == m.base || m.day.version <= m.base + 1
  }

  function Run(w: World, acts: seq<Act>): World
    decreases |acts|
  {
    if acts == [] then w else Run(Done(w, acts[0]), acts[1..])
  }

  predicate AllCareful(w: World, acts: seq<Act>)
    decreases |acts|
  {
    acts == [] || (Careful(w, acts[0]) && AllCareful(Done(w, acts[0]), acts[1..]))
  }

  /** The store was never before a memory's base, and while it stands there the memory is derived from it. */
  ghost predicate Tracks(t: Tables, m: Memory) {
    && 1 <= m.base <= Persisted(t, m.day.id)
    && m.base <= m.day.version
    && (m.base == Persisted(t, m.day.id) ==> Derived(t, m.day))
  }

  ghost predicate Consistent(w: World) {
    Sound(w.tables) && forall h :: h in w.held ==> Tracks(w.tables, w.held[h])
  }

  // ---------- what other writers do to a memory ----------

  predicate OfDay(t: Tables, r: ReportId, id: DayId) {
    r in t.reports && t.reports[r].day == id
  }

  /** Two stores that agree on a day: its version and its report rows. */
  ghost predicate SameDay(t: Tables, t': Tables, id: DayId) {
    && Persisted(t, id) == Persisted(t', id)
    && forall r :: (OfDay(t, r, id) <==> OfDay(t', r, id)) && (OfDay(t, r, id) ==> t.reports[r] == t'.reports[r])
  }

  lemma SameDayKeepsDerived(t: Tables, t': Tables, d: Day)
    requires SameDay(t, t', d.id) && Derived(t, d)
    ensures Derived(t', d)
  {
    forall i | 0 <= i < |d.reports|
      ensures ReportDerived(t', d, d.reports[i])
    {
      assert ReportDerived(t, d, d.reports[i]);
      assert OfDay(t, d.reports[i].id, d.id) <==> OfDay(t', d.reports[i].id, d.id);
    }
    forall r | OfDay(t', r, d.id)
      ensures InMemory(d, r)
    {
      assert OfDay(t, r, d.id);
    }
  }

  lemma OtherDaysStay(t: Tables, d: Day, id: DayId)
    requires Sound(t) && WellFormed(d) && Saved(t, d).Ok? && id != d.id
    ensures SameDay(t, Saved(t, d).value, id)
  {
    var t' := Saved(t, d).value;
    RowsAfterSave(t, d);
    forall r
      ensures OfDay(t, r, id) <==> OfDay(t', r, id)
      ensures OfDay(t, r, id) ==> t.reports[r] == t'.reports[r]
    {
      if InMemory(d, r) {
        var i :| 0 <= i < |d.reports| && d.reports[i].id == r;
        assert t'.reports[r].day == d.id;
        assert SameIdentity(t, d, d.reports[i]);
      }
    }
  }

  /** A day without transitions has no reports. */
  lemma NoReportsYet(t: Tables, id: DayId)
    requires Sound(t) && Persisted(t, id) == 1
    ensures forall r :: !OfDay(t, r, id)
  {
    if id in t.days {
      assert LogAgrees(t, id);
      assert forall r :: LastOf(LogOf(t, id), r) == None;
    }
  }

  /** An accepted save leaves the day at the memory's version; only a first save may find it there. */
  lemma SavedVersion(t: Tables, d: Day)
    requires Sound(t) && Saved(t, d).Ok? && Sound(Saved(t, d).value)
    ensures 1 <= Persisted(t, d.id) <= d.version == Persisted(Saved(t, d).value, d.id)
    ensures d.version == Persisted(t, d.id) ==> SameDay(t, Saved(t, d).value, d.id)
  {
    LogAfterSave(t, d);
    if d.id in t.days {
      assert LogAgrees(t, d.id);
    }
    if d.version == Persisted(t, d.id) {
      NoReportsYet(t, d.id);
      NoReportsYet(Saved(t, d).value, d.id);
    }
  }

  lemma SavedReportIsDerived(t: Tables, d: Day, i: nat)
    requires Sound(t) && Derived(t, d) && Saved(t, d).Ok? && i < |d.reports|
    ensures ReportDerived(Saved(t, d).value, d, d.reports[i])
  {
    RowsAfterSave(t, d);
    LogAfterSave(t, d);
    assert ReportDerived(t, d, d.reports[i]);
  }

  /** A memory that was saved is derived from what it left. */
  lemma SavedIsDerived(t: Tables, d: Day)
    requires Sound(t) && Derived(t, d) && Saved(t, d).Ok?
    ensures Derived(Saved(t, d).value, d)
  {
    var t' := Saved(t, d).value;
    RowsAfterSave(t, d);
    LogAfterSave(t, d);
    forall i | 0 <= i < |d.reports|
      ensures ReportDerived(t', d, d.reports[i])
    {
      SavedReportIsDerived(t, d, i);
    }
    assert forall r :: OfDay(t', r, d.id) && !InMemory(d, r) ==> OfDay(t, r, d.id);
  }

  /** A save another holder gets accepted keeps a memory consistent with the store, or leaves it behind. */
  lemma SaveKeepsTracking(t: Tables, d: Day, m: Memory)
    requires Sound(t) && WellFormed(d) && Saved(t, d).Ok? && Sound(Saved(t, d).value) && Tracks(t, m)
    ensures Tracks(Saved(t, d).value, m)
  {
    var t' := Saved(t, d).value;
    SavedVersion(t, d);
    if m.day.id != d.id {
      OtherDaysStay(t, d, m.day.id);
    }
    if m.base == Persisted(t', m.day.id) {
      SameDayKeepsDerived(t, t', m.day);
    }
  }

  // ---------- every interleaving ----------

  /** A careful save is refused, or its memory is derived from the store. */
  lemma CarefulSaveIsDerived(w: World, act: Act)
    requires Consistent(w) && Careful(w, act) && act.Save? && act.holder in w.held
    requires Saved(w.tables, w.held[act.holder].day).Ok?
    ensures Derived(w.tables, w.held[act.holder].day)
  {
    assert Tracks(w.tables, w.held[act.holder]);
  }

  lemma SaveIsConsistent(w: World, act: Act)
    requires Consistent(w) && Careful(w, act) && act.Save?
    ensures Consistent(Done(w, act))
  {
    if act.holder in w.held && Saved(w.tables, w.held[act.holder].day).Ok? {
      var t, d := w.tables, w.held[act.holder].day;
      CarefulSaveIsDerived(w, act);
      DerivedSaveIsSound(t, d);
      SavedVersion(t, d);
      SavedIsDerived(t, d);
      var w' := Done(w, act);
      forall h | h in w'.held
        ensures Tracks(w'.tables, w'.held[h])
      {
        if h != act.holder {
          SaveKeepsTracking(t, d, w.held[h]);
        }
      }
    }
  }

  lemma ChangeTracks(t: Tables, m: Memory, move: Move)
    requires Tracks(t, m)
    ensures Tracks(t, m.(day := Moved(m.day, move)))
  {
    if m.base == Persisted(t, m.day.id) {
      MovesKeepDerived(t, m.day, [move]);
      assert MovedBy(m.day, [move]) == Moved(m.day, move);
    }
  }

  lemma ReadTracks(t: Tables, id: DayId)
    requires Sound(t)
    ensures Read(t, id).Ok? ==> Tracks(t, Memory(Read(t, id).value, Read(t, id).value.version))
  {
    if Read(t, id).Ok? {
      ReadIsDerived(t, id);
    }
  }

  lemma OpenedTracks(t: Tables, id: DayId, identity: string)
    requires Sound(t)
    ensures Tracks(t, Opened(id, identity))
  {
    assert id in t.days ==> LogAgrees(t, id);
    if Persisted(t, id) == 1 {
      NoReportsYet(t, id);
      assert forall r :: !OfDay(t, r, id);
    }
  }

  lemma ActIsConsistent(w: World, act: Act)
    requires Consistent(w) && Careful(w, act)
    ensures Consistent(Done(w, act))
  {
    match act
    case Load(h, id) => ReadTracks(w.tables, id);
    case Open(h, id, identity) => OpenedTracks(w.tables, id, identity);
    case Change(h, move) =>
      if h in w.held {
        ChangeTracks(w.tables, w.held[h], move);
      }
    case Save(h) => SaveIsConsistent(w, act);
  }

  /** Whatever the holders interleave, while every save is careful every day reads back. */
  lemma {:induction false} RunReads(w: World, acts: seq<Act>)
    requires Consistent(w) && AllCareful(w, acts)
    ensures Consistent(Run(w, acts))
    ensures forall id :: id in Run(w, acts).tables.days ==> Read(Run(w, acts).tables, id).Ok?
    decreases |acts|
  {
    if acts == [] {
      assert forall id :: id in w.tables.days ==> LogAgrees(w.tables, id);
    } else {
      ActIsConsistent(w, acts[0]);
      RunReads(Done(w, acts[0]), acts[1..]);
    }
  }

  // ---------- the caller: a report requested, started, and issued or failed ----------

  /** Each case is one transaction of printing a report; between them other flows may do anything. */
  datatype Flow =
    | Prepare(flow: Holder, id: DayId, identity: string, report: ReportId, reportIdentity: string, z: bool,
              event: F.EventId)
    | Replay(flow: Holder, requested: DayId)
    | Step(flow: Holder, move: Move)

  /** A domain call and the save of what it leaves; a refusal of either ends the flow. */
  function MovedAndSaved(w: World, h: Holder, d: Day, move: Move): World {
    var d' := Moved(d, move);
    var saved := Saved(w.tables, d');
    if d' == d || saved.Err? then w.(held := w.held - {h}) else World(saved.value, w.held[h := Memory(d', d'.version)])
  }

  function Flowed(w: World, f: Flow): World {
    match f
    case Prepare(h, id, identity, report, reportIdentity, z, event) =>
      var found := if id in w.tables.days then Read(w.tables, id) else Ok(Opened(id, identity).day);
      if found.Err? then w.(held := w.held - {h})
      else MovedAndSaved(w, h, found.value, Request(report, reportIdentity, z, event))
    case Replay(h, id) =>
      var found := Read(w.tables, id);
      if found.Err? then w.(held := w.held - {h}) else w.(held := w.held[h := Memory(found.value, found.value.version)])
    case Step(h, move) => if h in w.held then MovedAndSaved(w, h, w.held[h].day, move) else w
  }

  /** A step goes on with the day it moved and saved, or else writes nothing and ends its flow; no other is touched. */
  lemma StepIs(w: World, h: Holder, move: Move)
    requires h in w.held
    ensures
      var d', w' := Moved(w.held[h].day, move), Flowed(w, Step(h, move));
      var taken := d' != w.held[h].day && Saved(w.tables, d').Ok?;
      && (taken ==> Saved(w.tables, d') == Ok(w'.tables) && h in w'.held && w'.held[h] == Memory(d', d'.version))
      && (!taken ==> w'.tables == w.tables && h !in w'.held)
      && forall other :: other != h ==>
           (other in w'.held <==> other in w.held) && (other in w.held ==> w'.held[other] == w.held[other])
  {
  }

  function FlowRun(w: World, flows: seq<Flow>): World
    decreases |flows|
  {
    if flows == [] then w else FlowRun(Flowed(w, flows[0]), flows[1..])
  }

  /** Between transactions every memory is as it was last read or saved. */
  ghost predicate Settled(w: World) {
    Consistent(w) && forall h :: h in w.held ==> w.held[h].base == w.held[h].day.version
  }

  lemma MovedOnce(d: Day, move: Move)
    ensures Moved(d, move).version <= d.version + 1
  {
  }

  lemma HeldIsConsistent(w: World, h: Holder, m: Memory)
    requires Consistent(w) && Tracks(w.tables, m)
    ensures Consistent(w.(held := w.held[h := m]))
  {
  }

  lemma SavedIs(w: World, h: Holder, m: Memory)
    requires Saved(w.tables, m.day).Ok?
    ensures
      Done(w.(held := w.held[h := m]), Save(h))
        == World(Saved(w.tables, m.day).value, w.held[h := Memory(m.day, m.day.version)])
  {
    assert w.held[h := m][h := Memory(m.day, m.day.version)] == w.held[h := Memory(m.day, m.day.version)];
  }

  lemma SavedIsSettled(w: World, h: Holder, m: Memory)
    requires Settled(w) && Tracks(w.tables, m) && m.day.version <= m.base + 1 && Saved(w.tables, m.day).Ok?
    ensures Settled(World(Saved(w.tables, m.day).value, w.held[h := Memory(m.day, m.day.version)]))
  {
    HeldIsConsistent(w, h, m);
    SaveIsConsistent(w.(held := w.held[h := m]), Save(h));
    SavedIs(w, h, m);
  }

  lemma MovedAndSavedIsSettled(w: World, h: Holder, d: Day, move: Move)
    requires Settled(w) && Tracks(w.tables, Memory(d, d.version))
    ensures Settled(MovedAndSaved(w, h, d, move))
  {
    MovedOnce(d, move);
    ChangeTracks(w.tables, Memory(d, d.version), move);
    if Saved(w.tables, Moved(d, move)).Ok? {
      SavedIsSettled(w, h, Memory(Moved(d, move), d.version));
    }
  }

  lemma FlowedIsSettled(w: World, f: Flow)
    requires Settled(w)
    ensures Settled(Flowed(w, f))
  {
    match f
    case Prepare(h, id, identity, report, reportIdentity, z, event) =>
      ReadTracks(w.tables, id);
      OpenedTracks(w.tables, id, identity);
      var found := if id in w.tables.days then Read(w.tables, id) else Ok(Opened(id, identity).day);
      if found.Ok? {
        MovedAndSavedIsSettled(w, h, found.value, Request(report, reportIdentity, z, event));
      }
    case Replay(h, id) => ReadTracks(w.tables, id);
    case Step(h, move) =>
      if h in w.held {
        assert Tracks(w.tables, w.held[h]);
        MovedAndSavedIsSettled(w, h, w.held[h].day, move);
      }
  }

  /** However flows that print reports interleave their transactions, every day reads back. */
  lemma {:induction false} FlowsRead(w: World, flows: seq<Flow>)
    requires Settled(w)
    ensures Settled(FlowRun(w, flows))
    ensures forall id :: id in FlowRun(w, flows).tables.days ==> Read(FlowRun(w, flows).tables, id).Ok?
    decreases |flows|
  {
    if flows == [] {
      assert forall id :: id in w.tables.days ==> LogAgrees(w.tables, id);
    } else {
      FlowedIsSettled(w, flows[0]);
      FlowsRead(Flowed(w, flows[0]), flows[1..]);
    }
  }

  /** A flow whose day was saved by another since ends there, and writes nothing. */
  lemma LateFlowEnds(w: World, h: Holder, move: Move)
    requires Settled(w) && h in w.held && w.held[h].base != Persisted(w.tables, w.held[h].day.id)
    ensures Flowed(w, Step(h, move)) == w.(held := w.held - {h})
  {
    var d := w.held[h].day;
    assert Tracks(w.tables, w.held[h]);
    MovedOnce(d, move);
    assert d.id in w.tables.days && Moved(d, move).version <= w.tables.days[d.id].version;
  }

  // ---------- without care ----------

  /** Report 7 requested and nothing else. */
  const EARLIER := Tables(
    map[1 := DayRow("day", DayOpen, 2)],
    map[7 := ReportRow(1, "seven", false, F.Pending, "")],
    map[1 := [Entry(7, ASKED)]])

  const EARLY := Day(1, "day", DayOpen, 2, [Report(7, "seven", false, F.Pending, "", [ASKED])])

  const PRINTING := Day(1, "day", DayOpen, 3, [Report(7, "seven", false, F.Printing, "", [ASKED, STARTED])])

  const START_SEVEN := Advance(7, F.Printing, "", 71)
  const ASK_EIGHT := Request(8, "eight", false, 80)
  const START_EIGHT := Advance(8, F.Printing, "", 81)

  /** Two holders of what one read gave: one moves once and saves, the other moves twice before it saves. */
  const TWO_HOLDERS := World(EARLIER, map[0 := Memory(EARLY, 2), 1 := Memory(EARLY, 2)])
  const CARELESS := [Change(0, START_SEVEN), Save(0), Change(1, ASK_EIGHT), Change(1, START_EIGHT), Save(1)]

  lemma EarlierIsRead()
    ensures Sound(EARLIER) && Derived(EARLIER, EARLY) && Consistent(TWO_HOLDERS)
  {
    var log := LogOf(EARLIER, 1);
    FilterAll(log, (e: Entry) => e.report == 7);
    assert ReportDerived(EARLIER, EARLY, EARLY.reports[0]);
    assert EARLY.reports[0].id == 7;
    assert InMemory(EARLY, 7);
  }

  lemma FirstMoveIs()
    ensures Moved(EARLY, START_SEVEN) == PRINTING
  {
    var r := EARLY.reports[0];
    assert PlaceOf(EARLY.reports, 7) == 0;
    assert r.transitions + [STARTED] == [ASKED, STARTED];
    assert EARLY.reports[0 := PRINTING.reports[0]] == PRINTING.reports;
  }

  lemma TwoMovesAre()
    ensures Moved(Moved(EARLY, ASK_EIGHT), START_EIGHT) == BEHIND
  {
    var asked := Moved(EARLY, ASK_EIGHT);
    assert PlaceOf(EARLY.reports, 8) == 1;
    assert asked.reports == EARLY.reports + [Report(8, "eight", false, F.Pending, "", [ASKED_LATE])];
    assert asked.reports[1..] == [asked.reports[1]];
    assert PlaceOf(asked.reports, 8) == 1;
    assert [ASKED_LATE] + [STARTED_LATE] == [ASKED_LATE, STARTED_LATE];
    assert asked.reports[1 := BEHIND.reports[1]] == BEHIND.reports;
  }

  lemma PrintingInOrder()
    ensures InVersionOrder(PRINTING) == [Entry(7, ASKED), Entry(7, STARTED)]
  {
    var rows := [Entry(7, ASKED), Entry(7, STARTED)];
    assert Entries(PRINTING.reports[0]) == rows;
    assert PRINTING.reports[1..] == [];
    assert History(PRINTING.reports) == rows + History([]) == rows;
    SortedStays(rows, ByVersion);
  }

  lemma PrintingIsPending()
    ensures After(InVersionOrder(PRINTING), 2) == [Entry(7, STARTED)]
  {
    PrintingInOrder();
    var keep := (e: Entry) => e.step.version > 2;
    FilterNone([Entry(7, ASKED)], keep);
    FilterAll([Entry(7, STARTED)], keep);
    FilterOfSum([Entry(7, ASKED)], [Entry(7, STARTED)], keep);
    assert [Entry(7, ASKED)] + [Entry(7, STARTED)] == InVersionOrder(PRINTING);
  }

  lemma PrintingIsAccepted()
    ensures NewTransitions(PRINTING, 2) == Some([Entry(7, STARTED)])
    ensures EventIdsFree(EARLIER.log, [Entry(7, STARTED)])
    ensures forall i :: 0 <= i < |PRINTING.reports| ==> SameIdentity(EARLIER, PRINTING, PRINTING.reports[i])
  {
    PrintingInOrder();
    PrintingIsPending();
    assert ReportAgrees(PRINTING.reports[0]);
  }

  lemma PrintingIsStored()
    ensures Stored(EARLIER, PRINTING, [Entry(7, STARTED)]) == AHEAD
  {
    assert PRINTING.reports[..0] == [];
    assert ReportsSaved(EARLIER.reports, PRINTING, PRINTING.reports) == AHEAD.reports;
    assert LogOf(EARLIER, 1) + [Entry(7, STARTED)] == LogOf(AHEAD, 1);
  }

  lemma FirstSaveIs()
    ensures Saved(EARLIER, PRINTING) == Ok(AHEAD)
  {
    assert LogAgrees(EARLIER, 1) by {
      EarlierIsRead();
    }
    PrintingIsAccepted();
    PrintingIsStored();
    assert NoNewReportTwice(EARLIER.reports, PRINTING.reports);
  }

  lemma ChangeFirst(w: World, h: Holder, move: Move, rest: seq<Act>)
    requires h in w.held
    ensures
      var w' := w.(held := w.held[h := w.held[h].(day := Moved(w.held[h].day, move))]);
      && Run(w, [Change(h, move)] + rest) == Run(w', rest)
      && (AllCareful(w, [Change(h, move)] + rest) ==> AllCareful(w', rest))
  {
    assert ([Change(h, move)] + rest)[1..] == rest;
  }

  lemma SaveFirst(w: World, h: Holder, rest: seq<Act>)
    requires h in w.held && Saved(w.tables, w.held[h].day).Ok?
    ensures
      var d := w.held[h].day;
      var w' := World(Saved(w.tables, d).value, w.held[h := Memory(d, d.version)]);
      && Run(w, [Save(h)] + rest) == Run(w', rest)
      && (AllCareful(w, [Save(h)] + rest) ==> Careful(w, Save(h)) && AllCareful(w', rest))
  {
    assert ([Save(h)] + rest)[1..] == rest;
  }

  lemma MovedTwiceAndSaved(w: World, d: Day, d2: Day, d3: Day)
    requires 1 in w.held && w.held[1] == Memory(d, d.version)
    requires Moved(d, ASK_EIGHT) == d2 && Moved(d2, START_EIGHT) == d3 && Saved(w.tables, d3).Ok?
    ensures Run(w, CARELESS[2..]).tables == Saved(w.tables, d3).value
    ensures AllCareful(w, CARELESS[2..]) ==> Persisted(w.tables, d3.id) == d.version || d3.version <= d.version + 1
  {
    ChangeFirst(w, 1, ASK_EIGHT, CARELESS[3..]);
    var w' := w.(held := w.held[1 := Memory(d2, d.version)]);
    ChangeFirst(w', 1, START_EIGHT, CARELESS[4..]);
    SaveFirst(w'.(held := w'.held[1 := Memory(d3, d.version)]), 1, []);
    assert CARELESS[2..] == [Change(1, ASK_EIGHT)] + CARELESS[3..];
    assert CARELESS[3..] == [Change(1, START_EIGHT)] + CARELESS[4..];
    assert CARELESS[4..] == [Save(1)] + [];
  }

  /** One holder moves once and saves; the other moves twice before it does. */
  lemma TwoHoldersRun(t: Tables, d: Day, d1: Day, t1: Tables, d2: Day, d3: Day)
    requires Moved(d, START_SEVEN) == d1 && Saved(t, d1) == Ok(t1)
    requires Moved(d, ASK_EIGHT) == d2 && Moved(d2, START_EIGHT) == d3 && Saved(t1, d3).Ok?
    ensures
      var w := World(t, map[0 := Memory(d, d.version), 1 := Memory(d, d.version)]);
      && Run(w, CARELESS).tables == Saved(t1, d3).value
      && (AllCareful(w, CARELESS) ==> Persisted(t1, d3.id) == d.version || d3.version <= d.version + 1)
  {
    var w0 := World(t, map[0 := Memory(d, d.version), 1 := Memory(d, d.version)]);
    ChangeFirst(w0, 0, START_SEVEN, CARELESS[1..]);
    var w1 := w0.(held := w0.held[0 := Memory(d1, d.version)]);
    SaveFirst(w1, 0, CARELESS[2..]);
    MovedTwiceAndSaved(World(t1, w1.held[0 := Memory(d1, d1.version)]), d, d2, d3);
    assert CARELESS == [Change(0, START_SEVEN)] + CARELESS[1..];
    assert CARELESS[1..] == [Save(0)] + CARELESS[2..];
  }

  /** A save two transitions past a base that no longer stands can be accepted, and then its day does not read. */
  lemma CarelessRunBreaks()
    ensures Consistent(TWO_HOLDERS) && !AllCareful(TWO_HOLDERS, CARELESS)
    ensures Read(Run(TWO_HOLDERS, CARELESS).tables, 1) == Err(SequenceInvalid)
  {
    EarlierIsRead();
    FirstMoveIs();
    TwoMovesAre();
    FirstSaveIs();
    StaleMemoryBreaksTheDay();
    TwoHoldersRun(EARLIER, EARLY, PRINTING, AHEAD, Moved(EARLY, ASK_EIGHT), BEHIND);
    assert Persisted(AHEAD, 1) == 3;
  }
}
