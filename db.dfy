/**
 * The scraper's writes to the store: golden slots are upserted and retired, each office keeps
 * one "current closest" future row whose date only moves earlier, and scrape runs are opened
 * and completed. Each operation is a pure function on the appointments table (the
 * specification) and a method on the `Store` that performs it in place.
 */
module Db {
  import opened Wrappers
  import opened Clock
  import opened Tables
  import opened Query

  /** A table after a write, with the boolean the operation reports. */
  datatype Written = Written(rows: seq<Appointment>, flag: bool)

  // ---------------------------------------------------------------------------------------
  // Golden slots
  // ---------------------------------------------------------------------------------------

  /** The golden row for (office, date, time), as `.eq(...)` x4 selects it. */
  predicate IsGoldenRowOf(r: Appointment, office: string, date: int, time: Time) {
    r.office == office && r.date == date && r.time == Some(time) && r.slotType == Golden
  }

  function GoldenMatch(rows: seq<Appointment>, office: string, date: int, time: Time): (r: Option<nat>)
    ensures r.Some? ==> r.value < |rows| && IsGoldenRowOf(rows[r.value], office, date, time)
    ensures r.Some? ==> forall j | 0 <= j < r.value :: !IsGoldenRowOf(rows[j], office, date, time)
    ensures r.None? ==> forall j | 0 <= j < |rows| :: !IsGoldenRowOf(rows[j], office, date, time)
  {
    FirstIndex(rows, (r: Appointment) => IsGoldenRowOf(r, office, date, time))
  }

  function NewGoldenRow(id: nat, office: string, date: int, time: Time, now: int): Appointment {
    Appointment(id, office, LicenseType, date, Some(time), Golden, true, false, true, now, now,
      BookUrl, None, None, None)
  }

  /** `update({last_seen_at: now, available: true})`. */
  function Seen(r: Appointment, now: int): Appointment {
    r.(lastSeenAt := now, available := true)
  }

  /** `upsert_golden_slot`: refresh the first matching row or insert one; report new or reappeared. */
  function UpsertGolden(rows: seq<Appointment>, office: string, date: int, time: Time, now: int): Written {
    match GoldenMatch(rows, office, date, time)
    case None => Written(rows + [NewGoldenRow(|rows|, office, date, time, now)], true)
    case Some(i) => Written(rows[i := Seen(rows[i], now)], !rows[i].available)
  }

  /** An unseen key inserts exactly one fresh golden row and reports it as new. */
  lemma UpsertGoldenUnseen(rows: seq<Appointment>, office: string, date: int, time: Time, now: int)
    requires forall j | 0 <= j < |rows| :: !IsGoldenRowOf(rows[j], office, date, time)
    ensures var w := UpsertGolden(rows, office, date, time, now);
      && w.flag
      && w.rows[..|rows|] == rows && |w.rows| == |rows| + 1
      && var r := w.rows[|rows|];
      && r.office == office && r.date == date && r.time == Some(time)
      && r.slotType == Golden && r.isGolden && r.available && !r.isCurrentClosest
      && r.firstSeenAt == now && r.lastSeenAt == now
  {
  }

  /**
   * A known key inserts nothing and touches only `last_seen_at` and `available` of the first
   * matching row; it reports true exactly when that row had been marked gone.
   */
  lemma UpsertGoldenSeen(rows: seq<Appointment>, office: string, date: int, time: Time, now: int, i: nat)
    requires i < |rows| && IsGoldenRowOf(rows[i], office, date, time)
    requires forall j | 0 <= j < i :: !IsGoldenRowOf(rows[j], office, date, time)
    ensures var w := UpsertGolden(rows, office, date, time, now);
      && |w.rows| == |rows|
      && (forall j | 0 <= j < |rows| && j != i :: w.rows[j] == rows[j])
      && w.rows[i] == rows[i].(lastSeenAt := now, available := true)
      && w.flag == !rows[i].available
  {
    assert GoldenMatch(rows, office, date, time) == Some(i);
  }

  /** After an upsert the key's first matching row exists and is available. */
  lemma {:induction false} UpsertGoldenLeavesAvailable(rows: seq<Appointment>, office: string, date: int, time: Time, now: int)
    ensures var w := UpsertGolden(rows, office, date, time, now);
      && GoldenMatch(w.rows, office, date, time).Some?
      && w.rows[GoldenMatch(w.rows, office, date, time).value].available
  {
    var w := UpsertGolden(rows, office, date, time, now);
    match GoldenMatch(rows, office, date, time)
    case None =>
      var m := GoldenMatch(w.rows, office, date, time);
      assert IsGoldenRowOf(w.rows[|rows|], office, date, time);
      assert m == Some(|rows|);
    case Some(i) =>
      var m := GoldenMatch(w.rows, office, date, time);
      assert IsGoldenRowOf(w.rows[i], office, date, time);
      assert m == Some(i);
  }

  /** Upserting the same key twice in a row: the second call does not report a new slot. */
  lemma UpsertGoldenTwice(rows: seq<Appointment>, office: string, date: int, time: Time, now1: int, now2: int)
    ensures !UpsertGolden(UpsertGolden(rows, office, date, time, now1).rows, office, date, time, now2).flag
  {
    UpsertGoldenLeavesAvailable(rows, office, date, time, now1);
  }

  /** Rows not holding the upserted key are unchanged, and rows added hold it. */
  lemma UpsertGoldenFrame(rows: seq<Appointment>, office: string, date: int, time: Time, now: int)
    ensures var w := UpsertGolden(rows, office, date, time, now);
      && |rows| <= |w.rows| <= |rows| + 1
      && (forall j | 0 <= j < |rows| && !IsGoldenRowOf(rows[j], office, date, time) :: w.rows[j] == rows[j])
      && (forall j | 0 <= j < |rows| :: KeyOf(w.rows[j]) == KeyOf(rows[j])
            && w.rows[j].office == rows[j].office && w.rows[j].slotType == rows[j].slotType
            && w.rows[j].isCurrentClosest == rows[j].isCurrentClosest && w.rows[j].id == rows[j].id
            && (rows[j].available ==> w.rows[j].available))
      && (forall j | |rows| <= j < |w.rows| :: IsGoldenRowOf(w.rows[j], office, date, time)
            && w.rows[j].available && !w.rows[j].isCurrentClosest && w.rows[j].id == j)
  {
  }

  /** Tables that agree on which rows hold a golden key find the same first row for it. */
  lemma GoldenMatchAgree(rows: seq<Appointment>, w: seq<Appointment>, office: string, date: int, time: Time)
    requires |rows| <= |w|
    requires forall j | 0 <= j < |rows| :: IsGoldenRowOf(w[j], office, date, time) == IsGoldenRowOf(rows[j], office, date, time)
    requires forall j | |rows| <= j < |w| :: !IsGoldenRowOf(w[j], office, date, time)
    ensures GoldenMatch(w, office, date, time) == GoldenMatch(rows, office, date, time)
  {
  }

  /** Upserting one key leaves the first row of every other key where and as it was. */
  lemma UpsertGoldenOther(rows: seq<Appointment>, office: string, date: int, time: Time, now: int,
                          office2: string, date2: int, time2: Time)
    requires (office, date, time) != (office2, date2, time2)
    ensures var w := UpsertGolden(rows, office, date, time, now);
      var m := GoldenMatch(rows, office2, date2, time2);
      && GoldenMatch(w.rows, office2, date2, time2) == m
      && (m.Some? ==> w.rows[m.value] == rows[m.value])
  {
    UpsertGoldenFrame(rows, office, date, time, now);
    var w := UpsertGolden(rows, office, date, time, now);
    GoldenMatchAgree(rows, w.rows, office2, date2, time2);
  }

  lemma UpsertGoldenValid(rows: seq<Appointment>, office: string, date: int, time: Time, now: int)
    requires ValidAppointments(rows)
    ensures ValidAppointments(UpsertGolden(rows, office, date, time, now).rows)
  {
    UpsertGoldenFrame(rows, office, date, time, now);
    var w := UpsertGolden(rows, office, date, time, now);
    forall i, j | 0 <= i < |w.rows| && 0 <= j < |w.rows| && IsClosestOf(w.rows[i], w.rows[j].office)
      && IsClosestOf(w.rows[j], w.rows[j].office)
      ensures i == j
    {
      assert IsClosestOf(rows[i], rows[j].office) && IsClosestOf(rows[j], rows[j].office);
    }
  }

  method UpsertGoldenSlot(db: Store, office: string, date: int, time: Time, now: int) returns (isNew: bool)
    requires db.Valid()
    modifies db`appointments
    ensures db.Valid()
    ensures Written(db.appointments, isNew) == UpsertGolden(old(db.appointments), office, date, time, now)
  {
    UpsertGoldenValid(db.appointments, office, date, time, now);
    var existing := GoldenMatch(db.appointments, office, date, time);
    if existing.Some? {
      var row := db.appointments[existing.value];
      db.appointments := db.appointments[row.id := Seen(row, now)];
      isNew := !row.available;
    } else {
      db.appointments := db.appointments + [NewGoldenRow(|db.appointments|, office, date, time, now)];
      isNew := true;
    }
  }

  // ---------------------------------------------------------------------------------------
  // The current-closest future row
  // ---------------------------------------------------------------------------------------

  function ClosestMatch(rows: seq<Appointment>, office: string): (r: Option<nat>)
    ensures r.Some? ==> r.value < |rows| && IsClosestOf(rows[r.value], office)
    ensures r.Some? ==> forall j | 0 <= j < r.value :: !IsClosestOf(rows[j], office)
    ensures r.None? ==> forall j | 0 <= j < |rows| :: !IsClosestOf(rows[j], office)
  {
    FirstIndex(rows, (r: Appointment) => IsClosestOf(r, office))
  }

  /** The office's current-closest future date, if it has one. */
  function ClosestDate(rows: seq<Appointment>, office: string): Option<int> {
    match ClosestMatch(rows, office)
    case None => None
    case Some(i) => Some(rows[i].date)
  }

  function NewFutureRow(id: nat, office: string, date: int, now: int): Appointment {
    Appointment(id, office, LicenseType, date, None, Future, false, true, true, now, now,
      BookUrl, None, None, None)
  }

  /** The old closest row once a closer date replaces it. */
  function Retired(r: Appointment, newDate: int, now: int): Appointment {
    r.(isCurrentClosest := false, replacedAt := Some(now), replacedByDate := Some(newDate), available := false)
  }

  /** `upsert_future_slot`; the flag says whether a new current-closest row was created. */
  function UpsertFuture(rows: seq<Appointment>, office: string, closest: int, now: int): Written {
    match ClosestMatch(rows, office)
    case None => Written(rows + [NewFutureRow(|rows|, office, closest, now)], true)
    case Some(i) =>
      if rows[i].date == closest then Written(rows[i := Seen(rows[i], now)], false)
      else if closest < rows[i].date then
        Written(rows[i := Retired(rows[i], closest, now)] + [NewFutureRow(|rows|, office, closest, now)], true)
      else Written(rows[i := Seen(rows[i], now)], false)
  }

  function MinDate(a: int, b: int): int {
    if a <= b then a else b
  }

  /** With one closest row per office, the office's unique closest row is the one found. */
  lemma ClosestIsUnique(rows: seq<Appointment>, office: string, i: nat)
    requires OneClosestPerOffice(rows) && i < |rows| && IsClosestOf(rows[i], office)
    ensures ClosestMatch(rows, office) == Some(i)
    ensures forall j | 0 <= j < |rows| && j != i :: !IsClosestOf(rows[j], office)
  {
    forall j | 0 <= j < |rows| && IsClosestOf(rows[j], office) ensures j == i {
      assert IsClosestOf(rows[i], rows[j].office);
    }
  }

  /** Agreement of two tables on which rows are an office's closest gives the same closest row. */
  lemma ClosestMatchAgree(rows: seq<Appointment>, w: seq<Appointment>, o: string)
    requires |rows| <= |w|
    requires forall j | 0 <= j < |rows| :: IsClosestOf(w[j], o) == IsClosestOf(rows[j], o)
    requires forall j | |rows| <= j < |w| :: !IsClosestOf(w[j], o)
    ensures ClosestMatch(w, o) == ClosestMatch(rows, o)
  {
  }

  /**
   * A write that keeps other offices' rows, appends only rows of `office`, and leaves row `k`
   * as the office's single closest row keeps the table valid and other offices' closest rows.
   */
  lemma ClosestAfterWrite(rows: seq<Appointment>, w: seq<Appointment>, office: string, k: nat)
    requires ValidAppointments(rows)
    requires |rows| <= |w| && k < |w| && IsClosestOf(w[k], office)
    requires forall j | 0 <= j < |rows| :: w[j].office == rows[j].office && w[j].id == rows[j].id
    requires forall j | 0 <= j < |rows| && rows[j].office != office :: w[j] == rows[j]
    requires forall j | |rows| <= j < |w| :: w[j].id == j && w[j].office == office
    requires forall j | 0 <= j < |w| && j != k :: !IsClosestOf(w[j], office)
    ensures ValidAppointments(w)
    ensures ClosestMatch(w, office) == Some(k)
    ensures forall o | o != office :: ClosestDate(w, o) == ClosestDate(rows, o)
  {
    forall i, j | 0 <= i < |w| && 0 <= j < |w| && IsClosestOf(w[i], w[j].office) && IsClosestOf(w[j], w[j].office)
      ensures i == j
    {
      if w[j].office != office {
        assert IsClosestOf(rows[i], rows[j].office) && IsClosestOf(rows[j], rows[j].office);
      }
    }
    ClosestIsUnique(w, office, k);
    forall o | o != office ensures ClosestDate(w, o) == ClosestDate(rows, o) {
      ClosestMatchAgree(rows, w, o);
    }
  }

  /**
   * The three behaviours of `upsert_future_slot`: same date refreshes, an earlier date
   * replaces, a later date keeps the old row. Either way the office still has exactly one
   * closest row, its date is the earlier of the old one and the new one, it is available,
   * and a row was created exactly when there was none or the new date is earlier.
   */
  lemma UpsertFutureEffect(rows: seq<Appointment>, office: string, closest: int, now: int)
    requires ValidAppointments(rows)
    ensures var w := UpsertFuture(rows, office, closest, now);
      && ValidAppointments(w.rows)
      && ClosestDate(w.rows, office) == Some(match ClosestDate(rows, office)
                                             case None => closest
                                             case Some(d) => MinDate(d, closest))
      && w.rows[ClosestMatch(w.rows, office).value].available
      && w.flag == (ClosestDate(rows, office).None? || closest < ClosestDate(rows, office).value)
      && forall o | o != office :: ClosestDate(w.rows, o) == ClosestDate(rows, o)
  {
    var w := UpsertFuture(rows, office, closest, now);
    var m := ClosestMatch(rows, office);
    var k: nat;
    if m.None? {
      k := |rows|;
    } else {
      ClosestIsUnique(rows, office, m.value);
      k := if closest < rows[m.value].date then |rows| else m.value;
    }
    ClosestAfterWrite(rows, w.rows, office, k);
  }

  /** The office's closest future date never moves later. */
  lemma UpsertFutureNeverLater(rows: seq<Appointment>, office: string, closest: int, now: int)
    requires ValidAppointments(rows) && ClosestDate(rows, office).Some?
    ensures var d := ClosestDate(UpsertFuture(rows, office, closest, now).rows, office);
      d.Some? && d.value <= ClosestDate(rows, office).value
  {
    UpsertFutureEffect(rows, office, closest, now);
  }

  method UpsertFutureSlot(db: Store, office: string, closest: int, now: int) returns (created: bool)
    requires db.Valid()
    modifies db`appointments
    ensures db.Valid()
    ensures Written(db.appointments, created) == UpsertFuture(old(db.appointments), office, closest, now)
  {
    UpsertFutureEffect(db.appointments, office, closest, now);
    var existing := ClosestMatch(db.appointments, office);
    if existing.Some? {
      var row := db.appointments[existing.value];
      if row.date == closest {
        db.appointments := db.appointments[row.id := Seen(row, now)];
        return false;
      } else if closest < row.date {
        db.appointments := db.appointments[row.id := Retired(row, closest, now)];
      } else {
        db.appointments := db.appointments[row.id := Seen(row, now)];
        return false;
      }
    }
    db.appointments := db.appointments + [NewFutureRow(|db.appointments|, office, closest, now)];
    created := true;
  }

  // ---------------------------------------------------------------------------------------
  // Retiring rows, and the office check stamp
  // ---------------------------------------------------------------------------------------

  /** An available golden row of the office whose (date, time) was not scraped this time. */
  predicate GoneGolden(r: Appointment, office: string, still: set<SlotKey>) {
    r.office == office && r.slotType == Golden && r.available && KeyOf(r) !in still
  }

  function MarkGoldenGoneRows(rows: seq<Appointment>, office: string, still: set<SlotKey>, now: int): seq<Appointment> {
    seq(|rows|, i requires 0 <= i < |rows| =>
      if GoneGolden(rows[i], office, still) then rows[i].(available := false, lastSeenAt := now) else rows[i])
  }

  /**
   * Exactly the office's available golden rows missing from `still` become unavailable;
   * afterwards every available golden row of the office is one of `still`.
   */
  lemma MarkGoldenGoneEffect(rows: seq<Appointment>, office: string, still: set<SlotKey>, now: int)
    ensures var r := MarkGoldenGoneRows(rows, office, still, now);
      && |r| == |rows|
      && (forall i | 0 <= i < |rows| :: r[i].available == (rows[i].available && !GoneGolden(rows[i], office, still)))
      && (forall i | 0 <= i < |rows| && !GoneGolden(rows[i], office, still) :: r[i] == rows[i])
      && (forall i | 0 <= i < |rows| :: r[i] == rows[i].(available := r[i].available, lastSeenAt := r[i].lastSeenAt))
      && (forall i | 0 <= i < |r| && r[i].office == office && r[i].slotType == Golden && r[i].available
            :: KeyOf(r[i]) in still)
  {
  }

  lemma MarkGoldenGoneValid(rows: seq<Appointment>, office: string, still: set<SlotKey>, now: int)
    requires ValidAppointments(rows)
    ensures ValidAppointments(MarkGoldenGoneRows(rows, office, still, now))
  {
    var r := MarkGoldenGoneRows(rows, office, still, now);
    forall a, b | 0 <= a < |r| && 0 <= b < |r| && IsClosestOf(r[a], r[b].office) && IsClosestOf(r[b], r[b].office)
      ensures a == b
    {
      assert IsClosestOf(rows[a], rows[b].office) && IsClosestOf(rows[b], rows[b].office);
    }
  }

  /** `mark_golden_gone`: walk the office's available golden rows and retire the unlisted ones. */
  method MarkGoldenGone(db: Store, office: string, still: set<SlotKey>, now: int)
    requires db.Valid()
    modifies db`appointments
    ensures db.Valid()
    ensures db.appointments == MarkGoldenGoneRows(old(db.appointments), office, still, now)
  {
    ghost var before := db.appointments;
    var i := 0;
    while i < |db.appointments|
      invariant 0 <= i <= |db.appointments| == |before|
      invariant forall j | 0 <= j < i :: db.appointments[j] == MarkGoldenGoneRows(before, office, still, now)[j]
      invariant forall j | i <= j < |before| :: db.appointments[j] == before[j]
    {
      var row := db.appointments[i];
      if row.office == office && row.slotType == Golden && row.available && KeyOf(row) !in still {
        db.appointments := db.appointments[i := row.(available := false, lastSeenAt := now)];
      }
      i := i + 1;
    }
    assert db.appointments == MarkGoldenGoneRows(before, office, still, now);
    MarkGoldenGoneValid(before, office, still, now);
  }

  function MarkFutureGoneRows(rows: seq<Appointment>, office: string): seq<Appointment> {
    seq(|rows|, i requires 0 <= i < |rows| =>
      if IsClosestOf(rows[i], office) then rows[i].(available := false, isCurrentClosest := false) else rows[i])
  }

  /** Afterwards the office has no closest row; other offices keep theirs; other rows are unchanged. */
  lemma MarkFutureGoneEffect(rows: seq<Appointment>, office: string)
    requires ValidAppointments(rows)
    ensures var r := MarkFutureGoneRows(rows, office);
      && ValidAppointments(r)
      && ClosestDate(r, office).None?
      && (forall i | 0 <= i < |rows| && !IsClosestOf(rows[i], office) :: r[i] == rows[i])
      && (forall i | 0 <= i < |rows| && IsClosestOf(rows[i], office) :: !r[i].available)
      && forall o | o != office :: ClosestDate(r, o) == ClosestDate(rows, o)
  {
    var r := MarkFutureGoneRows(rows, office);
    assert OneClosestPerOffice(r) by {
      forall a, b | 0 <= a < |r| && 0 <= b < |r| && IsClosestOf(r[a], r[b].office) && IsClosestOf(r[b], r[b].office)
        ensures a == b
      {
        assert IsClosestOf(rows[a], rows[b].office) && IsClosestOf(rows[b], rows[b].office);
      }
    }
    forall o | o != office ensures ClosestDate(r, o) == ClosestDate(rows, o) {
      assert forall j | 0 <= j < |rows| :: IsClosestOf(r[j], o) == IsClosestOf(rows[j], o);
      ClosestMatchAgree(rows, r, o);
    }
  }

  /** `mark_future_gone`: one update over the office's current-closest future rows. */
  method MarkFutureGone(db: Store, office: string)
    requires db.Valid()
    modifies db`appointments
    ensures db.Valid()
    ensures db.appointments == MarkFutureGoneRows(old(db.appointments), office)
  {
    MarkFutureGoneEffect(db.appointments, office);
    db.appointments := MarkFutureGoneRows(db.appointments, office);
  }

  function MarkOfficeCheckedRows(rows: seq<Appointment>, office: string, now: int): seq<Appointment> {
    seq(|rows|, i requires 0 <= i < |rows| =>
      if rows[i].office == office then rows[i].(lastCheckedAt := Some(now)) else rows[i])
  }

  /** Only the office's rows change, and only in `last_checked_at`. */
  lemma MarkOfficeCheckedEffect(rows: seq<Appointment>, office: string, now: int)
    requires ValidAppointments(rows)
    ensures var r := MarkOfficeCheckedRows(rows, office, now);
      && ValidAppointments(r)
      && |r| == |rows|
      && (forall i | 0 <= i < |rows| && rows[i].office != office :: r[i] == rows[i])
      && (forall i | 0 <= i < |rows| && rows[i].office == office :: r[i] == rows[i].(lastCheckedAt := Some(now)))
  {
    var r := MarkOfficeCheckedRows(rows, office, now);
    assert OneClosestPerOffice(r) by {
      forall a, b | 0 <= a < |r| && 0 <= b < |r| && IsClosestOf(r[a], r[b].office) && IsClosestOf(r[b], r[b].office)
        ensures a == b
      {
        assert IsClosestOf(rows[a], rows[b].office) && IsClosestOf(rows[b], rows[b].office);
      }
    }
  }

  /** `mark_office_checked`: stamp every row of the office. */
  method MarkOfficeChecked(db: Store, office: string, now: int)
    requires db.Valid()
    modifies db`appointments
    ensures db.Valid()
    ensures db.appointments == MarkOfficeCheckedRows(old(db.appointments), office, now)
  {
    MarkOfficeCheckedEffect(db.appointments, office, now);
    db.appointments := MarkOfficeCheckedRows(db.appointments, office, now);
  }

  // ---------------------------------------------------------------------------------------
  // Scrape runs and subscribers
  // ---------------------------------------------------------------------------------------

  /** `start_scrape_run`: insert a run holding only its start time; return its id. */
  method StartScrapeRun(db: Store, now: int) returns (runId: nat)
    requires db.Valid()
    modifies db`scrapeRuns
    ensures db.Valid()
    ensures runId == |old(db.scrapeRuns)|
    ensures db.scrapeRuns == old(db.scrapeRuns) + [ScrapeRun(runId, now, None, 0, 0, 0, [])]
  {
    runId := |db.scrapeRuns|;
    db.scrapeRuns := db.scrapeRuns + [ScrapeRun(runId, now, None, 0, 0, 0, [])];
  }

  function FinishRunRows(runs: seq<ScrapeRun>, runId: nat, offices: nat, golden: nat, future: nat,
                         errors: seq<RunError>, now: int): seq<ScrapeRun> {
    seq(|runs|, i requires 0 <= i < |runs| =>
      if runs[i].id == runId
      then runs[i].(completedAt := Some(now), officesScraped := offices, goldenSlotsFound := golden,
                    futureSlotsFound := future, errors := errors)
      else runs[i])
  }

  /** Finishing the run just started completes that run and no other. */
  lemma FinishLatestRun(runs: seq<ScrapeRun>, runAt: int, offices: nat, golden: nat, future: nat,
                        errors: seq<RunError>, now: int)
    requires RunIdsArePositions(runs)
    ensures var started := runs + [ScrapeRun(|runs|, runAt, None, 0, 0, 0, [])];
      FinishRunRows(started, |runs|, offices, golden, future, errors, now)
        == runs + [ScrapeRun(|runs|, runAt, Some(now), offices, golden, future, errors)]
  {
  }

  /** `finish_scrape_run`: complete the run with that id; an unknown id updates nothing. */
  method FinishScrapeRun(db: Store, runId: nat, offices: nat, golden: nat, future: nat,
                         errors: seq<RunError>, now: int)
    requires db.Valid()
    modifies db`scrapeRuns
    ensures db.Valid()
    ensures db.scrapeRuns == FinishRunRows(old(db.scrapeRuns), runId, offices, golden, future, errors, now)
    ensures runId < |db.scrapeRuns| ==>
      db.scrapeRuns[runId] == ScrapeRun(runId, old(db.scrapeRuns)[runId].runAt, Some(now), offices, golden, future, errors)
    ensures runId >= |db.scrapeRuns| ==> db.scrapeRuns == old(db.scrapeRuns)
  {
    db.scrapeRuns := FinishRunRows(db.scrapeRuns, runId, offices, golden, future, errors, now);
  }

  /** A subscriber wants alerts for `office` when its office list is missing, empty or names it. */
  predicate WantsOffice(s: Subscriber, office: string) {
    s.offices.None? || s.offices.value == [] || office in s.offices.value
  }

  /** Emails of the active subscribers who want `office`, in row order. */
  function ActiveEmails(subs: seq<Subscriber>, office: string): seq<string>
    decreases |subs|
  {
    if subs == [] then []
    else
      var last := subs[|subs| - 1];
      ActiveEmails(subs[..|subs| - 1], office) + (if last.active && WantsOffice(last, office) then [last.email] else [])
  }

  /** An email is returned exactly when an active subscriber wanting the office holds it. */
  lemma {:induction false} ActiveEmailsMembers(subs: seq<Subscriber>, office: string, e: string)
    ensures e in ActiveEmails(subs, office)
      <==> exists i | 0 <= i < |subs| :: subs[i].email == e && subs[i].active && WantsOffice(subs[i], office)
    decreases |subs|
  {
    if subs != [] {
      var init := subs[..|subs| - 1];
      ActiveEmailsMembers(init, office, e);
      if exists i | 0 <= i < |subs| :: subs[i].email == e && subs[i].active && WantsOffice(subs[i], office) {
        var i :| 0 <= i < |subs| && subs[i].email == e && subs[i].active && WantsOffice(subs[i], office);
        if i < |subs| - 1 { assert init[i] == subs[i]; }
      }
    }
  }

  /** `get_active_subscribers`: read the active rows and keep those that want the office. */
  method GetActiveSubscribers(db: Store, office: string) returns (emails: seq<string>)
    ensures emails == ActiveEmails(db.subscribers, office)
  {
    var rows := db.subscribers;
    emails := [];
    var i := 0;
    while i < |rows|
      invariant 0 <= i <= |rows|
      invariant emails == ActiveEmails(rows[..i], office)
    {
      var row := rows[i];
      if row.active && (row.offices.None? || row.offices.value == [] || office in row.offices.value) {
        emails := emails + [row.email];
      }
      assert rows[..i + 1][..i] == rows[..i];
      i := i + 1;
    }
    assert rows[..|rows|] == rows;
  }
}
