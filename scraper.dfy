/**
 * One scrape of one office (the slot-classification block of `scrape_office`) and a whole
 * run over the thirteen offices (`main`). Each scraped slot is golden when it is fewer than
 * eight days away and future otherwise; golden slots are upserted one by one, golden rows
 * that were not seen are retired, and the earliest future date becomes the office's
 * current-closest row.
 */
module Scraper {
  import opened Wrappers
  import opened Clock
  import opened Tables
  import opened Db
  import opened SlotParse

  const GoldenThresholdDays: int := 8

  /** `is_golden`: fewer than eight calendar days away, which includes dates already past. */
  predicate IsGolden(date: int, today: int) {
    DaysUntil(date, today) < GoldenThresholdDays
  }

  /** A week out is golden, eight days out is not, and today and the past are golden. */
  lemma IsGoldenBoundary(today: int)
    ensures IsGolden(today + 7, today) && !IsGolden(today + 8, today)
    ensures IsGolden(today, today) && IsGolden(today - 1, today)
    ensures forall d :: IsGolden(d, today) <==> d <= today + 7
  {
  }

  /** The (ISO date, time) pair `still_available_golden` collects, as a key of the store. */
  function KeyOfSlot(s: Slot): SlotKey {
    SlotKey(s.date, Some(s.time))
  }

  // ---------------------------------------------------------------------------------------
  // Reference definitions: what a scrape's slots split into.
  // ---------------------------------------------------------------------------------------

  function GoldenSlots(slots: seq<Slot>, today: int): (r: seq<Slot>)
    ensures |r| <= |slots|
    ensures forall s :: s in r <==> s in slots && IsGolden(s.date, today)
    decreases |slots|
  {
    if slots == [] then []
    else
      var init := slots[..|slots| - 1];
      assert slots == init + [slots[|slots| - 1]];
      GoldenSlots(init, today) + (if IsGolden(slots[|slots| - 1].date, today) then [slots[|slots| - 1]] else [])
  }

  function FutureSlots(slots: seq<Slot>, today: int): (r: seq<Slot>)
    ensures |r| <= |slots|
    ensures forall s :: s in r <==> s in slots && !IsGolden(s.date, today)
    decreases |slots|
  {
    if slots == [] then []
    else
      var init := slots[..|slots| - 1];
      assert slots == init + [slots[|slots| - 1]];
      FutureSlots(init, today) + (if IsGolden(slots[|slots| - 1].date, today) then [] else [slots[|slots| - 1]])
  }

  /** Every slot is golden or future, never both. */
  lemma {:induction false} SplitCounts(slots: seq<Slot>, today: int)
    ensures |GoldenSlots(slots, today)| + |FutureSlots(slots, today)| == |slots|
    decreases |slots|
  {
    if slots != [] {
      SplitCounts(slots[..|slots| - 1], today);
    }
  }

  function Dates(slots: seq<Slot>): (r: seq<int>)
    ensures |r| == |slots| && forall i | 0 <= i < |slots| :: r[i] == slots[i].date
  {
    seq(|slots|, i requires 0 <= i < |slots| => slots[i].date)
  }

  function GoldenKeys(slots: seq<Slot>, today: int): set<SlotKey> {
    set s | s in slots && IsGolden(s.date, today) :: KeyOfSlot(s)
  }

  /** `min(future_dates)`. */
  function Earliest(dates: seq<int>): (r: int)
    requires dates != []
    ensures r in dates && forall d | d in dates :: r <= d
    decreases |dates|
  {
    if |dates| == 1 then dates[0]
    else
      var rest := Earliest(dates[1..]);
      assert forall d | d in dates :: d == dates[0] || d in dates[1..];
      if dates[0] <= rest then dates[0] else rest
  }

  /** Whether the upsert of `s` against `rows` reports it: no row yet, or its first row is gone. */
  predicate Fresh(rows: seq<Appointment>, office: string, s: Slot) {
    match GoldenMatch(rows, office, s.date, s.time)
    case None => true
    case Some(i) => !rows[i].available
  }

  /** The golden slots, in scrape order, that were unknown or gone in `rows`. */
  function FreshGolden(rows: seq<Appointment>, office: string, slots: seq<Slot>, today: int): seq<Slot>
    decreases |slots|
  {
    if slots == [] then []
    else
      var s := slots[|slots| - 1];
      FreshGolden(rows, office, slots[..|slots| - 1], today)
        + (if IsGolden(s.date, today) && Fresh(rows, office, s) then [s] else [])
  }

  /** No two golden slots of the scrape share a (date, time). */
  predicate DistinctGoldenKeys(slots: seq<Slot>, today: int) {
    forall i, j | 0 <= i < j < |slots| && IsGolden(slots[i].date, today) && IsGolden(slots[j].date, today)
      :: KeyOfSlot(slots[i]) != KeyOfSlot(slots[j])
  }

  // ---------------------------------------------------------------------------------------
  // The classification loop (scraper/main.py, the `for slot in slots` block).
  // ---------------------------------------------------------------------------------------

  /** The loop's state: the table, `still_available_golden`, `future_dates` and the summary. */
  datatype Pass = Pass(rows: seq<Appointment>, still: set<SlotKey>, futureDates: seq<int>,
                       golden: nat, future: nat, newGolden: seq<Slot>)

  function Classify(rows: seq<Appointment>, office: string, slots: seq<Slot>, today: int, now: int): Pass
    decreases |slots|
  {
    if slots == [] then Pass(rows, {}, [], 0, 0, [])
    else
      var p := Classify(rows, office, slots[..|slots| - 1], today, now);
      var s := slots[|slots| - 1];
      if IsGolden(s.date, today) then
        var w := UpsertGolden(p.rows, office, s.date, s.time, now);
        Pass(w.rows, p.still + {KeyOfSlot(s)}, p.futureDates, p.golden + 1, p.future,
             p.newGolden + (if w.flag then [s] else []))
      else
        Pass(p.rows, p.still, p.futureDates + [s.date], p.golden, p.future + 1, p.newGolden)
  }

  /**
   * Every slot is counted once: the golden count and the future count are the sizes of the
   * two halves, the collected keys are exactly the golden slots' keys, and `future_dates`
   * holds the future slots' dates in order.
   */
  lemma ClassifyTallies(rows: seq<Appointment>, office: string, slots: seq<Slot>, today: int, now: int)
    ensures var p := Classify(rows, office, slots, today, now);
      && p.golden == |GoldenSlots(slots, today)|
      && p.future == |FutureSlots(slots, today)|
      && p.golden + p.future == |slots|
      && p.still == GoldenKeys(slots, today)
      && p.futureDates == Dates(FutureSlots(slots, today))
  {
    ClassifyCounts(rows, office, slots, today, now);
    SplitCounts(slots, today);
    ClassifyKeys(rows, office, slots, today, now);
    ClassifyDates(rows, office, slots, today, now);
  }

  lemma {:induction false} ClassifyCounts(rows: seq<Appointment>, office: string, slots: seq<Slot>, today: int, now: int)
    ensures var p := Classify(rows, office, slots, today, now);
      p.golden == |GoldenSlots(slots, today)| && p.future == |FutureSlots(slots, today)|
    decreases |slots|
  {
    if slots != [] {
      ClassifyCounts(rows, office, slots[..|slots| - 1], today, now);
    }
  }

  lemma {:induction false} ClassifyKeys(rows: seq<Appointment>, office: string, slots: seq<Slot>, today: int, now: int)
    ensures Classify(rows, office, slots, today, now).still == GoldenKeys(slots, today)
    decreases |slots|
  {
    if slots != [] {
      var init, s := slots[..|slots| - 1], slots[|slots| - 1];
      ClassifyKeys(rows, office, init, today, now);
      assert slots == init + [s];
      if IsGolden(s.date, today) {
        assert GoldenKeys(slots, today) == GoldenKeys(init, today) + {KeyOfSlot(s)};
      } else {
        assert GoldenKeys(slots, today) == GoldenKeys(init, today);
      }
    }
  }

  lemma {:induction false} ClassifyDates(rows: seq<Appointment>, office: string, slots: seq<Slot>, today: int, now: int)
    ensures Classify(rows, office, slots, today, now).futureDates == Dates(FutureSlots(slots, today))
    decreases |slots|
  {
    if slots != [] {
      ClassifyDates(rows, office, slots[..|slots| - 1], today, now);
    }
  }

  // ---------------------------------------------------------------------------------------
  // What each write leaves alone.
  // ---------------------------------------------------------------------------------------

  /** `w` changes only rows of `office`, keeps every row's office and id, and appends only rows of `office`. */
  predicate OfficeLocal(rows: seq<Appointment>, w: seq<Appointment>, office: string) {
    && |rows| <= |w|
    && (forall j | 0 <= j < |rows| :: w[j].office == rows[j].office && w[j].id == rows[j].id)
    && (forall j | 0 <= j < |rows| && rows[j].office != office :: w[j] == rows[j])
    && (forall j | |rows| <= j < |w| :: w[j].office == office)
  }

  /** `w` keeps what decides the current-closest rows and their dates. */
  predicate KeepsClosest(rows: seq<Appointment>, w: seq<Appointment>) {
    && |rows| <= |w|
    && (forall j | 0 <= j < |rows| :: w[j].office == rows[j].office && w[j].slotType == rows[j].slotType
          && w[j].isCurrentClosest == rows[j].isCurrentClosest && w[j].date == rows[j].date)
    && (forall j | |rows| <= j < |w| :: !w[j].isCurrentClosest)
  }

  /** `w` keeps what decides the available golden rows and their keys. */
  predicate KeepsGolden(rows: seq<Appointment>, w: seq<Appointment>) {
    && |rows| <= |w|
    && (forall j | 0 <= j < |rows| :: w[j].office == rows[j].office && w[j].slotType == rows[j].slotType
          && KeyOf(w[j]) == KeyOf(rows[j]) && (rows[j].slotType == Golden ==> w[j].available == rows[j].available))
    && (forall j | |rows| <= j < |w| :: w[j].slotType == Future)
  }

  /** The (date, time) keys of an office's available golden rows. */
  function AvailableGoldenKeys(rows: seq<Appointment>, office: string): set<SlotKey> {
    set i | 0 <= i < |rows| && rows[i].office == office && rows[i].slotType == Golden && rows[i].available
      :: KeyOf(rows[i])
  }

  lemma OfficeLocalTrans(a: seq<Appointment>, b: seq<Appointment>, c: seq<Appointment>, office: string)
    requires OfficeLocal(a, b, office) && OfficeLocal(b, c, office)
    ensures OfficeLocal(a, c, office)
  {
  }

  lemma KeepsClosestTrans(a: seq<Appointment>, b: seq<Appointment>, c: seq<Appointment>)
    requires KeepsClosest(a, b) && KeepsClosest(b, c)
    ensures KeepsClosest(a, c)
  {
  }

  lemma KeepsGoldenTrans(a: seq<Appointment>, b: seq<Appointment>, c: seq<Appointment>)
    requires KeepsGolden(a, b) && KeepsGolden(b, c)
    ensures KeepsGolden(a, c)
  {
  }

  lemma KeepsClosestDate(rows: seq<Appointment>, w: seq<Appointment>, o: string)
    requires KeepsClosest(rows, w)
    ensures ClosestDate(w, o) == ClosestDate(rows, o)
  {
    ClosestMatchAgree(rows, w, o);
  }

  lemma KeepsGoldenKeys(rows: seq<Appointment>, w: seq<Appointment>, o: string)
    requires KeepsGolden(rows, w)
    ensures AvailableGoldenKeys(w, o) == AvailableGoldenKeys(rows, o)
  {
    forall k | k in AvailableGoldenKeys(w, o) ensures k in AvailableGoldenKeys(rows, o) {
      var i :| 0 <= i < |w| && w[i].office == o && w[i].slotType == Golden && w[i].available && KeyOf(w[i]) == k;
      assert i < |rows|;
    }
    forall k | k in AvailableGoldenKeys(rows, o) ensures k in AvailableGoldenKeys(w, o) {
      var i :| 0 <= i < |rows| && rows[i].office == o && rows[i].slotType == Golden && rows[i].available && KeyOf(rows[i]) == k;
      assert w[i].office == o && w[i].slotType == Golden && w[i].available && KeyOf(w[i]) == k;
    }
  }

  lemma UpsertGoldenKeeps(rows: seq<Appointment>, office: string, date: int, time: Time, now: int)
    ensures var w := UpsertGolden(rows, office, date, time, now).rows;
      OfficeLocal(rows, w, office) && KeepsClosest(rows, w)
  {
    UpsertGoldenFrame(rows, office, date, time, now);
  }

  lemma MarkGoldenGoneKeeps(rows: seq<Appointment>, office: string, still: set<SlotKey>, now: int)
    ensures var w := MarkGoldenGoneRows(rows, office, still, now);
      OfficeLocal(rows, w, office) && KeepsClosest(rows, w)
  {
  }

  lemma UpsertFutureKeeps(rows: seq<Appointment>, office: string, closest: int, now: int)
    ensures var w := UpsertFuture(rows, office, closest, now).rows;
      OfficeLocal(rows, w, office) && KeepsGolden(rows, w)
  {
  }

  lemma MarkFutureGoneKeeps(rows: seq<Appointment>, office: string)
    ensures var w := MarkFutureGoneRows(rows, office);
      OfficeLocal(rows, w, office) && KeepsGolden(rows, w)
  {
  }

  lemma MarkOfficeCheckedKeeps(rows: seq<Appointment>, office: string, now: int)
    ensures var w := MarkOfficeCheckedRows(rows, office, now);
      OfficeLocal(rows, w, office) && KeepsGolden(rows, w) && KeepsClosest(rows, w)
  {
  }

  // ---------------------------------------------------------------------------------------
  // What the classification loop does to the table.
  // ---------------------------------------------------------------------------------------

  lemma GoldenKeysGrow(slots: seq<Slot>, today: int)
    requires slots != []
    ensures GoldenKeys(slots[..|slots| - 1], today) <= GoldenKeys(slots, today)
  {
    var init := slots[..|slots| - 1];
    forall k | k in GoldenKeys(init, today) ensures k in GoldenKeys(slots, today) {
      var s :| s in init && IsGolden(s.date, today) && KeyOfSlot(s) == k;
      assert s in slots;
    }
  }

  /** The loop keeps the table valid, writes only the office's rows and leaves closest rows alone. */
  lemma {:induction false} ClassifyFrame(rows: seq<Appointment>, office: string, slots: seq<Slot>, today: int, now: int)
    requires ValidAppointments(rows)
    ensures var p := Classify(rows, office, slots, today, now);
      ValidAppointments(p.rows) && OfficeLocal(rows, p.rows, office) && KeepsClosest(rows, p.rows)
    decreases |slots|
  {
    if slots != [] {
      var init, s := slots[..|slots| - 1], slots[|slots| - 1];
      ClassifyFrame(rows, office, init, today, now);
      var p := Classify(rows, office, init, today, now);
      if IsGolden(s.date, today) {
        UpsertGoldenValid(p.rows, office, s.date, s.time, now);
        UpsertGoldenKeeps(p.rows, office, s.date, s.time, now);
        var w := UpsertGolden(p.rows, office, s.date, s.time, now).rows;
        OfficeLocalTrans(rows, p.rows, w, office);
        KeepsClosestTrans(rows, p.rows, w);
      }
    }
  }

  /** After the loop every scraped golden slot has an available first row. */
  lemma {:induction false} ClassifyLeavesAvailable(rows: seq<Appointment>, office: string, slots: seq<Slot>,
                                                   today: int, now: int, x: Slot)
    requires x in slots && IsGolden(x.date, today)
    ensures var p := Classify(rows, office, slots, today, now);
      var m := GoldenMatch(p.rows, office, x.date, x.time);
      m.Some? && p.rows[m.value].available
    decreases |slots|
  {
    var init, s := slots[..|slots| - 1], slots[|slots| - 1];
    assert slots == init + [s];
    var p := Classify(rows, office, init, today, now);
    if x == s {
      UpsertGoldenLeavesAvailable(p.rows, office, s.date, s.time, now);
    } else {
      assert x in init;
      ClassifyLeavesAvailable(rows, office, init, today, now, x);
      if IsGolden(s.date, today) {
        if (s.date, s.time) == (x.date, x.time) {
          UpsertGoldenLeavesAvailable(p.rows, office, s.date, s.time, now);
        } else {
          UpsertGoldenOther(p.rows, office, s.date, s.time, now, office, x.date, x.time);
        }
      }
    }
  }

  /** A key that no golden slot of the scrape has keeps its first row, unchanged. */
  lemma {:induction false} ClassifyUntouched(rows: seq<Appointment>, office: string, slots: seq<Slot>,
                                             today: int, now: int, date: int, time: Time)
    requires SlotKey(date, Some(time)) !in GoldenKeys(slots, today)
    ensures var p := Classify(rows, office, slots, today, now);
      var m := GoldenMatch(rows, office, date, time);
      GoldenMatch(p.rows, office, date, time) == m && (m.Some? ==> p.rows[m.value] == rows[m.value])
    decreases |slots|
  {
    if slots != [] {
      var init, s := slots[..|slots| - 1], slots[|slots| - 1];
      GoldenKeysGrow(slots, today);
      ClassifyUntouched(rows, office, init, today, now, date, time);
      var p := Classify(rows, office, init, today, now);
      if IsGolden(s.date, today) {
        assert KeyOfSlot(s) in GoldenKeys(slots, today);
        UpsertGoldenOther(p.rows, office, s.date, s.time, now, office, date, time);
      }
    }
  }

  /**
   * With distinct golden keys, `new_golden` is exactly the golden slots, in scrape order,
   * that the table did not have or had marked gone before the scrape.
   */
  lemma {:induction false} ClassifyNewGolden(rows: seq<Appointment>, office: string, slots: seq<Slot>, today: int, now: int)
    requires DistinctGoldenKeys(slots, today)
    ensures Classify(rows, office, slots, today, now).newGolden == FreshGolden(rows, office, slots, today)
    decreases |slots|
  {
    if slots != [] {
      var init, s := slots[..|slots| - 1], slots[|slots| - 1];
      assert DistinctGoldenKeys(init, today) by {
        forall i, j | 0 <= i < j < |init| && IsGolden(init[i].date, today) && IsGolden(init[j].date, today)
          ensures KeyOfSlot(init[i]) != KeyOfSlot(init[j])
        {
          assert init[i] == slots[i] && init[j] == slots[j];
        }
      }
      ClassifyNewGolden(rows, office, init, today, now);
      if IsGolden(s.date, today) {
        assert KeyOfSlot(s) !in GoldenKeys(init, today) by {
          forall x | x in init && IsGolden(x.date, today) ensures KeyOfSlot(x) != KeyOfSlot(s) {
            var i :| 0 <= i < |init| && init[i] == x;
            assert slots[i] == x;
          }
        }
        ClassifyUntouched(rows, office, init, today, now, s.date, s.time);
      }
    }
  }

  /** Whatever the page holds, no key is reported new twice in one scrape. */
  lemma {:induction false} ClassifyNoDuplicateAlerts(rows: seq<Appointment>, office: string, slots: seq<Slot>, today: int, now: int)
    ensures var p := Classify(rows, office, slots, today, now);
      && (forall x | x in p.newGolden :: x in slots && IsGolden(x.date, today))
      && (forall i, j | 0 <= i < j < |p.newGolden| :: KeyOfSlot(p.newGolden[i]) != KeyOfSlot(p.newGolden[j]))
    decreases |slots|
  {
    if slots != [] {
      var init, s := slots[..|slots| - 1], slots[|slots| - 1];
      assert slots == init + [s];
      ClassifyNoDuplicateAlerts(rows, office, init, today, now);
      var p := Classify(rows, office, init, today, now);
      if IsGolden(s.date, today) {
        var w := UpsertGolden(p.rows, office, s.date, s.time, now);
        forall x | x in p.newGolden && KeyOfSlot(x) == KeyOfSlot(s) ensures !w.flag {
          ClassifyLeavesAvailable(rows, office, init, today, now, x);
        }
        var ng := p.newGolden + (if w.flag then [s] else []);
        forall i, j | 0 <= i < j < |ng| ensures KeyOfSlot(ng[i]) != KeyOfSlot(ng[j]) {
          if j == |p.newGolden| {
            assert ng[i] in p.newGolden;
          }
        }
      }
    }
  }

  // ---------------------------------------------------------------------------------------
  // After the loop: retire, track the closest future date, stamp the office.
  // ---------------------------------------------------------------------------------------

  function FinishOffice(p: Pass, office: string, now: int): seq<Appointment> {
    var r1 := MarkGoldenGoneRows(p.rows, office, p.still, now);
    var r2 := if p.futureDates != [] then UpsertFuture(r1, office, Earliest(p.futureDates), now).rows
              else MarkFutureGoneRows(r1, office);
    MarkOfficeCheckedRows(r2, office, now)
  }

  /** The table after a successful scrape of `office` that found `slots`. */
  function AfterScrape(rows: seq<Appointment>, office: string, slots: seq<Slot>, today: int, now: int): seq<Appointment> {
    FinishOffice(Classify(rows, office, slots, today, now), office, now)
  }

  /** The office's closest future date a scrape should leave. */
  function ExpectedClosest(rows: seq<Appointment>, office: string, slots: seq<Slot>, today: int): Option<int> {
    var fs := FutureSlots(slots, today);
    if fs == [] then None
    else
      var earliest := Earliest(Dates(fs));
      match ClosestDate(rows, office)
      case None => Some(earliest)
      case Some(d) => Some(MinDate(d, earliest))
  }

  /** After retiring, the office's available golden rows are exactly the scraped golden keys. */
  lemma GoldenAfterRetire(rows: seq<Appointment>, office: string, slots: seq<Slot>, today: int, now: int)
    ensures var p := Classify(rows, office, slots, today, now);
      AvailableGoldenKeys(MarkGoldenGoneRows(p.rows, office, p.still, now), office) == GoldenKeys(slots, today)
  {
    var p := Classify(rows, office, slots, today, now);
    var r1 := MarkGoldenGoneRows(p.rows, office, p.still, now);
    ClassifyTallies(rows, office, slots, today, now);
    MarkGoldenGoneEffect(p.rows, office, p.still, now);
    forall k | k in GoldenKeys(slots, today) ensures k in AvailableGoldenKeys(r1, office) {
      var x :| x in slots && IsGolden(x.date, today) && KeyOfSlot(x) == k;
      ClassifyLeavesAvailable(rows, office, slots, today, now, x);
      var i := GoldenMatch(p.rows, office, x.date, x.time).value;
      assert r1[i] == p.rows[i];
    }
  }

  /**
   * A successful scrape of `office`: the table stays valid; the office's available golden
   * rows are exactly the golden slots just scraped; its current-closest date is the earlier
   * of the old one and the earliest future slot, or none when no future slot was found;
   * and no other office's row changes.
   */
  lemma {:induction false} AfterScrapeEffect(rows: seq<Appointment>, office: string, slots: seq<Slot>, today: int, now: int)
    requires ValidAppointments(rows)
    ensures var r := AfterScrape(rows, office, slots, today, now);
      && ValidAppointments(r)
      && AvailableGoldenKeys(r, office) == GoldenKeys(slots, today)
      && ClosestDate(r, office) == ExpectedClosest(rows, office, slots, today)
      && OfficeLocal(rows, r, office)
  {
    var p := Classify(rows, office, slots, today, now);
    ClassifyTallies(rows, office, slots, today, now);
    ClassifyFrame(rows, office, slots, today, now);
    var r1 := MarkGoldenGoneRows(p.rows, office, p.still, now);
    MarkGoldenGoneValid(p.rows, office, p.still, now);
    MarkGoldenGoneKeeps(p.rows, office, p.still, now);
    GoldenAfterRetire(rows, office, slots, today, now);
    OfficeLocalTrans(rows, p.rows, r1, office);
    KeepsClosestTrans(rows, p.rows, r1);
    KeepsClosestDate(rows, r1, office);
    var r2 := if p.futureDates != [] then UpsertFuture(r1, office, Earliest(p.futureDates), now).rows
              else MarkFutureGoneRows(r1, office);
    if p.futureDates != [] {
      UpsertFutureEffect(r1, office, Earliest(p.futureDates), now);
      UpsertFutureKeeps(r1, office, Earliest(p.futureDates), now);
    } else {
      MarkFutureGoneEffect(r1, office);
      MarkFutureGoneKeeps(r1, office);
    }
    KeepsGoldenKeys(r1, r2, office);
    OfficeLocalTrans(rows, r1, r2, office);
    var r := MarkOfficeCheckedRows(r2, office, now);
    MarkOfficeCheckedEffect(r2, office, now);
    MarkOfficeCheckedKeeps(r2, office, now);
    KeepsGoldenKeys(r2, r, office);
    KeepsClosestDate(r2, r, office);
    OfficeLocalTrans(rows, r2, r, office);
  }

  /** The summary of one office's scrape; `error` is set when the page could not be read. */
  datatype Summary = Summary(office: string, golden: nat, future: nat, newGolden: seq<Slot>, error: Option<string>)

  /** Lines 155-180 of `scrape_office`: classify, upsert, retire, track, stamp. */
  method ProcessSlots(db: Store, office: string, slots: seq<Slot>, today: int, now: int) returns (summary: Summary)
    requires db.Valid()
    modifies db`appointments
    ensures db.Valid()
    ensures db.appointments == AfterScrape(old(db.appointments), office, slots, today, now)
    ensures var p := Classify(old(db.appointments), office, slots, today, now);
      summary == Summary(office, p.golden, p.future, p.newGolden, None)
  {
    ghost var before := db.appointments;
    var stillAvailableGolden: set<SlotKey> := {};
    var futureDates: seq<int> := [];
    summary := Summary(office, 0, 0, [], None);
    var i := 0;
    while i < |slots|
      invariant 0 <= i <= |slots|
      invariant db.Valid()
      invariant var p := Classify(before, office, slots[..i], today, now);
        && db.appointments == p.rows && stillAvailableGolden == p.still && futureDates == p.futureDates
        && summary == Summary(office, p.golden, p.future, p.newGolden, None)
    {
      assert slots[..i + 1][..i] == slots[..i] && slots[..i + 1][i] == slots[i];
      var slot := slots[i];
      if IsGolden(slot.date, today) {
        stillAvailableGolden := stillAvailableGolden + {KeyOfSlot(slot)};
        var isNew := UpsertGoldenSlot(db, office, slot.date, slot.time, now);
        if isNew {
          summary := summary.(newGolden := summary.newGolden + [slot]);
        }
        summary := summary.(golden := summary.golden + 1);
      } else {
        futureDates := futureDates + [slot.date];
        summary := summary.(future := summary.future + 1);
      }
      i := i + 1;
    }
    assert slots[..|slots|] == slots;
    MarkGoldenGone(db, office, stillAvailableGolden, now);
    if futureDates != [] {
      var closest := Earliest(futureDates);
      var created := UpsertFutureSlot(db, office, closest, now);
    } else {
      MarkFutureGone(db, office);
    }
    MarkOfficeChecked(db, office, now);
  }

  // ---------------------------------------------------------------------------------------
  // One office, from the page the browser reached.
  // ---------------------------------------------------------------------------------------

  /**
   * Where navigation ended: the office's "Appts" item was missing, the "Driver's License"
   * item was missing, an exception was raised with a message, or the date page was loaded
   * with these `data-datetime` attributes in page order.
   */
  datatype PageOutcome = OfficeMissing | LicenseMissing | Failed(message: string) | Loaded(attrs: seq<Option<string>>)

  datatype OfficeResult = OfficeResult(rows: seq<Appointment>, summary: Summary)

  function ScrapeOfficeSpec(rows: seq<Appointment>, office: string, page: PageOutcome, today: int, now: int): OfficeResult {
    match page
    case OfficeMissing =>
      OfficeResult(rows, Summary(office, 0, 0, [], Some("'" + office + " Appts' not found on service page")))
    case LicenseMissing =>
      OfficeResult(rows, Summary(office, 0, 0, [], Some("'Driver's License' not found for " + office)))
    case Failed(message) =>
      OfficeResult(rows, Summary(office, 0, 0, [], Some("Error scraping " + office + ": " + message)))
    case Loaded(attrs) =>
      var slots := Extract(attrs).slots;
      var p := Classify(rows, office, slots, today, now);
      OfficeResult(AfterScrape(rows, office, slots, today, now), Summary(office, p.golden, p.future, p.newGolden, None))
  }

  /**
   * An office scrape reports an error exactly when the page was not loaded, and then writes
   * nothing; otherwise its counts add up to the slots extracted, and only the office's rows
   * change.
   */
  lemma ScrapeOfficeOutcome(rows: seq<Appointment>, office: string, page: PageOutcome, today: int, now: int)
    requires ValidAppointments(rows)
    ensures var r := ScrapeOfficeSpec(rows, office, page, today, now);
      && ValidAppointments(r.rows)
      && OfficeLocal(rows, r.rows, office)
      && r.summary.office == office
      && (r.summary.error.Some? <==> !page.Loaded?)
      && (!page.Loaded? ==> r.rows == rows && r.summary.golden == 0 && r.summary.future == 0 && r.summary.newGolden == [])
      && (page.Loaded? ==> r.summary.golden + r.summary.future == |Extract(page.attrs).slots|)
  {
    if page.Loaded? {
      ClassifyTallies(rows, office, Extract(page.attrs).slots, today, now);
      AfterScrapeEffect(rows, office, Extract(page.attrs).slots, today, now);
    }
  }

  /** The summary of one office's scrape: its office, an error exactly when the page did not load, and the counts. */
  lemma ScrapeOfficeSummary(rows: seq<Appointment>, office: string, page: PageOutcome, today: int, now: int)
    ensures var r := ScrapeOfficeSpec(rows, office, page, today, now);
      && r.summary.office == office
      && (r.summary.error.Some? <==> !page.Loaded?)
      && r.summary.golden + r.summary.future == if page.Loaded? then |Extract(page.attrs).slots| else 0
  {
    if page.Loaded? {
      ClassifyTallies(rows, office, Extract(page.attrs).slots, today, now);
    }
  }

  /** `scrape_office` after navigation. */
  method ScrapeOffice(db: Store, office: string, page: PageOutcome, today: int, now: int) returns (summary: Summary)
    requires db.Valid()
    modifies db`appointments
    ensures db.Valid()
    ensures OfficeResult(db.appointments, summary) == ScrapeOfficeSpec(old(db.appointments), office, page, today, now)
  {
    match page
    case OfficeMissing =>
      summary := Summary(office, 0, 0, [], Some("'" + office + " Appts' not found on service page"));
    case LicenseMissing =>
      summary := Summary(office, 0, 0, [], Some("'Driver's License' not found for " + office));
    case Failed(message) =>
      summary := Summary(office, 0, 0, [], Some("Error scraping " + office + ": " + message));
    case Loaded(attrs) =>
      var slots, unparsed := ExtractSlots(attrs);
      summary := ProcessSlots(db, office, slots, today, now);
  }

  // ---------------------------------------------------------------------------------------
  // A whole run (`main`).
  // ---------------------------------------------------------------------------------------

  /** One alert mail: recipients, office, slot and booking link. */
  datatype Alert = Alert(to: seq<string>, office: string, date: int, time: Time, bookUrl: string)

  function SlotAlerts(to: seq<string>, office: string, slots: seq<Slot>): (r: seq<Alert>)
    ensures |r| == |slots|
    ensures forall i | 0 <= i < |slots| :: r[i] == Alert(to, office, slots[i].date, slots[i].time, BookUrl)
  {
    seq(|slots|, i requires 0 <= i < |slots| => Alert(to, office, slots[i].date, slots[i].time, BookUrl))
  }

  /** Alerts of a run: each office's new golden slots, to that office's active subscribers. */
  function RunAlerts(summaries: seq<Summary>, subs: seq<Subscriber>): seq<Alert>
    decreases |summaries|
  {
    if summaries == [] then []
    else
      var s := summaries[|summaries| - 1];
      RunAlerts(summaries[..|summaries| - 1], subs) + SlotAlerts(ActiveEmails(subs, s.office), s.office, s.newGolden)
  }

  function TotalGolden(summaries: seq<Summary>): nat
    decreases |summaries|
  {
    if summaries == [] then 0 else TotalGolden(summaries[..|summaries| - 1]) + summaries[|summaries| - 1].golden
  }

  function TotalFuture(summaries: seq<Summary>): nat
    decreases |summaries|
  {
    if summaries == [] then 0 else TotalFuture(summaries[..|summaries| - 1]) + summaries[|summaries| - 1].future
  }

  /** The run's `errors`: one entry per office whose summary carries an error. */
  function RunErrors(summaries: seq<Summary>): seq<RunError>
    decreases |summaries|
  {
    if summaries == [] then []
    else
      var s := summaries[|summaries| - 1];
      RunErrors(summaries[..|summaries| - 1]) + (if s.error.Some? then [RunError(s.office, s.error.value)] else [])
  }

  function CountFailed(summaries: seq<Summary>): nat
    decreases |summaries|
  {
    if summaries == [] then 0
    else CountFailed(summaries[..|summaries| - 1]) + (if summaries[|summaries| - 1].error.Some? then 1 else 0)
  }

  /** Each error entry names an office whose summary failed with that message, and there is one per failure. */
  lemma {:induction false} RunErrorsMatch(summaries: seq<Summary>)
    ensures |RunErrors(summaries)| == CountFailed(summaries)
    ensures forall e | e in RunErrors(summaries) ::
      exists i | 0 <= i < |summaries| :: summaries[i].office == e.office && summaries[i].error == Some(e.error)
    decreases |summaries|
  {
    if summaries != [] {
      var init := summaries[..|summaries| - 1];
      RunErrorsMatch(init);
      forall e | e in RunErrors(summaries)
        ensures exists i | 0 <= i < |summaries| :: summaries[i].office == e.office && summaries[i].error == Some(e.error)
      {
        if e in RunErrors(init) {
          var i :| 0 <= i < |init| && init[i].office == e.office && init[i].error == Some(e.error);
          assert summaries[i] == init[i];
        } else {
          assert summaries[|summaries| - 1].office == e.office;
        }
      }
    }
  }

  /** The table and the summaries after the first `k` offices. */
  datatype RunState = RunState(rows: seq<Appointment>, summaries: seq<Summary>)

  /** The inputs of a run's office loop: office names, and per office its page, date and clock. */
  predicate Aligned(offices: seq<string>, pages: seq<PageOutcome>, todays: seq<int>, nows: seq<int>) {
    |pages| == |offices| && |todays| == |offices| && |nows| == |offices|
  }

  function RunOffices(rows: seq<Appointment>, offices: seq<string>, pages: seq<PageOutcome>,
                      todays: seq<int>, nows: seq<int>, k: nat): RunState
    requires Aligned(offices, pages, todays, nows) && k <= |offices|
    decreases k
  {
    if k == 0 then RunState(rows, [])
    else
      var st := RunOffices(rows, offices, pages, todays, nows, k - 1);
      var r := ScrapeOfficeSpec(st.rows, offices[k - 1], pages[k - 1], todays[k - 1], nows[k - 1]);
      RunState(r.rows, st.summaries + [r.summary])
  }

  /** Slots extracted from the loaded pages among the first `k`. */
  function SlotsFound(pages: seq<PageOutcome>, k: nat): nat
    requires k <= |pages|
  {
    if k == 0 then 0
    else SlotsFound(pages, k - 1) + (if pages[k - 1].Loaded? then |Extract(pages[k - 1].attrs).slots| else 0)
  }

  /** After `k` offices the table is still valid. */
  lemma {:induction false} RunOfficesValid(rows: seq<Appointment>, offices: seq<string>, pages: seq<PageOutcome>,
                                           todays: seq<int>, nows: seq<int>, k: nat)
    requires Aligned(offices, pages, todays, nows) && k <= |offices|
    requires ValidAppointments(rows)
    ensures ValidAppointments(RunOffices(rows, offices, pages, todays, nows, k).rows)
    decreases k
  {
    if k > 0 {
      RunOfficesValid(rows, offices, pages, todays, nows, k - 1);
      var st := RunOffices(rows, offices, pages, todays, nows, k - 1);
      ScrapeOfficeOutcome(st.rows, offices[k - 1], pages[k - 1], todays[k - 1], nows[k - 1]);
    }
  }

  /** Summary `i` is about office `i`, and carries an error exactly when page `i` did not load. */
  predicate SummariesFollow(summaries: seq<Summary>, offices: seq<string>, pages: seq<PageOutcome>)
    decreases |summaries|
  {
    if summaries == [] then true
    else
      var n := |summaries| - 1;
      && n < |offices| && n < |pages|
      && SummariesFollow(summaries[..n], offices, pages)
      && summaries[n].office == offices[n]
      && (summaries[n].error.Some? <==> !pages[n].Loaded?)
  }

  /** The correspondence, index by index. */
  lemma {:induction false} SummariesFollowAt(summaries: seq<Summary>, offices: seq<string>, pages: seq<PageOutcome>)
    requires SummariesFollow(summaries, offices, pages)
    ensures |summaries| <= |offices| && |summaries| <= |pages|
    ensures forall i | 0 <= i < |summaries| :: summaries[i].office == offices[i]
    ensures forall i | 0 <= i < |summaries| :: summaries[i].error.Some? <==> !pages[i].Loaded?
    decreases |summaries|
  {
    if summaries != [] {
      var n := |summaries| - 1;
      SummariesFollowAt(summaries[..n], offices, pages);
      forall i | 0 <= i < n
        ensures summaries[i] == summaries[..n][i]
      {
      }
    }
  }

  /** One more summary about the next office keeps the correspondence. */
  lemma FollowStep(prev: seq<Summary>, s: Summary, offices: seq<string>, pages: seq<PageOutcome>)
    requires SummariesFollow(prev, offices, pages) && |prev| < |offices| && |prev| < |pages|
    requires s.office == offices[|prev|] && (s.error.Some? <==> !pages[|prev|].Loaded?)
    ensures SummariesFollow(prev + [s], offices, pages)
  {
    var all := prev + [s];
    assert all[..|prev|] == prev;
    assert all[|prev|] == s;
  }

  /** The run's tallies after one more office summary. */
  lemma AppendSummary(summaries: seq<Summary>, s: Summary, subs: seq<Subscriber>)
    ensures TotalGolden(summaries + [s]) == TotalGolden(summaries) + s.golden
    ensures TotalFuture(summaries + [s]) == TotalFuture(summaries) + s.future
    ensures RunErrors(summaries + [s]) == RunErrors(summaries) + (if s.error.Some? then [RunError(s.office, s.error.value)] else [])
    ensures RunAlerts(summaries + [s], subs) == RunAlerts(summaries, subs) + SlotAlerts(ActiveEmails(subs, s.office), s.office, s.newGolden)
  {
    assert (summaries + [s])[..|summaries|] == summaries;
  }

  /** When no page loads, the table is untouched, nothing is counted and every office is an error. */
  lemma {:induction false} RunAllFailed(rows: seq<Appointment>, offices: seq<string>, pages: seq<PageOutcome>,
                                        todays: seq<int>, nows: seq<int>, k: nat)
    requires Aligned(offices, pages, todays, nows) && k <= |offices|
    requires forall i | 0 <= i < |pages| :: !pages[i].Loaded?
    ensures var st := RunOffices(rows, offices, pages, todays, nows, k);
      && st.rows == rows && TotalGolden(st.summaries) == 0 && TotalFuture(st.summaries) == 0
      && |RunErrors(st.summaries)| == k && RunAlerts(st.summaries, []) == []
    decreases k
  {
    if k > 0 {
      RunAllFailed(rows, offices, pages, todays, nows, k - 1);
      var st := RunOffices(rows, offices, pages, todays, nows, k - 1);
      var r := ScrapeOfficeSpec(st.rows, offices[k - 1], pages[k - 1], todays[k - 1], nows[k - 1]);
      var summaries := st.summaries + [r.summary];
      assert summaries[..|summaries| - 1] == st.summaries;
    }
  }

  /** The alert loop: one mail per new golden slot, in order, all to the same recipients. */
  method SendGoldenAlerts(to: seq<string>, office: string, slots: seq<Slot>) returns (alerts: seq<Alert>)
    ensures alerts == SlotAlerts(to, office, slots)
  {
    alerts := [];
    for j := 0 to |slots|
      invariant alerts == SlotAlerts(to, office, slots[..j])
    {
      alerts := alerts + [Alert(to, office, slots[j].date, slots[j].time, BookUrl)];
    }
    assert slots[..|slots|] == slots;
  }

  /** Alerts for one office: only when it has new golden slots are its subscribers looked up. */
  method AlertOffice(db: Store, office: string, newGolden: seq<Slot>) returns (alerts: seq<Alert>)
    ensures alerts == SlotAlerts(ActiveEmails(db.subscribers, office), office, newGolden)
  {
    alerts := [];
    if newGolden != [] {
      var subscribers := GetActiveSubscribers(db, office);
      alerts := SendGoldenAlerts(subscribers, office, newGolden);
    }
  }

  /** The office loop of `main`: scrape each office in turn, tally, collect errors, send alerts. */
  method ScrapeOffices(db: Store, offices: seq<string>, pages: seq<PageOutcome>, todays: seq<int>, nows: seq<int>)
    returns (summaries: seq<Summary>, totalGolden: nat, totalFuture: nat, errors: seq<RunError>, outbox: seq<Alert>)
    requires db.Valid() && Aligned(offices, pages, todays, nows)
    modifies db`appointments
    ensures db.Valid()
    ensures var st := RunOffices(old(db.appointments), offices, pages, todays, nows, |offices|);
      db.appointments == st.rows && summaries == st.summaries
    ensures totalGolden == TotalGolden(summaries) && totalFuture == TotalFuture(summaries)
    ensures errors == RunErrors(summaries) && outbox == RunAlerts(summaries, db.subscribers)
    ensures |summaries| == |offices| && SummariesFollow(summaries, offices, pages)
    ensures totalGolden + totalFuture == SlotsFound(pages, |offices|)
  {
    ghost var rows0 := db.appointments;
    totalGolden, totalFuture := 0, 0;
    errors, summaries, outbox := [], [], [];
    for k := 0 to |offices|
      invariant db.Valid()
      invariant var st := RunOffices(rows0, offices, pages, todays, nows, k);
        db.appointments == st.rows && summaries == st.summaries
      invariant totalGolden == TotalGolden(summaries) && totalFuture == TotalFuture(summaries)
      invariant errors == RunErrors(summaries) && outbox == RunAlerts(summaries, db.subscribers)
      invariant |summaries| == k && SummariesFollow(summaries, offices, pages)
      invariant totalGolden + totalFuture == SlotsFound(pages, k)
    {
      var office := offices[k];
      ghost var before := db.appointments;
      var summary := ScrapeOffice(db, office, pages[k], todays[k], nows[k]);
      ScrapeOfficeSummary(before, office, pages[k], todays[k], nows[k]);
      FollowStep(summaries, summary, offices, pages);
      totalGolden := totalGolden + summary.golden;
      totalFuture := totalFuture + summary.future;
      if summary.error.Some? {
        errors := errors + [RunError(office, summary.error.value)];
      }
      var alerts := AlertOffice(db, office, summary.newGolden);
      outbox := outbox + alerts;
      AppendSummary(summaries, summary, db.subscribers);
      summaries := summaries + [summary];
    }
  }

  /** `main`: open a run, scrape the thirteen offices, and complete the run with the totals. */
  method RunScrape(db: Store, pages: seq<PageOutcome>, todays: seq<int>, nows: seq<int>, startedAt: int, finishedAt: int)
    returns (runId: nat, summaries: seq<Summary>, outbox: seq<Alert>)
    requires db.Valid() && Aligned(Offices, pages, todays, nows)
    modifies db`appointments, db`scrapeRuns
    ensures db.Valid()
    ensures var st := RunOffices(old(db.appointments), Offices, pages, todays, nows, |Offices|);
      db.appointments == st.rows && summaries == st.summaries
    ensures runId == |old(db.scrapeRuns)|
    ensures db.scrapeRuns == old(db.scrapeRuns) + [ScrapeRun(runId, startedAt, Some(finishedAt), |Offices|,
      TotalGolden(summaries), TotalFuture(summaries), RunErrors(summaries))]
    ensures outbox == RunAlerts(summaries, db.subscribers)
    ensures |summaries| == |Offices| && SummariesFollow(summaries, Offices, pages)
    ensures TotalGolden(summaries) + TotalFuture(summaries) == SlotsFound(pages, |Offices|)
  {
    runId := StartScrapeRun(db, startedAt);
    var totalGolden, totalFuture, errors;
    summaries, totalGolden, totalFuture, errors, outbox := ScrapeOffices(db, Offices, pages, todays, nows);
    FinishLatestRun(old(db.scrapeRuns), startedAt, |Offices|, totalGolden, totalFuture, errors, finishedAt);
    FinishScrapeRun(db, runId, |Offices|, totalGolden, totalFuture, errors, finishedAt);
  }
}
