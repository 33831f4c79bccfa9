/**
 * The short-notice panel above the table: the available golden rows in date and time order,
 * one card per row with a TODAY / TOMORROW / "n days away" badge, and a count badge. The
 * panel is absent when there is nothing to show.
 */
module GoldenSlotsPanel {
  import opened Wrappers
  import opened Text
  import opened Clock
  import opened Tables
  import opened Query
  import AppointmentsTable

  // ---------------------------------------------------------------------------------------
  // The query.
  // ---------------------------------------------------------------------------------------

  /** `.eq("slot_type", "golden").eq("available", true)`. */
  predicate IsPanelRow(r: Appointment) {
    r.slotType == Golden && r.available
  }

  /** `appointment_time` ascending with the store's default for ascending order: nulls last. */
  predicate TimeNullsLastLe(a: Option<Time>, b: Option<Time>) {
    match b
    case None => true
    case Some(y) => a.Some? && TimeLe(a.value, y)
  }

  /** Row `a` may be listed before row `b`: earlier date first, then earlier time. */
  predicate PanelBefore(a: Appointment, b: Appointment) {
    if a.date != b.date then a.date < b.date else TimeNullsLastLe(a.time, b.time)
  }

  function NullsLastKey(t: Option<Time>): seq<int> {
    match t
    case None => [1]
    case Some(x) => [0, x.hour, x.minute, x.second]
  }

  function PanelKey(r: Appointment): seq<int> {
    [r.date] + NullsLastKey(r.time)
  }

  lemma NullsLastKeyOrder(a: Option<Time>, b: Option<Time>)
    ensures LexLe(NullsLastKey(a), NullsLastKey(b)) <==> TimeNullsLastLe(a, b)
  {
    if a.Some? && b.Some? {
      var x, y := a.value, b.value;
      assert [0, x.hour, x.minute, x.second] == [0] + ([x.hour] + ([x.minute] + [x.second]));
      assert [0, y.hour, y.minute, y.second] == [0] + ([y.hour] + ([y.minute] + [y.second]));
      LexLeCons(0, [x.hour] + ([x.minute] + [x.second]), 0, [y.hour] + ([y.minute] + [y.second]));
      LexLeCons(x.hour, [x.minute] + [x.second], y.hour, [y.minute] + [y.second]);
      LexLeCons(x.minute, [x.second], y.minute, [y.second]);
      LexLeCons(x.second, [], y.second, []);
    }
  }

  /** The key order is the date-then-time order the panel's query asks for. */
  lemma PanelKeyOrder(a: Appointment, b: Appointment)
    ensures LexLe(PanelKey(a), PanelKey(b)) <==> PanelBefore(a, b)
  {
    LexLeCons(a.date, NullsLastKey(a.time), b.date, NullsLastKey(b.time));
    NullsLastKeyOrder(a.time, b.time);
  }

  /** `fetchSlots`' result. */
  function PanelRows(rows: seq<Appointment>): seq<Appointment> {
    SortBy(Select(rows, IsPanelRow), PanelKey)
  }

  /** The panel lists every available golden row as often as the table holds it, and nothing else. */
  lemma PanelRowsContents(rows: seq<Appointment>)
    ensures forall x :: multiset(PanelRows(rows))[x] == if IsPanelRow(x) then multiset(rows)[x] else 0
    ensures forall x :: x in PanelRows(rows) <==> x in rows && IsPanelRow(x)
    ensures |PanelRows(rows)| == |Select(rows, IsPanelRow)|
  {
    var s := Select(rows, IsPanelRow);
    forall x ensures x in PanelRows(rows) <==> x in s {
      assert x in PanelRows(rows) <==> x in multiset(PanelRows(rows));
      assert x in s <==> x in multiset(s);
    }
    assert |PanelRows(rows)| == |multiset(PanelRows(rows))| == |multiset(s)| == |s|;
  }

  /** The panel's rows come in date order, and by time within a date. */
  lemma PanelRowsOrder(rows: seq<Appointment>)
    ensures forall i, j | 0 <= i < j < |PanelRows(rows)| :: PanelBefore(PanelRows(rows)[i], PanelRows(rows)[j])
  {
    var r := PanelRows(rows);
    forall i, j | 0 <= i < j < |r| ensures PanelBefore(r[i], r[j]) {
      PanelKeyOrder(r[i], r[j]);
    }
  }

  // ---------------------------------------------------------------------------------------
  // One card.
  // ---------------------------------------------------------------------------------------

  /** The badge on a card; negative counts are shown as they are. */
  function DayLabel(days: int): (r: string)
    ensures r == "TODAY" <==> days == 0
    ensures r == "TOMORROW" <==> days == 1
  {
    if days == 0 then "TODAY"
    else if days == 1 then "TOMORROW"
    else
      assert |IntToString(days) + " days away"| > 10;
      IntToString(days) + " days away"
  }

  /** Different day counts get different badges. */
  lemma DayLabelInjective(a: int, b: int)
    ensures DayLabel(a) == DayLabel(b) <==> a == b
  {
    if DayLabel(a) == DayLabel(b) && a != 0 && a != 1 && b != 0 && b != 1 {
      var sa, sb := IntToString(a), IntToString(b);
      assert |sa| == |sb|;
      assert sa == (sa + " days away")[..|sa|];
      assert sb == (sb + " days away")[..|sb|];
      IntToStringInjective(a, b);
    }
  }

  lemma DayLabelExamples(today: int)
    ensures DayLabel(DaysUntil(today, today)) == "TODAY"
    ensures DayLabel(DaysUntil(today + 1, today)) == "TOMORROW"
    ensures DayLabel(DaysUntil(today + 5, today)) == "5 days away"
    ensures DayLabel(DaysUntil(today - 2, today)) == "-2 days away"
  {
    assert DaysUntil(today + 5, today) == 5 && DaysUntil(today - 2, today) == -2;
    DayLabelFive();
    DayLabelMinusTwo();
  }

  lemma DayLabelFive()
    ensures DayLabel(5) == "5 days away"
  {
    assert IntToString(5) == "5";
  }

  lemma DayLabelMinusTwo()
    ensures DayLabel(-2) == "-2 days away"
  {
    assert IntToString(-2) == "-2";
  }

  /** The time line under the date: empty for a row without a time. */
  function TimeLine(t: Option<Time>): (r: string)
    ensures t.Some? ==> r == AppointmentsTable.FormatTime(t)
    ensures t.None? ==> r == "" && AppointmentsTable.FormatTime(t) == "Many"
  {
    match t
    case None => ""
    case Some(c) => FormatClock(c)
  }

  datatype Card = Card(id: nat, badge: string, office: string, date: int, timeLine: string, bookUrl: string)

  /** What the component renders: nothing, or a count badge and the cards. */
  datatype PanelView = Hidden | Shown(count: nat, cards: seq<Card>)

  function CardOf(r: Appointment, today: int): Card {
    Card(r.id, DayLabel(DaysUntil(r.date, today)), r.office, r.date, TimeLine(r.time), BookUrl)
  }

  function Render(slots: seq<Appointment>, today: int): PanelView {
    if slots == [] then Hidden
    else Shown(|slots|, seq(|slots|, i requires 0 <= i < |slots| => CardOf(slots[i], today)))
  }

  /**
   * Rendering the fetched rows: hidden exactly when no available golden row exists, the count
   * badge is the number of such rows, one card per row, and badges count days in ascending
   * order down the panel.
   */
  lemma RenderPanel(rows: seq<Appointment>, today: int)
    ensures var v := Render(PanelRows(rows), today);
      && (v.Hidden? <==> forall x | x in rows :: !IsPanelRow(x))
      && (v.Shown? ==> v.count == |Select(rows, IsPanelRow)| == |v.cards|)
      && (v.Shown? ==> forall i, j | 0 <= i < j < |v.cards| ::
            DaysUntil(v.cards[i].date, today) <= DaysUntil(v.cards[j].date, today))
  {
    PanelRowsContents(rows);
    PanelRowsOrder(rows);
    var p := PanelRows(rows);
    if p != [] {
      assert p[0] in p;
    }
  }

  // ---------------------------------------------------------------------------------------
  // The component.
  // ---------------------------------------------------------------------------------------

  class GoldenPanel {
    var slots: seq<Appointment>

    constructor ()
      ensures slots == []
    {
      slots := [];
    }

    /**
     * `fetchSlots`, on mount and on every change to the appointments table; `ok` false is a
     * failed request, which keeps the cards on screen.
     */
    method FetchSlots(db: Store, ok: bool)
      modifies this`slots
      ensures slots == if ok then PanelRows(db.appointments) else old(slots)
    {
      if ok {
        slots := PanelRows(db.appointments);
      }
    }

    function View(today: int): PanelView
      reads this
    {
      Render(slots, today)
    }
  }

  // ---------------------------------------------------------------------------------------
  // `daysUntil` as the browser computes it.
  // ---------------------------------------------------------------------------------------

  /** `Math.ceil(a / b)` for a positive divisor. */
  function CeilDiv(a: int, b: nat): (r: int)
    requires b > 0
    ensures (r - 1) * b < a <= r * b
  {
    -((-a) / b)
  }

  /** `Math.round(a / b)` for a positive divisor: halves round up. */
  function RoundDiv(a: int, b: nat): (r: int)
    requires b > 0
    ensures (2 * r - 1) * b <= 2 * a < (2 * r + 1) * b
  {
    (2 * a + b) / (2 * b)
  }

  /**
   * `daysUntil` as written: the hours between two local midnights `days` calendar days apart
   * are `days * 24 + shift`, where `shift` is +1 across the autumn clock change and -1 across
   * the spring one, and the quotient by 24 is rounded up.
   */
  function DaysUntilAsWritten(days: int, shift: int): int {
    CeilDiv(days * 24 + shift, 24)
  }

  /** On the day the clocks go back, the next day's slot is badged "2 days away", not "TOMORROW". */
  lemma DaysUntilAcrossFallBack()
    ensures DaysUntilAsWritten(1, 1) == 2
    ensures DayLabel(DaysUntilAsWritten(1, 1)) == "2 days away"
    ensures DayLabel(DaysUntil(1, 0)) == "TOMORROW"
  {
  }

  /** Rounding instead of rounding up counts calendar days whatever the clock change. */
  function DaysUntilRounded(days: int, shift: int): (r: int)
    requires -12 < shift < 12
    ensures r == days
  {
    RoundDiv(days * 24 + shift, 24)
  }
}
