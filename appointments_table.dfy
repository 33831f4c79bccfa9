/**
 * The full appointments table of the web page: the query it sends (availability and office
 * filters, a four-column order), the 12-hour time column, client-side pagination with
 * clamped Prev/Next buttons, the office multi-select, and the component state those
 * handlers replace.
 */
module AppointmentsTable {
  import opened Wrappers
  import opened Text
  import opened Clock
  import opened Tables
  import opened Query

  const PageSizeOptions: seq<nat> := [25, 50, 100]

  // ---------------------------------------------------------------------------------------
  // The time column.
  // ---------------------------------------------------------------------------------------

  /** `formatTime`: a null time is an aggregated future row and reads "Many". */
  function FormatTime(t: Option<Time>): (r: string)
    ensures t.None? <==> r == "Many"
    ensures t.Some? ==> r != [] && IsDigit(r[0])
  {
    match t
    case None => "Many"
    case Some(c) =>
      var h := NatToString(Hour12(c.hour));
      assert FormatClock(c) == h + (":" + PadStart2(NatToString(c.minute)) + " " + Period(c.hour));
      assert FormatClock(c)[0] == h[0];
      FormatClock(c)
  }

  /** Two cells read alike exactly when both are "Many" or both show the same hour and minute. */
  lemma FormatTimeDistinguishes(a: Option<Time>, b: Option<Time>)
    requires a.Some? ==> ValidTime(a.value)
    requires b.Some? ==> ValidTime(b.value)
    ensures FormatTime(a) == FormatTime(b) <==>
      (a.None? && b.None?) || (a.Some? && b.Some? && a.value.hour == b.value.hour && a.value.minute == b.value.minute)
  {
    if a.Some? && b.Some? {
      FormatClockInjective(a.value, b.value);
    }
  }

  lemma FormatTimeExamples()
    ensures FormatTime(None) == "Many"
    ensures FormatTime(Some(Time(0, 5, 0))) == "12:05 AM"
    ensures FormatTime(Some(Time(14, 0, 0))) == "2:00 PM"
  {
    FormatClockExamples();
  }

  // ---------------------------------------------------------------------------------------
  // The query: filters.
  // ---------------------------------------------------------------------------------------

  /** The availability toggle: "Y", "N" or "all". */
  datatype Availability = AvailableOnly | GoneOnly | Any

  datatype Filters = Filters(offices: seq<string>, available: Availability)

  /** The rows the table should list under `f`: an office list that is empty means every office. */
  predicate Matches(f: Filters, r: Appointment) {
    && (f.available == AvailableOnly ==> r.available)
    && (f.available == GoneOnly ==> !r.available)
    && (f.offices != [] ==> r.office in f.offices)
  }

  /** A filter clause added to the query: `.eq("available", b)` or `.in("office", list)`. */
  datatype Clause = AvailableIs(value: bool) | OfficeIn(list: seq<string>)

  predicate Holds(c: Clause, r: Appointment) {
    match c
    case AvailableIs(b) => r.available == b
    case OfficeIn(list) => r.office in list
  }

  /** The clauses `fetchAppointments` attaches, one `if` at a time. */
  function BuildClauses(f: Filters): (cs: seq<Clause>)
    ensures |cs| <= 2
  {
    (if f.available == AvailableOnly then [AvailableIs(true)]
     else if f.available == GoneOnly then [AvailableIs(false)] else [])
    + (if |f.offices| > 0 then [OfficeIn(f.offices)] else [])
  }

  /** Each clause narrows the result of the ones before it. */
  function ApplyClauses(rows: seq<Appointment>, cs: seq<Clause>): seq<Appointment>
    decreases |cs|
  {
    if cs == [] then rows else ApplyClauses(Select(rows, r => Holds(cs[0], r)), cs[1..])
  }

  /** Two filters that agree on every row keep the same rows. */
  lemma {:induction false} SelectExt(rows: seq<Appointment>, p: Appointment -> bool, q: Appointment -> bool)
    requires forall x :: p(x) == q(x)
    ensures Select(rows, p) == Select(rows, q)
  {
    if rows != [] { SelectExt(rows[1..], p, q); }
  }

  /** Filtering twice is filtering once by both conditions. */
  lemma {:induction false} SelectSelect(rows: seq<Appointment>, p: Appointment -> bool, q: Appointment -> bool,
                                        pq: Appointment -> bool)
    requires forall x :: pq(x) == (p(x) && q(x))
    ensures Select(Select(rows, p), q) == Select(rows, pq)
  {
    if rows != [] {
      SelectSelect(rows[1..], p, q, pq);
      var rest := Select(rows[1..], p);
      if p(rows[0]) {
        assert Select(rows, p) == [rows[0]] + rest;
        assert ([rows[0]] + rest)[1..] == rest;
      } else {
        assert Select(rows, p) == rest;
      }
    }
  }

  /** The clause chain the component builds keeps exactly the rows `Matches` describes, in table order. */
  lemma ClausesMatchFilters(rows: seq<Appointment>, f: Filters)
    ensures ApplyClauses(rows, BuildClauses(f)) == Select(rows, r => Matches(f, r))
  {
    var cs := BuildClauses(f);
    if cs == [] {
      NoClauses(rows, f);
    } else if |cs| == 1 {
      OneClause(rows, f);
    } else {
      TwoClauses(rows, f);
    }
  }

  lemma NoClauses(rows: seq<Appointment>, f: Filters)
    requires BuildClauses(f) == []
    ensures ApplyClauses(rows, BuildClauses(f)) == Select(rows, r => Matches(f, r))
  {
    SelectAll(rows);
    SelectExt(rows, r => Matches(f, r), (r: Appointment) => true);
  }

  lemma OneClause(rows: seq<Appointment>, f: Filters)
    requires |BuildClauses(f)| == 1
    ensures ApplyClauses(rows, BuildClauses(f)) == Select(rows, r => Matches(f, r))
  {
    var cs := BuildClauses(f);
    var s1 := Select(rows, r => Holds(cs[0], r));
    assert ApplyClauses(rows, cs) == ApplyClauses(s1, cs[1..]) == s1;
    SelectExt(rows, r => Holds(cs[0], r), r => Matches(f, r));
  }

  lemma TwoClauses(rows: seq<Appointment>, f: Filters)
    requires |BuildClauses(f)| == 2
    ensures ApplyClauses(rows, BuildClauses(f)) == Select(rows, r => Matches(f, r))
  {
    var cs := BuildClauses(f);
    var p := (r: Appointment) => Holds(cs[0], r);
    var q := (r: Appointment) => Holds(cs[1], r);
    var s1 := Select(rows, p);
    assert cs[1..][1..] == [];
    assert ApplyClauses(rows, cs) == ApplyClauses(s1, cs[1..]) == Select(s1, q);
    SelectSelect(rows, p, q, r => Matches(f, r));
  }

  lemma {:induction false} SelectAll(rows: seq<Appointment>)
    ensures Select(rows, (r: Appointment) => true) == rows
  {
    if rows != [] {
      SelectAll(rows[1..]);
      assert rows == [rows[0]] + rows[1..];
    }
  }

  // ---------------------------------------------------------------------------------------
  // The query: order.
  // ---------------------------------------------------------------------------------------

  /** `appointment_time` ascending with `nullsFirst`: a null time before every time. */
  predicate TimeNullsFirstLe(a: Option<Time>, b: Option<Time>) {
    match a
    case None => true
    case Some(x) => b.Some? && TimeLe(x, b.value)
  }

  /**
   * Row `a` may be listed before row `b`: golden rows first, then available rows, then by
   * date, then by time with null times first.
   */
  predicate Before(a: Appointment, b: Appointment) {
    if a.isGolden != b.isGolden then a.isGolden
    else if a.available != b.available then a.available
    else if a.date != b.date then a.date < b.date
    else TimeNullsFirstLe(a.time, b.time)
  }

  function NullsFirstKey(t: Option<Time>): seq<int> {
    match t
    case None => [0]
    case Some(x) => [1, x.hour, x.minute, x.second]
  }

  /** The four `.order(...)` calls as one key; a descending boolean puts `true` (0) first. */
  function TableKey(r: Appointment): seq<int> {
    [if r.isGolden then 0 else 1] + ([if r.available then 0 else 1] + ([r.date] + NullsFirstKey(r.time)))
  }

  lemma NullsFirstKeyOrder(a: Option<Time>, b: Option<Time>)
    ensures LexLe(NullsFirstKey(a), NullsFirstKey(b)) <==> TimeNullsFirstLe(a, b)
  {
    if a.Some? && b.Some? {
      var x, y := a.value, b.value;
      LexLeCons(1, [x.hour, x.minute, x.second], 1, [y.hour, y.minute, y.second]);
      LexLeCons(x.hour, [x.minute, x.second], y.hour, [y.minute, y.second]);
      LexLeCons(x.minute, [x.second], y.minute, [y.second]);
      LexLeCons(x.second, [], y.second, []);
      assert [1, x.hour, x.minute, x.second] == [1] + [x.hour, x.minute, x.second];
      assert [1, y.hour, y.minute, y.second] == [1] + [y.hour, y.minute, y.second];
      assert [x.hour, x.minute, x.second] == [x.hour] + [x.minute, x.second];
      assert [y.hour, y.minute, y.second] == [y.hour] + [y.minute, y.second];
      assert [x.minute, x.second] == [x.minute] + [x.second];
      assert [y.minute, y.second] == [y.minute] + [y.second];
    }
  }

  /** The key order is exactly the four-column order the query asks for. */
  lemma TableKeyOrder(a: Appointment, b: Appointment)
    ensures LexLe(TableKey(a), TableKey(b)) <==> Before(a, b)
  {
    var ga, gb := if a.isGolden then 0 else 1, if b.isGolden then 0 else 1;
    var va, vb := if a.available then 0 else 1, if b.available then 0 else 1;
    var ta, tb := NullsFirstKey(a.time), NullsFirstKey(b.time);
    LexLeCons(ga, [va] + ([a.date] + ta), gb, [vb] + ([b.date] + tb));
    LexLeCons(va, [a.date] + ta, vb, [b.date] + tb);
    LexLeCons(a.date, ta, b.date, tb);
    NullsFirstKeyOrder(a.time, b.time);
  }

  // ---------------------------------------------------------------------------------------
  // What `fetchAppointments` stores.
  // ---------------------------------------------------------------------------------------

  /** The query's result: the filtered rows in table order, then ordered by the four columns. */
  function Fetch(rows: seq<Appointment>, f: Filters): seq<Appointment> {
    SortBy(ApplyClauses(rows, BuildClauses(f)), TableKey)
  }

  /** The list holds every matching row as often as the table does, and nothing else. */
  lemma FetchContents(rows: seq<Appointment>, f: Filters)
    ensures forall x :: multiset(Fetch(rows, f))[x] == if Matches(f, x) then multiset(rows)[x] else 0
    ensures forall x :: x in Fetch(rows, f) <==> x in rows && Matches(f, x)
    ensures |Fetch(rows, f)| <= |rows|
  {
    ClausesMatchFilters(rows, f);
    var s := Select(rows, r => Matches(f, r));
    assert multiset(Fetch(rows, f)) == multiset(s);
    forall x ensures x in Fetch(rows, f) <==> x in s {
      assert x in Fetch(rows, f) <==> x in multiset(Fetch(rows, f));
      assert x in s <==> x in multiset(s);
    }
    assert |Fetch(rows, f)| == |multiset(Fetch(rows, f))| == |multiset(s)| == |s|;
  }

  /** The list is in the four-column order. */
  lemma FetchOrder(rows: seq<Appointment>, f: Filters)
    ensures forall i, j | 0 <= i < j < |Fetch(rows, f)| :: Before(Fetch(rows, f)[i], Fetch(rows, f)[j])
  {
    var r := Fetch(rows, f);
    forall i, j | 0 <= i < j < |r| ensures Before(r[i], r[j]) {
      TableKeyOrder(r[i], r[j]);
    }
  }

  // ---------------------------------------------------------------------------------------
  // Pagination.
  // ---------------------------------------------------------------------------------------

  function Min(a: int, b: int): int {
    if a <= b then a else b
  }

  function Max(a: int, b: int): int {
    if a >= b then a else b
  }

  /** `Math.ceil(n / size)`: the fewest pages of `size` rows that hold `n` rows. */
  function PageCount(n: nat, size: nat): (r: nat)
    requires size > 0
    ensures r * size >= n
    ensures r > 0 ==> (r - 1) * size < n
  {
    (n + size - 1) / size
  }

  /** `slice((page - 1) * size, page * size)`, with JavaScript's clamping to the list's end. */
  function PageSlice(s: seq<Appointment>, page: nat, size: nat): (r: seq<Appointment>)
    requires page >= 1
    ensures |r| <= size
  {
    var lo, hi := Min((page - 1) * size, |s|), Min(page * size, |s|);
    s[lo..hi]
  }

  /** A page inside the page count is never empty, and every page but the last is full. */
  lemma PageSliceSize(s: seq<Appointment>, page: nat, size: nat)
    requires size > 0 && 1 <= page <= PageCount(|s|, size)
    ensures PageSlice(s, page, size) != []
    ensures page < PageCount(|s|, size) ==> |PageSlice(s, page, size)| == size
  {
    var n := PageCount(|s|, size);
    assert (page - 1) * size <= (n - 1) * size;
    if page < n {
      assert page * size <= (n - 1) * size;
    }
  }

  /** Pages 1 to k, one after another. */
  function PagesUpTo(s: seq<Appointment>, size: nat, k: nat): seq<Appointment> {
    if k == 0 then [] else PagesUpTo(s, size, k - 1) + PageSlice(s, k, size)
  }

  lemma {:induction false} PagesUpToPrefix(s: seq<Appointment>, size: nat, k: nat)
    ensures PagesUpTo(s, size, k) == s[..Min(k * size, |s|)]
  {
    if k > 0 {
      PagesUpToPrefix(s, size, k - 1);
      assert (k - 1) * size <= k * size;
      var a, b := Min((k - 1) * size, |s|), Min(k * size, |s|);
      assert s[..a] + s[a..b] == s[..b];
    }
  }

  /** Reading pages 1 to `PageCount` in turn shows the whole list, each row once, in order. */
  lemma PagesCoverList(s: seq<Appointment>, size: nat)
    requires size > 0
    ensures PagesUpTo(s, size, PageCount(|s|, size)) == s
  {
    PagesUpToPrefix(s, size, PageCount(|s|, size));
  }

  /** The "from–to of n" caption under the table. */
  datatype Range = Range(first: nat, last: nat, total: nat)

  function ShownRange(page: nat, size: nat, n: nat): Range
    requires page >= 1
  {
    Range((page - 1) * size + 1, Min(page * size, n), n)
  }

  /** On a page inside the page count the caption names exactly the rows shown. */
  lemma ShownRangeMatchesPage(s: seq<Appointment>, page: nat, size: nat)
    requires size > 0 && 1 <= page <= PageCount(|s|, size)
    ensures var rg := ShownRange(page, size, |s|);
      && rg.total == |s| && rg.first <= rg.last
      && PageSlice(s, page, size) == s[rg.first - 1..rg.last]
  {
    PageSliceSize(s, page, size);
  }

  // ---------------------------------------------------------------------------------------
  // The office multi-select.
  // ---------------------------------------------------------------------------------------

  /** `filter((o) => o !== office)`. */
  function Remove(s: seq<string>, x: string): (r: seq<string>)
    ensures x !in r
    ensures forall y | y != x :: y in r <==> y in s
    ensures x !in s ==> r == s
  {
    if s == [] then []
    else if s[0] == x then Remove(s[1..], x)
    else [s[0]] + Remove(s[1..], x)
  }

  /** `toggleOffice`: a ticked office is unticked, an unticked one is added at the end. */
  function Toggle(offices: seq<string>, office: string): (r: seq<string>)
    ensures office in r <==> office !in offices
    ensures forall o | o != office :: o in r <==> o in offices
  {
    if office in offices then Remove(offices, office) else offices + [office]
  }

  lemma {:induction false} RemoveLast(s: seq<string>, x: string)
    requires x !in s
    ensures Remove(s + [x], x) == s
  {
    if s == [] {
      assert Remove([x], x) == Remove([], x);
    } else {
      RemoveLast(s[1..], x);
      assert (s + [x])[1..] == s[1..] + [x];
      assert s == [s[0]] + s[1..];
    }
  }

  /** Ticking an office and unticking it again restores the list, order included. */
  lemma ToggleTwice(offices: seq<string>, office: string)
    requires office !in offices
    ensures Toggle(Toggle(offices, office), office) == offices
  {
    RemoveLast(offices, office);
  }

  predicate NoDuplicates(s: seq<string>) {
    forall i, j | 0 <= i < j < |s| :: s[i] != s[j]
  }

  lemma {:induction false} RemoveNoDuplicates(s: seq<string>, x: string)
    requires NoDuplicates(s)
    ensures NoDuplicates(Remove(s, x))
  {
    if s != [] {
      RemoveNoDuplicates(s[1..], x);
      if s[0] != x {
        var rest := Remove(s[1..], x);
        assert forall k | 0 <= k < |s[1..]| :: s[1..][k] == s[k + 1];
        assert s[0] !in rest;
        forall i, j | 0 <= i < j < |[s[0]] + rest| ensures ([s[0]] + rest)[i] != ([s[0]] + rest)[j] {
          if i == 0 { assert ([s[0]] + rest)[j] == rest[j - 1]; }
        }
      }
    }
  }

  /** Each office is listed at most once, however the boxes are clicked. */
  lemma ToggleNoDuplicates(offices: seq<string>, office: string)
    requires NoDuplicates(offices)
    ensures NoDuplicates(Toggle(offices, office))
  {
    if office in offices { RemoveNoDuplicates(offices, office); }
  }

  // ---------------------------------------------------------------------------------------
  // The component.
  // ---------------------------------------------------------------------------------------

  /** The filters the component starts with: available rows of every office. */
  const InitialFilters := Filters([], AvailableOnly)

  /**
   * The change feed's refresh runs the first render's query, not the current one: an
   * available row of an office left out of the current selection is listed after the refresh
   * although the current filters exclude it.
   */
  lemma FeedIgnoresFilters(rows: seq<Appointment>, f: Filters, r: Appointment)
    requires r in rows && r.available && f.offices != [] && r.office !in f.offices
    ensures r in Fetch(rows, InitialFilters) && r !in Fetch(rows, f)
    ensures Fetch(rows, InitialFilters) != Fetch(rows, f)
  {
    FetchContents(rows, InitialFilters);
    FetchContents(rows, f);
  }

  /** The table component's state. */
  class TableView {
    var appointments: seq<Appointment>
    var filters: Filters
    var page: nat
    var pageSize: nat

    ghost predicate Valid()
      reads this
    {
      page >= 1 && pageSize in PageSizeOptions
    }

    /** The initial state: nothing loaded, available rows of every office, page 1 of 25 rows. */
    constructor ()
      ensures Valid()
      ensures appointments == [] && filters == InitialFilters && page == 1 && pageSize == 25
    {
      appointments, filters, page, pageSize := [], InitialFilters, 1, 25;
    }

    function TotalPages(): nat
      reads this
      requires Valid()
    {
      PageCount(|appointments|, pageSize)
    }

    /** The rows on the current page. */
    function Paginated(): seq<Appointment>
      reads this
      requires Valid()
    {
      PageSlice(appointments, page, pageSize)
    }

    /**
     * `fetchAppointments` as the `[filters]` effect calls it: run the query under the current
     * filters. `ok` false is a failed request (no `data`), which keeps the list on screen.
     */
    method FetchAppointments(db: Store, ok: bool)
      modifies this`appointments
      ensures appointments == if ok then Fetch(db.appointments, filters) else old(appointments)
      ensures ok ==> forall x :: x in appointments <==> x in db.appointments && Matches(filters, x)
    {
      FetchContents(db.appointments, filters);
      if ok {
        appointments := Fetch(db.appointments, filters);
      }
    }

    /**
     * A change-feed event. The mount effect subscribes the `fetchAppointments` of the first
     * render, whose filters are the initial ones, so the refresh lists the available rows of
     * every office whatever the user selected; the selection and the page stay as they were.
     */
    method FeedRefresh(db: Store, ok: bool)
      modifies this`appointments
      ensures appointments == if ok then Fetch(db.appointments, InitialFilters) else old(appointments)
      ensures ok ==> forall x :: x in appointments <==> x in db.appointments && x.available
    {
      FetchContents(db.appointments, InitialFilters);
      if ok {
        appointments := Fetch(db.appointments, InitialFilters);
      }
    }

    /** The `[filters]` effect: a new filter value refetches and returns to page 1. */
    method ApplyFilters(f: Filters, db: Store, ok: bool)
      requires Valid()
      modifies this`filters, this`appointments, this`page
      ensures Valid() && filters == f && page == 1
      ensures appointments == if ok then Fetch(db.appointments, f) else old(appointments)
    {
      filters := f;
      FetchAppointments(db, ok);
      page := 1;
    }

    method SetAvailability(v: Availability, db: Store, ok: bool)
      requires Valid()
      modifies this`filters, this`appointments, this`page
      ensures Valid() && filters == old(filters).(available := v) && page == 1
      ensures appointments == if ok then Fetch(db.appointments, filters) else old(appointments)
    {
      ApplyFilters(filters.(available := v), db, ok);
    }

    method ToggleOffice(office: string, db: Store, ok: bool)
      requires Valid()
      modifies this`filters, this`appointments, this`page
      ensures Valid() && filters == old(filters).(offices := Toggle(old(filters).offices, office)) && page == 1
      ensures appointments == if ok then Fetch(db.appointments, filters) else old(appointments)
    {
      ApplyFilters(filters.(offices := Toggle(filters.offices, office)), db, ok);
    }

    method ClearOffices(db: Store, ok: bool)
      requires Valid()
      modifies this`filters, this`appointments, this`page
      ensures Valid() && filters == old(filters).(offices := []) && page == 1
      ensures appointments == if ok then Fetch(db.appointments, filters) else old(appointments)
    {
      ApplyFilters(filters.(offices := []), db, ok);
    }

    /** The "Per page" select: back to page 1, and the list is not refetched. */
    method SetPageSize(n: nat)
      requires Valid() && n in PageSizeOptions
      modifies this`pageSize, this`page
      ensures Valid() && pageSize == n && page == 1
    {
      pageSize, page := n, 1;
    }

    /** Prev (shown only when there is more than one page): never below page 1. */
    method PrevPage()
      requires Valid() && TotalPages() > 1
      modifies this`page
      ensures Valid() && page == Max(1, old(page) - 1)
      ensures old(page) <= TotalPages() ==> page <= TotalPages()
    {
      page := Max(1, page - 1);
    }

    /** Next (shown only when there is more than one page): never past the last page. */
    method NextPage()
      requires Valid() && TotalPages() > 1
      modifies this`page
      ensures Valid() && page == Min(TotalPages(), old(page) + 1)
      ensures 1 <= page <= TotalPages()
    {
      page := Min(TotalPages(), page + 1);
    }
  }
}
