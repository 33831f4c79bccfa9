/**
 * The shared store: the `appointments`, `scrape_runs` and `email_subscribers` tables, their
 * row shapes, the fixed list of 13 offices and the booking link. Rows are never deleted, so a
 * row's id is its position in its table; an update `.eq("id", x)` changes the row at x.
 */
module Tables {
  import opened Wrappers
  import opened Clock

  datatype SlotType = Golden | Future

  /**
   * One observed slot. `date` is a day ordinal; `time` is None for the aggregated
   * "closest future date" rows. The last three columns are written by the scraper only.
   */
  datatype Appointment = Appointment(
    id: nat,
    office: string,
    appointmentType: string,
    date: int,
    time: Option<Time>,
    slotType: SlotType,
    isGolden: bool,
    isCurrentClosest: bool,
    available: bool,
    firstSeenAt: int,
    lastSeenAt: int,
    bookUrl: string,
    lastCheckedAt: Option<int>,
    replacedAt: Option<int>,
    replacedByDate: Option<int>)

  /** The (date, time) pair that identifies a golden slot within its office. */
  datatype SlotKey = SlotKey(date: int, time: Option<Time>)

  function KeyOf(r: Appointment): SlotKey {
    SlotKey(r.date, r.time)
  }

  datatype RunError = RunError(office: string, error: string)

  /** One polling cycle; the counters hold their column defaults (0, empty) until it completes. */
  datatype ScrapeRun = ScrapeRun(
    id: nat,
    runAt: int,
    completedAt: Option<int>,
    officesScraped: nat,
    goldenSlotsFound: nat,
    futureSlotsFound: nat,
    errors: seq<RunError>)

  /** A subscriber; `offices` None (null) or empty means "every office". */
  datatype Subscriber = Subscriber(email: string, active: bool, offices: Option<seq<string>>)

  const Offices: seq<string> := [
    "Augusta", "Bangor", "Calais", "Caribou", "Ellsworth", "Kennebunk", "Lewiston",
    "Portland", "Rockland", "Rumford", "Scarborough", "Springvale", "Topsham"
  ]

  const BookUrl: string :=
    "https://mainebmvappt.cxmflow.com/Appointment/Index/2c052fc7-571f-4b76-9790-7e91f103c408"

  const LicenseType: string := "Driver's License"

  /** The row an office's "current closest" future date lives in. */
  predicate IsClosestOf(r: Appointment, office: string) {
    r.office == office && r.slotType == Future && r.isCurrentClosest
  }

  /** At most one current-closest future row per office. */
  predicate OneClosestPerOffice(rows: seq<Appointment>) {
    forall i, j | 0 <= i < |rows| && 0 <= j < |rows| && IsClosestOf(rows[i], rows[j].office)
      && IsClosestOf(rows[j], rows[j].office) :: i == j
  }

  predicate IdsArePositions(rows: seq<Appointment>) {
    forall i | 0 <= i < |rows| :: rows[i].id == i
  }

  predicate ValidAppointments(rows: seq<Appointment>) {
    IdsArePositions(rows) && OneClosestPerOffice(rows)
  }

  predicate RunIdsArePositions(runs: seq<ScrapeRun>) {
    forall i | 0 <= i < |runs| :: runs[i].id == i
  }

  /** The unique key of `email_subscribers`. */
  predicate UniqueEmails(subs: seq<Subscriber>) {
    forall i, j | 0 <= i < j < |subs| :: subs[i].email != subs[j].email
  }

  /** Number of rows holding `email`. */
  function CountEmail(subs: seq<Subscriber>, email: string): nat {
    if subs == [] then 0 else (if subs[0].email == email then 1 else 0) + CountEmail(subs[1..], email)
  }

  /** No row holds `email` exactly when its count is zero. */
  lemma {:induction false} CountEmailZero(subs: seq<Subscriber>, email: string)
    ensures CountEmail(subs, email) == 0 <==> forall i | 0 <= i < |subs| :: subs[i].email != email
  {
    if subs != [] {
      CountEmailZero(subs[1..], email);
      if CountEmail(subs, email) == 0 {
        forall i | 0 <= i < |subs| ensures subs[i].email != email {
          if i > 0 { assert subs[i] == subs[1..][i - 1]; }
        }
      }
    }
  }

  /** `upsert({email, active: true}, {onConflict: "email"})`: reactivate the row or add one. */
  function UpsertSubscriberRows(subs: seq<Subscriber>, email: string): (r: seq<Subscriber>)
    requires UniqueEmails(subs)
    ensures UniqueEmails(r)
    ensures CountEmail(r, email) == 1
    ensures forall i | 0 <= i < |r| && r[i].email == email :: r[i].active
    ensures forall e | e != email :: CountEmail(r, e) == CountEmail(subs, e)
    ensures forall x | x in subs && x.email != email :: x in r
    ensures forall x | x in r && x.email != email :: x in subs
    ensures forall x | x in subs && x.email == email :: x.(active := true) in r
    ensures (forall x | x in subs :: x.email != email) ==> Subscriber(email, true, None) in r
    decreases |subs|
  {
    if subs == [] then [Subscriber(email, true, None)]
    else if subs[0].email == email then
      CountEmailZero(subs[1..], email);
      ReactivateKeeps(subs, email);
      [subs[0].(active := true)] + subs[1..]
    else
      var rest := UpsertSubscriberRows(subs[1..], email);
      ConsUpsert(subs, rest, email);
      [subs[0]] + rest
  }

  /** Reactivating the head row that holds the key touches no other row. */
  lemma ReactivateKeeps(subs: seq<Subscriber>, email: string)
    requires UniqueEmails(subs) && subs != [] && subs[0].email == email
    ensures var r := [subs[0].(active := true)] + subs[1..];
      && (forall x | x in subs && x.email != email :: x in r)
      && (forall x | x in r && x.email != email :: x in subs)
      && (forall x | x in subs && x.email == email :: x.(active := true) in r)
  {
    forall x | x in subs && x.email == email ensures x == subs[0] {
      var i :| 0 <= i < |subs| && subs[i] == x;
      if i > 0 { assert subs[0].email == subs[i].email; }
    }
  }

  /** A row whose address is not the key, kept in front of the upserted tail. */
  lemma ConsUpsert(subs: seq<Subscriber>, rest: seq<Subscriber>, email: string)
    requires subs != [] && subs[0].email != email && UniqueEmails(subs)
    requires UniqueEmails(rest) && CountEmail(rest, email) == 1
    requires forall i | 0 <= i < |rest| && rest[i].email == email :: rest[i].active
    requires forall e | e != email :: CountEmail(rest, e) == CountEmail(subs[1..], e)
    requires forall x | x in subs[1..] && x.email != email :: x in rest
    requires forall x | x in rest && x.email != email :: x in subs[1..]
    requires forall x | x in subs[1..] && x.email == email :: x.(active := true) in rest
    requires (forall x | x in subs[1..] :: x.email != email) ==> Subscriber(email, true, None) in rest
    ensures var r := [subs[0]] + rest;
      && UniqueEmails(r)
      && CountEmail(r, email) == 1
      && (forall i | 0 <= i < |r| && r[i].email == email :: r[i].active)
      && (forall e | e != email :: CountEmail(r, e) == CountEmail(subs, e))
      && (forall x | x in subs && x.email != email :: x in r)
      && (forall x | x in r && x.email != email :: x in subs)
      && (forall x | x in subs && x.email == email :: x.(active := true) in r)
      && ((forall x | x in subs :: x.email != email) ==> Subscriber(email, true, None) in r)
  {
    ConsUnique(subs, rest);
    ConsCounts(subs, rest, email);
    ConsKeeps(subs, rest, email);
  }

  /** The head's address is absent from the tail, so it stays unique in front of the upsert. */
  lemma ConsUnique(subs: seq<Subscriber>, rest: seq<Subscriber>)
    requires subs != [] && UniqueEmails(subs) && UniqueEmails(rest)
    requires CountEmail(rest, subs[0].email) == CountEmail(subs[1..], subs[0].email)
    ensures UniqueEmails([subs[0]] + rest)
  {
    CountEmailZero(subs[1..], subs[0].email);
    CountEmailZero(rest, subs[0].email);
    var r := [subs[0]] + rest;
    forall i, j | 0 <= i < j < |r| ensures r[i].email != r[j].email {
      assert r[j] == rest[j - 1];
      if i > 0 { assert r[i] == rest[i - 1]; }
    }
  }

  /** Counts and the key's activity carry over past a head row that does not hold the key. */
  lemma ConsCounts(subs: seq<Subscriber>, rest: seq<Subscriber>, email: string)
    requires subs != [] && subs[0].email != email
    requires CountEmail(rest, email) == 1
    requires forall i | 0 <= i < |rest| && rest[i].email == email :: rest[i].active
    requires forall e | e != email :: CountEmail(rest, e) == CountEmail(subs[1..], e)
    ensures var r := [subs[0]] + rest;
      && CountEmail(r, email) == 1
      && (forall i | 0 <= i < |r| && r[i].email == email :: r[i].active)
      && (forall e | e != email :: CountEmail(r, e) == CountEmail(subs, e))
  {
    var r := [subs[0]] + rest;
    assert r[0] == subs[0] && r[1..] == rest;
    forall i | 0 <= i < |r| && r[i].email == email ensures r[i].active {
      assert i > 0 && r[i] == rest[i - 1];
    }
  }

  /** A row kept in front of an upserted tail: the tail's frame carries over to the whole. */
  lemma ConsKeeps(subs: seq<Subscriber>, rest: seq<Subscriber>, email: string)
    requires subs != [] && subs[0].email != email
    requires forall x | x in subs[1..] && x.email != email :: x in rest
    requires forall x | x in rest && x.email != email :: x in subs[1..]
    requires forall x | x in subs[1..] && x.email == email :: x.(active := true) in rest
    requires (forall x | x in subs[1..] :: x.email != email) ==> Subscriber(email, true, None) in rest
    ensures var r := [subs[0]] + rest;
      && (forall x | x in subs && x.email != email :: x in r)
      && (forall x | x in r && x.email != email :: x in subs)
      && (forall x | x in subs && x.email == email :: x.(active := true) in r)
      && ((forall x | x in subs :: x.email != email) ==> Subscriber(email, true, None) in r)
  {
    assert subs == [subs[0]] + subs[1..];
  }

  class Store {
    var appointments: seq<Appointment>
    var scrapeRuns: seq<ScrapeRun>
    var subscribers: seq<Subscriber>

    ghost predicate Valid()
      reads this
    {
      ValidAppointments(appointments) && RunIdsArePositions(scrapeRuns) && UniqueEmails(subscribers)
    }

    constructor ()
      ensures Valid()
      ensures appointments == [] && scrapeRuns == [] && subscribers == []
    {
      appointments, scrapeRuns, subscribers := [], [], [];
    }

    /** The store's upsert on the `email` conflict key. */
    method UpsertSubscriber(email: string)
      requires Valid()
      modifies this`subscribers
      ensures Valid()
      ensures subscribers == UpsertSubscriberRows(old(subscribers), email)
    {
      subscribers := UpsertSubscriberRows(subscribers, email);
    }
  }
}
