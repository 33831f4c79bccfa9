# Maine BMV short-notice slot tracker, modelled in Dafny

The system watches the Maine BMV booking site for Driver's License (Real ID) appointments at
thirteen offices. It has three parts, and each is modelled here:

- **Scraper.** A periodic job opens each office's date page and reads the slots from the
  `data-datetime` attributes. Slots fewer than eight days away are *golden*. The scraper
  records each golden slot as its own row and retires golden rows that have disappeared. For
  the later slots it keeps one "current closest future date" row per office. It also stamps
  the office as checked, keeps one `scrape_runs` row per run, and alerts subscribers about
  golden slots that are new or have come back.
- **Web page.** The page has three components:
  - a short-notice panel of available golden slots;
  - a filterable, paginated table of every row;
  - a sign-up form that adds an address to `email_subscribers`.
- **Store.** The three tables are the state everything above reads and writes.

Modules:

| file | module | what it holds |
|---|---|---|
| `wrappers.dfy` | `Wrappers` | `Option` |
| `text.dfy` | `Text` | decimal rendering and reading of numbers, `padStart`, `trim` (JavaScript and Python whitespace), ASCII lower-casing |
| `clock.dfy` | `Clock` | times of day, proleptic Gregorian day ordinals, 12/24-hour conversion, the 12-hour clock text |
| `tables.dfy` | `Tables` | row types, the table invariants, and the `Store` class whose fields are the three tables |
| `query.dfy` | `Query` | `.eq`/`.in` selection, the first row of a result, lexicographic keys and one stable sort used for every `.order(...)` chain |
| `db.dfy` | `Db` | each write of `scraper/db.py` as a method on the store, proved against a function on the table's rows |
| `slot_parse.dfy` | `SlotParse` | `extract_slots`: the `strptime` pattern `%m/%d/%Y %I:%M:%S %p` and the skipping of empty or unparseable attributes |
| `scraper.dfy` | `Scraper` | `is_golden`, the per-slot classification loop, one office's scrape, the office loop of `main` with totals, errors and alerts, and the run record |
| `appointments_table.dfy` | `AppointmentsTable` | the table's query, time column, pagination, office multi-select and the component state as a class |
| `golden_slots.dfy` | `GoldenSlotsPanel` | the panel's query, day badge, cards and component state |
| `email_signup.dfy` | `EmailSignup` | address normalisation, the upsert and the form's status machine |

How the model stands in for things outside the code:

- **Dates and times.**
  - A date is a day ordinal, as Python's `date.toordinal` counts them.
  - A time is `Time(hour, minute, second)`.
  - A null `appointment_time` is `None`.
  - Timestamps are plain integers handed in as parameters. No clock is read.
- **Rows.** Rows are never deleted, so a row's id is its position in its table.
- **The browser.** Where the browser navigation ended is a `PageOutcome` parameter: the office
  item is missing, the license item is missing, an exception occurred, or the page loaded with
  these attributes.
- **Fetches.** A failed fetch on the page is an `ok` flag.
- **Change feed.** A change-feed event is a call of `TableView.FeedRefresh`. It runs the query
  with the filters the component started with, because the subscription keeps the first
  render's `fetchAppointments` (see Findings).
- **Alerts.** An `Alert` in the outbox is one call of `send_golden_alert` with its recipient
  list. That call sends nothing when the list is empty (`scraper/alerts.py:26-27`), so an
  alert with no recipients stands for no e-mail.

Behaviour a reader might not expect:

- A golden row with no time shows an empty time line in the panel (`GoldenSlots.tsx:89`); the
  table's column shows "Many".
- The panel does not use the four-column table order. It orders by date, then by time, with the
  store's default for an ascending order: null times come *last*. The table asks for null times
  first.
- The sign-up form's `handleSubmit` tests for emptiness before trimming. If a string made only
  of blanks reached it, it would store the empty key (`EmailSignup.WhitespaceOnlyIsEmptyKey`).
  In a browser the field's `type="email"` and `required` attributes normally stop such a value
  before `handleSubmit` runs; that validation is not part of the model.

## Model

The definitions that do the modelling (`Scraper.IsGolden`, `SlotParse.ParseDataDatetime`,
`Db.UpsertGolden`, `Db.UpsertFuture`, `Db.MarkGoldenGoneRows`, `Scraper.Classify`,
`Scraper.ScrapeOfficeSpec`, `AppointmentsTable.Fetch`, `AppointmentsTable.Matches`,
`GoldenSlotsPanel.PanelRows`, `GoldenSlotsPanel.CardOf`, `GoldenSlotsPanel.Render`,
`GoldenSlotsPanel.DaysUntilAsWritten` and the like) are described through the rows of the
lemmas and methods that state their properties.

| member | source | states |
|---|---|---|
| Query.Select | scraper/db.py:33-41 | The rows an `.eq` chain returns: each row satisfying the filter as often as the table holds it, no other row, never more rows than the table |
| Query.FirstIndex | scraper/db.py:43-44 | `existing.data[0]`: the index found satisfies the filter and no earlier row does; None only when no row does |
| Query.SortBy | components/AppointmentsTable.tsx:40-43 | An `.order(...)` chain: the result is sorted by the key and is a permutation of the rows |
| Query.SortBySorted | components/AppointmentsTable.tsx:40-43 | Rows already in key order come back unchanged |
| Query.SortByIdempotent | components/GoldenSlots.tsx:33-34 | Sorting a sorted result again changes nothing |
| Query.LexLeTotal | components/AppointmentsTable.tsx:40-43 | Any two keys are comparable, so the order is total |
| Query.LexLeTransitive | components/AppointmentsTable.tsx:40-43 | The key order is transitive |
| Query.LexLeAntisymmetric | components/AppointmentsTable.tsx:40-43 | Keys that precede each other are equal |
| Query.LexLeAppend | components/AppointmentsTable.tsx:40-43 | A key made of several columns compares on the first column, then on the rest |
| Clock.OrdinalNextDay | scraper/main.py:45-46 | Consecutive calendar days, across month and year ends, have consecutive ordinals, so day differences are calendar-day counts |
| Clock.YearLength | scraper/main.py:45-46 | A year has 366 days exactly when it is a leap year, 365 otherwise |
| Clock.Hour12 | components/AppointmentsTable.tsx:16 | `h % 12 \|\| 12` lies in 1..12 and agrees with the hour modulo 12 |
| Clock.To24OfHour12 | scraper/main.py:77 | Reading a 12-hour hour back with its AM/PM gives the original 24-hour hour; 12 AM is 0 and 12 PM is 12 |
| Clock.Hour12OfTo24 | scraper/main.py:77 | Every 12-hour hour with AM/PM maps to a 24-hour hour that shows the same hour and half of the day |
| Clock.FormatClockInjective | components/AppointmentsTable.tsx:14-17 | Two valid times render alike exactly when their hour and minute agree; seconds are not shown |
| Text.TrimEnds | components/EmailSignup.tsx:19 | A trimmed string is no longer than the original and has no whitespace at either end |
| Text.TrimSlice | scraper/main.py:77 | Trimming keeps one middle slice of the string and drops only whitespace before and after it |
| Clock.FormatClockExamples | components/AppointmentsTable.tsx:14-17 | 00:05 is "12:05 AM", 14:00 is "2:00 PM", 12:30 is "12:30 PM" |
| Tables.UpsertSubscriberRows | components/EmailSignup.tsx:17-19 | The upsert on the `email` key: emails stay unique, the key is held by exactly one row, that row is active, and every other address keeps its row count. Every other row is kept exactly as it was. An existing key row keeps its `offices` and only becomes active. A new address gets a row with no office list |
| Tables.CountEmailZero | components/EmailSignup.tsx:19 | An address has count zero exactly when no row holds it |
| Tables.Store.UpsertSubscriber | components/EmailSignup.tsx:17-19 | The subscribers table becomes the upserted rows; the store stays valid |
| Db.GoldenMatch | scraper/db.py:33-44 | The lookup of a golden slot by office, date and time: the first matching row, or None when no row matches |
| Db.UpsertGoldenUnseen | scraper/db.py:52-67 | For an unseen slot: exactly one row is appended, a golden, available, not-closest row first and last seen now, and it is reported as new |
| Db.UpsertGoldenSeen | scraper/db.py:43-51 | For a known slot: nothing is inserted, only `last_seen_at` and `available` of the first match change, and it is reported new exactly when that row had been gone |
| Db.UpsertGoldenLeavesAvailable | scraper/db.py:43-67 | After the upsert the slot's first matching row exists and is available |
| Db.UpsertGoldenTwice | scraper/db.py:50-51 | Upserting the same slot twice in a row: the second call never reports it as new |
| Db.UpsertGoldenFrame | scraper/db.py:24-67 | Rows of other slots are unchanged; no row's key, office, type, closest flag or id changes; an available row stays available; any appended row holds the slot and has its position as id |
| Db.GoldenMatchAgree | scraper/db.py:33-44 | Two tables that agree on which rows hold a slot find the same first row for it |
| Db.UpsertGoldenOther | scraper/db.py:24-67 | Upserting one slot leaves the first row of every other slot where it was and as it was |
| Db.UpsertGoldenValid | scraper/db.py:24-67 | The upsert keeps ids equal to positions and at most one closest row per office |
| Db.UpsertGoldenSlot | scraper/db.py:24-67 | `upsert_golden_slot` on the store: the new table and the returned flag are those of the upsert; the store stays valid |
| Db.ClosestMatch | scraper/db.py:79-89 | The office's active current-closest future row: the first such row, or None when there is none |
| Db.ClosestIsUnique | scraper/db.py:79-89 | With at most one closest row per office, the row found is the office's only closest row |
| Db.ClosestMatchAgree | scraper/db.py:79-89 | Two tables that agree on which rows are an office's closest find the same closest row |
| Db.ClosestAfterWrite | scraper/db.py:89-131 | A write that leaves one closest row for the office and changes no other office's rows keeps the table valid and every other office's closest date |
| Db.UpsertFutureEffect | scraper/db.py:70-131 | `upsert_future_slot`: the office keeps exactly one closest row; its date is the earlier of the old date and the new one; it is available; a row is created exactly when there was none or the new date is earlier; other offices keep their closest dates |
| Db.UpsertFutureNeverLater | scraper/db.py:100-131 | The office's closest future date never moves later |
| Db.UpsertFutureSlot | scraper/db.py:70-131 | `upsert_future_slot` on the store: the new table and the returned flag are those of the upsert; the store stays valid |
| Db.MarkGoldenGoneEffect | scraper/db.py:134-155 | Exactly the office's available golden rows whose (date, time) was not scraped become unavailable, and only their `available` and `last_seen_at` change; afterwards every available golden row of the office was scraped |
| Db.MarkGoldenGoneValid | scraper/db.py:134-155 | Retiring golden rows keeps the table valid |
| Db.MarkGoldenGone | scraper/db.py:134-155 | The row-by-row loop of `mark_golden_gone` produces the retired table |
| Db.MarkFutureGoneEffect | scraper/db.py:158-163 | Afterwards the office has no closest row and its old closest row is unavailable; other rows are unchanged; other offices keep their closest dates |
| Db.MarkFutureGone | scraper/db.py:158-163 | `mark_future_gone` on the store gives that table |
| Db.MarkOfficeCheckedEffect | scraper/db.py:166-170 | Only the office's rows change, and only in `last_checked_at`, which becomes now |
| Db.MarkOfficeChecked | scraper/db.py:166-170 | `mark_office_checked` on the store gives that table |
| Db.StartScrapeRun | scraper/db.py:173-176 | One run row is appended, holding only its start time; its id is returned |
| Db.FinishLatestRun | scraper/db.py:179-193 | Finishing the run just started completes that run, with its counts and errors, and no other run |
| Db.FinishScrapeRun | scraper/db.py:179-193 | The run with that id gets its completion time, counts and errors; an unknown id changes nothing |
| Db.ActiveEmailsMembers | scraper/db.py:196-210 | An address is returned exactly when an active subscriber holds it and its office list is missing, empty or names the office |
| Db.GetActiveSubscribers | scraper/db.py:196-210 | `get_active_subscribers` returns those addresses in row order |
| SlotParse.ParseRendered | scraper/main.py:76-81 | An attribute in the site's format (four-digit year, valid time) parses exactly when it names a real date, and then to that date and the time in 24-hour form |
| SlotParse.ParseAccepted | scraper/main.py:64-79 | Every attribute the parser accepts, in whatever spacing or case, gives a real calendar date and a valid 24-hour time of day |
| SlotParse.ParseSiteExample | scraper/main.py:64 | The site's example "4/22/2026 2:15:00 PM" reads as 22 April 2026 at 14:15:00 |
| SlotParse.ParseInvalidExample | scraper/main.py:64 | "2/30/2026 2:15:00 PM" is rejected because 30 February does not exist |
| SlotParse.MatchDateRendered | scraper/main.py:76-77 | A written month, day and four-digit year, followed by a non-digit, match the "%m/%d/%Y" part with those values |
| SlotParse.MatchClockRendered | scraper/main.py:76-77 | A written 12-hour hour, minute and second match the "%I:%M:%S" part with those values |
| SlotParse.MatchTailRendered | scraper/main.py:76-77 | A blank, a written clock, a blank and AM/PM match the pattern's tail, giving the clock fields and the half-day |
| SlotParse.ExtractAccounts | scraper/main.py:70-83 | Each present, non-empty attribute yields a slot or a parse warning, never both and never neither |
| SlotParse.ExtractAppend | scraper/main.py:70-83 | A parse failure does not stop extraction: later attributes are read as if on their own |
| SlotParse.ExtractSlots | scraper/main.py:60-85 | The loop over the page's attributes yields exactly the extraction's slots and warnings |
| Scraper.IsGoldenBoundary | scraper/main.py:49-50 | A slot is golden exactly when it is at most seven days ahead; today and past dates are golden, eight days out is not |
| Scraper.GoldenSlots | scraper/main.py:162-163 | The golden slots are exactly the scraped slots that are golden |
| Scraper.FutureSlots | scraper/main.py:168-170 | The future slots are exactly the scraped slots that are not golden |
| Scraper.SplitCounts | scraper/main.py:158-170 | Every slot is golden or future, never both |
| Scraper.Earliest | scraper/main.py:175 | `min(future_dates)` is one of the dates and no later than any of them |
| Scraper.ClassifyTallies | scraper/main.py:155-170 | The loop counts each slot once: the golden and future counts are the sizes of the two halves; the collected keys are the golden slots' keys; `future_dates` holds the future slots' dates in order |
| Scraper.ClassifyFrame | scraper/main.py:158-170 | The loop keeps the table valid, writes only the office's rows, and leaves every closest row and date alone |
| Scraper.ClassifyLeavesAvailable | scraper/main.py:162-164 | After the loop every scraped golden slot has an available row |
| Scraper.ClassifyUntouched | scraper/main.py:158-170 | A slot not among the scraped golden ones keeps its first row, unchanged |
| Scraper.ClassifyNewGolden | scraper/main.py:164-166 | When no two golden slots share a (date, time), the slots reported new are exactly those that were unknown or gone before the scrape, in page order |
| Scraper.ClassifyNoDuplicateAlerts | scraper/main.py:164-166 | Whatever the page holds, the slots reported new are scraped golden slots, and no (date, time) is reported twice in one scrape |
| Scraper.GoldenAfterRetire | scraper/main.py:172 | After retiring, the office's available golden (date, time) pairs are exactly the scraped golden ones |
| Scraper.AfterScrapeEffect | scraper/main.py:155-180 | A successful scrape keeps the table valid. The office's available golden rows are exactly the scraped golden slots. Its closest date is the earlier of the old one and the earliest future slot, or none when no future slot was found. No other office's row changes |
| Scraper.ProcessSlots | scraper/main.py:155-180 | The classification loop plus the three writes gives the table after the scrape, with a summary of the loop's counts and new slots and no error |
| Scraper.ScrapeOfficeOutcome | scraper/main.py:100-189 | A scrape reports an error exactly when the page did not load, and then writes nothing and counts nothing; otherwise the counts add up to the slots extracted, and only the office's rows change |
| Scraper.ScrapeOffice | scraper/main.py:129-189 | `scrape_office` after navigation: each of the three error messages, or a processed page |
| Scraper.SlotAlerts | scraper/main.py:220-227 | One alert per new golden slot, in order, each to the same recipients with the office, date, time and booking link |
| Scraper.RunErrorsMatch | scraper/main.py:210-211 | There is one error entry per office whose summary failed, and each entry carries that office's message |
| Scraper.ScrapeOfficeSummary | scraper/main.py:129-189 | An office's summary names that office, carries an error exactly when the page did not load, and counts every extracted slot once |
| Scraper.RunOfficesValid | scraper/main.py:199-208 | However many offices have been scraped, the table stays valid |
| Scraper.SummariesFollowAt | scraper/main.py:203-211 | Summaries that follow the office list are no more than the offices, and summary i is about office i with an error exactly when page i did not load |
| Scraper.FollowStep | scraper/main.py:203-208 | A summary about the next office, with an error exactly when its page did not load, extends that correspondence |
| Scraper.AppendSummary | scraper/main.py:203-227 | One more office adds its counts to the totals, its error (if any) to the error list and its alerts to the outbox |
| Scraper.RunAllFailed | scraper/main.py:199-211 | When no page loads, the table is untouched, the totals are zero, every office is an error and no alert is sent |
| Scraper.SendGoldenAlerts | scraper/main.py:220-227 | The alert loop sends exactly the alerts for the new slots |
| Scraper.AlertOffice | scraper/main.py:218-227 | The office's new slots are sent to its active subscribers who want that office |
| Scraper.ScrapeOffices | scraper/main.py:199-230 | The office loop leaves the table after every office in turn. There is one summary per office, in order, with an error exactly where the page did not load. The golden and future totals add up to the slots extracted from the loaded pages. Its errors and outbox are those of the summaries |
| Scraper.RunScrape | scraper/main.py:192-239 | `main` appends one run row, completed with 13 offices, the totals and the errors. The table is the one after every office's scrape, there is one summary per office with an error exactly where the page did not load, and the recorded totals add up to the slots extracted |
| AppointmentsTable.FormatTime | components/AppointmentsTable.tsx:12-18 | A cell reads "Many" exactly when the time is null; a present time starts with a digit |
| AppointmentsTable.FormatTimeDistinguishes | components/AppointmentsTable.tsx:12-18 | Two cells read alike exactly when both are null or both show the same hour and minute |
| AppointmentsTable.FormatTimeExamples | components/AppointmentsTable.tsx:12-18 | Null is "Many"; 00:05 is "12:05 AM"; 14:00 is "2:00 PM" |
| AppointmentsTable.BuildClauses | components/AppointmentsTable.tsx:45-47 | At most two clauses are added: one for availability, one for offices |
| AppointmentsTable.SelectExt | components/AppointmentsTable.tsx:45-47 | Filters that agree on every row keep the same rows |
| AppointmentsTable.SelectSelect | components/AppointmentsTable.tsx:45-47 | Two chained filters keep the rows both accept, in table order |
| AppointmentsTable.ClausesMatchFilters | components/AppointmentsTable.tsx:45-47 | The clause chain keeps exactly the rows the filter describes. "Y" keeps available rows and "N" gone ones. An empty office list means every office |
| AppointmentsTable.NullsFirstKeyOrder | components/AppointmentsTable.tsx:43 | The time key puts a null time before every time, and orders times chronologically |
| AppointmentsTable.TableKeyOrder | components/AppointmentsTable.tsx:40-43 | The key order is exactly: golden first, then available first, then by date, then by time with nulls first |
| AppointmentsTable.FetchContents | components/AppointmentsTable.tsx:36-51 | The list holds every matching row as often as the table does, and nothing else |
| AppointmentsTable.FetchOrder | components/AppointmentsTable.tsx:40-43 | Every earlier row of the list may come before every later one in the four-column order |
| AppointmentsTable.PageCount | components/AppointmentsTable.tsx:68 | `Math.ceil(n / size)` is the fewest pages of `size` rows that hold `n` rows |
| AppointmentsTable.PageSlice | components/AppointmentsTable.tsx:69 | A page never holds more than the page size |
| AppointmentsTable.PageSliceSize | components/AppointmentsTable.tsx:68-69 | A page within the page count is never empty, and every page but the last is full |
| AppointmentsTable.PagesUpToPrefix | components/AppointmentsTable.tsx:69 | Pages 1 to k, one after another, are the list's first k·size rows |
| AppointmentsTable.PagesCoverList | components/AppointmentsTable.tsx:68-69 | Reading every page in turn shows the whole list, each row once, in order |
| AppointmentsTable.ShownRangeMatchesPage | components/AppointmentsTable.tsx:240 | On a page within the page count, the "from–to of n" caption names exactly the rows shown |
| AppointmentsTable.Remove | components/AppointmentsTable.tsx:75 | Unticking removes the office and keeps every other office |
| AppointmentsTable.Toggle | components/AppointmentsTable.tsx:71-78 | Clicking an office flips whether it is selected and leaves every other office as it was |
| AppointmentsTable.RemoveLast | components/AppointmentsTable.tsx:74-76 | Removing an office just appended restores the list |
| AppointmentsTable.ToggleTwice | components/AppointmentsTable.tsx:71-78 | Ticking an office and unticking it again restores the list, order included |
| AppointmentsTable.RemoveNoDuplicates | components/AppointmentsTable.tsx:75 | Removing keeps the list free of duplicates |
| AppointmentsTable.ToggleNoDuplicates | components/AppointmentsTable.tsx:71-78 | However the boxes are clicked, each office is listed at most once |
| AppointmentsTable.TableView.constructor | components/AppointmentsTable.tsx:30-33 | Initial state: no rows; available rows of every office; page 1; 25 rows per page |
| AppointmentsTable.TableView.FetchAppointments | components/AppointmentsTable.tsx:36-56 | Called by the `[filters]` effect: a successful fetch lists the query's result under the current filters, exactly the table rows those filters accept; a failed one keeps the list |
| AppointmentsTable.TableView.FeedRefresh | components/AppointmentsTable.tsx:58-65 | A change event re-runs the first render's query: a successful refresh lists exactly the available rows of every office, whatever the selection; filters and page are untouched |
| AppointmentsTable.FeedIgnoresFilters | components/AppointmentsTable.tsx:31-65 | With an office selected, an available row of another office is listed after a change event although the current filters exclude it, so the list differs from the current filters' result |
| AppointmentsTable.TableView.ApplyFilters | components/AppointmentsTable.tsx:53-56 | A new filter value refetches and returns to page 1 |
| AppointmentsTable.TableView.SetAvailability | components/AppointmentsTable.tsx:126-138 | The availability buttons change only the availability filter, refetch, and return to page 1 |
| AppointmentsTable.TableView.ToggleOffice | components/AppointmentsTable.tsx:71-78 | A click toggles the office in the filter, refetches, and returns to page 1 |
| AppointmentsTable.TableView.ClearOffices | components/AppointmentsTable.tsx:80 | Clearing empties the office filter, refetches, and returns to page 1 |
| AppointmentsTable.TableView.SetPageSize | components/AppointmentsTable.tsx:144-146 | A new page size returns to page 1 without a refetch |
| AppointmentsTable.TableView.PrevPage | components/AppointmentsTable.tsx:244 | Prev never goes below page 1 and never leaves the page range |
| AppointmentsTable.TableView.NextPage | components/AppointmentsTable.tsx:251 | Next never goes past the last page and lands within the page range |
| GoldenSlotsPanel.NullsLastKeyOrder | components/GoldenSlots.tsx:34 | The panel's time key orders times chronologically, with null times after every time |
| GoldenSlotsPanel.PanelKeyOrder | components/GoldenSlots.tsx:33-34 | The key order is exactly: by date, then by time |
| GoldenSlotsPanel.PanelRowsContents | components/GoldenSlots.tsx:27-36 | The panel lists every available golden row as often as the table holds it, and nothing else |
| GoldenSlotsPanel.PanelRowsOrder | components/GoldenSlots.tsx:33-34 | The panel's rows come in date order, and by time within a date |
| GoldenSlotsPanel.DayLabel | components/GoldenSlots.tsx:77 | The badge is "TODAY" exactly for 0 days and "TOMORROW" exactly for 1 |
| GoldenSlotsPanel.DayLabelInjective | components/GoldenSlots.tsx:77 | Different day counts, negative ones included, get different badges |
| GoldenSlotsPanel.DayLabelExamples | components/GoldenSlots.tsx:65-77 | Today, tomorrow, five days on and two days ago read "TODAY", "TOMORROW", "5 days away" and "-2 days away" |
| GoldenSlotsPanel.TimeLine | components/GoldenSlots.tsx:89 | A present time reads as in the table's time column; a null time shows nothing where the table shows "Many" |
| GoldenSlotsPanel.RenderPanel | components/GoldenSlots.tsx:49-77 | The panel is hidden exactly when no available golden row exists. Otherwise the count badge equals the number of such rows, with one card each, and day counts never decrease down the panel |
| GoldenSlotsPanel.GoldenPanel.FetchSlots | components/GoldenSlots.tsx:27-36 | A successful fetch shows the panel's query result; a failed one keeps the cards |
| GoldenSlotsPanel.CeilDiv | components/GoldenSlots.tsx:21 | `Math.ceil(a / b)` is the least whole number at or above the quotient |
| GoldenSlotsPanel.RoundDiv | components/GoldenSlots.tsx:21 | A helper of the corrected count `DaysUntilRounded`, which replaces the `Math.ceil` of this line by `Math.round`: rounding the quotient gives the nearest whole number, halves rounding up |
| GoldenSlotsPanel.DaysUntilAcrossFallBack | components/GoldenSlots.tsx:17-22 | On the day the clocks go back, a slot the next day is counted 2 days away and badged "2 days away" instead of "TOMORROW" |
| GoldenSlotsPanel.DaysUntilRounded | components/GoldenSlots.tsx:17-22 | Rounding instead of rounding up gives the calendar-day count whatever the clock change |
| EmailSignup.Normalize | components/EmailSignup.tsx:19 | The key is the lower-cased version of one slice of the input, and everything cut off on either side is whitespace. It has no whitespace at either end and no capital letter |
| EmailSignup.NormalizeIdempotent | components/EmailSignup.tsx:19 | Normalising a key again gives the same key |
| EmailSignup.WhitespaceOnlyIsEmptyKey | components/EmailSignup.tsx:12-19 | A string made only of blanks, if it reaches `handleSubmit`, passes the emptiness check and normalises to the empty key |
| EmailSignup.NormalizeLower | components/EmailSignup.tsx:19 | Capitals make no difference: an address and its lower-cased form get the same key |
| EmailSignup.NormalizeTrailingSpace | components/EmailSignup.tsx:19 | A blank after the address makes no difference to the key |
| EmailSignup.NormalizeLeadingSpace | components/EmailSignup.tsx:19 | A blank before the address makes no difference to the key |
| EmailSignup.TrimStartLower | components/EmailSignup.tsx:19 | Lower-casing commutes with stripping leading whitespace, so the order of `trim` and `toLowerCase` does not matter at the start |
| EmailSignup.TrimEndLower | components/EmailSignup.tsx:19 | Lower-casing commutes with stripping trailing whitespace |
| EmailSignup.SubmitTwiceOneRow | components/EmailSignup.tsx:17-19 | Two submissions that normalise alike leave one active row for the key. Every other address keeps its row count, and every row of another address is kept exactly as it was |
| EmailSignup.MixedCaseAndPaddingOneRow | components/EmailSignup.tsx:17-19 | Any address typed once as given and once lower-cased with a trailing blank (say "A@Example.com", then "a@example.com ") leaves a single row for its key |
| EmailSignup.SignupForm.constructor | components/EmailSignup.tsx:6-8 | The form starts empty and idle, with no error |
| EmailSignup.SignupForm.Edit | components/EmailSignup.tsx:53 | Typing replaces the field's text |
| EmailSignup.SignupForm.BeginSubmit | components/EmailSignup.tsx:10-15 | An empty field does nothing. Otherwise the form shows loading, clears the error and hands over the normalised key |
| EmailSignup.SignupForm.FinishSubmit | components/EmailSignup.tsx:17-27 | A failed write shows the fixed message and leaves the table and the field. A successful one upserts the key as active, shows success and clears the field |
| EmailSignup.SignupForm.HandleSubmit | components/EmailSignup.tsx:10-28 | The whole submission: nothing for an empty field; the error path; or the key upserted with success and an empty field |

## Left out

- Browser automation (Playwright navigation, waits, screenshots, the user agent) is left out. Its result is the `PageOutcome` parameter.
- Network, the store client and its construction (`get_client`, environment keys) are left out. The store is the `Tables.Store` object.
- Realtime channels are left out. A change event is modelled as a call of `TableView.FeedRefresh`.
- Sending e-mail (`scraper/alerts.py`) is left out. It is an outbox of `Alert` values.
- `scraper/runner.py` and `scraper/probe.py` are left out.
- The `LastChecked` component, page layout, row styling, the office drop-down's open state and label, and the `formatDate`/`firstSeen` date texts are left out. They are markup and date-fns formatting.
- Debug printing and the pause between offices are left out. They have no effect on state.
- Scraper.ScrapeOffice: an exception raised by a store write part-way through processing is not modelled. In the source that leaves earlier writes in place, partial counts and an error. In the model, an exception happens only before extraction (`Failed`).
- Scraper.ScrapeOffices: one clock reading per office stands in for the fresh `now_utc()` of each write and the fresh `today()` of each `is_golden` call.
- Scraper.RunErrorsMatch: `if summary["error"]` is modelled as "an error is present". Every error text the scraper builds is non-empty, so the two agree.
- SlotParse.ParseDataDatetime: Python's `\d` also accepts non-ASCII digits and `strip()` removes all Unicode whitespace; only ASCII digits and the listed whitespace characters are modelled.
- EmailSignup.Normalize: lower-casing is modelled for ASCII letters only. JavaScript's `toLowerCase` also maps other scripts.
- AppointmentsTable.TableView.FetchAppointments: the order in which overlapping fetch responses arrive is not modelled; each call completes before the next.
- AppointmentsTable.TableView.PrevPage: the button's `disabled` attribute is not modelled as a precondition. The clamped update already keeps the page in range.
- EmailSignup.SignupForm.HandleSubmit: the disabled button while loading is not modelled; a second submission simply runs again.
- EmailSignup.SignupForm.HandleSubmit: the browser's validation of the `type="email"` and `required` input (trimming the value, refusing empty or malformed addresses) is not modelled; `Edit` and `HandleSubmit` accept any string.
- GoldenSlotsPanel.CardOf: the card's badge uses the calendar-day difference `Clock.DaysUntil`, not the `Math.ceil` of `GoldenSlots.tsx:21`; the two differ only across a clock change, as the second row under "## Findings" shows.
- EmailSignup.SignupForm.Edit: once the status is success the component shows a thank-you message instead of the form (`EmailSignup.tsx:30-39`), so no further edit or submission can happen; the model does not forbid `Edit` or `HandleSubmit` in that state.
- Query.SortBy: the store's order among rows with equal sort keys is unspecified; the model keeps table order for ties.
- Timestamps are integers; ISO-8601 text and time zones of the stored timestamps are not modelled.
- Integer widths are not modelled: counts and ids are unbounded naturals, as Python's `int` is.

## Findings

| source | as written | input that shows it | evidently intended | confidence | as-written member | corrected member |
|---|---|---|---|---|---|---|
| components/AppointmentsTable.tsx:58-65 | The mount effect (dependencies `[]`) subscribes the first render's `fetchAppointments`, so every change event re-runs the query with the initial filters | Tick "Augusta", then any write to `appointments` (every scrape writes): the list shows available rows of all offices while "Augusta" stays ticked | The refresh uses the current filters | not executed | AppointmentsTable.FeedIgnoresFilters | AppointmentsTable.TableView.FetchAppointments |
| components/GoldenSlots.tsx:17-22 | `daysUntil` rounds up the milliseconds between two local midnights divided by one day | On the day clocks go back (a 25-hour day), a slot dated tomorrow gives ceil(25/24) = 2, badged "2 days away" | The calendar-day difference: "TOMORROW" | not executed | GoldenSlotsPanel.DaysUntilAcrossFallBack | GoldenSlotsPanel.DaysUntilRounded |

The rest of the panel uses the calendar-day difference `Clock.DaysUntil`, the one
`DaysUntilRounded` is proved to equal.
