# Facility dashboard: counts, colour tables and list logic

This project models the logic of a facility-management admin dashboard. The dashboard is a Next.js app over a
hosted data store. It shows four tables: rooms, maintenance tickets, transport entries and catering entries.
The modelled logic is small and pure. The network queries are left out. What each query returned is a parameter:
the store's `{ data, error }` pair, `Records.Response`.

- **Dashboard home page** (`Dashboard`, app/page.tsx). The four fetches are checked in order: rooms, maintenance,
  transport, catering. The first failure sets that domain's fixed message. The counts then keep their previous
  values. When no fetch fails, each table is reduced to a record of `filter(...).length` counts. A `null` table
  counts as empty.
- **Maintenance page** (`MaintenancePage`). It has two case-insensitive tables: priority to icon and status to
  colour. It splits the tickets into open and closed lists, filters them by site tab and shows four overview cards.
  It has a "days open" column and a new-request form.
- **Catering page** (`CateringPage`). It has its own status-to-colour table and a status chip that substitutes
  for a null status. Its overview cards are one count and two fixed zeros. It has a fetch transition.
- **Rooms page** (`RoomsPage`). It splits rooms into occupied and available lists and shows summary cards,
  including the fixed "Maintenance Requests" figure 3. It has a fetch transition.
- `Seqs` models JavaScript's `Array.prototype.filter`. It proves that a filter's result is the unique longest
  in-order sub-list whose elements all pass the test. `Consistency` shows that the dashboard's figures agree with
  the pages' figures for the same rows.

Each React `setState` update is a pure function from the previous state to the next one. "Now" and the local
time-zone offset are parameters. A date column is kept as its text together with the instant JavaScript parses it
to (`Records.DateString`). The model follows the code as written, including these behaviours:

- The dashboard's room "maintenance" count matches only the exact string `"maintenance"`. The row type spells the
  status `"Maintenance"`, so such rows are not counted; rows spelled exactly `"maintenance"` are.
- All dashboard and maintenance-list status and priority tests are exact and case-sensitive. Only the colour and
  icon tables lower-case their input.
- The dashboard reads `item.date` on catering rows. The declared catering row type has no such property; its date
  is `date_reported`. `Records.CateringEntry.date` is that property. It is `Undefined` for rows of the declared
  type. Such rows, and rows whose date is empty or does not parse, never enter the "today" or "upcoming"
  bucket. A `null` value reads as the epoch.
- An entry dated later on the current day counts both as "today" and as "upcoming".
- A maintenance ticket with status `"Closed"`, `"completed"` or `null` is listed as open. Only the exact string
  `"Completed"` closes a ticket.

## Model

| member | source | states |
|---|---|---|
| `Seqs.Filter` | app/page.tsx:257-290 | A filter's result is no longer than its input, and every element it keeps passes the test |
| `Seqs.FilterUnique` | app/maintenance/page.tsx:208 | A filter's result is the one longest in-order sub-list of its input whose elements all pass the test |
| `Seqs.FilterComplement` | app/rooms/page.tsx:72-73 | Filtering by a test and by its negation gives two lists whose lengths and multisets add up to the input |
| `Text.Lower` | app/maintenance/page.tsx:84 | `toLowerCase` keeps the length, maps each letter to lower case and leaves other characters alone |
| `Dashboard.RoomStatsOf` | app/page.tsx:258-263 | Occupied plus available equals total, the maintenance count is at most total, and a null list gives 0 |
| `Dashboard.MaintenanceStatsOf` | app/page.tsx:264-269 | High priority is at most total; in progress plus completed is at most total, since the labels are distinct |
| `Dashboard.TransportStatsOf` | app/page.tsx:270-275 | Active plus completed plus pending is at most total, since the three labels are distinct exact strings |
| `Dashboard.JsDate` | app/page.tsx:280 | An absent `date` property and the empty string are an Invalid Date, `null` is the epoch, and any other text is its parsed instant |
| `Dashboard.CateringStatsOf` | app/page.tsx:276-289 | The today, upcoming and completed counts are each at most total, which is the number of rows |
| `Dashboard.ComputeStats` | app/page.tsx:257-290 | Each sub-record's total is its table's length, and rooms split exactly into occupied and available |
| `Dashboard.FirstFailure` | app/page.tsx:229-254 | No message exactly when all four fetches succeed; otherwise the fixed message of the first failure, in the order rooms, maintenance, transport, catering |
| `Dashboard.BeginFetch` | app/page.tsx:226 | Fetching starts by setting loading, clearing the error and keeping the counts |
| `Dashboard.FetchDashboardData` | app/page.tsx:224-303 | Loading ends false and the error is the first failure's message. On a failure the counts are the previous ones; otherwise they are exactly the computed record |
| `Dashboard.EmptyInputsGiveZeroStats` | app/page.tsx:259-288 | Null tables and empty tables both give the all-zero record |
| `Dashboard.RefetchIsStable` | app/page.tsx:224-303 | Fetching again with the same answers leaves the state as it is |
| `Dashboard.RoomsFailureWins` | app/page.tsx:233 | A rooms failure gives the rooms message and keeps the previous counts, whatever the other fetches return |
| `Dashboard.RoomCountsExact` | app/page.tsx:260-261 | The occupied and available rows together are exactly the fetched rows, as a multiset |
| `Dashboard.CapitalisedMaintenanceNotCounted` | app/page.tsx:262 | Rooms whose status is "Maintenance" give a maintenance count of 0 |
| `Dashboard.ExactMaintenanceCounted` | app/page.tsx:262 | The maintenance list keeps every room whose status is exactly "maintenance", with its multiplicity, and no other room |
| `Dashboard.LowercaseMaintenanceCounted` | app/page.tsx:262 | Rooms whose status is exactly "maintenance" are all counted |
| `Dashboard.RoomsExample` | app/page.tsx:257-262 | An occupied room, a vacant room and a vacant room under maintenance give 3 total, 1 occupied, 2 available, 1 maintenance |
| `Dashboard.LowercaseInProgressNotCounted` | app/page.tsx:267 | Tickets whose status is "in progress" give an in-progress count of 0 |
| `Dashboard.ExactInProgressCounted` | app/page.tsx:267 | The in-progress list keeps every ticket whose status is exactly "In Progress", with its multiplicity, and no other ticket |
| `Dashboard.TitleCaseInProgressCounted` | app/page.tsx:267 | Tickets whose status is exactly "In Progress" are all counted |
| `Dashboard.InvalidDateNeverBucketed` | app/page.tsx:278-287 | A row whose `date` is an Invalid Date (absent, empty or unparseable) is in neither the today nor the upcoming list |
| `Dashboard.InvalidDatesCountZero` | app/page.tsx:278-287 | When no row's `date` is a valid date, the today and upcoming counts are both 0 |
| `Dashboard.LaterTodayCountedTwice` | app/page.tsx:278-287 | An entry later on the current local day is counted both today and upcoming |
| `Dashboard.UpcomingNotBeforeToday` | app/page.tsx:283-287 | An upcoming date never falls on an earlier local day than now |
| `MaintenancePage.PriorityIconOf` | app/maintenance/page.tsx:83-94 | High, medium and low in any case give the error, warning and schedule icons; null or anything else gives Build |
| `MaintenancePage.StatusColor` | app/maintenance/page.tsx:96-109 | In progress, pending, scheduled and completed in any case give primary, warning, info and success; null or anything else gives default; never error |
| `MaintenancePage.StatusColorIgnoresCase` | app/maintenance/page.tsx:97 | A status and its lower-case form get the same colour |
| `MaintenancePage.PriorityIconIgnoresCase` | app/maintenance/page.tsx:84 | A priority and its lower-case form get the same icon |
| `MaintenancePage.HighInAnyCaseIsError` | app/maintenance/page.tsx:84-86 | "HIGH" and "High" give the error icon, and "high" is coloured error |
| `MaintenancePage.OpenClosedPartition` | app/maintenance/page.tsx:182-183 | The open and closed lists keep the fetched order and together hold every ticket exactly once; open tickets are not "Completed" and closed ones are |
| `MaintenancePage.NearMissStatusesAreOpen` | app/maintenance/page.tsx:182-183 | A ticket whose status is "completed", "Closed" or null is open, not closed |
| `MaintenancePage.BeginFetch` | app/maintenance/page.tsx:166 | Fetching starts by setting loading, clearing the error and keeping both lists |
| `MaintenancePage.FetchMaintenanceData` | app/maintenance/page.tsx:164-199 | A store error sets the store's message and keeps both lists. Otherwise the lists become the open/closed split of the rows, and their lengths add up to the row count |
| `MaintenancePage.SiteFilter` | app/maintenance/page.tsx:205-213 | Tab 0 shows the list unchanged. Any other tab shows an in-order sub-list holding only tickets of that tab's site, or nothing for a tab outside the list |
| `MaintenancePage.SiteFilterExact` | app/maintenance/page.tsx:208 | On a site tab, the list shown is the unique longest sub-list of that site's tickets and keeps each one as often as it was fetched |
| `MaintenancePage.SiteFilterIdempotent` | app/maintenance/page.tsx:205-213 | Filtering twice with the same tab equals filtering once |
| `MaintenancePage.OverviewOf` | app/maintenance/page.tsx:248-267 | The high-priority and in-progress cards count only open tickets and are at most the open total; closed is the closed list's length |
| `MaintenancePage.CeilDiv` | app/maintenance/page.tsx:317 | `Math.ceil(x / d)` is the integer q with (q - 1)·d < x ≤ q·d |
| `MaintenancePage.DaysOpen` | app/maintenance/page.tsx:316-319 | A null or empty date shows N/A and an unparseable one NaN. Otherwise the cell is the ceiling of the elapsed milliseconds over 86,400,000 |
| `MaintenancePage.DaysOpenNonNegative` | app/maintenance/page.tsx:316-319 | A report date not in the future gives a non-negative day count |
| `MaintenancePage.DaysOpenMonotone` | app/maintenance/page.tsx:317 | The day count never decreases as time passes |
| `MaintenancePage.HandleChange` | app/maintenance/page.tsx:145-153 | The named field reads the new value and every other field reads as before; an unknown name changes no field |
| `MaintenancePage.HandleSubmit` | app/maintenance/page.tsx:155-162 | Submitting sets all four fields to "" |
| `MaintenancePage.ChangesCommute` | app/maintenance/page.tsx:145-153 | Changes to two different fields can be applied in either order |
| `MaintenancePage.RewriteIsNoChange` | app/maintenance/page.tsx:147 | Writing a field's current value leaves the form unchanged |
| `CateringPage.StatusColor` | app/catering/page.tsx:66-81 | In progress, scheduled, low, and completed or sufficient in any case give primary, info, warning and success; anything else gives default; never error |
| `CateringPage.StatusColorIgnoresCase` | app/catering/page.tsx:67 | A status and its lower-case form get the same colour |
| `CateringPage.StatusColorNotInjective` | app/catering/page.tsx:72-77 | "completed" and "sufficient" both give success |
| `CateringPage.PendingDiffersFromMaintenance` | app/catering/page.tsx:66-81 | "pending" gives default here but warning on the maintenance page |
| `CateringPage.ChipColor` | app/catering/page.tsx:209 | A null or empty status is looked up as "default" and so gives default; any other status gets its table colour |
| `CateringPage.ChipLabel` | app/catering/page.tsx:209 | The chip shows the status, or "N/A" when the status is null or empty |
| `CateringPage.BeginFetch` | app/catering/page.tsx:105 | Fetching starts by setting loading, clearing the error and keeping the meals |
| `CateringPage.FetchCateringData` | app/catering/page.tsx:103-127 | Loading ends false. A store error sets "Failed to fetch catering data" and keeps the meals; otherwise the meals are the fetched rows, or none for null |
| `CateringPage.OverviewOf` | app/catering/page.tsx:161-173 | "Total Meals Today" is the number of meals, with no date filter; the other two cards are 0 |
| `CateringPage.TotalMealsIsFetchedCount` | app/catering/page.tsx:115-119 | After a successful fetch, "Total Meals Today" is the number of rows fetched |
| `CateringPage.RefetchIsStable` | app/catering/page.tsx:103-127 | Fetching again with the same answer leaves the state as it is |
| `RoomsPage.OccupancyPartition` | app/rooms/page.tsx:72-73 | The occupied and available lists keep the fetched order and hold every room exactly once. Occupied rooms have a non-empty occupant; available rooms have a null or empty one |
| `RoomsPage.OverviewOf` | app/rooms/page.tsx:72-104 | Total rooms is the number of rooms and equals occupied plus available; the maintenance figure is 3 |
| `RoomsPage.BeginFetch` | app/rooms/page.tsx:46-47 | Fetching starts by setting loading, clearing the error and keeping the rooms |
| `RoomsPage.FetchRooms` | app/rooms/page.tsx:44-63 | Loading ends false either way. A store error sets the store's message and keeps the rooms; otherwise the rooms are the fetched rows |
| `RoomsPage.FailedFirstFetchShowsNoRooms` | app/rooms/page.tsx:38-62 | A failed first fetch leaves no rooms: cards 0, 0, 0 and the fixed 3 |
| `Consistency.RoomCardsAgree` | app/page.tsx:259-261 | The dashboard's room total, occupied and available equal the rooms page's figures for the same rows |
| `Consistency.MaintenanceCardsAgree` | app/page.tsx:264-269 | For the same tickets, the dashboard's completed count equals the maintenance page's closed count and in-progress counts agree. The page's open-only high-priority card is at most the dashboard's; dashboard total is open plus closed |

## Left out

- Network queries through the store client, on every page. Each query's outcome is a parameter of the
  transition functions. On the dashboard, the model receives all four answers at once. The source never issues
  the queries after the first failure, but the model ignores their answers, so the resulting state is the same.
- Exceptions other than a store error, such as a rejected query. The model has no such path. In the code, the
  dashboard and catering pages show a thrown `Error`'s own message and "An error occurred" for any other thrown
  value (app/page.tsx:301, app/catering/page.tsx:124). The maintenance page always shows "Failed to fetch
  maintenance data" (app/maintenance/page.tsx:191-197). The rooms page shows the thrown value's `message`
  (app/rooms/page.tsx:58-59).
- JavaScript date parsing, `toDateString`, `toLocaleDateString` and date-fns formatting. A parsed date is given as
  a millisecond timestamp. `Records.DateString` pairs a text with that result, and nothing ties the two except
  that `Dashboard.JsDate` and `MaintenancePage.DaysOpen` treat the empty text as unparsed. The local day uses one fixed time-zone offset, so daylight-saving changes are not
  modelled.
- Dashboard.CateringStatsOf: reads "now" once. The source builds a fresh `new Date()` for every row, so rows
  compared across a day boundary during one computation are not modelled.
- MaintenancePage.DaysOpen: integer ceiling division on milliseconds instead of floating-point `/` followed by
  `Math.ceil`. For realistic timestamps the two agree, because the exact quotient stays far from an integer
  compared with double rounding error.
- MaintenancePage.HandleChange: with a field name outside the form, JavaScript adds an extra property to the
  object. The model leaves the four fields unchanged and does not represent the extra property.
- Text.Lower: lower-cases ASCII letters only. JavaScript's `toLowerCase` also maps non-ASCII letters. None of the
  table labels contains a letter whose non-ASCII case variant lower-cases to it, so matches are unaffected.
- React rendering, the loading and error screens, dialogs, tabs, routing and the modal's open/closed flag.
  These are presentation only.
- The transportation page, which only shows a list length and fixed figures. The login route and the static
  rooms API route are left out too: the first wraps a token library, and the second returns a literal list.
- The seeding scripts, which insert literal rows into the remote store.
