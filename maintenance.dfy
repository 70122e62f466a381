/**
 * The maintenance page (app/maintenance/page.tsx): the priority icon and status
 * colour tables, the open/closed split of the fetched tickets, the site tabs,
 * the overview cards, the "days open" column and the new-request form.
 */
module MaintenancePage {
  import opened Wrappers
  import opened Seqs
  import opened Text
  import opened Tags
  import opened Records

  /** The labels of the site tabs; tab 0 shows every site. */
  const Sites: seq<string> := [
    "All Sites",
    "Pretoria CBD",
    "Capital Park",
    "Kempton Park | CJ",
    "Olievenhoutbosch",
    "Benoni | Tom Jones"
  ]

  // ------------------------------------------------------- colour tables

  /** The icon shown beside a priority; the Build icon carries no colour of its own. */
  datatype PriorityIcon = ErrorIcon | WarningIcon | ScheduleIcon | BuildIcon

  function IconColor(icon: PriorityIcon): Option<Severity> {
    match icon
    case ErrorIcon => Some(Error)
    case WarningIcon => Some(Warning)
    case ScheduleIcon => Some(Info)
    case BuildIcon => None
  }

  /** `getPriorityIcon`: a case-insensitive switch on the priority. */
  function PriorityIconOf(priority: Option<string>): (icon: PriorityIcon)
    ensures icon == ErrorIcon <==> priority.Some? && Lower(priority.value) == "high"
    ensures icon == WarningIcon <==> priority.Some? && Lower(priority.value) == "medium"
    ensures icon == ScheduleIcon <==> priority.Some? && Lower(priority.value) == "low"
    ensures priority.None? ==> icon == BuildIcon
  {
    if priority.None? then BuildIcon
    else
      var p := Lower(priority.value);
      if p == "high" then ErrorIcon
      else if p == "medium" then WarningIcon
      else if p == "low" then ScheduleIcon
      else BuildIcon
  }

  /** `getStatusColor`: a case-insensitive switch on the status. */
  function StatusColor(status: Option<string>): (c: Severity)
    ensures c != Error
    ensures c == Primary <==> status.Some? && Lower(status.value) == "in progress"
    ensures c == Warning <==> status.Some? && Lower(status.value) == "pending"
    ensures c == Info <==> status.Some? && Lower(status.value) == "scheduled"
    ensures c == Success <==> status.Some? && Lower(status.value) == "completed"
    ensures status.None? ==> c == Default
  {
    if status.None? then Default
    else
      var s := Lower(status.value);
      if s == "in progress" then Primary
      else if s == "pending" then Warning
      else if s == "scheduled" then Info
      else if s == "completed" then Success
      else Default
  }

  /** Only the letters' case is ignored: a status and its lower-case form get the same colour. */
  lemma StatusColorIgnoresCase(status: string)
    ensures StatusColor(Some(status)) == StatusColor(Some(Lower(status)))
  {
    LowerIdempotent(status);
  }

  lemma PriorityIconIgnoresCase(priority: string)
    ensures PriorityIconOf(Some(priority)) == PriorityIconOf(Some(Lower(priority)))
  {
    LowerIdempotent(priority);
  }

  /** "HIGH", "High" and "high" all get the red error icon. */
  lemma HighInAnyCaseIsError()
    ensures PriorityIconOf(Some("HIGH")) == ErrorIcon
    ensures PriorityIconOf(Some("High")) == ErrorIcon
    ensures IconColor(PriorityIconOf(Some("high"))) == Some(Error)
  {
    assert Lower("HIGH") == "high";
    assert Lower("High") == "high";
    LowerOfLowercase("high");
  }

  // --------------------------------------------------- open/closed split

  datatype MaintenanceState = MaintenanceState(
    openRequests: seq<Ticket>,
    closedRequests: seq<Ticket>,
    loading: bool,
    error: Option<string>)

  const InitialState: MaintenanceState := MaintenanceState([], [], true, None)

  /** `item.status !== 'Completed'`: any other spelling, and a null status, is open. */
  predicate IsOpen(t: Ticket) {
    !IsCompleted(t)
  }

  function OpenRequests(data: Option<seq<Ticket>>): seq<Ticket> {
    Filter(Rows(data), IsOpen)
  }

  function ClosedRequests(data: Option<seq<Ticket>>): seq<Ticket> {
    Filter(Rows(data), IsCompleted)
  }

  /**
   * The open and closed lists split the fetched tickets: each keeps the fetched
   * order, every ticket lands in exactly one of them, and nothing is added.
   */
  lemma OpenClosedPartition(data: Option<seq<Ticket>>)
    ensures |OpenRequests(data)| + |ClosedRequests(data)| == |Rows(data)|
    ensures multiset(OpenRequests(data)) + multiset(ClosedRequests(data)) == multiset(Rows(data))
    ensures IsSubsequence(OpenRequests(data), Rows(data))
    ensures IsSubsequence(ClosedRequests(data), Rows(data))
    ensures forall i :: 0 <= i < |OpenRequests(data)| ==> OpenRequests(data)[i].status != Some("Completed")
    ensures forall i :: 0 <= i < |ClosedRequests(data)| ==> ClosedRequests(data)[i].status == Some("Completed")
  {
    FilterComplement(Rows(data), IsCompleted, IsOpen);
    FilterIsSubsequence(Rows(data), IsOpen);
    FilterIsSubsequence(Rows(data), IsCompleted);
  }

  /** "completed", "Closed" and a null status all leave a ticket among the open ones. */
  lemma NearMissStatusesAreOpen(t: Ticket)
    requires t.status in {Some("completed"), Some("Closed"), None}
    ensures OpenRequests(Some([t])) == [t]
    ensures ClosedRequests(Some([t])) == []
  {
  }

  /** `setState(prev => ({ ...prev, loading: true, error: null }))` */
  function BeginFetch(prev: MaintenanceState): (next: MaintenanceState)
    ensures next.loading && next.error.None?
    ensures next.openRequests == prev.openRequests && next.closedRequests == prev.closedRequests
  {
    prev.(loading := true, error := None)
  }

  /**
   * `fetchMaintenanceData`: a store error is shown with its own message and the
   * lists stay as they were; otherwise both lists are replaced by the split.
   */
  function FetchMaintenanceData(prev: MaintenanceState, response: Response<Ticket>): (next: MaintenanceState)
    ensures !next.loading
    ensures next.error == response.error
    ensures response.error.Some? ==>
      next.openRequests == prev.openRequests && next.closedRequests == prev.closedRequests
    ensures response.error.None? ==>
      |next.openRequests| + |next.closedRequests| == |Rows(response.data)| &&
      next.openRequests == OpenRequests(response.data) &&
      next.closedRequests == ClosedRequests(response.data)
  {
    var started := BeginFetch(prev);
    if response.error.Some? then
      started.(loading := false, error := response.error)
    else
      OpenClosedPartition(response.data);
      MaintenanceState(OpenRequests(response.data), ClosedRequests(response.data), false, None)
  }

  // ---------------------------------------------------------- site tabs

  /** `request.site === sites[tab]` for a tab inside the list. */
  predicate OnSite(tab: int, t: Ticket)
    requires 0 <= tab < |Sites|
  {
    t.site == Sites[tab]
  }

  function SiteTest(tab: int): Ticket -> bool
    requires 0 <= tab < |Sites|
  {
    (t: Ticket) => OnSite(tab, t)
  }

  /**
   * `siteFilter === 0 ? requests : requests.filter(r => r.site === sites[siteFilter])`.
   * A tab outside the list reads `undefined`, which no site equals.
   */
  function SiteFilter(requests: seq<Ticket>, tab: int): (shown: seq<Ticket>)
    ensures tab == 0 ==> shown == requests
    ensures IsSubsequence(shown, requests)
    ensures tab != 0 ==> forall i :: 0 <= i < |shown| ==> 0 < tab < |Sites| && shown[i].site == Sites[tab]
  {
    if tab == 0 then
      SubsequenceReflexive(requests);
      requests
    else if 0 < tab < |Sites| then
      FilterIsSubsequence(requests, SiteTest(tab));
      Filter(requests, SiteTest(tab))
    else
      EmptySubsequence(requests);
      []
  }

  /**
   * On a site tab the list shown is the longest in-order sub-list of tickets of
   * that site, and every ticket of that site appears in it as often as fetched.
   */
  lemma SiteFilterExact(requests: seq<Ticket>, tab: int, other: seq<Ticket>)
    requires 0 < tab < |Sites|
    requires IsSubsequence(other, requests)
    requires forall i :: 0 <= i < |other| ==> other[i].site == Sites[tab]
    ensures |other| <= |SiteFilter(requests, tab)|
    ensures |other| == |SiteFilter(requests, tab)| ==> other == SiteFilter(requests, tab)
    ensures forall t: Ticket :: t.site == Sites[tab] ==> multiset(SiteFilter(requests, tab))[t] == multiset(requests)[t]
  {
    assert forall i :: 0 <= i < |other| ==> SiteTest(tab)(other[i]);
    SatisfyingSubsequenceBound(other, requests, SiteTest(tab));
    if |other| == |SiteFilter(requests, tab)| {
      FilterUnique(other, requests, SiteTest(tab));
    }
    FilterMultiset(requests, SiteTest(tab));
  }

  lemma SiteFilterIdempotent(requests: seq<Ticket>, tab: int)
    ensures SiteFilter(SiteFilter(requests, tab), tab) == SiteFilter(requests, tab)
  {
    if 0 < tab < |Sites| {
      FilterIdempotent(requests, SiteTest(tab));
    }
  }

  // ------------------------------------------------------ overview cards

  datatype Overview = Overview(totalOpen: nat, highPriority: nat, inProgress: nat, closed: nat)

  /** The four cards, computed from the unfiltered lists whatever the site tab. */
  function OverviewOf(state: MaintenanceState): (o: Overview)
    ensures o.totalOpen == |state.openRequests|
    ensures o.closed == |state.closedRequests|
    ensures o.highPriority <= o.totalOpen
    ensures o.inProgress <= o.totalOpen
  {
    Overview(
      |state.openRequests|,
      |Filter(state.openRequests, IsHighPriority)|,
      |Filter(state.openRequests, IsInProgress)|,
      |state.closedRequests|)
  }

  // ---------------------------------------------------------- days open

  /** The whole days open, or a cell that shows "NaN" or "N/A". */
  datatype DaysOpenCell = Days(n: int) | NotANumber | NotAvailable

  /** `Math.ceil(x / d)` for a positive `d`. */
  function CeilDiv(x: int, d: int): (q: int)
    requires d > 0
    ensures (q - 1) * d < x <= q * d
  {
    var f := (-x) / d;
    assert d * f <= -x < d * f + d;
    -f
  }

  /**
   * `request.date_reported ? Math.ceil((now - reported) / 86400000) : 'N/A'`:
   * an empty or null date shows N/A, an unparseable one NaN.
   */
  function DaysOpen(dateReported: Option<DateString>, now: int): (cell: DaysOpenCell)
    ensures dateReported.None? || dateReported.value.text == "" <==> cell == NotAvailable
    ensures cell == NotANumber <==> dateReported.Some? && dateReported.value.text != "" && dateReported.value.parsed.None?
    ensures cell.Days? ==>
      var elapsed := now - dateReported.value.parsed.value;
      (cell.n - 1) * MsPerDay < elapsed <= cell.n * MsPerDay
  {
    if dateReported.None? || dateReported.value.text == "" then NotAvailable
    else if dateReported.value.parsed.None? then NotANumber
    else Days(CeilDiv(now - dateReported.value.parsed.value, MsPerDay))
  }

  /** A report date that is not in the future gives a non-negative count. */
  lemma DaysOpenNonNegative(dateReported: DateString, now: int)
    requires dateReported.text != "" && dateReported.parsed.Some?
    requires dateReported.parsed.value <= now
    ensures DaysOpen(Some(dateReported), now).Days?
    ensures DaysOpen(Some(dateReported), now).n >= 0
  {
  }

  /** Counting days is monotone in the current instant. */
  lemma DaysOpenMonotone(dateReported: DateString, now: int, later: int)
    requires dateReported.text != "" && dateReported.parsed.Some?
    requires now <= later
    ensures DaysOpen(Some(dateReported), now).n <= DaysOpen(Some(dateReported), later).n
  {
  }

  // ------------------------------------------------------ request form

  datatype NewRequest = NewRequest(site: string, room: string, issue: string, priority: string)

  const EmptyRequest: NewRequest := NewRequest("", "", "", "")

  const FieldNames: set<string> := {"site", "room", "issue", "priority"}

  /** `newRequest[name]`, or `None` for a name the form does not have. */
  function FieldValue(r: NewRequest, name: string): (v: Option<string>)
    ensures v.Some? <==> name in FieldNames
  {
    if name == "site" then Some(r.site)
    else if name == "room" then Some(r.room)
    else if name == "issue" then Some(r.issue)
    else if name == "priority" then Some(r.priority)
    else None
  }

  /**
   * `handleInputChange` and `handleSelectChange`:
   * `setNewRequest(prev => ({ ...prev, [name]: value }))`.
   */
  function HandleChange(prev: NewRequest, name: string, value: string): (next: NewRequest)
    ensures name in FieldNames ==> FieldValue(next, name) == Some(value)
    ensures forall other :: other != name ==> FieldValue(next, other) == FieldValue(prev, other)
  {
    if name == "site" then prev.(site := value)
    else if name == "room" then prev.(room := value)
    else if name == "issue" then prev.(issue := value)
    else if name == "priority" then prev.(priority := value)
    else prev
  }

  /** `handleSubmit`: the form is cleared, whatever it held. */
  function HandleSubmit(prev: NewRequest): (next: NewRequest)
    ensures forall name :: name in FieldNames ==> FieldValue(next, name) == Some("")
  {
    EmptyRequest
  }

  /** Two readings of the same form agree on every name exactly when the forms are equal. */
  lemma FieldValuesDetermineRequest(a: NewRequest, b: NewRequest)
    requires forall name :: FieldValue(a, name) == FieldValue(b, name)
    ensures a == b
  {
    assert FieldValue(a, "site") == FieldValue(b, "site");
    assert FieldValue(a, "room") == FieldValue(b, "room");
    assert FieldValue(a, "issue") == FieldValue(b, "issue");
    assert FieldValue(a, "priority") == FieldValue(b, "priority");
  }

  /** Changes to two different fields can be applied in either order. */
  lemma ChangesCommute(r: NewRequest, n1: string, v1: string, n2: string, v2: string)
    requires n1 != n2
    ensures HandleChange(HandleChange(r, n1, v1), n2, v2) == HandleChange(HandleChange(r, n2, v2), n1, v1)
  {
    var a := HandleChange(HandleChange(r, n1, v1), n2, v2);
    var b := HandleChange(HandleChange(r, n2, v2), n1, v1);
    forall name ensures FieldValue(a, name) == FieldValue(b, name) {
    }
    FieldValuesDetermineRequest(a, b);
  }

  /** Writing the value a field already holds leaves the form unchanged. */
  lemma RewriteIsNoChange(r: NewRequest, name: string)
    requires name in FieldNames
    ensures HandleChange(r, name, FieldValue(r, name).value) == r
  {
    var a := HandleChange(r, name, FieldValue(r, name).value);
    forall other ensures FieldValue(a, other) == FieldValue(r, other) {
    }
    FieldValuesDetermineRequest(a, r);
  }
}
