/**
 * The dashboard home page (app/page.tsx): four fetches checked in order, then
 * four count records built from `filter(...).length`, or the first fetch
 * failure's message with the previous counts left in place.
 */
module Dashboard {
  import opened Wrappers
  import opened Seqs
  import opened Records

  datatype RoomStats = RoomStats(total: nat, occupied: nat, available: nat, maintenance: nat)
  datatype MaintenanceStats = MaintenanceStats(total: nat, highPriority: nat, inProgress: nat, completed: nat)
  datatype TransportStats = TransportStats(total: nat, active: nat, completed: nat, pending: nat)
  datatype CateringStats = CateringStats(total: nat, today: nat, upcoming: nat, completed: nat)

  datatype Stats = Stats(
    rooms: RoomStats,
    maintenance: MaintenanceStats,
    transport: TransportStats,
    catering: CateringStats)

  datatype DashboardState = DashboardState(loading: bool, error: Option<string>, stats: Stats)

  const ZeroStats: Stats := Stats(
    RoomStats(0, 0, 0, 0),
    MaintenanceStats(0, 0, 0, 0),
    TransportStats(0, 0, 0, 0),
    CateringStats(0, 0, 0, 0))

  const InitialState: DashboardState := DashboardState(true, None, ZeroStats)

  const RoomsFailed: string := "Failed to fetch rooms data"
  const MaintenanceFailed: string := "Failed to fetch maintenance data"
  const TransportFailed: string := "Failed to fetch transport data"
  const CateringFailed: string := "Failed to fetch catering data"

  // ---------------------------------------------------------------- rooms

  /** `room.status === 'maintenance'`: only the lower-case spelling matches. */
  predicate RoomUnderMaintenance(r: Room) {
    r.status == "maintenance"
  }

  function RoomStatsOf(data: Option<seq<Room>>): (st: RoomStats)
    ensures st.total == |Rows(data)|
    ensures st.occupied + st.available == st.total
    ensures st.maintenance <= st.total
  {
    var rows := Rows(data);
    FilterComplement(rows, HasOccupant, IsVacant);
    RoomStats(
      |rows|,
      |Filter(rows, HasOccupant)|,
      |Filter(rows, IsVacant)|,
      |Filter(rows, RoomUnderMaintenance)|)
  }

  // ---------------------------------------------------------- maintenance

  function MaintenanceStatsOf(data: Option<seq<Ticket>>): (st: MaintenanceStats)
    ensures st.total == |Rows(data)|
    ensures st.highPriority <= st.total
    ensures st.inProgress + st.completed <= st.total
  {
    var rows := Rows(data);
    FilterDisjoint2(rows, IsInProgress, IsCompleted);
    MaintenanceStats(
      |rows|,
      |Filter(rows, IsHighPriority)|,
      |Filter(rows, IsInProgress)|,
      |Filter(rows, IsCompleted)|)
  }

  // ------------------------------------------------------------ transport

  predicate IsActive(e: TransportEntry) {
    e.status == Some("Active")
  }

  predicate IsTransportCompleted(e: TransportEntry) {
    e.status == Some("Completed")
  }

  predicate IsPending(e: TransportEntry) {
    e.status == Some("Pending")
  }

  function TransportStatsOf(data: Option<seq<TransportEntry>>): (st: TransportStats)
    ensures st.total == |Rows(data)|
    ensures st.active + st.completed + st.pending <= st.total
  {
    var rows := Rows(data);
    FilterDisjoint3(rows, IsActive, IsTransportCompleted, IsPending);
    TransportStats(
      |rows|,
      |Filter(rows, IsActive)|,
      |Filter(rows, IsTransportCompleted)|,
      |Filter(rows, IsPending)|)
  }

  // ------------------------------------------------------------- catering

  /**
   * `new Date(item.date)`: an absent property and the empty string give an
   * Invalid Date, `null` gives the epoch, and any other string gives whatever
   * it parses to.
   */
  function JsDate(c: Column<DateString>): (d: Option<int>)
    ensures c.Undefined? ==> d.None?
    ensures c.Null? ==> d == Some(0)
    ensures c.Value? && c.value.text == "" ==> d.None?
    ensures c.Value? && c.value.text != "" ==> d == c.value.parsed
  {
    match c
    case Undefined => None
    case Null => Some(0)
    case Value(s) => if s.text == "" then None else s.parsed
  }

  /** The local calendar day of instant `t` for a clock `tzOffset` milliseconds ahead of UTC. */
  function LocalDay(t: int, tzOffset: int): int {
    (t + tzOffset) / MsPerDay
  }

  /** `itemDate.toDateString() === today.toDateString()`; an Invalid Date is never today. */
  predicate IsToday(d: Option<int>, now: int, tzOffset: int) {
    d.Some? && LocalDay(d.value, tzOffset) == LocalDay(now, tzOffset)
  }

  /** `itemDate > today`; every comparison with an Invalid Date is false. */
  predicate IsUpcoming(d: Option<int>, now: int) {
    d.Some? && d.value > now
  }

  function TodayTest(now: int, tzOffset: int): CateringEntry -> bool {
    (e: CateringEntry) => IsToday(JsDate(e.date), now, tzOffset)
  }

  function UpcomingTest(now: int): CateringEntry -> bool {
    (e: CateringEntry) => IsUpcoming(JsDate(e.date), now)
  }

  predicate IsCateringCompleted(e: CateringEntry) {
    e.status == Some("Completed")
  }

  function CateringStatsOf(data: Option<seq<CateringEntry>>, now: int, tzOffset: int): (st: CateringStats)
    ensures st.total == |Rows(data)|
    ensures st.today <= st.total && st.upcoming <= st.total && st.completed <= st.total
  {
    var rows := Rows(data);
    CateringStats(
      |rows|,
      |Filter(rows, TodayTest(now, tzOffset))|,
      |Filter(rows, UpcomingTest(now))|,
      |Filter(rows, IsCateringCompleted)|)
  }

  // ---------------------------------------------------------------- stats

  function ComputeStats(
    rooms: Option<seq<Room>>,
    maintenance: Option<seq<Ticket>>,
    transport: Option<seq<TransportEntry>>,
    catering: Option<seq<CateringEntry>>,
    now: int, tzOffset: int): (st: Stats)
    ensures st.rooms.occupied + st.rooms.available == st.rooms.total == |Rows(rooms)|
    ensures st.maintenance.total == |Rows(maintenance)|
    ensures st.transport.total == |Rows(transport)|
    ensures st.catering.total == |Rows(catering)|
  {
    Stats(
      RoomStatsOf(rooms),
      MaintenanceStatsOf(maintenance),
      TransportStatsOf(transport),
      CateringStatsOf(catering, now, tzOffset))
  }

  /**
   * The message of the first failed fetch, checked in the order rooms,
   * maintenance, transport, catering; the store's own error text is discarded.
   */
  function FirstFailure(
    roomsError: Option<string>, maintenanceError: Option<string>,
    transportError: Option<string>, cateringError: Option<string>): (msg: Option<string>)
    ensures msg.None? <==>
      roomsError.None? && maintenanceError.None? && transportError.None? && cateringError.None?
    ensures roomsError.Some? ==> msg == Some(RoomsFailed)
    ensures roomsError.None? && maintenanceError.Some? ==> msg == Some(MaintenanceFailed)
    ensures roomsError.None? && maintenanceError.None? && transportError.Some? ==> msg == Some(TransportFailed)
    ensures roomsError.None? && maintenanceError.None? && transportError.None? && cateringError.Some?
      ==> msg == Some(CateringFailed)
  {
    if roomsError.Some? then Some(RoomsFailed)
    else if maintenanceError.Some? then Some(MaintenanceFailed)
    else if transportError.Some? then Some(TransportFailed)
    else if cateringError.Some? then Some(CateringFailed)
    else None
  }

  /** `setState(prev => ({ ...prev, loading: true, error: null }))` */
  function BeginFetch(prev: DashboardState): (next: DashboardState)
    ensures next.loading && next.error.None? && next.stats == prev.stats
  {
    prev.(loading := true, error := None)
  }

  /**
   * `fetchDashboardData`: from the state before the fetch to the state after
   * it, given what each of the four queries returned and the current instant.
   */
  function FetchDashboardData(
    prev: DashboardState,
    rooms: Response<Room>,
    maintenance: Response<Ticket>,
    transport: Response<TransportEntry>,
    catering: Response<CateringEntry>,
    now: int, tzOffset: int): (next: DashboardState)
    ensures !next.loading
    ensures next.error == FirstFailure(rooms.error, maintenance.error, transport.error, catering.error)
    ensures next.error.Some? ==> next.stats == prev.stats
    ensures next.error.None? ==>
      next.stats == ComputeStats(rooms.data, maintenance.data, transport.data, catering.data, now, tzOffset)
  {
    var started := BeginFetch(prev);
    var failure := FirstFailure(rooms.error, maintenance.error, transport.error, catering.error);
    if failure.Some? then
      started.(loading := false, error := failure)
    else
      started.(
        loading := false,
        stats := ComputeStats(rooms.data, maintenance.data, transport.data, catering.data, now, tzOffset))
  }

  // ---------------------------------------------------------------- lemmas

  /** A missing collection and an empty one both give all-zero counts. */
  lemma EmptyInputsGiveZeroStats(now: int, tzOffset: int)
    ensures ComputeStats(None, None, None, None, now, tzOffset) == ZeroStats
    ensures ComputeStats(Some([]), Some([]), Some([]), Some([]), now, tzOffset) == ZeroStats
  {
  }

  /** Fetching again with the same answers changes nothing: the transition is idempotent. */
  lemma RefetchIsStable(
    prev: DashboardState,
    rooms: Response<Room>, maintenance: Response<Ticket>,
    transport: Response<TransportEntry>, catering: Response<CateringEntry>,
    now: int, tzOffset: int)
    ensures var once := FetchDashboardData(prev, rooms, maintenance, transport, catering, now, tzOffset);
            FetchDashboardData(once, rooms, maintenance, transport, catering, now, tzOffset) == once
  {
  }

  /** A rooms failure wins over every later failure, whatever the later answers are. */
  lemma RoomsFailureWins(
    prev: DashboardState,
    rooms: Response<Room>, maintenance: Response<Ticket>,
    transport: Response<TransportEntry>, catering: Response<CateringEntry>,
    now: int, tzOffset: int)
    requires rooms.error.Some?
    ensures FetchDashboardData(prev, rooms, maintenance, transport, catering, now, tzOffset)
         == prev.(loading := false, error := Some(RoomsFailed))
  {
  }

  /** Every room is either occupied or available, and the maintenance count matches only "maintenance". */
  lemma RoomCountsExact(rooms: seq<Room>)
    ensures RoomStatsOf(Some(rooms)).occupied == |Filter(rooms, HasOccupant)|
    ensures multiset(Filter(rooms, HasOccupant)) + multiset(Filter(rooms, IsVacant)) == multiset(rooms)
  {
    FilterComplement(rooms, HasOccupant, IsVacant);
  }

  /** A room whose status is "Maintenance" (capitalised, as the row type spells it) is not counted. */
  lemma CapitalisedMaintenanceNotCounted(rooms: seq<Room>)
    requires forall i :: 0 <= i < |rooms| ==> rooms[i].status == "Maintenance"
    ensures RoomStatsOf(Some(rooms)).maintenance == 0
  {
    FilterNone(rooms, RoomUnderMaintenance);
  }

  /**
   * The maintenance list keeps every room whose status is exactly "maintenance",
   * as often as it occurs, and no other room.
   */
  lemma ExactMaintenanceCounted(rooms: seq<Room>)
    ensures forall r: Room :: multiset(Filter(rooms, RoomUnderMaintenance))[r] ==
                              if r.status == "maintenance" then multiset(rooms)[r] else 0
  {
    FilterMultiset(rooms, RoomUnderMaintenance);
  }

  /** Rooms whose status is exactly "maintenance" are all counted. */
  lemma LowercaseMaintenanceCounted(rooms: seq<Room>)
    requires forall i :: 0 <= i < |rooms| ==> rooms[i].status == "maintenance"
    ensures RoomStatsOf(Some(rooms)).maintenance == |rooms|
  {
    FilterAll(rooms, RoomUnderMaintenance);
  }

  /** Jane's room, an empty room and an empty room under maintenance: 3 rooms, 1 occupied, 2 available, 1 maintenance. */
  lemma RoomsExample(jane: Room, empty: Room, underRepair: Room)
    requires jane.occupant == Some("Jane") && jane.status == "Occupied"
    requires empty.occupant.None? && empty.status == "Vacant"
    requires underRepair.occupant.None? && underRepair.status == "maintenance"
    ensures RoomStatsOf(Some([jane, empty, underRepair])) == RoomStats(3, 1, 2, 1)
  {
    var rooms := [jane, empty, underRepair];
    assert "Occupied" != "maintenance" && "Vacant" != "maintenance" by {
      assert "Occupied"[0] != "maintenance"[0] && "Vacant"[0] != "maintenance"[0];
    }
    assert rooms[1..] == [empty, underRepair] && rooms[1..][1..] == [underRepair];
    assert Filter([underRepair], HasOccupant) == [];
    assert Filter([underRepair], IsVacant) == [underRepair];
    assert Filter([underRepair], RoomUnderMaintenance) == [underRepair];
    assert Filter([empty, underRepair], HasOccupant) == [];
    assert Filter([empty, underRepair], IsVacant) == [empty, underRepair];
    assert Filter([empty, underRepair], RoomUnderMaintenance) == [underRepair];
  }

  /**
   * The in-progress list keeps every ticket whose status is exactly "In Progress",
   * as often as it occurs, and no other ticket.
   */
  lemma ExactInProgressCounted(tickets: seq<Ticket>)
    ensures forall t: Ticket :: multiset(Filter(tickets, IsInProgress))[t] ==
                                if t.status == Some("In Progress") then multiset(tickets)[t] else 0
  {
    FilterMultiset(tickets, IsInProgress);
  }

  /** Tickets whose status is exactly "In Progress" are all counted as in progress. */
  lemma TitleCaseInProgressCounted(tickets: seq<Ticket>)
    requires forall i :: 0 <= i < |tickets| ==> tickets[i].status == Some("In Progress")
    ensures MaintenanceStatsOf(Some(tickets)).inProgress == |tickets|
  {
    FilterAll(tickets, IsInProgress);
  }

  /** A ticket whose status is "in progress" (lower case) is not counted as in progress. */
  lemma LowercaseInProgressNotCounted(tickets: seq<Ticket>)
    requires forall i :: 0 <= i < |tickets| ==> tickets[i].status == Some("in progress")
    ensures MaintenanceStatsOf(Some(tickets)).inProgress == 0
  {
    FilterNone(tickets, IsInProgress);
  }

  /**
   * A catering row whose `date` is an Invalid Date (absent, as for every row of
   * the declared type, empty, or unparseable) is in neither date bucket.
   */
  lemma InvalidDateNeverBucketed(rows: seq<CateringEntry>, now: int, tzOffset: int)
    ensures forall e: CateringEntry :: JsDate(e.date).None? ==>
      multiset(Filter(rows, TodayTest(now, tzOffset)))[e] == 0 &&
      multiset(Filter(rows, UpcomingTest(now)))[e] == 0
  {
    FilterMultiset(rows, TodayTest(now, tzOffset));
    FilterMultiset(rows, UpcomingTest(now));
  }

  /** When no row has a valid date, both date buckets are empty. */
  lemma InvalidDatesCountZero(rows: seq<CateringEntry>, now: int, tzOffset: int)
    requires forall i :: 0 <= i < |rows| ==> JsDate(rows[i].date).None?
    ensures CateringStatsOf(Some(rows), now, tzOffset).today == 0
    ensures CateringStatsOf(Some(rows), now, tzOffset).upcoming == 0
  {
    FilterNone(rows, TodayTest(now, tzOffset));
    FilterNone(rows, UpcomingTest(now));
  }

  /** An entry later on the current local day is counted both today and upcoming. */
  lemma LaterTodayCountedTwice(e: CateringEntry, now: int, tzOffset: int)
    requires JsDate(e.date).Some?
    requires now < JsDate(e.date).value
    requires LocalDay(JsDate(e.date).value, tzOffset) == LocalDay(now, tzOffset)
    ensures CateringStatsOf(Some([e]), now, tzOffset).today == 1
    ensures CateringStatsOf(Some([e]), now, tzOffset).upcoming == 1
  {
    assert Filter([e], TodayTest(now, tzOffset)) == [e];
    assert Filter([e], UpcomingTest(now)) == [e];
  }

  /** An upcoming entry never falls on an earlier local day than now. */
  lemma UpcomingNotBeforeToday(t: int, now: int, tzOffset: int)
    requires IsUpcoming(Some(t), now)
    ensures LocalDay(t, tzOffset) >= LocalDay(now, tzOffset)
  {
    var a, b := now + tzOffset, t + tzOffset;
    assert a < b;
    assert MsPerDay * (a / MsPerDay) <= a < b < MsPerDay * (b / MsPerDay) + MsPerDay;
  }
}
