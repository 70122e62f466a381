/**
 * Where the dashboard and a page count the same rows with the same test, the
 * figures agree; where the tests differ, the dashboard's figure bounds the page's.
 */
module Consistency {
  import opened Wrappers
  import opened Seqs
  import opened Records
  import Dashboard
  import MaintenancePage
  import RoomsPage

  /** The dashboard's room cards equal the rooms page's cards for the same rows. */
  lemma RoomCardsAgree(rooms: seq<Room>)
    ensures Dashboard.RoomStatsOf(Some(rooms)).total == RoomsPage.OverviewOf(RoomsPage.RoomsState(rooms, false, None)).totalRooms
    ensures Dashboard.RoomStatsOf(Some(rooms)).occupied == |RoomsPage.OccupiedRooms(rooms)|
    ensures Dashboard.RoomStatsOf(Some(rooms)).available == |RoomsPage.AvailableRooms(rooms)|
  {
  }

  /**
   * For the same tickets: the dashboard's "completed" is the maintenance page's
   * closed list, its "in progress" is the page's card (no completed ticket is in
   * progress), and its "high priority" bounds the page's open-only card.
   */
  lemma MaintenanceCardsAgree(tickets: Option<seq<Ticket>>)
    ensures var page := MaintenancePage.OverviewOf(MaintenancePage.FetchMaintenanceData(
                          MaintenancePage.InitialState, Response(tickets, None)));
            var dash := Dashboard.MaintenanceStatsOf(tickets);
            && dash.completed == page.closed
            && dash.inProgress == page.inProgress
            && page.highPriority <= dash.highPriority
            && dash.total == page.totalOpen + page.closed
  {
    var rows := Rows(tickets);
    FilterNested(rows, MaintenancePage.IsOpen, IsInProgress);
    FilterNestedBound(rows, MaintenancePage.IsOpen, IsHighPriority);
    MaintenancePage.OpenClosedPartition(tickets);
  }
}
