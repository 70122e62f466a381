/**
 * The rooms page (app/rooms/page.tsx): the occupied/available split of the
 * fetched rooms, the summary cards and the fetch's state transition.
 */
module RoomsPage {
  import opened Wrappers
  import opened Seqs
  import opened Text
  import opened Records

  datatype RoomsState = RoomsState(rooms: seq<Room>, loading: bool, error: Option<string>)

  const InitialState: RoomsState := RoomsState([], true, None)

  /** The "Maintenance Requests" card: a fixed figure, not read from any data. */
  const MaintenanceRequests: nat := 3

  function OccupiedRooms(rooms: seq<Room>): seq<Room> {
    Filter(rooms, HasOccupant)
  }

  function AvailableRooms(rooms: seq<Room>): seq<Room> {
    Filter(rooms, IsVacant)
  }

  /**
   * The two lists split the rooms: each keeps the fetched order, every room
   * lands in exactly one of them, by whether its occupant is a non-empty name.
   */
  lemma OccupancyPartition(rooms: seq<Room>)
    ensures |OccupiedRooms(rooms)| + |AvailableRooms(rooms)| == |rooms|
    ensures multiset(OccupiedRooms(rooms)) + multiset(AvailableRooms(rooms)) == multiset(rooms)
    ensures IsSubsequence(OccupiedRooms(rooms), rooms)
    ensures IsSubsequence(AvailableRooms(rooms), rooms)
    ensures forall i :: 0 <= i < |OccupiedRooms(rooms)| ==>
      OccupiedRooms(rooms)[i].occupant.Some? && OccupiedRooms(rooms)[i].occupant.value != ""
    ensures forall i :: 0 <= i < |AvailableRooms(rooms)| ==>
      AvailableRooms(rooms)[i].occupant.None? || AvailableRooms(rooms)[i].occupant.value == ""
  {
    FilterComplement(rooms, HasOccupant, IsVacant);
    FilterIsSubsequence(rooms, HasOccupant);
    FilterIsSubsequence(rooms, IsVacant);
  }

  datatype Overview = Overview(totalRooms: nat, occupied: nat, available: nat, maintenanceRequests: nat)

  /** The four cards. */
  function OverviewOf(state: RoomsState): (o: Overview)
    ensures o.totalRooms == |state.rooms|
    ensures o.occupied + o.available == o.totalRooms
    ensures o.maintenanceRequests == 3
  {
    OccupancyPartition(state.rooms);
    Overview(|state.rooms|, |OccupiedRooms(state.rooms)|, |AvailableRooms(state.rooms)|, MaintenanceRequests)
  }

  /** `setLoading(true); setError(null)` */
  function BeginFetch(prev: RoomsState): (next: RoomsState)
    ensures next.loading && next.error.None? && next.rooms == prev.rooms
  {
    prev.(loading := true, error := None)
  }

  /**
   * `fetchRooms`: the store's message becomes the error and the rooms stay as
   * they were, or the rooms become the fetched rows; either way loading ends.
   */
  function FetchRooms(prev: RoomsState, response: Response<Room>): (next: RoomsState)
    ensures !next.loading
    ensures response.error.Some? ==> next.error == response.error && next.rooms == prev.rooms
    ensures response.error.None? ==> next.error.None? && next.rooms == Rows(response.data)
  {
    var started := BeginFetch(prev);
    var fetched :=
      if response.error.Some? then started.(error := response.error)
      else started.(rooms := Rows(response.data));
    fetched.(loading := false)
  }

  /** A failed first fetch leaves the page with no rooms and all-zero counts but the fixed 3. */
  lemma FailedFirstFetchShowsNoRooms(response: Response<Room>)
    requires response.error.Some?
    ensures FetchRooms(InitialState, response).rooms == []
    ensures OverviewOf(FetchRooms(InitialState, response)) == Overview(0, 0, 0, 3)
  {
  }
}
