/**
 * The rows the pages read from the data store, one datatype per table, with
 * JavaScript `null` as `None`. Dates stay the strings the store returns; what
 * `new Date(text)` makes of one is carried beside it as `parsed` (a millisecond
 * timestamp, or `None` for an Invalid Date), since the parser itself is not
 * modelled.
 */
module Records {
  import opened Wrappers
  import opened Text

  /** A date column as stored, and the instant JavaScript parses it to. */
  datatype DateString = DateString(text: string, parsed: Option<int>)

  /**
   * A property read off a row object: absent (`undefined`), `null`, or a value.
   * Needed where a page reads a property the row type does not declare.
   */
  datatype Column<T> = Undefined | Null | Value(value: T)

  /** What the data store hands back for `select('*')`: nullable rows and a nullable error. */
  datatype Response<T> = Response(data: Option<seq<T>>, error: Option<string>)

  /** `data || []`: the fetched rows, or none when the store returned `null`. */
  function Rows<T>(data: Option<seq<T>>): (rows: seq<T>)
    ensures data.None? ==> rows == []
    ensures data.Some? ==> rows == data.value
  {
    data.GetOr([])
  }

  const MsPerDay: int := 1000 * 60 * 60 * 24

  datatype Room = Room(
    id: string,
    site: string,
    buildingName: string,
    roomType: string,
    roomNumber: string,
    occupant: Option<string>,
    checkInDate: Option<string>,
    checkOutDate: Option<string>,
    status: string,
    createdAt: string,
    updatedAt: string)

  /** `room.occupant` is truthy. */
  predicate HasOccupant(r: Room) {
    Truthy(r.occupant)
  }

  /** `!room.occupant`: no occupant, or the empty name. */
  predicate IsVacant(r: Room) {
    !Truthy(r.occupant)
  }

  datatype Ticket = Ticket(
    id: string,
    site: string,
    buildingName: string,
    roomNumber: string,
    reporterName: string,
    dateReported: Option<DateString>,
    dateResolved: Option<DateString>,
    reference: Option<string>,
    issue: Option<string>,
    priority: Option<string>,
    owner: Option<string>,
    notes: Option<string>,
    status: Option<string>,
    createdAt: string)

  /** `item.status === 'Completed'`: exact and case-sensitive. */
  predicate IsCompleted(t: Ticket) {
    t.status == Some("Completed")
  }

  /** `item.status === 'In Progress'`. */
  predicate IsInProgress(t: Ticket) {
    t.status == Some("In Progress")
  }

  /** `item.priority === 'High'`. */
  predicate IsHighPriority(t: Ticket) {
    t.priority == Some("High")
  }

  datatype TransportEntry = TransportEntry(
    id: string,
    site: string,
    driverName: string,
    vehicle: string,
    registrationNumber: string,
    vehicleType: string,
    route: string,
    nextMaintenanceDate: Option<string>,
    notes: Option<string>,
    mileage: int,
    status: Option<string>)

  /**
   * A catering row. `date` is the property `item.date` that the dashboard reads;
   * the declared row type has no such column (its date is `dateReported`), so for
   * rows of that type it is `Undefined`.
   */
  datatype CateringEntry = CateringEntry(
    id: string,
    site: string,
    buildingName: string,
    chefName: string,
    shift: string,
    item: Option<string>,
    quantity: Option<int>,
    dateReported: Option<string>,
    status: Option<string>,
    notes: Option<string>,
    createdAt: string,
    date: Column<DateString>)
}
