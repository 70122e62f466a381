/**
 * The catering page (app/catering/page.tsx): its own status colour table, the
 * status chip, the overview cards and the fetch's state transition.
 */
module CateringPage {
  import opened Wrappers
  import opened Text
  import opened Tags
  import opened Records
  import MaintenancePage

  /** `getStatusColor`: a case-insensitive switch; unlike the maintenance table it knows stock levels. */
  function StatusColor(status: string): (c: Severity)
    ensures c != Error
    ensures c == Primary <==> Lower(status) == "in progress"
    ensures c == Info <==> Lower(status) == "scheduled"
    ensures c == Success <==> Lower(status) in {"completed", "sufficient"}
    ensures c == Warning <==> Lower(status) == "low"
  {
    var s := Lower(status);
    if s == "in progress" then Primary
    else if s == "scheduled" then Info
    else if s == "completed" then Success
    else if s == "low" then Warning
    else if s == "sufficient" then Success
    else Default
  }

  lemma StatusColorIgnoresCase(status: string)
    ensures StatusColor(status) == StatusColor(Lower(status))
  {
    LowerIdempotent(status);
  }

  /** The table is not one-to-one: two different statuses share the success colour. */
  lemma StatusColorNotInjective()
    ensures StatusColor("completed") == StatusColor("sufficient") == Success
  {
    LowerOfLowercase("completed");
    LowerOfLowercase("sufficient");
  }

  /** "pending" is a warning on the maintenance page but has no colour here. */
  lemma PendingDiffersFromMaintenance()
    ensures StatusColor("pending") == Default
    ensures MaintenancePage.StatusColor(Some("pending")) == Warning
  {
    LowerOfLowercase("pending");
  }

  /** `getStatusColor(meal.status || "default")`: a null or empty status is looked up as "default". */
  function ChipColor(status: Option<string>): (c: Severity)
    ensures !Truthy(status) ==> c == Default
    ensures Truthy(status) ==> c == StatusColor(status.value)
  {
    StatusColor(if Truthy(status) then status.value else "default")
  }

  /** `meal.status || "N/A"` */
  function ChipLabel(status: Option<string>): (shown: string)
    ensures !Truthy(status) <==> shown == "N/A" && status != Some("N/A")
    ensures Truthy(status) ==> shown == status.value
  {
    if Truthy(status) then status.value else "N/A"
  }

  datatype CateringState = CateringState(meals: seq<CateringEntry>, loading: bool, error: Option<string>)

  const InitialState: CateringState := CateringState([], true, None)

  const FetchFailed: string := "Failed to fetch catering data"

  /** `setState(prev => ({ ...prev, loading: true, error: null }))` */
  function BeginFetch(prev: CateringState): (next: CateringState)
    ensures next.loading && next.error.None? && next.meals == prev.meals
  {
    prev.(loading := true, error := None)
  }

  /**
   * `fetchCateringData`: a store error becomes the fixed message and the meals
   * stay as they were; otherwise the meals are the fetched rows.
   */
  function FetchCateringData(prev: CateringState, response: Response<CateringEntry>): (next: CateringState)
    ensures !next.loading
    ensures response.error.Some? ==> next.error == Some(FetchFailed) && next.meals == prev.meals
    ensures response.error.None? ==> next.error.None? && next.meals == Rows(response.data)
  {
    var started := BeginFetch(prev);
    if response.error.Some? then
      started.(loading := false, error := Some(FetchFailed))
    else
      CateringState(Rows(response.data), false, None)
  }

  datatype Overview = Overview(totalMealsToday: nat, menuItems: nat, lowStockItems: nat)

  /** The three cards: "Total Meals Today" counts every meal whatever its date; the others are fixed at 0. */
  function OverviewOf(state: CateringState): (o: Overview)
    ensures o.totalMealsToday == |state.meals|
    ensures o.menuItems == 0 && o.lowStockItems == 0
  {
    Overview(|state.meals|, 0, 0)
  }

  /** After a successful fetch "Total Meals Today" is the number of rows fetched, dated or not. */
  lemma TotalMealsIsFetchedCount(prev: CateringState, response: Response<CateringEntry>)
    requires response.error.None?
    ensures OverviewOf(FetchCateringData(prev, response)).totalMealsToday == |Rows(response.data)|
  {
  }

  /** Fetching again with the same answer changes nothing. */
  lemma RefetchIsStable(prev: CateringState, response: Response<CateringEntry>)
    ensures FetchCateringData(FetchCateringData(prev, response), response) == FetchCateringData(prev, response)
  {
  }
}
