/** The fleet store shared by the dashboard (src/contexts/BusDataContext.tsx):
    the current buses, the loading flag, the error message and the id of the
    selected bus, with the selected bus derived from them.

    A fetch is an input (`FetchOutcome`); `RefreshFromTelemetry` feeds the
    store from the fleet reconciliation of `Api.FetchBusData`. */
module BusDataContext {
  import opened Basics
  import Api

  const FetchErrorMessage: string := "Failed to fetch bus data"

  /** How `fetchBusData()` settled. */
  datatype FetchOutcome = Fetched(data: seq<Api.Bus>) | FetchFailed

  /** An id that selects something: present and not empty. */
  predicate Selects(selectedBusId: Option<string>)
  {
    selectedBusId.Some? && selectedBusId.value != ""
  }

  /** `selectedBus`: the first bus carrying the selected id, or none when no
      id is selected, the id is empty, or no bus carries it. */
  function SelectedBus(buses: seq<Api.Bus>, selectedBusId: Option<string>): (r: Option<Api.Bus>)
    ensures r.None? <==> !Selects(selectedBusId) || forall i :: 0 <= i < |buses| ==> buses[i].id != selectedBusId.value
    ensures r.Some? ==> exists i :: 0 <= i < |buses| && buses[i] == r.value && r.value.id == selectedBusId.value &&
                                    forall j :: 0 <= j < i ==> buses[j].id != selectedBusId.value
  {
    if !Selects(selectedBusId) then None
    else Find(buses, (b: Api.Bus) => b.id == selectedBusId.value)
  }

  /** The selection is not dangling: when an id is selected, a bus carries it. */
  predicate SelectionResolves(buses: seq<Api.Bus>, selectedBusId: Option<string>)
  {
    Selects(selectedBusId) ==> exists i :: 0 <= i < |buses| && buses[i].id == selectedBusId.value
  }

  /** A resolving selection always yields its bus. */
  lemma ResolvingSelectionYieldsBus(buses: seq<Api.Bus>, selectedBusId: Option<string>)
    requires Selects(selectedBusId) && SelectionResolves(buses, selectedBusId)
    ensures SelectedBus(buses, selectedBusId).Some?
    ensures SelectedBus(buses, selectedBusId).value.id == selectedBusId.value
  {
    var i :| 0 <= i < |buses| && buses[i].id == selectedBusId.value;
  }

  class BusDataStore {
    var buses: seq<Api.Bus>
    var loading: bool
    var error: Option<string>
    var selectedBusId: Option<string>

    /** The provider's initial state, before its first refresh. */
    constructor ()
      ensures buses == [] && loading && error == None && selectedBusId == None
    {
      buses := [];
      loading := true;
      error := None;
      selectedBusId := None;
    }

    /** `selectBus`: records the id as given; the empty id is how the map's
        info window clears the selection. */
    method SelectBus(busId: string)
      modifies this`selectedBusId
      ensures selectedBusId == Some(busId)
      ensures busId == "" ==> SelectedBus(buses, selectedBusId) == None
    {
      selectedBusId := Some(busId);
    }

    /** `selectBus` and the refetches it sets off. `refreshData` is rebuilt
        for every new selected id and the mount effect runs again for every
        new `refreshData`, so a selection change fetches the fleet. Selecting
        the id already selected is no state change for React: nothing is
        rebuilt or fetched. When the fetch then drops the new id because the
        fleet lacks it, the selection changes once more (to none) and the
        fleet is fetched a second time, with `again` as that fetch's
        outcome; with nothing selected, that second refresh drops nothing and
        the chain ends. `fetches` counts the fetches made. */
    method SelectBusAndRefresh(busId: string, outcome: FetchOutcome, again: FetchOutcome) returns (fetches: nat)
      modifies this`buses, this`loading, this`error, this`selectedBusId
      ensures old(selectedBusId) == Some(busId) ==>
                fetches == 0 && buses == old(buses) && loading == old(loading) && error == old(error) &&
                selectedBusId == old(selectedBusId)
      ensures old(selectedBusId) != Some(busId) ==> !loading && 1 <= fetches <= 2
      ensures old(selectedBusId) != Some(busId) && outcome.FetchFailed? ==>
                fetches == 1 && buses == old(buses) && error == Some(FetchErrorMessage) &&
                selectedBusId == Some(busId)
      ensures old(selectedBusId) != Some(busId) && outcome.Fetched? &&
              !(busId != "" && SelectedBus(outcome.data, Some(busId)).None?) ==>
                fetches == 1 && buses == outcome.data && error == None && selectedBusId == Some(busId) &&
                SelectionResolves(buses, selectedBusId)
      ensures old(selectedBusId) != Some(busId) && outcome.Fetched? &&
              busId != "" && SelectedBus(outcome.data, Some(busId)).None? ==>
                && fetches == 2
                && selectedBusId == None
                && (again.Fetched? ==> buses == again.data && error == None)
                && (again.FetchFailed? ==> buses == outcome.data && error == Some(FetchErrorMessage))
    {
      if selectedBusId == Some(busId) {
        fetches := 0;
        return;
      }
      SelectBus(busId);
      RefreshData(outcome);
      fetches := 1;
      if selectedBusId != Some(busId) {
        RefreshData(again);
        fetches := 2;
      }
    }

    /** `refreshData`: a fetched list replaces the buses and clears the error,
        and a selected id that the new list does not carry is dropped; a
        failed fetch keeps the buses and the selection and records the error.
        Either way loading ends false. */
    method RefreshData(outcome: FetchOutcome)
      modifies this`buses, this`loading, this`error, this`selectedBusId
      ensures !loading
      ensures outcome.Fetched? ==>
                && buses == outcome.data
                && error == None
                && selectedBusId == (if Selects(old(selectedBusId)) && SelectedBus(outcome.data, old(selectedBusId)).None?
                                     then None else old(selectedBusId))
                && SelectionResolves(buses, selectedBusId)
      ensures outcome.FetchFailed? ==>
                && buses == old(buses)
                && error == Some(FetchErrorMessage)
                && selectedBusId == old(selectedBusId)
    {
      loading := true;
      if outcome.Fetched? {
        var data := outcome.data;
        buses := data;
        if Selects(selectedBusId) {
          var id := selectedBusId.value;
          var updatedBus := Find(data, (b: Api.Bus) => b.id == id);
          if updatedBus.None? {
            selectedBusId := None;
          }
        }
        error := None;
      } else {
        error := Some(FetchErrorMessage);
      }
      loading := false;
    }

    /** A refresh fed by `fetchBusData`, which falls back to the mock fleet
        instead of failing: the error is never set, and the store holds the
        reconciled fleet. */
    method RefreshFromTelemetry(gps: Option<Api.GpsSample>, seat: Option<Api.SeatSample>, now: int, dist: Api.Distance)
      modifies this`buses, this`loading, this`error, this`selectedBusId
      ensures !loading && error == None
      ensures buses == Api.FetchBusData(gps, seat, now, dist)
      ensures |buses| == |Api.MockBuses|
      ensures selectedBusId == (if Selects(old(selectedBusId)) && SelectedBus(buses, old(selectedBusId)).None?
                                then None else old(selectedBusId))
      ensures SelectionResolves(buses, selectedBusId)
    {
      RefreshData(Fetched(Api.FetchBusData(gps, seat, now, dist)));
    }
  }
}
