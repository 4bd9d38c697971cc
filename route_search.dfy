/** The route search panel (src/components/RouteSearch/RouteSearch.tsx): the
    stop-name suggestions offered while typing each endpoint, and the search,
    reset and pick handlers over the panel's state. Lower-casing is modelled
    for ASCII letters only. */
module RouteSearch {
  import opened Basics
  import Api

  /** `toLowerCase` on one character, for the ASCII letters. */
  function LowerChar(c: char): char
  {
    if 'A' <= c <= 'Z' then (c as int + 32) as char else c
  }

  /** `toLowerCase`. */
  function ToLower(s: string): (r: string)
    ensures |r| == |s| && forall i :: 0 <= i < |s| ==> r[i] == LowerChar(s[i])
  {
    seq(|s|, i requires 0 <= i < |s| => LowerChar(s[i]))
  }

  /** Lower-casing twice is lower-casing once. */
  lemma ToLowerIdempotent(s: string)
    ensures ToLower(ToLower(s)) == ToLower(s)
  {
    var once := ToLower(s);
    forall i | 0 <= i < |s| ensures LowerChar(once[i]) == once[i] {
    }
  }

  /** `String.prototype.includes`: `needle` occurs in `hay` at some offset;
      the empty needle occurs everywhere. */
  predicate Includes(hay: string, needle: string)
  {
    exists k | 0 <= k <= |hay| - |needle| :: OccursAt(hay, needle, k)
  }

  /** `needle` occurs in `hay` starting at offset `k`. */
  predicate OccursAt(hay: string, needle: string, k: int)
  {
    0 <= k <= |hay| - |needle| && hay[k..k + |needle|] == needle
  }

  /** A suggestion list: the names, in order, that contain what was typed
      (both lower-cased) and are not the other endpoint. */
  function Suggestions(names: seq<string>, typed: string, other: string): (r: seq<string>)
    ensures Subsequence(r, names)
    ensures forall i :: 0 <= i < |r| ==> r[i] != other && Includes(ToLower(r[i]), ToLower(typed))
    ensures forall i :: 0 <= i < |names| && names[i] != other && Includes(ToLower(names[i]), ToLower(typed)) ==>
              names[i] in r
    ensures forall n :: multiset(r)[n] ==
              if n != other && Includes(ToLower(n), ToLower(typed)) then multiset(names)[n] else 0
  {
    var offered := (n: string) => Includes(ToLower(n), ToLower(typed)) && n != other;
    assert forall n :: multiset(Filter(names, offered))[n] == if offered(n) then multiset(names)[n] else 0 by {
      forall n ensures multiset(Filter(names, offered))[n] == if offered(n) then multiset(names)[n] else 0 {
        FilterMultiplicity(names, offered, n);
      }
    }
    Filter(names, offered)
  }

  /** `filteredSourceLocations`: the stop names, in route order, that contain
      the typed source in any letter case, except the destination. */
  function FilteredSourceLocations(source: string, destination: string): (r: seq<string>)
    ensures Subsequence(r, Api.StopNames(Api.BusStops))
    ensures destination !in r
    ensures forall i :: 0 <= i < |r| ==> Includes(ToLower(r[i]), ToLower(source))
    ensures var names := Api.StopNames(Api.BusStops);
            forall i :: 0 <= i < |names| && names[i] != destination && Includes(ToLower(names[i]), ToLower(source)) ==>
              names[i] in r
  {
    Suggestions(Api.StopNames(Api.BusStops), source, destination)
  }

  /** `filteredDestinationLocations`: the stop names, in route order, that
      contain the typed destination in any letter case, except the source. */
  function FilteredDestinationLocations(source: string, destination: string): (r: seq<string>)
    ensures Subsequence(r, Api.StopNames(Api.BusStops))
    ensures source !in r
    ensures forall i :: 0 <= i < |r| ==> Includes(ToLower(r[i]), ToLower(destination))
    ensures var names := Api.StopNames(Api.BusStops);
            forall i :: 0 <= i < |names| && names[i] != source && Includes(ToLower(names[i]), ToLower(destination)) ==>
              names[i] in r
  {
    Suggestions(Api.StopNames(Api.BusStops), destination, source)
  }

  /** A stop name typed in full, in any letter case, is suggested, unless it
      is the other endpoint. */
  lemma FullNameIsSuggested(names: seq<string>, typed: string, other: string, i: int)
    requires 0 <= i < |names| && names[i] != other
    requires ToLower(typed) == ToLower(names[i])
    ensures names[i] in Suggestions(names, typed, other)
  {
    var lowered := ToLower(names[i]);
    assert OccursAt(lowered, ToLower(typed), 0) by {
      assert lowered[0..|lowered|] == lowered;
    }
  }

  /** With nothing typed, the computed list holds every stop but the other
      endpoint (the dropdown itself is only shown once something is typed). */
  lemma EmptyInputSuggestsAll(names: seq<string>, other: string, i: int)
    requires 0 <= i < |names| && names[i] != other
    ensures names[i] in Suggestions(names, "", other)
  {
    assert OccursAt(ToLower(names[i]), ToLower(""), 0) by {
      assert ToLower(names[i])[0..0] == [] == ToLower("");
    }
  }

  class RouteSearchState {
    var source: string
    var destination: string
    var isSearching: bool
    var searchResults: seq<Api.Bus>
    var hasSearched: bool
    var showSourceDropdown: bool
    var showDestinationDropdown: bool

    constructor ()
      ensures source == "" && destination == "" && !isSearching && searchResults == []
      ensures !hasSearched && !showSourceDropdown && !showDestinationDropdown
    {
      source := "";
      destination := "";
      isSearching := false;
      searchResults := [];
      hasSearched := false;
      showSourceDropdown := false;
      showDestinationDropdown := false;
    }

    /** `handleSearch`: nothing happens unless both endpoints are filled in;
        otherwise the results are the mock buses serving the source before
        the destination, and the search ends with `isSearching` false. */
    method HandleSearch()
      modifies this`isSearching, this`hasSearched, this`searchResults
      ensures source == "" || destination == "" ==>
                isSearching == old(isSearching) && hasSearched == old(hasSearched) &&
                searchResults == old(searchResults)
      ensures source != "" && destination != "" ==>
                && hasSearched && !isSearching
                && searchResults == Api.FindBusesOnRoute(Api.MockBuses, source, destination)
    {
      if source == "" || destination == "" {
        return;
      }
      isSearching := true;
      hasSearched := true;
      searchResults := Api.FindBusesOnRoute(Api.MockBuses, source, destination);
      isSearching := false;
    }

    /** `resetSearch`. */
    method ResetSearch()
      modifies this`source, this`destination, this`searchResults, this`hasSearched
      ensures source == "" && destination == "" && searchResults == [] && !hasSearched
    {
      source := "";
      destination := "";
      searchResults := [];
      hasSearched := false;
    }

    /** `handleSourceSelection`: a suggestion picked from the source list is
        never the destination. */
    method HandleSourceSelection(location: string)
      modifies this`source, this`showSourceDropdown, this`hasSearched
      ensures source == location && !showSourceDropdown && !hasSearched
      ensures location in FilteredSourceLocations(old(source), destination) ==> source != destination
    {
      source := location;
      showSourceDropdown := false;
      hasSearched := false;
    }

    /** `handleDestinationSelection`: a suggestion picked from the
        destination list is never the source. */
    method HandleDestinationSelection(location: string)
      modifies this`destination, this`showDestinationDropdown, this`hasSearched
      ensures destination == location && !showDestinationDropdown && !hasSearched
      ensures location in FilteredDestinationLocations(source, old(destination)) ==> source != destination
    {
      destination := location;
      showDestinationDropdown := false;
      hasSearched := false;
    }
  }
}
