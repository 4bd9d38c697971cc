# Bus tracking dashboard: a verified model of its live-state core

This project models the client-side core of a browser dashboard that tracks
a small bus fleet. The modelled parts are:

- the telemetry service: it merges one GPS sample and one seat sample into
  every bus, computes ETAs and the crowd level, runs the geofence check and
  the route search, and stamps feedback records;
- the fleet store, which holds the buses, the loading flag, the error and
  the selected bus;
- the subscription store, which holds the (bus, stop) alert subscriptions,
  the notifications flag and their copy in local storage;
- the live map's tick: marker reconciliation, the arrival-alert scan with
  its once-per-key ledger, and the pan-to-selected rule;
- the route timeline of the bus detail panel, with stop statuses, the
  printed schedule and the notify toggle;
- the stop-name suggestions and the search handlers of the route search
  panel;
- the seat availability card: percentage, colour band, seat grid and the
  animated counter;
- the feedback form's validation and submission.

There is one Dafny module per source file, plus `Basics`, which holds the
array helpers of JavaScript (`filter`, `findIndex`, `find`, `indexOf`) with
their contracts.

- `Api` models `src/services/api.ts`.
- `BusDataContext` models `src/contexts/BusDataContext.tsx`.
- `NotificationContext` models `src/contexts/NotificationContext.tsx`.
- `BusMap` models `src/components/Map/BusMap.tsx`.
- `BusDetailPanel` models `src/components/BusDetails/BusDetailPanel.tsx`.
- `RouteSearch` models `src/components/RouteSearch/RouteSearch.tsx`.
- `SeatAvailabilityChart` models
  `src/components/BusDetails/SeatAvailabilityChart.tsx`.
- `FeedbackForm` models `src/components/Feedback/FeedbackForm.tsx`.

Pure computations become functions and lemmas. The component and provider
state that the source updates step by step becomes a class with one field
per `useState` or `useRef`, and its handlers become methods. The loops of
the source (`checkGeofenceTrigger`, the two loops of `updateMarkers`, the
nested scan of the map tick) are methods with loop invariants. Each method
is proved against a specification function, and lemmas state that
function's properties.

Inputs from the outside world are parameters:

- `dist` gives the distance in metres between two coordinates;
- `now` is the wall-clock minute;
- the GPS and seat samples are `Option`s, where `None` means the request
  failed;
- the browser's notification support, its permission and its answer to a
  permission prompt are parameters;
- the reply of the feedback service is a parameter.

## Model

| member | source | states |
|---|---|---|
| Api.StopNames | src/components/RouteSearch/RouteSearch.tsx:20 | the names of a route's stops, one per stop, in route order |
| Api.CrowdLevelOf | src/services/api.ts:189-191 | High iff fewer than 10 seats are free, Medium iff 10 to 19, Low iff 20 or more |
| Api.EtaOffsetMinutes | src/services/api.ts:93-95 | a stopped bus (speed not positive) adds 0 minutes; otherwise the result is the travel time in minutes, rounded down |
| Api.EtaOffsetMonotone | src/services/api.ts:93-95 | for non-negative distances, a farther target never gets a smaller offset, and the offset is never negative |
| Api.EtaOffsetFasterIsSooner | src/services/api.ts:93-95 | at equal distance a faster bus never gets a later estimate |
| Api.EstimatedTime | src/services/api.ts:80-98 | the estimate is the clock minute `now` plus the whole minutes of travel to the target at the bus's speed (`EtaOffsetMinutes` of the distance in kilometres): exactly `now` for a bus that is not moving, and never before `now` for a moving one |
| Api.NextStopTarget | src/services/api.ts:172 | the first stop named `nextStop`; else the last stop; none exactly when the route is empty |
| Api.UpdatedStops | src/services/api.ts:174-177 | same length and names; each stop keeps name, location and departure time and gets the ETA from the new position |
| Api.ReconcileBus | src/services/api.ts:171-196 | fails iff the route is empty; otherwise position and speed come from GPS, seats from the seat sample, crowd level from available seats, ETAs are recomputed and everything else is copied |
| Api.ReconcileFleet | src/services/api.ts:171-197 | the fleet map succeeds iff no bus has an empty route, and then each result is that bus's reconciliation |
| Api.FetchBusData | src/services/api.ts:148-203 | one bus per mock bus with the same ids, numbers and stop names; the mock fleet unchanged when a sample is missing; otherwise each bus is reconciled |
| Api.StopsWithin | src/services/api.ts:119-132 | the triggered names are a subsequence of the route's names, and a name is in it iff some stop with that name is within the radius |
| Api.CheckGeofenceTrigger | src/services/api.ts:119-132 | the loop returns exactly the stops within 100 m of the bus, in route order |
| Api.StandingOnStopTriggers | src/services/api.ts:125-126 | a bus standing on one of its stops triggers that stop |
| Api.ServesInOrderMeaning | src/services/api.ts:258-261 | the index test is equivalent to a stop named `source` with `destination` absent up to it and present after it |
| Api.OrderedTripHasBoarding | src/services/api.ts:259-261 | a served trip boards at the first stop named `source`, and `destination` appears only after it |
| Api.BoardingGivesOrderedTrip | src/services/api.ts:259-261 | a stop named `source` followed, and not preceded, by `destination` makes the trip served |
| Api.SameStopNeverServed | src/services/api.ts:261 | a trip from a stop to itself is never served |
| Api.StopsWithinIsFilter | src/services/api.ts:119-132 | the geofence list is exactly the names of the stops the radius filter keeps, in route order, one per stop, so repeated names keep their count |
| Api.FindBusesOnRoute | src/services/api.ts:254-266 | the result is a subsequence of the fleet holding exactly the buses that serve the trip, each as many times as the fleet holds it |
| Api.SubmitFeedback | src/services/api.ts:240-251 | the id starts with `FB`, the creation date is the given one, and all the form's fields come back unchanged |
| NotificationContext.Subscribed | src/contexts/NotificationContext.tsx:96-98 | true iff the pair is in the list |
| NotificationContext.WithoutPair | src/contexts/NotificationContext.tsx:90-92 | a subsequence of the list that keeps every copy of every other pair and drops every copy of the given one; the list is unchanged when the pair is absent |
| NotificationContext.WithoutPairNoDuplicates | src/contexts/NotificationContext.tsx:90-92 | dropping a pair keeps a list free of duplicates |
| NotificationContext.EnabledAfter | src/contexts/NotificationContext.tsx:57-75 | an answered prompt enables notifications iff it was granted; a prompt that throws leaves the flag as it was |
| NotificationContext.NotificationStore.constructor | src/contexts/NotificationContext.tsx:35-55 | the flag is on iff permission is already granted; a stored list is loaded, anything else gives the empty list; storage then holds the list |
| NotificationContext.NotificationStore.RequestNotificationPermission | src/contexts/NotificationContext.tsx:57-75 | returns true iff the prompt was granted; the flag follows `EnabledAfter`; one more prompt was shown |
| NotificationContext.NotificationStore.HasSubscription | src/contexts/NotificationContext.tsx:96-98 | true iff the pair is subscribed |
| NotificationContext.NotificationStore.Subscribe | src/contexts/NotificationContext.tsx:77-87 | with notifications off, only asks for permission; with them on, appends the pair unless it is already there; storage mirrors the list; no duplicates are introduced |
| NotificationContext.NotificationStore.Unsubscribe | src/contexts/NotificationContext.tsx:89-94 | the list becomes `WithoutPair` of the old list, the pair is no longer subscribed, and storage mirrors the list |
| NotificationContext.ReloadKeepsSubscriptions | src/contexts/NotificationContext.tsx:41-55 | a store mounted on what another store saved starts with that store's list |
| BusDetailPanel.NextStopName | src/components/BusDetails/BusDetailPanel.tsx:16-18 | a next stop given as a name is that name; given as a stop, it is the stop's name |
| BusDetailPanel.StatusMeaning | src/components/BusDetails/BusDetailPanel.tsx:32-39 | past the first stop: next iff the name matches; passed iff the next stop is absent up to this stop and present after it; upcoming otherwise |
| BusDetailPanel.StatusesAlongDistinctRoute | src/components/BusDetails/BusDetailPanel.tsx:32-39 | on a route with distinct names and the next stop at k: stop 0 departed, stops before k passed, k next, later stops upcoming |
| BusDetailPanel.CalculateRoute | src/components/BusDetails/BusDetailPanel.tsx:20-42 | one entry per stop, in order, each with the stop's name, its schedule time and its status |
| BusDetailPanel.ScheduleSlot | src/components/BusDetails/BusDetailPanel.tsx:22-23 | stop i sits 600 + 30·i minutes after midnight, on the hour or the half hour |
| BusDetailPanel.DecimalRoundTrip | src/components/BusDetails/BusDetailPanel.tsx:24 | reading back the printed hour gives the hour |
| BusDetailPanel.ScheduleTime | src/components/BusDetails/BusDetailPanel.tsx:22-24 | the time ends in `PM` iff the stop is the fifth or later |
| BusDetailPanel.FirstStopTime | src/components/BusDetails/BusDetailPanel.tsx:22-24 | the first stop reads "10:00 AM" |
| BusDetailPanel.SecondStopTime | src/components/BusDetails/BusDetailPanel.tsx:22-24 | the second stop reads "10:30 AM" |
| BusDetailPanel.AfternoonTimes | src/components/BusDetails/BusDetailPanel.tsx:22-24 | the fifth stop reads "12:00 PM"; the seventh reads "13:00 PM", since the hour is never brought into 12-hour form |
| BusDetailPanel.ScheduleTimeInjective | src/components/BusDetails/BusDetailPanel.tsx:22-24 | different stops are printed with different times |
| BusDetailPanel.ShowsNotifyControl | src/components/BusDetails/BusDetailPanel.tsx:191 | the control is shown iff the stop is next or upcoming |
| BusDetailPanel.HandleNotificationToggle | src/components/BusDetails/BusDetailPanel.tsx:46-52 | a subscribed pair is removed; an unsubscribed pair is appended when notifications are on; when they are off, the list stays, permission is requested once and the flag follows the reply; otherwise the flag and the request count stay; with notifications on, the pair's subscription flips |
| BusMap.AlertKeyInjective | src/components/Map/BusMap.tsx:87 | for bus numbers without `-`, equal keys mean equal (bus, stop) pairs |
| BusMap.AlertKeyCollision | src/components/Map/BusMap.tsx:87-88 | with a `-` in the bus number two different pairs share a key |
| BusMap.NoticeFor | src/components/Map/BusMap.tsx:93-103 | no Notification API: unsupported; granted: shown; denied: skipped; undecided: the permission is requested |
| BusMap.AlertStepValid | src/components/Map/BusMap.tsx:86-91 | one alert call keeps the ledger equal to the keys of the alerts, each alerted once |
| BusMap.AfterAlertsValid | src/components/Map/BusMap.tsx:86-91 | any sequence of alert calls keeps that invariant |
| BusMap.AfterAlertsGrows | src/components/Map/BusMap.tsx:86-91 | the ledger only grows, earlier alerts are kept, and new alerts carry this scan's notice |
| BusMap.AfterAlertsCovers | src/components/Map/BusMap.tsx:86-91 | afterwards every pair's key is recorded, and every new key comes from a pair |
| BusMap.AlertsSettled | src/components/Map/BusMap.tsx:88 | pairs whose keys are all recorded change nothing |
| BusMap.RescanFiresNothing | src/components/Map/BusMap.tsx:86-89 | a second pass over the same pairs raises no alert, whatever the permission by then |
| BusMap.BusHitsSnoc | src/components/Map/BusMap.tsx:203-213 | scanning one more stop adds that stop's pair iff the bus is within 150 m of it |
| BusMap.BusHitsMeaning | src/components/Map/BusMap.tsx:203-214 | a bus's pairs are exactly the stops strictly within 150 m, with that bus's number |
| BusMap.ScanHitsMeaning | src/components/Map/BusMap.tsx:202-215 | a pair is scanned iff some bus with that number is strictly within 150 m of some stop with that name |
| BusMap.PlacedKeys | src/components/Map/BusMap.tsx:150-176 | the first pass adds exactly the fleet's ids to the table, and creates no marker when every id already has one |
| BusMap.PlacedHandles | src/components/Map/BusMap.tsx:153-175 | existing marker objects are kept, markers of other ids are untouched, and new objects are numbered from the creation count |
| BusMap.PlacedValid | src/components/Map/BusMap.tsx:153-175 | marker objects stay distinct and below the creation count |
| BusMap.PlacedPositions | src/components/Map/BusMap.tsx:151-154 | each marker stands where the last bus with its id is |
| BusMap.ReconciledMeaning | src/components/Map/BusMap.tsx:148-188 | after `updateMarkers` the table's ids are exactly the fleet's ids; old markers are reused, new ids get new markers, each marker is at its bus's position, and validity is kept |
| BusMap.ReconciledIdempotent | src/components/Map/BusMap.tsx:148-188 | updating twice with the same fleet equals updating once |
| BusMap.PanTarget | src/components/Map/BusMap.tsx:218-228 | the map pans iff a bus is selected and the fleet has a bus with its id, and it pans to the first such bus |
| BusMap.BusMapState.constructor | src/components/Map/BusMap.tsx:53-56 | empty ledger, no alerts, no markers |
| BusMap.BusMapState.ShowArrivalAlert | src/components/Map/BusMap.tsx:86-104 | the ledger and alerts become `AlertStep` of the old ones; the invariant is kept |
| BusMap.BusMapState.ProximityScan | src/components/Map/BusMap.tsx:202-215 | the nested loops leave the ledger equal to `AfterAlerts` over `ScanHits` of the old ledger |
| BusMap.BusMapState.AlertsForBus | src/components/Map/BusMap.tsx:203-214 | the inner loop over the stops extends the alerts by that bus's pairs |
| BusMap.BusMapState.UpdateMarkers | src/components/Map/BusMap.tsx:148-188 | the table and the creation count become `Reconciled` of the old ones; validity is kept |
| BusMap.BusMapState.PlaceMarkers | src/components/Map/BusMap.tsx:150-176 | the first loop leaves the table equal to `Placed` of the old one |
| BusMap.BusMapState.RemoveStaleMarkers | src/components/Map/BusMap.tsx:178-183 | the second loop keeps exactly the entries whose id some bus carries |
| BusMap.BusMapState.Tick | src/components/Map/BusMap.tsx:192-228 | corrected tick: markers reconciled to the fetched fleet, alerts raised for its scan against the fixed stops, pan target from the fetched fleet |
| BusMap.BusMapState.TickAsWritten | src/components/Map/BusMap.tsx:192-231 | as written: nothing changes and the map never pans |
| BusMap.TickWouldAlert | src/components/Map/BusMap.tsx:196-215 | when a bus stands on a fixed stop whose key is unrecorded, the corrected tick changes the ledger, which the tick as written never does |
| BusDataContext.SelectedBus | src/contexts/BusDataContext.tsx:63-65 | none iff no non-empty id is selected or no bus has it; otherwise the first bus carrying the id |
| BusDataContext.ResolvingSelectionYieldsBus | src/contexts/BusDataContext.tsx:63-65 | a selection that some bus carries always yields a bus with that id |
| BusDataContext.BusDataStore.constructor | src/contexts/BusDataContext.tsx:33-36 | no buses, loading, no error, nothing selected |
| BusDataContext.BusDataStore.SelectBus | src/contexts/BusDataContext.tsx:59-61 | the id is recorded as given, and the empty id selects nothing |
| BusDataContext.BusDataStore.SelectBusAndRefresh | src/contexts/BusDataContext.tsx:38-72 | selecting the id already selected changes nothing and fetches nothing; selecting a different id fetches once: a failure keeps the buses and the new id and sets the error, and a fleet that carries the id (or an empty id) replaces the buses and keeps it; a fleet that lacks the id drops the selection, and that change fetches a second time, whose outcome decides the final buses and error |
| BusDataContext.BusDataStore.RefreshData | src/contexts/BusDataContext.tsx:38-57 | loading ends false; fetched data replaces the buses, clears the error and drops a selection the data lacks, so the selection resolves; a failure keeps buses and selection and sets the error message |
| BusDataContext.BusDataStore.RefreshFromTelemetry | src/contexts/BusDataContext.tsx:38-57 | fed by `fetchBusData`, the error is never set, the store holds the reconciled fleet, a selection is kept unless the new fleet lacks it, and the selection resolves |
| RouteSearch.ToLower | src/components/RouteSearch/RouteSearch.tsx:23 | same length, each character lower-cased |
| RouteSearch.ToLowerIdempotent | src/components/RouteSearch/RouteSearch.tsx:23 | lower-casing twice is lower-casing once |
| RouteSearch.Suggestions | src/components/RouteSearch/RouteSearch.tsx:22-28 | a subsequence of the names: every suggestion contains the typed text, ignoring case, and is not the other endpoint, and every such name is suggested as many times as it occurs |
| RouteSearch.FilteredSourceLocations | src/components/RouteSearch/RouteSearch.tsx:22-24 | the source list is a subsequence of the stop names, never offers the destination, offers only names containing the typed source (ignoring case), and offers every such name |
| RouteSearch.FilteredDestinationLocations | src/components/RouteSearch/RouteSearch.tsx:26-28 | the destination list is a subsequence of the stop names, never offers the source, offers only names containing the typed destination (ignoring case), and offers every such name |
| RouteSearch.FullNameIsSuggested | src/components/RouteSearch/RouteSearch.tsx:22-24 | a stop name typed in full, in any case, is suggested unless it is the other endpoint |
| RouteSearch.EmptyInputSuggestsAll | src/components/RouteSearch/RouteSearch.tsx:22-24 | with nothing typed, the computed list holds every stop but the other endpoint; the dropdown showing it is rendered only once something is typed |
| RouteSearch.RouteSearchState.constructor | src/components/RouteSearch/RouteSearch.tsx:10-16 | empty endpoints and results, nothing searched, dropdowns closed |
| RouteSearch.RouteSearchState.HandleSearch | src/components/RouteSearch/RouteSearch.tsx:30-44 | nothing happens unless both endpoints are filled; otherwise the results are the buses serving the trip, the search is marked done and no longer running |
| RouteSearch.RouteSearchState.ResetSearch | src/components/RouteSearch/RouteSearch.tsx:46-51 | endpoints and results cleared, nothing searched |
| RouteSearch.RouteSearchState.HandleSourceSelection | src/components/RouteSearch/RouteSearch.tsx:53-57 | the source is set and the dropdown closed; a picked suggestion is never the destination |
| RouteSearch.RouteSearchState.HandleDestinationSelection | src/components/RouteSearch/RouteSearch.tsx:59-63 | the destination is set and the dropdown closed; a picked suggestion is never the source |
| SeatAvailabilityChart.Percentage | src/components/BusDetails/SeatAvailabilityChart.tsx:10 | 0 with no seats; otherwise percentage × total = available × 100 |
| SeatAvailabilityChart.ColorOf | src/components/BusDetails/SeatAvailabilityChart.tsx:12-16 | green iff above 50 %, yellow iff above 20 % and at most 50 %, red iff at most 20 % |
| SeatAvailabilityChart.ColorByCounts | src/components/BusDetails/SeatAvailabilityChart.tsx:10-16 | with seats on the bus, the band is the same comparison on whole seat counts |
| SeatAvailabilityChart.Seats | src/components/BusDetails/SeatAvailabilityChart.tsx:58-61 | max(total, 0) squares numbered from 1, and square i is free iff i < available |
| SeatAvailabilityChart.FreeSeatsShown | src/components/BusDetails/SeatAvailabilityChart.tsx:58-61 | the grid shows min(max(available, 0), max(total, 0)) free squares |
| SeatAvailabilityChart.CounterStep | src/components/BusDetails/SeatAvailabilityChart.tsx:38-44 | below the target the counter climbs by one; otherwise it is set to the target |
| SeatAvailabilityChart.AnimatedClimbs | src/components/BusDetails/SeatAvailabilityChart.tsx:35-45 | from 0, after n ticks the counter shows min(n, target): it never overshoots |
| SeatAvailabilityChart.SeatChart.constructor | src/components/BusDetails/SeatAvailabilityChart.tsx:5-8 | all counts 0, no counter running |
| SeatAvailabilityChart.SeatChart.ApplyFetch | src/components/BusDetails/SeatAvailabilityChart.tsx:20-49 | a reading replaces the three counts, resets the display to 0 and starts one more counter; a failed fetch changes nothing |
| SeatAvailabilityChart.SeatChart.CounterTick | src/components/BusDetails/SeatAvailabilityChart.tsx:37-45 | one counter step towards that counter's target; the counter stops once the target is reached |
| FeedbackForm.Validated | src/components/Feedback/FeedbackForm.tsx:22-25 | a submission exists iff there is a rating, a non-empty review and an on-time answer, and it carries exactly the form's values |
| FeedbackForm.UntouchedSlidersAccepted | src/components/Feedback/FeedbackForm.tsx:16-22 | untouched sliders pass validation with scores of 0 |
| FeedbackForm.FeedbackFormState.constructor | src/components/Feedback/FeedbackForm.tsx:13-18 | no rating, empty review, no answer, scores 0, not submitting |
| FeedbackForm.FeedbackFormState.SetRating | src/components/Feedback/FeedbackForm.tsx:58-64 | the rating becomes the star pressed (1 to 5) |
| FeedbackForm.FeedbackFormState.SetTimelyArrival | src/components/Feedback/FeedbackForm.tsx:80-92 | the on-time answer is recorded |
| FeedbackForm.FeedbackFormState.SetCleanliness | src/components/Feedback/FeedbackForm.tsx:107-112 | the cleanliness score becomes the slider value |
| FeedbackForm.FeedbackFormState.SetDriverBehavior | src/components/Feedback/FeedbackForm.tsx:123-128 | the driver score becomes the slider value |
| FeedbackForm.FeedbackFormState.SetReview | src/components/Feedback/FeedbackForm.tsx:139-141 | the review becomes the text typed |
| FeedbackForm.FeedbackFormState.BeginSubmit | src/components/Feedback/FeedbackForm.tsx:20-27 | an incomplete form gets the missing-fields toast and nothing else; a complete one becomes the submission and the form is submitting |
| FeedbackForm.FeedbackFormState.FinishSubmit | src/components/Feedback/FeedbackForm.tsx:28-43 | accepted: the record is stored, thanked and reported to the parent; rejected: an error toast; either way the form stops submitting |
| FeedbackForm.FeedbackFormState.HandleSubmit | src/components/Feedback/FeedbackForm.tsx:20-44 | only a complete form reaches the service; on acceptance the record carrying the form's fields (a rating of 1 to 5, a non-empty review) is stored, thanked and `onSubmit` runs once; on rejection nothing is stored, an error toast shows and `onSubmit` does not run; an incomplete form gets the missing-fields toast only |

## Notes

- `fetchBusData` copies `bus.nextStop` unchanged and never recomputes it
  (`Api.ReconcileBus`).
- When either telemetry channel fails, `fetchBusData` returns the fixed mock
  fleet, not the last fleet it produced (`Api.FetchBusData`).
- The map's alert key is the bus number, a dash and the stop name, so two
  different (bus, stop) pairs can share a key (`BusMap.AlertKeyCollision`).
- Two radii are in use: the geofence check keeps stops at `<= 100` m, and the
  map's alert scan fires for stops at `< 150` m; both are modelled.
- The fleet store's polling interval is commented out. `refreshData`
  depends on the selected id and the mount effect depends on
  `refreshData`, so the store refreshes on mount and whenever the selected
  id changes, and at no other time. Selecting the id already selected
  changes nothing; a refresh that drops the selection changes it again and
  so fetches once more (`BusDataStore.SelectBusAndRefresh`).
- The detail panel's "Notify Me" button is disabled while notifications
  are off, so from the panel the toggle only ever runs with notifications
  on; the permission-request branch of `HandleNotificationToggle` is
  not reached from the panel (it is from `BusCard`'s own toggle, which
  calls `subscribe` in the same way and is not part of this model).
- Subscriptions are a list, not a set: `subscribe` avoids duplicates only
  through `hasSubscription`, and a list loaded from storage may hold
  duplicates, which `unsubscribe` drops all at once.

## Left out

- The haversine distance (`getDistanceInMeters` in both files, and the
  distance inside `calculateEstimatedTime`) is the parameter `dist`,
  because it needs floating-point trigonometry. The ETA uses `dist / 1000`
  as kilometres.
- `new Date()` and `toLocaleTimeString` are left out. An ETA is the clock
  minute `AtMinute(now + offset)`. One `now` serves a whole fetch, while the
  source reads the clock once per call. `submitFeedback`'s `toISOString` is
  the `createdAt` parameter.
- Network requests, JSON decoding and `parseFloat`/`parseInt` are left out.
  A channel's sample arrives already decoded, or as `None` when the request
  or `feeds[0]` fails. NaN readings are not modelled.
- The Google Maps widget is left out: the map, the stop markers created in
  `onLoad`, info windows, the polyline, marker icons and colours,
  `onUnmount`, and `setMapError` when marker creation throws. A bus marker
  is modelled as a creation number and a position.
- The interval's `if (!mapRef.current) return` guard is left out. The tick
  is modelled as it runs once the map is loaded.
- Timers and asynchrony are left out: `setInterval` cadence, the 50 ms and
  10 s timers, the 500 ms and 700 ms delays, and interleavings of pending
  promises. Each handler runs to completion with its state updates
  applied.
- React's rendering and stale closures (`refreshData` capturing
  `selectedBusId`) are left out. `useEffect` ordering is reduced to the
  final state.
- Toasts, `alert()` text and console output are left out. Toasts of the
  feedback form are recorded as a sequence. Each arrival alert is recorded
  with the fate of its platform notification.
- BusMap.NoticeFor: `Requested` records that permission was asked for. The
  later notification, shown if the user grants it, is not modelled.
- `checkGeofenceTrigger`'s call inside `fetchBusData` only logs, and its
  result is discarded. `Api.FetchBusData` therefore does not call it.
  `Api.CheckGeofenceTrigger` models the function itself.
- The `BusTracker` component in `src/services/api.ts` is left out. It is
  rendered nowhere and only re-fetches into its own state.
- Api.EstimatedTime: returns the minute count, not the formatted clock
  string.
- RouteSearch.ToLower: lower-cases ASCII letters only. Unicode case
  mapping is left out.
- The typing and focus handlers of the route search are left out.
  `onChange` setting `source` or `destination` and opening the dropdown,
  and `handleSourceFocus`/`handleDestinationFocus`, are plain assignments.
- The bus list and `selectBus` calls from the search results are left out
  as presentation.
- NotificationContext.NotificationStore.constructor: the mount effect reads
  `Notification.permission` without checking that the browser has the
  Notification API (the map checks it), so where the API is missing the
  effect throws a ReferenceError before loading storage. The model always
  receives a permission and does not capture that failure.
- NotificationContext.NotificationStore.constructor: local storage holding
  JSON other than a list this store wrote is not modelled. That includes
  `null` and records with missing fields. The stored value is either
  absent, a saved list or unparseable text.
- The mount effect's first write of `[]` before the loaded list is left
  out. The model keeps only the final stored value.
- `SeatAvailabilityChart` takes no props and polls the seat channel
  itself. The model gives it readings through `ApplyFetch`, independently
  of the fleet store.
- SeatAvailabilityChart.AnimatedClimbs: stated for one counter starting
  from 0 with a non-negative target. Overlapping counters started by later
  fetches are kept as the `counters` field, and each tick is modelled
  (`CounterTick`), but their combined display is not summarised by a lemma.
- The star, toggle, slider and review inputs of the feedback form are
  modelled as setters. The preventDefault of the form event and the
  styling are left out.
- Presentation-only files (layout, pages, cards, spinners, animations) are
  left out. So is the `useBusData`/`useNotification` hook plumbing.

## Findings

| source | as written | input that shows it | evidently intended | confidence | as-written member | corrected member |
|---|---|---|---|---|---|---|
| src/components/Map/BusMap.tsx:196 | The map's 5-second tick calls `setBuses(updatedBuses)`, but `setBuses` is not in scope. The component only takes `buses`, `loading`, `selectedBus` and `selectBus` from `useBusData` (line 51). The ReferenceError is caught at lines 229-231, so the marker update, the arrival scan and the pan (lines 199-228) never run. | Any tick once the map is loaded, e.g. the mock bus standing on "MGR New Bus Stand" with no alert recorded yet. | Store the fetched fleet, then move the markers, raise the arrival alerts and pan to the selected bus. | high; not executed | BusMap.BusMapState.TickAsWritten | BusMap.BusMapState.Tick |

`BusMap.TickWouldAlert` shows the difference between the two halves. When a
bus stands on a fixed stop whose key is unrecorded, the corrected tick's
scan changes the alert ledger. The tick as written leaves the ledger
unchanged, because it has no `modifies` clause. The corrected tick leaves out the fleet
store update itself: the store exposes no setter to the map, so that step
has no modelled target.
