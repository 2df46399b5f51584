# farquaad, modelled in Dafny

farquaad is a bot that books vaccine appointments. It polls a distributor's
availability feed, filters the locations by the user's restrictions (allowed
cities, allowed zip codes, a largest distance from home), sorts the survivors
by distance, and then tries each one in turn. For H.E.B., trying a location
means loading its appointment form, searching the form depth-first for a
manufacturer, date and time that lets it proceed, then filling in the patient
form.

This project models that decision logic and proves properties of it. It has
five files:

- `wrappers.dfy`: `Option` and `Result`.
- `seqs.dfy`: `Keep`, an order-preserving selection on sequences, and
  `IsSubseq`, the subsequence relation.
- `base.dfy` (module `Base`): `Restrictions`, the location record, and the
  class `Filter`. Its method `Apply` runs one loop over the locations and
  updates the distance cache (`storeNameToDistance`) in place. The pure
  function `FilterPass` specifies that loop, with the zip check corrected.
  `FilterPassAsWritten` is the loop with the zip check as the code reads it
  (see Findings).
- `distributors.dfy` (module `Distributors`): the stable sort by distance.
  `Monitor` is the polling loop, proved equal to the function `Watching`.
  `Schedule` is the first-success loop over candidates.
- `heb.dfy` (module `Heb`): the open-slot filter of the feed, and the
  appointment form's search. `Populate` is the triple-nested loop, proved equal
  to the function `Explore`. `Process` is one booking attempt.

External capabilities become parameters:

- The geocoder and the geodesic distance are the two oracles in `Geo`.
  Distances are whole miles (`nat`) and coordinates are integers.
- The availability source is a finite `feed` of batches.
- The browser is a finite tree of options. For each manufacturer: whether the
  date box appears within the wait, and its dates. For each date: whether the
  time box appears, and its times. For each time: whether the continue button
  appears and is then present.
- The appointment site of each slot URL is a `Site`.
- `process` is a function from a location to an `Attempt`.

The model follows the code's own behaviour in these cases:

- A list restriction is off only when it is `None`. An empty list lets
  nothing through, and the constructor default is `cities=[]`
  (`Base.DefaultRestrictionsKeepNothing`).
- A distance bound of `0`, which is the constructor default, keeps only
  locations at distance 0. No value of the bound switches it off: `None`
  raises, as a later item says.
- A location for which neither the full address nor the zip code geocodes
  raises (`AddressNotFound`). The location is not dropped, so the pass stops
  there.
- A bound of `None` cannot be compared with a float, so the first measured
  location raises (`NoDistanceBound`). The command line's default distance is
  `None`.
- A preferred manufacturer that the form has no item for raises a `KeyError`
  (`UnknownManufacturer`). The search stops there and `schedule` is aborted.

An error outcome is a value, never a precondition.

## Model

| member | source | states |
|---|---|---|
| Base.AsWrittenWithoutZipListIsFilterPass | src/farquaad/base/__init__.py:99-121 | With no zip list, the loop as written makes exactly the corrected pass: same result, records, cache, queries and error. |
| Base.AsWrittenZipListKeepsNothing | src/farquaad/base/__init__.py:99-103 | With a zip list set, the loop as written keeps nothing, issues no geocoder query, leaves the cache as it was and writes no distance onto any record. |
| Base.AsWrittenZipListRaisesAtFirstCityMatch | src/farquaad/base/__init__.py:99-103 | With a zip list set, the loop as written raises `AttributeError` at the first location whose city passes, whatever its zip. It ends without error exactly when no location's city passes. |
| Base.FilterPassAsWritten | src/farquaad/base/__init__.py:99-121 | The loop as written, with the zip check reading `restrictions.zip`, yields one record per input location. |
| Base.StepAsWrittenWithZipList | src/farquaad/base/__init__.py:100-103 | With a zip list set, one iteration as written either skips the location on its city or raises `AttributeError`. In both cases the record is appended untouched, with no lookup, query or cache change. |
| Base.AsWrittenRecordsMirrorLocations | src/farquaad/base/__init__.py:99-116 | The pass as written leaves every input record in place and in order, untouched or with only its distance written. |
| Base.ZipCheckAsWrittenRejectsListedZip | src/farquaad/base/__init__.py:100-102 | On the Findings input (`Restrictions(None, ["78701"], 50)`, a location in Austin at 78701), a location in an allowed city whose zip is in the zip list still makes the pass as written raise, whatever the home, the geocoder and the cache. |
| Base.Resolve | src/farquaad/base/__init__.py:108-113 | Coordinates come in a fixed order. The record's own coordinates are used when both are present, with no geocoder call. Otherwise the full address is geocoded first. The zip alone is geocoded exactly when the full address finds nothing. The result is `None` exactly when both fail. |
| Base.LookUp | src/farquaad/base/__init__.py:104-115 | On a cache hit, the cached distance is returned with no geocoder call and the cache is unchanged. On a miss, the distance to the resolved coordinates is stored under the name. The lookup is unresolved exactly on a miss where neither geocode succeeds. |
| Base.StepShape | src/farquaad/base/__init__.py:99-119 | One iteration appends the record, either untouched or with its distance written. The record is kept only if it is admitted. The cache keeps its old entries and gains at most the current name. A raised error stays raised. |
| Base.RefusedLocationIsNotLookedUp | src/farquaad/base/__init__.py:100-103 | A location refused by city or zip is skipped before any cache lookup or geocoder call. Its record stays untouched. |
| Base.CacheHitIsSilent | src/farquaad/base/__init__.py:105-106 | A name already in the cache issues no geocoder call. The cached distance is written onto the record, whatever its address or coordinates. |
| Base.RecordsMirrorLocations | src/farquaad/base/__init__.py:99-116 | After a pass, the records are the input locations in order. Each one is untouched or has only its distance written. Records refused by city or zip are untouched. |
| Base.KeptAreAdmittedRecords | src/farquaad/base/__init__.py:98-121 | The result is exactly the records that satisfy every restriction, in input order. |
| Base.KeptIsSelectionOfRecords | src/farquaad/base/__init__.py:98-121 | The result is a subsequence of the records. Each admitted record occurs in it as often as in the input, and nothing else occurs. |
| Base.KeptRespectRestrictions | src/farquaad/base/__init__.py:100-119 | Every kept location has its city in `cities` and its zip in `zipcodes` (when set). Its distance is attached and is at most the bound. |
| Base.CacheOnlyGrows | src/farquaad/base/__init__.py:104-115 | A pass never removes or overwrites a cache entry. Every new key is the name of an input location. |
| Base.DistancesAgreeWithCache | src/farquaad/base/__init__.py:104-116 | In a pass that raises nothing, every location that passes city and zip gets a distance attached, including one later dropped by the bound. That distance is the one cached under its name, so records sharing a name share a distance. |
| Base.StepAttachesCachedDistance | src/farquaad/base/__init__.py:114-116 | A measured record carries the distance cached under its name. |
| Base.FailureIsFinal | src/farquaad/base/__init__.py:99-121 | Once an iteration raises, the later locations are neither filtered nor looked up. Nothing else changes. |
| Base.DefaultRestrictionsKeepNothing | src/farquaad/base/__init__.py:14-18 | With the constructor defaults, every location is dropped, with no geocoder call and no cache change. |
| Base.Filter.Init | src/farquaad/base/__init__.py:80-86 | A new filter holds the home coordinate, the restrictions and an empty distance cache. |
| Base.Filter.Open | src/farquaad/base/__init__.py:80-86 | Building a filter fails exactly when the home address does not geocode. Otherwise the filter is fresh, with an empty cache. |
| Base.Filter.Geocode | src/farquaad/base/__init__.py:110-112 | A geocoder call returns the oracle's answer and logs the query. |
| Base.Filter.Distance | src/farquaad/base/__init__.py:104-115 | The memoised distance updates the cache and the query log as `LookUp` says. |
| Base.Filter.Visit | src/farquaad/base/__init__.py:100-119 | One loop iteration leaves the cache, the log and the record as `VisitOne` says. |
| Base.Filter.Iterate | src/farquaad/base/__init__.py:99-119 | One iteration extends the pass by one location. The cache and query log become those of the longer pass. The record is appended, the kept list gains the record only when it is accepted, and a raise becomes the pass's error. |
| Base.Filter.Apply | src/farquaad/base/__init__.py:88-121 | After the loop, the cache, the query log, the annotated records and the result (or the raised error) are those of `FilterPass` from the old cache. |
| Distributors.Insert | src/farquaad/distributors/__init__.py:23 | Inserting adds exactly one occurrence of the element. |
| Distributors.InsertKeepsSorted | src/farquaad/distributors/__init__.py:23 | Inserting into a list sorted by distance keeps it sorted. |
| Distributors.SortByDistance | src/farquaad/distributors/__init__.py:23 | The sorted list is non-decreasing in distance and a permutation of its input. |
| Distributors.SortIsStable | src/farquaad/distributors/__init__.py:23 | The sort is stable. For each distance, the records at that distance keep their input order. |
| Distributors.FoundBatchIsOnePoll | src/farquaad/distributors/__init__.py:18-24 | A found batch is non-empty. It is the sorted result of poll `k`, filtered from the cache that polls `0..k-1` left. Every earlier poll raised nothing and kept nothing. |
| Distributors.CrashIsFirstRaisingPoll | src/farquaad/distributors/__init__.py:18-24 | A crash carries the error of poll `k`, filtered from the cache the earlier polls left. Every earlier poll raised nothing and kept nothing. |
| Distributors.FeedExhaustedIffEveryPollQuiet | src/farquaad/distributors/__init__.py:18-24 | The loop runs through the whole feed exactly when every poll, each from the cache the previous one left, raises nothing and keeps nothing. |
| Distributors.FoundBatchIsFilteredAndSorted | src/farquaad/distributors/__init__.py:18-24 | A found batch is non-empty and sorted by distance. It is a permutation of the locations kept by poll `k`, filtered from the cache the earlier polls left, after `k` polls that kept nothing. Each slot satisfies the restrictions. |
| Distributors.SortedKeptAreAdmitted | src/farquaad/distributors/__init__.py:22-23 | Sorting a pass's result keeps its elements and the restrictions they satisfy. |
| Distributors.MonitorFindsAdmittedSlots | src/farquaad/distributors/__init__.py:15-24 | `monitor` fails with `HomeNotFound` when home does not geocode. Whatever it returns otherwise is non-empty, nearest first, and restriction-satisfying. |
| Distributors.CacheCarriesToNextPoll | src/farquaad/distributors/__init__.py:18-22 | An empty poll hands its cache to the next poll with every earlier entry kept. One cache is shared by all polls. |
| Distributors.PollStep | src/farquaad/distributors/__init__.py:19-23 | One poll filters the next batch and sorts it. It stops on an error or a non-empty result, and otherwise goes on with the updated cache. |
| Distributors.Monitor | src/farquaad/distributors/__init__.py:15-24 | The polling loop returns what `Watching` specifies for the feed. |
| Distributors.Schedule | src/farquaad/distributors/__init__.py:29-35 | The candidates passed to `process` are a prefix of the list, in order, each once. Every one before the last was declined. A booking returns the last one tried, which `process` booked. `NoneBooked` is returned exactly when the whole list was tried and declined, including for an empty list. An error raised by the last one tried aborts with its reason. |
| Heb.OpenSlots | src/farquaad/distributors/heb.py:46 | The feed keeps exactly the locations with an open time slot, as a subsequence in feed order. Each one occurs as often as in the feed. |
| Heb.TimeWalkFirst | src/farquaad/distributors/heb.py:111-120 | Times are tried in order, and the first ready time is selected. A time is skipped when its continue button does not appear, or appears but is not present. The last click selects the chosen time. |
| Heb.DateWalkFirst | src/farquaad/distributors/heb.py:97-120 | Dates are tried in order. A date is skipped when its time box does not appear or lists no time. The first ready date and time is selected, and nothing before it in date-then-time order is ready. |
| Heb.PanelWalkFirst | src/farquaad/distributors/heb.py:85-120 | Within one manufacturer, the search selects the first path that can proceed, or reports that none can. A manufacturer is skipped when its date box does not appear or lists no date. |
| Heb.ExploreSelectsFirst | src/farquaad/distributors/heb.py:81-121 | First match: the selected path can proceed, and no path before it in preference, date, time order can. The search returns right after clicking that time. |
| Heb.ExploreStopsAtUnknown | src/farquaad/distributors/heb.py:81-84 | A preference with no form item stops the search with a `KeyError`. Every earlier preference was known, and none of their paths could proceed. |
| Heb.ExploreNoSlot | src/farquaad/distributors/heb.py:81-121 | The search returns false exactly when every preference is known and no path of the form can proceed. |
| Heb.PopulateIff | src/farquaad/distributors/heb.py:81-121 | With every preference known, the search selects a path exactly when some path can proceed, and it never raises. |
| Heb.Populate | src/farquaad/distributors/heb.py:75-121 | The nested loops produce the outcome and the click sequence that `Explore` specifies. |
| Heb.Attempted | src/farquaad/distributors/heb.py:16-36 | With every preference known, an attempt books exactly when three things hold: the appointment form loads without the no-slots notice, some path of the form can proceed, and the patient form loads. It raises only for an unknown preference. |
| Heb.Process | src/farquaad/distributors/heb.py:16-36 | One attempt gives `Attempted`'s result, and its page steps are fixed for each outcome. If the appointment form does not load (or shows the no-slots notice), the only step is opening the URL. If the search selects nothing, the steps are opening and filling the form, and the patient page is not touched. If a path is selected but the patient form does not load, proceeding and opening the patient form follow. A booking is the full six-step trace, ending with proceeding to confirmation. |
| Heb.LoadGatesAttempt | src/farquaad/distributors/heb.py:19-20 | `AppointmentForm.load` (`AppointmentFormLoads`, line 125) only gates the attempt. If the manufacturer box does not appear or the no-slots notice shows, the slot is declined. Two sites that both load, with the same form and the same patient page, give the same result. |
| Heb.NoSlotsNoticeDeclines | src/farquaad/distributors/heb.py:123-125 | A page that announces no available time slots declines the slot, whatever its form holds. |

## Left out

- `cli.py` is not part of this model. It covers argument parsing, browser and
  display set-up, logging, the outer loop that polls again after a batch is
  exhausted, and its sanity mode. That mode calls a `sanity` method that
  neither `HEB` nor `Distributor` defines.
- `HEB.verify` (`src/farquaad/distributors/heb.py:38-40`) is not modelled.
  Nothing in the repository calls it, and it only loads the appointment form,
  which is `AppointmentFormLoads`.
- `Page` and its Selenium calls (find, click, scroll, wait, screenshot) are
  not modelled. They appear only as the booleans and option lists of the UI
  tree and of `Site`. Screenshots, `proceed` clicks other than the ones in the
  page-action trace, and `finalize` are left out.
- `PatientForm` is not modelled. Its `populate` is taken to succeed, and its
  `load` is the oracle `Site.patientFormLoads`. As written, `populate` raises
  `KeyError` when `peoplesoft`, `providerid` or `groupnumber` is set in the
  patient data, because `self.widgets` has no such key
  (`src/farquaad/distributors/heb.py:177`, `:191`, `:195`). It also raises for
  a `certify` value outside the four phases (`:198`). Those raises are not
  modelled, so `Heb.Attempted` raises only for an unknown preference.
- Geodesic distance and floating point are not modelled. Distances are whole
  miles from an oracle, so sub-mile comparisons against the bound are not
  captured. Nor is the sort order between records whose distances differ
  within the same mile (`src/farquaad/distributors/__init__.py:23`): the
  model keeps their input order.
- Network I/O (`urlopen`, JSON decoding) and `sleep` are not modelled. The
  availability source is the finite `feed`.
- Distributors.Monitor: the source waits without bound. The model stops with
  `FeedExhausted` when the finite feed has no further batch, because an
  unbounded loop cannot be proved to terminate.
- The arity mismatch between `Distributor.monitor`, which passes restrictions
  to `checkAvailability`, and `HEB.checkAvailability`, which takes none, is
  not modelled. The feed takes no argument.
- In-place mutation of the location dicts is modelled by returning the
  annotated records (`records`) next to the result. Aliasing between the
  caller's list and those records is not modelled.
- Exceptions raised by the UI primitives outside the `try` blocks of
  `populate` (in `scrollTo`, `clickOn`, `findAll`, `isPresent`, and the
  element clicks `d.click()` and `t.click()` at
  `src/farquaad/distributors/heb.py:98` and `:112`) are not modelled. Each step is an oracle boolean that does not raise.
- Logging is not modelled.

## Findings

| source | as written | input that shows it | evidently intended | confidence | as-written member | corrected member |
|---|---|---|---|---|---|---|
| src/farquaad/base/__init__.py:102 | The zip check reads `self.restrictions.zip`, an attribute `Restrictions` never sets (lines 14-18). With any zip list that is not `None`, `apply` raises `AttributeError` at the first location whose city passes, even when that location's zip is listed. | `Restrictions(cities=None, zipcodes=["78701"], distance=50)` with a location at zip `78701` | The location's zip is checked against `zipcodes`, as the comment at line 91 describes. | high (not executed) | Base.AsWrittenZipListRaisesAtFirstCityMatch | Base.KeptRespectRestrictions |
