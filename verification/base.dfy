/**
 * The restriction filter of `farquaad.base`: `Restrictions` and `Filter.apply`.
 *
 * A location passes three checks in order: its city, its zip code and its
 * distance from home. Distances are memoised per location name in
 * `storeNameToDistance`; a location without both coordinates is geocoded by
 * full address and, if that finds nothing, by zip code alone. The geocoder
 * and the geodesic distance are oracles (`Geo`), and distances are whole miles.
 */
module Base {
  import opened Wrappers
  import opened Seqs

  /** A resolved latitude/longitude pair. */
  datatype Coord = Coord(latitude: int, longitude: int)

  /**
   * One location record of the availability feed. `distance` is the field
   * that `Filter.apply` writes onto the record; the feed delivers it unset.
   */
  datatype Location = Location(
    name: string,
    street: string,
    city: string,
    state: string,
    zip: string,
    latitude: Option<int>,
    longitude: Option<int>,
    openTimeslots: int,
    url: string,
    distance: Option<nat>)

  /**
   * The user's restrictions. `None` switches a list restriction off; an empty
   * list lets nothing through. `distance` is the largest accepted distance.
   */
  datatype Restrictions = Restrictions(
    cities: Option<seq<string>>,
    zipcodes: Option<seq<string>>,
    distance: Option<int>)

  /** The constructor defaults `cities=[], zipcodes=[], distance=0`. */
  const DefaultRestrictions := Restrictions(Some([]), Some([]), Some(0))

  /** The external capabilities the filter consumes: a geocoder and a distance in miles from home. */
  datatype Geo = Geo(geocode: string -> Option<Coord>, miles: (Coord, Coord) -> nat)

  /** The exceptions the source raises on the way. */
  datatype FilterError =
    | HomeNotFound(address: string)    // the home address does not geocode
    | AddressNotFound(name: string)    // neither the full address nor the zip geocodes
    | NoDistanceBound(name: string)    // a distance compared with an unset bound
    | ZipAttributeMissing(name: string) // `restrictions.zip` read while checking this location

  predicate CityAllowed(r: Restrictions, loc: Location) {
    r.cities.None? || loc.city in r.cities.value
  }

  /** The zip restriction, checked against `zipcodes` (see README, Findings). */
  predicate ZipAllowed(r: Restrictions, loc: Location) {
    r.zipcodes.None? || loc.zip in r.zipcodes.value
  }

  /**
   * The zip check exactly as written: with a zip list set it reads
   * `restrictions.zip`, an attribute `Restrictions` never defines, and raises.
   */
  function ZipCheckAsWritten(r: Restrictions, loc: Location): Result<bool, FilterError> {
    if r.zipcodes.None? then Success(true)
    else Failure(ZipAttributeMissing(loc.name))
  }

  /** The full-address geocoder query: street, city, state and zip joined by ", ". */
  function AddressQuery(loc: Location): string {
    loc.street + ", " + loc.city + ", " + loc.state + ", " + loc.zip
  }

  /** The coordinates found for a location, and the geocoder queries issued to find them. */
  datatype Resolution = Resolution(coord: Option<Coord>, queries: seq<string>)

  /** Coordinate resolution on a cache miss. */
  function Resolve(geo: Geo, loc: Location): (res: Resolution)
    ensures loc.latitude.Some? && loc.longitude.Some? ==>
              res == Resolution(Some(Coord(loc.latitude.value, loc.longitude.value)), [])
    ensures (loc.latitude.None? || loc.longitude.None?) ==>
              1 <= |res.queries| <= 2 && res.queries[0] == AddressQuery(loc)
    ensures |res.queries| == 2 <==>
              (loc.latitude.None? || loc.longitude.None?) && geo.geocode(AddressQuery(loc)).None?
    ensures |res.queries| == 2 ==> res.queries[1] == loc.zip && res.coord == geo.geocode(loc.zip)
    ensures |res.queries| == 1 ==> res.coord == geo.geocode(AddressQuery(loc))
    ensures res.coord.None? <==>
              (loc.latitude.None? || loc.longitude.None?)
              && geo.geocode(AddressQuery(loc)).None? && geo.geocode(loc.zip).None?
  {
    if loc.latitude.Some? && loc.longitude.Some? then
      Resolution(Some(Coord(loc.latitude.value, loc.longitude.value)), [])
    else
      var full := geo.geocode(AddressQuery(loc));
      if full.Some? then Resolution(full, [AddressQuery(loc)])
      else Resolution(geo.geocode(loc.zip), [AddressQuery(loc), loc.zip])
  }

  /**
   * The state of one pass of the filter over a list of locations: the kept
   * records, every record as it stands after the pass (annotated in place),
   * the distance cache, the geocoder queries issued, and the error raised.
   */
  datatype Pass = Pass(
    kept: seq<Location>,
    records: seq<Location>,
    cache: map<string, nat>,
    queries: seq<string>,
    failure: Option<FilterError>)

  /** The outcome of a distance lookup: the miles, the cache afterwards and the geocoder queries issued. */
  datatype Lookup = Measured(miles: nat, cache: map<string, nat>, queries: seq<string>) | Unresolved(queries: seq<string>)

  /**
   * The memoised distance of a location: a cache hit answers without the
   * geocoder; a miss resolves coordinates, measures and stores the result.
   */
  function LookUp(home: Coord, geo: Geo, cache: map<string, nat>, loc: Location): (l: Lookup)
    ensures loc.name in cache ==> l == Measured(cache[loc.name], cache, [])
    ensures loc.name !in cache && l.Measured? ==>
              l.cache == cache[loc.name := l.miles] && Resolve(geo, loc).coord.Some?
              && l.miles == geo.miles(home, Resolve(geo, loc).coord.value)
    ensures l.Unresolved? <==> loc.name !in cache && Resolve(geo, loc).coord.None?
    ensures loc.name !in cache ==> l.queries == Resolve(geo, loc).queries
  {
    if loc.name in cache then Measured(cache[loc.name], cache, [])
    else
      var res := Resolve(geo, loc);
      if res.coord.None? then Unresolved(res.queries)
      else
        var miles := geo.miles(home, res.coord.value);
        Measured(miles, cache[loc.name := miles], res.queries)
  }

  /**
   * What one iteration of the filter loop decides about a location; `rec` is
   * the record as the iteration leaves it.
   */
  datatype Verdict =
    | Refused(rec: Location)                    // city or zip not allowed; the record is untouched
    | Dropped(rec: Location)                    // measured, but farther than the bound
    | Accepted(rec: Location)                   // measured and within the bound
    | Raised(rec: Location, error: FilterError) // the iteration raised

  /** The verdict on one location, with the cache afterwards and the geocoder queries issued. */
  datatype Visit = Visit(verdict: Verdict, cache: map<string, nat>, queries: seq<string>)

  /**
   * One iteration of the filter loop: the city and zip checks, the memoised
   * distance, the write of the distance onto the record, then the distance bound.
   */
  function VisitOne(home: Coord, r: Restrictions, geo: Geo, cache: map<string, nat>, loc: Location): Visit {
    if !CityAllowed(r, loc) || !ZipAllowed(r, loc) then Visit(Refused(loc), cache, [])
    else
      match LookUp(home, geo, cache, loc)
      case Unresolved(queries) => Visit(Raised(loc, AddressNotFound(loc.name)), cache, queries)
      case Measured(miles, cache', queries) =>
        var rec := loc.(distance := Some(miles));
        var verdict :=
          if r.distance.None? then Raised(rec, NoDistanceBound(loc.name))
          else if miles > r.distance.value then Dropped(rec)
          else Accepted(rec);
        Visit(verdict, cache', queries)
  }

  /** One iteration applied to the pass. Once an error is raised the rest of the records are left as they are. */
  function Step(home: Coord, r: Restrictions, geo: Geo, p: Pass, loc: Location): Pass {
    if p.failure.Some? then p.(records := p.records + [loc])
    else
      var v := VisitOne(home, r, geo, p.cache, loc);
      Pass(
        if v.verdict.Accepted? then p.kept + [v.verdict.rec] else p.kept,
        p.records + [v.verdict.rec],
        v.cache,
        p.queries + v.queries,
        if v.verdict.Raised? then Some(v.verdict.error) else None)
  }

  /** The whole pass of `Filter.apply` over `locations`, starting from `cache`. */
  function FilterPass(home: Coord, r: Restrictions, geo: Geo, cache: map<string, nat>, locations: seq<Location>): Pass
    decreases |locations|
  {
    if locations == [] then Pass([], [], cache, [], None)
    else Step(home, r, geo, FilterPass(home, r, geo, cache, locations[..|locations| - 1]), Last(locations))
  }

  /** A kept record satisfies every restriction, with its attached distance within the bound. */
  predicate Admitted(r: Restrictions, rec: Location) {
    && CityAllowed(r, rec)
    && ZipAllowed(r, rec)
    && rec.distance.Some?
    && r.distance.Some?
    && rec.distance.value <= r.distance.value
  }

  /** `rec` is `loc`, possibly with a distance written onto it. */
  predicate Annotates(rec: Location, loc: Location) {
    rec.(distance := loc.distance) == loc
  }

  lemma FilterPassUnfold(home: Coord, r: Restrictions, geo: Geo, cache: map<string, nat>, locations: seq<Location>, i: nat)
    requires i < |locations|
    ensures FilterPass(home, r, geo, cache, locations[..i + 1])
         == Step(home, r, geo, FilterPass(home, r, geo, cache, locations[..i]), locations[i])
  {
    assert locations[..i + 1][..i] == locations[..i];
  }

  /** The pass over one more location, when the shorter pass has not raised, in terms of that iteration's visit. */
  lemma FilterPassByVisit(home: Coord, r: Restrictions, geo: Geo, cache: map<string, nat>, locations: seq<Location>, i: nat)
    requires i < |locations|
    requires FilterPass(home, r, geo, cache, locations[..i]).failure.None?
    ensures var p := FilterPass(home, r, geo, cache, locations[..i]);
            var v := VisitOne(home, r, geo, p.cache, locations[i]);
            FilterPass(home, r, geo, cache, locations[..i + 1])
            == Pass(if v.verdict.Accepted? then p.kept + [v.verdict.rec] else p.kept,
                    p.records + [v.verdict.rec],
                    v.cache,
                    p.queries + v.queries,
                    if v.verdict.Raised? then Some(v.verdict.error) else None)
  {
    FilterPassUnfold(home, r, geo, cache, locations, i);
  }

  /**
   * What one step does to the pass: the record is appended (annotated or not),
   * the cache only gains the current name, and a raised error stays raised.
   */
  lemma StepShape(home: Coord, r: Restrictions, geo: Geo, p: Pass, loc: Location)
    ensures var q := Step(home, r, geo, p, loc);
            && q.records[..|p.records|] == p.records
            && |q.records| == |p.records| + 1
            && Annotates(q.records[|p.records|], loc)
            && (q.kept == p.kept || q.kept == p.kept + [q.records[|p.records|]])
            && (q.kept != p.kept ==> Admitted(r, q.records[|p.records|]))
            && (p.failure.Some? ==> q.failure == p.failure && q.cache == p.cache && q.queries == p.queries)
            && (forall n :: n in p.cache ==> n in q.cache && q.cache[n] == p.cache[n])
            && q.cache.Keys <= p.cache.Keys + {loc.name}
  {
  }

  /** One step appends one record: the location, possibly with its distance written, untouched when refused. */
  lemma StepAppendsRecord(home: Coord, r: Restrictions, geo: Geo, p: Pass, loc: Location)
    ensures var q := Step(home, r, geo, p, loc);
            && |q.records| == |p.records| + 1
            && q.records == p.records + [q.records[|p.records|]]
            && Annotates(q.records[|p.records|], loc)
            && (!(CityAllowed(r, loc) && ZipAllowed(r, loc)) ==> q.records[|p.records|] == loc)
  {
  }

  /** A location refused by city or zip is skipped before any cache lookup or geocoder call. */
  lemma RefusedLocationIsNotLookedUp(home: Coord, r: Restrictions, geo: Geo, p: Pass, loc: Location)
    requires !CityAllowed(r, loc) || !ZipAllowed(r, loc)
    ensures var q := Step(home, r, geo, p, loc);
            q.cache == p.cache && q.queries == p.queries && q.kept == p.kept && q.failure == p.failure
            && q.records == p.records + [loc]
  {
  }

  /**
   * A cache hit issues no geocoder call and attaches the cached distance,
   * whatever the record's own address or coordinates are.
   */
  lemma CacheHitIsSilent(home: Coord, r: Restrictions, geo: Geo, p: Pass, loc: Location)
    requires p.failure.None? && CityAllowed(r, loc) && ZipAllowed(r, loc)
    requires loc.name in p.cache
    ensures var q := Step(home, r, geo, p, loc);
            q.cache == p.cache && q.queries == p.queries
            && q.records == p.records + [loc.(distance := Some(p.cache[loc.name]))]
  {
  }

  /**
   * The records after the pass are the input records in order, each one
   * either untouched or with its distance written; a record refused by city
   * or zip is untouched.
   */
  lemma {:induction false} RecordsMirrorLocations(
    home: Coord, r: Restrictions, geo: Geo, cache: map<string, nat>, locations: seq<Location>)
    ensures var p := FilterPass(home, r, geo, cache, locations);
            && |p.records| == |locations|
            && (forall i :: 0 <= i < |locations| ==> Annotates(p.records[i], locations[i]))
            && (forall i :: 0 <= i < |locations| && !(CityAllowed(r, locations[i]) && ZipAllowed(r, locations[i]))
                  ==> p.records[i] == locations[i])
    decreases |locations|
  {
    if locations != [] {
      var init := locations[..|locations| - 1];
      var p0 := FilterPass(home, r, geo, cache, init);
      RecordsMirrorLocations(home, r, geo, cache, init);
      StepAppendsRecord(home, r, geo, p0, Last(locations));
      var p := FilterPass(home, r, geo, cache, locations);
      forall i | 0 <= i < |locations|
        ensures Annotates(p.records[i], locations[i])
        ensures !(CityAllowed(r, locations[i]) && ZipAllowed(r, locations[i])) ==> p.records[i] == locations[i]
      {
        if i < |init| {
          assert p.records[i] == p0.records[i] && locations[i] == init[i];
        }
      }
    }
  }

  /**
   * The kept records are exactly the annotated records that satisfy every
   * restriction, in input order: a subsequence, nothing added or reordered.
   */
  lemma {:induction false} KeptAreAdmittedRecords(
    home: Coord, r: Restrictions, geo: Geo, cache: map<string, nat>, locations: seq<Location>)
    ensures var p := FilterPass(home, r, geo, cache, locations);
            p.failure.None? ==> p.kept == Keep(p.records, rec => Admitted(r, rec))
    decreases |locations|
  {
    var p := FilterPass(home, r, geo, cache, locations);
    if locations != [] && p.failure.None? {
      var init := locations[..|locations| - 1];
      var p0 := FilterPass(home, r, geo, cache, init);
      KeptAreAdmittedRecords(home, r, geo, cache, init);
      StepShape(home, r, geo, p0, Last(locations));
      var rec := p.records[|p0.records|];
      assert p.records == p0.records + [rec];
      KeepAppend(p0.records, rec => Admitted(r, rec), rec);
      if Admitted(r, rec) {
        AdmittedRecordIsKept(home, r, geo, p0, Last(locations));
      }
    }
  }

  /**
   * The result is an order-preserving selection of the (annotated) input:
   * every admitted record is kept as often as it occurs, nothing else is.
   */
  lemma KeptIsSelectionOfRecords(
    home: Coord, r: Restrictions, geo: Geo, cache: map<string, nat>, locations: seq<Location>)
    ensures var p := FilterPass(home, r, geo, cache, locations);
            p.failure.None? ==>
              && IsSubseq(p.kept, p.records)
              && forall rec {:trigger multiset(p.kept)[rec]} ::
                   multiset(p.kept)[rec] == if Admitted(r, rec) then multiset(p.records)[rec] else 0
  {
    var p := FilterPass(home, r, geo, cache, locations);
    KeptAreAdmittedRecords(home, r, geo, cache, locations);
    KeepIsSelection(p.records, rec => Admitted(r, rec));
  }

  /** A step that produces an admitted record keeps it. */
  lemma AdmittedRecordIsKept(home: Coord, r: Restrictions, geo: Geo, p: Pass, loc: Location)
    requires p.failure.None?
    requires var q := Step(home, r, geo, p, loc); q.failure.None? && Admitted(r, q.records[|p.records|])
    ensures var q := Step(home, r, geo, p, loc); q.kept == p.kept + [q.records[|p.records|]]
  {
    StepShape(home, r, geo, p, loc);
  }

  /** Every kept record satisfies the city, zip and distance restrictions. */
  lemma {:induction false} KeptRespectRestrictions(
    home: Coord, r: Restrictions, geo: Geo, cache: map<string, nat>, locations: seq<Location>)
    ensures var p := FilterPass(home, r, geo, cache, locations);
            forall rec :: rec in p.kept ==>
              && (r.cities.Some? ==> rec.city in r.cities.value)
              && (r.zipcodes.Some? ==> rec.zip in r.zipcodes.value)
              && rec.distance.Some? && r.distance.Some? && rec.distance.value <= r.distance.value
    decreases |locations|
  {
    if locations != [] {
      var init := locations[..|locations| - 1];
      KeptRespectRestrictions(home, r, geo, cache, init);
      StepShape(home, r, geo, FilterPass(home, r, geo, cache, init), Last(locations));
    }
  }

  /** The cache only grows: an existing entry is never overwritten or removed, and only names of the input are added. */
  lemma {:induction false} CacheOnlyGrows(
    home: Coord, r: Restrictions, geo: Geo, cache: map<string, nat>, locations: seq<Location>)
    ensures var p := FilterPass(home, r, geo, cache, locations);
            && (forall n :: n in cache ==> n in p.cache && p.cache[n] == cache[n])
            && (forall n :: n in p.cache && n !in cache ==> exists i :: 0 <= i < |locations| && locations[i].name == n)
    decreases |locations|
  {
    if locations != [] {
      var init := locations[..|locations| - 1];
      var p0 := FilterPass(home, r, geo, cache, init);
      CacheOnlyGrows(home, r, geo, cache, init);
      StepShape(home, r, geo, p0, Last(locations));
      var p := FilterPass(home, r, geo, cache, locations);
      forall n | n in p.cache && n !in cache
        ensures exists i :: 0 <= i < |locations| && locations[i].name == n
      {
        if n in p0.cache {
          var i :| 0 <= i < |init| && init[i].name == n;
          assert locations[i] == init[i];
        } else {
          assert locations[|locations| - 1].name == n;
        }
      }
    }
  }

  /**
   * Within one pass, records that share a name share a distance: every record
   * that passed city and zip carries the distance cached under its name at the
   * end of the pass, whatever its address.
   */
  lemma {:induction false} DistancesAgreeWithCache(
    home: Coord, r: Restrictions, geo: Geo, cache: map<string, nat>, locations: seq<Location>)
    ensures var p := FilterPass(home, r, geo, cache, locations);
            p.failure.None? ==>
              |p.records| == |locations| &&
              forall i :: 0 <= i < |locations| && CityAllowed(r, locations[i]) && ZipAllowed(r, locations[i]) ==>
                locations[i].name in p.cache && p.records[i].distance == Some(p.cache[locations[i].name])
    decreases |locations|
  {
    var p := FilterPass(home, r, geo, cache, locations);
    if locations != [] && p.failure.None? {
      var init := locations[..|locations| - 1];
      var p0 := FilterPass(home, r, geo, cache, init);
      StepShape(home, r, geo, p0, Last(locations));
      StepAttachesCachedDistance(home, r, geo, p0, Last(locations));
      DistancesAgreeWithCache(home, r, geo, cache, init);
      forall i | 0 <= i < |init| && CityAllowed(r, init[i]) && ZipAllowed(r, init[i])
        ensures init[i].name in p.cache && p.records[i].distance == Some(p.cache[init[i].name])
      {
        assert p.records[i] == p.records[..|p0.records|][i] == p0.records[i];
      }
      assert forall i :: 0 <= i < |init| ==> locations[i] == init[i];
    }
  }

  /** A step that measures a record leaves its distance in the cache under the record's name. */
  lemma StepAttachesCachedDistance(home: Coord, r: Restrictions, geo: Geo, p: Pass, loc: Location)
    requires p.failure.None?
    ensures var q := Step(home, r, geo, p, loc);
            q.failure.None? && CityAllowed(r, loc) && ZipAllowed(r, loc) ==>
              loc.name in q.cache && |q.records| == |p.records| + 1
              && q.records[|p.records|].distance == Some(q.cache[loc.name])
  {
  }

  /** Once a pass has raised an error, the later records are left untouched and nothing else changes. */
  lemma {:induction false} FailureIsFinal(
    home: Coord, r: Restrictions, geo: Geo, cache: map<string, nat>, locations: seq<Location>, i: nat)
    requires i <= |locations|
    requires FilterPass(home, r, geo, cache, locations[..i]).failure.Some?
    ensures var p := FilterPass(home, r, geo, cache, locations[..i]);
            FilterPass(home, r, geo, cache, locations) == p.(records := p.records + locations[i..])
    decreases |locations|
  {
    if |locations| == i {
      assert locations[..i] == locations;
    } else {
      var init := locations[..|locations| - 1];
      assert init[..i] == locations[..i];
      FailureIsFinal(home, r, geo, cache, init, i);
      assert init[i..] + [Last(locations)] == locations[i..];
    }
  }

  /**
   * With the constructor defaults (empty city list) every location is
   * dropped, before any cache lookup or geocoder call.
   */
  lemma {:induction false} DefaultRestrictionsKeepNothing(
    home: Coord, geo: Geo, cache: map<string, nat>, locations: seq<Location>)
    ensures var p := FilterPass(home, DefaultRestrictions, geo, cache, locations);
            p.kept == [] && p.queries == [] && p.cache == cache && p.failure.None? && p.records == locations
    decreases |locations|
  {
    if locations != [] {
      var init := locations[..|locations| - 1];
      var p0 := FilterPass(home, DefaultRestrictions, geo, cache, init);
      DefaultRestrictionsKeepNothing(home, geo, cache, init);
      assert !CityAllowed(DefaultRestrictions, Last(locations));
      assert FilterPass(home, DefaultRestrictions, geo, cache, locations)
          == p0.(records := p0.records + [Last(locations)]);
      assert locations == init + [Last(locations)];
    }
  }

  /**
   * One iteration of the loop as written: the city check, then the zip check
   * of `ZipCheckAsWritten`, which raises as soon as a zip list is set; with no
   * zip list the iteration is `Step`.
   */
  function StepAsWritten(home: Coord, r: Restrictions, geo: Geo, p: Pass, loc: Location): Pass {
    if p.failure.Some? || !CityAllowed(r, loc) then Step(home, r, geo, p, loc)
    else
      match ZipCheckAsWritten(r, loc)
      case Failure(e) => p.(records := p.records + [loc], failure := Some(e))
      case Success(_) => Step(home, r, geo, p, loc)
  }

  /** The whole pass of `Filter.apply` exactly as written, zip check included: one record per input location. */
  function FilterPassAsWritten(home: Coord, r: Restrictions, geo: Geo, cache: map<string, nat>, locations: seq<Location>)
    : (p: Pass)
    ensures |p.records| == |locations|
    decreases |locations|
  {
    if locations == [] then Pass([], [], cache, [], None)
    else
      var p0 := FilterPassAsWritten(home, r, geo, cache, locations[..|locations| - 1]);
      StepShape(home, r, geo, p0, Last(locations));
      StepAsWritten(home, r, geo, p0, Last(locations))
  }

  /**
   * Like the corrected pass, the pass as written leaves every input record in
   * place and in order, untouched or with only its distance written.
   */
  lemma {:induction false} AsWrittenRecordsMirrorLocations(
    home: Coord, r: Restrictions, geo: Geo, cache: map<string, nat>, locations: seq<Location>)
    ensures var p := FilterPassAsWritten(home, r, geo, cache, locations);
            forall i :: 0 <= i < |locations| ==> Annotates(p.records[i], locations[i])
    decreases |locations|
  {
    if locations != [] {
      var init := locations[..|locations| - 1];
      var loc := Last(locations);
      var p0 := FilterPassAsWritten(home, r, geo, cache, init);
      AsWrittenRecordsMirrorLocations(home, r, geo, cache, init);
      StepAppendsRecord(home, r, geo, p0, loc);
      var p := FilterPassAsWritten(home, r, geo, cache, locations);
      var rec := p.records[|p0.records|];
      assert p.records == p0.records + [rec] && Annotates(rec, loc);
      assert forall i :: 0 <= i < |init| ==> locations[i] == init[i];
    }
  }

  /** Without a zip list the code as written and the corrected filter make the same pass. */
  lemma {:induction false} AsWrittenWithoutZipListIsFilterPass(
    home: Coord, r: Restrictions, geo: Geo, cache: map<string, nat>, locations: seq<Location>)
    requires r.zipcodes.None?
    ensures FilterPassAsWritten(home, r, geo, cache, locations) == FilterPass(home, r, geo, cache, locations)
    decreases |locations|
  {
    if locations != [] {
      AsWrittenWithoutZipListIsFilterPass(home, r, geo, cache, locations[..|locations| - 1]);
    }
  }

  /** With a zip list set, an iteration as written either skips the location on its city or raises. */
  lemma StepAsWrittenWithZipList(home: Coord, r: Restrictions, geo: Geo, p: Pass, loc: Location)
    requires r.zipcodes.Some?
    ensures StepAsWritten(home, r, geo, p, loc)
         == if p.failure.Some? || !CityAllowed(r, loc) then p.(records := p.records + [loc])
            else p.(records := p.records + [loc], failure := Some(ZipAttributeMissing(loc.name)))
  {
    if p.failure.None? && !CityAllowed(r, loc) {
      assert p.queries + [] == p.queries;
    }
  }

  /**
   * With a zip list set, the pass as written keeps nothing and never reaches
   * the cache or the geocoder; every record is left as it came.
   */
  lemma {:induction false} AsWrittenZipListKeepsNothing(
    home: Coord, r: Restrictions, geo: Geo, cache: map<string, nat>, locations: seq<Location>)
    requires r.zipcodes.Some?
    ensures var p := FilterPassAsWritten(home, r, geo, cache, locations);
            p.kept == [] && p.records == locations && p.cache == cache && p.queries == []
    decreases |locations|
  {
    if locations != [] {
      var init := locations[..|locations| - 1];
      AsWrittenZipListKeepsNothing(home, r, geo, cache, init);
      StepAsWrittenWithZipList(home, r, geo, FilterPassAsWritten(home, r, geo, cache, init), Last(locations));
      assert locations == init + [Last(locations)];
    }
  }

  /**
   * With a zip list set, the pass as written raises at the first location
   * whose city passes, whatever that location's zip, and finishes without
   * error only when no city passes.
   */
  lemma {:induction false} AsWrittenZipListRaisesAtFirstCityMatch(
    home: Coord, r: Restrictions, geo: Geo, cache: map<string, nat>, locations: seq<Location>)
    requires r.zipcodes.Some?
    ensures var p := FilterPassAsWritten(home, r, geo, cache, locations);
            && (p.failure.None? <==> forall i :: 0 <= i < |locations| ==> !CityAllowed(r, locations[i]))
            && (p.failure.Some? ==>
                  exists i :: 0 <= i < |locations| && CityAllowed(r, locations[i])
                    && (forall j :: 0 <= j < i ==> !CityAllowed(r, locations[j]))
                    && p.failure == Some(ZipAttributeMissing(locations[i].name)))
    decreases |locations|
  {
    if locations != [] {
      var init := locations[..|locations| - 1];
      var loc := Last(locations);
      var p0 := FilterPassAsWritten(home, r, geo, cache, init);
      AsWrittenZipListRaisesAtFirstCityMatch(home, r, geo, cache, init);
      StepAsWrittenWithZipList(home, r, geo, p0, loc);
      assert forall i :: 0 <= i < |init| ==> locations[i] == init[i];
      if p0.failure.Some? {
        var i :| 0 <= i < |init| && CityAllowed(r, init[i])
                 && (forall j :: 0 <= j < i ==> !CityAllowed(r, init[j]))
                 && p0.failure == Some(ZipAttributeMissing(init[i].name));
        assert locations[i] == init[i];
      } else {
        assert locations[|init|] == loc;
      }
    }
  }

  /**
   * A location whose zip is listed, in a city that passes, still makes the
   * pass as written raise, whatever the home, the oracles and the cache.
   */
  lemma ZipCheckAsWrittenRejectsListedZip(home: Coord, geo: Geo, cache: map<string, nat>)
    ensures var r := Restrictions(None, Some(["78701"]), Some(50));
            var loc := Location("Store", "1 Main St", "Austin", "TX", "78701", None, None, 3, "u", None);
            && CityAllowed(r, loc) && ZipAllowed(r, loc)
            && FilterPassAsWritten(home, r, geo, cache, [loc]).failure == Some(ZipAttributeMissing("Store"))
  {
    var r := Restrictions(None, Some(["78701"]), Some(50));
    var loc := Location("Store", "1 Main St", "Austin", "TX", "78701", None, None, 3, "u", None);
    assert loc.zip == r.zipcodes.value[0];
    assert [loc][..0] == [];
  }

  /**
   * The distance filter of one vaccine-finder session. The home coordinate,
   * the restrictions and the oracles are fixed; the distance cache and the log
   * of geocoder queries change as `Apply` runs.
   */
  class Filter {
    const home: Coord
    const restrictions: Restrictions
    const geo: Geo
    var storeNameToDistance: map<string, nat>
    var geocodeLog: seq<string>

    constructor Init(homeAddress: string, home: Coord, restrictions: Restrictions, geo: Geo)
      ensures this.home == home && this.restrictions == restrictions && this.geo == geo
      ensures storeNameToDistance == map[] && geocodeLog == [homeAddress]
    {
      this.home := home;
      this.restrictions := restrictions;
      this.geo := geo;
      storeNameToDistance := map[];
      geocodeLog := [homeAddress];
    }

    /** `Filter(home, restrictions)`: geocodes the home address, which must resolve. */
    static method Open(homeAddress: string, restrictions: Restrictions, geo: Geo) returns (r: Result<Filter, FilterError>)
      ensures r.Failure? <==> geo.geocode(homeAddress).None?
      ensures r.Failure? ==> r.error == HomeNotFound(homeAddress)
      ensures r.Success? ==>
                && fresh(r.value)
                && r.value.home == geo.geocode(homeAddress).value
                && r.value.restrictions == restrictions && r.value.geo == geo
                && r.value.storeNameToDistance == map[] && r.value.geocodeLog == [homeAddress]
    {
      var truehome := geo.geocode(homeAddress);
      if truehome.None? {
        return Failure(HomeNotFound(homeAddress));
      }
      var f := new Filter.Init(homeAddress, truehome.value, restrictions, geo);
      return Success(f);
    }

    /** One call of the geocoder, recorded in the log. */
    method Geocode(query: string) returns (found: Option<Coord>)
      modifies this`geocodeLog
      ensures geocodeLog == old(geocodeLog) + [query]
      ensures found == geo.geocode(query)
    {
      geocodeLog := geocodeLog + [query];
      found := geo.geocode(query);
    }

    /** Lines 104-115 of `Filter.apply`: the memoised distance of one location, or `None` when nothing geocodes. */
    method Distance(loc: Location) returns (miles: Option<nat>)
      modifies this
      ensures var l := LookUp(home, geo, old(storeNameToDistance), loc);
              && geocodeLog == old(geocodeLog) + l.queries
              && (l.Measured? ==> miles == Some(l.miles) && storeNameToDistance == l.cache)
              && (l.Unresolved? ==> miles.None? && storeNameToDistance == old(storeNameToDistance))
    {
      if loc.name in storeNameToDistance {
        return Some(storeNameToDistance[loc.name]);
      }
      var latlong: Coord;
      if loc.latitude.None? || loc.longitude.None? {
        var geoloc := Geocode(AddressQuery(loc));
        if geoloc.None? {
          geoloc := Geocode(loc.zip);
        }
        if geoloc.None? {
          return None;
        }
        latlong := geoloc.value;
      } else {
        latlong := Coord(loc.latitude.value, loc.longitude.value);
      }
      var d := geo.miles(home, latlong);
      storeNameToDistance := storeNameToDistance[loc.name := d];
      return Some(d);
    }

    /** Lines 100-118 of `Filter.apply`: one iteration of its loop. */
    method Visit(loc: Location) returns (verdict: Verdict)
      modifies this
      ensures var v := VisitOne(home, restrictions, geo, old(storeNameToDistance), loc);
              verdict == v.verdict && storeNameToDistance == v.cache && geocodeLog == old(geocodeLog) + v.queries
    {
      if restrictions.cities.Some? && loc.city !in restrictions.cities.value {
        return Refused(loc);
      }
      if restrictions.zipcodes.Some? && loc.zip !in restrictions.zipcodes.value {
        return Refused(loc);
      }
      var distance := Distance(loc);
      if distance.None? {
        return Raised(loc, AddressNotFound(loc.name));
      }
      var rec := loc.(distance := Some(distance.value));
      if restrictions.distance.None? {
        return Raised(rec, NoDistanceBound(loc.name));
      }
      if distance.value > restrictions.distance.value {
        return Dropped(rec);
      }
      return Accepted(rec);
    }

    /** One iteration of the loop of `Filter.apply`: the pass over one more location. */
    method Iterate(locations: seq<Location>, i: nat, ghost cache0: map<string, nat>, ghost log0: seq<string>)
      returns (verdict: Verdict)
      modifies this
      requires i < |locations|
      requires var p := FilterPass(home, restrictions, geo, cache0, locations[..i]);
               p.failure.None? && storeNameToDistance == p.cache && geocodeLog == log0 + p.queries
      ensures var p := FilterPass(home, restrictions, geo, cache0, locations[..i]);
              var q := FilterPass(home, restrictions, geo, cache0, locations[..i + 1]);
              && storeNameToDistance == q.cache && geocodeLog == log0 + q.queries
              && q.records == p.records + [verdict.rec]
              && q.kept == (if verdict.Accepted? then p.kept + [verdict.rec] else p.kept)
              && q.failure == (if verdict.Raised? then Some(verdict.error) else None)
    {
      ghost var p := FilterPass(home, restrictions, geo, cache0, locations[..i]);
      ghost var v := VisitOne(home, restrictions, geo, p.cache, locations[i]);
      verdict := Visit(locations[i]);
      FilterPassByVisit(home, restrictions, geo, cache0, locations, i);
      AppendAssoc(log0, p.queries, v.queries);
    }

    /**
     * `Filter.apply`. Returns the kept records, or the error raised, together
     * with the input records as they stand afterwards (distances written in).
     */
    method Apply(locations: seq<Location>) returns (result: Result<seq<Location>, FilterError>, records: seq<Location>)
      modifies this
      ensures var p := FilterPass(home, restrictions, geo, old(storeNameToDistance), locations);
              && storeNameToDistance == p.cache
              && geocodeLog == old(geocodeLog) + p.queries
              && records == p.records
              && result == if p.failure.Some? then Failure(p.failure.value) else Success(p.kept)
    {
      ghost var cache0, log0 := storeNameToDistance, geocodeLog;
      ghost var pass := FilterPass(home, restrictions, geo, cache0, []);
      var results: seq<Location> := [];
      records := [];
      var i := 0;
      while i < |locations|
        invariant i <= |locations|
        invariant pass == FilterPass(home, restrictions, geo, cache0, locations[..i])
        invariant pass.failure.None? && results == pass.kept && records == pass.records
        invariant storeNameToDistance == pass.cache && geocodeLog == log0 + pass.queries
      {
        var verdict := Iterate(locations, i, cache0, log0);
        pass := FilterPass(home, restrictions, geo, cache0, locations[..i + 1]);
        records := records + [verdict.rec];
        if verdict.Raised? {
          records := records + locations[i + 1..];
          FailureIsFinal(home, restrictions, geo, cache0, locations, i + 1);
          return Failure(verdict.error), records;
        }
        if verdict.Accepted? {
          results := results + [verdict.rec];
        }
        i := i + 1;
      }
      assert locations[..i] == locations;
      result := Success(results);
    }
  }
}
