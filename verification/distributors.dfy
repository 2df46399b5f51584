/**
 * The distributor-independent journey of `farquaad.distributors`: `monitor`
 * polls the availability source through one `Filter` until a batch survives
 * it, sorted by distance; `schedule` books the first candidate that the
 * distributor's `process` accepts.
 */
module Distributors {
  import opened Wrappers
  import opened Seqs
  import opened Base

  /** The sort key of `monitor`: the distance written onto a record by the filter. */
  function Miles(loc: Location): nat {
    match loc.distance
    case Some(d) => d
    case None => 0
  }

  predicate SortedByDistance(s: seq<Location>) {
    forall i, j :: 0 <= i < j < |s| ==> Miles(s[i]) <= Miles(s[j])
  }

  /** The records of `s` at exactly `d` miles, in their order in `s`. */
  function AtMiles(s: seq<Location>, d: nat): seq<Location> {
    Keep(s, IsAt(d))
  }

  function IsAt(d: nat): Location -> bool {
    loc => Miles(loc) == d
  }

  /** Insert `x` before the first element that is not nearer than it. */
  function Insert(x: Location, s: seq<Location>): (r: seq<Location>)
    ensures multiset(r) == multiset(s) + multiset{x}
    decreases |s|
  {
    if s == [] || Miles(x) <= Miles(s[0]) then [x] + s
    else
      assert s == [s[0]] + s[1..];
      [s[0]] + Insert(x, s[1..])
  }

  lemma {:induction false} InsertLowerBound(x: Location, s: seq<Location>, b: nat)
    requires Miles(x) >= b
    requires forall k :: 0 <= k < |s| ==> Miles(s[k]) >= b
    ensures forall k :: 0 <= k < |Insert(x, s)| ==> Miles(Insert(x, s)[k]) >= b
    decreases |s|
  {
    if s != [] && Miles(x) > Miles(s[0]) {
      InsertLowerBound(x, s[1..], b);
    }
  }

  lemma {:induction false} InsertKeepsSorted(x: Location, s: seq<Location>)
    requires SortedByDistance(s)
    ensures SortedByDistance(Insert(x, s))
    decreases |s|
  {
    if s != [] && Miles(x) > Miles(s[0]) {
      var r' := Insert(x, s[1..]);
      InsertKeepsSorted(x, s[1..]);
      InsertLowerBound(x, s[1..], Miles(s[0]));
      assert Insert(x, s) == [s[0]] + r';
    }
  }

  /** Python's `sorted(..., key=distance)`: a stable sort, written as an insertion sort. */
  function SortByDistance(s: seq<Location>): (r: seq<Location>)
    ensures SortedByDistance(r)
    ensures multiset(r) == multiset(s)
    decreases |s|
  {
    if s == [] then []
    else
      assert s == [s[0]] + s[1..];
      InsertKeepsSorted(s[0], SortByDistance(s[1..]));
      Insert(s[0], SortByDistance(s[1..]))
  }

  lemma {:induction false} AtMilesPrepend(x: Location, s: seq<Location>, d: nat)
    ensures AtMiles([x] + s, d) == if Miles(x) == d then [x] + AtMiles(s, d) else AtMiles(s, d)
    decreases |s|
  {
    if s != [] {
      var init, y := s[..|s| - 1], Last(s);
      assert AtMiles([x] + s, d) == if Miles(y) == d then AtMiles([x] + init, d) + [y] else AtMiles([x] + init, d) by {
        assert [x] + s == ([x] + init) + [y];
        KeepAppend([x] + init, IsAt(d), y);
      }
      assert AtMiles(s, d) == if Miles(y) == d then AtMiles(init, d) + [y] else AtMiles(init, d) by {
        assert s == init + [y];
        KeepAppend(init, IsAt(d), y);
      }
      AtMilesPrepend(x, init, d);
    } else {
      assert [x] + s == [] + [x];
      KeepAppend([], IsAt(d), x);
    }
  }

  lemma {:induction false} InsertIsStable(x: Location, s: seq<Location>, d: nat)
    ensures AtMiles(Insert(x, s), d) == if Miles(x) == d then [x] + AtMiles(s, d) else AtMiles(s, d)
    decreases |s|
  {
    if s == [] || Miles(x) <= Miles(s[0]) {
      AtMilesPrepend(x, s, d);
    } else {
      InsertIsStable(x, s[1..], d);
      AtMilesPrepend(s[0], Insert(x, s[1..]), d);
      AtMilesPrepend(s[0], s[1..], d);
      assert s == [s[0]] + s[1..];
    }
  }

  /** The sort is stable: records at the same distance keep their relative order. */
  lemma {:induction false} SortIsStable(s: seq<Location>, d: nat)
    ensures AtMiles(SortByDistance(s), d) == AtMiles(s, d)
    decreases |s|
  {
    if s != [] {
      SortIsStable(s[1..], d);
      InsertIsStable(s[0], SortByDistance(s[1..]), d);
      AtMilesPrepend(s[0], s[1..], d);
      assert s == [s[0]] + s[1..];
    }
  }

  /** How a `monitor` call ends. */
  datatype Watch =
    | Found(slots: seq<Location>)    // a non-empty filtered batch, nearest first
    | Crashed(error: FilterError)    // the filter raised
    | FeedExhausted                  // the availability source has no further answers

  /**
   * The polls of `monitor` from the given cache on: filter the next batch,
   * sort it, and stop at the first non-empty result. The cache is carried
   * from one poll to the next.
   */
  function WatchFrom(home: Coord, r: Restrictions, geo: Geo, cache: map<string, nat>, feed: seq<seq<Location>>): Watch
    decreases |feed|
  {
    if feed == [] then FeedExhausted
    else
      var pass := FilterPass(home, r, geo, cache, feed[0]);
      if pass.failure.Some? then Crashed(pass.failure.value)
      else if SortByDistance(pass.kept) != [] then Found(SortByDistance(pass.kept))
      else WatchFrom(home, r, geo, pass.cache, feed[1..])
  }

  /** `monitor(home, restrictions, delay)`: geocode home once, then poll. */
  function Watching(homeAddress: string, r: Restrictions, geo: Geo, feed: seq<seq<Location>>): Watch {
    match geo.geocode(homeAddress)
    case None => Crashed(HomeNotFound(homeAddress))
    case Some(home) => WatchFrom(home, r, geo, map[], feed)
  }

  /**
   * The distance cache after the first `k` polls of the feed: `monitor`
   * filters every poll with the one `Filter`, so each poll starts from the
   * cache the previous one left.
   */
  function CacheBefore(home: Coord, r: Restrictions, geo: Geo, cache: map<string, nat>, feed: seq<seq<Location>>, k: nat)
    : map<string, nat>
    requires k <= |feed|
    decreases k
  {
    if k == 0 then cache
    else CacheBefore(home, r, geo, FilterPass(home, r, geo, cache, feed[0]).cache, feed[1..], k - 1)
  }

  /** Poll `k` of the feed, filtered from the cache the earlier polls left. */
  function PollAt(home: Coord, r: Restrictions, geo: Geo, cache: map<string, nat>, feed: seq<seq<Location>>, k: nat): Pass
    requires k < |feed|
  {
    FilterPass(home, r, geo, CacheBefore(home, r, geo, cache, feed, k), feed[k])
  }

  /** A poll that neither raises nor keeps a location, so `monitor` polls again. */
  predicate Quiet(p: Pass) {
    p.failure.None? && p.kept == []
  }

  /** The polls after the first are the polls of the rest of the feed, from the cache the first one left. */
  lemma PollAtShift(home: Coord, r: Restrictions, geo: Geo, cache: map<string, nat>, feed: seq<seq<Location>>, k: nat)
    requires k + 1 < |feed|
    ensures PollAt(home, r, geo, cache, feed, k + 1)
         == PollAt(home, r, geo, FilterPass(home, r, geo, cache, feed[0]).cache, feed[1..], k)
  {
    assert feed[1..][k] == feed[k + 1];
  }

  /** A quiet first poll followed by `k` quiet polls of the rest of the feed makes `k + 1` quiet polls. */
  lemma QuietPrefixExtends(home: Coord, r: Restrictions, geo: Geo, cache: map<string, nat>, feed: seq<seq<Location>>, k: nat)
    requires k < |feed|
    requires Quiet(FilterPass(home, r, geo, cache, feed[0]))
    requires forall j :: 0 <= j < k ==>
               Quiet(PollAt(home, r, geo, FilterPass(home, r, geo, cache, feed[0]).cache, feed[1..], j))
    ensures forall j :: 0 <= j < k + 1 ==> Quiet(PollAt(home, r, geo, cache, feed, j))
  {
    forall j | 0 <= j < k + 1
      ensures Quiet(PollAt(home, r, geo, cache, feed, j))
    {
      if j > 0 {
        PollAtShift(home, r, geo, cache, feed, j - 1);
      }
    }
  }

  /** Sorting gives the empty list exactly for the empty list. */
  lemma SortIsEmptyIff(s: seq<Location>)
    ensures SortByDistance(s) == [] <==> s == []
  {
    if s != [] {
      assert s[0] in multiset(s);
    }
  }

  /**
   * A found batch is the sorted result of one poll, filtered from the cache
   * the earlier polls left; every earlier poll raised nothing and kept nothing.
   */
  lemma {:induction false} FoundBatchIsOnePoll(
    home: Coord, r: Restrictions, geo: Geo, cache: map<string, nat>, feed: seq<seq<Location>>)
    ensures var w := WatchFrom(home, r, geo, cache, feed);
            w.Found? ==>
              w.slots != [] &&
              exists k :: 0 <= k < |feed|
                && (forall j :: 0 <= j < k ==> Quiet(PollAt(home, r, geo, cache, feed, j)))
                && PollAt(home, r, geo, cache, feed, k).failure.None?
                && w.slots == SortByDistance(PollAt(home, r, geo, cache, feed, k).kept)
    decreases |feed|
  {
    var w := WatchFrom(home, r, geo, cache, feed);
    if feed != [] && w.Found? {
      var pass := FilterPass(home, r, geo, cache, feed[0]);
      assert pass == PollAt(home, r, geo, cache, feed, 0);
      if SortByDistance(pass.kept) == [] {
        SortIsEmptyIff(pass.kept);
        FoundBatchIsOnePoll(home, r, geo, pass.cache, feed[1..]);
        var k :| 0 <= k < |feed[1..]|
                 && (forall j :: 0 <= j < k ==> Quiet(PollAt(home, r, geo, pass.cache, feed[1..], j)))
                 && PollAt(home, r, geo, pass.cache, feed[1..], k).failure.None?
                 && w.slots == SortByDistance(PollAt(home, r, geo, pass.cache, feed[1..], k).kept);
        PollAtShift(home, r, geo, cache, feed, k);
        QuietPrefixExtends(home, r, geo, cache, feed, k);
      }
    }
  }

  /**
   * A crash is the error of one poll, filtered from the cache the earlier
   * polls left; every earlier poll raised nothing and kept nothing.
   */
  lemma {:induction false} CrashIsFirstRaisingPoll(
    home: Coord, r: Restrictions, geo: Geo, cache: map<string, nat>, feed: seq<seq<Location>>)
    ensures var w := WatchFrom(home, r, geo, cache, feed);
            w.Crashed? ==>
              exists k :: 0 <= k < |feed|
                && (forall j :: 0 <= j < k ==> Quiet(PollAt(home, r, geo, cache, feed, j)))
                && PollAt(home, r, geo, cache, feed, k).failure == Some(w.error)
    decreases |feed|
  {
    var w := WatchFrom(home, r, geo, cache, feed);
    if feed != [] && w.Crashed? {
      var pass := FilterPass(home, r, geo, cache, feed[0]);
      assert pass == PollAt(home, r, geo, cache, feed, 0);
      if pass.failure.None? {
        SortIsEmptyIff(pass.kept);
        CrashIsFirstRaisingPoll(home, r, geo, pass.cache, feed[1..]);
        var k :| 0 <= k < |feed[1..]|
                 && (forall j :: 0 <= j < k ==> Quiet(PollAt(home, r, geo, pass.cache, feed[1..], j)))
                 && PollAt(home, r, geo, pass.cache, feed[1..], k).failure == Some(w.error);
        PollAtShift(home, r, geo, cache, feed, k);
        QuietPrefixExtends(home, r, geo, cache, feed, k);
      }
    }
  }

  /** The watch runs out of feed exactly when every poll raised nothing and kept nothing. */
  lemma {:induction false} FeedExhaustedIffEveryPollQuiet(
    home: Coord, r: Restrictions, geo: Geo, cache: map<string, nat>, feed: seq<seq<Location>>)
    ensures WatchFrom(home, r, geo, cache, feed) == FeedExhausted <==>
              forall j :: 0 <= j < |feed| ==> Quiet(PollAt(home, r, geo, cache, feed, j))
    decreases |feed|
  {
    if feed != [] {
      var pass := FilterPass(home, r, geo, cache, feed[0]);
      assert pass == PollAt(home, r, geo, cache, feed, 0);
      SortIsEmptyIff(pass.kept);
      if Quiet(pass) {
        FeedExhaustedIffEveryPollQuiet(home, r, geo, pass.cache, feed[1..]);
        if forall j :: 0 <= j < |feed| - 1 ==> Quiet(PollAt(home, r, geo, pass.cache, feed[1..], j)) {
          forall j | 0 < j < |feed|
            ensures Quiet(PollAt(home, r, geo, cache, feed, j))
          {
            PollAtShift(home, r, geo, cache, feed, j - 1);
          }
        } else {
          var j :| 0 <= j < |feed| - 1 && !Quiet(PollAt(home, r, geo, pass.cache, feed[1..], j));
          PollAtShift(home, r, geo, cache, feed, j);
        }
      }
    }
  }

  /**
   * A found batch is non-empty, sorted by distance, a permutation of the
   * records kept by one poll (filtered from the cache the earlier, quiet
   * polls left), and every slot in it satisfies the restrictions.
   */
  lemma FoundBatchIsFilteredAndSorted(
    home: Coord, r: Restrictions, geo: Geo, cache: map<string, nat>, feed: seq<seq<Location>>)
    ensures var w := WatchFrom(home, r, geo, cache, feed);
            w.Found? ==>
              && |w.slots| > 0
              && SortedByDistance(w.slots)
              && (exists k :: 0 <= k < |feed|
                    && (forall j :: 0 <= j < k ==> Quiet(PollAt(home, r, geo, cache, feed, j)))
                    && multiset(w.slots) == multiset(PollAt(home, r, geo, cache, feed, k).kept))
              && forall s :: s in w.slots ==> Admitted(r, s)
  {
    var w := WatchFrom(home, r, geo, cache, feed);
    if w.Found? {
      FoundBatchIsOnePoll(home, r, geo, cache, feed);
      var k :| 0 <= k < |feed|
               && (forall j :: 0 <= j < k ==> Quiet(PollAt(home, r, geo, cache, feed, j)))
               && PollAt(home, r, geo, cache, feed, k).failure.None?
               && w.slots == SortByDistance(PollAt(home, r, geo, cache, feed, k).kept);
      SortedKeptAreAdmitted(home, r, geo, CacheBefore(home, r, geo, cache, feed, k), feed[k]);
    }
  }

  /** Sorting a successful pass's records keeps them and the restrictions they satisfy. */
  lemma SortedKeptAreAdmitted(home: Coord, r: Restrictions, geo: Geo, cache: map<string, nat>, batch: seq<Location>)
    requires FilterPass(home, r, geo, cache, batch).failure.None?
    ensures var kept := FilterPass(home, r, geo, cache, batch).kept;
            && multiset(SortByDistance(kept)) == multiset(kept)
            && forall s :: s in SortByDistance(kept) ==> Admitted(r, s)
  {
    var kept := FilterPass(home, r, geo, cache, batch).kept;
    KeptAreAdmittedRecords(home, r, geo, cache, batch);
    forall s | s in SortByDistance(kept) ensures Admitted(r, s) {
      assert s in multiset(kept);
      var i :| 0 <= i < |kept| && kept[i] == s;
    }
  }

  /**
   * What `monitor` returns: a crash when home cannot be geocoded, otherwise
   * a non-empty batch of restricted slots, nearest first, when it finds one.
   */
  lemma MonitorFindsAdmittedSlots(homeAddress: string, r: Restrictions, geo: Geo, feed: seq<seq<Location>>)
    ensures var w := Watching(homeAddress, r, geo, feed);
            && (geo.geocode(homeAddress).None? ==> w == Crashed(HomeNotFound(homeAddress)))
            && (w.Found? ==> |w.slots| > 0 && SortedByDistance(w.slots) && forall s :: s in w.slots ==> Admitted(r, s))
  {
    if geo.geocode(homeAddress).Some? {
      FoundBatchIsFilteredAndSorted(geo.geocode(homeAddress).value, r, geo, map[], feed);
    }
  }

  /**
   * The distance cache is shared by all polls of one `monitor` call: a name
   * measured in an earlier poll is answered from the cache in a later one.
   */
  lemma CacheCarriesToNextPoll(
    home: Coord, r: Restrictions, geo: Geo, cache: map<string, nat>, feed: seq<seq<Location>>)
    requires |feed| >= 1
    requires var pass := FilterPass(home, r, geo, cache, feed[0]);
             pass.failure.None? && pass.kept == []
    ensures var pass := FilterPass(home, r, geo, cache, feed[0]);
            && WatchFrom(home, r, geo, cache, feed) == WatchFrom(home, r, geo, pass.cache, feed[1..])
            && forall n :: n in cache ==> n in pass.cache && pass.cache[n] == cache[n]
  {
    CacheOnlyGrows(home, r, geo, cache, feed[0]);
  }

  /** One poll of `monitor`, unfolded. */
  lemma PollStep(home: Coord, r: Restrictions, geo: Geo, cache: map<string, nat>, feed: seq<seq<Location>>, polls: nat)
    requires polls < |feed|
    ensures var pass := FilterPass(home, r, geo, cache, feed[polls]);
            WatchFrom(home, r, geo, cache, feed[polls..])
            == if pass.failure.Some? then Crashed(pass.failure.value)
               else if SortByDistance(pass.kept) != [] then Found(SortByDistance(pass.kept))
               else WatchFrom(home, r, geo, pass.cache, feed[polls + 1..])
  {
    assert feed[polls..][1..] == feed[polls + 1..];
  }

  /**
   * `Distributor.monitor`. `feed` holds the successive answers of the
   * availability source; the loop ends when a filtered batch is non-empty,
   * when the filter raises, or when the feed has no further answer.
   */
  method Monitor(homeAddress: string, restrictions: Restrictions, geo: Geo, feed: seq<seq<Location>>)
    returns (w: Watch)
    ensures w == Watching(homeAddress, restrictions, geo, feed)
  {
    var made := Filter.Open(homeAddress, restrictions, geo);
    if made.Failure? {
      return Crashed(made.error);
    }
    var refine := made.value;
    ghost var goal := WatchFrom(refine.home, restrictions, geo, map[], feed);
    var polls := 0;
    while polls < |feed|
      invariant polls <= |feed|
      invariant fresh(refine)
      invariant refine.restrictions == restrictions && refine.geo == geo
      invariant goal == WatchFrom(refine.home, restrictions, geo, refine.storeNameToDistance, feed[polls..])
    {
      var batch := feed[polls];
      PollStep(refine.home, restrictions, geo, refine.storeNameToDistance, feed, polls);
      polls := polls + 1;
      var filtered, _ := refine.Apply(batch);
      if filtered.Failure? {
        return Crashed(filtered.error);
      }
      var availability := SortByDistance(filtered.value);
      if availability != [] {
        return Found(availability);
      }
    }
    return FeedExhausted;
  }

  /** What the distributor's `process` did with one candidate. */
  datatype Attempt = Booked | Declined | Failed(reason: string)

  /** How `schedule` ends. */
  datatype Booking = Appointment(slot: Location) | NoneBooked | Aborted(reason: string)

  /**
   * `Distributor.schedule`: call `process` on the candidates in order and
   * return the first one it books. `tried` lists the candidates passed to
   * `process`; an exception raised by `process` leaves `schedule` at once.
   */
  method Schedule(availability: seq<Location>, process: Location -> Attempt)
    returns (outcome: Booking, tried: seq<Location>)
    ensures |tried| <= |availability| && tried == availability[..|tried|]
    ensures forall j :: 0 <= j < |tried| - 1 ==> process(tried[j]) == Declined
    ensures outcome.Appointment? ==> tried != [] && outcome.slot == Last(tried) && process(Last(tried)) == Booked
    ensures outcome.Aborted? ==> tried != [] && process(Last(tried)) == Failed(outcome.reason)
    ensures outcome.NoneBooked? <==>
              tried == availability && forall j :: 0 <= j < |tried| ==> process(tried[j]) == Declined
  {
    tried := [];
    for i := 0 to |availability|
      invariant tried == availability[..i]
      invariant forall j :: 0 <= j < i ==> process(availability[j]) == Declined
    {
      var appt := availability[i];
      var booked := process(appt);
      tried := tried + [appt];
      assert tried == availability[..i + 1];
      if booked.Failed? {
        return Aborted(booked.reason), tried;
      }
      if booked == Booked {
        return Appointment(appt), tried;
      }
    }
    assert availability[..|availability|] == availability;
    return NoneBooked, tried;
  }
}
