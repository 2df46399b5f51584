/**
 * The H.E.B. distributor: the open-slot filter of its availability feed, the
 * appointment form's depth-first search for a manufacturer, date and time,
 * and the page sequence of one booking attempt.
 *
 * The browser is an oracle. What the appointment form shows once a
 * manufacturer is chosen is a finite tree: whether the date box appears
 * within the wait, the dates it lists, and for each date whether the time box
 * appears and the times it lists, and for each time whether the continue
 * button appears within the wait and is then present.
 */
module Heb {
  import opened Wrappers
  import opened Seqs
  import opened Base
  import opened Distributors

  /** `checkAvailability`: a location is offered when it has an open time slot. */
  predicate HasOpenSlot(loc: Location) {
    loc.openTimeslots > 0
  }

  /** The locations of the feed with an open time slot, in feed order. */
  function OpenSlots(locations: seq<Location>): (r: seq<Location>)
    ensures IsSubseq(r, locations)
    ensures forall x :: x in r <==> x in locations && x.openTimeslots > 0
    ensures forall x :: multiset(r)[x] == if x.openTimeslots > 0 then multiset(locations)[x] else 0
  {
    KeepIsSelection(locations, HasOpenSlot);
    var r := Keep(locations, HasOpenSlot);
    assert forall x :: x in r <==> multiset(r)[x] > 0;
    r
  }

  /** The manufacturers the appointment form has an item for; any other name is a `KeyError`. */
  const ManufacturerItems: set<string> := {"Any", "J&J/Janssen", "Moderna", "Pfizer"}

  /** A time option: whether, once clicked, the continue button appears within the wait and is present. */
  datatype TimeOption = TimeOption(continueAppears: bool, continuePresent: bool)

  /** A date option: whether, once clicked, the time box appears within the wait, and the times it lists. */
  datatype DateOption = DateOption(timeBoxAppears: bool, times: seq<TimeOption>)

  /** The form once a manufacturer is chosen: whether the date box appears within the wait, and its dates. */
  datatype Panel = Panel(dateBoxAppears: bool, dates: seq<DateOption>)

  /** A time that lets the form proceed. */
  predicate Ready(t: TimeOption) {
    t.continueAppears && t.continuePresent
  }

  /** A path of the search: the index in the patient's preference list, of the date, of the time. */
  datatype Pick = Pick(manufacturer: nat, date: nat, time: nat)

  /** The option clicks of the search, in the order they happen. */
  datatype Click =
    | ChooseManufacturer(manufacturer: nat)
    | ChooseDate(manufacturer: nat, date: nat)
    | ChooseTime(pick: Pick)

  /** How the search ends: a path is selected, none is, or a preference has no item in the form. */
  datatype SearchOutcome = Selected(pick: Pick) | NoSlot | UnknownManufacturer(at: nat, name: string)

  /** A search within one manufacturer's panel: the path found, if any, and the clicks made. */
  datatype Walk = Walk(found: Option<Pick>, clicks: seq<Click>)

  /** A whole search: its outcome and the clicks made. */
  datatype Exploration = Exploration(outcome: SearchOutcome, clicks: seq<Click>)

  function PrependClick(c: Click, w: Walk): Walk {
    Walk(w.found, [c] + w.clicks)
  }

  /** Run `a`; only if it finds nothing, go on with `b`. */
  function OrElse(a: Walk, b: Walk): Walk {
    if a.found.Some? then a else Walk(b.found, a.clicks + b.clicks)
  }

  /** Run the walk `a` of one manufacturer; only if it finds nothing, go on with the rest of the search. */
  function OrNext(a: Walk, rest: Exploration): Exploration {
    if a.found.Some? then Exploration(Selected(a.found.value), a.clicks) else Exploration(rest.outcome, a.clicks + rest.clicks)
  }

  function Resume(clicks: seq<Click>, e: Exploration): Exploration {
    Exploration(e.outcome, clicks + e.clicks)
  }

  /** The times of date `j` of manufacturer `m`, from index `k` on. */
  function TimeWalk(m: nat, j: nat, times: seq<TimeOption>, k: nat): Walk
    requires k <= |times|
    decreases |times| - k
  {
    if k == |times| then Walk(None, [])
    else if Ready(times[k]) then Walk(Some(Pick(m, j, k)), [ChooseTime(Pick(m, j, k))])
    else PrependClick(ChooseTime(Pick(m, j, k)), TimeWalk(m, j, times, k + 1))
  }

  /** After date `j` is clicked: nothing when the time box does not appear, otherwise its times. */
  function TimeBoxWalk(m: nat, j: nat, d: DateOption): Walk {
    if d.timeBoxAppears then TimeWalk(m, j, d.times, 0) else Walk(None, [])
  }

  /** The dates of manufacturer `m`, from index `j` on. */
  function DateWalk(m: nat, dates: seq<DateOption>, j: nat): Walk
    requires j <= |dates|
    decreases |dates| - j
  {
    if j == |dates| then Walk(None, [])
    else PrependClick(ChooseDate(m, j), OrElse(TimeBoxWalk(m, j, dates[j]), DateWalk(m, dates, j + 1)))
  }

  /** After manufacturer `m` is clicked: nothing when the date box does not appear, otherwise its dates. */
  function PanelWalk(m: nat, panel: Panel): Walk {
    if panel.dateBoxAppears then DateWalk(m, panel.dates, 0) else Walk(None, [])
  }

  /** The search from preference `i` on. */
  function Explore(prefs: seq<string>, form: string -> Panel, i: nat): Exploration
    requires i <= |prefs|
    decreases |prefs| - i
  {
    if i == |prefs| then Exploration(NoSlot, [])
    else if prefs[i] !in ManufacturerItems then Exploration(UnknownManufacturer(i, prefs[i]), [])
    else Resume([ChooseManufacturer(i)], OrNext(PanelWalk(i, form(prefs[i])), Explore(prefs, form, i + 1)))
  }

  /** A date and time of one manufacturer's dates that lets the form proceed. */
  predicate DateReady(dates: seq<DateOption>, date: nat, time: nat) {
    && date < |dates|
    && dates[date].timeBoxAppears
    && time < |dates[date].times|
    && Ready(dates[date].times[time])
  }

  /** A path of the whole form that lets it proceed. */
  predicate Bookable(prefs: seq<string>, form: string -> Panel, p: Pick) {
    && p.manufacturer < |prefs|
    && prefs[p.manufacturer] in ManufacturerItems
    && form(prefs[p.manufacturer]).dateBoxAppears
    && DateReady(form(prefs[p.manufacturer]).dates, p.date, p.time)
  }

  /** The order of the search: preference, then date, then time. */
  predicate Precedes(p: Pick, q: Pick) {
    || p.manufacturer < q.manufacturer
    || (p.manufacturer == q.manufacturer && p.date < q.date)
    || (p.manufacturer == q.manufacturer && p.date == q.date && p.time < q.time)
  }

  /** The times are tried in order; the walk stops at the first ready one, and its last click selects it. */
  lemma {:induction false} TimeWalkFirst(m: nat, j: nat, times: seq<TimeOption>, k: nat)
    requires k <= |times|
    ensures var w := TimeWalk(m, j, times, k);
            && (w.found.Some? ==>
                  && w.found.value.manufacturer == m && w.found.value.date == j
                  && k <= w.found.value.time < |times| && Ready(times[w.found.value.time])
                  && (forall t :: k <= t < w.found.value.time ==> !Ready(times[t]))
                  && w.clicks != [] && Last(w.clicks) == ChooseTime(w.found.value))
            && (w.found.None? ==> forall t :: k <= t < |times| ==> !Ready(times[t]))
    decreases |times| - k
  {
    if k < |times| && !Ready(times[k]) {
      TimeWalkFirst(m, j, times, k + 1);
    }
  }

  /** The dates are tried in order, each with its times; the walk stops at the first ready date and time. */
  lemma {:induction false} DateWalkFirst(m: nat, dates: seq<DateOption>, j: nat)
    requires j <= |dates|
    ensures var w := DateWalk(m, dates, j);
            && (w.found.Some? ==>
                  && w.found.value.manufacturer == m && j <= w.found.value.date
                  && DateReady(dates, w.found.value.date, w.found.value.time)
                  && (forall d: nat, t: nat :: j <= d && Precedes(Pick(m, d, t), w.found.value) ==> !DateReady(dates, d, t))
                  && w.clicks != [] && Last(w.clicks) == ChooseTime(w.found.value))
            && (w.found.None? ==> forall d: nat, t: nat :: j <= d ==> !DateReady(dates, d, t))
    decreases |dates| - j
  {
    if j < |dates| {
      DateWalkFirst(m, dates, j + 1);
      var tw := TimeBoxWalk(m, j, dates[j]);
      if dates[j].timeBoxAppears {
        TimeWalkFirst(m, j, dates[j].times, 0);
      }
      if tw.found.Some? {
        var p := tw.found.value;
        forall d: nat, t: nat | j <= d && Precedes(Pick(m, d, t), p) ensures !DateReady(dates, d, t) {
          assert d == j && t < p.time;
        }
      } else {
        forall t: nat ensures !DateReady(dates, j, t) {
        }
      }
    }
  }

  /** The search within the panel of preference `i`, stated over the paths of the whole form. */
  lemma PanelWalkFirst(prefs: seq<string>, form: string -> Panel, i: nat)
    requires i < |prefs| && prefs[i] in ManufacturerItems
    ensures var w := PanelWalk(i, form(prefs[i]));
            && (w.found.Some? ==>
                  && w.found.value.manufacturer == i
                  && Bookable(prefs, form, w.found.value)
                  && (forall q: Pick :: q.manufacturer == i && Precedes(q, w.found.value) ==> !Bookable(prefs, form, q))
                  && w.clicks != [] && Last(w.clicks) == ChooseTime(w.found.value))
            && (w.found.None? ==> forall q: Pick :: q.manufacturer == i ==> !Bookable(prefs, form, q))
  {
    var panel := form(prefs[i]);
    if panel.dateBoxAppears {
      DateWalkFirst(i, panel.dates, 0);
      var w := PanelWalk(i, panel);
      if w.found.Some? {
        forall q: Pick | q.manufacturer == i && Precedes(q, w.found.value) ensures !Bookable(prefs, form, q) {
          assert Precedes(Pick(i, q.date, q.time), w.found.value);
        }
      }
    }
  }

  /**
   * The search is a first match: a selected path can proceed and no path
   * before it in preference, date and time order can, and the last click
   * selects it.
   */
  lemma {:induction false} ExploreSelectsFirst(prefs: seq<string>, form: string -> Panel, i: nat)
    requires i <= |prefs|
    ensures var e := Explore(prefs, form, i);
            e.outcome.Selected? ==>
              && i <= e.outcome.pick.manufacturer
              && Bookable(prefs, form, e.outcome.pick)
              && (forall q: Pick :: i <= q.manufacturer && Precedes(q, e.outcome.pick) ==> !Bookable(prefs, form, q))
              && e.clicks != [] && Last(e.clicks) == ChooseTime(e.outcome.pick)
    decreases |prefs| - i
  {
    if i < |prefs| && prefs[i] in ManufacturerItems {
      PanelWalkFirst(prefs, form, i);
      var w := PanelWalk(i, form(prefs[i]));
      if w.found.None? {
        ExploreSelectsFirst(prefs, form, i + 1);
        var rest := Explore(prefs, form, i + 1);
        if rest.outcome.Selected? {
          assert Explore(prefs, form, i).clicks == ([ChooseManufacturer(i)] + w.clicks) + rest.clicks;
        }
      }
    }
  }

  /**
   * A preference the form has no item for stops the search (a `KeyError`),
   * and only when no path of an earlier preference can proceed.
   */
  lemma {:induction false} ExploreStopsAtUnknown(prefs: seq<string>, form: string -> Panel, i: nat)
    requires i <= |prefs|
    ensures var e := Explore(prefs, form, i);
            e.outcome.UnknownManufacturer? ==>
              && i <= e.outcome.at < |prefs|
              && prefs[e.outcome.at] == e.outcome.name && e.outcome.name !in ManufacturerItems
              && (forall k :: i <= k < e.outcome.at ==> prefs[k] in ManufacturerItems)
              && (forall q: Pick :: i <= q.manufacturer < e.outcome.at ==> !Bookable(prefs, form, q))
    decreases |prefs| - i
  {
    if i < |prefs| && prefs[i] in ManufacturerItems {
      PanelWalkFirst(prefs, form, i);
      ExploreStopsAtUnknown(prefs, form, i + 1);
    }
  }

  /** No slot is selected exactly when every preference is known and no path of the form can proceed. */
  lemma {:induction false} ExploreNoSlot(prefs: seq<string>, form: string -> Panel, i: nat)
    requires i <= |prefs|
    ensures Explore(prefs, form, i).outcome.NoSlot? <==>
              && (forall k :: i <= k < |prefs| ==> prefs[k] in ManufacturerItems)
              && (forall q: Pick :: i <= q.manufacturer ==> !Bookable(prefs, form, q))
    decreases |prefs| - i
  {
    if i < |prefs| && prefs[i] in ManufacturerItems {
      PanelWalkFirst(prefs, form, i);
      ExploreNoSlot(prefs, form, i + 1);
      var w := PanelWalk(i, form(prefs[i]));
      if w.found.Some? {
        assert Bookable(prefs, form, w.found.value);
      }
    }
  }

  /** Every preference names an item of the form, so no `KeyError` can stop the search. */
  predicate AllKnown(prefs: seq<string>) {
    forall k :: 0 <= k < |prefs| ==> prefs[k] in ManufacturerItems
  }

  /** With every preference known, the search selects a path exactly when some path of the form can proceed. */
  lemma PopulateIff(prefs: seq<string>, form: string -> Panel)
    ensures AllKnown(prefs) ==> (Explore(prefs, form, 0).outcome.Selected? <==> exists p: Pick :: Bookable(prefs, form, p))
    ensures AllKnown(prefs) ==> !Explore(prefs, form, 0).outcome.UnknownManufacturer?
  {
    ExploreSelectsFirst(prefs, form, 0);
    ExploreStopsAtUnknown(prefs, form, 0);
    ExploreNoSlot(prefs, form, 0);
    var e := Explore(prefs, form, 0);
    if e.outcome.Selected? {
      assert Bookable(prefs, form, e.outcome.pick);
    }
  }

  /** A click made before a walk moves to the clicks already made. */
  lemma ClickFirst(clicks: seq<Click>, c: Click, w: Walk, b: Walk, rest: Exploration)
    ensures Resume(clicks, OrNext(PrependClick(c, w), rest)) == Resume(clicks + [c], OrNext(w, rest))
    ensures Resume(clicks, OrNext(OrElse(PrependClick(c, w), b), rest)) == Resume(clicks + [c], OrNext(OrElse(w, b), rest))
    ensures Resume(clicks, Resume([c], OrNext(w, rest))) == Resume(clicks + [c], OrNext(w, rest))
  {
    assert clicks + ([c] + w.clicks) == (clicks + [c]) + w.clicks;
    assert clicks + (([c] + w.clicks) + rest.clicks) == (clicks + [c]) + (w.clicks + rest.clicks);
    assert clicks + (([c] + w.clicks) + b.clicks) == (clicks + [c]) + (w.clicks + b.clicks);
    assert clicks + ((([c] + w.clicks) + b.clicks) + rest.clicks) == (clicks + [c]) + ((w.clicks + b.clicks) + rest.clicks);
    assert clicks + ([c] + OrNext(w, rest).clicks) == (clicks + [c]) + OrNext(w, rest).clicks;
  }

  /** A walk that makes no click and finds nothing leaves the search as it was. */
  lemma NothingFound(b: Walk, rest: Exploration)
    ensures OrElse(Walk(None, []), b) == b
    ensures OrNext(Walk(None, []), rest) == rest
  {
    assert [] + b.clicks == b.clicks;
    assert [] + rest.clicks == rest.clicks;
  }

  /**
   * `AppointmentForm.populate`: for each preferred manufacturer, each date,
   * each time, in order, until a time lets the form proceed.
   */
  method Populate(prefs: seq<string>, form: string -> Panel) returns (outcome: SearchOutcome, clicks: seq<Click>)
    ensures Exploration(outcome, clicks) == Explore(prefs, form, 0)
  {
    ghost var goal := Explore(prefs, form, 0);
    clicks := [];
    assert goal == Resume(clicks, goal);
    for i := 0 to |prefs|
      invariant goal == Resume(clicks, Explore(prefs, form, i))
    {
      var m := prefs[i];
      if m !in ManufacturerItems {
        return UnknownManufacturer(i, m), clicks;
      }
      var panel := form(m);
      ghost var rest := Explore(prefs, form, i + 1);
      assert Explore(prefs, form, i) == Resume([ChooseManufacturer(i)], OrNext(PanelWalk(i, panel), rest));
      ClickFirst(clicks, ChooseManufacturer(i), PanelWalk(i, panel), Walk(None, []), rest);
      clicks := clicks + [ChooseManufacturer(i)];
      if !panel.dateBoxAppears {
        NothingFound(Walk(None, []), rest);
        continue;
      }
      var dates := panel.dates;
      if |dates| == 0 {
        assert DateWalk(i, dates, 0) == Walk(None, []);
        NothingFound(Walk(None, []), rest);
        continue;
      }
      for j := 0 to |dates|
        invariant goal == Resume(clicks, OrNext(DateWalk(i, dates, j), rest))
      {
        ghost var later := DateWalk(i, dates, j + 1);
        ClickFirst(clicks, ChooseDate(i, j), OrElse(TimeBoxWalk(i, j, dates[j]), later), Walk(None, []), rest);
        clicks := clicks + [ChooseDate(i, j)];
        if !dates[j].timeBoxAppears {
          NothingFound(later, rest);
          continue;
        }
        var times := dates[j].times;
        if |times| == 0 {
          assert TimeWalk(i, j, times, 0) == Walk(None, []);
          NothingFound(later, rest);
          continue;
        }
        for k := 0 to |times|
          invariant goal == Resume(clicks, OrNext(OrElse(TimeWalk(i, j, times, k), later), rest))
        {
          var pick := Pick(i, j, k);
          if Ready(times[k]) {
            clicks := clicks + [ChooseTime(pick)];
            return Selected(pick), clicks;
          }
          ClickFirst(clicks, ChooseTime(pick), TimeWalk(i, j, times, k + 1), later, rest);
          clicks := clicks + [ChooseTime(pick)];
        }
        assert TimeWalk(i, j, times, |times|) == Walk(None, []);
        NothingFound(later, rest);
      }
      assert DateWalk(i, dates, |dates|) == Walk(None, []);
      NothingFound(Walk(None, []), rest);
    }
    return NoSlot, clicks;
  }

  /** What the browser shows for one slot's URL. */
  datatype Site = Site(
    formLoads: bool,          // the manufacturer box appears within the load wait
    noSlotsNotice: bool,      // the page says there are no available time slots
    form: string -> Panel,    // the appointment form, per chosen manufacturer
    patientFormLoads: bool)   // the schedule button of the patient form appears and is present

  /** `AppointmentForm.load`: the page loads and does not announce that no time slots are left. */
  predicate AppointmentFormLoads(site: Site) {
    site.formLoads && !site.noSlotsNotice
  }

  /** The page steps of one booking attempt. */
  datatype PageAction =
    | OpenAppointmentForm(url: string)
    | FillAppointmentForm(clicks: seq<Click>)
    | ProceedToPatientForm
    | OpenPatientForm
    | FillPatientForm
    | ProceedToConfirmation

  /** The result of one `HEB.process` call; a preference the form has no item for raises. */
  function Attempted(site: Site, prefs: seq<string>): (a: Attempt)
    ensures AllKnown(prefs) ==>
              (a == Booked <==>
                 AppointmentFormLoads(site) && site.patientFormLoads && exists p: Pick :: Bookable(prefs, site.form, p))
    ensures a.Failed? ==> exists k :: 0 <= k < |prefs| && prefs[k] !in ManufacturerItems
  {
    PopulateIff(prefs, site.form);
    ExploreStopsAtUnknown(prefs, site.form, 0);
    if !AppointmentFormLoads(site) then Declined
    else match Explore(prefs, site.form, 0).outcome
      case UnknownManufacturer(_, name) => Failed(name)
      case NoSlot => Declined
      case Selected(_) => if site.patientFormLoads then Booked else Declined
  }

  /**
   * `HEB.process` for one open slot: load the appointment form, search it,
   * proceed to the patient form, fill it and proceed to confirmation,
   * stopping at the first step that fails. Filling the patient form always
   * succeeds.
   */
  method Process(slot: Location, sites: string -> Site, prefs: seq<string>)
    returns (attempt: Attempt, actions: seq<PageAction>)
    ensures attempt == Attempted(sites(slot.url), prefs)
    ensures actions != [] && actions[0] == OpenAppointmentForm(slot.url)
    ensures OpenPatientForm in actions <==>
              AppointmentFormLoads(sites(slot.url)) && Explore(prefs, sites(slot.url).form, 0).outcome.Selected?
    ensures attempt == Booked ==> Last(actions) == ProceedToConfirmation
    ensures !AppointmentFormLoads(sites(slot.url)) ==> actions == [OpenAppointmentForm(slot.url)]
    ensures AppointmentFormLoads(sites(slot.url)) ==>
              |actions| >= 2 && actions[1] == FillAppointmentForm(Explore(prefs, sites(slot.url).form, 0).clicks)
    ensures var e := Explore(prefs, sites(slot.url).form, 0);
            AppointmentFormLoads(sites(slot.url)) && !e.outcome.Selected? ==>
              actions == [OpenAppointmentForm(slot.url), FillAppointmentForm(e.clicks)]
    ensures var e := Explore(prefs, sites(slot.url).form, 0);
            AppointmentFormLoads(sites(slot.url)) && e.outcome.Selected? && !sites(slot.url).patientFormLoads ==>
              actions == [OpenAppointmentForm(slot.url), FillAppointmentForm(e.clicks), ProceedToPatientForm, OpenPatientForm]
    ensures var e := Explore(prefs, sites(slot.url).form, 0);
            attempt == Booked ==>
              actions == [OpenAppointmentForm(slot.url), FillAppointmentForm(e.clicks), ProceedToPatientForm,
                          OpenPatientForm, FillPatientForm, ProceedToConfirmation]
  {
    var site := sites(slot.url);
    actions := [OpenAppointmentForm(slot.url)];
    if !AppointmentFormLoads(site) {
      return Declined, actions;
    }
    var outcome, clicks := Populate(prefs, site.form);
    actions := actions + [FillAppointmentForm(clicks)];
    if outcome.UnknownManufacturer? {
      return Failed(outcome.name), actions;
    }
    if outcome.NoSlot? {
      return Declined, actions;
    }
    actions := actions + [ProceedToPatientForm, OpenPatientForm];
    if !site.patientFormLoads {
      return Declined, actions;
    }
    actions := actions + [FillPatientForm, ProceedToConfirmation];
    return Booked, actions;
  }

  /**
   * `AppointmentForm.load` only gates the attempt: when the manufacturer box
   * does not appear or the no-slots notice shows, the slot is declined; two
   * sites that both load, with the same form and patient page, agree.
   */
  lemma LoadGatesAttempt(site: Site, other: Site, prefs: seq<string>)
    ensures !AppointmentFormLoads(site) ==> Attempted(site, prefs) == Declined
    ensures AppointmentFormLoads(site) && AppointmentFormLoads(other)
            && site.form == other.form && site.patientFormLoads == other.patientFormLoads
            ==> Attempted(site, prefs) == Attempted(other, prefs)
  {
  }

  /** The "no available time slots" notice declines the slot, whatever the form holds. */
  lemma NoSlotsNoticeDeclines(site: Site, prefs: seq<string>)
    requires site.noSlotsNotice
    ensures Attempted(site, prefs) == Declined
  {
  }
}
