/**
 Overrides clamped to the weekly hours (TimeUtilService.intersectOverrideWithAvailableTimes).

 The source narrows each override range in place, against every weekly range of its weekday
 in turn, and then drops the ranges whose start has passed their end.
 */
module OverrideClamp {
  import opened Wrappers
  import opened TimeRanges
  import opened WeeklyAvailability
  import opened DateOverrides

  /** One range narrowed by every weekly range, first to last. */
  function ClampRange(r: TimeRange, hours: seq<TimeRange>): TimeRange
    decreases hours
  {
    if hours == [] then r
    else ClampRange(Meet(r, hours[0]), hours[1..])
  }

  /** The filter after the narrowing: MAX of start and end is the end. */
  predicate Kept(r: TimeRange) {
    CompareTimeSlot(r.startTime, r.endTime, MAX) == r.endTime
  }

  function NarrowRanges(rs: seq<TimeRange>, hours: seq<TimeRange>): (narrowed: seq<TimeRange>)
    ensures |narrowed| == |rs| && forall i | 0 <= i < |rs| :: narrowed[i] == ClampRange(rs[i], hours)
  {
    seq(|rs|, i requires 0 <= i < |rs| => ClampRange(rs[i], hours))
  }

  function KeepValid(rs: seq<TimeRange>): seq<TimeRange> {
    if rs == [] then []
    else
      var last := |rs| - 1;
      KeepValid(rs[..last]) + if Kept(rs[last]) then [rs[last]] else []
  }

  function ClampRanges(rs: seq<TimeRange>, hours: seq<TimeRange>): seq<TimeRange> {
    KeepValid(NarrowRanges(rs, hours))
  }

  /** The filter on dates: getDay gives the weekday of a date, and the week must have hours on it. */
  function OpenOverrides(overrides: Overrides, week: Week, getDay: int -> int): Overrides {
    if overrides == [] then []
    else
      var last := |overrides| - 1;
      OpenOverrides(overrides[..last], week, getDay) +
      if HoursOn(week, getDay(overrides[last].targetDate)).Some? then [overrides[last]] else []
  }

  function ClampOverride(o: DateOverride, week: Week, getDay: int -> int): DateOverride {
    var hours := HoursOn(week, getDay(o.targetDate));
    DateOverride(o.targetDate, if hours.Some? then ClampRanges(o.timeRanges, hours.value) else [])
  }

  function ClampOverrides(overrides: Overrides, week: Week, getDay: int -> int): (clamped: Overrides)
    ensures |clamped| == |OpenOverrides(overrides, week, getDay)|
  {
    var open := OpenOverrides(overrides, week, getDay);
    seq(|open|, i requires 0 <= i < |open| => ClampOverride(open[i], week, getDay))
  }

  // ---------------------------------------------------------------- in place

  /** A time range object, whose fields the source assigns. */
  class TimeRangeCell {
    var startTime: TimeSlot
    var endTime: TimeSlot

    function Value(): TimeRange
      reads this
    {
      TimeRange(startTime, endTime)
    }

    /** The inner forEach. */
    method Narrow(availableTimeRanges: seq<TimeRange>)
      modifies this
      ensures Value() == ClampRange(old(Value()), availableTimeRanges)
    {
      for i := 0 to |availableTimeRanges|
        invariant ClampRange(Value(), availableTimeRanges[i..]) == ClampRange(old(Value()), availableTimeRanges)
      {
        var availableTimeRange := availableTimeRanges[i];
        assert availableTimeRanges[i..][1..] == availableTimeRanges[i + 1..];
        var maximizedStartTime := CompareTimeSlot(startTime, availableTimeRange.startTime, MAX);
        startTime := maximizedStartTime;
        var minimizedEndTime := CompareTimeSlot(endTime, availableTimeRange.endTime, MIN);
        endTime := minimizedEndTime;
      }
    }
  }

  function Values(cells: seq<TimeRangeCell>): (values: seq<TimeRange>)
    reads cells
    ensures |values| == |cells| && forall i | 0 <= i < |cells| :: values[i] == cells[i].Value()
  {
    seq(|cells|, i requires 0 <= i < |cells| reads cells => cells[i].Value())
  }

  ghost predicate DistinctCells(cells: seq<TimeRangeCell>) {
    forall i, j | 0 <= i < j < |cells| :: cells[i] != cells[j]
  }

  /** The map over the ranges of one override, which changes each of them. */
  method NarrowAll(cells: seq<TimeRangeCell>, availableTimeRanges: seq<TimeRange>)
    requires DistinctCells(cells)
    modifies cells
    ensures Values(cells) == NarrowRanges(old(Values(cells)), availableTimeRanges)
  {
    for i := 0 to |cells|
      invariant forall j | 0 <= j < i :: cells[j].Value() == ClampRange(old(cells[j].Value()), availableTimeRanges)
      invariant forall j | i <= j < |cells| :: cells[j].Value() == old(cells[j].Value())
    {
      cells[i].Narrow(availableTimeRanges);
    }
  }

  /** The filter over the narrowed ranges. */
  method KeepValidCells(cells: seq<TimeRangeCell>) returns (kept: seq<TimeRangeCell>)
    requires DistinctCells(cells)
    ensures Values(kept) == KeepValid(Values(cells))
    ensures DistinctCells(kept) && forall cell | cell in kept :: cell in cells
  {
    kept := [];
    for i := 0 to |cells|
      invariant Values(kept) == KeepValid(Values(cells)[..i])
      invariant DistinctCells(kept) && forall cell | cell in kept :: cell in cells[..i]
    {
      assert Values(cells)[..i + 1][..i] == Values(cells)[..i];
      if CompareTimeSlot(cells[i].startTime, cells[i].endTime, MAX) == cells[i].endTime {
        assert Values(kept + [cells[i]]) == Values(kept) + [cells[i].Value()];
        assert cells[i] !in cells[..i];
        kept := kept + [cells[i]];
      }
    }
    assert Values(cells)[..|cells|] == Values(cells);
  }

  /** A date override object, of whose range objects it owns a fixed set. */
  class DateOverrideCell {
    const targetDate: int
    ghost const owned: set<TimeRangeCell>
    var timeRanges: seq<TimeRangeCell>

    constructor (targetDate: int, timeRanges: seq<TimeRangeCell>)
      requires DistinctCells(timeRanges)
      ensures Valid() && this.targetDate == targetDate && this.timeRanges == timeRanges
      ensures owned == set cell | cell in timeRanges
    {
      this.targetDate := targetDate;
      this.timeRanges := timeRanges;
      this.owned := set cell | cell in timeRanges;
    }

    ghost predicate Valid()
      reads this
    {
      DistinctCells(timeRanges) && forall cell | cell in timeRanges :: cell in owned
    }

    ghost function Value(): DateOverride
      requires Valid()
      reads this, owned
    {
      DateOverride(targetDate, Values(timeRanges))
    }

    /** The map over one override. */
    method Clamp(week: Week, getDay: int -> int)
      requires Valid() && HoursOn(week, getDay(targetDate)).Some?
      modifies this, owned
      ensures Valid() && Value() == ClampOverride(old(Value()), week, getDay)
    {
      if timeRanges == [] {
        return;
      }
      var availableTimeRanges := HoursOn(week, getDay(targetDate)).value;
      NarrowAll(timeRanges, availableTimeRanges);
      timeRanges := KeepValidCells(timeRanges);
    }
  }

  /** No object is shared between overrides. */
  ghost predicate Separate(overrides: seq<DateOverrideCell>) {
    forall i, j | 0 <= i < j < |overrides| :: overrides[i] != overrides[j] && overrides[i].owned !! overrides[j].owned
  }

  ghost function Owned(overrides: seq<DateOverrideCell>): set<TimeRangeCell> {
    set o, cell | o in overrides && cell in o.owned :: cell
  }

  /** The objects hold these values, place by place. */
  ghost predicate Holds(overrides: seq<DateOverrideCell>, values: Overrides)
    reads overrides, Owned(overrides)
  {
    && |overrides| == |values|
    && forall i | 0 <= i < |overrides| :: overrides[i].Valid() && overrides[i].Value() == values[i]
  }

  /** The filter on dates; it changes nothing. */
  method OpenCells(overrides: seq<DateOverrideCell>, week: Week, getDay: int -> int, ghost values: Overrides)
    returns (open: seq<DateOverrideCell>)
    requires Separate(overrides) && Holds(overrides, values)
    ensures Separate(open) && Holds(open, OpenOverrides(values, week, getDay))
    ensures forall o | o in open :: o in overrides && HoursOn(week, getDay(o.targetDate)).Some?
  {
    open := [];
    for i := 0 to |overrides|
      invariant Separate(open) && Holds(open, OpenOverrides(values[..i], week, getDay))
      invariant forall o | o in open :: o in overrides[..i] && HoursOn(week, getDay(o.targetDate)).Some?
    {
      assert values[..i + 1][..i] == values[..i];
      if HoursOn(week, getDay(overrides[i].targetDate)).Some? {
        open := open + [overrides[i]];
      }
    }
    assert values[..|overrides|] == values;
  }

  /** The map on the overrides that are left, each changed in place. */
  method ClampAll(open: seq<DateOverrideCell>, week: Week, getDay: int -> int, ghost values: Overrides)
    requires Separate(open) && Holds(open, values)
    requires forall o | o in open :: HoursOn(week, getDay(o.targetDate)).Some?
    modifies open, Owned(open)
    ensures forall i | 0 <= i < |open| :: open[i].Valid() && open[i].Value() == ClampOverride(values[i], week, getDay)
  {
    hide ClampOverride, HoursOn;
    for i := 0 to |open|
      invariant forall j | 0 <= j < i :: open[j].Valid() && open[j].Value() == ClampOverride(values[j], week, getDay)
      invariant forall j | i <= j < |open| :: unchanged(open[j]) && unchanged(open[j].owned)
    {
      assert open[i] in open && open[i].Valid() && open[i].Value() == values[i];
      open[i].Clamp(week, getDay);
    }
  }

  method IntersectOverrideWithAvailableTimes(
      overrides: seq<DateOverrideCell>, week: Week, getDay: int -> int, ghost values: Overrides)
    returns (intersected: seq<DateOverrideCell>)
    requires Separate(overrides) && Holds(overrides, values)
    modifies overrides, Owned(overrides)
    ensures Separate(intersected) && Holds(intersected, ClampOverrides(values, week, getDay))
    ensures forall o | o in intersected :: o in overrides
  {
    intersected := OpenCells(overrides, week, getDay, values);
    ClampAll(intersected, week, getDay, OpenOverrides(values, week, getDay));
  }

  // ---------------------------------------------------------------- what survives

  /** r lies within every one of these ranges. */
  ghost predicate WithinAll(r: TimeRange, hours: seq<TimeRange>) {
    forall h | h in hours :: r.Within(h)
  }

  lemma {:induction false} ClampRangeWithin(r: TimeRange, hours: seq<TimeRange>)
    ensures ClampRange(r, hours).Within(r) && WithinAll(ClampRange(r, hours), hours)
    decreases hours
  {
    if hours != [] {
      ClampRangeWithin(Meet(r, hours[0]), hours[1..]);
      forall h | h in hours ensures ClampRange(r, hours).Within(h) {
        assert h == hours[0] || h in hours[1..];
      }
    }
  }

  /** Nothing larger would do: whatever lies within r and all the hours lies within the narrowed range. */
  lemma {:induction false} ClampRangeLargest(r: TimeRange, hours: seq<TimeRange>, x: TimeRange)
    requires x.Within(r) && WithinAll(x, hours)
    ensures x.Within(ClampRange(r, hours))
    decreases hours
  {
    if hours != [] {
      assert hours[0] in hours;
      ClampRangeLargest(Meet(r, hours[0]), hours[1..], x);
    }
  }

  lemma {:induction false} KeepValidElements(rs: seq<TimeRange>, x: TimeRange)
    ensures x in KeepValid(rs) <==> x in rs && x.Start() <= x.End()
  {
    if rs != [] {
      var last := |rs| - 1;
      assert rs == rs[..last] + [rs[last]];
      KeepValidElements(rs[..last], x);
      MinutesInjective(x.startTime, x.endTime);
    }
  }

  /** Every range left comes from one override range, and lies within it and within every weekly range. */
  lemma ClampRangesWithin(rs: seq<TimeRange>, hours: seq<TimeRange>, x: TimeRange)
    requires x in ClampRanges(rs, hours)
    ensures x.Start() <= x.End() && WithinAll(x, hours)
    ensures exists r | r in rs :: x.Within(r)
  {
    var narrowed := NarrowRanges(rs, hours);
    KeepValidElements(narrowed, x);
    var i :| 0 <= i < |narrowed| && narrowed[i] == x;
    ClampRangeWithin(rs[i], hours);
    assert rs[i] in rs;
  }

  /** t is an instant of the range, its ends included. */
  ghost predicate HasInstant(r: TimeRange, t: int) {
    r.Start() <= t <= r.End()
  }

  /** An override range survives exactly when it and all the weekly ranges have an instant in common. */
  lemma SurvivesIff(r: TimeRange, hours: seq<TimeRange>)
    ensures Kept(ClampRange(r, hours)) <==>
            exists t: TimeSlot :: HasInstant(r, t.Minutes()) && forall h | h in hours :: HasInstant(h, t.Minutes())
  {
    var c := ClampRange(r, hours);
    MinutesInjective(c.startTime, c.endTime);
    if Kept(c) {
      ClampRangeWithin(r, hours);
      assert HasInstant(r, c.startTime.Minutes());
      forall h | h in hours ensures HasInstant(h, c.startTime.Minutes()) {
        assert c.Within(h);
      }
    }
    if t: TimeSlot :| HasInstant(r, t.Minutes()) && forall h | h in hours :: HasInstant(h, t.Minutes()) {
      var point := TimeRange(t, t);
      assert WithinAll(point, hours);
      ClampRangeLargest(r, hours, point);
    }
  }

  /** A weekday with a gap in its hours closes every override on it. */
  lemma GapClosesOverride(rs: seq<TimeRange>, hours: seq<TimeRange>, h: TimeRange, h': TimeRange)
    requires h in hours && h' in hours && h.End() < h'.Start()
    ensures ClampRanges(rs, hours) == []
  {
    if ClampRanges(rs, hours) != [] {
      ClampRangesWithin(rs, hours, ClampRanges(rs, hours)[0]);
    }
  }

  /** Ranges in time order that may be empty but do not overlap. */
  ghost predicate WeaklyOrdered(rs: seq<TimeRange>) {
    forall i, j | 0 <= i < j < |rs| :: rs[i].End() <= rs[j].Start()
  }

  lemma {:induction false} KeepValidOrdered(rs: seq<TimeRange>)
    requires WeaklyOrdered(rs)
    ensures WeaklyOrdered(KeepValid(rs))
  {
    if rs != [] {
      var last := |rs| - 1;
      KeepValidOrdered(rs[..last]);
      forall x | x in KeepValid(rs[..last]) ensures x.End() <= rs[last].Start() {
        KeepValidElements(rs[..last], x);
      }
    }
  }

  /** Survivors keep their order and stay apart. */
  lemma ClampRangesOrdered(rs: seq<TimeRange>, hours: seq<TimeRange>)
    requires WeaklyOrdered(rs)
    ensures WeaklyOrdered(ClampRanges(rs, hours))
  {
    var narrowed := NarrowRanges(rs, hours);
    forall i, j | 0 <= i < j < |narrowed| ensures narrowed[i].End() <= narrowed[j].Start() {
      ClampRangeWithin(rs[i], hours);
      ClampRangeWithin(rs[j], hours);
    }
    KeepValidOrdered(narrowed);
  }

  lemma {:induction false} KeepValidAll(rs: seq<TimeRange>)
    requires forall x | x in rs :: x.Start() <= x.End()
    ensures KeepValid(rs) == rs
  {
    if rs != [] {
      var last := |rs| - 1;
      KeepValidAll(rs[..last]);
      assert rs[last] in rs;
      MinutesInjective(rs[last].startTime, rs[last].endTime);
      assert rs == rs[..last] + [rs[last]];
    }
  }

  lemma ClampRangesIdempotent(rs: seq<TimeRange>, hours: seq<TimeRange>)
    ensures ClampRanges(ClampRanges(rs, hours), hours) == ClampRanges(rs, hours)
  {
    var once := ClampRanges(rs, hours);
    forall x | x in once ensures x.Start() <= x.End() && ClampRange(x, hours) == x {
      ClampRangesWithin(rs, hours, x);
      ClampRangeWithin(x, hours);
      ClampRangeLargest(x, hours, x);
      SameRange(x, ClampRange(x, hours));
    }
    assert NarrowRanges(once, hours) == once;
    KeepValidAll(once);
  }

  /** A clamp to no hours narrows nothing. */
  lemma ClampToNothing(rs: seq<TimeRange>)
    requires forall r | r in rs :: r.Start() <= r.End()
    ensures ClampRanges(rs, []) == rs
  {
    assert NarrowRanges(rs, []) == rs;
    KeepValidAll(rs);
  }

  // ---------------------------------------------------------------- when the clamp is exact

  /** The clamp leaves exactly the minutes that the override and the weekly hours share. */
  ghost predicate Exact(rs: seq<TimeRange>, hours: seq<TimeRange>) {
    forall m :: Free(ClampRanges(rs, hours), m) <==> Free(rs, m) && Free(hours, m)
  }

  /** Some minute belongs to a range of each list. */
  ghost predicate Overlapping(rs: seq<TimeRange>, hours: seq<TimeRange>) {
    exists r, h :: r in rs && h in hours && Meet(r, h).NonEmpty()
  }

  lemma MeetCovers(r: TimeRange, h: TimeRange, m: int)
    ensures Meet(r, h).Covers(m) <==> r.Covers(m) && h.Covers(m)
  {
  }

  lemma OverlappingIff(rs: seq<TimeRange>, hours: seq<TimeRange>)
    ensures Overlapping(rs, hours) <==> exists m :: Free(rs, m) && Free(hours, m)
  {
    if Overlapping(rs, hours) {
      var r, h :| r in rs && h in hours && Meet(r, h).NonEmpty();
      var m := Meet(r, h).Start();
      MeetCovers(r, h, m);
      assert Free(rs, m) && Free(hours, m);
    }
    if m :| Free(rs, m) && Free(hours, m) {
      var r :| r in rs && r.Covers(m);
      var h :| h in hours && h.Covers(m);
      MeetCovers(r, h, m);
      assert Meet(r, h).NonEmpty();
    }
  }

  lemma NarrowedIsKept(rs: seq<TimeRange>, hours: seq<TimeRange>, r: TimeRange)
    requires r in rs && ClampRange(r, hours).NonEmpty()
    ensures ClampRange(r, hours) in ClampRanges(rs, hours)
  {
    var narrowed := NarrowRanges(rs, hours);
    var i :| 0 <= i < |rs| && rs[i] == r;
    assert narrowed[i] == ClampRange(r, hours);
    KeepValidElements(narrowed, narrowed[i]);
  }

  /** Whatever the clamp leaves was free before and lies in every weekly range. */
  lemma LeftWasFree(rs: seq<TimeRange>, hours: seq<TimeRange>, h: TimeRange, m: int)
    requires h in hours && Free(ClampRanges(rs, hours), m)
    ensures Free(rs, m) && h.Covers(m)
  {
    var x :| x in ClampRanges(rs, hours) && x.Covers(m);
    ClampRangesWithin(rs, hours, x);
    var r :| r in rs && x.Within(r);
    assert r.Covers(m);
    hide ClampRanges;
  }

  lemma SharedIsLeft(rs: seq<TimeRange>, h: TimeRange, m: int)
    requires Free(rs, m) && h.Covers(m)
    ensures Free(ClampRanges(rs, [h]), m)
  {
    var r :| r in rs && r.Covers(m);
    MeetCovers(r, h, m);
    OneHour(r, h);
    NarrowedIsKept(rs, [h], r);
    hide ClampRanges, ClampRange;
  }

  lemma OneHour(r: TimeRange, h: TimeRange)
    ensures ClampRange(r, [h]) == Meet(r, h)
  {
    assert [h][1..] == [];
  }

  /** One weekly range: the clamp intersects with it. */
  lemma OneHourExact(rs: seq<TimeRange>, h: TimeRange)
    ensures Exact(rs, [h])
  {
    hide ClampRanges;
    forall m ensures Free(ClampRanges(rs, [h]), m) <==> Free(rs, m) && Free([h], m) {
      assert Free([h], m) <==> h.Covers(m) by {
        assert h in [h];
      }
      hide Free;
      if Free(ClampRanges(rs, [h]), m) {
        LeftWasFree(rs, [h], h, m);
      }
      if Free(rs, m) && h.Covers(m) {
        SharedIsLeft(rs, h, m);
      }
    }
  }

  /** Two or more weekly ranges, which are apart: the clamp leaves no minute. */
  lemma SeveralHoursLeaveNothing(rs: seq<TimeRange>, hours: seq<TimeRange>, m: int)
    requires Ordered(hours) && |hours| > 1
    ensures !Free(ClampRanges(rs, hours), m)
  {
    assert hours[0] in hours && hours[1] in hours && hours[0].End() <= hours[1].Start();
    hide ClampRanges;
    if Free(ClampRanges(rs, hours), m) {
      LeftWasFree(rs, hours, hours[0], m);
      LeftWasFree(rs, hours, hours[1], m);
    }
  }

  /** No weekly range: every minute of the override is left. */
  lemma NoHoursLeaveAll(rs: seq<TimeRange>, m: int)
    ensures Free(ClampRanges(rs, []), m) <==> Free(rs, m)
  {
    if Free(rs, m) {
      var r :| r in rs && r.Covers(m);
      NarrowedIsKept(rs, [], r);
    }
    hide ClampRange;
    if Free(ClampRanges(rs, []), m) {
      var x :| x in ClampRanges(rs, []) && x.Covers(m);
      ClampRangesWithin(rs, [], x);
      var r :| r in rs && x.Within(r);
      assert r.Covers(m);
    }
  }

  lemma NoHoursExactIff(rs: seq<TimeRange>)
    ensures Exact(rs, []) <==> forall r | r in rs :: !r.NonEmpty()
  {
    forall m ensures Free(ClampRanges(rs, []), m) <==> Free(rs, m) {
      NoHoursLeaveAll(rs, m);
    }
    hide ClampRanges;
    if r :| r in rs && r.NonEmpty() {
      assert r.Covers(r.Start());
      assert Free(rs, r.Start()) && !Free([], r.Start());
    }
  }

  /** There is one weekly range, or nothing that is free in the override as well as in the hours. */
  ghost predicate Exactable(rs: seq<TimeRange>, hours: seq<TimeRange>) {
    || |hours| == 1
    || (if hours == [] then forall r | r in rs :: !r.NonEmpty() else !Overlapping(rs, hours))
  }

  /**
   The clamp leaves exactly the shared minutes for a weekday with one weekly range. With several it does so only where
   nothing is shared, since it leaves no minute; with none only where there is no minute to clamp, since it leaves all.
   */
  lemma ClampExactIff(rs: seq<TimeRange>, hours: seq<TimeRange>)
    requires Ordered(hours)
    ensures Exact(rs, hours) <==> Exactable(rs, hours)
  {
    if |hours| == 1 {
      assert hours == [hours[0]];
      OneHourExact(rs, hours[0]);
    } else if hours == [] {
      NoHoursExactIff(rs);
    } else {
      OverlappingIff(rs, hours);
      forall m ensures !Free(ClampRanges(rs, hours), m) {
        SeveralHoursLeaveNothing(rs, hours, m);
      }
      hide ClampRanges, Overlapping;
    }
  }

  // ---------------------------------------------------------------- dates

  lemma {:induction false} OpenElements(overrides: Overrides, week: Week, getDay: int -> int, o: DateOverride)
    ensures o in OpenOverrides(overrides, week, getDay) <==>
            o in overrides && HoursOn(week, getDay(o.targetDate)).Some?
  {
    if overrides != [] {
      var last := |overrides| - 1;
      assert overrides == overrides[..last] + [overrides[last]];
      OpenElements(overrides[..last], week, getDay, o);
    }
  }

  lemma {:induction false} OpenDescending(overrides: Overrides, week: Week, getDay: int -> int)
    requires StrictlyDescending(overrides)
    ensures StrictlyDescending(OpenOverrides(overrides, week, getDay))
  {
    if overrides != [] {
      var last := |overrides| - 1;
      OpenDescending(overrides[..last], week, getDay);
      forall o | o in OpenOverrides(overrides[..last], week, getDay)
        ensures o.targetDate > overrides[last].targetDate
      {
        OpenElements(overrides[..last], week, getDay, o);
      }
    }
  }

  lemma ClampDescending(overrides: Overrides, week: Week, getDay: int -> int)
    requires StrictlyDescending(overrides)
    ensures StrictlyDescending(ClampOverrides(overrides, week, getDay))
  {
    OpenDescending(overrides, week, getDay);
  }

  lemma ClampElements(overrides: Overrides, week: Week, getDay: int -> int)
    ensures forall o | o in overrides && HoursOn(week, getDay(o.targetDate)).Some? ::
              ClampOverride(o, week, getDay) in ClampOverrides(overrides, week, getDay)
    ensures forall c | c in ClampOverrides(overrides, week, getDay) ::
              exists o | o in overrides
                  && HoursOn(week, getDay(o.targetDate)).Some? :: c == ClampOverride(o, week, getDay)
  {
    var open := OpenOverrides(overrides, week, getDay);
    var clamped := ClampOverrides(overrides, week, getDay);
    forall o | o in overrides && HoursOn(week, getDay(o.targetDate)).Some?
      ensures ClampOverride(o, week, getDay) in clamped
    {
      OpenElements(overrides, week, getDay, o);
      var i :| 0 <= i < |open| && open[i] == o;
      assert clamped[i] == ClampOverride(o, week, getDay);
    }
    forall c | c in clamped
      ensures exists o | o in overrides
              && HoursOn(week, getDay(o.targetDate)).Some? :: c == ClampOverride(o, week, getDay)
    {
      var i :| 0 <= i < |clamped| && clamped[i] == c;
      OpenElements(overrides, week, getDay, open[i]);
    }
  }

  /** Dates on weekdays without hours disappear; every other date keeps its clamped ranges. */
  lemma ClampLookup(overrides: Overrides, week: Week, getDay: int -> int, date: int)
    requires StrictlyDescending(overrides)
    ensures OverrideOn(ClampOverrides(overrides, week, getDay), date) ==
            var before, hours := OverrideOn(overrides, date), HoursOn(week, getDay(date));
            if before.Some? && hours.Some? then Some(ClampRanges(before.value, hours.value)) else None
  {
    var clamped := ClampOverrides(overrides, week, getDay);
    ClampDescending(overrides, week, getDay);
    ClampElements(overrides, week, getDay);
    if OverrideOn(overrides, date).Some? && HoursOn(week, getDay(date)).Some? {
      DateAbsent(overrides, date);
      var o :| o in overrides && o.targetDate == date;
      OverrideOnEntry(overrides, o);
      OverrideOnEntry(clamped, ClampOverride(o, week, getDay));
    } else {
      DateAbsent(overrides, date);
      DateAbsent(clamped, date);
    }
  }

  lemma ClampIdempotent(overrides: Overrides, week: Week, getDay: int -> int)
    requires StrictlyDescending(overrides)
    ensures ClampOverrides(ClampOverrides(overrides, week, getDay), week, getDay)
            == ClampOverrides(overrides, week, getDay)
  {
    var once := ClampOverrides(overrides, week, getDay);
    ClampDescending(overrides, week, getDay);
    ClampDescending(once, week, getDay);
    forall date
      ensures OverrideOn(ClampOverrides(once, week, getDay), date) == OverrideOn(once, date)
    {
      ClampLookup(overrides, week, getDay, date);
      ClampLookup(once, week, getDay, date);
      var before, hours := OverrideOn(overrides, date), HoursOn(week, getDay(date));
      if before.Some? && hours.Some? {
        ClampRangesIdempotent(before.value, hours.value);
      }
    }
    DescendingUnique(ClampOverrides(once, week, getDay), once);
  }
}
