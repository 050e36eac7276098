/**
 The availability of an event with several hosts: TimeUtilService.intersectAvailability folded
 over the hosts in BookingsService.getHostAvailability.
 */
module HostAvailability {
  import opened Wrappers
  import opened TimeRanges
  import opened WeeklyAvailability
  import opened DateOverrides
  import opened OverrideClamp

  datatype Availability = Availability(availableTimes: Week, overrides: Overrides, timezone: string)

  /** The merged dates are clamped to the merged week; the first timezone is kept. */
  function IntersectAvailability(a: Availability, b: Availability, getDay: int -> int): Availability {
    var week := SharedWeek(a.availableTimes, b.availableTimes);
    var merged := MergeOverrides(a.overrides, b.overrides);
    Availability(week, ClampOverrides(merged, week, getDay), a.timezone)
  }

  /** The reduce over the first n hosts, which leaves a single host as it is. */
  function FoldFirst(hosts: seq<Availability>, n: nat, getDay: int -> int): Availability
    requires 1 <= n <= |hosts|
    decreases n
  {
    if n == 1 then hosts[0] else IntersectAvailability(FoldFirst(hosts, n - 1, getDay), hosts[n - 1], getDay)
  }

  function FoldHosts(hosts: seq<Availability>, getDay: int -> int): Availability
    requires hosts != []
  {
    FoldFirst(hosts, |hosts|, getDay)
  }

  function Weeks(hosts: seq<Availability>): (weeks: seq<Week>)
    ensures |weeks| == |hosts|
  {
    seq(|hosts|, i requires 0 <= i < |hosts| => hosts[i].availableTimes)
  }

  ghost predicate DatesDistinct(hosts: seq<Availability>) {
    forall i | 0 <= i < |hosts| :: DistinctDates(hosts[i].overrides)
  }

  lemma IntersectWeek(a: Availability, b: Availability, getDay: int -> int)
    ensures IntersectAvailability(a, b, getDay).availableTimes == SharedWeek(a.availableTimes, b.availableTimes)
  {
  }

  lemma {:induction false} FoldFirstWeek(hosts: seq<Availability>, n: nat, getDay: int -> int)
    requires 1 <= n <= |hosts|
    ensures FoldFirst(hosts, n, getDay).availableTimes == FoldWeeks(Weeks(hosts)[..n])
    decreases n
  {
    hide IntersectAvailability, FoldWeeks;
    if n == 1 {
      assert Weeks(hosts)[..1] == [hosts[0].availableTimes];
      FoldWeeksSingle(hosts[0].availableTimes);
    } else {
      FoldFirstWeek(hosts, n - 1, getDay);
      LastWeek(hosts, n, getDay);
    }
  }

  lemma LastWeek(hosts: seq<Availability>, n: nat, getDay: int -> int)
    requires 1 < n <= |hosts|
    requires FoldFirst(hosts, n - 1, getDay).availableTimes == FoldWeeks(Weeks(hosts)[..n - 1])
    ensures FoldFirst(hosts, n, getDay).availableTimes == FoldWeeks(Weeks(hosts)[..n])
  {
    hide IntersectAvailability, FoldWeeks;
    var front, week := Weeks(hosts)[..n - 1], hosts[n - 1].availableTimes;
    assert Weeks(hosts)[..n] == front + [week];
    IntersectWeek(FoldFirst(hosts, n - 1, getDay), hosts[n - 1], getDay);
    FoldWeeksAppend(front, week);
  }

  lemma FoldHostsWeek(hosts: seq<Availability>, getDay: int -> int)
    requires hosts != []
    ensures FoldHosts(hosts, getDay).availableTimes == FoldWeeks(Weeks(hosts))
  {
    FoldFirstWeek(hosts, |hosts|, getDay);
    assert Weeks(hosts)[..|hosts|] == Weeks(hosts);
  }

  /** The merged week is the same list in whatever order the hosts' availabilities are emitted. */
  lemma WeekOrderIndependent(hosts: seq<Availability>, emitted: seq<Availability>, getDay: int -> int)
    requires hosts != [] && multiset(hosts) == multiset(emitted)
    requires forall host | host in hosts :: WellFormed(host.availableTimes)
    ensures |emitted| == |hosts|
    ensures FoldHosts(hosts, getDay).availableTimes == FoldHosts(emitted, getDay).availableTimes
  {
    assert |multiset(hosts)| == |hosts| && |multiset(emitted)| == |emitted|;
    WeeksMultiset(hosts, emitted);
    FoldWeeksOrderIndependent(Weeks(hosts), Weeks(emitted));
    FoldHostsWeek(hosts, getDay);
    FoldHostsWeek(emitted, getDay);
  }

  lemma SplitMultiset<T>(s: seq<T>, i: nat)
    requires i < |s|
    ensures multiset(s) == multiset(s[..i] + s[i + 1..]) + multiset{s[i]}
  {
    assert s == s[..i] + ([s[i]] + s[i + 1..]);
  }

  lemma WeeksSplit(hosts: seq<Availability>, i: nat)
    requires i < |hosts|
    ensures multiset(hosts) == multiset(hosts[..i] + hosts[i + 1..]) + multiset{hosts[i]}
    ensures multiset(Weeks(hosts)) == multiset(Weeks(hosts[..i] + hosts[i + 1..])) + multiset{hosts[i].availableTimes}
  {
    SplitMultiset(hosts, i);
    SplitMultiset(Weeks(hosts), i);
    assert Weeks(hosts[..i] + hosts[i + 1..]) == Weeks(hosts)[..i] + Weeks(hosts)[i + 1..];
  }

  lemma {:induction false} WeeksMultiset(a: seq<Availability>, b: seq<Availability>)
    requires multiset(a) == multiset(b)
    ensures multiset(Weeks(a)) == multiset(Weeks(b))
  {
    if a == [] {
      assert |multiset(b)| == 0;
    } else {
      assert a[0] in multiset(b);
      var i :| 0 <= i < |b| && b[i] == a[0];
      WeeksSplit(a, 0);
      WeeksSplit(b, i);
      var restA, restB := a[..0] + a[0 + 1..], b[..i] + b[i + 1..];
      assert multiset(restA) == multiset(a) - multiset{a[0]};
      assert multiset(restB) == multiset(b) - multiset{a[0]};
      WeeksMultiset(restA, restB);
    }
  }

  // ---------------------------------------------------------------- one step of the fold

  lemma IntersectOverrideOn(a: Availability, b: Availability, getDay: int -> int, date: int)
    requires DistinctDates(a.overrides) && DistinctDates(b.overrides)
    ensures var merged := SharedOverride(OverrideOn(a.overrides, date), OverrideOn(b.overrides, date));
            var hours := HoursOn(IntersectAvailability(a, b, getDay).availableTimes, getDay(date));
            OverrideOn(IntersectAvailability(a, b, getDay).overrides, date) ==
            if merged.Some? && hours.Some? then Some(ClampRanges(merged.value, hours.value)) else None
  {
    MergeDescending(a.overrides, b.overrides);
    MergeMeaning(a.overrides, b.overrides, date);
    ClampLookup(MergeOverrides(a.overrides, b.overrides), SharedWeek(a.availableTimes, b.availableTimes), getDay, date);
  }

  lemma IntersectDistinct(a: Availability, b: Availability, getDay: int -> int)
    ensures DistinctDates(IntersectAvailability(a, b, getDay).overrides)
  {
    MergeDescending(a.overrides, b.overrides);
    ClampDescending(MergeOverrides(a.overrides, b.overrides), SharedWeek(a.availableTimes, b.availableTimes), getDay);
  }

  lemma FoldDistinct(hosts: seq<Availability>, n: nat, getDay: int -> int)
    requires 1 <= n <= |hosts| && DatesDistinct(hosts)
    ensures DistinctDates(FoldFirst(hosts, n, getDay).overrides)
  {
    if n > 1 {
      IntersectDistinct(FoldFirst(hosts, n - 1, getDay), hosts[n - 1], getDay);
    }
  }

  /** One of the first n hosts overrides the date. */
  ghost predicate SomeHostOverrides(hosts: seq<Availability>, n: nat, date: int)
    requires n <= |hosts|
  {
    exists i | 0 <= i < n :: OverrideOn(hosts[i].overrides, date).Some?
  }

  /**
   A date a host overrides is in the result unless its weekday has left the merged week.  A date
   dropped on the way cannot come back from a later host: its weekday stays absent.
   */
  lemma {:induction false} FoldDates(hosts: seq<Availability>, n: nat, getDay: int -> int, date: int)
    requires 1 <= n <= |hosts| && DatesDistinct(hosts)
    ensures var folded := FoldFirst(hosts, n, getDay);
            OverrideOn(folded.overrides, date).Some? <==>
            && SomeHostOverrides(hosts, n, date)
            && (n == 1 || HoursOn(folded.availableTimes, getDay(date)).Some?)
    decreases n
  {
    hide IntersectAvailability, RangesFor, HoursOn;
    if n > 1 {
      var before, host := FoldFirst(hosts, n - 1, getDay), hosts[n - 1];
      IntersectWeek(before, host, getDay);
      FoldDates(hosts, n - 1, getDay, date);
      FoldDistinct(hosts, n - 1, getDay);
      IntersectOverrideOn(before, host, getDay, date);
      SharedHoursOn(before.availableTimes, host.availableTimes, getDay(date));
    }
  }

  ghost predicate InsideOne(r: TimeRange, ranges: seq<TimeRange>) {
    exists q | q in ranges :: r.Within(q)
  }

  lemma StepInside(before: Option<seq<TimeRange>>, added: Option<seq<TimeRange>>, hours: seq<TimeRange>, r: TimeRange)
    requires SharedOverride(before, added).Some?
    requires r in ClampRanges(SharedOverride(before, added).value, hours)
    ensures before.Some? ==> InsideOne(r, before.value)
    ensures added.Some? ==> InsideOne(r, added.value)
  {
    var merged := SharedOverride(before, added).value;
    ClampRangesWithin(merged, hours, r);
    var m :| m in merged && r.Within(m);
    if before.Some? && added.Some? && before.value != [] && added.value != [] {
      SweepWithin(before.value, added.value);
      var x, y :| x in before.value && y in added.value && m == Meet(x, y);
      assert r.Within(x) && r.Within(y);
    }
  }

  /** One step of the fold keeps what it leaves inside both operands' overrides of the date. */
  lemma IntersectInside(a: Availability, b: Availability, getDay: int -> int, date: int, r: TimeRange)
    requires DistinctDates(a.overrides) && DistinctDates(b.overrides)
    requires OverrideOn(IntersectAvailability(a, b, getDay).overrides, date).Some?
    requires r in OverrideOn(IntersectAvailability(a, b, getDay).overrides, date).value
    ensures OverrideOn(a.overrides, date).Some? ==> InsideOne(r, OverrideOn(a.overrides, date).value)
    ensures OverrideOn(b.overrides, date).Some? ==> InsideOne(r, OverrideOn(b.overrides, date).value)
    ensures HoursOn(a.availableTimes, getDay(date)).Some?
  {
    IntersectOverrideOn(a, b, getDay, date);
    SharedHoursOn(a.availableTimes, b.availableTimes, getDay(date));
    var hours := HoursOn(IntersectAvailability(a, b, getDay).availableTimes, getDay(date));
    StepInside(OverrideOn(a.overrides, date), OverrideOn(b.overrides, date), hours.value, r);
  }

  lemma WithinTransitive(r: TimeRange, q: TimeRange, ranges: seq<TimeRange>)
    requires r.Within(q) && InsideOne(q, ranges)
    ensures InsideOne(r, ranges)
  {
    var p :| p in ranges && q.Within(p);
    assert r.Within(p);
  }

  /** What is left of a date after n hosts, or nothing. */
  function LeftOn(hosts: seq<Availability>, n: nat, getDay: int -> int, date: int): seq<TimeRange>
    requires 1 <= n <= |hosts|
  {
    var left := OverrideOn(FoldFirst(hosts, n, getDay).overrides, date);
    if left.Some? then left.value else []
  }

  /** The last step of the fold: inside the last host's range, and inside what was left before it. */
  lemma LastStepInside(hosts: seq<Availability>, n: nat, getDay: int -> int, date: int, r: TimeRange)
    requires 1 < n <= |hosts| && DatesDistinct(hosts)
    requires r in LeftOn(hosts, n, getDay, date)
    ensures OverrideOn(hosts[n - 1].overrides, date).Some?
            ==> InsideOne(r, OverrideOn(hosts[n - 1].overrides, date).value)
    ensures SomeHostOverrides(hosts, n - 1, date) ==> InsideOne(r, LeftOn(hosts, n - 1, getDay, date))
  {
    FoldDistinct(hosts, n - 1, getDay);
    IntersectInside(FoldFirst(hosts, n - 1, getDay), hosts[n - 1], getDay, date, r);
    FoldDates(hosts, n - 1, getDay, date);
  }

  /**
   Every range left on a date lies inside a single override range of every host that overrides
   that date, whatever the hosts' ranges look like.
   */
  lemma {:induction false} FoldInsideEveryHost(
      hosts: seq<Availability>, n: nat, getDay: int -> int, date: int, r: TimeRange, i: nat)
    requires i < n <= |hosts| && DatesDistinct(hosts)
    requires r in LeftOn(hosts, n, getDay, date)
    requires OverrideOn(hosts[i].overrides, date).Some?
    ensures InsideOne(r, OverrideOn(hosts[i].overrides, date).value)
    decreases n
  {
    hide IntersectAvailability, RangesFor;
    if n == 1 {
      assert r.Within(r);
    } else {
      LastStepInside(hosts, n, getDay, date, r);
      if i < n - 1 {
        var q :| q in LeftOn(hosts, n - 1, getDay, date) && r.Within(q);
        FoldInsideEveryHost(hosts, n - 1, getDay, date, q, i);
        WithinTransitive(r, q, OverrideOn(hosts[i].overrides, date).value);
      }
    }
  }

  /** A date one host closes is never reopened by the others. */
  lemma ClosedStaysClosed(hosts: seq<Availability>, getDay: int -> int, date: int, i: nat)
    requires i < |hosts| && DatesDistinct(hosts)
    requires OverrideOn(hosts[i].overrides, date) == Some([])
    ensures LeftOn(hosts, |hosts|, getDay, date) == []
  {
    var left := LeftOn(hosts, |hosts|, getDay, date);
    if left != [] {
      FoldInsideEveryHost(hosts, |hosts|, getDay, date, left[0], i);
      assert false;
    }
  }

  // ---------------------------------------------------------------- the weekly hours

  lemma SweptInside(a: seq<TimeRange>, b: seq<TimeRange>, h: TimeRange)
    requires h in Sweep(a, b)
    ensures InsideOne(h, a) && InsideOne(h, b)
  {
    SweepWithin(a, b);
    var x, y :| x in a && y in b && h == Meet(x, y);
    assert h.Within(x) && h.Within(y);
  }

  /** The hours of a weekday in a host's week, or none. */
  function WorkOn(host: Availability, day: int): seq<TimeRange> {
    var hours := HoursOn(host.availableTimes, day);
    if hours.Some? then hours.value else []
  }

  lemma LastWeekInside(a: Availability, b: Availability, getDay: int -> int, day: int, h: TimeRange)
    requires h in WorkOn(IntersectAvailability(a, b, getDay), day)
    ensures InsideOne(h, WorkOn(a, day)) && InsideOne(h, WorkOn(b, day))
  {
    IntersectWeek(a, b, getDay);
    SharedHoursOn(a.availableTimes, b.availableTimes, day);
    hide HoursOn, SharedWeek, IntersectAvailability, Sweep, InsideOne;
    SweptInside(WorkOn(a, day), WorkOn(b, day), h);
  }

  /** Every merged hour lies inside one of the hours of every host, whatever the hosts' ranges look like. */
  lemma {:induction false} WeekInsideEveryHost(
      hosts: seq<Availability>, n: nat, getDay: int -> int, day: int, h: TimeRange, i: nat)
    requires i < n <= |hosts| && h in WorkOn(FoldFirst(hosts, n, getDay), day)
    ensures InsideOne(h, WorkOn(hosts[i], day))
    decreases n
  {
    hide IntersectAvailability, WorkOn;
    if n == 1 {
      assert h.Within(h);
      return;
    }
    LastWeekInside(FoldFirst(hosts, n - 1, getDay), hosts[n - 1], getDay, day, h);
    if i < n - 1 {
      var x :| x in WorkOn(FoldFirst(hosts, n - 1, getDay), day) && h.Within(x);
      WeekInsideEveryHost(hosts, n - 1, getDay, day, x, i);
      WithinTransitive(h, x, WorkOn(hosts[i], day));
    }
  }

  /** What is left of a date lies inside every merged hour of its weekday. */
  lemma LeftWithinHours(hosts: seq<Availability>, n: nat, getDay: int -> int, date: int, r: TimeRange)
    requires 1 < n <= |hosts| && DatesDistinct(hosts)
    requires r in LeftOn(hosts, n, getDay, date)
    ensures var hours := HoursOn(FoldFirst(hosts, n, getDay).availableTimes, getDay(date));
            hours.Some? && WithinAll(r, hours.value)
  {
    var before, host := FoldFirst(hosts, n - 1, getDay), hosts[n - 1];
    FoldDistinct(hosts, n - 1, getDay);
    IntersectOverrideOn(before, host, getDay, date);
    var merged := SharedOverride(OverrideOn(before.overrides, date), OverrideOn(host.overrides, date));
    var hours := HoursOn(FoldFirst(hosts, n, getDay).availableTimes, getDay(date));
    ClampRangesWithin(merged.value, hours.value, r);
    hide IntersectAvailability, HoursOn, RangesFor, ClampRanges;
  }

  /**
   With two or more hosts who have any common hours on the weekday, every range left on a date lies inside one weekly
   range of every host, whether or not that host overrides the date.
   */
  lemma FoldInsideEveryWeek(hosts: seq<Availability>, n: nat, getDay: int -> int, date: int, r: TimeRange, i: nat)
    requires i < n <= |hosts| && 1 < n && DatesDistinct(hosts)
    requires r in LeftOn(hosts, n, getDay, date)
    requires HoursOn(FoldFirst(hosts, n, getDay).availableTimes, getDay(date)) != Some([])
    ensures InsideOne(r, WorkOn(hosts[i], getDay(date)))
  {
    LeftWithinHours(hosts, n, getDay, date, r);
    var hours := HoursOn(FoldFirst(hosts, n, getDay).availableTimes, getDay(date)).value;
    var h := hours[0];
    assert h in hours && r.Within(h);
    hide FoldFirst, HoursOn, LeftOn;
    WeekInsideEveryHost(hosts, n, getDay, getDay(date), h, i);
    WithinTransitive(r, h, WorkOn(hosts[i], getDay(date)));
  }

  ghost predicate AllWeeksWellFormed(hosts: seq<Availability>) {
    forall i | 0 <= i < |hosts| :: WellFormed(hosts[i].availableTimes)
  }

  lemma WorkOrdered(host: Availability, day: int)
    requires WellFormed(host.availableTimes)
    ensures Ordered(WorkOn(host, day))
  {
    if HoursOn(host.availableTimes, day).Some? {
      HoursAreOrdered(host.availableTimes, day);
    }
  }

  lemma {:induction false} FoldWellFormed(hosts: seq<Availability>, n: nat, getDay: int -> int)
    requires 1 <= n <= |hosts| && AllWeeksWellFormed(hosts)
    ensures WellFormed(FoldFirst(hosts, n, getDay).availableTimes)
    decreases n
  {
    hide IntersectAvailability, WellFormed;
    if n > 1 {
      var before := FoldFirst(hosts, n - 1, getDay);
      FoldWellFormed(hosts, n - 1, getDay);
      IntersectWeek(before, hosts[n - 1], getDay);
      SharedFromWellFormed(before.availableTimes, hosts[n - 1].availableTimes, FIRST_WEEKDAY);
    }
  }

  /** A range that takes time and lies inside a range of each list lies inside one of their sweep. */
  lemma InsideSwept(a: seq<TimeRange>, b: seq<TimeRange>, r: TimeRange)
    requires Ordered(a) && Ordered(b) && r.NonEmpty()
    requires InsideOne(r, a) && InsideOne(r, b)
    ensures InsideOne(r, Sweep(a, b))
  {
    var x :| x in a && r.Within(x);
    var y :| y in b && r.Within(y);
    assert Meet(x, y).NonEmpty() && r.Within(Meet(x, y));
    SweepComplete(a, b, x, y);
  }

  lemma InsideBothInsideMerged(a: Availability, b: Availability, getDay: int -> int, day: int, r: TimeRange)
    requires WellFormed(a.availableTimes) && WellFormed(b.availableTimes)
    requires 0 <= day < DAYS_OF_WEEK && r.NonEmpty()
    requires InsideOne(r, WorkOn(a, day)) && InsideOne(r, WorkOn(b, day))
    ensures InsideOne(r, WorkOn(IntersectAvailability(a, b, getDay), day))
  {
    WorkOrdered(a, day);
    WorkOrdered(b, day);
    InsideSwept(WorkOn(a, day), WorkOn(b, day), r);
    IntersectWeek(a, b, getDay);
    SharedHoursOn(a.availableTimes, b.availableTimes, day);
    hide HoursOn, SharedWeek, IntersectAvailability, Sweep, Ordered;
  }

  /** Inside the hours of every host is inside the merged hours. */
  lemma {:induction false} InsideAllInsideMerged(
      hosts: seq<Availability>, n: nat, getDay: int -> int, day: int, r: TimeRange)
    requires 1 <= n <= |hosts| && AllWeeksWellFormed(hosts)
    requires 0 <= day < DAYS_OF_WEEK && r.NonEmpty()
    requires forall i | 0 <= i < n :: InsideOne(r, WorkOn(hosts[i], day))
    ensures InsideOne(r, WorkOn(FoldFirst(hosts, n, getDay), day))
    decreases n
  {
    hide IntersectAvailability, WorkOn, InsideOne, WellFormed;
    if n > 1 {
      InsideAllInsideMerged(hosts, n - 1, getDay, day, r);
      FoldWellFormed(hosts, n - 1, getDay);
      InsideBothInsideMerged(FoldFirst(hosts, n - 1, getDay), hosts[n - 1], getDay, day, r);
    }
  }

  /** Dates with something left are on a weekday of the merged week. */
  lemma LeftOnWeekday(hosts: seq<Availability>, n: nat, getDay: int -> int, date: int, r: TimeRange)
    requires 1 < n <= |hosts| && DatesDistinct(hosts)
    requires r in LeftOn(hosts, n, getDay, date)
    ensures HoursOn(FoldFirst(hosts, n, getDay).availableTimes, getDay(date)).Some?
    ensures 0 <= getDay(date) < DAYS_OF_WEEK
  {
    LeftWithinHours(hosts, n, getDay, date, r);
    var before, host := FoldFirst(hosts, n - 1, getDay), hosts[n - 1];
    IntersectWeek(before, host, getDay);
    SharedHoursOn(before.availableTimes, host.availableTimes, getDay(date));
    hide IntersectAvailability, HoursOn, SharedWeek;
  }

  /**
   What is left of a date with two or more hosts suits the weekly hours of all of them exactly when they have any common
   hours on the weekday: without them the clamp has nothing to narrow by.
   */
  lemma SuitsEveryWeekIff(hosts: seq<Availability>, n: nat, getDay: int -> int, date: int, r: TimeRange)
    requires 1 < n <= |hosts| && DatesDistinct(hosts) && AllWeeksWellFormed(hosts)
    requires r in LeftOn(hosts, n, getDay, date) && r.NonEmpty()
    ensures (forall i | 0 <= i < n :: InsideOne(r, WorkOn(hosts[i], getDay(date)))) <==>
            HoursOn(FoldFirst(hosts, n, getDay).availableTimes, getDay(date)) != Some([])
  {
    var day := getDay(date);
    if HoursOn(FoldFirst(hosts, n, getDay).availableTimes, day) != Some([]) {
      forall i | 0 <= i < n ensures InsideOne(r, WorkOn(hosts[i], day)) {
        FoldInsideEveryWeek(hosts, n, getDay, date, r, i);
      }
    } else if forall i | 0 <= i < n :: InsideOne(r, WorkOn(hosts[i], day)) {
      LeftOnWeekday(hosts, n, getDay, date, r);
      InsideAllInsideMerged(hosts, n, getDay, day, r);
    }
    hide FoldFirst, HoursOn, LeftOn;
  }

  /** Without common hours a sole override of two hosts is offered whole. */
  lemma NoCommonHoursOfferWhole(a: Availability, b: Availability, getDay: int -> int, date: int)
    requires DistinctDates(a.overrides) && DistinctDates(b.overrides)
    requires HoursOn(SharedWeek(a.availableTimes, b.availableTimes), getDay(date)) == Some([])
    requires OverrideOn(a.overrides, date).None? != OverrideOn(b.overrides, date).None?
    requires var sole := SharedOverride(OverrideOn(a.overrides, date), OverrideOn(b.overrides, date)).value;
             forall r | r in sole :: r.Start() <= r.End()
    ensures OverrideOn(IntersectAvailability(a, b, getDay).overrides, date) ==
            if OverrideOn(a.overrides, date).Some? then OverrideOn(a.overrides, date) else OverrideOn(b.overrides, date)
  {
    IntersectOverrideOn(a, b, getDay, date);
    IntersectWeek(a, b, getDay);
    ClampToNothing(SharedOverride(OverrideOn(a.overrides, date), OverrideOn(b.overrides, date)).value);
    hide RangesFor, HoursOn, ClampRanges, SharedWeek, IntersectAvailability;
  }

  /**
   The failing case: two hosts who both work the weekday, but have no common hours, and of whom one overrides the date.
   Every range of the override is offered, and lies outside the hours of one of the two.
   */
  lemma NoCommonHoursLeaveAWeek(
      a: Availability, b: Availability, getDay: int -> int, date: int, sole: seq<TimeRange>, r: TimeRange)
    requires DistinctDates(a.overrides) && DistinctDates(b.overrides)
    requires WellFormed(a.availableTimes) && WellFormed(b.availableTimes)
    requires HoursOn(SharedWeek(a.availableTimes, b.availableTimes), getDay(date)) == Some([])
    requires OverrideOn(a.overrides, date).None? != OverrideOn(b.overrides, date).None?
    requires SharedOverride(OverrideOn(a.overrides, date), OverrideOn(b.overrides, date)) == Some(sole)
    requires r in sole && forall x | x in sole :: x.NonEmpty()
    ensures r in LeftOn([a, b], 2, getDay, date)
    ensures !InsideOne(r, WorkOn(a, getDay(date))) || !InsideOne(r, WorkOn(b, getDay(date)))
  {
    hide IntersectAvailability, FoldFirst, HoursOn, OverrideOn, InsideOne, WorkOn, SharedWeek, SharedOverride, LeftOn;
    SoleIsLeft(a, b, getDay, date, sole);
    NoCommonHours(a, b, getDay, getDay(date));
    BothAreSound(a, b);
    hide DistinctDates, WellFormed, DatesDistinct, AllWeeksWellFormed;
    SuitsEveryWeekIff([a, b], 2, getDay, date, r);
    BothIffAll(a, b, getDay(date), r);
  }

  lemma NoCommonHours(a: Availability, b: Availability, getDay: int -> int, day: int)
    requires HoursOn(SharedWeek(a.availableTimes, b.availableTimes), day) == Some([])
    ensures HoursOn(FoldFirst([a, b], 2, getDay).availableTimes, day) == Some([])
  {
    hide IntersectAvailability, FoldFirst, HoursOn, SharedWeek;
    TwoHosts(a, b, getDay);
    IntersectWeek(a, b, getDay);
  }

  lemma BothAreSound(a: Availability, b: Availability)
    requires DistinctDates(a.overrides) && DistinctDates(b.overrides)
    requires WellFormed(a.availableTimes) && WellFormed(b.availableTimes)
    ensures DatesDistinct([a, b]) && AllWeeksWellFormed([a, b])
  {
    hide DistinctDates, WellFormed;
  }

  lemma SoleIsLeft(a: Availability, b: Availability, getDay: int -> int, date: int, sole: seq<TimeRange>)
    requires DistinctDates(a.overrides) && DistinctDates(b.overrides)
    requires HoursOn(SharedWeek(a.availableTimes, b.availableTimes), getDay(date)) == Some([])
    requires OverrideOn(a.overrides, date).None? != OverrideOn(b.overrides, date).None?
    requires SharedOverride(OverrideOn(a.overrides, date), OverrideOn(b.overrides, date)) == Some(sole)
    requires forall x | x in sole :: x.NonEmpty()
    ensures LeftOn([a, b], 2, getDay, date) == sole
  {
    NoCommonHoursOfferWhole(a, b, getDay, date);
    TwoHosts(a, b, getDay);
    hide IntersectAvailability, FoldFirst, HoursOn, RangesFor, SharedWeek;
  }

  lemma BothIffAll(a: Availability, b: Availability, day: int, r: TimeRange)
    ensures InsideOne(r, WorkOn(a, day)) && InsideOne(r, WorkOn(b, day)) <==>
            forall i | 0 <= i < 2 :: InsideOne(r, WorkOn([a, b][i], day))
  {
    hide InsideOne, WorkOn;
    assert [a, b][0] == a && [a, b][1] == b;
  }

  lemma TwoHosts(a: Availability, b: Availability, getDay: int -> int)
    ensures FoldFirst([a, b], 2, getDay) == IntersectAvailability(a, b, getDay)
  {
    assert FoldFirst([a, b], 1, getDay) == a;
    hide IntersectAvailability;
  }

  /** The time zone of the result is that of the first host, and a single host is left as it is. */
  lemma {:induction false} FoldTimezone(hosts: seq<Availability>, n: nat, getDay: int -> int)
    requires 1 <= n <= |hosts|
    ensures FoldFirst(hosts, n, getDay).timezone == hosts[0].timezone
    ensures n == 1 ==> FoldFirst(hosts, n, getDay) == hosts[0]
    decreases n
  {
    hide SharedWeek, MergeOverrides, ClampOverrides;
    if n > 1 {
      FoldTimezone(hosts, n - 1, getDay);
    }
  }
}
