/**
 The weekly hours of several hosts merged day by day (TimeUtilService.intersectAvailableTimes,
 folded over hosts by BookingsService.getHostAvailability).
 */
module WeeklyAvailability {
  import opened Wrappers
  import opened TimeRanges

  datatype AvailableTime = AvailableTime(day: int, timeRanges: seq<TimeRange>)

  type Week = seq<AvailableTime>

  /** The ranges of the first entry for the day, as Array.prototype.find picks it. */
  function HoursOn(week: Week, day: int): Option<seq<TimeRange>> {
    if week == [] then None
    else if week[0].day == day then Some(week[0].timeRanges)
    else HoursOn(week[1..], day)
  }

  /** Weekdays are numbered 0 (Sunday) to 6. */
  const FIRST_WEEKDAY: nat := 0
  const DAYS_OF_WEEK: nat := 7

  ghost predicate WellFormed(week: Week) {
    forall entry | entry in week :: Ordered(entry.timeRanges)
  }

  /** The hours two hosts share on one day; absent unless both work that day. */
  function SharedHours(a: Option<seq<TimeRange>>, b: Option<seq<TimeRange>>): Option<seq<TimeRange>> {
    if a.Some? && b.Some? then Some(Sweep(a.value, b.value)) else None
  }

  /** The shared week from a day on. */
  function SharedFrom(a: Week, b: Week, day: nat): Week
    decreases DAYS_OF_WEEK - day
  {
    if day >= DAYS_OF_WEEK then []
    else
      var hours := SharedHours(HoursOn(a, day), HoursOn(b, day));
      (if hours.Some? then [AvailableTime(day, hours.value)] else []) + SharedFrom(a, b, day + 1)
  }

  function SharedWeek(a: Week, b: Week): Week {
    SharedFrom(a, b, FIRST_WEEKDAY)
  }

  method IntersectAvailableTimes(availableTimesA: Week, availableTimesB: Week) returns (intersected: Week)
    ensures intersected == SharedWeek(availableTimesA, availableTimesB)
  {
    hide HoursOn, SharedFrom;
    intersected := [];
    for weekday := FIRST_WEEKDAY to DAYS_OF_WEEK
      invariant intersected + SharedFrom(availableTimesA, availableTimesB, weekday)
             == SharedWeek(availableTimesA, availableTimesB)
    {
      SharedStep(availableTimesA, availableTimesB, weekday, intersected);
      var forA := HoursOn(availableTimesA, weekday);
      var forB := HoursOn(availableTimesB, weekday);
      if forA.Some? && forB.Some? {
        var timeRanges := IntersectTimeRanges(forA.value, forB.value);
        intersected := intersected + [AvailableTime(weekday, timeRanges)];
      }
    }
    SharedFromEnd(availableTimesA, availableTimesB);
    assert intersected + [] == intersected;
  }

  lemma SharedFromEnd(a: Week, b: Week)
    ensures SharedFrom(a, b, DAYS_OF_WEEK) == []
  {
  }

  /** One turn of the loop adds the day's shared hours, if both hosts work that day. */
  lemma SharedStep(a: Week, b: Week, day: nat, done: Week)
    requires day < DAYS_OF_WEEK
    ensures var hours := SharedHours(HoursOn(a, day), HoursOn(b, day));
            done + SharedFrom(a, b, day) ==
            (if hours.Some? then done + [AvailableTime(day, hours.value)] else done) + SharedFrom(a, b, day + 1)
  {
    var hours := SharedHours(HoursOn(a, day), HoursOn(b, day));
    var step := if hours.Some? then [AvailableTime(day, hours.value)] else [];
    Associate(done, step, SharedFrom(a, b, day + 1));
  }

  // ---------------------------------------------------------------- one merge

  lemma {:induction false} HoursAreOrdered(week: Week, day: int)
    requires WellFormed(week) && HoursOn(week, day).Some?
    ensures Ordered(HoursOn(week, day).value)
  {
    if week[0].day == day {
      assert week[0] in week;
    } else {
      HoursAreOrdered(week[1..], day);
    }
  }

  lemma HoursOnCons(entry: AvailableTime, rest: Week, day: int)
    ensures HoursOn([entry] + rest, day) == if entry.day == day then Some(entry.timeRanges) else HoursOn(rest, day)
  {
    assert ([entry] + rest)[1..] == rest;
  }

  lemma {:induction false} SharedFromHours(a: Week, b: Week, from: nat, day: int)
    ensures HoursOn(SharedFrom(a, b, from), day) ==
            if from <= day < DAYS_OF_WEEK then SharedHours(HoursOn(a, day), HoursOn(b, day)) else None
    decreases DAYS_OF_WEEK - from
  {
    if from < DAYS_OF_WEEK {
      SharedFromHours(a, b, from + 1, day);
      var rest := SharedFrom(a, b, from + 1);
      var hours := SharedHours(HoursOn(a, from), HoursOn(b, from));
      if hours.Some? {
        HoursOnCons(AvailableTime(from, hours.value), rest, day);
      } else {
        assert SharedFrom(a, b, from) == rest;
      }
    }
  }

  lemma SharedHoursOn(a: Week, b: Week, day: int)
    ensures HoursOn(SharedWeek(a, b), day) ==
            if 0 <= day < DAYS_OF_WEEK then SharedHours(HoursOn(a, day), HoursOn(b, day)) else None
  {
    SharedFromHours(a, b, FIRST_WEEKDAY, day);
  }

  lemma {:induction false} SharedFromWellFormed(a: Week, b: Week, from: nat)
    requires WellFormed(a) && WellFormed(b)
    ensures WellFormed(SharedFrom(a, b, from))
    decreases DAYS_OF_WEEK - from
  {
    if from < DAYS_OF_WEEK {
      SharedFromWellFormed(a, b, from + 1);
      var hoursA, hoursB := HoursOn(a, from), HoursOn(b, from);
      if hoursA.Some? && hoursB.Some? {
        HoursAreOrdered(a, from);
        HoursAreOrdered(b, from);
        SweepOrdered(hoursA.value, hoursB.value);
      }
      hide HoursOn, Sweep, Ordered;
    }
  }

  /** The shared week depends on nothing but the hours of each day. */
  lemma {:induction false} SameHoursSameWeek(a: Week, b: Week, c: Week, d: Week, from: nat)
    requires forall day | from <= day < DAYS_OF_WEEK ::
               SharedHours(HoursOn(a, day), HoursOn(b, day)) == SharedHours(HoursOn(c, day), HoursOn(d, day))
    ensures SharedFrom(a, b, from) == SharedFrom(c, d, from)
    decreases DAYS_OF_WEEK - from
  {
    if from < DAYS_OF_WEEK {
      SameHoursSameWeek(a, b, c, d, from + 1);
    }
  }

  lemma SharedWeekCommutes(a: Week, b: Week)
    requires WellFormed(a) && WellFormed(b)
    ensures SharedWeek(a, b) == SharedWeek(b, a)
  {
    forall day | 0 <= day < DAYS_OF_WEEK
      ensures SharedHours(HoursOn(a, day), HoursOn(b, day)) == SharedHours(HoursOn(b, day), HoursOn(a, day))
    {
      var hoursA, hoursB := HoursOn(a, day), HoursOn(b, day);
      if hoursA.Some? && hoursB.Some? {
        HoursAreOrdered(a, day);
        HoursAreOrdered(b, day);
        SweepCommutes(hoursA.value, hoursB.value);
      }
    }
    SameHoursSameWeek(a, b, b, a, FIRST_WEEKDAY);
  }

  lemma SharedWeekAssociates(a: Week, b: Week, c: Week)
    requires WellFormed(a) && WellFormed(b) && WellFormed(c)
    ensures SharedWeek(SharedWeek(a, b), c) == SharedWeek(a, SharedWeek(b, c))
  {
    var ab, bc := SharedWeek(a, b), SharedWeek(b, c);
    forall day | 0 <= day < DAYS_OF_WEEK
      ensures SharedHours(HoursOn(ab, day), HoursOn(c, day)) == SharedHours(HoursOn(a, day), HoursOn(bc, day))
    {
      SharedHoursOn(a, b, day);
      SharedHoursOn(b, c, day);
      var hoursA, hoursB, hoursC := HoursOn(a, day), HoursOn(b, day), HoursOn(c, day);
      if hoursA.Some? && hoursB.Some? && hoursC.Some? {
        HoursAreOrdered(a, day);
        HoursAreOrdered(b, day);
        HoursAreOrdered(c, day);
        SweepAssociates(hoursA.value, hoursB.value, hoursC.value);
      }
    }
    SameHoursSameWeek(ab, c, a, bc, FIRST_WEEKDAY);
  }

  // ---------------------------------------------------------------- the fold over hosts

  /** The weekly part of the reduce: a single host keeps its own list. */
  function FoldWeeks(weeks: seq<Week>): Week
    requires weeks != []
  {
    var last := |weeks| - 1;
    if last == 0 then weeks[0] else SharedWeek(FoldWeeks(weeks[..last]), weeks[last])
  }

  ghost predicate AllWellFormed(weeks: seq<Week>) {
    forall week | week in weeks :: WellFormed(week)
  }

  lemma {:induction false} FoldWeeksWellFormed(weeks: seq<Week>)
    requires weeks != [] && AllWellFormed(weeks)
    ensures WellFormed(FoldWeeks(weeks))
  {
    var last := |weeks| - 1;
    assert weeks[last] in weeks;
    if last > 0 {
      FoldWeeksWellFormed(weeks[..last]);
      SharedFromWellFormed(FoldWeeks(weeks[..last]), weeks[last], FIRST_WEEKDAY);
    }
  }

  ghost predicate AllWork(weeks: seq<Week>, day: int) {
    forall week | week in weeks :: HoursOn(week, day).Some?
  }

  ghost predicate FreeOn(week: Week, day: int, minute: int) {
    HoursOn(week, day).Some? && Free(HoursOn(week, day).value, minute)
  }

  /** A weekday is offered exactly when every host works it, a minute exactly when every host is free. */
  lemma {:induction false} FoldWeeksMeaning(weeks: seq<Week>, day: int, minute: int)
    requires weeks != [] && AllWellFormed(weeks) && 0 <= day < DAYS_OF_WEEK
    ensures HoursOn(FoldWeeks(weeks), day).Some? <==> AllWork(weeks, day)
    ensures FreeOn(FoldWeeks(weeks), day, minute) <==> forall week | week in weeks :: FreeOn(week, day, minute)
  {
    var last := |weeks| - 1;
    var front, week := weeks[..last], weeks[last];
    assert weeks == front + [week];
    if last == 0 {
      assert weeks == [week];
    } else {
      FoldWeeksMeaning(front, day, minute);
      SharedHoursOn(FoldWeeks(front), week, day);
      FoldWeeksWellFormed(front);
      if HoursOn(FoldWeeks(front), day).Some? && HoursOn(week, day).Some? {
        HoursAreOrdered(FoldWeeks(front), day);
        HoursAreOrdered(week, day);
        SweepFree(HoursOn(FoldWeeks(front), day).value, HoursOn(week, day).value, minute);
      }
    }
  }

  lemma SharedWeekExchange(a: Week, b: Week, c: Week)
    requires WellFormed(a) && WellFormed(b) && WellFormed(c)
    ensures SharedWeek(SharedWeek(a, b), c) == SharedWeek(SharedWeek(a, c), b)
  {
    SharedWeekAssociates(a, b, c);
    SharedWeekCommutes(b, c);
    SharedWeekAssociates(a, c, b);
  }

  lemma FoldWeeksSingle(week: Week)
    ensures FoldWeeks([week]) == week
  {
  }

  lemma FoldWeeksAppend(front: seq<Week>, week: Week)
    requires front != []
    ensures FoldWeeks(front + [week]) == SharedWeek(FoldWeeks(front), week)
  {
    assert (front + [week])[..|front|] == front;
  }

  /** The last host, taken with a host before the ones in between. */
  lemma FoldWeeksExchange(before: seq<Week>, week: Week, inner: seq<Week>, end: Week)
    requires before + inner != [] && AllWellFormed(before + inner) && WellFormed(week) && WellFormed(end)
    requires FoldWeeks(before + [week] + inner) == SharedWeek(FoldWeeks(before + inner), week)
    ensures FoldWeeks(before + [week] + inner + [end]) == SharedWeek(FoldWeeks(before + inner + [end]), week)
  {
    FoldWeeksAppend(before + [week] + inner, end);
    FoldWeeksAppend(before + inner, end);
    FoldWeeksWellFormed(before + inner);
    SharedWeekExchange(FoldWeeks(before + inner), week, end);
    hide FoldWeeks, SharedWeek;
  }

  /** Any host may be taken last. */
  lemma {:induction false} FoldWeeksMoveLast(before: seq<Week>, week: Week, after: seq<Week>)
    requires before + after != [] && AllWellFormed(before) && WellFormed(week) && AllWellFormed(after)
    ensures FoldWeeks(before + [week] + after) == SharedWeek(FoldWeeks(before + after), week)
    decreases |after|
  {
    hide FoldWeeks, SharedWeek;
    if after == [] {
      assert before + [week] + after == before + [week] && before + after == before;
      FoldWeeksAppend(before, week);
    } else {
      var inner, end := after[..|after| - 1], after[|after| - 1];
      assert before + [week] + after == before + [week] + inner + [end];
      assert before + after == before + inner + [end];
      if before + inner == [] {
        assert before + [week] + inner == [week] && before + after == [end];
        FoldWeeksAppend([week], end);
        FoldWeeksSingle(week);
        FoldWeeksSingle(end);
        SharedWeekCommutes(week, end);
      } else {
        FoldWeeksMoveLast(before, week, inner);
        FoldWeeksExchange(before, week, inner, end);
      }
    }
  }

  lemma WithoutOne<T>(a: seq<T>, i: nat, b: seq<T>)
    requires i < |a| && b != [] && a[i] == b[|b| - 1] && multiset(a) == multiset(b)
    ensures a == a[..i] + [a[i]] + a[i + 1..] && b == b[..|b| - 1] + [a[i]]
    ensures multiset(a[..i] + a[i + 1..]) == multiset(b[..|b| - 1])
  {
    assert a == a[..i] + [a[i]] + a[i + 1..];
    assert b == b[..|b| - 1] + [a[i]];
    assert multiset(a[..i] + a[i + 1..]) == multiset(a) - multiset{a[i]};
  }

  /** Whatever order the hosts arrive in, the merged week is the same list. */
  lemma {:induction false} FoldWeeksOrderIndependent(weeks: seq<Week>, arrived: seq<Week>)
    requires weeks != [] && AllWellFormed(weeks)
    requires multiset(weeks) == multiset(arrived)
    ensures |arrived| == |weeks|
    ensures FoldWeeks(weeks) == FoldWeeks(arrived)
  {
    hide FoldWeeks, SharedWeek, WellFormed;
    assert |multiset(weeks)| == |weeks| && |multiset(arrived)| == |arrived|;
    var last := |arrived| - 1;
    var week := arrived[last];
    assert week in multiset(weeks);
    var i :| 0 <= i < |weeks| && weeks[i] == week;
    WithoutOne(weeks, i, arrived);
    if last == 0 {
      assert weeks == [week];
    } else {
      FoldWeeksMoveLast(weeks[..i], week, weeks[i + 1..]);
      FoldWeeksAppend(arrived[..last], week);
      FoldWeeksOrderIndependent(weeks[..i] + weeks[i + 1..], arrived[..last]);
    }
  }

  /** The hours of a day are those of the first entry for it. */
  lemma {:induction false} HoursOnFirst(week: Week, day: int, i: nat)
    requires i < |week| && week[i].day == day && forall j | 0 <= j < i :: week[j].day != day
    ensures HoursOn(week, day) == Some(week[i].timeRanges)
    decreases i
  {
    if i > 0 {
      assert week[0].day != day;
      assert forall j | 0 <= j < i - 1 :: week[1..][j] == week[j + 1];
      HoursOnFirst(week[1..], day, i - 1);
    }
  }

  lemma {:induction false} NoHoursOn(week: Week, day: int)
    requires forall entry | entry in week :: entry.day != day
    ensures HoursOn(week, day) == None
  {
    if week != [] {
      assert week[0] in week;
      NoHoursOn(week[1..], day);
    }
  }
}
