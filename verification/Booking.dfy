/**
 Booking admission: GlobalScheduledEventsService.validate, its conflict filter, and the save
 that follows.  Instants are whole seconds.
 */
module Booking {
  import opened Wrappers
  import opened TimeRanges
  import opened WeeklyAvailability
  import opened DateOverrides
  import opened HostAvailability

  /** A stored booking or a request for one; the buffers may be absent. */
  datatype ScheduledEvent = ScheduledEvent(
    eventId: int, startTimestamp: int, endTimestamp: int,
    startBufferTimestamp: Option<int>, endBufferTimestamp: Option<int>)
  {
    /** The instants that are checked: a buffer where there is one, else the meeting's own. */
    function CheckedStart(): int {
      if startBufferTimestamp.Some? then startBufferTimestamp.value else startTimestamp
    }

    function CheckedEnd(): int {
      if endBufferTimestamp.Some? then endBufferTimestamp.value else endTimestamp
    }

    /** The meeting takes time, and the buffers enclose it. */
    predicate WellFormed() {
      CheckedStart() <= startTimestamp < endTimestamp <= CheckedEnd()
    }
  }

  // ---------------------------------------------------------------- the conflict filter

  /** Date.getSeconds. */
  function GetSeconds(t: int): int { t % 60 }

  /** Date.setSeconds, which carries seconds below 0 or above 59 into the minutes. */
  function SetSeconds(t: int, seconds: int): int { t - t % 60 + seconds }

  datatype Window = Window(start: int, end: int) {
    predicate Has(t: int) { start <= t <= end }
  }

  /** _getScheduleConflictCheckOptions: the end is set from the start that was already moved. */
  method ConflictCheckWindow(startDateTime: int, endDateTime: int) returns (window: Window)
    ensures window == ConflictWindow(startDateTime, endDateTime)
  {
    var shiftedStart, shiftedEnd := startDateTime, endDateTime;
    shiftedStart := SetSeconds(shiftedStart, GetSeconds(shiftedStart) + 1);
    shiftedEnd := SetSeconds(shiftedEnd, GetSeconds(shiftedStart) - 1);
    window := Window(shiftedStart, shiftedEnd);
  }

  /** One second after the start, to the end with its seconds replaced by those of the start. */
  function ConflictWindow(start: int, end: int): (window: Window)
    ensures window.start == start + 1
  {
    Window(start + 1, end - end % 60 + (start + 1) % 60 - 1)
  }

  /** The four clauses on the stored meeting. */
  predicate MeetingClauses(w: Window, s: ScheduledEvent) {
    || (w.start <= s.startTimestamp && s.endTimestamp <= w.end)
    || (s.startTimestamp <= w.start && w.end <= s.endTimestamp)
    || w.Has(s.startTimestamp)
    || w.Has(s.endTimestamp)
  }

  /** The two clauses on the stored buffers; an absent buffer matches nothing. */
  predicate BufferClauses(w: Window, s: ScheduledEvent) {
    || (s.startBufferTimestamp.Some? && w.Has(s.startBufferTimestamp.value))
    || (s.endBufferTimestamp.Some? && w.Has(s.endBufferTimestamp.value))
  }

  predicate Matches(w: Window, s: ScheduledEvent) {
    MeetingClauses(w, s) || BufferClauses(w, s)
  }

  /** The meeting overlaps the stretch from start to end in more than an endpoint. */
  predicate Overlaps(s: ScheduledEvent, start: int, end: int) {
    s.startTimestamp < end && start < s.endTimestamp
  }

  /** In a window that is not reversed the four clauses say that the meeting touches it. */
  lemma MeetingClausesMeaning(w: Window, s: ScheduledEvent)
    requires s.startTimestamp < s.endTimestamp
    ensures w.start <= w.end ==> (MeetingClauses(w, s) <==> s.startTimestamp <= w.end && w.start <= s.endTimestamp)
    ensures w.end < w.start ==> (MeetingClauses(w, s) <==> s.startTimestamp <= w.start && w.end <= s.endTimestamp)
  {
  }

  /** Whole minutes: a conflict is a meeting that starts by the end and ends after the start. */
  lemma WholeMinuteConflicts(start: int, end: int, s: ScheduledEvent)
    requires start < end && start % 60 == 0 && end % 60 == 0
    requires s.startTimestamp < s.endTimestamp
    ensures MeetingClauses(ConflictWindow(start, end), s) <==> s.startTimestamp <= end && start < s.endTimestamp
  {
    assert (start + 1) % 60 == 1;
  }

  /** So the slot right after a meeting is free, and the slot right before one is not. */
  lemma BackToBack(start: int, end: int, s: ScheduledEvent)
    requires start < end && start % 60 == 0 && end % 60 == 0
    requires s.startTimestamp < s.endTimestamp
    ensures s.endTimestamp == start ==> !MeetingClauses(ConflictWindow(start, end), s)
    ensures s.startTimestamp == end ==> MeetingClauses(ConflictWindow(start, end), s)
  {
    WholeMinuteConflicts(start, end, s);
  }

  /** The filter reads "starts by the end and ends after the start" of every stored meeting. */
  ghost predicate FilterExact(start: int, end: int) {
    forall s: ScheduledEvent | s.startTimestamp < s.endTimestamp ::
      MeetingClauses(ConflictWindow(start, end), s) <==> s.startTimestamp <= end && start < s.endTimestamp
  }

  /** No stored meeting that overlaps the request escapes the filter. */
  ghost predicate FilterSafe(start: int, end: int) {
    forall s: ScheduledEvent | s.startTimestamp < s.endTimestamp && Overlaps(s, start, end) ::
      MeetingClauses(ConflictWindow(start, end), s)
  }

  function Meeting(start: int, end: int): ScheduledEvent {
    ScheduledEvent(0, start, end, None, None)
  }

  /** Exact only when start and end carry the same seconds, and those are not 59. */
  lemma FilterExactIff(start: int, end: int)
    requires start < end
    ensures FilterExact(start, end) <==> start % 60 == end % 60 && start % 60 != 59
  {
    var w := ConflictWindow(start, end);
    ShiftedEnd(start, end);
    if w.end != end {
      var s := if w.end > end then Meeting(w.end, w.end + 1)
               else if w.start <= w.end then Meeting(end, end + 1)
               else Meeting(w.end - 1, w.end);
      MeetingClausesMeaning(w, s);
      assert !(MeetingClauses(w, s) <==> s.startTimestamp <= end && start < s.endTimestamp);
    }
  }

  /** Where the end of the window lands. */
  lemma ShiftedEnd(start: int, end: int)
    ensures ConflictWindow(start, end).end == end <==> start % 60 == end % 60 && start % 60 != 59
    ensures end - 1 <= ConflictWindow(start, end).end <==> end % 60 <= (start + 1) % 60
    ensures (start + 1) % 60 == if start % 60 == 59 then 0 else start % 60 + 1
  {
  }

  /**
   An overlap escapes the filter unless the seconds of the end are at most those of the moved
   start (a request of one or two seconds aside, whose window comes out reversed).
   */
  lemma FilterSafeIff(start: int, end: int)
    requires start < end
    ensures FilterSafe(start, end) <==>
            || end % 60 <= (start + 1) % 60
            || (end <= start + 2 && ConflictWindow(start, end).end <= start)
  {
    var w := ConflictWindow(start, end);
    ShiftedEnd(start, end);
    if w.end < end - 1 && !(end <= start + 2 && w.end <= start) {
      var s := Meeting(end - 1, end);
      MeetingClausesMeaning(w, s);
      assert Overlaps(s, start, end) && !MeetingClauses(w, s);
    }
  }

  // ---------------------------------------------------------------- validate

  /** The first override whose day, from 00:00 to 23:59, has the start or the end of the request. */
  function FindOverlappingDateOverride(overrides: Overrides, localize: (int, TimeSlot) -> int, start: int, end: int)
    : (found: Option<DateOverride>)
    ensures found.Some? ==> found.value in overrides && OnDay(found.value, localize, start, end)
    ensures found.None? ==> forall o | o in overrides :: !OnDay(o, localize, start, end)
  {
    if overrides == [] then None
    else if OnDay(overrides[0], localize, start, end) then Some(overrides[0])
    else FindOverlappingDateOverride(overrides[1..], localize, start, end)
  }

  predicate OnDay(o: DateOverride, localize: (int, TimeSlot) -> int, start: int, end: int) {
    var dayStart := localize(o.targetDate, TimeSlot(0, 0));
    var dayEnd := localize(o.targetDate, TimeSlot(23, 59));
    dayStart <= start <= dayEnd || dayStart <= end <= dayEnd
  }

  /** The request lies between the localized ends of the range on that date. */
  predicate Encloses(r: TimeRange, date: int, localize: (int, TimeSlot) -> int, start: int, end: int) {
    localize(date, r.startTime) <= start && end <= localize(date, r.endTime)
  }

  /**
   What a request is checked against: the clock, the merged availability, the answer of the
   weekly check for a stretch, and the schedules of the outbound calendar if there is one.
   */
  datatype Context = Context(
    now: int, overrides: Overrides, localize: (int, TimeSlot) -> int,
    withinAvailableTimes: (int, int) -> bool, vendorSchedules: Option<seq<ScheduledEvent>>)

  /** The time range is one the merged availability offers. */
  ghost predicate Offered(context: Context, start: int, end: int) {
    match FindOverlappingDateOverride(context.overrides, context.localize, start, end)
    case Some(o) => exists r | r in o.timeRanges :: Encloses(r, o.targetDate, context.localize, start, end)
    case None => context.withinAvailableTimes(start, end)
  }

  /** Neither the event's own bookings nor the outbound calendar's schedules match the filter. */
  ghost predicate NoConflict(request: ScheduledEvent, context: Context, stored: seq<ScheduledEvent>) {
    var w := ConflictWindow(request.CheckedStart(), request.CheckedEnd());
    && (forall s | s in stored && s.eventId == request.eventId :: !Matches(w, s))
    && (context.vendorSchedules.Some? ==> forall s | s in context.vendorSchedules.value :: !Matches(w, s))
  }

  ghost predicate Accepts(request: ScheduledEvent, context: Context, stored: seq<ScheduledEvent>) {
    && context.now <= request.CheckedStart() < request.CheckedEnd()
    && Offered(context, request.CheckedStart(), request.CheckedEnd())
    && NoConflict(request, context, stored)
  }

  method Validate(request: ScheduledEvent, context: Context, stored: seq<ScheduledEvent>) returns (accepted: bool)
    ensures accepted <==> Accepts(request, context, stored)
  {
    var ensuredStart, ensuredEnd := request.CheckedStart(), request.CheckedEnd();
    var isNotConcatenatedTimes := ensuredEnd <= ensuredStart;
    var isPast := ensuredStart < context.now || ensuredEnd < context.now;

    var overlappingDateOverride :=
      FindOverlappingDateOverride(context.overrides, context.localize, ensuredStart, ensuredEnd);
    var isInvalidTimeOverlappingWithOverrides := true;
    var isInvalidTimeOverlappingWithAvailableTimes := true;
    if overlappingDateOverride.Some? {
      isInvalidTimeOverlappingWithAvailableTimes := false;
      var o := overlappingDateOverride.value;
      var isUnavailableDateOverride := |o.timeRanges| == 0;
      if isUnavailableDateOverride {
        isInvalidTimeOverlappingWithOverrides := true;
      } else {
        isInvalidTimeOverlappingWithOverrides :=
          !exists r | r in o.timeRanges :: Encloses(r, o.targetDate, context.localize, ensuredStart, ensuredEnd);
      }
    } else {
      isInvalidTimeOverlappingWithOverrides := false;
      isInvalidTimeOverlappingWithAvailableTimes := !context.withinAvailableTimes(ensuredStart, ensuredEnd);
    }

    if isPast || isNotConcatenatedTimes || isInvalidTimeOverlappingWithOverrides
       || isInvalidTimeOverlappingWithAvailableTimes {
      return false;
    }

    var window := ConflictCheckWindow(ensuredStart, ensuredEnd);
    var loadedSchedule := exists s | s in stored :: s.eventId == request.eventId && Matches(window, s);
    var loadedVendorSchedule := false;
    if context.vendorSchedules.Some? {
      loadedVendorSchedule := exists s | s in context.vendorSchedules.value :: Matches(window, s);
    }
    accepted := !loadedSchedule && !loadedVendorSchedule;
  }

  // ---------------------------------------------------------------- runs

  /** The table of bookings; a canceled booking leaves it. */
  class ScheduledEvents {
    var stored: seq<ScheduledEvent>

    constructor ()
      ensures stored == []
    {
      stored := [];
    }

    /** validate, then __save. */
    method Create(request: ScheduledEvent, context: Context) returns (created: bool)
      modifies this
      ensures created <==> Accepts(request, context, old(stored))
      ensures stored == old(stored) + (if created then [request] else [])
      ensures stored == After(old(stored), Book(request, context))
    {
      created := Validate(request, context, stored);
      if created {
        stored := stored + [request];
      }
    }
  }

  datatype Step = Book(request: ScheduledEvent, context: Context) | Cancel(index: nat)

  ghost function After(stored: seq<ScheduledEvent>, step: Step): seq<ScheduledEvent> {
    match step
    case Book(request, context) => if Accepts(request, context, stored) then stored + [request] else stored
    case Cancel(index) => if index < |stored| then stored[..index] + stored[index + 1..] else stored
  }

  ghost function Run(stored: seq<ScheduledEvent>, steps: seq<Step>): seq<ScheduledEvent>
    decreases steps
  {
    if steps == [] then stored else Run(After(stored, steps[0]), steps[1..])
  }

  /** A request whose meeting lies in its buffers and whose window the filter covers. */
  ghost predicate Covered(request: ScheduledEvent) {
    request.WellFormed() && FilterSafe(request.CheckedStart(), request.CheckedEnd())
  }

  ghost predicate AllCovered(steps: seq<Step>) {
    forall step | step in steps && step.Book? :: Covered(step.request)
  }

  predicate WholeMinutes(request: ScheduledEvent) {
    request.CheckedStart() % 60 == 0 && request.CheckedEnd() % 60 == 0
  }

  lemma WholeMinutesCovered(request: ScheduledEvent)
    requires request.WellFormed() && WholeMinutes(request)
    ensures Covered(request)
  {
    FilterSafeIff(request.CheckedStart(), request.CheckedEnd());
  }

  predicate Disjoint(a: ScheduledEvent, b: ScheduledEvent) {
    a.endTimestamp <= b.startTimestamp || b.endTimestamp <= a.startTimestamp
  }

  /** Meetings take time, and no two of one event overlap. */
  ghost predicate NoDoubleBooking(stored: seq<ScheduledEvent>) {
    && (forall s | s in stored :: s.startTimestamp < s.endTimestamp)
    && (forall i, j | 0 <= i < j < |stored| && stored[i].eventId == stored[j].eventId :: Disjoint(stored[i], stored[j]))
  }

  /** The checked window of an accepted booking, buffers included, clears every earlier meeting. */
  lemma AcceptedClearsMeetings(
      request: ScheduledEvent, context: Context, stored: seq<ScheduledEvent>, s: ScheduledEvent)
    requires Accepts(request, context, stored) && FilterSafe(request.CheckedStart(), request.CheckedEnd())
    requires s.startTimestamp < s.endTimestamp
    requires (s in stored && s.eventId == request.eventId)
          || (context.vendorSchedules.Some? && s in context.vendorSchedules.value)
    ensures s.endTimestamp <= request.CheckedStart() || request.CheckedEnd() <= s.startTimestamp
  {
    assert !Matches(ConflictWindow(request.CheckedStart(), request.CheckedEnd()), s);
  }

  lemma AppendKeeps(stored: seq<ScheduledEvent>, request: ScheduledEvent)
    requires NoDoubleBooking(stored) && request.startTimestamp < request.endTimestamp
    requires forall s | s in stored && s.eventId == request.eventId :: Disjoint(s, request)
    ensures NoDoubleBooking(stored + [request])
  {
  }

  lemma CancelKeeps(stored: seq<ScheduledEvent>, index: nat)
    requires NoDoubleBooking(stored) && index < |stored|
    ensures NoDoubleBooking(stored[..index] + stored[index + 1..])
  {
  }

  lemma StepKeeps(stored: seq<ScheduledEvent>, step: Step)
    requires NoDoubleBooking(stored)
    requires step.Book? ==> Covered(step.request)
    ensures NoDoubleBooking(After(stored, step))
  {
    match step
    case Book(request, context) =>
      if Accepts(request, context, stored) {
        forall s | s in stored && s.eventId == request.eventId ensures Disjoint(s, request) {
          AcceptedClearsMeetings(request, context, stored, s);
        }
        AppendKeeps(stored, request);
      }
      hide NoDoubleBooking, Accepts, Covered;
    case Cancel(index) =>
      if index < |stored| {
        CancelKeeps(stored, index);
      }
      hide NoDoubleBooking;
  }

  /** No run of bookings and cancellations double-books an event. */
  lemma {:induction false} RunsNeverDoubleBook(stored: seq<ScheduledEvent>, steps: seq<Step>)
    requires NoDoubleBooking(stored) && AllCovered(steps)
    ensures NoDoubleBooking(Run(stored, steps))
    decreases steps
  {
    if steps != [] {
      assert steps[0] in steps;
      StepKeeps(stored, steps[0]);
      RunsNeverDoubleBook(After(stored, steps[0]), steps[1..]);
    }
  }

  /** On whole minutes, as slots are offered, no run double-books. */
  lemma WholeMinutesNeverDoubleBook(stored: seq<ScheduledEvent>, steps: seq<Step>)
    requires NoDoubleBooking(stored)
    requires forall step | step in steps && step.Book? :: step.request.WellFormed() && WholeMinutes(step.request)
    ensures NoDoubleBooking(Run(stored, steps))
  {
    forall step | step in steps && step.Book? ensures Covered(step.request) {
      WholeMinutesCovered(step.request);
    }
    RunsNeverDoubleBook(stored, steps);
  }

  /** A clock, and an availability that refuses nothing. */
  function OpenContext(now: int): Context {
    Context(now, [], (date: int, slot: TimeSlot) => 0, (start: int, end: int) => true, None)
  }

  /** Where the seconds let a meeting escape the filter, one more booking is accepted on top of it. */
  lemma UnsafeSecondsDoubleBook(start: int, end: int) returns (s: ScheduledEvent)
    requires start < end && !FilterSafe(start, end)
    ensures NoDoubleBooking([s])
    ensures !NoDoubleBooking(After([s], Book(Meeting(start, end), OpenContext(start))))
  {
    var escaped: ScheduledEvent :|
      && escaped.startTimestamp < escaped.endTimestamp && Overlaps(escaped, start, end)
      && !MeetingClauses(ConflictWindow(start, end), escaped);
    s := Meeting(escaped.startTimestamp, escaped.endTimestamp);
    var request, context := Meeting(start, end), OpenContext(start);
    assert FindOverlappingDateOverride([], context.localize, start, end) == None;
    assert Accepts(request, context, [s]);
    var after := After([s], Book(request, context));
    assert after == [s, request];
    assert !Disjoint(after[0], after[1]);
  }

  // ---------------------------------------------------------------- end to end

  /** Later slots of a day are not localized earlier. */
  ghost predicate Monotone(localize: (int, TimeSlot) -> int) {
    forall date: int, a: TimeSlot, b: TimeSlot | a.Minutes() <= b.Minutes() :: localize(date, a) <= localize(date, b)
  }

  /**
   A booking accepted through a date override is not in the past, takes time, and lies inside one
   override range of every host that overrides the date.
   */
  lemma OverrideBookingSuitsEveryHost(
      hosts: seq<Availability>, getDay: int -> int, request: ScheduledEvent, context: Context,
      stored: seq<ScheduledEvent>, o: DateOverride, i: nat)
    requires i < |hosts| && DatesDistinct(hosts) && Monotone(context.localize)
    requires context.overrides == FoldHosts(hosts, getDay).overrides
    requires Accepts(request, context, stored)
    requires FindOverlappingDateOverride(
               context.overrides, context.localize, request.CheckedStart(), request.CheckedEnd()) == Some(o)
    requires OverrideOn(hosts[i].overrides, o.targetDate).Some?
    ensures context.now <= request.CheckedStart() < request.CheckedEnd()
    ensures exists q | q in OverrideOn(hosts[i].overrides, o.targetDate).value ::
              Encloses(q, o.targetDate, context.localize, request.CheckedStart(), request.CheckedEnd())
  {
    var date, localize := o.targetDate, context.localize;
    var r :| r in o.timeRanges && Encloses(r, date, localize, request.CheckedStart(), request.CheckedEnd());
    FoldDistinct(hosts, |hosts|, getDay);
    OverrideOnEntry(context.overrides, o);
    FoldInsideEveryHost(hosts, |hosts|, getDay, date, r, i);
    WiderEncloses(r, OverrideOn(hosts[i].overrides, date).value, date, localize, request);
  }

  /** Such a booking, when the hosts have common hours that day, also lies inside a weekly range of every host. */
  lemma OverrideBookingSuitsEveryWeek(
      hosts: seq<Availability>, getDay: int -> int, request: ScheduledEvent, context: Context,
      stored: seq<ScheduledEvent>, o: DateOverride, i: nat)
    requires i < |hosts| && |hosts| > 1 && DatesDistinct(hosts) && Monotone(context.localize)
    requires context.overrides == FoldHosts(hosts, getDay).overrides
    requires Accepts(request, context, stored)
    requires FindOverlappingDateOverride(
               context.overrides, context.localize, request.CheckedStart(), request.CheckedEnd()) == Some(o)
    requires HoursOn(FoldHosts(hosts, getDay).availableTimes, getDay(o.targetDate)) != Some([])
    ensures exists h | h in WorkOn(hosts[i], getDay(o.targetDate)) ::
              Encloses(h, o.targetDate, context.localize, request.CheckedStart(), request.CheckedEnd())
  {
    var date, localize := o.targetDate, context.localize;
    var r :| r in o.timeRanges && Encloses(r, date, localize, request.CheckedStart(), request.CheckedEnd());
    hide Accepts, HoursOn, WorkOn;
    FoldDistinct(hosts, |hosts|, getDay);
    OverrideOnEntry(context.overrides, o);
    FoldInsideEveryWeek(hosts, |hosts|, getDay, date, r, i);
    hide Accepts, HoursOn, WorkOn, FoldFirst, RangesFor;
    WiderEncloses(r, WorkOn(hosts[i], getDay(date)), date, localize, request);
  }

  lemma WiderEncloses(
      r: TimeRange, hours: seq<TimeRange>, date: int, localize: (int, TimeSlot) -> int, request: ScheduledEvent)
    requires Monotone(localize) && InsideOne(r, hours)
    requires Encloses(r, date, localize, request.CheckedStart(), request.CheckedEnd())
    ensures exists h | h in hours :: Encloses(h, date, localize, request.CheckedStart(), request.CheckedEnd())
  {
    var h :| h in hours && r.Within(h);
    assert localize(date, h.startTime) <= localize(date, r.startTime);
    assert localize(date, r.endTime) <= localize(date, h.endTime);
    assert Encloses(h, date, localize, request.CheckedStart(), request.CheckedEnd());
  }

  // ---------------------------------------------------------------- acceptance in plain terms

  /** Some buffer of the stored booking, where it has one, lies in the stretch. */
  predicate BufferIn(s: ScheduledEvent, from: int, to: int) {
    || (s.startBufferTimestamp.Some? && from <= s.startBufferTimestamp.value <= to)
    || (s.endBufferTimestamp.Some? && from <= s.endBufferTimestamp.value <= to)
  }

  /** The stored booking stands in the way of a stretch on whole minutes. */
  predicate InTheWay(s: ScheduledEvent, start: int, end: int) {
    (s.startTimestamp <= end && start < s.endTimestamp) || BufferIn(s, start + 1, end)
  }

  /**
   The stored booking touches the window from its one end to the other, whichever comes first, or has a buffer in it.
   */
  predicate InWindow(s: ScheduledEvent, from: int, to: int) {
    || (if from <= to then s.startTimestamp <= to && from <= s.endTimestamp
        else s.startTimestamp <= from && to <= s.endTimestamp)
    || BufferIn(s, from, to)
  }

  /** For any seconds, from the two ends of the window: one second after the start, and the end with shifted seconds. */
  lemma MatchesIff(start: int, end: int, s: ScheduledEvent)
    requires s.startTimestamp < s.endTimestamp
    ensures Matches(ConflictWindow(start, end), s) <==>
            InWindow(s, start + 1, end - end % 60 + (start + 1) % 60 - 1)
  {
    MeetingClausesMeaning(ConflictWindow(start, end), s);
  }

  lemma NoConflictSecondsIff(
      request: ScheduledEvent, context: Context, stored: seq<ScheduledEvent>, start: int, end: int, to: int)
    requires Checks(request, start, end) && to == end - end % 60 + (start + 1) % 60 - 1
    requires forall s | Compared(s, request, context, stored) :: s.startTimestamp < s.endTimestamp
    ensures NoConflict(request, context, stored) <==>
            forall s | Compared(s, request, context, stored) :: !InWindow(s, start + 1, to)
  {
    var w := ConflictWindow(start, end);
    NoConflictCompared(request, context, stored, w);
    forall s | Compared(s, request, context, stored) ensures Matches(w, s) <==> InWindow(s, start + 1, to) {
      MatchesIff(start, end, s);
    }
    hide NoConflict, Matches, InWindow, Compared, ConflictWindow;
  }

  lemma NoConflictCompared(request: ScheduledEvent, context: Context, stored: seq<ScheduledEvent>, w: Window)
    requires w == ConflictWindow(request.CheckedStart(), request.CheckedEnd())
    ensures NoConflict(request, context, stored) <==>
            forall s | Compared(s, request, context, stored) :: !Matches(w, s)
  {
    forall s | s in stored && s.eventId == request.eventId ensures Compared(s, request, context, stored) {
    }
    hide Matches, ConflictWindow;
  }

  lemma WholeMinuteMatches(start: int, end: int, s: ScheduledEvent)
    requires start < end && start % 60 == 0 && end % 60 == 0
    requires s.startTimestamp < s.endTimestamp
    ensures Matches(ConflictWindow(start, end), s) <==> InTheWay(s, start, end)
  {
    assert (start + 1) % 60 == 1;
    assert end - end % 60 + (start + 1) % 60 - 1 == end;
    MatchesIff(start, end, s);
    hide Matches, BufferIn;
  }

  /** What a request is checked against: the event's own bookings, and the schedules of the outbound calendar. */
  ghost predicate Compared(s: ScheduledEvent, request: ScheduledEvent, context: Context, stored: seq<ScheduledEvent>) {
    || (s in stored && s.eventId == request.eventId)
    || (context.vendorSchedules.Some? && s in context.vendorSchedules.value)
  }

  /** The instants checked are those of the buffers, where the request has them. */
  ghost predicate Checks(request: ScheduledEvent, start: int, end: int) {
    && start == (match request.startBufferTimestamp case Some(t) => t case None => request.startTimestamp)
    && end == (match request.endBufferTimestamp case Some(t) => t case None => request.endTimestamp)
  }

  /**
   On whole minutes there is no conflict exactly when no booking of the event, and no schedule of the outbound calendar,
   starts by the end and ends after the start, or has a buffer after the start and not after the end.
   */
  lemma NoConflictIff(request: ScheduledEvent, context: Context, stored: seq<ScheduledEvent>, start: int, end: int)
    requires Checks(request, start, end) && start < end && start % 60 == 0 && end % 60 == 0
    requires forall s | Compared(s, request, context, stored) :: s.startTimestamp < s.endTimestamp
    ensures NoConflict(request, context, stored) <==>
            forall s | Compared(s, request, context, stored) :: !InTheWay(s, start, end)
  {
    forall s | Compared(s, request, context, stored)
      ensures Matches(ConflictWindow(start, end), s) <==> InTheWay(s, start, end)
    {
      WholeMinuteMatches(start, end, s);
    }
    hide Matches, InTheWay;
    forall s | s in stored && s.eventId == request.eventId ensures Compared(s, request, context, stored) {
    }
  }

  /** The start or the end of the request is on the day of the override, both minutes of midnight included. */
  ghost predicate TouchesDay(o: DateOverride, localize: (int, TimeSlot) -> int, start: int, end: int) {
    || (localize(o.targetDate, TimeSlot(0, 0)) <= start && start <= localize(o.targetDate, TimeSlot(23, 59)))
    || (localize(o.targetDate, TimeSlot(0, 0)) <= end && end <= localize(o.targetDate, TimeSlot(23, 59)))
  }

  /** The override that decides: the first one whose day the request touches. */
  ghost predicate Decides(overrides: Overrides, k: int, localize: (int, TimeSlot) -> int, start: int, end: int) {
    && 0 <= k < |overrides| && TouchesDay(overrides[k], localize, start, end)
    && forall j | 0 <= j < k :: !TouchesDay(overrides[j], localize, start, end)
  }

  lemma {:induction false} FoundFirst(
      overrides: Overrides, localize: (int, TimeSlot) -> int, start: int, end: int, k: nat)
    requires Decides(overrides, k, localize, start, end)
    ensures FindOverlappingDateOverride(overrides, localize, start, end) == Some(overrides[k])
    decreases k
  {
    if k > 0 {
      assert !TouchesDay(overrides[0], localize, start, end);
      assert forall j | 0 <= j < k - 1 :: overrides[1..][j] == overrides[j + 1];
      FoundFirst(overrides[1..], localize, start, end, k - 1);
    }
  }

  /** Some range of the override holds the whole request. */
  ghost predicate HoldsRequest(o: DateOverride, localize: (int, TimeSlot) -> int, start: int, end: int) {
    exists r | r in o.timeRanges :: localize(o.targetDate, r.startTime) <= start
        && end <= localize(o.targetDate, r.endTime)
  }

  /**
   A request whose day has an override is accepted exactly when it is not past, takes time, lies in a range of the first
   such override, and meets no conflict. So a request inside an offered range is not refused for its time, and one that
   touches a closed day always is.
   */
  lemma AcceptedOnOverrideIff(
      request: ScheduledEvent, context: Context, stored: seq<ScheduledEvent>, start: int, end: int, k: nat)
    requires Checks(request, start, end) && Decides(context.overrides, k, context.localize, start, end)
    ensures Accepts(request, context, stored) <==>
            && context.now <= start < end
            && HoldsRequest(context.overrides[k], context.localize, start, end)
            && NoConflict(request, context, stored)
    ensures context.overrides[k].timeRanges == [] ==> !Accepts(request, context, stored)
  {
    FoundFirst(context.overrides, context.localize, start, end, k);
    var o := context.overrides[k];
    assert HoldsRequest(o, context.localize, start, end) <==>
           exists r | r in o.timeRanges :: Encloses(r, o.targetDate, context.localize, start, end);
    hide FindOverlappingDateOverride, NoConflict;
  }

  /** A request that touches the day of no override is left to the weekly check. */
  lemma AcceptedOnWeekIff(request: ScheduledEvent, context: Context, stored: seq<ScheduledEvent>, start: int, end: int)
    requires Checks(request, start, end)
    requires forall o | o in context.overrides :: !TouchesDay(o, context.localize, start, end)
    ensures Accepts(request, context, stored) <==>
            context.now <= start < end && context.withinAvailableTimes(start, end)
                && NoConflict(request, context, stored)
  {
    hide NoConflict;
  }

  /** A cancellation takes out that booking and no other. */
  lemma CancelTakesOut(stored: seq<ScheduledEvent>, index: nat)
    requires index < |stored|
    ensures multiset(After(stored, Cancel(index))) == multiset(stored) - multiset{stored[index]}
  {
    assert stored == stored[..index] + [stored[index]] + stored[index + 1..];
  }
}
