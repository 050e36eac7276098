/**
 Synchronization of a Google calendar's schedules
 (GoogleCalendarIntegrationsService._synchronizeWithGoogleCalendarEvents).
 */
module CalendarSync {
  import opened Wrappers

  /** An event as fetched; its details decide what it converts to. */
  datatype GoogleEvent = GoogleEvent(iCalUID: string, details: int)

  /** A stored schedule of an integrated calendar. */
  datatype Schedule = Schedule(iCalUID: string, calendarId: int, startTimestamp: int, endTimestamp: int)

  datatype Status = OPENED | CONFIRMED | CANCELED

  /** A native booking, tied to a calendar event by its iCalUID if it was written to a calendar. */
  datatype Booking = Booking(iCalUID: Option<string>, endTimestamp: int, status: Status, deleted: bool)

  datatype State = State(schedules: seq<Schedule>, bookings: seq<Booking>)

  /** What an event converts to at one clock time: no schedule, one, or one for each recurrence. */
  type Converter = GoogleEvent -> seq<(int, int)>

  function Uids(events: seq<GoogleEvent>): set<string> {
    set i | 0 <= i < |events| :: events[i].iCalUID
  }

  /** The iCalUIDs stored for a calendar. */
  function StoredUids(schedules: seq<Schedule>, calendarId: int): set<string> {
    set i | 0 <= i < |schedules| && schedules[i].calendarId == calendarId :: schedules[i].iCalUID
  }

  function Converted(event: GoogleEvent, calendarId: int, convert: Converter): (rows: seq<Schedule>)
    ensures |rows| == |convert(event)|
    ensures forall row | row in rows :: row.iCalUID == event.iCalUID && row.calendarId == calendarId
  {
    seq(|convert(event)|, i requires 0 <= i < |convert(event)| =>
      Schedule(event.iCalUID, calendarId, convert(event)[i].0, convert(event)[i].1))
  }

  /** The schedules of the events that are not stored yet. */
  function NewSchedules(
      events: seq<GoogleEvent>, remained: set<string>, calendarId: int, convert: Converter): seq<Schedule>
  {
    if events == [] then []
    else
      var last := |events| - 1;
      NewSchedules(events[..last], remained, calendarId, convert) +
      if events[last].iCalUID in remained then [] else Converted(events[last], calendarId, convert)
  }

  predicate Gone(row: Schedule, fetched: set<string>, calendarId: int) {
    row.calendarId == calendarId && row.iCalUID !in fetched
  }

  function Remaining(schedules: seq<Schedule>, fetched: set<string>, calendarId: int): seq<Schedule> {
    if schedules == [] then []
    else
      var last := |schedules| - 1;
      Remaining(schedules[..last], fetched, calendarId) +
      if Gone(schedules[last], fetched, calendarId) then [] else [schedules[last]]
  }

  /** An unfinished booking tied to one of the removed events. */
  predicate ToCancel(booking: Booking, removed: set<string>, now: int) {
    booking.iCalUID.Some? && booking.iCalUID.value in removed && now < booking.endTimestamp && !booking.deleted
  }

  function CancelAll(bookings: seq<Booking>, removed: set<string>, now: int): (canceled: seq<Booking>)
    ensures |canceled| == |bookings|
    ensures forall i | 0 <= i < |bookings| :: canceled[i] ==
              if ToCancel(bookings[i], removed, now) then bookings[i].(status := CANCELED, deleted := true)
                  else bookings[i]
  {
    seq(|bookings|, i requires 0 <= i < |bookings| =>
      if ToCancel(bookings[i], removed, now) then bookings[i].(status := CANCELED, deleted := true) else bookings[i])
  }

  function Synchronized(s: State, events: seq<GoogleEvent>, calendarId: int, convert: Converter, now: int): State {
    var fetched := Uids(events);
    var remained := StoredUids(s.schedules, calendarId) * fetched;
    var saved := s.schedules + NewSchedules(events, remained, calendarId, convert);
    var removed := StoredUids(saved, calendarId) - fetched;
    State(Remaining(saved, fetched, calendarId), CancelAll(s.bookings, removed, now))
  }

  class Repository {
    var schedules: seq<Schedule>
    var bookings: seq<Booking>

    function Contents(): State
      reads this
    {
      State(schedules, bookings)
    }

    method Synchronize(latestGoogleEvents: seq<GoogleEvent>, calendarId: int, convert: Converter, now: int)
      modifies this
      ensures Contents() == Synchronized(old(Contents()), latestGoogleEvents, calendarId, convert, now)
    {
      var loadedUids := Uids(latestGoogleEvents);
      var remained := StoredUids(schedules, calendarId) * loadedUids;

      // filter new events, then convert them
      var newSchedules: seq<Schedule> := [];
      for i := 0 to |latestGoogleEvents|
        invariant newSchedules == NewSchedules(latestGoogleEvents[..i], remained, calendarId, convert)
        invariant Contents() == old(Contents())
      {
        assert latestGoogleEvents[..i + 1][..i] == latestGoogleEvents[..i];
        var isNewOne := latestGoogleEvents[i].iCalUID !in remained;
        if isNewOne {
          newSchedules := newSchedules + Converted(latestGoogleEvents[i], calendarId, convert);
        }
      }
      assert latestGoogleEvents[..|latestGoogleEvents|] == latestGoogleEvents;
      assert schedules + [] == schedules;
      if |newSchedules| > 0 {
        schedules := schedules + newSchedules;
      }

      // delete old schedules, and cancel what was booked through them
      var deleteUids := StoredUids(schedules, calendarId) - loadedUids;
      schedules := Remaining(schedules, loadedUids, calendarId);
      bookings := CancelAll(bookings, deleteUids, now);
    }
  }

  // ---------------------------------------------------------------- what a sync leaves

  /** The event is one of those fetched and converts to at least one schedule. */
  ghost predicate Converts(events: seq<GoogleEvent>, uid: string, convert: Converter) {
    exists i | 0 <= i < |events| :: events[i].iCalUID == uid && convert(events[i]) != []
  }

  lemma StoredConcat(a: seq<Schedule>, b: seq<Schedule>, calendarId: int)
    ensures StoredUids(a + b, calendarId) == StoredUids(a, calendarId) + StoredUids(b, calendarId)
  {
    forall uid | uid in StoredUids(b, calendarId) ensures uid in StoredUids(a + b, calendarId) {
      var i :| 0 <= i < |b| && b[i].calendarId == calendarId && b[i].iCalUID == uid;
      assert (a + b)[|a| + i] == b[i];
    }
    forall uid | uid in StoredUids(a, calendarId) ensures uid in StoredUids(a + b, calendarId) {
      var i :| 0 <= i < |a| && a[i].calendarId == calendarId && a[i].iCalUID == uid;
      assert (a + b)[i] == a[i];
    }
  }

  lemma {:induction false} NewSchedulesUids(
      events: seq<GoogleEvent>, remained: set<string>, calendarId: int, convert: Converter)
    ensures var rows := NewSchedules(events, remained, calendarId, convert);
            && (forall row | row in rows :: row.calendarId == calendarId)
            && (forall uid ::
                  uid in StoredUids(rows, calendarId)
                  <==> uid !in remained && Converts(events, uid, convert))
    decreases |events|
  {
    if events != [] {
      var last := |events| - 1;
      var front, event := events[..last], events[last];
      NewSchedulesUids(front, remained, calendarId, convert);
      var rows := if event.iCalUID in remained then [] else Converted(event, calendarId, convert);
      StoredConcat(NewSchedules(front, remained, calendarId, convert), rows, calendarId);
      forall uid
        ensures uid in StoredUids(rows, calendarId)
                <==> uid == event.iCalUID && uid !in remained && convert(event) != []
      {
        if uid == event.iCalUID && uid !in remained && convert(event) != [] {
          assert rows[0] in rows;
        }
      }
      forall uid ensures Converts(events, uid, convert)
        <==> Converts(front, uid, convert) || (uid == event.iCalUID && convert(event) != [])
      {
        LastConverts(events, uid, convert);
      }
    }
  }

  lemma LastConverts(events: seq<GoogleEvent>, uid: string, convert: Converter)
    requires events != []
    ensures var last := |events| - 1;
            Converts(events, uid, convert) <==>
            Converts(events[..last], uid, convert) || (events[last].iCalUID == uid && convert(events[last]) != [])
  {
    var last := |events| - 1;
    if Converts(events, uid, convert) {
      var i :| 0 <= i < |events| && events[i].iCalUID == uid && convert(events[i]) != [];
      assert i < last ==> events[..last][i] == events[i];
    }
    if Converts(events[..last], uid, convert) {
      var i :| 0 <= i < last && events[..last][i].iCalUID == uid && convert(events[..last][i]) != [];
      assert events[i].iCalUID == uid && convert(events[i]) != [];
    }
  }

  lemma {:induction false} RemainingElements(schedules: seq<Schedule>, fetched: set<string>, calendarId: int)
    ensures forall row :: row in Remaining(schedules, fetched, calendarId) <==>
              row in schedules && !Gone(row, fetched, calendarId)
    decreases |schedules|
  {
    if schedules != [] {
      var last := |schedules| - 1;
      RemainingElements(schedules[..last], fetched, calendarId);
      assert schedules == schedules[..last] + [schedules[last]];
    }
  }

  lemma StoredIff(schedules: seq<Schedule>, calendarId: int, uid: string)
    ensures uid in StoredUids(schedules, calendarId) <==>
            exists row | row in schedules :: row.calendarId == calendarId && row.iCalUID == uid
  {
    if row :| row in schedules && row.calendarId == calendarId && row.iCalUID == uid {
      var i :| 0 <= i < |schedules| && schedules[i] == row;
    }
  }

  /** The stored iCalUIDs become the fetched ones that were stored already or convert to a schedule. */
  lemma SyncConverges(s: State, events: seq<GoogleEvent>, calendarId: int, convert: Converter, now: int, uid: string)
    ensures uid in StoredUids(Synchronized(s, events, calendarId, convert, now).schedules, calendarId) <==>
            uid in Uids(events) && (uid in StoredUids(s.schedules, calendarId) || Converts(events, uid, convert))
  {
    var fetched := Uids(events);
    var remained := StoredUids(s.schedules, calendarId) * fetched;
    var added := NewSchedules(events, remained, calendarId, convert);
    var saved := s.schedules + added;
    NewSchedulesUids(events, remained, calendarId, convert);
    StoredConcat(s.schedules, added, calendarId);
    RemainingElements(saved, fetched, calendarId);
    StoredIff(saved, calendarId, uid);
    StoredIff(Remaining(saved, fetched, calendarId), calendarId, uid);
  }

  lemma {:induction false} NewScheduleRows(
      events: seq<GoogleEvent>, remained: set<string>, calendarId: int, convert: Converter, row: Schedule)
    ensures row in NewSchedules(events, remained, calendarId, convert) <==>
            exists i | 0 <= i < |events| :: events[i].iCalUID !in remained
                && row in Converted(events[i], calendarId, convert)
    decreases |events|
  {
    if events != [] {
      var last := |events| - 1;
      NewScheduleRows(events[..last], remained, calendarId, convert, row);
      forall i | 0 <= i < |events|
        ensures row in Converted(events[i], calendarId, convert) && events[i].iCalUID !in remained ==>
                row in NewSchedules(events, remained, calendarId, convert)
      {
        assert i < last ==> events[..last][i] == events[i];
      }
    }
  }

  /** Row by row: stored rows of fetched events stay as they are, and only events not stored are converted. */
  lemma SyncRows(s: State, events: seq<GoogleEvent>, calendarId: int, convert: Converter, now: int, row: Schedule)
    ensures row in Synchronized(s, events, calendarId, convert, now).schedules <==>
            || (row in s.schedules && (row.calendarId == calendarId ==> row.iCalUID in Uids(events)))
            || (exists i | 0 <= i < |events| ::
                  events[i].iCalUID !in StoredUids(s.schedules, calendarId)
                      && row in Converted(events[i], calendarId, convert))
  {
    var remained := StoredUids(s.schedules, calendarId) * Uids(events);
    var added := NewSchedules(events, remained, calendarId, convert);
    RemainingElements(s.schedules + added, Uids(events), calendarId);
    NewScheduleRows(events, remained, calendarId, convert, row);
    assert forall i | 0 <= i < |events| ::
        events[i].iCalUID in remained <==> events[i].iCalUID in StoredUids(s.schedules, calendarId);
    assert forall i | 0 <= i < |events|
        && row in Converted(events[i], calendarId, convert) :: row.iCalUID in Uids(events);
  }

  /** The rows of one calendar, in order. */
  function RowsOf(schedules: seq<Schedule>, calendarId: int): seq<Schedule> {
    if schedules == [] then []
    else
      var last := |schedules| - 1;
      RowsOf(schedules[..last], calendarId) + if schedules[last].calendarId == calendarId then [schedules[last]] else []
  }

  lemma {:induction false} RowsOfConcat(a: seq<Schedule>, b: seq<Schedule>, other: int)
    requires forall row | row in b :: row.calendarId != other
    ensures RowsOf(a + b, other) == RowsOf(a, other)
    decreases |b|
  {
    if b == [] {
      assert a + b == a;
    } else {
      var last := |b| - 1;
      assert (a + b)[..|a + b| - 1] == a + b[..last];
      assert b[last] in b;
      RowsOfConcat(a, b[..last], other);
    }
  }

  lemma {:induction false} RemainingRowsOf(schedules: seq<Schedule>, fetched: set<string>, calendarId: int, other: int)
    requires other != calendarId
    ensures RowsOf(Remaining(schedules, fetched, calendarId), other) == RowsOf(schedules, other)
    decreases |schedules|
  {
    if schedules != [] {
      var last := |schedules| - 1;
      RemainingRowsOf(schedules[..last], fetched, calendarId, other);
      var rest := Remaining(schedules[..last], fetched, calendarId);
      if !Gone(schedules[last], fetched, calendarId) {
        assert (rest + [schedules[last]])[..|rest|] == rest;
      } else {
        assert rest + [] == rest;
      }
    }
  }

  /** The rows of every other calendar are the same, in the same order. */
  lemma OtherCalendarsUnchanged(
      s: State, events: seq<GoogleEvent>, calendarId: int, convert: Converter, now: int, other: int)
    requires other != calendarId
    ensures RowsOf(Synchronized(s, events, calendarId, convert, now).schedules, other) == RowsOf(s.schedules, other)
  {
    var fetched := Uids(events);
    var remained := StoredUids(s.schedules, calendarId) * fetched;
    var added := NewSchedules(events, remained, calendarId, convert);
    NewSchedulesUids(events, remained, calendarId, convert);
    RowsOfConcat(s.schedules, added, other);
    RemainingRowsOf(s.schedules + added, fetched, calendarId, other);
  }

  /** Exactly the unfinished bookings tied to an event that is no longer fetched are canceled. */
  lemma RemovedBookingsCanceled(
      s: State, events: seq<GoogleEvent>, calendarId: int, convert: Converter, now: int, i: nat)
    requires i < |s.bookings|
    ensures var s' := Synchronized(s, events, calendarId, convert, now);
            var removed := StoredUids(s.schedules, calendarId) - Uids(events);
            && |s'.bookings| == |s.bookings|
            && s'.bookings[i] == if ToCancel(s.bookings[i], removed, now)
                                 then s.bookings[i].(status := CANCELED, deleted := true) else s.bookings[i]
  {
    var fetched := Uids(events);
    var remained := StoredUids(s.schedules, calendarId) * fetched;
    var added := NewSchedules(events, remained, calendarId, convert);
    NewSchedulesUids(events, remained, calendarId, convert);
    StoredConcat(s.schedules, added, calendarId);
    forall uid | Converts(events, uid, convert) ensures uid in fetched {
    }
    assert StoredUids(s.schedules + added, calendarId) - fetched == StoredUids(s.schedules, calendarId) - fetched;
  }

  // ---------------------------------------------------------------- a second sync

  lemma {:induction false} NothingGone(schedules: seq<Schedule>, fetched: set<string>, calendarId: int)
    requires StoredUids(schedules, calendarId) <= fetched
    ensures Remaining(schedules, fetched, calendarId) == schedules
    decreases |schedules|
  {
    if schedules != [] {
      var last := |schedules| - 1;
      var front := schedules[..last];
      assert schedules == front + [schedules[last]];
      StoredConcat(front, [schedules[last]], calendarId);
      NothingGone(front, fetched, calendarId);
      assert schedules[last].calendarId == calendarId ==> schedules[last].iCalUID in StoredUids(schedules, calendarId);
    }
  }

  lemma NothingNew(events: seq<GoogleEvent>, remained: set<string>, calendarId: int, convert: Converter)
    requires forall uid | Converts(events, uid, convert) :: uid in remained
    ensures NewSchedules(events, remained, calendarId, convert) == []
  {
    var rows := NewSchedules(events, remained, calendarId, convert);
    NewSchedulesUids(events, remained, calendarId, convert);
    assert rows != [] ==> rows[0] in rows;
    assert rows != [] ==> rows[0].iCalUID in StoredUids(rows, calendarId);
  }

  /** A second sync with the same fetch and the same clock changes nothing. */
  lemma SyncIdempotent(s: State, events: seq<GoogleEvent>, calendarId: int, convert: Converter, now: int)
    ensures var once := Synchronized(s, events, calendarId, convert, now);
            Synchronized(once, events, calendarId, convert, now) == once
  {
    var once := Synchronized(s, events, calendarId, convert, now);
    var fetched, stored := Uids(events), StoredUids(once.schedules, calendarId);
    forall uid
      ensures uid in stored ==> uid in fetched
      ensures Converts(events, uid, convert) ==> uid in stored * fetched
    {
      SyncConverges(s, events, calendarId, convert, now, uid);
    }
    NothingNew(events, stored * fetched, calendarId, convert);
    assert once.schedules + [] == once.schedules;
    NothingGone(once.schedules, fetched, calendarId);
    assert stored - fetched == {};
    assert CancelAll(once.bookings, {}, now) == once.bookings;
  }

  // ---------------------------------------------------------------- in plain terms

  /** The calendar has a row of the event. */
  ghost predicate HasRow(schedules: seq<Schedule>, calendarId: int, uid: string) {
    exists row | row in schedules :: row.calendarId == calendarId && row.iCalUID == uid
  }

  ghost predicate Fetched(events: seq<GoogleEvent>, uid: string) {
    exists event | event in events :: event.iCalUID == uid
  }

  lemma FetchedIff(events: seq<GoogleEvent>, uid: string)
    ensures uid in Uids(events) <==> Fetched(events, uid)
  {
    if Fetched(events, uid) {
      var event :| event in events && event.iCalUID == uid;
      var i :| 0 <= i < |events| && events[i] == event;
    }
  }

  /** Which rows the calendar has after a sync, by the rows before and the events fetched. */
  lemma SyncRowsIff(s: State, events: seq<GoogleEvent>, calendarId: int, convert: Converter, now: int, row: Schedule)
    ensures row in Synchronized(s, events, calendarId, convert, now).schedules <==>
            || (row in s.schedules && (row.calendarId == calendarId ==> Fetched(events, row.iCalUID)))
            || (exists event, k | event in events && 0 <= k < |convert(event)| ::
                  && !HasRow(s.schedules, calendarId, event.iCalUID)
                  && row == Schedule(event.iCalUID, calendarId, convert(event)[k].0, convert(event)[k].1))
  {
    SyncRows(s, events, calendarId, convert, now, row);
    FetchedIff(events, row.iCalUID);
    forall i | 0 <= i < |events|
      ensures events[i].iCalUID in StoredUids(s.schedules, calendarId) <==>
              HasRow(s.schedules, calendarId, events[i].iCalUID)
      ensures row in Converted(events[i], calendarId, convert) <==>
              exists k | 0 <= k < |convert(events[i])| ::
                row == Schedule(events[i].iCalUID, calendarId, convert(events[i])[k].0, convert(events[i])[k].1)
    {
      StoredIff(s.schedules, calendarId, events[i].iCalUID);
      ConvertedIff(events[i], calendarId, convert, row);
    }
    hide Synchronized, StoredUids, Uids, HasRow, Fetched, Converted;
  }

  lemma ConvertedIff(event: GoogleEvent, calendarId: int, convert: Converter, row: Schedule)
    ensures row in Converted(event, calendarId, convert) <==>
            exists k | 0 <= k < |convert(event)| ::
              row == Schedule(event.iCalUID, calendarId, convert(event)[k].0, convert(event)[k].1)
  {
    var rows := Converted(event, calendarId, convert);
    if k :| 0 <= k < |convert(event)| &&
            row == Schedule(event.iCalUID, calendarId, convert(event)[k].0, convert(event)[k].1) {
      assert rows[k] == row;
    }
  }

  /** Canceled are exactly the bookings that end after now, are not deleted, and are tied to an event that is gone. */
  lemma CanceledIff(s: State, events: seq<GoogleEvent>, calendarId: int, convert: Converter, now: int, i: nat)
    requires i < |s.bookings|
    ensures var s', before := Synchronized(s, events, calendarId, convert, now), s.bookings[i];
            && |s'.bookings| == |s.bookings|
            && (var gone := && before.iCalUID.Some? && HasRow(s.schedules, calendarId, before.iCalUID.value)
                            && !Fetched(events, before.iCalUID.value);
                s'.bookings[i] == if gone && before.endTimestamp > now && before.deleted == false
                                  then Booking(before.iCalUID, before.endTimestamp, CANCELED, true) else before)
  {
    RemovedBookingsCanceled(s, events, calendarId, convert, now, i);
    if s.bookings[i].iCalUID.Some? {
      StoredIff(s.schedules, calendarId, s.bookings[i].iCalUID.value);
      FetchedIff(events, s.bookings[i].iCalUID.value);
    }
    hide Synchronized, StoredUids, Uids, Fetched;
  }
}
