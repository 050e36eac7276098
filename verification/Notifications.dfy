/**
 The notifications of a booking: UtilService.getPatchedScheduledEvent, which expands the notification settings of
 an event over its hosts while it merges them in place.
 */
module Notifications {

  import opened Wrappers
  import opened Strings

  datatype NotificationType = EMAIL | TEXT | Other(name: string)

  datatype NotificationTarget = HOST | INVITEE

  /** A `HH:mm` text split at its colon. */
  datatype Before = Before(hour: nat, minute: nat)

  datatype Reminder = Reminder(kind: Option<string>, typeValue: Option<string>, remindBefore: Option<Before>)

  /** The settings of one notification, as a value. */
  datatype Notification = Notification(kind: NotificationType, reminders: seq<Reminder>)

  datatype HostProfile = HostProfile(profileId: int, email: Option<string>, phone: Option<string>)

  /** A scheduled notification; times are in seconds. */
  datatype Row = Row(
    target: NotificationTarget, kind: NotificationType, reminderType: Option<string>, reminderValue: Option<string>,
    remindAt: int, profileId: int)

  datatype Error = InvalidNotificationType

  // ---------------------------------------------------------------- merging

  function Or<T>(over: Option<T>, under: Option<T>): Option<T> {
    if over.Some? then over else under
  }

  /** { ...reminder, ...source }. */
  function Spread(reminder: Reminder, source: Option<Reminder>): Reminder {
    if source.None? then reminder
    else Reminder(Or(source.value.kind, reminder.kind), Or(source.value.typeValue, reminder.typeValue),
                  Or(source.value.remindBefore, reminder.remindBefore))
  }

  function SpreadAll(reminders: seq<Reminder>, source: Option<Reminder>): (spread: seq<Reminder>)
    ensures |spread| == |reminders|
    ensures forall i | 0 <= i < |reminders| :: spread[i] == Spread(reminders[i], source)
  {
    seq(|reminders|, i requires 0 <= i < |reminders| => Spread(reminders[i], source))
  }

  function FirstOfKind(notifications: seq<Notification>, kind: NotificationType, from: nat): (k: nat)
    requires from <= |notifications|
    ensures from <= k <= |notifications|
    ensures forall i | from <= i < k :: notifications[i].kind != kind
    ensures k < |notifications| ==> notifications[k].kind == kind
    decreases |notifications| - from
  {
    if from == |notifications| || notifications[from].kind == kind then from
    else FirstOfKind(notifications, kind, from + 1)
  }

  /** The first reminder of the first source notification of the kind. */
  function SourceReminder(source: Option<seq<Notification>>, kind: NotificationType): Option<Reminder> {
    if source.None? then None
    else
      var k := FirstOfKind(source.value, kind, 0);
      if k == |source.value| || source.value[k].reminders == [] then None else Some(source.value[k].reminders[0])
  }

  function MergedOne(notification: Notification, source: Option<seq<Notification>>): Notification {
    notification.(reminders := SpreadAll(notification.reminders, SourceReminder(source, notification.kind)))
  }

  function Merged(notifications: seq<Notification>, source: Option<seq<Notification>>): (merged: seq<Notification>)
    ensures |merged| == |notifications|
    ensures forall i | 0 <= i < |merged| :: merged[i] == MergedOne(notifications[i], source)
  {
    seq(|notifications|, i requires 0 <= i < |notifications| => MergedOne(notifications[i], source))
  }

  // ---------------------------------------------------------------- rows

  predicate CanReceive(host: HostProfile, kind: NotificationType) {
    !(kind.TEXT? && !Truthy(host.phone)) && !(kind.EMAIL? && !Truthy(host.email))
  }

  function HostValue(host: HostProfile, kind: NotificationType): Result<string, Error> {
    if kind.EMAIL? && Truthy(host.email) then Success(host.email.value)
    else if kind.TEXT? && Truthy(host.phone) then Success(host.phone.value)
    else Failure(InvalidNotificationType)
  }

  function RemindAt(start: int, reminder: Reminder): int {
    if reminder.remindBefore.None? then start
    else start - 3600 * reminder.remindBefore.value.hour - 60 * reminder.remindBefore.value.minute
  }

  function HostRow(host: HostProfile, start: int, kind: NotificationType, reminder: Reminder): Row {
    var address := if kind.EMAIL? then host.email else host.phone;
    Row(HOST, kind, reminder.kind, address, RemindAt(start, reminder), host.profileId)
  }

  function InviteeRow(host: HostProfile, start: int, kind: NotificationType, reminder: Reminder): Row {
    Row(INVITEE, kind, reminder.kind, reminder.typeValue, RemindAt(start, reminder), host.profileId)
  }

  function RowsOfReminders(host: HostProfile, start: int, notification: Notification): (rows: seq<Row>)
    ensures |rows| == |notification.reminders|
    ensures forall j | 0 <= j < |rows| :: rows[j] == HostRow(host, start, notification.kind, notification.reminders[j])
  {
    seq(|notification.reminders|, j requires 0 <= j < |notification.reminders| =>
      HostRow(host, start, notification.kind, notification.reminders[j]))
  }

  /** The rows of a host for the first n notifications: one for each reminder of those that the host can receive. */
  function HostRows(host: HostProfile, start: int, notifications: seq<Notification>, n: nat): (rows: seq<Row>)
    requires n <= |notifications|
    ensures forall i | 0 <= i < |rows| :: rows[i].target == HOST
  {
    if n == 0 then []
    else
      HostRows(host, start, notifications, n - 1) +
      if CanReceive(host, notifications[n - 1].kind) then RowsOfReminders(host, start, notifications[n - 1]) else []
  }

  /** Some invitee notification of the event has the same type, or a reminder of the same type. */
  predicate Wanted(source: seq<Notification>, kind: NotificationType, reminder: Reminder) {
    exists i | 0 <= i < |source| :: source[i].kind == kind
        || exists r | r in source[i].reminders :: r.kind == reminder.kind
  }

  function WantedRows(
      host: HostProfile, start: int, notification: Notification, source: seq<Notification>, n: nat): (rows: seq<Row>)
    requires n <= |notification.reminders|
    ensures forall i | 0 <= i < |rows| :: rows[i].target == INVITEE
  {
    if n == 0 then []
    else
      WantedRows(host, start, notification, source, n - 1) +
      if Wanted(source, notification.kind, notification.reminders[n - 1])
      then [InviteeRow(host, start, notification.kind, notification.reminders[n - 1])]
      else []
  }

  function InviteeRows(
      host: HostProfile, start: int, notifications: seq<Notification>, source: seq<Notification>, n: nat)
    : (rows: seq<Row>)
    requires n <= |notifications|
    ensures forall i | 0 <= i < |rows| :: rows[i].target == INVITEE
  {
    if n == 0 then []
    else
      InviteeRows(host, start, notifications, source, n - 1) +
      WantedRows(host, start, notifications[n - 1], source, |notifications[n - 1].reminders|)
  }

  /** getHostValue has no value for a host notification of this kind. */
  predicate Unsupported(notification: Notification) {
    notification.kind.Other? && notification.reminders != []
  }

  predicate Rejected(notifications: seq<Notification>) {
    exists i | 0 <= i < |notifications| :: Unsupported(notifications[i])
  }

  /** The settings of the booking: those of the host are the event's own, those of the invitee come with the request. */
  datatype Settings = Settings(hostFirst: bool, host: Option<seq<Notification>>, invitee: Option<seq<Notification>>)

  function Listed(notifications: Option<seq<Notification>>): seq<Notification> {
    if notifications.Some? then notifications.value else []
  }

  /** The rows of one pass, for settings merged already; only the first pass has the invitee settings of the event. */
  function PassRows(host: HostProfile, start: int, settings: Settings, source: Option<seq<Notification>>): seq<Row> {
    var hostRows := HostRows(host, start, Listed(settings.host), |Listed(settings.host)|);
    var inviteeRows :=
      if source.None? then []
      else InviteeRows(host, start, Listed(settings.invitee), source.value, |Listed(settings.invitee)|);
    if settings.hostFirst then hostRows + inviteeRows else inviteeRows + hostRows
  }

  /** The rows over the first n hosts, with the settings merged once. */
  function AllRows(
      hosts: seq<HostProfile>, start: int, settings: Settings, source: Option<seq<Notification>>, n: nat): seq<Row>
    requires n <= |hosts|
  {
    if n == 0 then []
    else
      AllRows(hosts, start, settings, source, n - 1) +
      PassRows(hosts[n - 1], start, settings, SourceAt(source, n - 1))
  }

  function SourceAt(source: Option<seq<Notification>>, pass: nat): Option<seq<Notification>> {
    if pass == 0 then source else None
  }

  function MergedList(
      notifications: Option<seq<Notification>>, source: Option<seq<Notification>>): Option<seq<Notification>>
  {
    if notifications.Some? then Some(Merged(notifications.value, source)) else None
  }

  /** The settings merged once: those of the host with themselves, those of the invitee with the event's. */
  function MergedSettings(settings: Settings, source: Option<seq<Notification>>): Settings {
    settings.(host := MergedList(settings.host, settings.host), invitee := MergedList(settings.invitee, source))
  }

  // ---------------------------------------------------------------- merging again changes nothing

  lemma SpreadTwice(reminder: Reminder, source: Option<Reminder>)
    ensures Spread(Spread(reminder, source), source) == Spread(reminder, source)
    ensures source.Some? ==> Spread(source.value, source) == source.value
  {
  }

  lemma {:induction false} FirstOfKindSame(
      a: seq<Notification>, b: seq<Notification>, kind: NotificationType, from: nat)
    requires |a| == |b| && from <= |a| && forall i | 0 <= i < |a| :: a[i].kind == b[i].kind
    ensures FirstOfKind(a, kind, from) == FirstOfKind(b, kind, from)
    decreases |a| - from
  {
    if from < |a| && a[from].kind != kind {
      FirstOfKindSame(a, b, kind, from + 1);
    }
  }

  /** While the host settings are merged with themselves, one after the other, every source reminder stays as it was. */
  lemma SourceKept(before: seq<Notification>, now: seq<Notification>, kind: NotificationType)
    requires |before| == |now|
    requires forall i | 0 <= i < |now| :: now[i] == before[i] || now[i] == MergedOne(before[i], Some(before))
    ensures SourceReminder(Some(now), kind) == SourceReminder(Some(before), kind)
  {
    FirstOfKindSame(before, now, kind, 0);
    var k := FirstOfKind(before, kind, 0);
    if k < |before| && before[k].reminders != [] {
      SpreadTwice(before[k].reminders[0], Some(before[k].reminders[0]));
    }
  }

  /** Merging the host settings with themselves is idempotent. */
  lemma HostMergeTwice(notifications: seq<Notification>)
    ensures var merged := Merged(notifications, Some(notifications));
            Merged(merged, Some(merged)) == merged
  {
    var merged := Merged(notifications, Some(notifications));
    forall i | 0 <= i < |merged| ensures MergedOne(merged[i], Some(merged)) == merged[i] {
      SourceKept(notifications, merged, notifications[i].kind);
      var source := SourceReminder(Some(notifications), notifications[i].kind);
      forall j | 0 <= j < |merged[i].reminders|
        ensures Spread(merged[i].reminders[j], source) == merged[i].reminders[j]
      {
        SpreadTwice(notifications[i].reminders[j], source);
      }
      assert SpreadAll(merged[i].reminders, source) == merged[i].reminders;
    }
  }

  /** Merging with no source changes nothing. */
  lemma MergeWithNone(notifications: seq<Notification>)
    ensures Merged(notifications, None) == notifications
  {
    forall i | 0 <= i < |notifications| ensures MergedOne(notifications[i], None) == notifications[i] {
      assert SpreadAll(notifications[i].reminders, None) == notifications[i].reminders;
    }
  }

  /** After the first pass the settings are merged for good: later passes leave them as they are. */
  lemma LaterPassesKeepSettings(settings: Settings, source: Option<seq<Notification>>)
    ensures var merged := MergedSettings(settings, source);
            MergedSettings(merged, None) == merged
  {
    if settings.host.Some? {
      HostMergeTwice(settings.host.value);
    }
    if settings.invitee.Some? {
      MergeWithNone(Merged(settings.invitee.value, source));
    }
  }

  lemma MergedRejected(notifications: seq<Notification>, source: Option<seq<Notification>>)
    ensures Rejected(Merged(notifications, source)) <==> Rejected(notifications)
  {
    var merged := Merged(notifications, source);
    forall i | 0 <= i < |merged| ensures Unsupported(merged[i]) <==> Unsupported(notifications[i]) {
    }
  }

  // ---------------------------------------------------------------- what the rows are

  function Only(target: NotificationTarget, rows: seq<Row>): seq<Row> {
    if rows == [] then []
    else
      var last := |rows| - 1;
      Only(target, rows[..last]) + if rows[last].target == target then [rows[last]] else []
  }

  lemma {:induction false} OnlyConcat(target: NotificationTarget, a: seq<Row>, b: seq<Row>)
    ensures Only(target, a + b) == Only(target, a) + Only(target, b)
    decreases |b|
  {
    if b == [] {
      assert a + b == a;
    } else {
      var last := |b| - 1;
      OnlyConcat(target, a, b[..last]);
      assert (a + b)[..|a + b| - 1] == a + b[..last];
    }
  }

  lemma {:induction false} OnlyKeeps(target: NotificationTarget, rows: seq<Row>)
    requires forall i | 0 <= i < |rows| :: rows[i].target == target
    ensures Only(target, rows) == rows
    decreases |rows|
  {
    if rows != [] {
      OnlyKeeps(target, rows[..|rows| - 1]);
      assert rows == rows[..|rows| - 1] + [rows[|rows| - 1]];
    }
  }

  lemma {:induction false} OnlyDrops(target: NotificationTarget, rows: seq<Row>)
    requires forall i | 0 <= i < |rows| :: rows[i].target != target
    ensures Only(target, rows) == []
    decreases |rows|
  {
    if rows != [] {
      OnlyDrops(target, rows[..|rows| - 1]);
    }
  }

  lemma PassRowsOnly(host: HostProfile, start: int, settings: Settings, source: Option<seq<Notification>>)
    ensures Only(HOST, PassRows(host, start, settings, source))
            == HostRows(host, start, Listed(settings.host), |Listed(settings.host)|)
    ensures Only(INVITEE, PassRows(host, start, settings, source)) ==
            if source.None? then []
            else InviteeRows(host, start, Listed(settings.invitee), source.value, |Listed(settings.invitee)|)
  {
    var hostRows := HostRows(host, start, Listed(settings.host), |Listed(settings.host)|);
    var inviteeRows :=
      if source.None? then []
      else InviteeRows(host, start, Listed(settings.invitee), source.value, |Listed(settings.invitee)|);
    OnlySplit(hostRows, inviteeRows);
    hide HostRows, InviteeRows, Only;
  }

  lemma OnlySplit(hostRows: seq<Row>, inviteeRows: seq<Row>)
    requires forall i | 0 <= i < |hostRows| :: hostRows[i].target == HOST
    requires forall i | 0 <= i < |inviteeRows| :: inviteeRows[i].target == INVITEE
    ensures Only(HOST, hostRows + inviteeRows) == hostRows == Only(HOST, inviteeRows + hostRows)
    ensures Only(INVITEE, hostRows + inviteeRows) == inviteeRows == Only(INVITEE, inviteeRows + hostRows)
  {
    OnlyConcat(HOST, hostRows, inviteeRows);
    OnlyConcat(HOST, inviteeRows, hostRows);
    OnlyConcat(INVITEE, hostRows, inviteeRows);
    OnlyConcat(INVITEE, inviteeRows, hostRows);
    OnlyKeeps(HOST, hostRows);
    OnlyDrops(HOST, inviteeRows);
    OnlyDrops(INVITEE, hostRows);
    OnlyKeeps(INVITEE, inviteeRows);
    hide Only;
  }

  lemma AllRowsOnly(
      target: NotificationTarget, hosts: seq<HostProfile>, start: int, settings: Settings,
          source: Option<seq<Notification>>, n: nat)
    requires 0 < n <= |hosts|
    ensures Only(target, AllRows(hosts, start, settings, source, n)) ==
            Only(target, AllRows(hosts, start, settings, source, n - 1)) +
            Only(target, PassRows(hosts[n - 1], start, settings, SourceAt(source, n - 1)))
  {
    hide Only, PassRows;
    OnlyConcat(target, AllRows(hosts, start, settings, source, n - 1),
        PassRows(hosts[n - 1], start, settings, SourceAt(source, n - 1)));
  }

  lemma NoRows(
      target: NotificationTarget, hosts: seq<HostProfile>, start: int, settings: Settings,
          source: Option<seq<Notification>>)
    ensures Only(target, AllRows(hosts, start, settings, source, 0)) == []
  {
  }

  /** The invitee rows do not multiply: they are those of the first host's pass. */
  lemma {:induction false} InviteeRowsOnce(
      hosts: seq<HostProfile>, start: int, settings: Settings, source: seq<Notification>, n: nat)
    requires 0 < n <= |hosts|
    ensures Only(INVITEE, AllRows(hosts, start, settings, Some(source), n)) ==
            InviteeRows(hosts[0], start, Listed(settings.invitee), source, |Listed(settings.invitee)|)
  {
    hide Only, AllRows, PassRows, InviteeRows;
    AllRowsOnly(INVITEE, hosts, start, settings, Some(source), n);
    PassRowsOnly(hosts[n - 1], start, settings, SourceAt(Some(source), n - 1));
    if n > 1 {
      InviteeRowsOnce(hosts, start, settings, source, n - 1);
    } else {
      NoRows(INVITEE, hosts, start, settings, Some(source));
    }
  }

  /** The host rows of all hosts, one host after the other. */
  function RowsOfHosts(hosts: seq<HostProfile>, start: int, notifications: seq<Notification>, n: nat): seq<Row>
    requires n <= |hosts|
  {
    if n == 0 then []
    else RowsOfHosts(hosts, start, notifications, n - 1) + HostRows(hosts[n - 1], start, notifications, |notifications|)
  }

  /** Each host has its own rows, whatever the invitee settings are. */
  lemma {:induction false} HostRowsPerHost(
      hosts: seq<HostProfile>, start: int, settings: Settings, source: Option<seq<Notification>>, n: nat)
    requires n <= |hosts|
    ensures Only(HOST, AllRows(hosts, start, settings, source, n))
            == RowsOfHosts(hosts, start, Listed(settings.host), n)
  {
    hide Only, AllRows, PassRows, HostRows;
    if n > 0 {
      HostRowsPerHost(hosts, start, settings, source, n - 1);
      AllRowsOnly(HOST, hosts, start, settings, source, n);
      PassRowsOnly(hosts[n - 1], start, settings, SourceAt(source, n - 1));
    } else {
      NoRows(HOST, hosts, start, settings, source);
    }
  }

  /** The number of reminders in the first n notifications that the host can receive. */
  function ReceivableReminders(host: HostProfile, notifications: seq<Notification>, n: nat): nat
    requires n <= |notifications|
  {
    if n == 0 then 0
    else
      ReceivableReminders(host, notifications, n - 1) +
      if CanReceive(host, notifications[n - 1].kind) then |notifications[n - 1].reminders| else 0
  }

  lemma {:induction false} OneRowPerReminder(host: HostProfile, start: int, notifications: seq<Notification>, n: nat)
    requires n <= |notifications|
    ensures |HostRows(host, start, notifications, n)| == ReceivableReminders(host, notifications, n)
  {
    if n > 0 {
      OneRowPerReminder(host, start, notifications, n - 1);
    }
  }

  /**
   Every host row carries an address of that host for its kind, unless an unsupported notification rejects the
   booking.
   */
  lemma {:induction false} HostRowsAddressed(
      host: HostProfile, start: int, notifications: seq<Notification>, n: nat, i: nat)
    requires n <= |notifications| && !Rejected(notifications) && i < |HostRows(host, start, notifications, n)|
    ensures var row := HostRows(host, start, notifications, n)[i];
            && row.profileId == host.profileId
            && HostValue(host, row.kind).Success?
            && row.reminderValue == Some(HostValue(host, row.kind).value)
  {
    if i < |HostRows(host, start, notifications, n - 1)| {
      HostRowsAddressed(host, start, notifications, n - 1, i);
    } else {
      assert !Unsupported(notifications[n - 1]);
    }
  }

  /**
   A merge gives every host reminder the fields that the first reminder of its kind has set: settings with several
   reminders of a kind, at different times, end with all of them at the first time.
   */
  lemma HostRemindersCollapse(notifications: seq<Notification>, i: nat, j: nat)
    requires i < |notifications| && j < |notifications[i].reminders|
    requires var first := SourceReminder(Some(notifications), notifications[i].kind);
             first.Some? && first.value.remindBefore.Some?
    ensures Merged(notifications, Some(notifications))[i].reminders[j].remindBefore ==
            SourceReminder(Some(notifications), notifications[i].kind).value.remindBefore
  {
    assert Merged(notifications, Some(notifications))[i] == MergedOne(notifications[i], Some(notifications));
  }

  /** The reminder has every field that the source has set, with the same value. */
  predicate Carries(reminder: Reminder, source: Option<Reminder>) {
    source.Some? ==>
      && (source.value.kind.Some? ==> reminder.kind == source.value.kind)
      && (source.value.typeValue.Some? ==> reminder.typeValue == source.value.typeValue)
      && (source.value.remindBefore.Some? ==> reminder.remindBefore == source.value.remindBefore)
  }

  lemma SpreadKeepsIff(reminder: Reminder, source: Option<Reminder>)
    ensures Spread(reminder, source) == reminder <==> Carries(reminder, source)
  {
  }

  /** No reminder says anything else than the first reminder of the first notification of its kind. */
  ghost predicate AllCarry(notifications: seq<Notification>) {
    forall i, j | 0 <= i < |notifications| && 0 <= j < |notifications[i].reminders| ::
      Carries(notifications[i].reminders[j], SourceReminder(Some(notifications), notifications[i].kind))
  }

  lemma MergedOneKeepsIff(notification: Notification, source: Option<seq<Notification>>)
    ensures MergedOne(notification, source) == notification <==>
            forall j | 0 <= j < |notification.reminders| ::
              Carries(notification.reminders[j], SourceReminder(source, notification.kind))
  {
    var reminder := SourceReminder(source, notification.kind);
    var spread := SpreadAll(notification.reminders, reminder);
    forall j | 0 <= j < |spread|
      ensures spread[j] == notification.reminders[j] <==> Carries(notification.reminders[j], reminder)
    {
      SpreadKeepsIff(notification.reminders[j], reminder);
    }
    hide SourceReminder, Carries, Spread;
    assert spread == notification.reminders <==> forall j | 0 <= j < |spread| :: spread[j] == notification.reminders[j];
  }

  /** The merge leaves the host settings of an event as they are exactly then. */
  lemma SelfMergeKeepsIff(notifications: seq<Notification>)
    ensures Merged(notifications, Some(notifications)) == notifications <==> AllCarry(notifications)
  {
    var merged := Merged(notifications, Some(notifications));
    forall i | 0 <= i < |merged|
      ensures merged[i] == notifications[i] <==>
              forall j | 0 <= j < |notifications[i].reminders| ::
                Carries(notifications[i].reminders[j], SourceReminder(Some(notifications), notifications[i].kind))
    {
      MergedOneKeepsIff(notifications[i], Some(notifications));
    }
    hide MergedOne, SourceReminder, Carries;
    assert merged == notifications <==> forall i | 0 <= i < |merged| :: merged[i] == notifications[i];
  }

  // ---------------------------------------------------------------- the rows in plain terms

  /** The time is as long before the start as the reminder says, or the start itself. */
  ghost predicate LeadsBy(start: int, remindAt: int, reminder: Reminder) {
    match reminder.remindBefore
    case None => remindAt == start
    case Some(Before(hour, minute)) => start - remindAt == 60 * (60 * hour + minute)
  }

  /** No reminder comes after the start, and a longer lead never reminds later. */
  lemma LongerLeadsEarlier(start: int, short: Reminder, long: Reminder)
    ensures LeadsBy(start, RemindAt(start, short), short) && RemindAt(start, short) <= start
    ensures short.remindBefore.Some? && long.remindBefore.Some? &&
            60 * short.remindBefore.value.hour + short.remindBefore.value.minute <=
            60 * long.remindBefore.value.hour + long.remindBefore.value.minute ==>
              RemindAt(start, long) <= RemindAt(start, short)
  {
  }

  /** The row of a reminder of a host notification. */
  ghost predicate IsHostRow(row: Row, host: HostProfile, start: int, kind: NotificationType, reminder: Reminder) {
    && row.target == HOST && row.kind == kind && row.reminderType == reminder.kind
    && row.profileId == host.profileId && LeadsBy(start, row.remindAt, reminder)
    && row.reminderValue.Some? && row.reminderValue.value != ""
    && (kind == EMAIL ==> row.reminderValue == host.email)
    && (kind == TEXT ==> row.reminderValue == host.phone)
  }

  ghost predicate IsInviteeRow(row: Row, profileId: int, start: int, kind: NotificationType, reminder: Reminder) {
    && row.target == INVITEE && row.kind == kind && row.reminderType == reminder.kind
    && row.profileId == profileId && LeadsBy(start, row.remindAt, reminder)
    && row.reminderValue == reminder.typeValue
  }

  /** Every host row comes from a reminder of the merged settings, at its lead before the start. */
  lemma {:induction false} HostRowsMeaning(
      host: HostProfile, start: int, notifications: seq<Notification>, n: nat, i: nat)
    requires n <= |notifications| && !Rejected(notifications) && i < |HostRows(host, start, notifications, n)|
    ensures exists k, j | 0 <= k < n && 0 <= j < |notifications[k].reminders| ::
              IsHostRow(HostRows(host, start, notifications, n)[i], host, start,
                        notifications[k].kind, notifications[k].reminders[j])
    ensures HostRows(host, start, notifications, n)[i].remindAt <= start
  {
    var front := HostRows(host, start, notifications, n - 1);
    if i < |front| {
      HostRowsMeaning(host, start, notifications, n - 1, i);
    } else {
      var j := i - |front|;
      assert !Unsupported(notifications[n - 1]);
      HostRowMeaning(host, start, notifications[n - 1], j);
      LongerLeadsEarlier(start, notifications[n - 1].reminders[j], notifications[n - 1].reminders[j]);
    }
  }

  lemma HostRowMeaning(host: HostProfile, start: int, notification: Notification, j: nat)
    requires CanReceive(host, notification.kind) && !Unsupported(notification) && j < |notification.reminders|
    ensures IsHostRow(RowsOfReminders(host, start, notification)[j], host, start,
                      notification.kind, notification.reminders[j])
  {
  }

  /** Who can receive what, by the addresses that are there and not empty. */
  lemma CanReceiveIff(host: HostProfile, kind: NotificationType)
    ensures CanReceive(host, kind) <==>
            && (kind == TEXT ==> host.phone.Some? && host.phone.value != "")
            && (kind == EMAIL ==> host.email.Some? && host.email.value != "")
  {
  }

  /** Every invitee row comes from a wanted reminder of the merged settings, at its lead before the start. */
  lemma {:induction false} InviteeRowsMeaning(
      host: HostProfile, start: int, notifications: seq<Notification>, source: seq<Notification>, n: nat, i: nat)
    requires n <= |notifications| && i < |InviteeRows(host, start, notifications, source, n)|
    ensures exists k, j | 0 <= k < n && 0 <= j < |notifications[k].reminders| ::
              && IsInviteeRow(InviteeRows(host, start, notifications, source, n)[i], host.profileId, start,
                              notifications[k].kind, notifications[k].reminders[j])
              && Wanted(source, notifications[k].kind, notifications[k].reminders[j])
    ensures InviteeRows(host, start, notifications, source, n)[i].remindAt <= start
  {
    hide Wanted, WantedRows;
    var front := InviteeRows(host, start, notifications, source, n - 1);
    if i < |front| {
      InviteeRowsMeaning(host, start, notifications, source, n - 1, i);
    } else {
      WantedRowsMeaning(host, start, notifications[n - 1], source, |notifications[n - 1].reminders|, i - |front|);
    }
  }

  lemma {:induction false} WantedRowsMeaning(
      host: HostProfile, start: int, notification: Notification, source: seq<Notification>, n: nat, i: nat)
    requires n <= |notification.reminders| && i < |WantedRows(host, start, notification, source, n)|
    ensures exists j | 0 <= j < n ::
              && IsInviteeRow(WantedRows(host, start, notification, source, n)[i], host.profileId, start,
                              notification.kind, notification.reminders[j])
              && Wanted(source, notification.kind, notification.reminders[j])
    ensures WantedRows(host, start, notification, source, n)[i].remindAt <= start
  {
    hide Wanted;
    var front := WantedRows(host, start, notification, source, n - 1);
    if i < |front| {
      WantedRowsMeaning(host, start, notification, source, n - 1, i);
    } else {
      var last := notification.reminders[n - 1];
      LongerLeadsEarlier(start, last, last);
      assert IsInviteeRow(WantedRows(host, start, notification, source, n)[i], host.profileId, start,
                          notification.kind, last);
    }
  }

  /** A wanted reminder of the settings has a row. */
  lemma {:induction false} WantedHasRow(
      host: HostProfile, start: int, notification: Notification, source: seq<Notification>, n: nat, j: nat)
    requires j < n <= |notification.reminders|
    requires Wanted(source, notification.kind, notification.reminders[j])
    ensures exists row | row in WantedRows(host, start, notification, source, n) ::
              IsInviteeRow(row, host.profileId, start, notification.kind, notification.reminders[j])
  {
    hide Wanted;
    if j < n - 1 {
      WantedHasRow(host, start, notification, source, n - 1, j);
    } else {
      var rows := WantedRows(host, start, notification, source, n);
      var last := notification.reminders[n - 1];
      LongerLeadsEarlier(start, last, last);
      assert IsInviteeRow(rows[|rows| - 1], host.profileId, start, notification.kind, last);
    }
  }

  lemma {:induction false} InviteeRowsComplete(
      host: HostProfile, start: int, notifications: seq<Notification>, source: seq<Notification>, n: nat,
      k: nat, j: nat)
    requires k < n <= |notifications| && j < |notifications[k].reminders|
    requires Wanted(source, notifications[k].kind, notifications[k].reminders[j])
    ensures exists row | row in InviteeRows(host, start, notifications, source, n) ::
              IsInviteeRow(row, host.profileId, start, notifications[k].kind, notifications[k].reminders[j])
  {
    hide Wanted, WantedRows, IsInviteeRow;
    if k < n - 1 {
      InviteeRowsComplete(host, start, notifications, source, n - 1, k, j);
    } else {
      WantedHasRow(host, start, notifications[k], source, |notifications[k].reminders|, j);
    }
  }

  /** Every reminder that the host can receive has a row. */
  lemma {:induction false} HostRowsComplete(
      host: HostProfile, start: int, notifications: seq<Notification>, n: nat, k: nat, j: nat)
    requires k < n <= |notifications| && !Rejected(notifications)
    requires j < |notifications[k].reminders| && CanReceive(host, notifications[k].kind)
    ensures exists row | row in HostRows(host, start, notifications, n) ::
              IsHostRow(row, host, start, notifications[k].kind, notifications[k].reminders[j])
  {
    if k < n - 1 {
      HostRowsComplete(host, start, notifications, n - 1, k, j);
    } else {
      assert !Unsupported(notifications[k]);
      HostRowMeaning(host, start, notifications[k], j);
      assert RowsOfReminders(host, start, notifications[k])[j] in HostRows(host, start, notifications, n);
    }
    hide IsHostRow;
  }

  /** No row of a whole expansion reminds after the start of the meeting. */
  lemma {:induction false} ExpansionRemindsInTime(
      hosts: seq<HostProfile>, start: int, settings: Settings, source: Option<seq<Notification>>, n: nat, row: Row)
    requires n <= |hosts| && !Rejected(Listed(settings.host))
    requires row in AllRows(hosts, start, settings, source, n)
    ensures row.remindAt <= start
    decreases n
  {
    hide PassRows, Rejected, Listed, SourceAt;
    if row in AllRows(hosts, start, settings, source, n - 1) {
      ExpansionRemindsInTime(hosts, start, settings, source, n - 1, row);
    } else {
      assert row in PassRows(hosts[n - 1], start, settings, SourceAt(source, n - 1));
      PassRemindsInTime(hosts[n - 1], start, settings, SourceAt(source, n - 1), row);
    }
  }

  lemma PassRemindsInTime(
      host: HostProfile, start: int, settings: Settings, source: Option<seq<Notification>>, row: Row)
    requires !Rejected(Listed(settings.host)) && row in PassRows(host, start, settings, source)
    ensures row.remindAt <= start
  {
    var notifications, invitees := Listed(settings.host), Listed(settings.invitee);
    var hostRows := HostRows(host, start, notifications, |notifications|);
    hide HostRows, InviteeRows, Rejected;
    if row in hostRows {
      var i :| 0 <= i < |hostRows| && hostRows[i] == row;
      HostRowsMeaning(host, start, notifications, |notifications|, i);
    } else {
      var inviteeRows := InviteeRows(host, start, invitees, source.value, |invitees|);
      var i :| 0 <= i < |inviteeRows| && inviteeRows[i] == row;
      InviteeRowsMeaning(host, start, invitees, source.value, |invitees|, i);
    }
  }

  /** In a pass, the rows of one target come all before those of the other, in the order of the event's settings. */
  lemma PassOrder(host: HostProfile, start: int, settings: Settings, source: Option<seq<Notification>>, i: nat, j: nat)
    requires i < j < |PassRows(host, start, settings, source)|
    ensures var rows := PassRows(host, start, settings, source);
            rows[i].target != rows[j].target ==> (rows[i].target == HOST <==> settings.hostFirst)
  {
  }

  /** A reminder is unwanted exactly when no source notification and none of their reminders has its type. */
  lemma UnwantedIff(source: seq<Notification>, kind: NotificationType, reminder: Reminder)
    ensures !Wanted(source, kind, reminder) <==>
            && (forall i | 0 <= i < |source| :: source[i].kind != kind)
            && (forall i, j | 0 <= i < |source| && 0 <= j < |source[i].reminders| ::
                  source[i].reminders[j].kind != reminder.kind)
  {
    if Wanted(source, kind, reminder) {
      var i :| 0 <= i < |source| && (source[i].kind == kind
                                     || exists r | r in source[i].reminders :: r.kind == reminder.kind);
      if source[i].kind != kind {
        var r :| r in source[i].reminders && r.kind == reminder.kind;
        var j :| 0 <= j < |source[i].reminders| && source[i].reminders[j] == r;
        assert source[i].reminders[j].kind == reminder.kind;
      }
    }
  }

  /**
   Field by field, a merged reminder says what its source says, and what it said itself where the source is silent.
   */
  lemma MergedReminderFields(notifications: seq<Notification>, source: Option<seq<Notification>>, i: nat, j: nat)
    requires i < |notifications| && j < |notifications[i].reminders|
    ensures |Merged(notifications, source)| == |notifications|
    ensures Merged(notifications, source)[i].kind == notifications[i].kind
    ensures |Merged(notifications, source)[i].reminders| == |notifications[i].reminders|
    ensures var own, merged, from := notifications[i].reminders[j], Merged(notifications, source)[i].reminders[j],
              SourceReminder(source, notifications[i].kind);
            && merged.kind == (if from.Some? && from.value.kind.Some? then from.value.kind else own.kind)
            && merged.typeValue == (if from.Some? && from.value.typeValue.Some? then from.value.typeValue
                                    else own.typeValue)
            && merged.remindBefore == (if from.Some? && from.value.remindBefore.Some? then from.value.remindBefore
                                       else own.remindBefore)
  {
    assert Merged(notifications, source)[i] == MergedOne(notifications[i], source);
    hide SourceReminder;
  }

  /** The source of a kind is the first reminder of the first source notification of that kind. */
  lemma SourceReminderMeaning(source: seq<Notification>, kind: NotificationType, k: nat)
    requires k < |source| && source[k].kind == kind && forall i | 0 <= i < k :: source[i].kind != kind
    ensures SourceReminder(Some(source), kind) ==
            if |source[k].reminders| == 0 then None else Some(source[k].reminders[0])
  {
    var first := FirstOfKind(source, kind, 0);
    assert !(first < k) && !(k < first);
  }

  lemma NoSourceReminder(source: Option<seq<Notification>>, kind: NotificationType)
    requires source.Some? ==> forall i | 0 <= i < |source.value| :: source.value[i].kind != kind
    ensures SourceReminder(source, kind) == None
  {
  }

  /** A row says what the source of its kind says, and what its own reminder says where the source is silent. */
  ghost predicate SaysBoth(row: Row, start: int, kind: NotificationType, own: Reminder, from: Option<Reminder>) {
    && row.kind == kind
    && row.reminderType == (if from.Some? && from.value.kind.Some? then from.value.kind else own.kind)
    && (if from.Some? && from.value.remindBefore.Some? then LeadsBy(start, row.remindAt, from.value)
        else LeadsBy(start, row.remindAt, own))
    && (row.target == INVITEE ==>
          row.reminderValue == if from.Some? && from.value.typeValue.Some? then from.value.typeValue else own.typeValue)
  }

  /** The row is that of one of these reminders, with this source. */
  ghost predicate Comes(row: Row, start: int, own: seq<Notification>, source: Option<seq<Notification>>) {
    exists k, j | 0 <= k < |own| && 0 <= j < |own[k].reminders| ::
      SaysBoth(row, start, own[k].kind, own[k].reminders[j], SourceReminder(source, own[k].kind))
  }

  lemma HostRowComes(
      row: Row, host: HostProfile, start: int, own: seq<Notification>, source: Option<seq<Notification>>,
      k: nat, j: nat)
    requires k < |own| && j < |own[k].reminders| && row.target == HOST
    requires var merged := Merged(own, source)[k];
             |merged.reminders| == |own[k].reminders| &&
             IsHostRow(row, host, start, merged.kind, merged.reminders[j])
    ensures Comes(row, start, own, source)
  {
    MergedReminderFields(own, source, k, j);
    assert SaysBoth(row, start, own[k].kind, own[k].reminders[j], SourceReminder(source, own[k].kind));
    hide SourceReminder;
  }

  lemma InviteeRowComes(
      row: Row, id: int, start: int, own: seq<Notification>, source: Option<seq<Notification>>, k: nat, j: nat)
    requires k < |own| && j < |own[k].reminders|
    requires var merged := Merged(own, source)[k];
             |merged.reminders| == |own[k].reminders| &&
             IsInviteeRow(row, id, start, merged.kind, merged.reminders[j])
    ensures Comes(row, start, own, source)
  {
    MergedReminderFields(own, source, k, j);
    assert SaysBoth(row, start, own[k].kind, own[k].reminders[j], SourceReminder(source, own[k].kind));
    hide SourceReminder;
  }

  /** Host rows come from the host settings with themselves as source, invitee rows with the event's as source. */
  ghost predicate ComesFromSettings(row: Row, start: int, settings: Settings, source: Option<seq<Notification>>) {
    if row.target == HOST then Comes(row, start, Listed(settings.host), settings.host)
    else Comes(row, start, Listed(settings.invitee), source)
  }

  lemma PassRowsCome(
      host: HostProfile, start: int, settings: Settings, source: Option<seq<Notification>>,
      wanted: Option<seq<Notification>>, row: Row)
    requires !Rejected(Listed(settings.host))
    requires row in PassRows(host, start, MergedSettings(settings, source), wanted)
    ensures ComesFromSettings(row, start, settings, source)
  {
    var merged := MergedSettings(settings, source);
    var notifications, invitees := Listed(merged.host), Listed(merged.invitee);
    var hostRows := HostRows(host, start, notifications, |notifications|);
    hide HostRows, InviteeRows, Rejected, Comes;
    if row in hostRows {
      assert notifications == Merged(Listed(settings.host), settings.host) by { hide Merged; }
      MergedRejected(Listed(settings.host), settings.host);
      var i :| 0 <= i < |hostRows| && hostRows[i] == row;
      HostRowsMeaning(host, start, notifications, |notifications|, i);
      var k, j :| 0 <= k < |notifications| && 0 <= j < |notifications[k].reminders| &&
        IsHostRow(row, host, start, notifications[k].kind, notifications[k].reminders[j]);
      HostRowComes(row, host, start, Listed(settings.host), settings.host, k, j);
    } else {
      var inviteeRows := InviteeRows(host, start, invitees, wanted.value, |invitees|);
      assert invitees == Merged(Listed(settings.invitee), source) by { hide Merged; }
      var i :| 0 <= i < |inviteeRows| && inviteeRows[i] == row;
      InviteeRowsMeaning(host, start, invitees, wanted.value, |invitees|, i);
      var k, j :| 0 <= k < |invitees| && 0 <= j < |invitees[k].reminders| &&
        IsInviteeRow(row, host.profileId, start, invitees[k].kind, invitees[k].reminders[j]);
      InviteeRowComes(row, host.profileId, start, Listed(settings.invitee), source, k, j);
    }
  }

  /** Every row of a whole expansion says what the settings of the event and of the request say. */
  lemma {:induction false} ExpansionRowsCome(
      hosts: seq<HostProfile>, start: int, settings: Settings, source: Option<seq<Notification>>, n: nat, row: Row)
    requires n <= |hosts| && !Rejected(Listed(settings.host))
    requires row in AllRows(hosts, start, MergedSettings(settings, source), source, n)
    ensures ComesFromSettings(row, start, settings, source)
    decreases n
  {
    hide PassRows, Rejected, Listed, SourceAt, MergedSettings, ComesFromSettings;
    var merged := MergedSettings(settings, source);
    if row in AllRows(hosts, start, merged, source, n - 1) {
      ExpansionRowsCome(hosts, start, settings, source, n - 1, row);
    } else {
      assert row in PassRows(hosts[n - 1], start, merged, SourceAt(source, n - 1));
      PassRowsCome(hosts[n - 1], start, settings, source, SourceAt(source, n - 1), row);
    }
  }

  // ---------------------------------------------------------------- the service

  /** A notification object, whose reminders the merge replaces. */
  class NotificationObject {
    const kind: NotificationType
    var reminders: seq<Reminder>

    constructor (kind: NotificationType, reminders: seq<Reminder>)
      ensures this.kind == kind && this.reminders == reminders
    {
      this.kind, this.reminders := kind, reminders;
    }

    ghost function Value(): Notification
      reads this
    {
      Notification(kind, reminders)
    }
  }

  ghost function Values(objects: seq<NotificationObject>): (values: seq<Notification>)
    reads objects
    ensures |values| == |objects|
    ensures forall i | 0 <= i < |objects| :: values[i] == objects[i].Value()
  {
    seq(|objects|, i requires 0 <= i < |objects| reads objects => objects[i].Value())
  }

  predicate Distinct(objects: seq<NotificationObject>) {
    forall i, j | 0 <= i < j < |objects| :: objects[i] != objects[j]
  }

  method FindSourceReminder(source: seq<NotificationObject>, kind: NotificationType) returns (found: Option<Reminder>)
    ensures found == SourceReminder(Some(Values(source)), kind)
  {
    var k := 0;
    while k < |source| && source[k].kind != kind
      invariant 0 <= k <= |source|
      invariant forall i | 0 <= i < k :: source[i].kind != kind
    {
      k := k + 1;
    }
    ghost var values := Values(source);
    assert forall i | 0 <= i < |source| :: values[i].kind == source[i].kind;
    assert k == FirstOfKind(values, kind, 0);
    found := if k == |source| || source[k].reminders == [] then None else Some(source[k].reminders[0]);
  }

  /** The source reminder of a kind, while the objects are merged one after the other. */
  method SourceFor(objects: seq<NotificationObject>, source: Option<seq<NotificationObject>>, kind: NotificationType,
                   ghost before: seq<Notification>, ghost from: Option<seq<Notification>>)
    returns (found: Option<Reminder>)
    requires |before| == |objects| && source.Some? == from.Some?
    requires forall j | 0 <= j < |objects| ::
               objects[j].Value() == before[j]
               || objects[j].Value() == MergedOne(before[j], from)
    requires source.Some?
             ==> if source.value == objects then from.value == before else Values(source.value) == from.value
    ensures found == SourceReminder(from, kind)
  {
    if source.None? {
      return None;
    }
    found := FindSourceReminder(source.value, kind);
    if source.value == objects {
      SourceKept(before, Values(objects), kind);
    }
  }

  /** Replaces the reminders of every notification by the merged ones; the source may be the list itself. */
  method MergeReminders(objects: seq<NotificationObject>, source: Option<seq<NotificationObject>>)
    requires Distinct(objects)
    requires source.Some? ==> source.value == objects || forall o | o in source.value :: o !in objects
    modifies objects
    ensures Values(objects)
            == Merged(old(Values(objects)), if source.Some? then Some(old(Values(source.value))) else None)
  {
    hide SourceReminder, SpreadAll;
    ghost var before := Values(objects);
    ghost var from := if source.Some? then Some(Values(source.value)) else None;
    for i := 0 to |objects|
      invariant forall j | 0 <= j < i :: objects[j].Value() == MergedOne(before[j], from)
      invariant forall j | i <= j < |objects| :: objects[j].Value() == before[j]
      invariant source.Some? && source.value != objects ==> Values(source.value) == from.value
    {
      var notification := objects[i];
      var sourceReminder := SourceFor(objects, source, notification.kind, before, from);
      assert source.Some? && source.value != objects
          ==> forall k | 0 <= k < |source.value| :: source.value[k].Value() == from.value[k];
      SetReminders(objects, i, SpreadAll(notification.reminders, sourceReminder));
      if source.Some? && source.value != objects {
        forall k | 0 <= k < |source.value| ensures source.value[k].Value() == from.value[k] {
          assert source.value[k] in source.value && objects[i] in objects;
        }
        assert Values(source.value) == from.value;
      }
    }
  }

  method SetReminders(objects: seq<NotificationObject>, i: nat, reminders: seq<Reminder>)
    requires i < |objects| && Distinct(objects)
    modifies objects[i]
    ensures objects[i].Value() == old(objects[i].Value()).(reminders := reminders)
    ensures forall j | 0 <= j < |objects| && j != i :: objects[j].Value() == old(objects[j].Value())
  {
    objects[i].reminders := reminders;
  }

  method GetHostValue(host: HostProfile, kind: NotificationType) returns (value: Result<string, Error>)
    ensures value == HostValue(host, kind)
  {
    if kind == EMAIL && Truthy(host.email) {
      value := Success(host.email.value);
    } else if kind == TEXT && Truthy(host.phone) {
      value := Success(host.phone.value);
    } else {
      value := Failure(InvalidNotificationType);
    }
  }

  /** The rows of one notification that the host can receive. */
  method HostRowsOfOne(
      host: HostProfile, start: int, notification: NotificationObject) returns (rows: Result<seq<Row>, Error>)
    requires CanReceive(host, notification.kind)
    ensures rows == if Unsupported(notification.Value()) then Failure(InvalidNotificationType)
                    else Success(RowsOfReminders(host, start, notification.Value()))
  {
    var list: seq<Row> := [];
    for j := 0 to |notification.reminders|
      invariant |list| == j && (j > 0 ==> !notification.kind.Other?)
      invariant forall k | 0 <= k < j :: list[k] == HostRow(host, start, notification.kind, notification.reminders[k])
    {
      var reminder := notification.reminders[j];
      var value := GetHostValue(host, notification.kind);
      if value.Failure? {
        return Failure(value.error);
      }
      list := list
          + [Row(HOST, notification.kind, reminder.kind, Some(value.value), RemindAt(start, reminder), host.profileId)];
    }
    assert list == RowsOfReminders(host, start, notification.Value());
    rows := Success(list);
  }

  method GenerateHostRows(
      host: HostProfile, start: int, objects: seq<NotificationObject>) returns (rows: Result<seq<Row>, Error>)
    ensures rows == if Rejected(Values(objects)) then Failure(InvalidNotificationType)
                    else Success(HostRows(host, start, Values(objects), |objects|))
  {
    ghost var values := Values(objects);
    var list: seq<Row> := [];
    for i := 0 to |objects|
      invariant list == HostRows(host, start, values, i)
      invariant forall k | 0 <= k < i :: !Unsupported(values[k])
    {
      assert values[i] == objects[i].Value();
      var noHostPhone := objects[i].kind == TEXT && !Truthy(host.phone);
      var noHostEmail := objects[i].kind == EMAIL && !Truthy(host.email);
      if !noHostPhone && !noHostEmail {
        var generated := HostRowsOfOne(host, start, objects[i]);
        if generated.Failure? {
          return generated;
        }
        list := list + generated.value;
      }
    }
    rows := Success(list);
  }

  method FindWanted(source: seq<NotificationObject>, kind: NotificationType, reminder: Reminder) returns (found: bool)
    ensures found == Wanted(Values(source), kind, reminder)
  {
    ghost var values := Values(source);
    for i := 0 to |source|
      invariant forall k | 0 <= k < i ::
                  values[k].kind != kind
                  && forall r | r in values[k].reminders :: r.kind != reminder.kind
    {
      assert values[i] == source[i].Value();
      if source[i].kind == kind || exists r | r in source[i].reminders :: r.kind == reminder.kind {
        return true;
      }
    }
    found := false;
  }

  method WantedRowsOfOne(
      host: HostProfile, start: int, notification: NotificationObject, source: seq<NotificationObject>)
    returns (rows: seq<Row>)
    ensures rows == WantedRows(host, start, notification.Value(), Values(source), |notification.reminders|)
  {
    rows := [];
    for j := 0 to |notification.reminders|
      invariant rows == WantedRows(host, start, notification.Value(), Values(source), j)
    {
      var reminder := notification.reminders[j];
      var found := FindWanted(source, notification.kind, reminder);
      if found {
        rows := rows + [Row(INVITEE, notification.kind, reminder.kind, reminder.typeValue, RemindAt(start, reminder),
            host.profileId)];
      }
    }
  }

  /** Without invitee settings of the event nothing passes the filter. */
  method GenerateInviteeRows(
      host: HostProfile, start: int, objects: seq<NotificationObject>, source: Option<seq<NotificationObject>>)
    returns (rows: seq<Row>)
    ensures rows == if source.None? then []
            else InviteeRows(host, start, Values(objects), Values(source.value), |objects|)
  {
    rows := [];
    if source.None? {
      return;
    }
    for i := 0 to |objects|
      invariant rows == InviteeRows(host, start, Values(objects), Values(source.value), i)
    {
      var wanted := WantedRowsOfOne(host, start, objects[i], source.value);
      rows := rows + wanted;
    }
  }

  // ---------------------------------------------------------------- passes

  function Objects(list: Option<seq<NotificationObject>>): seq<NotificationObject> {
    if list.Some? then list.value else []
  }

  ghost function ValuesOf(list: Option<seq<NotificationObject>>): Option<seq<Notification>>
    reads Objects(list)
  {
    if list.Some? then Some(Values(list.value)) else None
  }

  predicate Apart(a: seq<NotificationObject>, b: seq<NotificationObject>) {
    forall i | 0 <= i < |a| :: a[i] !in b
  }

  method MergeOptional(list: Option<seq<NotificationObject>>, source: Option<seq<NotificationObject>>)
    requires Distinct(Objects(list)) && (source == list || Apart(Objects(source), Objects(list)))
    modifies Objects(list)
    ensures ValuesOf(list) == MergedList(old(ValuesOf(list)), old(ValuesOf(source)))
  {
    if list.Some? {
      MergeReminders(list.value, source);
    }
  }

  /** Objects that did not change hold the same settings. */
  twostate lemma ValuesKept(list: Option<seq<NotificationObject>>)
    requires forall i | 0 <= i < |Objects(list)| :: unchanged(Objects(list)[i])
    ensures ValuesOf(list) == old(ValuesOf(list))
  {
    if list.Some? {
      forall i | 0 <= i < |list.value| ensures Values(list.value)[i] == old(Values(list.value)[i]) {
        assert Objects(list)[i] == list.value[i];
      }
    }
  }

  /** One merge pass over the settings of the booking; the host settings are the event's own objects. */
  method MergeSettings(host: Option<seq<NotificationObject>>, invitee: Option<seq<NotificationObject>>,
                       source: Option<seq<NotificationObject>>)
    requires Distinct(Objects(host)) && Distinct(Objects(invitee))
    requires Apart(Objects(host), Objects(invitee)) && Apart(Objects(source), Objects(invitee))
             && Apart(Objects(source), Objects(host))
    modifies Objects(host), Objects(invitee)
    ensures ValuesOf(host) == MergedList(old(ValuesOf(host)), old(ValuesOf(host)))
    ensures ValuesOf(invitee) == MergedList(old(ValuesOf(invitee)), old(ValuesOf(source)))
    ensures ValuesOf(source) == old(ValuesOf(source))
  {
    hide Merged, Values, ValuesOf;
    MergeOptional(host, host);
    assert forall i | 0 <= i < |Objects(invitee)| :: Objects(invitee)[i] in Objects(invitee);
    ValuesKept(invitee);
    ValuesKept(source);
    label Merging:
    MergeOptional(invitee, source);
    ValuesKept@Merging(host);
    ValuesKept@Merging(source);
  }

  ghost function SettingsOf(
      hostFirst: bool, host: Option<seq<NotificationObject>>, invitee: Option<seq<NotificationObject>>): Settings
    reads Objects(host), Objects(invitee)
  {
    Settings(hostFirst, ValuesOf(host), ValuesOf(invitee))
  }

  lemma ListedValues(list: Option<seq<NotificationObject>>)
    ensures Listed(ValuesOf(list)) == Values(Objects(list))
  {
    if list.None? {
      assert Values(Objects(list)) == [];
    }
  }

  method GetPatchedScheduleNotification(
    hostProfile: HostProfile, start: int, hostFirst: bool,
    host: Option<seq<NotificationObject>>, invitee: Option<seq<NotificationObject>>,
        source: Option<seq<NotificationObject>>)
    returns (rows: Result<seq<Row>, Error>)
    requires Distinct(Objects(host)) && Distinct(Objects(invitee))
    requires Apart(Objects(host), Objects(invitee)) && Apart(Objects(source), Objects(invitee))
             && Apart(Objects(source), Objects(host))
    modifies Objects(host), Objects(invitee)
    ensures SettingsOf(hostFirst, host, invitee)
            == MergedSettings(old(SettingsOf(hostFirst, host, invitee)), old(ValuesOf(source)))
    ensures ValuesOf(source) == old(ValuesOf(source))
    ensures rows == if Rejected(Listed(ValuesOf(host))) then Failure(InvalidNotificationType)
                    else Success(PassRows(hostProfile, start, SettingsOf(hostFirst, host, invitee), ValuesOf(source)))
  {
    hide MergedList, Values, HostRows, InviteeRows, Rejected;
    MergeSettings(host, invitee, source);
    ListedValues(host);
    ListedValues(invitee);
    var inviteeRows := GenerateInviteeRows(hostProfile, start, Objects(invitee), source);
    var hostRows := GenerateHostRows(hostProfile, start, Objects(host));
    if hostRows.Failure? {
      return hostRows;
    }
    rows := Success(if hostFirst then hostRows.value + inviteeRows else inviteeRows + hostRows.value);
  }

  /** Whether an unsupported host notification rejects the booking. */
  function Expansion(
      hosts: seq<HostProfile>, start: int, settings: Settings, source: Option<seq<Notification>>)
    : Result<seq<Row>, Error>
  {
    if hosts != [] && Rejected(Listed(settings.host)) then Failure(InvalidNotificationType)
    else Success(AllRows(hosts, start, MergedSettings(settings, source), source, |hosts|))
  }

  /**
   The loop of getPatchedScheduledEvent. Every pass merges the settings again, but the rows are those of the settings
   merged once.
   */
  method GetPatchedScheduledEvent(
    hostProfiles: seq<HostProfile>, start: int, hostFirst: bool,
    host: Option<seq<NotificationObject>>, invitee: Option<seq<NotificationObject>>,
        source: Option<seq<NotificationObject>>)
    returns (rows: Result<seq<Row>, Error>)
    requires Distinct(Objects(host)) && Distinct(Objects(invitee))
    requires Apart(Objects(host), Objects(invitee)) && Apart(Objects(source), Objects(invitee))
             && Apart(Objects(source), Objects(host))
    modifies Objects(host), Objects(invitee)
    ensures rows == Expansion(hostProfiles, start, old(SettingsOf(hostFirst, host, invitee)), old(ValuesOf(source)))
    ensures SettingsOf(hostFirst, host, invitee) ==
            if hostProfiles == [] then old(SettingsOf(hostFirst, host, invitee))
            else MergedSettings(old(SettingsOf(hostFirst, host, invitee)), old(ValuesOf(source)))
  {
    hide MergedSettings, PassRows, Rejected, Values, ValuesOf, SettingsOf;
    ghost var settings := SettingsOf(hostFirst, host, invitee);
    ghost var from := ValuesOf(source);
    ghost var merged := MergedSettings(settings, from);
    var all: seq<Row> := [];
    var eventInvitee := source;
    for k := 0 to |hostProfiles|
      invariant all == AllRows(hostProfiles, start, merged, from, k)
      invariant eventInvitee == if k == 0 then source else None
      invariant SettingsOf(hostFirst, host, invitee) == if k == 0 then settings else merged
      invariant k > 0 ==> !Rejected(Listed(settings.host))
      invariant ValuesOf(eventInvitee) == SourceAt(from, k)
    {
      LaterPassesKeepSettings(settings, from);
      var generated := GetPatchedScheduleNotification(hostProfiles[k], start, hostFirst, host, invitee, eventInvitee);
      RejectedAsBefore(settings, from);
      SettingsHost(hostFirst, host, invitee);
      if generated.Failure? {
        return generated;
      }
      all := all + generated.value;
      eventInvitee := None;
      NoValues();
    }
    rows := Success(all);
  }

  lemma RejectedAsBefore(settings: Settings, source: Option<seq<Notification>>)
    ensures Rejected(Listed(MergedSettings(settings, source).host)) <==> Rejected(Listed(settings.host))
  {
    if settings.host.Some? {
      MergedRejected(settings.host.value, settings.host);
    }
  }

  lemma SettingsHost(hostFirst: bool, host: Option<seq<NotificationObject>>, invitee: Option<seq<NotificationObject>>)
    ensures SettingsOf(hostFirst, host, invitee).host == ValuesOf(host)
  {
  }

  lemma NoValues()
    ensures ValuesOf(None) == None
  {
  }

  /** For e-mail and text notifications the expansion never fails. */
  lemma ExpandsIff(hosts: seq<HostProfile>, start: int, settings: Settings, source: Option<seq<Notification>>)
    ensures Expansion(hosts, start, settings, source).Failure? <==>
            && hosts != []
            && exists i | 0 <= i < |Listed(settings.host)| :: Listed(settings.host)[i].kind.Other?
                && Listed(settings.host)[i].reminders != []
  {
    hide AllRows, MergedSettings;
  }
}
