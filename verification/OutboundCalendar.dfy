/**
 The single outbound calendar of a profile, across Google and Apple: the integration pass of
 GoogleIntegrationsService._create and CalendarIntegrationsController.patchAllCalendarIntegrations.
 */
module OutboundCalendar {

  import opened Wrappers

  datatype Vendor = GOOGLE | APPLE | ZOOM | KAKAOTALK

  /** Each vendor keeps its calendars in a table of its own. */
  datatype Key = Key(vendor: Vendor, id: int)

  datatype Setting = Setting(conflictCheck: bool, outboundWriteSync: bool)

  datatype Calendar = Calendar(profileId: int, setting: Setting)

  type Calendars = map<Key, Calendar>

  function Outbound(calendars: Calendars, profileId: int): set<Key> {
    set key | key in calendars && calendars[key].profileId == profileId && calendars[key].setting.outboundWriteSync
  }

  ghost predicate AtMostOne(calendars: Calendars, profileId: int) {
    forall a, b | a in Outbound(calendars, profileId) && b in Outbound(calendars, profileId) :: a == b
  }

  /** A row of the patch request. */
  datatype Request = Request(key: Key, setting: Setting)

  /** How a vendor's synchronization ends, if the patch runs one. */
  datatype SyncResult = Synchronized | InvalidCredentials | SyncFailure

  datatype Syncs = Syncs(google: SyncResult, apple: SyncResult) {
    function Of(vendor: Vendor): SyncResult {
      if vendor == GOOGLE then google else apple
    }
  }

  /** A patch request of a profile, with what the vendors' synchronizations answer. */
  datatype Patch = Patch(profileId: int, requests: seq<Request>, syncs: Syncs)

  datatype Failure = NotAnOwner | CredentialsInvalid | NotSynchronized

  datatype Response = Done | BadRequest | Error(failure: Failure)

  // ---------------------------------------------------------------- integration

  /** The settings given to the calendars of a new Google integration, in order. */
  function InitialSettings(primary: seq<bool>, isFirstIntegration: bool, isFirstPrimary: bool): (settings: seq<Setting>)
    ensures |settings| == |primary|
  {
    if primary == [] then []
    else
      var chosen := primary[0] && isFirstIntegration && isFirstPrimary;
      [Setting(chosen, chosen)] + InitialSettings(primary[1..], isFirstIntegration, isFirstPrimary && !chosen)
  }

  /** New rows, one for each id. */
  function AddAll(
      calendars: Calendars, vendor: Vendor, profileId: int, ids: seq<int>, settings: seq<Setting>): Calendars
    requires |ids| == |settings|
  {
    if ids == [] then calendars
    else
      var last := |ids| - 1;
      AddAll(calendars, vendor, profileId, ids[..last], settings[..last])[
        Key(vendor, ids[last]) := Calendar(profileId, settings[last])]
  }

  function GoogleIntegrated(calendars: Calendars, profileId: int, ids: seq<int>, primary: seq<bool>): Calendars
    requires |ids| == |primary|
  {
    var isFirstIntegration := Outbound(calendars, profileId) == {};
    AddAll(calendars, GOOGLE, profileId, ids, InitialSettings(primary, isFirstIntegration, true))
  }

  /** Apple calendars start with a conflict check and without outbound writing. */
  function AppleIntegrated(calendars: Calendars, profileId: int, ids: seq<int>): Calendars {
    AddAll(calendars, APPLE, profileId, ids, seq(|ids|, _ => Setting(true, false)))
  }

  // ---------------------------------------------------------------- patch

  function RequestsOf(requests: seq<Request>, vendor: Vendor): seq<Request> {
    if requests == [] then []
    else
      var last := |requests| - 1;
      RequestsOf(requests[..last], vendor) + if requests[last].key.vendor == vendor then [requests[last]] else []
  }

  function OutboundRequests(requests: seq<Request>): seq<Request> {
    if requests == [] then []
    else
      var last := |requests| - 1;
      OutboundRequests(requests[..last]) + if requests[last].setting.outboundWriteSync then [requests[last]] else []
  }

  predicate Owns(calendars: Calendars, profileId: int, key: Key) {
    key in calendars && calendars[key].profileId == profileId
  }

  /** A vendor refuses the request when one of its calendars is not the profile's. */
  predicate Refused(calendars: Calendars, vendor: Vendor, patch: Patch) {
    exists r | r in patch.requests :: r.key.vendor == vendor && !Owns(calendars, patch.profileId, r.key)
  }

  /** _resetOutboundSetting. */
  function ResetOutbound(calendars: Calendars, profileId: int, vendor: Vendor): Calendars {
    map key | key in calendars ::
      if key.vendor == vendor && calendars[key].profileId == profileId
      then calendars[key].(setting := calendars[key].setting.(outboundWriteSync := false))
      else calendars[key]
  }

  function SaveAll(calendars: Calendars, requests: seq<Request>): Calendars
    requires forall r | r in requests :: r.key in calendars
    ensures SaveAll(calendars, requests).Keys == calendars.Keys
    decreases |requests|
  {
    if requests == [] then calendars
    else
      var last := requests[|requests| - 1];
      var before := SaveAll(calendars, requests[..|requests| - 1]);
      before[last.key := before[last.key].(setting := last.setting)]
  }

  lemma {:induction false} RequestsOfElements(requests: seq<Request>, vendor: Vendor)
    ensures forall r :: r in RequestsOf(requests, vendor) <==> r in requests && r.key.vendor == vendor
    decreases |requests|
  {
    if requests != [] {
      var last := |requests| - 1;
      RequestsOfElements(requests[..last], vendor);
      assert requests == requests[..last] + [requests[last]];
    }
  }

  /** The request concerns the vendor, or sets an outbound calendar somewhere. */
  predicate ShouldPatch(vendor: Vendor, patch: Patch) {
    OutboundRequests(patch.requests) != [] || RequestsOf(patch.requests, vendor) != []
  }

  /** The first setting that the request gives to the calendar, as Array.prototype.find picks it. */
  function FirstSetting(requests: seq<Request>, key: Key, before: Setting): Setting
    decreases |requests|
  {
    if requests == [] then before
    else if requests[0].key == key then requests[0].setting
    else FirstSetting(requests[1..], key, before)
  }

  /**
   Whether the vendor's transaction synchronizes a calendar. Google does so for every calendar of the profile that
   checks conflicts with its new setting, Apple for the named ones that checked them with their old one.
   */
  predicate Synchronizes(calendars: Calendars, vendor: Vendor, patch: Patch) {
    if vendor == GOOGLE then
      exists key | key in calendars ::
        && key.vendor == GOOGLE && calendars[key].profileId == patch.profileId
        && FirstSetting(patch.requests, key, calendars[key].setting).conflictCheck
    else
      exists r | r in patch.requests ::
        r.key.vendor == vendor && r.key in calendars && calendars[r.key].setting.conflictCheck
  }

  /** The vendor's patchAll throws: before its transaction, or in it, which then rolls back. */
  predicate Fails(calendars: Calendars, vendor: Vendor, patch: Patch) {
    || Refused(calendars, vendor, patch)
    || (ShouldPatch(vendor, patch) && Synchronizes(calendars, vendor, patch) && !patch.syncs.Of(vendor).Synchronized?)
  }

  function FailureOf(calendars: Calendars, vendor: Vendor, patch: Patch): Failure
    requires Fails(calendars, vendor, patch)
  {
    if Refused(calendars, vendor, patch) then NotAnOwner
    else if patch.syncs.Of(vendor).InvalidCredentials? then CredentialsInvalid
    else NotSynchronized
  }

  /** One vendor's patchAll, called when the request concerns the vendor. */
  function VendorPatched(calendars: Calendars, vendor: Vendor, patch: Patch): Calendars {
    if !ShouldPatch(vendor, patch) || Fails(calendars, vendor, patch) then calendars
    else
      RequestsOfElements(patch.requests, vendor);
      SaveAll(ResetOutbound(calendars, patch.profileId, vendor), RequestsOf(patch.requests, vendor))
  }

  /** Both vendors' patches start before either can fail, so a failure of one does not stop the other. */
  function Patched(calendars: Calendars, patch: Patch): Calendars {
    if |OutboundRequests(patch.requests)| > 1 then calendars
    else VendorPatched(VendorPatched(calendars, GOOGLE, patch), APPLE, patch)
  }

  class CalendarIntegrations {
    var calendars: Calendars

    /** Only Google and Apple integrate calendars. */
    ghost predicate Valid()
      reads this
    {
      forall key | key in calendars :: key.vendor == GOOGLE || key.vendor == APPLE
    }

    /** IntegrationsValidator.hasOutboundCalendar: the answers of both vendors, combined by or. */
    method HasOutboundCalendar(profileId: int) returns (has: bool)
      requires Valid()
      ensures has <==> Outbound(calendars, profileId) != {}
    {
      var google := exists key | key in Outbound(calendars, profileId) :: key.vendor == GOOGLE;
      var apple := exists key | key in Outbound(calendars, profileId) :: key.vendor == APPLE;
      has := google || apple;
    }

    method IntegrateGoogle(profileId: int, ids: seq<int>, primary: seq<bool>)
      requires Valid() && |ids| == |primary|
      modifies this
      ensures Valid() && calendars == GoogleIntegrated(old(calendars), profileId, ids, primary)
    {
      var hasOutboundCalendar := HasOutboundCalendar(profileId);
      var isFirstIntegration := !hasOutboundCalendar;
      var isFirstPrimary := true;
      var settings: seq<Setting> := [];
      ghost var all := InitialSettings(primary, isFirstIntegration, true);
      for i := 0 to |primary|
        invariant |settings| == i && settings + InitialSettings(primary[i..], isFirstIntegration, isFirstPrimary) == all
        invariant calendars == old(calendars)
      {
        var calendarSetting := Setting(false, false);
        SettingStep(primary, i, isFirstIntegration, isFirstPrimary, settings);
        if primary[i] && isFirstIntegration && isFirstPrimary {
          calendarSetting := Setting(true, true);
          isFirstPrimary := false;
        }
        settings := settings + [calendarSetting];
      }
      assert settings == all;
      SaveNew(profileId, ids, settings);
    }

    method SaveNew(profileId: int, ids: seq<int>, settings: seq<Setting>)
      requires Valid() && |ids| == |settings|
      modifies this
      ensures Valid() && calendars == AddAll(old(calendars), GOOGLE, profileId, ids, settings)
    {
      for i := 0 to |ids|
        invariant Valid() && calendars == AddAll(old(calendars), GOOGLE, profileId, ids[..i], settings[..i])
      {
        assert ids[..i + 1][..i] == ids[..i] && settings[..i + 1][..i] == settings[..i];
        calendars := calendars[Key(GOOGLE, ids[i]) := Calendar(profileId, settings[i])];
      }
      assert ids[..|ids|] == ids && settings[..|ids|] == settings;
    }

    method SaveRows(rows: seq<Request>)
      requires forall r | r in rows :: r.key in calendars
      modifies this
      ensures calendars == SaveAll(old(calendars), rows)
    {
      for i := 0 to |rows|
        invariant calendars == SaveAll(old(calendars), rows[..i])
      {
        assert rows[..i + 1][..i] == rows[..i];
        var r := rows[i];
        calendars := calendars[r.key := calendars[r.key].(setting := r.setting)];
      }
      assert rows[..|rows|] == rows;
    }

    /** A vendor's patchAll: the transaction is rolled back when its synchronization throws. */
    method PatchVendor(vendor: Vendor, patch: Patch) returns (failure: Option<Failure>)
      modifies this
      ensures failure == if Fails(old(calendars), vendor, patch) then Some(FailureOf(old(calendars), vendor, patch))
                         else None
      ensures calendars == VendorPatched(old(calendars), vendor, patch)
    {
      var filteredCalendars := RequestsOf(patch.requests, vendor);
      RequestsOfElements(patch.requests, vendor);
      var shouldPatch := |OutboundRequests(patch.requests)| > 0 || |filteredCalendars| > 0;
      if !shouldPatch {
        return None;
      }
      var loadedCalendars := calendars;
      if exists r | r in filteredCalendars :: !Owns(loadedCalendars, patch.profileId, r.key) {
        return Some(NotAnOwner);
      }
      calendars := ResetOutbound(calendars, patch.profileId, vendor);
      SaveRows(filteredCalendars);
      failure := None;
      if Synchronizes(loadedCalendars, vendor, patch) {
        match patch.syncs.Of(vendor)
        case Synchronized =>
        case InvalidCredentials => calendars, failure := loadedCalendars, Some(CredentialsInvalid);
        case SyncFailure => calendars, failure := loadedCalendars, Some(NotSynchronized);
      }
    }

    /** The failure that arrives first decides the response; invalid credentials are answered with success. */
    method PatchAll(patch: Patch, appleFirst: bool) returns (response: Response)
      modifies this
      ensures response == ResponseOf(old(calendars), patch, appleFirst)
      ensures calendars == Patched(old(calendars), patch)
    {
      var requestedOutboundCalendars := OutboundRequests(patch.requests);
      if |requestedOutboundCalendars| > 1 {
        return BadRequest;
      }
      var google := PatchVendor(GOOGLE, patch);
      var apple := PatchVendor(APPLE, patch);
      FailsAsBefore(old(calendars), patch);
      var first := if google.None? || (appleFirst && apple.Some?) then apple else google;
      if first.Some? && first.value != CredentialsInvalid {
        response := Error(first.value);
      } else {
        response := Done;
      }
    }
  }

  /** Done means that no vendor failed, or that the first failure was one of credentials. */
  function ResponseOf(calendars: Calendars, patch: Patch, appleFirst: bool): Response {
    if |OutboundRequests(patch.requests)| > 1 then BadRequest
    else
      var google, apple := Fails(calendars, GOOGLE, patch), Fails(calendars, APPLE, patch);
      if !google && !apple then Done
      else
        var first := FailureOf(calendars, if apple && (appleFirst || !google) then APPLE else GOOGLE, patch);
        if first == CredentialsInvalid then Done else Error(first)
  }

  lemma SettingStep(primary: seq<bool>, i: nat, isFirstIntegration: bool, isFirstPrimary: bool, done: seq<Setting>)
    requires i < |primary|
    ensures var chosen := primary[i] && isFirstIntegration && isFirstPrimary;
            done + InitialSettings(primary[i..], isFirstIntegration, isFirstPrimary) ==
            (done + [Setting(chosen, chosen)]) +
            InitialSettings(primary[i + 1..], isFirstIntegration, isFirstPrimary && !chosen)
  {
    assert primary[i..][1..] == primary[i + 1..];
  }

  // ---------------------------------------------------------------- integrations keep one

  /** Exactly the first primary calendar is marked, and only when no outbound calendar exists. */
  lemma {:induction false} FirstPrimaryMarked(
      primary: seq<bool>, isFirstIntegration: bool, isFirstPrimary: bool, i: nat)
    requires i < |primary|
    ensures InitialSettings(primary, isFirstIntegration, isFirstPrimary)[i].outboundWriteSync <==>
            isFirstIntegration && isFirstPrimary && primary[i] && forall j | 0 <= j < i :: !primary[j]
    decreases primary
  {
    var chosen := primary[0] && isFirstIntegration && isFirstPrimary;
    if i > 0 {
      FirstPrimaryMarked(primary[1..], isFirstIntegration, isFirstPrimary && !chosen, i - 1);
      assert forall j | 0 <= j < i :: (j == 0 || primary[j] == primary[1..][j - 1]);
      if forall j | 0 <= j < i - 1 :: !primary[1..][j] {
        forall j | 1 <= j < i ensures !primary[j] {
          assert primary[1..][j - 1] == primary[j];
        }
      }
      if forall j | 0 <= j < i :: !primary[j] {
        forall j | 0 <= j < i - 1 ensures !primary[1..][j] {
          assert primary[1..][j] == primary[j + 1];
        }
      }
    }
  }

  /** Ids the database has not used for the vendor. */
  ghost predicate FreshIds(calendars: Calendars, vendor: Vendor, ids: seq<int>) {
    && (forall i, j | 0 <= i < j < |ids| :: ids[i] != ids[j])
    && (forall i | 0 <= i < |ids| :: Key(vendor, ids[i]) !in calendars)
  }

  lemma {:induction false} AddAllContents(
      calendars: Calendars, vendor: Vendor, profileId: int, ids: seq<int>, settings: seq<Setting>)
    requires |ids| == |settings| && FreshIds(calendars, vendor, ids)
    ensures var added := AddAll(calendars, vendor, profileId, ids, settings);
            && (forall key | key in calendars :: key in added && added[key] == calendars[key])
            && (forall key | key in added && key !in calendars ::
                  exists i | 0 <= i < |ids| ::
                    key == Key(vendor, ids[i]) && added[key] == Calendar(profileId, settings[i]))
    decreases |ids|
  {
    if ids != [] {
      var last := |ids| - 1;
      AddAllContents(calendars, vendor, profileId, ids[..last], settings[..last]);
      var before := AddAll(calendars, vendor, profileId, ids[..last], settings[..last]);
      forall key | key in before && key !in calendars
        ensures exists i | 0 <= i < last ::
                  key == Key(vendor, ids[i]) && before[key] == Calendar(profileId, settings[i])
      {
        var i :| && 0 <= i < last && key == Key(vendor, ids[..last][i])
                 && before[key] == Calendar(profileId, settings[..last][i]);
      }
    }
  }

  predicate FirstPrimary(primary: seq<bool>, i: int) {
    0 <= i < |primary| && primary[i] && forall j | 0 <= j < i :: !primary[j]
  }

  /** An outbound calendar after the integration was one before, or there was none and it is the first primary one. */
  lemma GoogleIntegrationMarks(
      calendars: Calendars, profileId: int, ids: seq<int>, primary: seq<bool>, key: Key, other: int)
    requires |ids| == |primary| && FreshIds(calendars, GOOGLE, ids)
    requires key in Outbound(GoogleIntegrated(calendars, profileId, ids, primary), other)
    ensures key in calendars ==> key in Outbound(calendars, other)
    ensures key !in calendars ==>
              && Outbound(calendars, other) == {}
              && exists i :: FirstPrimary(primary, i) && key == Key(GOOGLE, ids[i])
  {
    var isFirstIntegration := Outbound(calendars, profileId) == {};
    var settings := InitialSettings(primary, isFirstIntegration, true);
    AddAllContents(calendars, GOOGLE, profileId, ids, settings);
    if key !in calendars {
      var i :| 0 <= i < |ids| && key == Key(GOOGLE, ids[i]) &&
               GoogleIntegrated(calendars, profileId, ids, primary)[key] == Calendar(profileId, settings[i]);
      FirstPrimaryMarked(primary, isFirstIntegration, true, i);
      assert FirstPrimary(primary, i);
    }
  }

  /** A new Google integration leaves at most one outbound calendar, and any earlier one in place. */
  lemma GoogleIntegrationKeepsOne(
      calendars: Calendars, profileId: int, ids: seq<int>, primary: seq<bool>, other: int)
    requires |ids| == |primary| && FreshIds(calendars, GOOGLE, ids) && AtMostOne(calendars, other)
    ensures AtMostOne(GoogleIntegrated(calendars, profileId, ids, primary), other)
    ensures Outbound(calendars, other) <= Outbound(GoogleIntegrated(calendars, profileId, ids, primary), other)
  {
    var isFirstIntegration := Outbound(calendars, profileId) == {};
    var settings := InitialSettings(primary, isFirstIntegration, true);
    var after := GoogleIntegrated(calendars, profileId, ids, primary);
    AddAllContents(calendars, GOOGLE, profileId, ids, settings);
    forall a, b | a in Outbound(after, other) && b in Outbound(after, other) ensures a == b {
      GoogleIntegrationMarks(calendars, profileId, ids, primary, a, other);
      GoogleIntegrationMarks(calendars, profileId, ids, primary, b, other);
      if a !in calendars && b !in calendars {
        var i :| FirstPrimary(primary, i) && a == Key(GOOGLE, ids[i]);
        var j :| FirstPrimary(primary, j) && b == Key(GOOGLE, ids[j]);
        assert i == j;
      }
    }
  }

  lemma AppleIntegrationKeepsOne(calendars: Calendars, profileId: int, ids: seq<int>, other: int)
    requires FreshIds(calendars, APPLE, ids)
    ensures Outbound(AppleIntegrated(calendars, profileId, ids), other) == Outbound(calendars, other)
  {
    AddAllContents(calendars, APPLE, profileId, ids, seq(|ids|, _ => Setting(true, false)));
  }

  // ---------------------------------------------------------------- patches keep one

  /** The last setting that the request gives to the calendar is an outbound one. */
  predicate Sets(requests: seq<Request>, key: Key)
    decreases |requests|
  {
    requests != [] &&
    var last := requests[|requests| - 1];
    if last.key == key then last.setting.outboundWriteSync else Sets(requests[..|requests| - 1], key)
  }

  lemma {:induction false} SetsRequests(requests: seq<Request>, key: Key)
    requires Sets(requests, key)
    ensures exists r | r in requests :: r.key == key
    ensures exists r | r in OutboundRequests(requests) :: r.key == key
    decreases |requests|
  {
    var last := |requests| - 1;
    if requests[last].key == key {
      assert requests[last] in requests && requests[last] in OutboundRequests(requests);
    } else {
      SetsRequests(requests[..last], key);
    }
  }

  /** A request with at most one outbound row sets at most one calendar. */
  lemma SetsOne(requests: seq<Request>, a: Key, b: Key)
    requires |OutboundRequests(requests)| <= 1 && Sets(requests, a) && Sets(requests, b)
    ensures a == b
  {
    SetsRequests(requests, a);
    SetsRequests(requests, b);
  }

  lemma {:induction false} SetsOwnVendor(requests: seq<Request>, key: Key)
    ensures Sets(RequestsOf(requests, key.vendor), key) == Sets(requests, key)
    decreases |requests|
  {
    if requests != [] {
      var last := |requests| - 1;
      SetsOwnVendor(requests[..last], key);
      var before := RequestsOf(requests[..last], key.vendor);
      assert (before + [requests[last]])[..|before|] == before;
      assert before + [] == before;
    }
  }

  /** Saving changes no owner, and sets the calendars that the rows name. */
  lemma {:induction false} SaveAllContents(calendars: Calendars, requests: seq<Request>, key: Key)
    requires key in calendars && forall r | r in requests :: r.key in calendars
    ensures SaveAll(calendars, requests)[key].profileId == calendars[key].profileId
    ensures if exists r | r in requests :: r.key == key
            then SaveAll(calendars, requests)[key].setting.outboundWriteSync == Sets(requests, key)
            else SaveAll(calendars, requests)[key] == calendars[key]
    decreases |requests|
  {
    if requests != [] {
      var last := |requests| - 1;
      SaveAllContents(calendars, requests[..last], key);
      assert requests == requests[..last] + [requests[last]];
      assert requests[last] in requests;
    }
  }

  /** The vendor's patch goes through. */
  predicate Patches(calendars: Calendars, vendor: Vendor, patch: Patch) {
    ShouldPatch(vendor, patch) && !Fails(calendars, vendor, patch)
  }

  lemma VendorPatchedKeys(calendars: Calendars, vendor: Vendor, patch: Patch)
    ensures VendorPatched(calendars, vendor, patch).Keys == calendars.Keys
  {
    RequestsOfElements(patch.requests, vendor);
  }

  lemma PatchedKeys(calendars: Calendars, patch: Patch)
    ensures Patched(calendars, patch).Keys == calendars.Keys
  {
    VendorPatchedKeys(calendars, GOOGLE, patch);
    VendorPatchedKeys(VendorPatched(calendars, GOOGLE, patch), APPLE, patch);
    hide VendorPatched;
  }

  /**
   One vendor's patch: if it goes through, its calendars of the profile are outbound as requested; every other
   calendar is as before, and so are all of them if the vendor fails.
   */
  lemma VendorPatchedCalendar(calendars: Calendars, vendor: Vendor, patch: Patch, key: Key)
    requires key in calendars
    ensures key in VendorPatched(calendars, vendor, patch)
    ensures var before := calendars[key];
            var after := VendorPatched(calendars, vendor, patch)[key];
            && after.profileId == before.profileId
            && if before.profileId == patch.profileId && key.vendor == vendor && Patches(calendars, vendor, patch)
               then after.setting.outboundWriteSync == Sets(patch.requests, key)
               else after == before
  {
    if Patches(calendars, vendor, patch) {
      var own := RequestsOf(patch.requests, vendor);
      RequestsOfElements(patch.requests, vendor);
      SaveAllContents(ResetOutbound(calendars, patch.profileId, vendor), own, key);
      if key.vendor == vendor {
        SetsOwnVendor(patch.requests, key);
        if Sets(own, key) {
          SetsRequests(own, key);
        }
      }
      hide Synchronizes;
    }
  }

  /** The outbound calendars after a patch of all vendors. */
  lemma PatchedOutbound(calendars: Calendars, patch: Patch, key: Key)
    requires key in calendars && (key.vendor == GOOGLE || key.vendor == APPLE)
    requires |OutboundRequests(patch.requests)| <= 1
    ensures key in Patched(calendars, patch)
    ensures var before := calendars[key];
            var after := Patched(calendars, patch)[key];
            && after.profileId == before.profileId
            && if before.profileId == patch.profileId && Patches(calendars, key.vendor, patch)
               then after.setting.outboundWriteSync == Sets(patch.requests, key)
               else after == before
  {
    VendorPatchedCalendar(calendars, GOOGLE, patch, key);
    var google := VendorPatched(calendars, GOOGLE, patch);
    FailsAsBefore(calendars, patch);
    VendorPatchedCalendar(google, APPLE, patch, key);
    hide VendorPatched, Fails, Sets;
  }

  /** What Google writes does not change how Apple fares. */
  lemma FailsAsBefore(calendars: Calendars, patch: Patch)
    ensures var google := VendorPatched(calendars, GOOGLE, patch);
            && Fails(google, APPLE, patch) == Fails(calendars, APPLE, patch)
            && Refused(google, APPLE, patch) == Refused(calendars, APPLE, patch)
  {
    var google := VendorPatched(calendars, GOOGLE, patch);
    VendorPatchedKeys(calendars, GOOGLE, patch);
    forall key ensures Owns(google, patch.profileId, key) == Owns(calendars, patch.profileId, key) {
      if key in calendars {
        VendorPatchedCalendar(calendars, GOOGLE, patch, key);
      }
    }
    forall key | key in calendars && key.vendor == APPLE ensures google[key] == calendars[key] {
      VendorPatchedCalendar(calendars, GOOGLE, patch, key);
    }
    hide VendorPatched;
  }

  ghost predicate CalendarVendors(calendars: Calendars) {
    forall key | key in calendars :: key.vendor == GOOGLE || key.vendor == APPLE
  }

  /** The request sets key at a vendor that goes through, and kept is outbound at one that fails. */
  predicate LeavesBehind(calendars: Calendars, patch: Patch, key: Key, kept: Key) {
    && key in calendars && Sets(patch.requests, key) && !Fails(calendars, key.vendor, patch)
    && kept in Outbound(calendars, patch.profileId) && kept.vendor != key.vendor && Fails(calendars, kept.vendor, patch)
  }

  /** The request is not bad as a whole, and leaves an outbound calendar behind. */
  ghost predicate Stranded(calendars: Calendars, patch: Patch) {
    |OutboundRequests(patch.requests)| <= 1 && exists key, kept :: LeavesBehind(calendars, patch, key, kept)
  }

  /** A vendor that goes through with a request setting one of its calendars owns that calendar. */
  lemma AcceptedIsOwned(calendars: Calendars, patch: Patch, key: Key)
    requires Sets(patch.requests, key) && !Fails(calendars, key.vendor, patch)
    ensures Owns(calendars, patch.profileId, key) && Patches(calendars, key.vendor, patch)
  {
    SetsRequests(patch.requests, key);
    hide Synchronizes;
  }

  lemma StrandedKeepsTwo(calendars: Calendars, patch: Patch, key: Key, kept: Key)
    requires CalendarVendors(calendars) && |OutboundRequests(patch.requests)| <= 1
    requires LeavesBehind(calendars, patch, key, kept)
    ensures key in Outbound(Patched(calendars, patch), patch.profileId)
    ensures kept in Outbound(Patched(calendars, patch), patch.profileId) && kept != key
  {
    AcceptedIsOwned(calendars, patch, key);
    PatchedOutbound(calendars, patch, key);
    PatchedOutbound(calendars, patch, kept);
    hide Patched, Fails, Sets;
  }

  lemma OutboundBeforeOrSet(calendars: Calendars, patch: Patch, key: Key)
    requires CalendarVendors(calendars) && |OutboundRequests(patch.requests)| <= 1
    requires key in Outbound(Patched(calendars, patch), patch.profileId)
    ensures key in calendars
    ensures || (key in Outbound(calendars, patch.profileId) && !Patches(calendars, key.vendor, patch))
            || (Sets(patch.requests, key) && Patches(calendars, key.vendor, patch))
  {
    PatchedKeys(calendars, patch);
    PatchedOutbound(calendars, patch, key);
    hide Patched, Patches, Sets;
  }

  lemma PatchKeepsOne(calendars: Calendars, patch: Patch, a: Key, b: Key)
    requires CalendarVendors(calendars) && AtMostOne(calendars, patch.profileId)
    requires |OutboundRequests(patch.requests)| <= 1 && !Stranded(calendars, patch)
    requires a in Outbound(Patched(calendars, patch), patch.profileId)
    requires b in Outbound(Patched(calendars, patch), patch.profileId)
    ensures a == b
  {
    OutboundBeforeOrSet(calendars, patch, a);
    OutboundBeforeOrSet(calendars, patch, b);
    assert !LeavesBehind(calendars, patch, a, b) && !LeavesBehind(calendars, patch, b, a);
    if Sets(patch.requests, a) && Sets(patch.requests, b) {
      SetsOne(patch.requests, a, b);
    } else if Sets(patch.requests, a) {
      SetsRequests(patch.requests, a);
    } else if Sets(patch.requests, b) {
      SetsRequests(patch.requests, b);
    }
    hide Patched, Sets, Fails;
  }

  /**
   A patch keeps at most one outbound calendar exactly when it does not set one at a vendor that goes through while
   another vendor, which holds one, fails: by refusing the request, or by a synchronization that throws.
   */
  lemma PatchKeepsOneIff(calendars: Calendars, patch: Patch)
    requires CalendarVendors(calendars) && AtMostOne(calendars, patch.profileId)
    ensures AtMostOne(Patched(calendars, patch), patch.profileId) <==> !Stranded(calendars, patch)
  {
    if |OutboundRequests(patch.requests)| <= 1 {
      if Stranded(calendars, patch) {
        var key, kept :| LeavesBehind(calendars, patch, key, kept);
        StrandedKeepsTwo(calendars, patch, key, kept);
      } else {
        hide Patched, Stranded, Outbound;
        var after := Outbound(Patched(calendars, patch), patch.profileId);
        forall a, b | a in after && b in after ensures a == b {
          PatchKeepsOne(calendars, patch, a, b);
        }
      }
    }
  }

  /** The first failing case: Apple sets its calendar while Google, which holds one, refuses a stranger's calendar. */
  lemma PartialPatchLeavesTwo(
      calendars: Calendars, profileId: int, stranger: int, apple: Key, google: Key, foreign: Key)
    requires CalendarVendors(calendars) && profileId != stranger
    requires Owns(calendars, profileId, apple) && apple.vendor == APPLE
    requires Owns(calendars, stranger, foreign) && foreign.vendor == GOOGLE
    requires google in Outbound(calendars, profileId) && google.vendor == GOOGLE
    ensures var requests := [Request(apple, Setting(true, true)), Request(foreign, Setting(true, false))];
            !AtMostOne(Patched(calendars, Patch(profileId, requests, Syncs(Synchronized, Synchronized))), profileId)
  {
    var set', named := Request(apple, Setting(true, true)), Request(foreign, Setting(true, false));
    var patch := Patch(profileId, [set', named], Syncs(Synchronized, Synchronized));
    TwoRequests(set', named);
    assert set' in patch.requests && named in patch.requests;
    assert LeavesBehind(calendars, patch, apple, google);
    StrandedKeepsTwo(calendars, patch, apple, google);
  }

  /**
   The second: all calendars are the profile's, but the credentials of the Apple account that holds the outbound
   calendar were revoked. Google sets its calendar, Apple rolls its reset back, and the response is a success.
   */
  lemma RevokedCredentialsLeaveTwo(
      calendars: Calendars, profileId: int, google: Key, apple: Key, syncs: Syncs, appleFirst: bool)
    requires CalendarVendors(calendars)
    requires Owns(calendars, profileId, google) && google.vendor == GOOGLE
    requires apple in Outbound(calendars, profileId) && apple.vendor == APPLE && calendars[apple].setting.conflictCheck
    requires syncs == Syncs(Synchronized, InvalidCredentials)
    ensures var requests := [Request(google, Setting(true, true)), Request(apple, Setting(true, false))];
            var patch := Patch(profileId, requests, syncs);
            && !AtMostOne(Patched(calendars, patch), profileId)
            && ResponseOf(calendars, patch, appleFirst) == Done
  {
    var set', named := Request(google, Setting(true, true)), Request(apple, Setting(true, false));
    var patch := Patch(profileId, [set', named], syncs);
    TwoRequests(set', named);
    assert set' in patch.requests && named in patch.requests;
    assert !Refused(calendars, GOOGLE, patch) && !Refused(calendars, APPLE, patch);
    assert Synchronizes(calendars, APPLE, patch);
    assert LeavesBehind(calendars, patch, google, apple);
    StrandedKeepsTwo(calendars, patch, google, apple);
  }

  lemma TwoRequests(set': Request, named: Request)
    requires set'.setting.outboundWriteSync && !named.setting.outboundWriteSync && set'.key != named.key
    ensures OutboundRequests([set', named]) == [set'] && Sets([set', named], set'.key)
  {
    assert [set', named][..1] == [set'] && [set'][..0] == [];
    assert OutboundRequests([set']) == [set'] && OutboundRequests([set', named]) == [set'] + [];
  }

  /** A patch that goes through at both vendors makes the calendar it sets the only outbound one of the profile. */
  lemma AcceptedPatchMovesOutbound(calendars: Calendars, patch: Patch, key: Key)
    requires CalendarVendors(calendars) && |OutboundRequests(patch.requests)| <= 1
    requires Sets(patch.requests, key) && (key.vendor == GOOGLE || key.vendor == APPLE)
    requires !Fails(calendars, GOOGLE, patch) && !Fails(calendars, APPLE, patch)
    ensures Outbound(Patched(calendars, patch), patch.profileId) == {key}
  {
    AcceptedIsOwned(calendars, patch, key);
    PatchedOutbound(calendars, patch, key);
    SetsRequests(patch.requests, key);
    var after := Outbound(Patched(calendars, patch), patch.profileId);
    forall other | other in after ensures other == key {
      OutboundBeforeOrSet(calendars, patch, other);
      if Sets(patch.requests, other) {
        SetsOne(patch.requests, other, key);
      }
    }
    hide Patched, Fails, Sets;
  }

  /** A request that sets no outbound calendar adds none, whatever fails. */
  lemma PatchWithoutOutbound(calendars: Calendars, patch: Patch)
    requires CalendarVendors(calendars) && OutboundRequests(patch.requests) == []
    ensures Outbound(Patched(calendars, patch), patch.profileId) <= Outbound(calendars, patch.profileId)
  {
    forall key | key in Outbound(Patched(calendars, patch), patch.profileId)
      ensures key in Outbound(calendars, patch.profileId)
    {
      OutboundBeforeOrSet(calendars, patch, key);
      if Sets(patch.requests, key) {
        SetsRequests(patch.requests, key);
      }
    }
  }

  /** A patch touches no calendar of another profile. */
  lemma PatchKeepsOtherProfiles(calendars: Calendars, patch: Patch, key: Key)
    requires CalendarVendors(calendars) && key in calendars && calendars[key].profileId != patch.profileId
    ensures key in Patched(calendars, patch) && Patched(calendars, patch)[key] == calendars[key]
  {
    if |OutboundRequests(patch.requests)| <= 1 {
      PatchedOutbound(calendars, patch, key);
    }
  }

  lemma PatchKeepsOutboundOf(calendars: Calendars, patch: Patch, other: int)
    requires CalendarVendors(calendars) && other != patch.profileId
    ensures Outbound(Patched(calendars, patch), other) == Outbound(calendars, other)
  {
    PatchedKeys(calendars, patch);
    forall key | key in calendars
      ensures key in Outbound(Patched(calendars, patch), other) <==> key in Outbound(calendars, other)
    {
      if calendars[key].profileId != patch.profileId {
        PatchKeepsOtherProfiles(calendars, patch, key);
      } else if |OutboundRequests(patch.requests)| <= 1 {
        PatchedOutbound(calendars, patch, key);
      }
    }
    hide Patched;
  }

  // ---------------------------------------------------------------- runs

  datatype Step =
    | GoogleStep(profileId: int, ids: seq<int>, primary: seq<bool>)
    | AppleStep(profileId: int, ids: seq<int>)
    | PatchStep(patch: Patch)

  ghost predicate Enabled(calendars: Calendars, step: Step) {
    match step
    case GoogleStep(_, ids, primary) => |ids| == |primary| && FreshIds(calendars, GOOGLE, ids)
    case AppleStep(_, ids) => FreshIds(calendars, APPLE, ids)
    case PatchStep(_) => true
  }

  ghost function After(calendars: Calendars, step: Step): Calendars
    requires Enabled(calendars, step)
  {
    match step
    case GoogleStep(profileId, ids, primary) => GoogleIntegrated(calendars, profileId, ids, primary)
    case AppleStep(profileId, ids) => AppleIntegrated(calendars, profileId, ids)
    case PatchStep(patch) => Patched(calendars, patch)
  }

  ghost predicate Run(calendars: seq<Calendars>, steps: seq<Step>) {
    && |calendars| == |steps| + 1 && calendars[0] == map[]
    && forall i | 0 <= i < |steps| ::
         Enabled(calendars[i], steps[i]) && calendars[i + 1] == After(calendars[i], steps[i])
  }

  ghost predicate Kept(calendars: Calendars) {
    forall profileId :: AtMostOne(calendars, profileId)
  }

  ghost predicate Strands(calendars: Calendars, step: Step) {
    step.PatchStep? && Stranded(calendars, step.patch)
  }

  lemma StepVendors(calendars: Calendars, step: Step)
    requires CalendarVendors(calendars) && Enabled(calendars, step)
    ensures CalendarVendors(After(calendars, step))
  {
    match step
    case GoogleStep(profileId, ids, primary) =>
      var settings := InitialSettings(primary, Outbound(calendars, profileId) == {}, true);
      AddAllContents(calendars, GOOGLE, profileId, ids, settings);
    case AppleStep(profileId, ids) =>
      AddAllContents(calendars, APPLE, profileId, ids, seq(|ids|, _ => Setting(true, false)));
    case PatchStep(patch) =>
      PatchedKeys(calendars, patch);
  }

  lemma StepKeepsOne(calendars: Calendars, step: Step, other: int)
    requires CalendarVendors(calendars) && Enabled(calendars, step) && AtMostOne(calendars, other)
    ensures AtMostOne(After(calendars, step), other) <==>
            !(Strands(calendars, step) && step.patch.profileId == other)
  {
    hide Stranded, Patched, GoogleIntegrated, AppleIntegrated, FreshIds;
    match step
    case GoogleStep(profileId, ids, primary) => GoogleIntegrationKeepsOne(calendars, profileId, ids, primary, other);
    case AppleStep(profileId, ids) => AppleIntegrationKeepsOne(calendars, profileId, ids, other);
    case PatchStep(patch) =>
      if other == patch.profileId {
        PatchKeepsOneIff(calendars, patch);
      } else {
        PatchKeepsOutboundOf(calendars, patch, other);
      }
  }

  /** A step keeps every profile at one outbound calendar exactly when it leaves none behind. */
  lemma StepKeepsIff(calendars: Calendars, step: Step)
    requires CalendarVendors(calendars) && Enabled(calendars, step) && Kept(calendars)
    ensures Kept(After(calendars, step)) <==> !Strands(calendars, step)
  {
    forall other
      ensures AtMostOne(After(calendars, step), other) <==>
              !(Strands(calendars, step) && step.patch.profileId == other)
    {
      StepKeepsOne(calendars, step, other);
    }
    if step.PatchStep? {
      StepKeepsOne(calendars, step, step.patch.profileId);
    }
    hide AtMostOne, Stranded, After;
  }

  lemma {:induction false} RunsOfVendors(calendars: seq<Calendars>, steps: seq<Step>, n: nat)
    requires Run(calendars, steps) && n < |calendars|
    ensures CalendarVendors(calendars[n])
  {
    if n > 0 {
      RunsOfVendors(calendars, steps, n - 1);
      StepVendors(calendars[n - 1], steps[n - 1]);
    }
    hide After, Enabled;
  }

  lemma {:induction false} RunsKeepOne(calendars: seq<Calendars>, steps: seq<Step>, n: nat)
    requires Run(calendars, steps) && n < |calendars|
    requires forall i | 0 <= i < n :: !Strands(calendars[i], steps[i])
    ensures Kept(calendars[n])
  {
    if n > 0 {
      RunsKeepOne(calendars, steps, n - 1);
      RunsOfVendors(calendars, steps, n - 1);
      hide After, Enabled, Strands, Kept;
      StepKeepsIff(calendars[n - 1], steps[n - 1]);
    }
  }

  /**
   In every run of integrations and patches, no profile has two outbound calendars at any time exactly when no patch
   leaves one behind at a vendor that fails.
   */
  lemma RunsKeepOneIff(calendars: seq<Calendars>, steps: seq<Step>)
    requires Run(calendars, steps)
    ensures (forall n | 0 <= n < |calendars| :: Kept(calendars[n])) <==>
            (forall i | 0 <= i < |steps| :: !Strands(calendars[i], steps[i]))
  {
    hide After, Enabled, Strands, Kept;
    if forall i | 0 <= i < |steps| :: !Strands(calendars[i], steps[i]) {
      forall n | 0 <= n < |calendars| ensures Kept(calendars[n]) {
        RunsKeepOne(calendars, steps, n);
      }
    }
    if forall n | 0 <= n < |calendars| :: Kept(calendars[n]) {
      forall i | 0 <= i < |steps| ensures !Strands(calendars[i], steps[i]) {
        RunsOfVendors(calendars, steps, i);
        assert Kept(calendars[i]) && Kept(calendars[i + 1]);
        StepKeepsIff(calendars[i], steps[i]);
      }
    }
  }

  // ---------------------------------------------------------------- in plain terms

  /** The place is the last one of the request that names the calendar. */
  ghost predicate LastNamed(requests: seq<Request>, key: Key, i: int) {
    && 0 <= i < |requests| && requests[i].key == key
    && forall j | i < j < |requests| :: requests[j].key != key
  }

  lemma {:induction false} SaveAllSetting(calendars: Calendars, requests: seq<Request>, key: Key, i: int)
    requires forall r | r in requests :: r.key in calendars
    requires LastNamed(requests, key, i)
    ensures key in SaveAll(calendars, requests) && SaveAll(calendars, requests)[key].setting == requests[i].setting
    decreases |requests|
  {
    var last := |requests| - 1;
    assert requests[i] in requests && requests[last] in requests;
    if i < last {
      assert requests[last].key != key;
      SaveAllSetting(calendars, requests[..last], key, i);
    }
  }

  lemma {:induction false} LastNamedOwn(requests: seq<Request>, key: Key, i: int)
    requires LastNamed(requests, key, i)
    ensures exists j :: LastNamed(RequestsOf(requests, key.vendor), key, j)
                     && RequestsOf(requests, key.vendor)[j].setting == requests[i].setting
    decreases |requests|
  {
    var last := |requests| - 1;
    var own, front := RequestsOf(requests, key.vendor), RequestsOf(requests[..last], key.vendor);
    if i < last {
      assert requests[last].key != key;
      LastNamedOwn(requests[..last], key, i);
      var j :| LastNamed(front, key, j) && front[j].setting == requests[i].setting;
      assert LastNamed(own, key, j) && own[j] == front[j];
    } else {
      assert LastNamed(own, key, |front|);
    }
  }

  /**
   A patch that goes through gives a calendar it names the whole setting last asked for, and takes only the outbound
   flag from the profile's other calendars of the vendor.
   */
  lemma PatchedSetting(calendars: Calendars, vendor: Vendor, patch: Patch, key: Key)
    requires Patches(calendars, vendor, patch) && Owns(calendars, patch.profileId, key) && key.vendor == vendor
    ensures key in VendorPatched(calendars, vendor, patch)
    ensures forall i | LastNamed(patch.requests, key, i) ::
              VendorPatched(calendars, vendor, patch)[key].setting == patch.requests[i].setting
    ensures (forall r | r in patch.requests :: r.key != key) ==>
              VendorPatched(calendars, vendor, patch)[key].setting ==
              Setting(calendars[key].setting.conflictCheck, false)
  {
    var own, reset := RequestsOf(patch.requests, vendor), ResetOutbound(calendars, patch.profileId, vendor);
    RequestsOfElements(patch.requests, vendor);
    SaveAllContents(reset, own, key);
    hide Synchronizes, SaveAll, RequestsOf;
    forall i | LastNamed(patch.requests, key, i)
      ensures VendorPatched(calendars, vendor, patch)[key].setting == patch.requests[i].setting
    {
      LastNamedOwn(patch.requests, key, i);
      var j :| LastNamed(own, key, j) && own[j].setting == patch.requests[i].setting;
      SaveAllSetting(reset, own, key, j);
    }
  }

  /** A request is bad exactly when two of its rows ask for outbound writing. */
  lemma {:induction false} BadIff(requests: seq<Request>)
    ensures |OutboundRequests(requests)| == |OutboundPlaces(requests)|
    decreases |requests|
  {
    if requests == [] {
      assert OutboundPlaces(requests) == {};
    } else {
      var last := |requests| - 1;
      BadIff(requests[..last]);
      assert OutboundPlaces(requests) ==
             OutboundPlaces(requests[..last]) + if requests[last].setting.outboundWriteSync then {last} else {};
    }
  }

  function OutboundPlaces(requests: seq<Request>): set<nat> {
    set i: nat | i < |requests| && requests[i].setting.outboundWriteSync
  }

  /** The first place of the request that names the calendar decides whether Google synchronizes it. */
  lemma {:induction false} FirstSettingIs(requests: seq<Request>, key: Key, before: Setting, i: nat)
    requires i < |requests| && requests[i].key == key && forall j | 0 <= j < i :: requests[j].key != key
    ensures FirstSetting(requests, key, before) == requests[i].setting
    decreases |requests|
  {
    if i > 0 {
      assert requests[0].key != key;
      assert forall j | 0 <= j < i - 1 :: requests[1..][j] == requests[j + 1];
      FirstSettingIs(requests[1..], key, before, i - 1);
    }
  }

  lemma {:induction false} FirstSettingKept(requests: seq<Request>, key: Key, before: Setting)
    requires forall r | r in requests :: r.key != key
    ensures FirstSetting(requests, key, before) == before
    decreases |requests|
  {
    if requests != [] {
      assert requests[0] in requests;
      FirstSettingKept(requests[1..], key, before);
    }
  }

  /** Every calendar of an integration has a row, with the setting of its place. */
  lemma {:induction false} AddedRows(
      calendars: Calendars, vendor: Vendor, profileId: int, ids: seq<int>, settings: seq<Setting>, i: nat)
    requires |ids| == |settings| && FreshIds(calendars, vendor, ids) && i < |ids|
    ensures Key(vendor, ids[i]) in AddAll(calendars, vendor, profileId, ids, settings)
    ensures AddAll(calendars, vendor, profileId, ids, settings)[Key(vendor, ids[i])] == Calendar(profileId, settings[i])
    decreases |ids|
  {
    var last := |ids| - 1;
    if i < last {
      assert ids[i] != ids[last];
      AddedRows(calendars, vendor, profileId, ids[..last], settings[..last], i);
    }
  }

  /**
   A Google calendar starts checking conflicts exactly if it starts outbound; an Apple calendar starts checking only.
   */
  lemma {:induction false} InitialSettingIs(
      primary: seq<bool>, isFirstIntegration: bool, isFirstPrimary: bool, i: nat)
    requires i < |primary|
    ensures var setting := InitialSettings(primary, isFirstIntegration, isFirstPrimary)[i];
            setting.conflictCheck == setting.outboundWriteSync
    decreases primary
  {
    if i > 0 {
      var chosen := primary[0] && isFirstIntegration && isFirstPrimary;
      InitialSettingIs(primary[1..], isFirstIntegration, isFirstPrimary && !chosen, i - 1);
    }
  }

  lemma AppleStartsChecking(calendars: Calendars, profileId: int, ids: seq<int>, i: nat)
    requires FreshIds(calendars, APPLE, ids) && i < |ids|
    ensures Key(APPLE, ids[i]) in AppleIntegrated(calendars, profileId, ids)
    ensures AppleIntegrated(calendars, profileId, ids)[Key(APPLE, ids[i])] ==
            Calendar(profileId, Setting(true, false))
  {
    AddedRows(calendars, APPLE, profileId, ids, seq(|ids|, _ => Setting(true, false)), i);
  }

  /** After the request the calendar is to be checked: by the first setting given to it, or else by its own. */
  ghost predicate ChecksAfter(requests: seq<Request>, key: Key, before: Setting) {
    || (exists i | 0 <= i < |requests| ::
          && requests[i].key == key && requests[i].setting.conflictCheck
          && forall j | 0 <= j < i :: requests[j].key != key)
    || (before.conflictCheck && forall r | r in requests :: r.key != key)
  }

  lemma {:induction false} FirstSettingChecks(requests: seq<Request>, key: Key, before: Setting)
    ensures FirstSetting(requests, key, before).conflictCheck <==> ChecksAfter(requests, key, before)
  {
    if r :| r in requests && r.key == key {
      var n :| 0 <= n < |requests| && requests[n].key == key;
      var i := FirstPlace(requests, key, n);
      FirstSettingIs(requests, key, before, i);
    } else {
      FirstSettingKept(requests, key, before);
    }
  }

  /** The first place of the request that names the calendar. */
  ghost function FirstPlace(requests: seq<Request>, key: Key, n: nat): (i: nat)
    requires n < |requests| && requests[n].key == key
    ensures i <= n && requests[i].key == key && forall j | 0 <= j < i :: requests[j].key != key
  {
    if k :| 0 <= k < n && requests[k].key == key then FirstPlace(requests, key, k) else n
  }

  /** Google synchronizes for a calendar to be checked after the request, Apple for one that was checked before it. */
  lemma SynchronizesIff(calendars: Calendars, patch: Patch)
    ensures Synchronizes(calendars, GOOGLE, patch) <==>
            exists key | key in calendars && key.vendor == GOOGLE && calendars[key].profileId == patch.profileId ::
              ChecksAfter(patch.requests, key, calendars[key].setting)
    ensures Synchronizes(calendars, APPLE, patch) <==>
            exists i | 0 <= i < |patch.requests| ::
              && patch.requests[i].key.vendor == APPLE && patch.requests[i].key in calendars
              && calendars[patch.requests[i].key].setting.conflictCheck
  {
    forall key | key in calendars
      ensures FirstSetting(patch.requests, key, calendars[key].setting).conflictCheck <==>
              ChecksAfter(patch.requests, key, calendars[key].setting)
    {
      FirstSettingChecks(patch.requests, key, calendars[key].setting);
    }
    hide ChecksAfter, FirstSetting;
  }

  /** The vendor whose failure comes first decides the response, and revoked credentials count as success. */
  lemma FirstFailureAnswers(calendars: Calendars, patch: Patch, appleFirst: bool, first: Vendor)
    requires |OutboundPlaces(patch.requests)| <= 1
    requires first == GOOGLE || first == APPLE
    requires Fails(calendars, first, patch)
    requires Fails(calendars, GOOGLE, patch) && Fails(calendars, APPLE, patch) ==> (first == APPLE <==> appleFirst)
    ensures ResponseOf(calendars, patch, appleFirst) ==
            if exists i | 0 <= i < |patch.requests| ::
                 && patch.requests[i].key.vendor == first
                 && (patch.requests[i].key in calendars ==>
                       calendars[patch.requests[i].key].profileId != patch.profileId)
            then Error(NotAnOwner)
            else if patch.syncs.Of(first).InvalidCredentials? then Done else Error(NotSynchronized)
  {
    BadIff(patch.requests);
    RefusedIff(calendars, first, patch);
    hide Synchronizes, Refused, OutboundRequests, OutboundPlaces;
  }

  lemma RefusedIff(calendars: Calendars, vendor: Vendor, patch: Patch)
    ensures Refused(calendars, vendor, patch) <==>
            exists i | 0 <= i < |patch.requests| ::
              && patch.requests[i].key.vendor == vendor
              && (patch.requests[i].key in calendars ==>
                    calendars[patch.requests[i].key].profileId != patch.profileId)
  {
  }

  /** Without a failure the response is Done, and two rows that ask for outbound writing are a bad request. */
  lemma NoFailureAnswers(calendars: Calendars, patch: Patch, appleFirst: bool)
    ensures |OutboundPlaces(patch.requests)| > 1 <==> ResponseOf(calendars, patch, appleFirst) == BadRequest
    ensures |OutboundPlaces(patch.requests)| > 1 ==> Patched(calendars, patch) == calendars
    ensures |OutboundPlaces(patch.requests)| <= 1 && !Fails(calendars, GOOGLE, patch) && !Fails(calendars, APPLE, patch)
            ==> ResponseOf(calendars, patch, appleFirst) == Done
  {
    BadIff(patch.requests);
    hide Fails, OutboundRequests, OutboundPlaces, VendorPatched;
  }

  /** A vendor fails for a calendar of somebody else, or when it has to synchronize and does not. */
  lemma FailsIff(calendars: Calendars, vendor: Vendor, patch: Patch)
    ensures Fails(calendars, vendor, patch) <==>
            || Refused(calendars, vendor, patch)
            || (&& (exists r | r in patch.requests :: r.setting.outboundWriteSync || r.key.vendor == vendor)
                && Synchronizes(calendars, vendor, patch) && !patch.syncs.Of(vendor).Synchronized?)
  {
    RequestsOfElements(patch.requests, vendor);
    OutboundRequestsElements(patch.requests);
    EmptyOrMember(RequestsOf(patch.requests, vendor));
    EmptyOrMember(OutboundRequests(patch.requests));
    hide Synchronizes, Refused, RequestsOf, OutboundRequests;
  }

  lemma {:induction false} OutboundRequestsElements(requests: seq<Request>)
    ensures forall r :: r in OutboundRequests(requests) <==> r in requests && r.setting.outboundWriteSync
    decreases |requests|
  {
    if requests != [] {
      var last := |requests| - 1;
      OutboundRequestsElements(requests[..last]);
      assert requests == requests[..last] + [requests[last]];
    }
  }

  lemma EmptyOrMember(requests: seq<Request>)
    ensures requests != [] <==> exists r :: r in requests
  {
    if requests != [] {
      assert requests[0] in requests;
    }
  }
}
