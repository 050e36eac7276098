/**
 The availabilities of a team: AvailabilityService, the event profiles that use them, and the bodies that
 AvailabilityRedisRepository keeps under `profileId:uuid` in the hash of the team.
 */
module AvailabilityStore {

  import opened Wrappers
  import opened Strings

  datatype Availability = Availability(profileId: nat, uuid: string, isDefault: bool)

  type Rows = map<int, Availability>

  /** A stored body is the JSON text that `set` has made of it. */
  type Bodies = map<string, string>

  /** The availability rows, the availability that each event profile uses, and the Redis bodies. */
  datatype Store = Store(rows: Rows, eventProfiles: map<int, int>, bodies: Bodies)

  /**
   The fields of a patch request: `named` when a name, a time zone or a priority is given, `body` when times and
   overrides are.
   */
  datatype Patch = Patch(isDefault: Option<bool>, named: bool, body: Option<string>)

  datatype Outcome =
    | Done
    | EntityNotFound
    | NoDefaultAvailability
    | CannotDeleteDefaultAvailability
    | CannotUnlinkDefaultAvailability
    | AvailabilityBodySaveFail
    | CannotFindAvailabilityBody

  // ---------------------------------------------------------------- keys

  function BodyKey(profileId: nat, uuid: string): string {
    Decimal(profileId) + ":" + uuid
  }

  function KeyOf(availability: Availability): string {
    BodyKey(availability.profileId, availability.uuid)
  }

  function LiveKeys(rows: Rows): set<string> {
    set id | id in rows :: KeyOf(rows[id])
  }

  lemma BodyKeyAt(p: nat, u: string)
    ensures BodyKey(p, u)[|Decimal(p)|] == ':'
    ensures forall i | 0 <= i < |Decimal(p)| :: BodyKey(p, u)[i] != ':'
  {
    var d := Decimal(p);
    assert ':' !in DIGITS;
    assert forall i | 0 <= i < |d| :: BodyKey(p, u)[i] == d[i];
  }

  /** A key names one profile and one uuid. */
  lemma BodyKeyInjective(p: nat, u: string, q: nat, v: string)
    requires BodyKey(p, u) == BodyKey(q, v)
    ensures p == q && u == v
  {
    BodyKeyAt(p, u);
    BodyKeyAt(q, v);
    var key := BodyKey(p, u);
    var n := |Decimal(p)|;
    assert n == |Decimal(q)|;
    assert key[..n] == Decimal(p) && key[..n] == Decimal(q);
    assert key[n + 1..] == u && key[n + 1..] == v;
    DecimalInjective(p, q);
  }

  // ---------------------------------------------------------------- defaults

  function Defaults(rows: Rows, profileId: nat): set<int> {
    set id | id in rows && rows[id].profileId == profileId && rows[id].isDefault
  }

  ghost predicate OneDefault(rows: Rows, profileId: nat) {
    && Defaults(rows, profileId) != {}
    && forall a, b | a in Defaults(rows, profileId) && b in Defaults(rows, profileId) :: a == b
  }

  predicate IsLowest(ids: set<int>, low: int) {
    low in ids && forall id | id in ids :: low <= id
  }

  lemma EmptyWithoutElements(ids: set<int>)
    ensures (forall id: int :: id !in ids) ==> ids == {}
  {
    if forall id: int :: id !in ids {
      assert ids == {};
    }
  }

  lemma {:induction false} LowestExists(ids: set<int>)
    requires ids != {}
    ensures exists low :: IsLowest(ids, low)
    decreases |ids|
  {
    EmptyWithoutElements(ids);
    var some: int :| some in ids;
    var rest := ids - {some};
    if rest == {} {
      assert ids == {some};
      assert IsLowest(ids, some);
    } else {
      LowestExists(rest);
      var low :| IsLowest(rest, low);
      var min := if some < low then some else low;
      forall id | id in ids ensures min <= id {
        assert id == some || id in rest;
      }
      assert IsLowest(ids, min);
    }
  }

  /** findOneBy takes the first row. */
  function First(ids: set<int>): (low: int)
    requires ids != {}
    ensures low in ids
  {
    LowestExists(ids);
    var low :| IsLowest(ids, low);
    low
  }

  // ---------------------------------------------------------------- specification of the operations

  function Created(s: Store, id: int, availability: Availability, body: string): Store {
    Store(s.rows[id := availability], s.eventProfiles, s.bodies[KeyOf(availability) := body])
  }

  function Cleared(rows: Rows, profileId: nat): Rows {
    map id | id in rows :: if rows[id].profileId == profileId then rows[id].(isDefault := false) else rows[id]
  }

  function WithDefault(rows: Rows, profileId: nat, id: int, isDefault: bool): Rows
    requires id in rows
  {
    (if isDefault then Cleared(rows, profileId) else rows)[id := rows[id].(isDefault := isDefault)]
  }

  function PatchOutcome(s: Store, profileId: nat, id: int, patch: Patch): Outcome {
    if id !in s.rows then EntityNotFound
    else if s.rows[id].isDefault && patch.isDefault == Some(false) then NoDefaultAvailability
    else if patch.body.Some? && BodyKey(profileId, s.rows[id].uuid) !in s.bodies then AvailabilityBodySaveFail
    else Done
  }

  /** The default flag that the patched row ends with. */
  function PatchedDefault(s: Store, id: int, patch: Patch): bool
    requires id in s.rows
  {
    if patch.isDefault.Some? then patch.isDefault.value else s.rows[id].isDefault
  }

  function PatchedRows(s: Store, profileId: nat, id: int, patch: Patch): Rows {
    var outcome := PatchOutcome(s, profileId, id, patch);
    if outcome.EntityNotFound? || outcome.NoDefaultAvailability? || (patch.isDefault.None? && !patch.named) then s.rows
    else WithDefault(s.rows, profileId, id, PatchedDefault(s, id, patch))
  }

  function PatchedBodies(s: Store, profileId: nat, id: int, patch: Patch): Bodies {
    var outcome := PatchOutcome(s, profileId, id, patch);
    if outcome.EntityNotFound? || outcome.NoDefaultAvailability? || patch.body.None? then s.bodies
    else s.bodies[BodyKey(profileId, s.rows[id].uuid) := patch.body.value]
  }

  function Patched(s: Store, profileId: nat, id: int, patch: Patch): Store {
    Store(PatchedRows(s, profileId, id, patch), s.eventProfiles, PatchedBodies(s, profileId, id, patch))
  }

  /** _unlinksToAvailability: the event profiles of an availability move to the default one. */
  function Unlinked(eventProfiles: map<int, int>, id: int, defaultId: int): map<int, int> {
    map e | e in eventProfiles :: if eventProfiles[e] == id then defaultId else eventProfiles[e]
  }

  predicate Linked(s: Store, id: int) {
    exists e | e in s.eventProfiles :: s.eventProfiles[e] == id
  }

  predicate Owned(s: Store, profileId: nat, id: int) {
    id in s.rows && s.rows[id].profileId == profileId
  }

  function RemoveOutcome(s: Store, profileId: nat, id: int): Outcome {
    if Owned(s, profileId, id) && s.rows[id].isDefault then CannotDeleteDefaultAvailability
    else if Defaults(s.rows, profileId) == {} then EntityNotFound
    else Done
  }

  function Removed(s: Store, profileId: nat, id: int): Store {
    if !RemoveOutcome(s, profileId, id).Done? then s
    else
      Store(s.rows - {id}, Unlinked(s.eventProfiles, id, First(Defaults(s.rows, profileId))),
        if Owned(s, profileId, id) && Linked(s, id) then s.bodies - {KeyOf(s.rows[id])} else s.bodies)
  }

  function UnlinkOutcome(s: Store, profileId: nat, id: int): Outcome {
    if Defaults(s.rows, profileId) == {} then EntityNotFound
    else if First(Defaults(s.rows, profileId)) == id then CannotUnlinkDefaultAvailability
    else Done
  }

  function UnlinkedStore(s: Store, profileId: nat, id: int): Store {
    if !UnlinkOutcome(s, profileId, id).Done? then s
    else s.(eventProfiles := Unlinked(s.eventProfiles, id, First(Defaults(s.rows, profileId))))
  }

  /** The row of a clone, which belongs to the owner of its source. */
  function CloneRow(source: Availability, uuid: string): Availability {
    Availability(source.profileId, uuid, false)
  }

  /** The source body is looked up under the caller's profile. */
  function CloneOutcome(s: Store, profileId: nat, id: int): Outcome {
    if id !in s.rows then EntityNotFound
    else if BodyKey(profileId, s.rows[id].uuid) !in s.bodies then CannotFindAvailabilityBody
    else Done
  }

  function Cloned(s: Store, profileId: nat, id: int, newId: int, uuid: string, refresh: string -> string): Store {
    if id !in s.rows then s
    else
      Store(s.rows[newId := CloneRow(s.rows[id], uuid)], s.eventProfiles,
        if CloneOutcome(s, profileId, id).Done?
        then s.bodies[BodyKey(profileId, uuid) := refresh(s.bodies[BodyKey(profileId, s.rows[id].uuid)])]
        else s.bodies)
  }

  /** The keys that updateAll rewrites. */
  predicate KeyMatches(key: string, profileId: nat) {
    Includes(key, Decimal(profileId))
  }

  function BodiesRewritten(bodies: Bodies, profileId: nat, rewrite: string -> string): Bodies {
    map key | key in bodies :: if KeyMatches(key, profileId) then rewrite(bodies[key]) else bodies[key]
  }

  /** Writing the matching fields creates none. */
  lemma RewriteMatching(bodies: Bodies, profileId: nat, rewrite: string -> string)
    ensures var updated := map key | key in bodies && KeyMatches(key, profileId) :: rewrite(bodies[key]);
            updated.Keys - bodies.Keys == {} && bodies + updated == BodiesRewritten(bodies, profileId, rewrite)
  {
    hide KeyMatches;
  }

  // ---------------------------------------------------------------- the Redis repository

  class AvailabilityRedisRepository {
    var bodies: Bodies

    /** hset answers with the number of fields that did not exist before. */
    method Set(profileId: nat, uuid: string, body: string) returns (createdHashFields: nat)
      modifies this
      ensures bodies == old(bodies)[BodyKey(profileId, uuid) := body]
      ensures createdHashFields == if BodyKey(profileId, uuid) in old(bodies) then 0 else 1
    {
      createdHashFields := if BodyKey(profileId, uuid) in bodies then 0 else 1;
      bodies := bodies[BodyKey(profileId, uuid) := body];
    }

    method Save(profileId: nat, uuid: string, body: string) returns (outcome: Outcome)
      modifies this
      ensures bodies == old(bodies)[BodyKey(profileId, uuid) := body]
      ensures outcome == if BodyKey(profileId, uuid) in old(bodies) then AvailabilityBodySaveFail else Done
    {
      var createdHashFieldCount := Set(profileId, uuid, body);
      outcome := if createdHashFieldCount != 1 then AvailabilityBodySaveFail else Done;
    }

    method Update(profileId: nat, uuid: string, body: string) returns (outcome: Outcome)
      modifies this
      ensures bodies == old(bodies)[BodyKey(profileId, uuid) := body]
      ensures outcome == if BodyKey(profileId, uuid) in old(bodies) then Done else AvailabilityBodySaveFail
    {
      var createdHashFieldCount := Set(profileId, uuid, body);
      outcome := if createdHashFieldCount != 0 then AvailabilityBodySaveFail else Done;
    }

    /** Every matching body rewritten; a field that hset creates here would be a failure. */
    method UpdateAll(profileId: nat, rewrite: string -> string) returns (outcome: Outcome)
      modifies this
      ensures bodies == BodiesRewritten(old(bodies), profileId, rewrite)
      ensures outcome == Done
    {
      var updatedAvailabilityMap := map key | key in bodies && KeyMatches(key, profileId) :: rewrite(bodies[key]);
      RewriteMatching(bodies, profileId, rewrite);
      var createdFieldsCount := |updatedAvailabilityMap.Keys - bodies.Keys|;
      bodies := bodies + updatedAvailabilityMap;
      outcome := if createdFieldsCount != 0 then AvailabilityBodySaveFail else Done;
    }

    method DeleteAvailabilityBody(profileId: nat, uuid: string) returns (deleted: bool)
      modifies this
      ensures bodies == old(bodies) - {BodyKey(profileId, uuid)}
      ensures deleted <==> BodyKey(profileId, uuid) in old(bodies)
    {
      deleted := BodyKey(profileId, uuid) in bodies;
      bodies := bodies - {BodyKey(profileId, uuid)};
    }

    method Clone(
        profileId: nat, sourceUUID: string, newUUID: string, refresh: string -> string) returns (outcome: Outcome)
      requires BodyKey(profileId, newUUID) !in bodies
      modifies this
      ensures outcome == if BodyKey(profileId, sourceUUID) in old(bodies) then Done else CannotFindAvailabilityBody
      ensures bodies == if outcome.Done?
                        then
                          old(bodies)[BodyKey(profileId, newUUID) :=
                            refresh(old(bodies)[BodyKey(profileId, sourceUUID)])]
                        else old(bodies)
    {
      if BodyKey(profileId, sourceUUID) !in bodies {
        return CannotFindAvailabilityBody;
      }
      outcome := Save(profileId, newUUID, refresh(bodies[BodyKey(profileId, sourceUUID)]));
    }
  }

  // ---------------------------------------------------------------- the service

  class AvailabilityService {
    var rows: Rows
    var eventProfiles: map<int, int>
    const redis: AvailabilityRedisRepository

    constructor (redis: AvailabilityRedisRepository)
      ensures this.redis == redis && rows == map[] && eventProfiles == map[]
    {
      this.redis, rows, eventProfiles := redis, map[], map[];
    }

    ghost function State(): Store
      reads this, redis
    {
      Store(rows, eventProfiles, redis.bodies)
    }

    /** The database gives the row a new id and a new uuid. */
    method Create(profileId: nat, id: int, uuid: string, isDefault: bool, body: string) returns (outcome: Outcome)
      requires id !in rows && BodyKey(profileId, uuid) !in redis.bodies
      modifies this, redis
      ensures outcome == Done
      ensures State() == Created(old(State()), id, Availability(profileId, uuid, isDefault), body)
    {
      rows := rows[id := Availability(profileId, uuid, isDefault)];
      outcome := redis.Save(profileId, uuid, body);
    }

    method Patch(profileId: nat, id: int, patch: Patch) returns (outcome: Outcome)
      modifies this, redis
      ensures outcome == PatchOutcome(old(State()), profileId, id, patch)
      ensures State() == Patched(old(State()), profileId, id, patch)
    {
      if id !in rows {
        return EntityNotFound;
      }
      var availability := rows[id];
      var isNoDefaultAvailabilityRequest := availability.isDefault && patch.isDefault == Some(false);
      var shouldRDBUpdate := patch.isDefault.Some? || patch.named;
      if isNoDefaultAvailabilityRequest {
        return NoDefaultAvailability;
      }
      if shouldRDBUpdate {
        if patch.isDefault.Some? {
          availability := availability.(isDefault := patch.isDefault.value);
        }
        if availability.isDefault {
          rows := Cleared(rows, profileId);
        }
        rows := rows[id := availability];
      }
      outcome := Done;
      if patch.body.Some? {
        outcome := redis.Update(profileId, availability.uuid, patch.body.value);
      }
    }

    method Remove(profileId: nat, id: int) returns (outcome: Outcome)
      modifies this, redis
      ensures outcome == RemoveOutcome(old(State()), profileId, id)
      ensures State() == Removed(old(State()), profileId, id)
    {
      var loaded := id in rows && rows[id].profileId == profileId;
      if loaded && rows[id].isDefault {
        return CannotDeleteDefaultAvailability;
      }
      if Defaults(rows, profileId) == {} {
        return EntityNotFound;
      }
      var defaultId := First(Defaults(rows, profileId));
      var result := exists e | e in eventProfiles :: eventProfiles[e] == id;
      eventProfiles := Unlinked(eventProfiles, id, defaultId);
      var deleted := id in rows;
      var loadedAvailability := if loaded then rows[id] else Availability(profileId, "", false);
      rows := rows - {id};
      if loaded && result && deleted {
        var _ := redis.DeleteAvailabilityBody(profileId, loadedAvailability.uuid);
      }
      outcome := Done;
    }

    method UnlinkToEvents(profileId: nat, id: int) returns (outcome: Outcome)
      modifies this
      ensures outcome == UnlinkOutcome(old(State()), profileId, id)
      ensures State() == UnlinkedStore(old(State()), profileId, id)
    {
      if Defaults(rows, profileId) == {} {
        return EntityNotFound;
      }
      var defaultId := First(Defaults(rows, profileId));
      if defaultId == id {
        return CannotUnlinkDefaultAvailability;
      }
      eventProfiles := Unlinked(eventProfiles, id, defaultId);
      outcome := Done;
    }

    method Clone(
        profileId: nat, id: int, newId: int, uuid: string, refresh: string -> string) returns (outcome: Outcome)
      requires newId !in rows && BodyKey(profileId, uuid) !in redis.bodies
      modifies this, redis
      ensures outcome == CloneOutcome(old(State()), profileId, id)
      ensures State() == Cloned(old(State()), profileId, id, newId, uuid, refresh)
    {
      if id !in rows {
        return EntityNotFound;
      }
      var availability := rows[id];
      rows := rows[newId := CloneRow(availability, uuid)];
      outcome := redis.Clone(profileId, availability.uuid, uuid, refresh);
    }
  }

  // ---------------------------------------------------------------- exactly one default

  lemma ClearedDefaults(rows: Rows, profileId: nat, other: nat)
    ensures Defaults(Cleared(rows, profileId), other) == if other == profileId then {} else Defaults(rows, other)
  {
  }

  /** The defaults of a profile after a default flag has been written. */
  lemma WithDefaultDefaults(rows: Rows, profileId: nat, id: int, isDefault: bool, other: nat)
    requires id in rows
    ensures var before := if isDefault && other == profileId then {} else Defaults(rows, other);
            Defaults(WithDefault(rows, profileId, id, isDefault), other) ==
            if rows[id].profileId != other then before
            else if isDefault then before + {id}
            else before - {id}
  {
    ClearedDefaults(rows, profileId, other);
  }

  /** The patch makes an availability of another profile a default: the lookup by id alone finds it. */
  predicate MakesForeignDefault(s: Store, profileId: nat, id: int, patch: Patch) {
    && id in s.rows && s.rows[id].profileId != profileId
    && (patch.isDefault.Some? || patch.named) && PatchedDefault(s, id, patch)
  }

  /**
   A patch keeps exactly one default of a profile, unless it makes an availability of another profile than the caller's
   a default. Then the caller is left without a default, and the owner gets a second one if it was not the default
   before.
   */
  lemma PatchKeepsDefaultIff(s: Store, profileId: nat, id: int, patch: Patch, other: nat)
    requires OneDefault(s.rows, other)
    ensures OneDefault(Patched(s, profileId, id, patch).rows, other) <==>
            !(&& MakesForeignDefault(s, profileId, id, patch)
              && (other == profileId || (other == s.rows[id].profileId && !s.rows[id].isDefault)))
  {
    var before := Defaults(s.rows, other);
    var x := First(before);
    if id in s.rows && (patch.isDefault.Some? || patch.named) {
      WithDefaultDefaults(s.rows, profileId, id, PatchedDefault(s, id, patch), other);
      if PatchedDefault(s, id, patch) {
        DefaultAdded(s.rows, PatchedRows(s, profileId, id, patch), id, other, x);
      }
    }
    hide WithDefault;
  }

  lemma DefaultAdded(rows: Rows, after: Rows, id: int, other: nat, x: int)
    requires x in Defaults(rows, other) && OneDefault(rows, other)
    ensures Defaults(after, other) == {id} ==> OneDefault(after, other)
    ensures Defaults(after, other) == {} ==> !OneDefault(after, other)
    ensures Defaults(after, other) == Defaults(rows, other) + {id} ==>
              (OneDefault(after, other) <==> id in Defaults(rows, other))
  {
    if Defaults(after, other) == Defaults(rows, other) + {id} {
      assert x in Defaults(after, other) && id in Defaults(after, other);
      if id in Defaults(rows, other) {
        assert forall a | a in Defaults(after, other) :: a in Defaults(rows, other);
      }
    }
  }

  /** A patch of an own availability moves the default, when it asks for one, and touches no other profile. */
  lemma OwnPatchDefaults(s: Store, profileId: nat, id: int, patch: Patch, other: nat)
    requires Owned(s, profileId, id) && OneDefault(s.rows, profileId)
    ensures other != profileId ==> Defaults(Patched(s, profileId, id, patch).rows, other) == Defaults(s.rows, other)
    ensures OneDefault(Patched(s, profileId, id, patch).rows, profileId)
    ensures patch.isDefault == Some(true) ==> Defaults(Patched(s, profileId, id, patch).rows, profileId) == {id}
  {
    PatchKeepsDefaultIff(s, profileId, id, patch, profileId);
    WithDefaultDefaults(s.rows, profileId, id, PatchedDefault(s, id, patch), other);
    WithDefaultDefaults(s.rows, profileId, id, PatchedDefault(s, id, patch), profileId);
    hide WithDefault;
  }

  lemma AddedDefaults(rows: Rows, id: int, availability: Availability, other: nat)
    requires id !in rows && !availability.isDefault
    ensures Defaults(rows[id := availability], other) == Defaults(rows, other)
  {
  }

  /**
   A removal keeps exactly one default of a profile, unless the id is the default of another profile than the caller's:
   only an own default is refused, but the row is deleted by its id alone.
   */
  lemma RemoveKeepsDefaultIff(s: Store, profileId: nat, id: int, other: nat)
    requires OneDefault(s.rows, other)
    ensures OneDefault(Removed(s, profileId, id).rows, other) <==>
            !(&& RemoveOutcome(s, profileId, id).Done? && other != profileId
              && id in s.rows && s.rows[id].profileId == other && s.rows[id].isDefault)
  {
    RemovedDefaults(s.rows, id, other);
    var left := Defaults(s.rows - {id}, other);
    var x := First(Defaults(s.rows, other));
    if id in Defaults(s.rows, other) {
      if left != {} {
        var y := First(left);
      }
    } else {
      assert x in left;
    }
    hide First, Unlinked, KeyOf, Linked;
  }

  lemma RemovedDefaults(rows: Rows, id: int, other: nat)
    ensures Defaults(rows - {id}, other) == Defaults(rows, other) - {id}
  {
  }

  // ---------------------------------------------------------------- event profiles and bodies

  /** Every event profile uses an availability that exists. */
  ghost predicate EventProfilesLive(s: Store) {
    forall e | e in s.eventProfiles :: s.eventProfiles[e] in s.rows
  }

  ghost predicate DistinctKeys(rows: Rows) {
    forall a, b | a in rows && b in rows && KeyOf(rows[a]) == KeyOf(rows[b]) :: a == b
  }

  /** Every availability has a body, and the keys are distinct. */
  ghost predicate BodiesCover(s: Store) {
    LiveKeys(s.rows) <= s.bodies.Keys && DistinctKeys(s.rows)
  }

  /** The bodies are those of the availabilities, no more. */
  ghost predicate BodiesExact(s: Store) {
    LiveKeys(s.rows) == s.bodies.Keys && DistinctKeys(s.rows)
  }

  lemma PatchKeepsKeys(s: Store, profileId: nat, id: int, patch: Patch)
    ensures LiveKeys(Patched(s, profileId, id, patch).rows) == LiveKeys(s.rows)
    ensures DistinctKeys(Patched(s, profileId, id, patch).rows) == DistinctKeys(s.rows)
    ensures Patched(s, profileId, id, patch).rows.Keys == s.rows.Keys
  {
    var after := Patched(s, profileId, id, patch).rows;
    forall a | a in s.rows ensures a in after && KeyOf(after[a]) == KeyOf(s.rows[a]) {
    }
    assert after.Keys == s.rows.Keys;
    hide BodyKey;
  }

  /** A patch of an own availability never fails to save its body, and creates no key. */
  lemma OwnPatchFindsBody(s: Store, profileId: nat, id: int, patch: Patch)
    requires BodiesCover(s) && Owned(s, profileId, id)
    ensures !PatchOutcome(s, profileId, id, patch).AvailabilityBodySaveFail?
    ensures Patched(s, profileId, id, patch).bodies.Keys == s.bodies.Keys
  {
    assert KeyOf(s.rows[id]) in LiveKeys(s.rows);
  }

  /** updateAll never creates a field, whatever it writes. */
  lemma UpdateAllKeepsKeys(bodies: Bodies, profileId: nat, rewrite: string -> string)
    ensures BodiesRewritten(bodies, profileId, rewrite).Keys == bodies.Keys
  {
  }

  /**
   It rewrites every body of the profile, and a body of another profile exactly when the id of that profile or the uuid
   contains the digits of the id.
   */
  lemma UpdateAllReachesIff(bodies: Bodies, profileId: nat, other: nat, uuid: string, rewrite: string -> string)
    requires BodyKey(other, uuid) in bodies
    ensures BodiesRewritten(bodies, profileId, rewrite)[BodyKey(other, uuid)] ==
            if Includes(Decimal(other), Decimal(profileId)) || Includes(uuid, Decimal(profileId))
            then rewrite(bodies[BodyKey(other, uuid)]) else bodies[BodyKey(other, uuid)]
    ensures other == profileId ==> Includes(Decimal(other), Decimal(profileId))
  {
    assert ':' !in DIGITS;
    IncludesApart(Decimal(other), ':', uuid, Decimal(profileId));
    IncludesSelf(Decimal(profileId));
    hide Includes, Decimal;
  }

  lemma AddKeepsKeys(s: Store, id: int, availability: Availability)
    requires id !in s.rows && BodiesCover(s) && KeyOf(availability) !in s.bodies
    ensures LiveKeys(s.rows[id := availability]) == LiveKeys(s.rows) + {KeyOf(availability)}
    ensures DistinctKeys(s.rows[id := availability])
  {
    var after := s.rows[id := availability];
    forall key ensures key in LiveKeys(after) <==> key in LiveKeys(s.rows) || key == KeyOf(availability) {
      if key in LiveKeys(s.rows) {
        var a :| a in s.rows && KeyOf(s.rows[a]) == key;
        assert KeyOf(after[a]) == key;
      }
      assert KeyOf(after[id]) == KeyOf(availability);
    }
    forall a | a in s.rows ensures KeyOf(s.rows[a]) in s.bodies {
      assert KeyOf(s.rows[a]) in LiveKeys(s.rows);
    }
    hide KeyOf;
  }

  lemma RemovedKeys(rows: Rows, id: int)
    requires id in rows && DistinctKeys(rows)
    ensures LiveKeys(rows - {id}) == LiveKeys(rows) - {KeyOf(rows[id])}
    ensures DistinctKeys(rows - {id})
  {
    var after := rows - {id};
    forall key ensures key in LiveKeys(after) <==> key in LiveKeys(rows) && key != KeyOf(rows[id]) {
      if key in LiveKeys(rows) && key != KeyOf(rows[id]) {
        var a :| a in rows && KeyOf(rows[a]) == key;
        assert a in after && KeyOf(after[a]) == key;
      }
    }
    hide KeyOf;
  }

  /**
   A removal keeps the bodies those of the availabilities exactly when it removes nothing, or removes an own
   availability that some event profile uses: otherwise the body stays behind.
   */
  lemma RemoveKeepsExactIff(s: Store, profileId: nat, id: int)
    requires BodiesExact(s)
    ensures BodiesExact(Removed(s, profileId, id)) <==>
            || !RemoveOutcome(s, profileId, id).Done? || id !in s.rows
            || (Owned(s, profileId, id) && Linked(s, id))
  {
    if RemoveOutcome(s, profileId, id).Done? {
      if id in s.rows {
        RemovedKeys(s.rows, id);
        assert KeyOf(s.rows[id]) in LiveKeys(s.rows);
      } else {
        assert s.rows - {id} == s.rows;
      }
    }
    hide KeyOf, Linked, LiveKeys, DistinctKeys;
  }

  /** The failing case: an availability that no event uses is removed, and its body stays. */
  lemma UnusedBodyStays(s: Store, profileId: nat, id: int)
    requires BodiesExact(s) && OneDefault(s.rows, profileId) && Owned(s, profileId, id) && !s.rows[id].isDefault
             && !Linked(s, id)
    ensures id !in Removed(s, profileId, id).rows
    ensures KeyOf(s.rows[id]) in Removed(s, profileId, id).bodies
            && KeyOf(s.rows[id]) !in LiveKeys(Removed(s, profileId, id).rows)
  {
    RemovedKeys(s.rows, id);
    assert KeyOf(s.rows[id]) in LiveKeys(s.rows);
  }

  lemma RemoveKeepsCover(s: Store, profileId: nat, id: int)
    requires BodiesCover(s)
    ensures BodiesCover(Removed(s, profileId, id))
  {
    if id in s.rows {
      RemovedKeys(s.rows, id);
    } else {
      assert s.rows - {id} == s.rows;
    }
    hide KeyOf, Linked, LiveKeys, DistinctKeys;
  }

  /** A removal leaves no event profile behind: those of the availability use the caller's default from then on. */
  lemma RemoveRelinks(s: Store, profileId: nat, id: int)
    requires EventProfilesLive(s)
    ensures EventProfilesLive(Removed(s, profileId, id))
    ensures RemoveOutcome(s, profileId, id).Done? && id in s.rows && Owned(s, profileId, id) ==>
            First(Defaults(s.rows, profileId)) != id
  {
    if RemoveOutcome(s, profileId, id).Done? && Owned(s, profileId, id) {
      assert id !in Defaults(s.rows, profileId);
    }
  }

  // ---------------------------------------------------------------- which event profiles move

  /** Exactly the event profiles that used the availability move, and to a default one of the caller. */
  ghost predicate Moves(before: map<int, int>, after: map<int, int>, id: int, defaults: set<int>) {
    && after.Keys == before.Keys
    && forall e | e in before ::
         if before[e] == id then after[e] in defaults else after[e] == before[e]
  }

  /** Unlinking moves the event profiles of the availability named and no other. */
  lemma UnlinkMoves(s: Store, profileId: nat, id: int)
    requires UnlinkOutcome(s, profileId, id).Done?
    ensures Moves(s.eventProfiles, UnlinkedStore(s, profileId, id).eventProfiles, id, Defaults(s.rows, profileId))
    ensures UnlinkedStore(s, profileId, id).rows == s.rows && UnlinkedStore(s, profileId, id).bodies == s.bodies
  {
    hide Defaults;
  }

  /** So does a removal, which takes out that row and no other. */
  lemma RemoveMoves(s: Store, profileId: nat, id: int)
    requires RemoveOutcome(s, profileId, id).Done?
    ensures Moves(s.eventProfiles, Removed(s, profileId, id).eventProfiles, id, Defaults(s.rows, profileId))
    ensures Removed(s, profileId, id).rows == s.rows - {id}
    ensures forall key | key in s.bodies && (Owned(s, profileId, id) ==> key != KeyOf(s.rows[id])) ::
              key in Removed(s, profileId, id).bodies && Removed(s, profileId, id).bodies[key] == s.bodies[key]
  {
    hide Defaults, KeyOf, Linked;
  }

  /** A refused removal or unlinking changes nothing, and the default availability is the one that is refused. */
  lemma DefaultIsKept(s: Store, profileId: nat, id: int)
    requires OneDefault(s.rows, profileId) && id in Defaults(s.rows, profileId)
    ensures Removed(s, profileId, id) == s && RemoveOutcome(s, profileId, id).CannotDeleteDefaultAvailability?
    ensures UnlinkedStore(s, profileId, id) == s && UnlinkOutcome(s, profileId, id).CannotUnlinkDefaultAvailability?
  {
    assert First(Defaults(s.rows, profileId)) in Defaults(s.rows, profileId);
  }

  /** A new event profile uses a default availability of its profile. */
  lemma EventUsesDefault(s: Store, profileId: nat, eventProfile: int)
    requires Defaults(s.rows, profileId) != {}
    ensures var after := EventAdded(s, profileId, eventProfile).eventProfiles;
            && after.Keys == s.eventProfiles.Keys + {eventProfile}
            && after[eventProfile] in Defaults(s.rows, profileId)
            && forall e | e in s.eventProfiles && e != eventProfile :: after[e] == s.eventProfiles[e]
  {
    hide Defaults;
  }

  /** A clone is a new row of the same profile, not a default, with the refreshed body of its source. */
  lemma CloneCopies(s: Store, profileId: nat, id: int, newId: int, uuid: string, refresh: string -> string)
    requires BodiesCover(s) && Owned(s, profileId, id) && newId !in s.rows && BodyKey(profileId, uuid) !in s.bodies
    ensures var after := Cloned(s, profileId, id, newId, uuid, refresh);
            && after.rows == s.rows[newId := Availability(profileId, uuid, false)]
            && after.eventProfiles == s.eventProfiles
            && BodyKey(profileId, s.rows[id].uuid) in s.bodies
            && after.bodies ==
               s.bodies[BodyKey(profileId, uuid) := refresh(s.bodies[BodyKey(profileId, s.rows[id].uuid)])]
  {
    assert KeyOf(s.rows[id]) in LiveKeys(s.rows);
    hide BodyKey;
  }

  /** A new availability is stored with its body, and every other row and body stays. */
  lemma CreateWrites(s: Store, id: int, availability: Availability, body: string, key: string)
    requires key == Decimal(availability.profileId) + ":" + availability.uuid
    ensures var after := Created(s, id, availability, body);
            && after.rows == s.rows[id := availability] && after.eventProfiles == s.eventProfiles
            && key in after.bodies && after.bodies[key] == body && after.bodies - {key} == s.bodies - {key}
  {
  }

  /** A patch that goes through writes what it names: the default flag of the row, and the body. */
  lemma PatchWrites(s: Store, profileId: nat, id: int, patch: Patch)
    requires PatchOutcome(s, profileId, id, patch).Done?
    ensures var after := Patched(s, profileId, id, patch);
            && after.rows.Keys == s.rows.Keys && after.eventProfiles == s.eventProfiles
            && after.bodies.Keys == s.bodies.Keys
            && (patch.isDefault.Some? ==> after.rows[id].isDefault == patch.isDefault.value)
            && (patch.isDefault.None? ==> after.rows[id] == s.rows[id])
    ensures forall key | key in s.bodies ::
              Patched(s, profileId, id, patch).bodies[key] ==
              if patch.body.Some? && key == Decimal(profileId) + ":" + s.rows[id].uuid then patch.body.value
              else s.bodies[key]
  {
  }

  /** No patch takes the default flag from the default availability, and a patch refused so changes nothing. */
  lemma PatchRefusedIff(s: Store, profileId: nat, id: int, patch: Patch)
    ensures PatchOutcome(s, profileId, id, patch).EntityNotFound? <==> id !in s.rows
    ensures PatchOutcome(s, profileId, id, patch).NoDefaultAvailability? <==>
            id in s.rows && s.rows[id].isDefault && patch.isDefault.Some? && !patch.isDefault.value
    ensures PatchOutcome(s, profileId, id, patch).AvailabilityBodySaveFail? ==>
              patch.body.Some? && Decimal(profileId) + ":" + s.rows[id].uuid !in s.bodies
    ensures id !in s.rows || PatchOutcome(s, profileId, id, patch).NoDefaultAvailability? ==>
              Patched(s, profileId, id, patch) == s
  {
  }

  /** For a profile with one default, a removal or an unlinking is refused exactly for that one. */
  lemma RefusedIffDefault(s: Store, profileId: nat, id: int)
    requires OneDefault(s.rows, profileId)
    ensures RemoveOutcome(s, profileId, id).Done? <==> id !in Defaults(s.rows, profileId)
    ensures UnlinkOutcome(s, profileId, id).Done? <==> id !in Defaults(s.rows, profileId)
  {
    assert First(Defaults(s.rows, profileId)) in Defaults(s.rows, profileId);
  }

  // ---------------------------------------------------------------- runs on own availabilities

  /** Steps of a profile; ids and uuids of new rows come from the database. */
  datatype Step =
    | CreateStep(profileId: nat, newId: int, uuid: string, body: string)
    | PatchStep(profileId: nat, id: int, patch: Patch)
    | PatchAllStep(profileId: nat, rewrite: string -> string)
    | RemoveStep(profileId: nat, id: int)
    | UnlinkStep(profileId: nat, id: int)
    | CloneStep(profileId: nat, id: int, newId: int, uuid: string, refresh: string -> string)
    | EventStep(profileId: nat, eventProfile: int)

  /** A new event's profile starts with the default availability. */
  function EventAdded(s: Store, profileId: nat, eventProfile: int): Store {
    if Defaults(s.rows, profileId) == {} then s
    else s.(eventProfiles := s.eventProfiles[eventProfile := First(Defaults(s.rows, profileId))])
  }

  function After(s: Store, step: Step): Store {
    match step
    case CreateStep(profileId, newId, uuid, body) => Created(s, newId, Availability(profileId, uuid, false), body)
    case PatchStep(profileId, id, patch) => Patched(s, profileId, id, patch)
    case PatchAllStep(profileId, rewrite) => s.(bodies := BodiesRewritten(s.bodies, profileId, rewrite))
    case RemoveStep(profileId, id) => Removed(s, profileId, id)
    case UnlinkStep(profileId, id) => UnlinkedStore(s, profileId, id)
    case CloneStep(profileId, id, newId, uuid, refresh) => Cloned(s, profileId, id, newId, uuid, refresh)
    case EventStep(profileId, eventProfile) => EventAdded(s, profileId, eventProfile)
  }

  /** The availability named is the profile's own or does not exist, and new rows have new ids and uuids. */
  predicate OwnStep(s: Store, step: Step) {
    match step
    case CreateStep(profileId, newId, uuid, _) => newId !in s.rows && BodyKey(profileId, uuid) !in s.bodies
    case PatchStep(profileId, id, _) => id in s.rows ==> Owned(s, profileId, id)
    case RemoveStep(profileId, id) => id in s.rows ==> Owned(s, profileId, id)
    case UnlinkStep(profileId, id) => id in s.rows ==> Owned(s, profileId, id)
    case CloneStep(profileId, id, newId, uuid, _) =>
      && (id in s.rows ==> Owned(s, profileId, id))
      && newId !in s.rows && BodyKey(profileId, uuid) !in s.bodies
    case EventStep(_, eventProfile) => eventProfile !in s.eventProfiles
    case _ => true
  }

  predicate Fails(s: Store, step: Step) {
    match step
    case PatchStep(profileId, id, patch) => PatchOutcome(s, profileId, id, patch).AvailabilityBodySaveFail?
    case CloneStep(profileId, id, _, _, _) => CloneOutcome(s, profileId, id).CannotFindAvailabilityBody?
    case _ => false
  }

  /** A removal of an availability that no event profile uses. */
  predicate LeavesBody(s: Store, step: Step) {
    step.RemoveStep? && step.id in s.rows && RemoveOutcome(s, step.profileId, step.id).Done? && !Linked(s, step.id)
  }

  lemma StepKeepsDefault(s: Store, step: Step, other: nat)
    requires OwnStep(s, step) && OneDefault(s.rows, other)
    ensures OneDefault(After(s, step).rows, other)
  {
    match step
    case CreateStep(profileId, newId, uuid, _) =>
      AddedDefaults(s.rows, newId, Availability(profileId, uuid, false), other);
    case PatchStep(profileId, id, patch) =>
      PatchKeepsDefaultIff(s, profileId, id, patch, other);
    case RemoveStep(profileId, id) => RemoveKeepsDefaultIff(s, profileId, id, other);
    case CloneStep(profileId, id, newId, uuid, _) =>
      if id in s.rows {
        AddedDefaults(s.rows, newId, CloneRow(s.rows[id], uuid), other);
      }
    case _ =>
  }

  lemma StepKeepsLive(s: Store, step: Step)
    requires EventProfilesLive(s)
    requires step.CreateStep? || step.CloneStep? ==> step.newId !in s.rows
    ensures EventProfilesLive(After(s, step))
  {
    match step
    case PatchStep(profileId, id, patch) => PatchKeepsKeys(s, profileId, id, patch);
    case RemoveStep(profileId, id) => RemoveRelinks(s, profileId, id);
    case _ =>
  }

  lemma OwnPatchKeepsBodies(s: Store, profileId: nat, id: int, patch: Patch)
    requires BodiesCover(s) && (id in s.rows ==> Owned(s, profileId, id))
    ensures BodiesCover(Patched(s, profileId, id, patch))
    ensures BodiesExact(s) ==> BodiesExact(Patched(s, profileId, id, patch))
  {
    PatchKeepsKeys(s, profileId, id, patch);
    if id in s.rows {
      OwnPatchFindsBody(s, profileId, id, patch);
    }
    hide LiveKeys, DistinctKeys, KeyOf, PatchedRows;
  }

  lemma OwnCloneKeepsBodies(s: Store, profileId: nat, id: int, newId: int, uuid: string, refresh: string -> string)
    requires BodiesCover(s) && (id in s.rows ==> Owned(s, profileId, id))
    requires newId !in s.rows && BodyKey(profileId, uuid) !in s.bodies
    ensures !CloneOutcome(s, profileId, id).CannotFindAvailabilityBody?
    ensures BodiesCover(Cloned(s, profileId, id, newId, uuid, refresh))
    ensures BodiesExact(s) ==> BodiesExact(Cloned(s, profileId, id, newId, uuid, refresh))
  {
    if id in s.rows {
      assert KeyOf(s.rows[id]) in LiveKeys(s.rows);
      AddKeepsKeys(s, newId, CloneRow(s.rows[id], uuid));
    }
    hide LiveKeys, DistinctKeys, BodyKey;
  }

  /** No body is kept under the uuid, for any profile. */
  ghost predicate FreshUuid(s: Store, uuid: string) {
    forall profileId :: BodyKey(profileId, uuid) !in s.bodies
  }

  /** A clone finds its body, and leaves every availability with one, exactly when it copies no stranger's one. */
  lemma CloneKeepsCoverIff(s: Store, profileId: nat, id: int, newId: int, uuid: string, refresh: string -> string)
    requires BodiesCover(s) && newId !in s.rows && FreshUuid(s, uuid)
    ensures BodiesCover(Cloned(s, profileId, id, newId, uuid, refresh)) <==>
            (id in s.rows ==> Owned(s, profileId, id))
  {
    if id in s.rows ==> Owned(s, profileId, id) {
      OwnCloneKeepsBodies(s, profileId, id, newId, uuid, refresh);
    } else {
      var after := Cloned(s, profileId, id, newId, uuid, refresh);
      var owner := s.rows[id].profileId;
      if BodyKey(owner, uuid) == BodyKey(profileId, uuid) {
        BodyKeyInjective(owner, uuid, profileId, uuid);
      }
      assert KeyOf(after.rows[newId]) == BodyKey(owner, uuid);
      assert BodyKey(owner, uuid) !in after.bodies && BodyKey(owner, uuid) in LiveKeys(after.rows);
    }
    hide BodyKey;
  }

  lemma OwnCreateKeepsBodies(s: Store, newId: int, availability: Availability, body: string)
    requires BodiesCover(s) && newId !in s.rows && KeyOf(availability) !in s.bodies
    ensures BodiesCover(Created(s, newId, availability, body))
    ensures BodiesExact(s) ==> BodiesExact(Created(s, newId, availability, body))
  {
    AddKeepsKeys(s, newId, availability);
    hide LiveKeys, DistinctKeys, KeyOf;
  }

  lemma StepKeepsCover(s: Store, step: Step)
    requires OwnStep(s, step) && BodiesCover(s)
    ensures BodiesCover(After(s, step)) && !Fails(s, step)
  {
    match step
    case CreateStep(profileId, newId, uuid, body) =>
      OwnCreateKeepsBodies(s, newId, Availability(profileId, uuid, false), body);
    case PatchStep(profileId, id, patch) =>
      OwnPatchKeepsBodies(s, profileId, id, patch);
      if id in s.rows {
        OwnPatchFindsBody(s, profileId, id, patch);
      }
    case RemoveStep(profileId, id) => RemoveKeepsCover(s, profileId, id);
    case CloneStep(profileId, id, newId, uuid, refresh) => OwnCloneKeepsBodies(s, profileId, id, newId, uuid, refresh);
    case _ =>
  }

  /** A step keeps the bodies exact unless it is the removal of an availability that no event profile uses. */
  lemma StepKeepsExactIff(s: Store, step: Step)
    requires OwnStep(s, step) && BodiesExact(s)
    ensures BodiesExact(After(s, step)) <==> !LeavesBody(s, step)
  {
    match step
    case CreateStep(profileId, newId, uuid, body) =>
      OwnCreateKeepsBodies(s, newId, Availability(profileId, uuid, false), body);
    case PatchStep(profileId, id, patch) => OwnPatchKeepsBodies(s, profileId, id, patch);
    case RemoveStep(profileId, id) => RemoveKeepsExactIff(s, profileId, id);
    case CloneStep(profileId, id, newId, uuid, refresh) => OwnCloneKeepsBodies(s, profileId, id, newId, uuid, refresh);
    case _ =>
  }

  ghost predicate Run(states: seq<Store>, steps: seq<Step>) {
    && |states| == |steps| + 1
    && forall i | 0 <= i < |steps| :: OwnStep(states[i], steps[i]) && states[i + 1] == After(states[i], steps[i])
  }

  /**
   What a profile's own steps keep: each profile that started with one default has one, every event profile and every
   body is in place.
   */
  ghost predicate Sound(s: Store, profileIds: set<nat>) {
    && (forall profileId | profileId in profileIds :: OneDefault(s.rows, profileId))
    && EventProfilesLive(s)
    && BodiesCover(s)
  }

  /** In every run on own availabilities the store stays sound, and no step fails for want of a body. */
  lemma {:induction false} RunsStaySound(states: seq<Store>, steps: seq<Step>, profileIds: set<nat>, i: nat)
    requires Run(states, steps) && Sound(states[0], profileIds) && i < |states|
    ensures Sound(states[i], profileIds)
    ensures i < |steps| ==> !Fails(states[i], steps[i])
  {
    hide OneDefault, EventProfilesLive, BodiesCover, OwnStep, Fails, After;
    if i > 0 {
      RunsStaySound(states, steps, profileIds, i - 1);
      var s, step := states[i - 1], steps[i - 1];
      forall profileId | profileId in profileIds ensures OneDefault(states[i].rows, profileId) {
        StepKeepsDefault(s, step, profileId);
      }
      FreshOfOwn(s, step);
      StepKeepsLive(s, step);
      StepKeepsCover(s, step);
    }
    if i < |steps| {
      StepKeepsCover(states[i], steps[i]);
    }
  }

  lemma FreshOfOwn(s: Store, step: Step)
    requires OwnStep(s, step)
    ensures step.CreateStep? || step.CloneStep? ==> step.newId !in s.rows
  {
  }

  lemma {:induction false} RunsKeepBodiesExact(states: seq<Store>, steps: seq<Step>, n: nat)
    requires Run(states, steps) && BodiesExact(states[0]) && n < |states|
    requires forall k | 0 <= k < n :: !LeavesBody(states[k], steps[k])
    ensures BodiesExact(states[n])
  {
    hide BodiesExact, OwnStep, After, LeavesBody;
    if n > 0 {
      RunsKeepBodiesExact(states, steps, n - 1);
      StepKeepsExactIff(states[n - 1], steps[n - 1]);
    }
  }

  /**
   All along a run on own availabilities the body keys are exactly those of the rows, exactly when every availability
   removed was in use.
   */
  lemma RunsKeepBodiesExactIff(states: seq<Store>, steps: seq<Step>)
    requires Run(states, steps) && BodiesExact(states[0])
    ensures (forall n | 0 <= n < |states| :: BodiesExact(states[n])) <==>
            (forall k | 0 <= k < |steps| :: !LeavesBody(states[k], steps[k]))
  {
    hide BodiesExact, OwnStep, After, LeavesBody;
    if forall k | 0 <= k < |steps| :: !LeavesBody(states[k], steps[k]) {
      forall n | 0 <= n < |states| ensures BodiesExact(states[n]) {
        RunsKeepBodiesExact(states, steps, n);
      }
    }
    if forall n | 0 <= n < |states| :: BodiesExact(states[n]) {
      forall k | 0 <= k < |steps| ensures !LeavesBody(states[k], steps[k]) {
        assert BodiesExact(states[k]) && BodiesExact(states[k + 1]);
        StepKeepsExactIff(states[k], steps[k]);
      }
    }
  }

  // ---------------------------------------------------------------- other profiles

  /** A profile's own steps leave the rows of every other profile as they are. */
  lemma OthersRowKept(s: Store, step: Step, id: int)
    requires OwnStep(s, step) && id in s.rows && s.rows[id].profileId != step.profileId
    ensures id in After(s, step).rows && After(s, step).rows[id] == s.rows[id]
  {
    hide First, Unlinked, BodyKey, Linked, Defaults, BodiesRewritten;
  }

  /** And every event profile that uses an availability of another profile. */
  lemma OthersEventProfileKept(s: Store, step: Step, e: int)
    requires OwnStep(s, step) && e in s.eventProfiles
    requires s.eventProfiles[e] in s.rows && s.rows[s.eventProfiles[e]].profileId != step.profileId
    ensures e in After(s, step).eventProfiles && After(s, step).eventProfiles[e] == s.eventProfiles[e]
  {
    match step
    case RemoveStep(profileId, id) =>
      if RemoveOutcome(s, profileId, id).Done? {
        RemoveMoves(s, profileId, id);
      }
    case UnlinkStep(profileId, id) =>
      if UnlinkOutcome(s, profileId, id).Done? {
        UnlinkMoves(s, profileId, id);
      }
    case _ =>
  }

  /** And, but for updateAll, the body of every availability of another profile. */
  lemma OthersBodyKept(s: Store, step: Step, id: int)
    requires OwnStep(s, step) && !step.PatchAllStep? && BodiesCover(s)
    requires id in s.rows && s.rows[id].profileId != step.profileId
    ensures KeyOf(s.rows[id]) in After(s, step).bodies
    ensures After(s, step).bodies[KeyOf(s.rows[id])] == s.bodies[KeyOf(s.rows[id])]
  {
    assert KeyOf(s.rows[id]) in LiveKeys(s.rows);
    forall uuid ensures KeyOf(s.rows[id]) != BodyKey(step.profileId, uuid) {
      if KeyOf(s.rows[id]) == BodyKey(step.profileId, uuid) {
        BodyKeyInjective(s.rows[id].profileId, s.rows[id].uuid, step.profileId, uuid);
      }
    }
    hide BodyKey, LiveKeys, DistinctKeys, First, Unlinked, Linked, WithDefault, Defaults, BodiesRewritten;
  }

  /** In a run, an event profile keeps the availability it uses until a step of the profile that owns it. */
  lemma {:induction false} RunsKeepOthersEventProfiles(states: seq<Store>, steps: seq<Step>, from: nat, n: nat, e: int)
    requires Run(states, steps) && from <= n < |states|
    requires e in states[from].eventProfiles && states[from].eventProfiles[e] in states[from].rows
    requires forall k | from <= k < n ::
               steps[k].profileId != states[from].rows[states[from].eventProfiles[e]].profileId
    ensures e in states[n].eventProfiles && states[n].eventProfiles[e] == states[from].eventProfiles[e]
    ensures states[n].eventProfiles[e] in states[n].rows
    ensures states[n].rows[states[n].eventProfiles[e]] == states[from].rows[states[from].eventProfiles[e]]
    decreases n
  {
    hide OwnStep, After;
    if n > from {
      RunsKeepOthersEventProfiles(states, steps, from, n - 1, e);
      OthersRowKept(states[n - 1], steps[n - 1], states[from].eventProfiles[e]);
      OthersEventProfileKept(states[n - 1], steps[n - 1], e);
    }
  }
}
