/** Classification of OpenSprinkler entities and the state derived from them
    (src/os_helpers.ts). */
module OsHelpers {
  import opened Base
  import opened HaHelpers

  /** running_program_id of a manual run. */
  const MANUAL_ID := 99
  /** running_program_id of a run-once program. */
  const RUN_ONCE_ID := 254

  const WAITING_STATES: seq<string> := ["waiting"]
  const ACTIVE_STATES: seq<string> := ["program", "once_program", "manual", "on"]
  const STOPPABLE_STATES: seq<string> := ACTIVE_STATES + WAITING_STATES

  // Roles. Each of the first three needs both a type tag and an id prefix.

  predicate IsStation(e: HassEntity) {
    e.attributes.opensprinklerType == Some("station") && StartsWith(e.entityId, "sensor.")
  }

  predicate IsProgram(e: HassEntity) {
    e.attributes.opensprinklerType == Some("program") && StartsWith(e.entityId, "binary_sensor.")
  }

  predicate IsController(e: HassEntity) {
    e.attributes.opensprinklerType == Some("controller") && StartsWith(e.entityId, "switch.")
  }

  /** The type tag is undefined. */
  predicate IsSystem(e: HassEntity) {
    e.attributes.opensprinklerType.None?
  }

  predicate IsRunOnce(e: HassEntity) {
    e.entityId == "run_once"
  }

  /** The type tag is falsy (undefined or the empty string). */
  predicate IsState(e: HassEntity) {
    !StrTruthy(e.attributes.opensprinklerType)
  }

  predicate IsStationProgEnable(e: HassEntity) {
    StartsWith(e.entityId, "switch.")
  }

  predicate IsPlayPausable(e: HassEntity) {
    IsStation(e) || IsProgram(e) || IsRunOnce(e)
  }

  predicate IsRainDelayActiveSensor(e: HassEntity) {
    StartsWith(e.entityId, "binary_sensor.") && EndsWith(e.entityId, "rain_delay_active")
  }

  predicate IsRainDelayStopTime(e: HassEntity) {
    StartsWith(e.entityId, "sensor.") && EndsWith(e.entityId, "rain_delay_stop_time")
  }

  /** No entity has two of the roles station, program and controller. */
  lemma RolesExclusive(e: HassEntity)
    ensures !(IsStation(e) && IsProgram(e))
    ensures !(IsStation(e) && IsController(e))
    ensures !(IsProgram(e) && IsController(e))
  {
  }

  /** The id prefixes alone already separate the three roles. */
  lemma {:induction false} RolePrefixesExclusive(id: string)
    ensures !(StartsWith(id, "sensor.") && StartsWith(id, "binary_sensor."))
    ensures !(StartsWith(id, "sensor.") && StartsWith(id, "switch."))
    ensures !(StartsWith(id, "binary_sensor.") && StartsWith(id, "switch."))
  {
    if StartsWith(id, "sensor.") {
      assert id[0] == "sensor."[0] == 's' && id[1] == "sensor."[1] == 'e';
    }
    if StartsWith(id, "binary_sensor.") {
      assert id[0] == "binary_sensor."[0] == 'b';
    }
    if StartsWith(id, "switch.") {
      assert id[0] == "switch."[0] == 's' && id[1] == "switch."[1] == 'w';
    }
  }

  /** isSystem implies isState; the converse fails for an empty type tag. */
  lemma SystemIsState(e: HassEntity)
    ensures IsSystem(e) ==> IsState(e)
    ensures e.attributes.opensprinklerType == Some("") ==> IsState(e) && !IsSystem(e)
  {
  }

  /** The roles no card uses still fit the others: a play/pause target is never a
      controller, a controller is always an enable switch, no enable switch is a station
      or a program, and the rain-delay stop-time sensor is never the rain-delay-active
      sensor. */
  lemma SecondaryRoles(e: HassEntity)
    ensures IsPlayPausable(e) ==> !IsController(e)
    ensures IsController(e) ==> IsStationProgEnable(e)
    ensures IsStationProgEnable(e) ==> !IsStation(e) && !IsProgram(e)
    ensures IsRainDelayStopTime(e) ==> !IsRainDelayActiveSensor(e)
  {
    RolesExclusive(e);
    RolePrefixesExclusive(e.entityId);
    if IsRunOnce(e) {
      assert e.entityId[0] == 'r';
    }
  }

  // Lifecycle states.

  predicate StateWaiting(e: HassEntity) {
    e.state in WAITING_STATES
  }

  predicate StateActivated(e: HassEntity) {
    e.state in ACTIVE_STATES
  }

  /** Waiting and active are disjoint: a waiting station is not running. */
  lemma LifecycleDisjoint(e: HassEntity)
    ensures !(StateWaiting(e) && StateActivated(e))
    ensures StateWaiting(e) <==> e.state == "waiting"
    ensures StateActivated(e) <==> e.state in {"program", "once_program", "manual", "on"}
  {
  }

  function StateStoppable(e: HassEntity): (r: bool)
    ensures r <==> StateActivated(e) || StateWaiting(e)
    ensures r <==> e.state in {"program", "once_program", "manual", "on", "waiting"}
  {
    e.state in STOPPABLE_STATES
  }

  // Group queries. A group is the list `entities(predicate)` filters.

  /** `entities(p)` over a group: the members satisfying `p`, in order. */
  function Filter(group: seq<HassEntity>, p: HassEntity -> bool): (r: seq<HassEntity>)
    ensures forall e :: e in r <==> e in group && p(e)
    ensures |r| <= |group|
  {
    if group == [] then []
    else (if p(group[0]) then [group[0]] else []) + Filter(group[1..], p)
  }

  /** `Array.prototype.some`. */
  function Any(list: seq<HassEntity>, q: HassEntity -> bool): (r: bool)
    ensures r <==> exists e :: e in list && q(e)
  {
    if list == [] then false
    else q(list[0]) || Any(list[1..], q)
  }

  function HasRunOnce(group: seq<HassEntity>): (r: bool)
    ensures r <==> exists e :: e in group && IsStation(e) && e.attributes.runningProgramId == Some(RUN_ONCE_ID)
  {
    Any(Filter(group, IsStation), (e: HassEntity) => e.attributes.runningProgramId == Some(RUN_ONCE_ID))
  }

  function HasManual(group: seq<HassEntity>): (r: bool)
    ensures r <==> exists e :: e in group && IsStation(e) && e.attributes.runningProgramId == Some(MANUAL_ID)
  {
    Any(Filter(group, IsStation), (e: HassEntity) => e.attributes.runningProgramId == Some(MANUAL_ID))
  }

  function HasRainDelayActive(group: seq<HassEntity>): (r: bool)
    ensures r <==> exists e :: e in group && IsRainDelayActiveSensor(e) && e.state == "on"
  {
    Any(Filter(group, IsRainDelayActiveSensor), (e: HassEntity) => e.state == "on")
  }

  /** A single station running the manual program makes hasManual true and, unless some
      other station runs the run-once program, hasRunOnce false. */
  lemma ManualStationGroup(a: HassEntity, others: seq<HassEntity>)
    requires IsStation(a) && a.attributes.runningProgramId == Some(MANUAL_ID)
    requires forall e :: e in others ==> e.attributes.runningProgramId != Some(RUN_ONCE_ID)
    ensures HasManual([a] + others)
    ensures !HasRunOnce([a] + others)
  {
    assert a in [a] + others;
  }

  // Display name.

  const STATION_SUFFIX := " Station Status"
  const PROGRAM_SUFFIX := " Program Running"
  const OS_PREFIX := "OpenSprinkler "

  /** `osName`: the explicit name when truthy, otherwise the friendly name with a
      trailing " Station Status", then a trailing " Program Running", then a leading
      "OpenSprinkler " removed. The friendly name must exist when the name is falsy. */
  function OsName(e: HassEntity): (r: string)
    requires StrTruthy(e.attributes.name) || e.attributes.friendlyName.Some?
    ensures StrTruthy(e.attributes.name) ==> r == e.attributes.name.value
  {
    if StrTruthy(e.attributes.name) then e.attributes.name.value
    else StripPrefix(StripSuffix(StripSuffix(e.attributes.friendlyName.value, STATION_SUFFIX), PROGRAM_SUFFIX), OS_PREFIX)
  }

  /** Without a name, the friendly name is the result framed by the fixed prefix and the
      two fixed suffixes, each present exactly when the source's anchored rewrite finds it:
      " Station Status" at the end of the friendly name, then " Program Running" at the end
      of what remains, then "OpenSprinkler " at the start of what remains after that. */
  lemma OsNameShape(e: HassEntity)
    requires !StrTruthy(e.attributes.name) && e.attributes.friendlyName.Some?
    ensures exists p, q1, q2 ::
      && p in {"", OS_PREFIX} && q1 in {"", PROGRAM_SUFFIX} && q2 in {"", STATION_SUFFIX}
      && e.attributes.friendlyName.value == p + OsName(e) + q1 + q2
      && (q2 == STATION_SUFFIX <==> EndsWith(e.attributes.friendlyName.value, STATION_SUFFIX))
      && (q1 == PROGRAM_SUFFIX <==> EndsWith(p + OsName(e) + q1, PROGRAM_SUFFIX))
      && (p == OS_PREFIX <==> StartsWith(p + OsName(e), OS_PREFIX))
  {
    var f := e.attributes.friendlyName.value;
    var a := StripSuffix(f, STATION_SUFFIX);
    var b := StripSuffix(a, PROGRAM_SUFFIX);
    var c := StripPrefix(b, OS_PREFIX);
    var q2 := if EndsWith(f, STATION_SUFFIX) then STATION_SUFFIX else "";
    var q1 := if EndsWith(a, PROGRAM_SUFFIX) then PROGRAM_SUFFIX else "";
    var p := if StartsWith(b, OS_PREFIX) then OS_PREFIX else "";
    assert a + q2 == f;
    assert b + q1 == a;
    assert p + c == b;
    assert c == OsName(e);
    assert p in {"", OS_PREFIX} && q1 in {"", PROGRAM_SUFFIX} && q2 in {"", STATION_SUFFIX};
    assert f == p + OsName(e) + q1 + q2;
    assert q2 == STATION_SUFFIX <==> EndsWith(f, STATION_SUFFIX);
    assert q1 == PROGRAM_SUFFIX <==> EndsWith(p + OsName(e) + q1, PROGRAM_SUFFIX);
    assert p == OS_PREFIX <==> StartsWith(p + OsName(e), OS_PREFIX);
  }

  /** The worked example: "OpenSprinkler Front Lawn Station Status" names "Front Lawn". */
  lemma OsNameExample(e: HassEntity)
    requires e.attributes.name.None?
    requires e.attributes.friendlyName == Some("OpenSprinkler Front Lawn Station Status")
    ensures OsName(e) == "Front Lawn"
  {
    var f := "OpenSprinkler Front Lawn Station Status";
    assert EndsWith(f, STATION_SUFFIX);
    var a := "OpenSprinkler Front Lawn";
    assert StripSuffix(f, STATION_SUFFIX) == a;
    assert a[|a| - |PROGRAM_SUFFIX|..] != PROGRAM_SUFFIX;
    assert StripSuffix(a, PROGRAM_SUFFIX) == a;
    assert StartsWith(a, OS_PREFIX);
    assert StripPrefix(a, OS_PREFIX) == "Front Lawn";
  }

  // The enable join.

  /** Registry pair `i` is an enable switch for `e`: its entity has a state object with
      the same index and type tag, and its key starts with "switch.". */
  predicate SwitchFor(reg: Registry, states: States, e: HassEntity, i: int)
    requires 0 <= i < |reg|
  {
    && reg[i].entry.entityId in states
    && states[reg[i].entry.entityId].attributes.index == e.attributes.index
    && states[reg[i].entry.entityId].attributes.opensprinklerType == e.attributes.opensprinklerType
    && StartsWith(reg[i].key, "switch.")
  }

  /** Registry pair `i` is the first enable switch for `e` in iteration order. */
  predicate FirstSwitchFor(reg: Registry, states: States, e: HassEntity, i: int)
    requires 0 <= i < |reg|
  {
    SwitchFor(reg, states, e, i) && forall j :: 0 <= j < i ==> !SwitchFor(reg, states, e, j)
  }

  /** Every pair the `isEnabled` loop reaches, i.e. every pair up to and including the
      first enable switch, has a state object: the loop reads
      `hass.states[value.entity_id]` unguarded. Pairs after that switch are never read. */
  predicate ScanCovered(reg: Registry, states: States, e: HassEntity) {
    forall i :: 0 <= i < |reg| && (forall j :: 0 <= j < i ==> !SwitchFor(reg, states, e, j)) ==>
      reg[i].entry.entityId in states
  }

  /** `isEnabled`: run_once is always enabled; otherwise the answer is whether the first
      enable switch in iteration order is "on", and false when there is no such switch. */
  method IsEnabled(reg: Registry, states: States, e: HassEntity) returns (r: bool)
    requires !IsRunOnce(e) ==> ScanCovered(reg, states, e)
    ensures IsRunOnce(e) ==> r
    ensures !IsRunOnce(e) ==>
      (r <==> exists i :: 0 <= i < |reg| && FirstSwitchFor(reg, states, e, i)
                          && states[reg[i].entry.entityId].state == "on")
    ensures !IsRunOnce(e) && (forall i :: 0 <= i < |reg| ==> !SwitchFor(reg, states, e, i)) ==> !r
  {
    if IsRunOnce(e) {
      return true;
    }
    var i := 0;
    while i < |reg|
      invariant 0 <= i <= |reg|
      invariant forall j :: 0 <= j < i ==> !SwitchFor(reg, states, e, j)
    {
      var state := states[reg[i].entry.entityId];
      if state.attributes.index == e.attributes.index {
        if state.attributes.opensprinklerType == e.attributes.opensprinklerType {
          if StartsWith(reg[i].key, "switch.") {
            assert FirstSwitchFor(reg, states, e, i);
            forall k | 0 <= k < |reg| && FirstSwitchFor(reg, states, e, k)
              ensures k == i
            {
            }
            return state.state == "on";
          }
        }
      }
      i := i + 1;
    }
    return false;
  }

  // System status entities.

  /** The matcher `getSystemStatusEntities` passes: the state has no type tag. */
  function SystemMatcher(): Matcher {
    (entry: RegistryEntry, s: Option<HassEntity>) => s.Some? && IsSystem(s.value)
  }

  /** The dictionary built by `ret[x.entity.entity_id] = x` over `items`; a later item
      with the same entity_id overwrites an earlier one. */
  function StatusMap(items: seq<EntityAndState>): map<string, EntityAndState>
    decreases |items|
  {
    if items == [] then map[]
    else
      var last := items[|items| - 1];
      StatusMap(items[..|items| - 1])[last.entity.entityId := last]
  }

  /** The keys are the items' entity ids, and each value is an item with that id. */
  lemma {:induction false} StatusMapSpec(items: seq<EntityAndState>)
    ensures StatusMap(items).Keys == set x | x in items :: x.entity.entityId
    ensures forall k :: k in StatusMap(items) ==>
      StatusMap(items)[k] in items && StatusMap(items)[k].entity.entityId == k
    decreases |items|
  {
    if items != [] {
      var init := items[..|items| - 1];
      var last := items[|items| - 1];
      StatusMapSpec(init);
      assert items == init + [last];
      assert (set x | x in items :: x.entity.entityId)
          == (set x | x in init :: x.entity.entityId) + {last.entity.entityId};
    }
  }

  /** `getSystemStatusEntities`: the device's system entities keyed by entity_id. */
  method GetSystemStatusEntities(reg: Registry, states: States, device: Option<string>) returns (ret: map<string, EntityAndState>)
    requires DeviceKeysInStates(reg, states, device)
    ensures ret == StatusMap(Selected(reg, states, device, Some(SystemMatcher())))
  {
    var entities := GetEntities(reg, states, device, Some(SystemMatcher()));
    ret := map[];
    var i := 0;
    while i < |entities|
      invariant 0 <= i <= |entities|
      invariant ret == StatusMap(entities[..i])
    {
      assert entities[..i + 1][..i] == entities[..i];
      ret := ret[entities[i].entity.entityId := entities[i]];
      i := i + 1;
    }
    assert entities[..i] == entities;
  }

  /** The keys of the system status map are exactly the entity ids of the device's
      registry entries whose state has no type tag, and each value pairs such an entry
      with its own state object. */
  lemma SystemStatusSpec(reg: Registry, states: States, device: Option<string>)
    requires DeviceKeysInStates(reg, states, device)
    ensures StatusMap(Selected(reg, states, device, Some(SystemMatcher()))).Keys
         == set i | 0 <= i < |reg| && Kept(states, device, None, reg[i]) && IsSystem(states[reg[i].key])
                  :: reg[i].entry.entityId
    ensures forall k :: k in StatusMap(Selected(reg, states, device, Some(SystemMatcher()))) ==>
      exists i :: 0 <= i < |reg| && Kept(states, device, None, reg[i]) && IsSystem(states[reg[i].key])
        && reg[i].entry.entityId == k
        && StatusMap(Selected(reg, states, device, Some(SystemMatcher())))[k]
           == EntityAndState(reg[i].entry, Some(states[reg[i].key]))
  {
    var m := Some(SystemMatcher());
    var sel := Selected(reg, states, device, m);
    StatusMapSpec(sel);
    forall x
      ensures x in sel <==> exists i :: 0 <= i < |reg| && Kept(states, device, m, reg[i]) && x == Paired(states, reg[i])
    {
      SelectedMembers(reg, states, device, m, x);
    }
    forall i | 0 <= i < |reg|
      ensures Kept(states, device, m, reg[i]) <==> Kept(states, device, None, reg[i]) && IsSystem(states[reg[i].key])
      ensures Kept(states, device, None, reg[i]) ==>
        Paired(states, reg[i]) == EntityAndState(reg[i].entry, Some(states[reg[i].key]))
    {
    }
    var lhs := StatusMap(sel).Keys;
    var rhs := set i | 0 <= i < |reg| && Kept(states, device, None, reg[i]) && IsSystem(states[reg[i].key]) :: reg[i].entry.entityId;
    forall k | k in lhs ensures k in rhs {
      var x :| x in sel && x.entity.entityId == k;
      var i :| 0 <= i < |reg| && Kept(states, device, m, reg[i]) && x == Paired(states, reg[i]);
      assert reg[i].entry.entityId == k;
    }
    forall k | k in rhs ensures k in lhs {
      var i :| 0 <= i < |reg| && Kept(states, device, None, reg[i]) && IsSystem(states[reg[i].key]) && reg[i].entry.entityId == k;
      assert Paired(states, reg[i]) in sel;
    }
  }
}
