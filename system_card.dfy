/** The decision logic of the system card (src/systemcard/card.ts): configuration, the
    filtered map of system entities it shows, the name and value of each status item,
    and the service calls behind the rain-delay and pause buttons. */
module SystemCard {
  import opened Base
  import opened HaHelpers
  import opened OsHelpers
  import opened CardCommon
  import DelayDialog

  /** `OSPiSystemCardConfig`; an omitted show toggle reads as false. */
  datatype Config = Config(
    name: string,
    showName: bool,
    showSensor1: bool,
    sensor1Name: Option<string>,
    showSensor2: bool,
    sensor2Name: Option<string>,
    image: Option<string>,
    imageHeight: Option<int>,
    imagePosition: Option<string>,
    device: Option<string>)

  const INVALID_CONFIGURATION := "Invalid configuration"

  const SENSOR_1 := "opensprinkler_sensor_1"
  const SENSOR_2 := "opensprinkler_sensor_2"
  const RAIN_DELAY_ACTIVE := "binary_sensor.opensprinkler_rain_delay_active"
  const RAIN_DELAY_STOP_TIME := "sensor.opensprinkler_rain_delay_stop_time"
  const PAUSED := "binary_sensor.opensprinkler_paused"
  const PAUSE_END_TIME := "sensor.opensprinkler_pause_end_time"
  const ACTIVE_SUFFIX := " Active"

  type StatusState = map<string, EntityAndState>

  // The shown state.

  /** An id survives `render`'s two `continue` tests. */
  predicate Shown(cfg: Config, id: string) {
    && !(Contains(id, SENSOR_1) && !cfg.showSensor1)
    && !(Contains(id, SENSOR_2) && !cfg.showSensor2)
  }

  /** The map `render` builds from the system status entities. */
  function ShownState(sys: StatusState, cfg: Config): (r: StatusState)
    ensures r.Keys <= sys.Keys
    ensures forall k :: k in sys ==> (k in r <==> Shown(cfg, k))
    ensures forall k :: k in r ==> r[k] == sys[k]
  {
    map k | k in sys && Shown(cfg, k) :: sys[k]
  }

  /** Every value of the map carries a state object. */
  predicate AllStated(m: StatusState) {
    forall k :: k in m ==> m[k].state.Some?
  }

  /** The system status map carries a state object for each of its entities, and so
      does any part of it `render` keeps. */
  lemma SystemStatusAllStated(reg: Registry, states: States, device: Option<string>, cfg: Config)
    requires DeviceKeysInStates(reg, states, device)
    ensures AllStated(StatusMap(Selected(reg, states, device, Some(SystemMatcher()))))
    ensures AllStated(ShownState(StatusMap(Selected(reg, states, device, Some(SystemMatcher()))), cfg))
  {
    SystemStatusSpec(reg, states, device);
  }

  // Status items.

  datatype DelayKind = Rain | Pause

  /** What `getStateStatus` renders: a name, a value, and the button it sits in. */
  datatype StatusItem = StatusItem(name: string, value: string, click: Option<DelayKind>)

  /** A state value `getStateStatus` shows: neither empty nor "unknown". */
  predicate Displayable(value: string) {
    value != "" && value != "unknown"
  }

  /** The name: the friendly name without its first "OpenSprinkler " and then its first
      " Active"; a truthy configured sensor name replaces it for sensor_1 and sensor_2. */
  function StatusName(cfg: Config, id: string, friendly: string): string {
    var name := RemoveFirst(RemoveFirst(friendly, OS_PREFIX), ACTIVE_SUFFIX);
    var name1 := if Contains(id, SENSOR_1) then StrOr(cfg.sensor1Name, name) else name;
    if Contains(id, SENSOR_2) then StrOr(cfg.sensor2Name, name1) else name1
  }

  /** "Ends <relative time>"; `humanize` stands for the time library's wording of the
      distance from now to the end time held in the given state value. */
  function EndsText(endState: string, humanize: string -> string): (r: string)
    ensures StartsWith(r, "Ends ")
  {
    "Ends " + humanize(endState)
  }

  /** The value: the state with its unit appended, except for an active rain delay or
      pause, which show their end time or fall back to "off". */
  function StatusValue(m: StatusState, id: string, s: HassEntity, humanize: string -> string): string
    requires AllStated(m)
  {
    var value := s.state + (if StrTruthy(s.attributes.unitOfMeasurement) then s.attributes.unitOfMeasurement.value else "");
    if id == RAIN_DELAY_ACTIVE && s.state == "on" then
      if RAIN_DELAY_STOP_TIME !in m then "off"
      else EndsText(m[RAIN_DELAY_STOP_TIME].state.value.state, humanize)
    else if id == PAUSED && s.state == "on" then
      if PAUSE_END_TIME in m && m[PAUSE_END_TIME].state.value.state != "unknown" then
        EndsText(m[PAUSE_END_TIME].state.value.state, humanize)
      else "off"
    else value
  }

  /** The rain-delay and pause items are buttons; the others are not. */
  function ClickFor(id: string): Option<DelayKind> {
    if id == RAIN_DELAY_ACTIVE then Some(Rain)
    else if id == PAUSED then Some(Pause)
    else None
  }

  /** The friendly name is read only for an item that is shown. */
  predicate NameReadable(m: StatusState, id: string)
    requires AllStated(m)
  {
    id in m && Displayable(m[id].state.value.state) ==> m[id].state.value.attributes.friendlyName.Some?
  }

  /** `getStateStatus`: nothing for an id outside the map or a value that is empty or
      "unknown"; otherwise an item whose value is never empty. */
  function GetStateStatus(m: StatusState, cfg: Config, id: string, humanize: string -> string): (r: Option<StatusItem>)
    requires AllStated(m) && NameReadable(m, id)
    ensures r.None? <==> id !in m || !Displayable(m[id].state.value.state)
    ensures r.Some? ==> r.value.value != ""
    ensures r.Some? ==> r.value.click == ClickFor(id)
  {
    if id !in m then None
    else
      var s := m[id].state.value;
      if !Displayable(s.state) then None
      else Some(StatusItem(StatusName(cfg, id, s.attributes.friendlyName.value), StatusValue(m, id, s, humanize), ClickFor(id)))
  }

  /** A shown value is the state followed by its unit when it has a truthy one, and the
      bare state otherwise, unless it is an active rain delay or pause. */
  lemma StatusUnitSuffix(m: StatusState, cfg: Config, id: string, humanize: string -> string)
    requires AllStated(m) && NameReadable(m, id)
    requires id in m && Displayable(m[id].state.value.state)
    requires !(id in {RAIN_DELAY_ACTIVE, PAUSED} && m[id].state.value.state == "on")
    ensures GetStateStatus(m, cfg, id, humanize).value.value
         == m[id].state.value.state + StrOr(m[id].state.value.attributes.unitOfMeasurement, "")
  {
  }

  /** An active rain delay without a stop-time entity shows "off". */
  lemma RainDelayFallback(m: StatusState, cfg: Config, humanize: string -> string)
    requires AllStated(m) && NameReadable(m, RAIN_DELAY_ACTIVE)
    requires RAIN_DELAY_ACTIVE in m && m[RAIN_DELAY_ACTIVE].state.value.state == "on"
    ensures RAIN_DELAY_STOP_TIME !in m ==> GetStateStatus(m, cfg, RAIN_DELAY_ACTIVE, humanize).value.value == "off"
    ensures RAIN_DELAY_STOP_TIME in m ==>
      GetStateStatus(m, cfg, RAIN_DELAY_ACTIVE, humanize).value.value
      == EndsText(m[RAIN_DELAY_STOP_TIME].state.value.state, humanize)
  {
  }

  /** An active pause whose end-time entity is absent or "unknown" shows "off". */
  lemma PauseFallback(m: StatusState, cfg: Config, humanize: string -> string)
    requires AllStated(m) && NameReadable(m, PAUSED)
    requires PAUSED in m && m[PAUSED].state.value.state == "on"
    ensures PAUSE_END_TIME !in m || m[PAUSE_END_TIME].state.value.state == "unknown" ==>
      GetStateStatus(m, cfg, PAUSED, humanize).value.value == "off"
    ensures PAUSE_END_TIME in m && m[PAUSE_END_TIME].state.value.state != "unknown" ==>
      GetStateStatus(m, cfg, PAUSED, humanize).value.value
      == EndsText(m[PAUSE_END_TIME].state.value.state, humanize)
  {
  }

  /** The name rule: the friendly name with the first "OpenSprinkler " and then the
      first " Active" removed, unless the id names a sensor whose configured name is
      truthy; that name then replaces it, the sensor_2 name winning for an id with both. */
  lemma StatusNameRule(cfg: Config, id: string, friendly: string)
    ensures (!(Contains(id, SENSOR_1) && StrTruthy(cfg.sensor1Name))
             && !(Contains(id, SENSOR_2) && StrTruthy(cfg.sensor2Name))) ==>
      StatusName(cfg, id, friendly) == RemoveFirst(RemoveFirst(friendly, OS_PREFIX), ACTIVE_SUFFIX)
    ensures (Contains(id, SENSOR_1) && StrTruthy(cfg.sensor1Name)
             && !(Contains(id, SENSOR_2) && StrTruthy(cfg.sensor2Name))) ==>
      StatusName(cfg, id, friendly) == cfg.sensor1Name.value
    ensures Contains(id, SENSOR_2) && StrTruthy(cfg.sensor2Name) ==>
      StatusName(cfg, id, friendly) == cfg.sensor2Name.value
    ensures (!Contains(friendly, OS_PREFIX) && !Contains(friendly, ACTIVE_SUFFIX)
             && !Contains(id, SENSOR_1) && !Contains(id, SENSOR_2)) ==>
      StatusName(cfg, id, friendly) == friendly
  {
    RemoveFirstSpec(friendly, OS_PREFIX);
    RemoveFirstSpec(RemoveFirst(friendly, OS_PREFIX), ACTIVE_SUFFIX);
  }

  /** A sensor hidden by its toggle never yields a status item. */
  lemma HiddenSensorHasNoItem(sys: StatusState, cfg: Config, id: string, humanize: string -> string)
    requires AllStated(sys)
    requires (Contains(id, SENSOR_1) && !cfg.showSensor1) || (Contains(id, SENSOR_2) && !cfg.showSensor2)
    ensures AllStated(ShownState(sys, cfg)) && NameReadable(ShownState(sys, cfg), id)
    ensures GetStateStatus(ShownState(sys, cfg), cfg, id, humanize).None?
  {
  }

  // Commands.

  /** The key `delayClick` reads the end-time entity under. */
  function DelayEndKey(k: DelayKind): string {
    if k == Rain then RAIN_DELAY_STOP_TIME else PAUSE_END_TIME
  }

  /** The options `delayClick` shows the dialog with. */
  function DelayOptions(k: DelayKind): (o: DelayDialog.Options)
    ensures o.delay.None?
    ensures k == Rain ==> o.title == "Rain Delay" && o.delayUnit == "hours"
    ensures k == Pause ==> o.title == "Pause Stations" && o.delayUnit == "seconds"
  {
    if k == Rain then DelayDialog.Options("Rain Delay", None, "hours")
    else DelayDialog.Options("Pause Stations", None, "seconds")
  }

  /** The call the `delayAction` callback issues. */
  function DelayCall(k: DelayKind, entityId: string, delay: int): (c: ServiceCall)
    ensures c.domain == DOMAIN && c.data.entityId == Some(entityId) && c.data.runSeconds.None?
    ensures k == Rain ==> c.service == "set_rain_delay" && c.data.rainDelay == Some(delay) && c.data.pauseDuration.None?
    ensures k == Pause ==> c.service == "pause_stations" && c.data.pauseDuration == Some(delay) && c.data.rainDelay.None?
  {
    if k == Rain then ServiceCall(DOMAIN, "set_rain_delay", ServiceData(Some(entityId), None, Some(delay), None))
    else ServiceCall(DOMAIN, "pause_stations", ServiceData(Some(entityId), None, None, Some(delay)))
  }

  /** Kind, entity and delay can be read back from the call. */
  function DecodeDelayCall(c: ServiceCall): Option<(DelayKind, string, int)> {
    if c.domain != DOMAIN || c.data.entityId.None? || c.data.runSeconds.Some? then None
    else if c.service == "set_rain_delay" && c.data.rainDelay.Some? && c.data.pauseDuration.None? then
      Some((Rain, c.data.entityId.value, c.data.rainDelay.value))
    else if c.service == "pause_stations" && c.data.pauseDuration.Some? && c.data.rainDelay.None? then
      Some((Pause, c.data.entityId.value, c.data.pauseDuration.value))
    else None
  }

  lemma DelayCallRoundTrip(k: DelayKind, entityId: string, delay: int)
    ensures DecodeDelayCall(DelayCall(k, entityId, delay)) == Some((k, entityId, delay))
  {
  }

  /** The calls a system card may issue. */
  predicate SystemCall(c: ServiceCall) {
    DecodeDelayCall(c).Some?
  }

  /** The callback of the dialog on show: which button opened it and the end-time entity. */
  datatype DelayTarget = DelayTarget(kind: DelayKind, entityId: string)

  class Card {
    var config: Option<Config>
    var state: StatusState
    /** The service calls issued so far, oldest first. */
    var issued: seq<ServiceCall>
    /** What the dialog's `delayAction` closure captured. */
    var pending: Option<DelayTarget>
    var delayDialog: DelayDialog.Dialog

    ghost predicate Valid()
      reads this, delayDialog
    {
      && AllStated(state)
      && delayDialog.Valid()
      && (pending.Some? <==> delayDialog.config.Some?)
      && forall c :: c in issued ==> SystemCall(c)
    }

    /** A card not yet configured, its delay dialog attached (`connectedCallback`). */
    constructor ()
      ensures Valid() && fresh(delayDialog)
      ensures config.None? && state == map[] && issued == [] && pending.None?
      ensures !delayDialog.open && delayDialog.config.None? && delayDialog.calls == []
    {
      config := None;
      state := map[];
      issued := [];
      pending := None;
      delayDialog := new DelayDialog.Dialog();
    }

    /** `setConfig`: a missing configuration is refused and nothing changes; otherwise a
        copy is stored. */
    method SetConfig(c: Option<Config>) returns (err: Option<string>)
      requires Valid()
      modifies this`config
      ensures Valid()
      ensures c.None? ==> err == Some(INVALID_CONFIGURATION) && config == old(config)
      ensures c.Some? ==> err.None? && config == c
    {
      if c.None? {
        return Some(INVALID_CONFIGURATION);
      }
      config := c;
      return None;
    }

    /** `render`'s state pass: without a configuration nothing happens; with one, the
        device's system entities minus the sensors whose toggles are off. */
    method Render(reg: Registry, states: States)
      requires Valid() && (config.Some? ==> DeviceKeysInStates(reg, states, config.value.device))
      modifies this`state
      ensures Valid()
      ensures config.None? ==> state == old(state)
      ensures config.Some? ==>
        state == ShownState(StatusMap(Selected(reg, states, config.value.device, Some(SystemMatcher()))), config.value)
    {
      if config.None? {
        return;
      }
      var cfg := config.value;
      var sys := GetSystemStatusEntities(reg, states, cfg.device);
      SystemStatusAllStated(reg, states, cfg.device, cfg);
      state := map[];
      var todo := sys.Keys;
      while todo != {}
        invariant todo <= sys.Keys
        invariant state == map k | k in sys && k !in todo && Shown(cfg, k) :: sys[k]
        decreases todo
      {
        var entity :| entity in todo;
        todo := todo - {entity};
        if Contains(entity, SENSOR_1) && !cfg.showSensor1 {
          continue;
        }
        if Contains(entity, SENSOR_2) && !cfg.showSensor2 {
          continue;
        }
        state := state[entity := sys[entity]];
      }
      assert state == ShownState(sys, cfg);
    }

    /** `delayClick`: open the dialog for rain delay or pause with delay 0, its callback
        bound to the end-time entity's id (which the source reads unguarded). */
    method DelayClick(k: DelayKind, reg: Registry)
      requires Valid() && RegistryLookup(reg, DelayEndKey(k)).Some?
      modifies this, delayDialog
      ensures Valid()
      ensures delayDialog == old(delayDialog)
      ensures config == old(config) && state == old(state) && issued == old(issued)
      ensures pending == Some(DelayTarget(k, RegistryLookup(reg, DelayEndKey(k)).value.entityId))
      ensures delayDialog.open && delayDialog.delay == 0
      ensures delayDialog.config == Some(DelayOptions(k)) && delayDialog.calls == old(delayDialog.calls)
    {
      var entity := RegistryLookup(reg, DelayEndKey(k)).value.entityId;
      pending := Some(DelayTarget(k, entity));
      delayDialog.Show(DelayOptions(k));
    }

    /** The dialog's Set button followed by the `delayAction` callback: the call for the
        captured kind and entity, with the delay as entered, is issued. */
    method DialogSet()
      requires Valid() && pending.Some?
      modifies this, delayDialog
      ensures Valid()
      ensures delayDialog == old(delayDialog)
      ensures config == old(config) && state == old(state) && pending == old(pending)
      ensures issued == old(issued) + [DelayCall(pending.value.kind, pending.value.entityId, old(delayDialog.delay))]
      ensures !delayDialog.open && delayDialog.calls == old(delayDialog.calls) + [old(delayDialog.delay)]
      ensures delayDialog.delay == old(delayDialog.delay) && delayDialog.config == old(delayDialog.config)
      ensures delayDialog.error.None?
    {
      delayDialog.DelayAction();
      var delay := delayDialog.calls[|delayDialog.calls| - 1];
      DelayCallRoundTrip(pending.value.kind, pending.value.entityId, delay);
      issued := issued + [DelayCall(pending.value.kind, pending.value.entityId, delay)];
    }
  }
}
