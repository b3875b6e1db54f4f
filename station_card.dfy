/** The decision logic of the station card (src/stationcard/card.ts): configuration,
    status text, icon and offered action, the "last run" scan over a station's on/off
    history, and the service calls behind the Run and Stop buttons. */
module StationCard {
  import opened Base
  import opened HaHelpers
  import opened OsHelpers
  import opened CardCommon
  import RuntimeDialog

  /** `OSPiStationCardConfig`; `icons` is None when the configuration omits it. */
  datatype Config = Config(
    name: string,
    showName: bool,
    image: Option<string>,
    imageHeight: Option<int>,
    imagePosition: Option<string>,
    device: Option<string>,
    station: Option<string>,
    icons: Option<IconConfig>)

  const INVALID_CONFIGURATION := "Invalid configuration"

  /** `{ icons: defaultIcons, ...config }`. */
  function WithDefaultIcons(c: Config): (r: Config)
    ensures r.icons.Some?
    ensures c.icons.Some? ==> r == c
    ensures c.icons.None? ==> r == c.(icons := Some(DEFAULT_ICONS))
  {
    c.(icons := Some(c.icons.GetOr(DEFAULT_ICONS)))
  }

  /** Completing a completed configuration changes nothing. */
  lemma WithDefaultIconsIdempotent(c: Config)
    ensures WithDefaultIcons(WithDefaultIcons(c)) == WithDefaultIcons(c)
  {
  }

  // Status line.

  datatype Action = Run | Stop

  /** The status text of `cardStatus`. */
  function StatusText(s: HassEntity, enabled: bool): (r: string)
    ensures r == "Running" <==> StateActivated(s)
    ensures r == "Idle" <==> !StateActivated(s) && enabled
    ensures r == "Disabled" <==> !StateActivated(s) && !enabled
  {
    if StateActivated(s) then "Running"
    else if enabled then "Idle"
    else "Disabled"
  }

  /** The button of `cardStatus`: none when disabled, else Stop when stoppable, else Run. */
  function ActionFor(s: HassEntity, enabled: bool): (r: Option<Action>)
    ensures r.None? <==> !enabled
    ensures r == Some(Stop) <==> enabled && StateStoppable(s)
    ensures r == Some(Run) <==> enabled && !StateStoppable(s)
  {
    if enabled then
      if StateStoppable(s) then Some(Stop) else Some(Run)
    else None
  }

  /** `getStateIcon`. */
  function StateIcon(icons: IconConfig, s: HassEntity, enabled: bool): (r: string)
    ensures !enabled ==> r == icons.idleDisabled
    ensures enabled && StateActivated(s) ==> r == icons.active
    ensures enabled && !StateActivated(s) ==> r == icons.idle
  {
    if !enabled then icons.idleDisabled
    else if StateActivated(s) then icons.active
    else icons.idle
  }

  /** How text, button and icon of one status line fit together: a running enabled
      station offers Stop, an idle one offers a button, a disabled one none; a waiting
      station reads "Idle" yet offers Stop; a running disabled one reads "Running" under
      the disabled icon and offers nothing. */
  lemma StatusLineAgrees(icons: IconConfig, s: HassEntity, enabled: bool)
    ensures StatusText(s, enabled) == "Running" && enabled ==>
      ActionFor(s, enabled) == Some(Stop) && StateIcon(icons, s, enabled) == icons.active
    ensures StatusText(s, enabled) == "Idle" ==>
      ActionFor(s, enabled).Some? && StateIcon(icons, s, enabled) == icons.idle
    ensures StatusText(s, enabled) == "Disabled" ==>
      ActionFor(s, enabled).None? && StateIcon(icons, s, enabled) == icons.idleDisabled
    ensures StateWaiting(s) && enabled ==>
      StatusText(s, enabled) == "Idle" && ActionFor(s, enabled) == Some(Stop)
    ensures StateActivated(s) && !enabled ==>
      StatusText(s, enabled) == "Running" && ActionFor(s, enabled).None? && StateIcon(icons, s, enabled) == icons.idleDisabled
  {
  }

  // Last run.

  /** One record of the history API's minimal response. */
  datatype HistoryEntry = HistoryEntry(state: string, lastChanged: string)

  /** The record the backward scan of `history` stops at: the largest index above 0
      whose state is "off". */
  function LastOffIndex(h: seq<HistoryEntry>): (r: Option<nat>)
    ensures r.Some? ==> 0 < r.value < |h| && h[r.value].state == "off"
    ensures r.Some? ==> forall j :: r.value < j < |h| ==> h[j].state != "off"
    ensures r.None? <==> forall j :: 0 < j < |h| ==> h[j].state != "off"
    decreases |h|
  {
    if |h| <= 1 then None
    else if h[|h| - 1].state == "off" then Some(|h| - 1)
    else LastOffIndex(h[..|h| - 1])
  }

  /** Of on, off, on, off the scan reports the later interval, from the third record to
      the fourth. */
  lemma LastOffExample(t0: string, t1: string, t2: string, t3: string)
    ensures LastOffIndex([HistoryEntry("on", t0), HistoryEntry("off", t1),
                          HistoryEntry("on", t2), HistoryEntry("off", t3)]) == Some(3)
  {
  }

  /** The backward indexed loop of the `history` callback, with its `break`. */
  method FindLastRun(h: seq<HistoryEntry>) returns (r: Option<nat>)
    ensures r == LastOffIndex(h)
  {
    r := None;
    var index := |h| - 1;
    while index >= 0
      invariant -1 <= index < |h|
      invariant forall j :: index < j < |h| && j > 0 ==> h[j].state != "off"
    {
      if h[index].state == "off" && index > 0 {
        r := Some(index);
        break;
      }
      index := index - 1;
    }
  }

  /** "Last run: <start> for <duration>"; `format` and `humanize` stand for the date
      formatting and duration wording of the time library. */
  function LastRunText(start: string, stop: string, format: string -> string, humanize: (string, string) -> string): (r: string)
    ensures StartsWith(r, "Last run: ")
  {
    "Last run: " + format(start) + " for " + humanize(start, stop)
  }

  /** The matcher `history` passes to `getEntities`: a binary sensor whose state is a
      station with the subject's index. */
  function HistoryMatcher(subject: HassEntity): Matcher {
    (entry: RegistryEntry, s: Option<HassEntity>) =>
      && s.Some?
      && s.value.attributes.opensprinklerType == Some("station")
      && s.value.attributes.index == subject.attributes.index
      && StartsWith(entry.entityId, "binary_sensor.")
  }

  /** The entity whose history `history` fetches: `sensors[0]`, which the source reads
      without checking that there is one. */
  method HistorySensor(reg: Registry, states: States, device: Option<string>, subject: HassEntity) returns (id: string)
    requires |Selected(reg, states, device, Some(HistoryMatcher(subject)))| > 0
    ensures exists i ::
      && 0 <= i < |reg| && Kept(states, device, Some(HistoryMatcher(subject)), reg[i])
      && id == reg[i].entry.entityId
      && forall j :: 0 <= j < i ==> !Kept(states, device, Some(HistoryMatcher(subject)), reg[j])
  {
    var sensors := GetEntities(reg, states, device, Some(HistoryMatcher(subject)));
    SelectedFirst(reg, states, device, Some(HistoryMatcher(subject)));
    id := sensors[0].entity.entityId;
  }

  // Commands.

  function StopCall(station: Option<string>): (c: ServiceCall)
    ensures c.domain == DOMAIN && c.service == "stop" && c.data.entityId == station
    ensures c.data.runSeconds.None?
    ensures StationCall(c)
  {
    ServiceCall(DOMAIN, "stop", ServiceData(station, None, None, None))
  }

  function RunCall(station: Option<string>, runtime: int): (c: ServiceCall)
    ensures c.domain == DOMAIN && c.service == "run" && c.data.entityId == station
    ensures c.data.runSeconds == Some(runtime)
    ensures StationCall(c) <==> RuntimeDialog.InRange(runtime)
  {
    ServiceCall(DOMAIN, "run", ServiceData(station, Some(runtime), None, None))
  }

  /** The calls a station card may issue: stop with only the station id, or run with the
      station id and a runtime the dialog accepted. */
  predicate StationCall(c: ServiceCall) {
    && c.domain == DOMAIN
    && ((c.service == "stop" && c.data.runSeconds.None?)
        || (c.service == "run" && c.data.runSeconds.Some? && RuntimeDialog.InRange(c.data.runSeconds.value)))
    && c.data.rainDelay.None? && c.data.pauseDuration.None?
  }

  /** Pressing Run and then accepting the dialog's default runtime issues one `run` for
      the configured station with 60 seconds. */
  method RunWithDefaultRuntime(card: Card)
    requires card.Valid() && card.config.Some?
    modifies card, card.runtimeDialog
    ensures card.Valid() && card.config == old(card.config)
    ensures card.issued == old(card.issued) + [RunCall(card.config.value.station, DEFAULT_RUNTIME)]
    ensures !card.runtimeDialog.open
  {
    card.ActionClick(Run);
    card.DialogRun();
  }

  /** The retry flow: Run pressed, a runtime below the range entered and rejected, then
      a runtime in range entered and accepted. Exactly one `run` is issued, with the
      corrected runtime. */
  method RunAfterCorrection(card: Card, bad: int, good: int)
    requires card.Valid() && card.config.Some?
    requires !RuntimeDialog.InRange(bad) && RuntimeDialog.InRange(good)
    modifies card, card.runtimeDialog
    ensures card.Valid() && card.config == old(card.config)
    ensures card.issued == old(card.issued) + [RunCall(card.config.value.station, good)]
    ensures !card.runtimeDialog.open && card.runtimeDialog.error.None?
  {
    card.ActionClick(Run);
    card.runtimeDialog.RuntimeChanged(bad);
    card.DialogRun();
    assert card.runtimeDialog.error == Some(RuntimeDialog.RANGE_ERROR);
    card.runtimeDialog.RuntimeChanged(good);
    card.DialogRun();
  }

  class Card {
    var config: Option<Config>
    var lastRun: Option<string>
    /** The service calls issued so far, oldest first. */
    var issued: seq<ServiceCall>
    var runtimeDialog: RuntimeDialog.Dialog

    ghost predicate Valid()
      reads this, runtimeDialog
    {
      && (config.Some? ==> config.value.icons.Some?)
      && runtimeDialog.Valid()
      && forall c :: c in issued ==> StationCall(c)
    }

    /** A card not yet configured, its runtime dialog attached (`connectedCallback`). */
    constructor ()
      ensures Valid() && fresh(runtimeDialog)
      ensures config.None? && lastRun.None? && issued == []
      ensures !runtimeDialog.open && runtimeDialog.config.None? && runtimeDialog.calls == []
    {
      config := None;
      lastRun := None;
      issued := [];
      runtimeDialog := new RuntimeDialog.Dialog();
    }

    /** `setConfig`: a missing configuration is refused and nothing changes; otherwise it
        is stored with the default icons filled in when it has none. */
    method SetConfig(c: Option<Config>) returns (err: Option<string>)
      requires Valid()
      modifies this`config
      ensures Valid()
      ensures c.None? ==> err == Some(INVALID_CONFIGURATION) && config == old(config)
      ensures c.Some? ==> err.None? && config == Some(WithDefaultIcons(c.value))
    {
      if c.None? {
        return Some(INVALID_CONFIGURATION);
      }
      config := Some(WithDefaultIcons(c.value));
      return None;
    }

    /** The callback of `history`: when the scan finds an off record, `lastRun` describes
        the interval from the record before it to it; otherwise `lastRun` is unchanged. */
    method ApplyHistory(h: seq<HistoryEntry>, format: string -> string, humanize: (string, string) -> string)
      requires Valid()
      modifies this`lastRun
      ensures Valid()
      ensures LastOffIndex(h).None? ==> lastRun == old(lastRun)
      ensures LastOffIndex(h).Some? ==>
        var k := LastOffIndex(h).value;
        lastRun == Some(LastRunText(h[k - 1].lastChanged, h[k].lastChanged, format, humanize))
    {
      var found := FindLastRun(h);
      if found.Some? {
        var index := found.value;
        lastRun := Some(LastRunText(h[index - 1].lastChanged, h[index].lastChanged, format, humanize));
      }
    }

    /** `actionClick`: Stop issues `stop` for the configured station at once; Run only
        opens the runtime dialog with the default runtime. */
    method ActionClick(action: Action)
      requires Valid() && config.Some?
      modifies this, runtimeDialog
      ensures Valid()
      ensures runtimeDialog == old(runtimeDialog) && config == old(config) && lastRun == old(lastRun)
      ensures action == Stop ==> issued == old(issued) + [StopCall(config.value.station)]
      ensures action == Stop ==> unchanged(runtimeDialog)
      ensures action == Run ==> issued == old(issued)
      ensures action == Run ==>
        && runtimeDialog.open && runtimeDialog.runtime == DEFAULT_RUNTIME
        && runtimeDialog.config == Some(RuntimeDialog.Options(Some(DEFAULT_RUNTIME)))
        && runtimeDialog.error == old(runtimeDialog.error)
        && runtimeDialog.calls == old(runtimeDialog.calls)
    {
      if action == Stop {
        issued := issued + [StopCall(config.value.station)];
      } else {
        runtimeDialog.Show(RuntimeDialog.Options(None));
      }
    }

    /** The dialog's Run button followed by the card's `runAction` callback: an accepted
        runtime issues `run` for the configured station with that many seconds; a
        rejected one issues nothing. */
    method DialogRun()
      requires Valid() && config.Some?
      requires RuntimeDialog.InRange(runtimeDialog.runtime) ==> runtimeDialog.config.Some?
      modifies this, runtimeDialog
      ensures Valid()
      ensures runtimeDialog == old(runtimeDialog) && config == old(config) && lastRun == old(lastRun)
      ensures runtimeDialog.runtime == old(runtimeDialog.runtime) && runtimeDialog.config == old(runtimeDialog.config)
      ensures RuntimeDialog.InRange(old(runtimeDialog.runtime)) ==>
        && issued == old(issued) + [RunCall(config.value.station, old(runtimeDialog.runtime))]
        && runtimeDialog.calls == old(runtimeDialog.calls) + [old(runtimeDialog.runtime)]
        && !runtimeDialog.open && runtimeDialog.error.None?
      ensures !RuntimeDialog.InRange(old(runtimeDialog.runtime)) ==>
        && issued == old(issued)
        && runtimeDialog.calls == old(runtimeDialog.calls)
        && runtimeDialog.open == old(runtimeDialog.open)
        && runtimeDialog.error == Some(RuntimeDialog.RANGE_ERROR)
    {
      var n := |runtimeDialog.calls|;
      runtimeDialog.Run();
      if |runtimeDialog.calls| > n {
        issued := issued + [RunCall(config.value.station, runtimeDialog.calls[n])];
      }
    }
  }
}
