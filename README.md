# OpenSprinkler cards: a verified model of the decision logic

The repository provides two dashboard cards for OpenSprinkler irrigation controllers: a
station card and a system card. They run in a home-automation front end. Most of the code
is markup. This project models the logic underneath it and proves properties of that logic:

- **Entity classification** (`OsHelpers`). These are the role predicates `isStation`,
  `isProgram`, `isController`, `isSystem`, `isState`, `isRunOnce`, `isStationProgEnable`,
  `isPlayPausable`, `isRainDelayActiveSensor` and `isRainDelayStopTime`. The module also
  has the lifecycle sets (waiting, active, stoppable), the group queries `hasRunOnce`,
  `hasManual` and `hasRainDelayActive`, and the display name `osName`.
- **Registry joins** (`OsHelpers`, `HaHelpers`). `isEnabled` scans the host's entity
  registry in order and returns at the first enable switch. `getEntities` filters the
  registry by device and by a matcher. `getSystemStatusEntities` turns that selection
  into a dictionary.
- **Station card** (`StationCard`). It covers the configuration defaults, the status
  text, icon and button, and the backward "last run" scan over a history list. It also
  covers the `stop` and `run` service calls.
- **System card** (`SystemCard`). It covers the sensor filter applied before display, and
  the name, value and "off" fallback of each status item. It also covers the
  `set_rain_delay` and `pause_stations` calls.
- **Dialogs** (`RuntimeDialog`, `DelayDialog`). Each is a class whose fields are `open`,
  `runtime`/`delay`, `error` and `config`. The callback the card hands to a dialog is
  recorded in the dialog's `calls` log.

The host's data comes in as plain values:

- `hass.entities` is a `Registry`: a sequence of key/entry pairs in iteration order.
- `hass.states` is a map from id to `HassEntity`.
- A service call is recorded as a `ServiceCall` value in the card's `issued` log. It is
  not sent anywhere.

Date formatting, the relative-time wording of the time library, and the build-time
`DEV_MODE` flag are all parameters of the functions that use them.

The runtime dialog asks for seconds:

- `run` accepts a runtime from 10 to 1200, bounds included (src/stationcard/runtimedialog.ts:34-39);
- its error message speaks of seconds;
- the card sends the entered value unchanged as `run_seconds` (src/stationcard/card.ts:227).

No conversion from minutes takes place anywhere. `RuntimeDialog.Dialog.Run` and
`StationCard.Card.DialogRun` model that.

Several operations crash in the source on inputs it does not guard against. The model
states each of these as a precondition:

- a registry entry without a state object that `isEnabled` reaches, i.e. one at or before
  the first enable switch, when the subject is not run_once;
- a registry entry of the device without a state object, which the system matcher of
  `getSystemStatusEntities` reads unguarded (entries of other devices are skipped first);
- a missing friendly name (`osName`, `getStateStatus`);
- a missing history sensor (`sensors[0]` in `history`);
- an empty history response: `history` reads `data[0]` and then its `length` unchecked
  (src/stationcard/card.ts:178-179). `ApplyHistory` takes that first list itself, so an
  empty response cannot be passed;
- a configured station without a state object: `render` then sets `this.state` to null
  (src/stationcard/card.ts:198) and `cardStatus` crashes in `isEnabled`, which reads its
  `entity_id` (src/os_helpers.ts:17, 49). `StatusText`, `ActionFor`, `StateIcon` and
  `IsEnabled` take a state object, not an optional one, so that input cannot be passed;
- a missing end-time registry entry (`delayClick`).

## Model

| member | source | states |
|---|---|---|
| `OsHelpers.RolesExclusive` | src/os_helpers.ts:12-14 | no entity is two of station, program and controller |
| `OsHelpers.RolePrefixesExclusive` | src/os_helpers.ts:12-14 | the id prefixes `sensor.`, `binary_sensor.` and `switch.` are pairwise exclusive |
| `OsHelpers.IsStation` | src/os_helpers.ts:12 | type tag "station" and an id starting `sensor.` |
| `OsHelpers.IsProgram` | src/os_helpers.ts:13 | type tag "program" and an id starting `binary_sensor.` |
| `OsHelpers.IsController` | src/os_helpers.ts:14 | type tag "controller" and an id starting `switch.` |
| `OsHelpers.IsSystem` | src/os_helpers.ts:15 | the type tag is undefined |
| `OsHelpers.IsRunOnce` | src/os_helpers.ts:17 | the id is exactly "run_once" |
| `OsHelpers.IsState` | src/os_helpers.ts:18 | the type tag is falsy |
| `OsHelpers.IsStationProgEnable` | src/os_helpers.ts:19 | the id starts `switch.` |
| `OsHelpers.IsPlayPausable` | src/os_helpers.ts:20 | a station, a program or run_once |
| `OsHelpers.IsRainDelayActiveSensor` | src/os_helpers.ts:21 | an id starting `binary_sensor.` and ending `rain_delay_active` |
| `OsHelpers.IsRainDelayStopTime` | src/os_helpers.ts:22 | an id starting `sensor.` and ending `rain_delay_stop_time` |
| `OsHelpers.SecondaryRoles` | src/os_helpers.ts:19-22 | a play/pause target is never a controller; a controller is an enable switch; no enable switch is a station or program; the stop-time sensor is never the rain-delay-active sensor |
| `OsHelpers.StateWaiting` | src/os_helpers.ts:34 | the state is in the waiting set |
| `OsHelpers.StateActivated` | src/os_helpers.ts:36 | the state is in the active set |
| `OsHelpers.LifecycleDisjoint` | src/os_helpers.ts:8-9 | waiting is exactly "waiting", active exactly program, once_program, manual, on, and no state is both |
| `OsHelpers.SystemIsState` | src/os_helpers.ts:15-18 | isSystem implies isState; an empty type tag is isState but not isSystem |
| `OsHelpers.StateStoppable` | src/os_helpers.ts:34-36 | stoppable iff activated or waiting, i.e. the state is one of program, once_program, manual, on, waiting |
| `OsHelpers.HasRunOnce` | src/os_helpers.ts:24-26 | true iff some station in the group has running_program_id 254 |
| `OsHelpers.HasManual` | src/os_helpers.ts:27-29 | true iff some station in the group has running_program_id 99 |
| `OsHelpers.HasRainDelayActive` | src/os_helpers.ts:30-32 | true iff some rain-delay-active sensor in the group is "on" |
| `OsHelpers.ManualStationGroup` | src/os_helpers.ts:24-29 | a station running program 99 makes hasManual true and, with no 254 anywhere, hasRunOnce false |
| `OsHelpers.Filter` | src/os_helpers.ts:3 | `entities(p)` keeps exactly the group members satisfying `p` and is no longer than the group |
| `OsHelpers.OsName` | src/os_helpers.ts:38-46 | a truthy name attribute is returned as is |
| `OsHelpers.OsNameShape` | src/os_helpers.ts:38-46 | otherwise the friendly name is prefix + result + q1 + q2, where " Station Status" is removed iff the friendly name ends with it, then " Program Running" iff what remains ends with it, then "OpenSprinkler " iff what remains then starts with it |
| `OsHelpers.OsNameExample` | src/os_helpers.ts:38-46 | "OpenSprinkler Front Lawn Station Status" becomes "Front Lawn" |
| `OsHelpers.IsEnabled` | src/os_helpers.ts:48-63 | run_once is enabled whatever the registry and its states; otherwise, with a state object for every pair the scan reaches, true iff the first enable switch (same index, same type tag, key starting `switch.`) in iteration order is "on", and false when there is none |
| `OsHelpers.StatusMapSpec` | src/os_helpers.ts:68-71 | the dictionary's keys are the selected entity ids and each value is a selected element with that id |
| `OsHelpers.GetSystemStatusEntities` | src/os_helpers.ts:65-74 | the loop builds exactly the dictionary of the device's systemless-type selection; entries of other devices need no state object |
| `OsHelpers.SystemStatusSpec` | src/os_helpers.ts:65-74 | the keys are exactly the device's entity ids whose state has no type tag, each mapped to its own entry and state; only the device's entries need a state object |
| `HaHelpers.GetEntities` | src/ha_helpers.ts:139-149 | the loop returns the reference function `Selected` of the registry |
| `HaHelpers.SelectedMembers` | src/ha_helpers.ts:141-145 | an element is returned iff it pairs a registry entry that passes the device and matcher tests with `states[key]` |
| `HaHelpers.SelectedAppend` | src/ha_helpers.ts:141-145 | selection distributes over concatenation, so registry order is kept |
| `HaHelpers.SelectedLength` | src/ha_helpers.ts:139-149 | the result is at most as long as the registry; with no device and no matcher it pairs every entry in place |
| `HaHelpers.SelectedFirst` | src/ha_helpers.ts:141-146 | the first result comes from the first registry entry that passes both tests |
| `HaHelpers.GetEntityState` | src/ha_helpers.ts:151-155 | null iff the id has no state object, that object otherwise |
| `HaHelpers.RegistryLookup` | src/systemcard/card.ts:213 | `hass.entities[key]` is undefined iff no pair has the key, otherwise an entry stored under it |
| `HaHelpers.GetCardStyle` | src/ha_helpers.ts:166-170 | the style (or "") followed by the dev border exactly when dev mode is on |
| `Base.StripSuffix` | src/os_helpers.ts:42-43 | removing an anchored suffix: result plus suffix is the input when it ends so, else the input |
| `Base.StripPrefix` | src/os_helpers.ts:44 | removing an anchored prefix: prefix plus result is the input when it starts so, else the input |
| `Base.RemoveFirstSpec` | src/systemcard/card.ts:98 | `replace(t, '')` removes the leftmost occurrence of `t`, and changes nothing without one |
| `CardCommon.ImageUrl` | src/systemcard/card.ts:56-60 | the url is used as given iff it starts with "http" or "/", else it is "/local/images/ospi-card/" followed by it |
| `CardCommon.ImageUrlIdempotent` | src/stationcard/card.ts:58-62 | normalising a normalised url changes nothing |
| `CardCommon.CardImage` | src/stationcard/card.ts:58-70 | an image iff one is configured, at the normalised url; the configured height when truthy, else 150; the configured position when truthy, else "cover" |
| `StationCard.WithDefaultIcons` | src/stationcard/card.ts:49-52 | icons default to the default set only when omitted; everything else is kept |
| `StationCard.WithDefaultIconsIdempotent` | src/stationcard/card.ts:49-52 | completing a completed configuration changes nothing |
| `StationCard.StatusText` | src/stationcard/card.ts:104-111 | "Running" iff activated, "Idle" iff not activated and enabled, "Disabled" iff neither |
| `StationCard.ActionFor` | src/stationcard/card.ts:122-130 | no button iff disabled; Stop iff enabled and stoppable; Run iff enabled and not stoppable |
| `StationCard.StateIcon` | src/stationcard/card.ts:245-251 | idle_disabled when disabled, else active when activated, else idle |
| `StationCard.StatusLineAgrees` | src/stationcard/card.ts:99-130 | text, button and icon agree as listed; a waiting station reads "Idle" yet offers Stop |
| `StationCard.LastOffIndex` | src/stationcard/card.ts:179-188 | the chosen index is the largest i > 0 whose record is "off"; none iff there is no such i |
| `StationCard.LastOffExample` | src/stationcard/card.ts:179-188 | of on, off, on, off the interval from the third record to the fourth is chosen |
| `StationCard.FindLastRun` | src/stationcard/card.ts:179-188 | the backward loop with `break` computes `LastOffIndex` |
| `StationCard.LastRunText` | src/stationcard/card.ts:185 | the text starts with "Last run: " |
| `StationCard.HistorySensor` | src/stationcard/card.ts:167-174 | the fetched entity is that of the first registry entry whose state is a station with the subject's index on a `binary_sensor.` id |
| `StationCard.StopCall` | src/stationcard/card.ts:222 | `stop` in the opensprinkler domain for the station, without `run_seconds`; always a call the card may issue |
| `StationCard.RunCall` | src/stationcard/card.ts:227 | `run` for the station with `run_seconds`; a call the card may issue iff the runtime is within 10..1200 |
| `StationCard.Card.constructor` | src/stationcard/card.ts:203-208 | an unconfigured card with a fresh runtime dialog, closed and never shown, and nothing issued |
| `StationCard.Card.SetConfig` | src/stationcard/card.ts:44-53 | a missing config is refused with no change; otherwise the config with default icons is stored |
| `StationCard.Card.ApplyHistory` | src/stationcard/card.ts:176-189 | lastRun describes the chosen interval; unchanged when nothing is chosen |
| `StationCard.Card.ActionClick` | src/stationcard/card.ts:220-231 | Stop issues `stop` at once; Run only opens the dialog, storing options with runtime 60 and keeping its error, and issues nothing |
| `StationCard.Card.DialogRun` | src/stationcard/card.ts:224-229 | the dialog keeps its runtime and options; an accepted runtime is logged once by the dialog, issues exactly one `run` with it and closes the dialog; a rejected one logs and issues nothing, keeps the dialog as open as it was and sets the range error; every issued call stays a valid station call |
| `StationCard.RunWithDefaultRuntime` | src/stationcard/card.ts:220-231 | pressing Run and accepting the dialog unchanged issues exactly one `run` for the configured station with 60 seconds |
| `StationCard.RunAfterCorrection` | src/stationcard/runtimedialog.ts:33-45 | pressing Run, entering an out-of-range runtime, pressing Run, correcting it into range and pressing Run again issues exactly one `run`, with the corrected runtime, and leaves the dialog closed without error |
| `RuntimeDialog.WithDefaultRuntime` | src/stationcard/runtimedialog.ts:20-23 | the stored runtime is the supplied one, or 60 when absent |
| `RuntimeDialog.Dialog.constructor` | src/stationcard/runtimedialog.ts:13-17 | closed, never shown, no calls |
| `RuntimeDialog.Dialog.Show` | src/stationcard/runtimedialog.ts:19-27 | opens with the supplied runtime or 60; error and calls unchanged |
| `RuntimeDialog.Dialog.Close` | src/stationcard/runtimedialog.ts:29-31 | only `open` changes, to false |
| `RuntimeDialog.Dialog.Run` | src/stationcard/runtimedialog.ts:33-41 | 10 to 1200 inclusive closes, clears the error and logs one call with the runtime; otherwise sets the range error, keeps `open` and logs nothing; logged runtimes are always in range |
| `RuntimeDialog.Dialog.RuntimeChanged` | src/stationcard/runtimedialog.ts:43-45 | only `runtime` changes, to the input |
| `DelayDialog.InitialDelay` | src/systemcard/delaydialog.ts:26 | the supplied delay when truthy, else 0 |
| `DelayDialog.Dialog.constructor` | src/systemcard/delaydialog.ts:16-18 | closed, never shown, no calls, no error |
| `DelayDialog.Dialog.Show` | src/systemcard/delaydialog.ts:22-29 | stores a copy of the options and opens with their delay or 0 |
| `DelayDialog.Dialog.Close` | src/systemcard/delaydialog.ts:31-33 | only `open` changes, to false |
| `DelayDialog.Dialog.DelayAction` | src/systemcard/delaydialog.ts:35-39 | always closes, clears the error and logs one call with the current delay; no range check, so the error is never set |
| `DelayDialog.Dialog.DelayChanged` | src/systemcard/delaydialog.ts:41-43 | only `delay` changes, to the input |
| `SystemCard.ShownState` | src/systemcard/card.ts:184-190 | an id is kept iff it is not a sensor_1 id with showSensor1 off nor a sensor_2 id with showSensor2 off; values are kept |
| `SystemCard.SystemStatusAllStated` | src/systemcard/card.ts:181-190 | every entity the card keeps carries a state object |
| `SystemCard.StatusName` | src/systemcard/card.ts:97-100 | the item name; its rule is stated by `SystemCard.StatusNameRule` |
| `SystemCard.StatusValue` | src/systemcard/card.ts:102-138 | the item value; its rules are stated by `SystemCard.StatusUnitSuffix`, `SystemCard.RainDelayFallback` and `SystemCard.PauseFallback` |
| `SystemCard.ClickFor` | src/systemcard/card.ts:108-148 | rain delay and pause items are buttons for their kind, all others are not |
| `SystemCard.GetStateStatus` | src/systemcard/card.ts:90-160 | nothing iff the id is absent or its value is empty or "unknown"; a shown value is never empty; only rain delay and pause are buttons |
| `SystemCard.StatusNameRule` | src/systemcard/card.ts:97-100 | first "OpenSprinkler " then first " Active" removed whenever no truthy configured sensor name applies, sensor ids included; a truthy sensor_1 name replaces it for a sensor_1 id unless a truthy sensor_2 name applies, which wins |
| `SystemCard.StatusUnitSuffix` | src/systemcard/card.ts:94-104 | outside an active rain delay or pause, the value is the state followed by its unit when truthy, and the bare state otherwise |
| `SystemCard.EndsText` | src/systemcard/card.ts:116 | the end-time text starts with "Ends " |
| `SystemCard.RainDelayFallback` | src/systemcard/card.ts:109-118 | an active rain delay shows "off" without a stop-time entity, the end time otherwise |
| `SystemCard.PauseFallback` | src/systemcard/card.ts:129-138 | an active pause shows "off" when the end-time entity is absent or "unknown", the end time otherwise |
| `SystemCard.HiddenSensorHasNoItem` | src/systemcard/card.ts:184-191 | a sensor hidden by its toggle never yields a status item |
| `SystemCard.DelayOptions` | src/systemcard/card.ts:215-217 | rain opens "Rain Delay" in hours, pause "Pause Stations" in seconds, with no delay given |
| `SystemCard.DelayCall` | src/systemcard/card.ts:218-223 | rain is `set_rain_delay` with `rain_delay`, pause is `pause_stations` with `pause_duration`, both for the end-time entity |
| `SystemCard.DelayCallRoundTrip` | src/systemcard/card.ts:218-223 | kind, entity and delay can be read back from the issued call |
| `SystemCard.Card.constructor` | src/systemcard/card.ts:195-200 | an unconfigured card with a fresh delay dialog, closed and never shown, and nothing issued |
| `SystemCard.Card.SetConfig` | src/systemcard/card.ts:43-51 | a missing config is refused with no change; otherwise a copy is stored |
| `SystemCard.Card.Render` | src/systemcard/card.ts:178-190 | without config nothing changes; with one, the state is the shown part of the device's system status map |
| `SystemCard.Card.DelayClick` | src/systemcard/card.ts:212-217 | opens the dialog for the kind with delay 0, its callback bound to the end-time entity |
| `SystemCard.Card.DialogSet` | src/systemcard/card.ts:218-225 | issues exactly the call for the bound kind and entity with the entered delay; the dialog closes with no error, logs that delay once and keeps its delay and options |

## Left out

- Rendering is left out: Lit templates, styles, `cardName`, `cardStatus`'s layout and state badge, and the system card's `history`, which is empty. These are presentation only.
- The station card's `progress` is left out: the end-time countdown animation, the clearing of `lastRun` to '' and the `setTimeout` that resets it. These rest on the clock and on timers.
- In the station card's `history`, the `callApi` fetch and its gate on `lastRun === undefined` are I/O. The history list arrives as the parameter of `Card.ApplyHistory`. The history entity is selected by `HistorySensor`.
- Time formatting is not modelled. `start.format(...)`, `duration.humanize()` and "Ends …" are the parameters `format` and `humanize`. These wrap a foreign library with floating-point durations.
- `fireEvent`, `menuClick`, `disconnectedCallback` and `shouldUpdate` are left out. They are DOM events and a re-render optimisation, not decision logic. The dialog that `connectedCallback` creates is created by each card's constructor.
- The station card's `render` sets `this.state` from `getEntityState`. The card has no state field here: `StatusText`, `ActionFor` and `StateIcon` take the state object, and the enabled flag from `IsEnabled`, as arguments.
- The editors, the element registrations and the build configuration are left out. They are UI plumbing.
- `StationCard.WithDefaultIcons`: a configuration whose `icons` key is present but undefined overrides the default with undefined in the source. The model treats it as omitted, because `Option` cannot tell an absent key from an undefined one.
- `RuntimeDialog.WithDefaultRuntime`: in `{ runtime: defaultRuntime, ...config }` a `runtime` key that is present but undefined overrides 60 with undefined. The model treats it as omitted, because `Option` cannot tell an absent key from an undefined one.
- `DelayDialog.Dialog.DelayChanged`: the text field delivers a string, and with no range check it reaches `rain_delay` or `pause_duration` unchanged. The model takes the delay as an integer, so non-numeric text, fractions and negative values are not distinguished from the numbers the host would accept.
- `OsHelpers.IsEnabled`: the precondition asks for a state object at every pair the scan reaches. That is exactly where the source would crash, so no input the source survives is excluded.
- `RuntimeDialog.Dialog.RuntimeChanged`: the text field delivers a string and JavaScript compares it with 10 and 1200 as a number. The model takes the runtime as an integer, so non-numeric input and fractions are not modelled.
- `CardCommon.CardImage`: a NaN image height is falsy in the source. Heights are integers here, so only undefined and 0 fall back to 150.
- The optional booleans `showName`, `showSensor1` and `showSensor2` are plain booleans. An omitted toggle is false, which is how the source reads undefined.
- `HaHelpers.GetCardStyle` takes dev mode as a parameter. The source compares the literal '__DEV_MODE__' with 'true', and nothing in this repository's build rewrites it.
