/** The host application's data as the cards see it (src/ha_helpers.ts): state objects,
    the ordered entity registry, and the selection helpers over them. */
module HaHelpers {
  import opened Base

  /** The attributes of a state object that the cards read. */
  datatype Attributes = Attributes(
    opensprinklerType: Option<string>,
    index: Option<int>,
    runningProgramId: Option<int>,
    name: Option<string>,
    friendlyName: Option<string>,
    unitOfMeasurement: Option<string>)

  /** A state object of `hass.states` (`HassEntity`). */
  datatype HassEntity = HassEntity(entityId: string, state: string, attributes: Attributes)

  /** An entity registry display entry of `hass.entities`. */
  datatype RegistryEntry = RegistryEntry(entityId: string, deviceId: Option<string>)

  /** One key/value pair of `hass.entities`. */
  datatype Registered = Registered(key: string, entry: RegistryEntry)

  /** `hass.entities`, in its iteration order. */
  type Registry = seq<Registered>

  /** `hass.states`. */
  type States = map<string, HassEntity>

  /** An element of the list `getEntities` returns. */
  datatype EntityAndState = EntityAndState(entity: RegistryEntry, state: Option<HassEntity>)

  /** The optional predicate `getEntities` applies to a registry entry and its state. */
  type Matcher = (RegistryEntry, Option<HassEntity>) -> bool

  /** Every registry key that passes the device test has a state object. `getEntities`
      hands `hass.states[key]` to its matcher only after that test, and a matcher that
      reads the state unguarded needs it there. */
  predicate DeviceKeysInStates(reg: Registry, states: States, device: Option<string>) {
    forall i :: 0 <= i < |reg| && Kept(states, device, None, reg[i]) ==> reg[i].key in states
  }

  /** `getEntityState`: the state object of `id`, or null when there is none. */
  function GetEntityState(states: States, id: string): (r: Option<HassEntity>)
    ensures r.None? <==> id !in states
    ensures r.Some? ==> r.value == states[id] && r.value in states.Values
  {
    if id in states then Some(states[id]) else None
  }

  /** `hass.entities[key]`: the entry stored under `key`, or undefined. */
  function RegistryLookup(reg: Registry, key: string): (r: Option<RegistryEntry>)
    ensures r.None? <==> forall i :: 0 <= i < |reg| ==> reg[i].key != key
    ensures r.Some? ==> exists i :: 0 <= i < |reg| && reg[i].key == key && reg[i].entry == r.value
    decreases |reg|
  {
    if reg == [] then None
    else if reg[0].key == key then Some(reg[0].entry)
    else
      var r := RegistryLookup(reg[1..], key);
      assert forall i :: 0 < i < |reg| ==> reg[i] == reg[1..][i - 1];
      r
  }

  /** The two `continue` tests of `getEntities`: the entry survives both. */
  predicate Kept(states: States, device: Option<string>, matcher: Option<Matcher>, p: Registered) {
    && !(StrTruthy(device) && p.entry.deviceId != device)
    && !(matcher.Some? && !matcher.value(p.entry, GetEntityState(states, p.key)))
  }

  /** The element pushed for the registry pair `p`. */
  function Paired(states: States, p: Registered): EntityAndState {
    EntityAndState(p.entry, GetEntityState(states, p.key))
  }

  /** Specification of `getEntities`: the kept entries, paired, in registry order. */
  function Selected(reg: Registry, states: States, device: Option<string>, matcher: Option<Matcher>): seq<EntityAndState>
    decreases |reg|
  {
    if reg == [] then []
    else
      var last := reg[|reg| - 1];
      Selected(reg[..|reg| - 1], states, device, matcher)
        + (if Kept(states, device, matcher, last) then [Paired(states, last)] else [])
  }

  /** Selection distributes over concatenation of registries, so it keeps the registry's order. */
  lemma {:induction false} SelectedAppend(a: Registry, b: Registry, states: States, device: Option<string>, matcher: Option<Matcher>)
    ensures Selected(a + b, states, device, matcher)
         == Selected(a, states, device, matcher) + Selected(b, states, device, matcher)
    decreases |b|
  {
    if b == [] {
      assert a + b == a;
    } else {
      var b' := b[..|b| - 1];
      SelectedAppend(a, b', states, device, matcher);
      assert (a + b)[..|a + b| - 1] == a + b';
    }
  }

  /** An element is selected exactly when it is the pairing of a kept registry entry. */
  lemma {:induction false} SelectedMembers(reg: Registry, states: States, device: Option<string>, matcher: Option<Matcher>, x: EntityAndState)
    ensures x in Selected(reg, states, device, matcher) <==>
      exists i :: 0 <= i < |reg| && Kept(states, device, matcher, reg[i]) && x == Paired(states, reg[i])
    decreases |reg|
  {
    if reg != [] {
      var init := reg[..|reg| - 1];
      SelectedMembers(init, states, device, matcher, x);
      assert forall i :: 0 <= i < |init| ==> init[i] == reg[i];
    }
  }

  /** The result is never longer than the registry; with neither a device nor a matcher
      it pairs every registry entry, position by position. */
  lemma {:induction false} SelectedLength(reg: Registry, states: States, device: Option<string>, matcher: Option<Matcher>)
    ensures |Selected(reg, states, device, matcher)| <= |reg|
    ensures !StrTruthy(device) && matcher.None? ==>
      |Selected(reg, states, device, matcher)| == |reg| &&
      forall i :: 0 <= i < |reg| ==> Selected(reg, states, device, matcher)[i] == Paired(states, reg[i])
    decreases |reg|
  {
    if reg != [] {
      var init := reg[..|reg| - 1];
      SelectedLength(init, states, device, matcher);
    }
  }

  /** The first selected element comes from the first kept registry entry. */
  lemma {:induction false} SelectedFirst(reg: Registry, states: States, device: Option<string>, matcher: Option<Matcher>)
    requires |Selected(reg, states, device, matcher)| > 0
    ensures exists i ::
      && 0 <= i < |reg| && Kept(states, device, matcher, reg[i])
      && Selected(reg, states, device, matcher)[0] == Paired(states, reg[i])
      && forall j :: 0 <= j < i ==> !Kept(states, device, matcher, reg[j])
    decreases |reg|
  {
    var init := reg[..|reg| - 1];
    var n := |reg| - 1;
    if |Selected(init, states, device, matcher)| > 0 {
      SelectedFirst(init, states, device, matcher);
      var i :| 0 <= i < |init| && Kept(states, device, matcher, init[i])
        && Selected(init, states, device, matcher)[0] == Paired(states, init[i])
        && forall j :: 0 <= j < i ==> !Kept(states, device, matcher, init[j]);
      assert reg[i] == init[i];
      assert forall j :: 0 <= j < i ==> reg[j] == init[j];
    } else {
      forall j | 0 <= j < n
        ensures !Kept(states, device, matcher, reg[j])
      {
        assert reg[j] == init[j];
        if Kept(states, device, matcher, reg[j]) {
          SelectedMembers(init, states, device, matcher, Paired(states, init[j]));
        }
      }
    }
  }

  /** `getEntities`: one pass over the registry, pushing each kept entry with its state. */
  method GetEntities(reg: Registry, states: States, device: Option<string>, matcher: Option<Matcher>) returns (ret: seq<EntityAndState>)
    ensures ret == Selected(reg, states, device, matcher)
  {
    ret := [];
    var i := 0;
    while i < |reg|
      invariant 0 <= i <= |reg|
      invariant ret == Selected(reg[..i], states, device, matcher)
    {
      var e := reg[i];
      assert reg[..i + 1][..i] == reg[..i];
      if StrTruthy(device) && e.entry.deviceId != device {
        i := i + 1;
        continue;
      }
      if matcher.Some? && !matcher.value(e.entry, GetEntityState(states, e.key)) {
        i := i + 1;
        continue;
      }
      ret := ret + [Paired(states, e)];
      i := i + 1;
    }
    assert reg[..i] == reg;
  }

  /** The border `getCardStyle` appends in development builds. */
  const DEV_BORDER := " border: 1px dashed red; "

  /** `getCardStyle`: the given style (or "") followed by the development border when
      `devMode` holds. The source's DEV_MODE compares the literal '__DEV_MODE__' with
      'true' and no build step in this repository rewrites it. */
  function GetCardStyle(style: Option<string>, devMode: bool): (r: string)
    ensures StartsWith(r, StrOr(style, ""))
    ensures r[|StrOr(style, "")|..] == (if devMode then DEV_BORDER else "")
    ensures !devMode ==> r == StrOr(style, "")
  {
    StrOr(style, "") + (if devMode then DEV_BORDER else "")
  }
}
