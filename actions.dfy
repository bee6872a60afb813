/** Action discovery (`Component.load_actions`): which shapes a destination
    can perform, and with which raw actions. */
module ActionDiscovery {
  import opened Values
  import opened Catalog
  import opened DeviceFilter
  import opened Groups

  // ---------------------------------------------------------------------------
  // Devices
  // ---------------------------------------------------------------------------

  /** The verb used by a device's one-action `toggle` shape: a `toggle`
      action, failing that a `press` action. */
  function DeviceToggleAction(actions: seq<Descriptor>): Option<Descriptor>
  {
    match DeviceTrigger(actions, TypeFilter("toggle"))
    case Some(t) => Some(t)
    case None => DeviceTrigger(actions, TypeFilter("press"))
  }

  /** `_add_pair(shape, {"type": on}, {"type": off})` over the action list. */
  function WithActionPair(m: ActionGroups, shape: Shape, on: string, off: string, actions: seq<Descriptor>): ActionGroups
  {
    match (DeviceTrigger(actions, TypeFilter(on)), DeviceTrigger(actions, TypeFilter(off)))
    case (Some(t1), Some(t2)) => m[shape := [t1, t2]]
    case _ => m
  }

  /** The action groups of a device, from its action list. */
  function DeviceActionGroups(actions: seq<Descriptor>): ActionGroups
  {
    var m := match DeviceToggleAction(actions)
      case Some(t) => map[Toggle := [t]]
      case None => map[];
    WithActionPair(WithActionPair(m, OnOff, "turn_on", "turn_off", actions), Brightness, "brightness_increase", "brightness_decrease", actions)
  }

  /** A descriptor of the list whose `type` is `kind`, with none before it. */
  predicate FirstOfType(actions: seq<Descriptor>, kind: string, t: Descriptor)
  {
    exists i :: 0 <= i < |actions| && actions[i] == t && Get(t, "type") == Some(Str(kind))
                && forall j :: 0 <= j < i ==> Get(actions[j], "type") != Some(Str(kind))
  }

  predicate HasType(actions: seq<Descriptor>, kind: string)
  {
    exists i :: 0 <= i < |actions| && Get(actions[i], "type") == Some(Str(kind))
  }

  /** `_device_trigger(actions, type=kind)` is the first action of that type. */
  lemma FirstOfTypeFound(actions: seq<Descriptor>, kind: string)
    requires kind != ""
    ensures DeviceTrigger(actions, TypeFilter(kind)).Some? <==> HasType(actions, kind)
    ensures DeviceTrigger(actions, TypeFilter(kind)).Some? ==>
              FirstOfType(actions, kind, DeviceTrigger(actions, TypeFilter(kind)).value)
  {
    DeviceTriggerIsFirst(actions, TypeFilter(kind));
  }

  /** `_add_pair` on actions: the shape is set exactly when both verbs exist,
      to [first `on` action, first `off` action]; no other shape changes. */
  lemma ActionPairShape(m: ActionGroups, shape: Shape, on: string, off: string, actions: seq<Descriptor>)
    requires on != "" && off != ""
    ensures forall s :: s != shape ==>
              (s in WithActionPair(m, shape, on, off, actions) <==> s in m)
              && (s in m ==> WithActionPair(m, shape, on, off, actions)[s] == m[s])
    ensures var r := WithActionPair(m, shape, on, off, actions);
            && (HasType(actions, on) && HasType(actions, off) ==>
                  shape in r && |r[shape]| == 2 && FirstOfType(actions, on, r[shape][0]) && FirstOfType(actions, off, r[shape][1]))
            && (!(HasType(actions, on) && HasType(actions, off)) ==> r == m)
  {
    FirstOfTypeFound(actions, on);
    FirstOfTypeFound(actions, off);
  }

  /** A device destination offers `toggle` exactly when it has a `toggle` or
      a `press` action, and then performs the first `toggle` action, or the
      first `press` action when it has no `toggle`. */
  lemma DeviceToggleShape(actions: seq<Descriptor>)
    ensures var r := DeviceActionGroups(actions);
            && (Toggle in r <==> HasType(actions, "toggle") || HasType(actions, "press"))
            && (Toggle in r && HasType(actions, "toggle") ==>
                  |r[Toggle]| == 1 && FirstOfType(actions, "toggle", r[Toggle][0]))
            && (Toggle in r && !HasType(actions, "toggle") ==>
                  |r[Toggle]| == 1 && FirstOfType(actions, "press", r[Toggle][0]))
  {
    FirstOfTypeFound(actions, "toggle");
    FirstOfTypeFound(actions, "press");
    var m := match DeviceToggleAction(actions)
      case Some(t) => map[Toggle := [t]]
      case None => map[];
    var m1 := WithActionPair(m, OnOff, "turn_on", "turn_off", actions);
    ActionPairShape(m, OnOff, "turn_on", "turn_off", actions);
    ActionPairShape(m1, Brightness, "brightness_increase", "brightness_decrease", actions);
  }

  /** A device destination offers `on_off` and `brightness` exactly when both
      verbs of the pair exist, as [first on verb, first off verb], and never
      offers `left_right`. */
  lemma DevicePolarShapes(actions: seq<Descriptor>)
    ensures var r := DeviceActionGroups(actions);
            && LeftRight !in r
            && (OnOff in r <==> HasType(actions, "turn_on") && HasType(actions, "turn_off"))
            && (OnOff in r ==> |r[OnOff]| == 2 && FirstOfType(actions, "turn_on", r[OnOff][0])
                               && FirstOfType(actions, "turn_off", r[OnOff][1]))
            && (Brightness in r <==> HasType(actions, "brightness_increase") && HasType(actions, "brightness_decrease"))
            && (Brightness in r ==> |r[Brightness]| == 2 && FirstOfType(actions, "brightness_increase", r[Brightness][0])
                                    && FirstOfType(actions, "brightness_decrease", r[Brightness][1]))
  {
    var m := match DeviceToggleAction(actions)
      case Some(t) => map[Toggle := [t]]
      case None => map[];
    var m1 := WithActionPair(m, OnOff, "turn_on", "turn_off", actions);
    ActionPairShape(m, OnOff, "turn_on", "turn_off", actions);
    ActionPairShape(m1, Brightness, "brightness_increase", "brightness_decrease", actions);
  }

  // ---------------------------------------------------------------------------
  // Entities
  // ---------------------------------------------------------------------------

  /** The service a toggle-domain entity is driven with. */
  function ToggleVerb(domain: string, name: string): string
  {
    if domain == "script" then name
    else if domain == "automation" then "trigger"
    else if domain == "scene" then "apply"
    else if domain == "button" then "press"
    else "toggle"
  }

  /** A `turn_on` call that moves a light's brightness by `step` percent. */
  function BrightnessStep(entityId: string, step: int): Descriptor
  {
    map["entity_id" := Str(entityId), "action" := Str("turn_on"),
        "extra" := Dict(map["brightness_step_pct" := Num(step)])]
  }

  function BrightnessSteps(entityId: string): seq<Descriptor>
  {
    [BrightnessStep(entityId, 10), BrightnessStep(entityId, -10)]
  }

  /** The action groups of an entity; `features` holds the entity's
      `supported_features` when the entity registry knows it. */
  function EntityActionGroups(entityId: string, features: Option<nat>): Result<ActionGroups>
  {
    match SplitEntityId(entityId)
    case Err(e) => Err(e)
    case Ok(parts) => Ok(EntityActionMap(entityId, parts.0, parts.1, features))
  }

  /** The groups of an entity whose id split into `domain` and `name`. */
  function EntityActionMap(entityId: string, domain: string, name: string, features: Option<nat>): ActionGroups
  {
    var m1 := if domain in ON_OFF_ENTITY_ACTION_DOMAINS
      then map[OnOff := [EntityDescriptor(entityId, "action", "turn_on"), EntityDescriptor(entityId, "action", "turn_off")]]
      else map[];
    var m2 := if domain in TOGGLE_ENTITY_ACTION_DOMAINS
      then m1[Toggle := [EntityDescriptor(entityId, "action", ToggleVerb(domain, name))]]
      else m1;
    match features
    case Some(f) =>
      if domain == "light" then
        var m3 := if HasFeature(f, SUPPORT_BRIGHTNESS) then m2[Brightness := BrightnessSteps(entityId)] else m2;
        if HasFeature(f, SUPPORT_COLOR_TEMP) then m3[LeftRight := BrightnessSteps(entityId)] else m3
      else m2
    case None => m2
  }

  /** The features the entity registry reports for an entity, if it knows it. */
  function RegistryFeatures(host: Host, entityId: string): Option<nat>
  {
    if entityId in host.features then Some(host.features[entityId]) else None
  }

  /** `load_actions`: a device id wins over an entity id; a device the host
      returns no action list for makes the source iterate over None. */
  function ActionGroupsOf(ref: Reference, host: Host): Result<ActionGroups>
  {
    if ref.deviceId != "" then
      if ref.deviceId in host.deviceActions then Ok(DeviceActionGroups(host.deviceActions[ref.deviceId]))
      else Err(NoList)
    else if ref.entityId != "" then EntityActionGroups(ref.entityId, RegistryFeatures(host, ref.entityId))
    else Ok(map[])
  }

  /** Entity destinations are classified by the part of the id before the dot:
      on/off domains get `turn_on`/`turn_off` on the entity; toggle domains get
      one call whose verb is the script's own name, `trigger`, `apply` or
      `press`; a registered light gets a +10/-10 `brightness_step_pct` pair for
      the brightness bit, and the very same pair as `left_right` for the
      colour-temperature bit. Ids that do not split in two fail. */
  lemma EntityActionShapes(entityId: string, features: Option<nat>)
    ensures EntityActionGroups(entityId, features).Err? <==> Count(entityId, '.') != 1
    ensures EntityActionGroups(entityId, features).Ok? ==>
      var r := EntityActionGroups(entityId, features).value;
      var domain := DomainOf(entityId);
      var name := entityId[|domain| + 1..];
      && (OnOff in r <==> domain in ON_OFF_ENTITY_ACTION_DOMAINS)
      && (OnOff in r ==> r[OnOff] == [EntityDescriptor(entityId, "action", "turn_on"), EntityDescriptor(entityId, "action", "turn_off")])
      && (Toggle in r <==> domain in TOGGLE_ENTITY_ACTION_DOMAINS)
      && (domain == "script" ==> r[Toggle] == [EntityDescriptor(entityId, "action", name)])
      && (domain == "automation" ==> r[Toggle] == [EntityDescriptor(entityId, "action", "trigger")])
      && (domain == "scene" ==> r[Toggle] == [EntityDescriptor(entityId, "action", "apply")])
      && (domain == "button" ==> r[Toggle] == [EntityDescriptor(entityId, "action", "press")])
      && (Brightness in r <==> domain == "light" && features.Some? && HasFeature(features.value, SUPPORT_BRIGHTNESS))
      && (LeftRight in r <==> domain == "light" && features.Some? && HasFeature(features.value, SUPPORT_COLOR_TEMP))
      && (Brightness in r ==> r[Brightness] == BrightnessSteps(entityId))
      && (LeftRight in r ==> r[LeftRight] == BrightnessSteps(entityId))
  {
    if SplitEntityId(entityId).Ok? {
      SplitDomain(entityId);
      var parts := SplitEntityId(entityId).value;
      EntityActionMapShapes(entityId, parts.0, parts.1, features);
    }
  }

  /** EntityActionShapes for an id already split. */
  lemma EntityActionMapShapes(entityId: string, domain: string, name: string, features: Option<nat>)
    ensures var r := EntityActionMap(entityId, domain, name, features);
      && (OnOff in r <==> domain in ON_OFF_ENTITY_ACTION_DOMAINS)
      && (OnOff in r ==> r[OnOff] == [EntityDescriptor(entityId, "action", "turn_on"), EntityDescriptor(entityId, "action", "turn_off")])
      && (Toggle in r <==> domain in TOGGLE_ENTITY_ACTION_DOMAINS)
      && (Toggle in r ==> r[Toggle] == [EntityDescriptor(entityId, "action", ToggleVerb(domain, name))])
      && (Brightness in r <==> domain == "light" && features.Some? && HasFeature(features.value, SUPPORT_BRIGHTNESS))
      && (LeftRight in r <==> domain == "light" && features.Some? && HasFeature(features.value, SUPPORT_COLOR_TEMP))
      && (Brightness in r ==> r[Brightness] == BrightnessSteps(entityId))
      && (LeftRight in r ==> r[LeftRight] == BrightnessSteps(entityId))
  {
  }

  /** Whatever a destination is, its action groups have discovery's sizes:
      a pair for every polar shape, one action for `toggle`. */
  lemma ActionGroupsSized(ref: Reference, host: Host)
    requires ActionGroupsOf(ref, host).Ok?
    ensures ActionSizes(ActionGroupsOf(ref, host).value)
  {
    if ref.deviceId != "" {
      DeviceToggleShape(host.deviceActions[ref.deviceId]);
      DevicePolarShapes(host.deviceActions[ref.deviceId]);
    } else if ref.entityId != "" {
      var parts := SplitEntityId(ref.entityId).value;
      EntityActionMapShapes(ref.entityId, parts.0, parts.1, RegistryFeatures(host, ref.entityId));
    }
  }

  /** `load_actions`, writing into the result dictionary as the source does. */
  method LoadActions(ref: Reference, host: Host) returns (r: Result<ActionGroups>)
    ensures r == ActionGroupsOf(ref, host)
  {
    var result: ActionGroups := map[];
    if ref.deviceId != "" {
      if ref.deviceId !in host.deviceActions {
        return Err(NoList);
      }
      var aList := host.deviceActions[ref.deviceId];
      var toggle := DeviceTrigger(aList, TypeFilter("toggle"));
      if toggle.Some? {
        result := result[Toggle := [toggle.value]];
      } else {
        var press := DeviceTrigger(aList, TypeFilter("press"));
        if press.Some? {
          result := result[Toggle := [press.value]];
        }
      }
      result := AddActionPair(result, OnOff, "turn_on", "turn_off", aList);
      result := AddActionPair(result, Brightness, "brightness_increase", "brightness_decrease", aList);
      r := Ok(result);
    } else if ref.entityId != "" {
      var split := SplitEntityId(ref.entityId);
      if split.Err? {
        return Err(split.error);
      }
      var (domain, name) := split.value;
      if domain in ON_OFF_ENTITY_ACTION_DOMAINS {
        result := result[OnOff := [EntityDescriptor(ref.entityId, "action", "turn_on"), EntityDescriptor(ref.entityId, "action", "turn_off")]];
      }
      if domain in TOGGLE_ENTITY_ACTION_DOMAINS {
        result := result[Toggle := [EntityDescriptor(ref.entityId, "action", ToggleVerb(domain, name))]];
      }
      if ref.entityId in host.features && domain == "light" {
        var features := host.features[ref.entityId];
        if HasFeature(features, SUPPORT_BRIGHTNESS) {
          result := result[Brightness := BrightnessSteps(ref.entityId)];
        }
        if HasFeature(features, SUPPORT_COLOR_TEMP) {
          result := result[LeftRight := BrightnessSteps(ref.entityId)];
        }
      }
      r := Ok(result);
    } else {
      r := Ok(result);
    }
  }

  /** The action-side `_add_pair` closure. */
  method AddActionPair(m: ActionGroups, shape: Shape, on: string, off: string, actions: seq<Descriptor>)
    returns (result: ActionGroups)
    ensures result == WithActionPair(m, shape, on, off, actions)
  {
    result := m;
    var t1 := DeviceTrigger(actions, TypeFilter(on));
    var t2 := DeviceTrigger(actions, TypeFilter(off));
    if t1.Some? && t2.Some? {
      result := result[shape := [t1.value, t2.value]];
    }
  }
}
