/** The shape catalog: the fixed tables that say which raw device signatures
    and which entity domains realise each of the four binding shapes. */
module Catalog {

  /** The four semantic shapes a trigger or an action can have. */
  datatype Shape = OnOff | Toggle | Brightness | LeftRight

  /** The dictionary key under which a shape is stored. */
  function ShapeName(s: Shape): string
  {
    match s
    case OnOff => "on_off"
    case Toggle => "toggle"
    case Brightness => "brightness"
    case LeftRight => "left_right"
  }

  /** The keyword arguments of a descriptor search: `domain`, `type` and
      `subtype`; the empty string stands for an argument that is not given. */
  datatype Filter = Filter(domain: string, kind: string, subtype: string)

  function Sig(domain: string, kind: string, subtype: string): Filter
  {
    Filter(domain, kind, subtype)
  }

  /** A search on the `type` field alone. */
  function TypeFilter(kind: string): Filter
  {
    Filter("", kind, "")
  }

  /** On/off signature pairs of remotes (first side: on, second side: off). */
  const ON_OFF_ACTIONS: seq<(Filter, Filter)> := [
    (Sig("mqtt", "action", "on"), Sig("mqtt", "action", "off")),
    (Sig("mqtt", "action", "open"), Sig("mqtt", "action", "close")),
    (Sig("zha", "remote_button_short_press", "open"), Sig("zha", "remote_button_short_press", "close")),
    (Sig("zha", "remote_button_short_press", "turn_on"), Sig("zha", "remote_button_short_press", "turn_off"))
  ]

  const BRIGHTNESS_ACTIONS: seq<(Filter, Filter)> := [
    (Sig("mqtt", "action", "brightness_move_up"), Sig("mqtt", "action", "brightness_move_down")),
    (Sig("zha", "remote_button_long_press", "dim_up"), Sig("zha", "remote_button_long_press", "dim_down")),
    (Sig("zha", "remote_button_long_press", "open"), Sig("zha", "remote_button_long_press", "close"))
  ]

  const LEFT_RIGHT_ACTIONS: seq<(Filter, Filter)> := [
    (Sig("mqtt", "action", "arrow_left_click"), Sig("mqtt", "action", "arrow_right_click")),
    (Sig("zha", "remote_button_short_press", "left"), Sig("zha", "remote_button_short_press", "right"))
  ]

  /** Toggle pairs: (primary signature, counterpart filter). The counterpart
      filter leaves `subtype` open, so it finds every button of that kind. */
  const TOGGLE_ACTIONS: seq<(Filter, Filter)> := [
    (Sig("mqtt", "action", "toggle"), Sig("mqtt", "action", "")),
    (Sig("mqtt", "action", "single"), Sig("mqtt", "action", "")),
    (Sig("zha", "remote_button_short_press", "remote_button_short_press"), Sig("zha", "remote_button_short_press", "")),
    (Sig("zha", "remote_button_short_press", "turn_on"), Sig("zha", "remote_button_short_press", ""))
  ]

  /** Generic device trigger types that form an on/off pair. */
  const ON_OFF_TRIGGERS: seq<(string, string)> := [("turned_on", "turned_off")]

  /** Binary-sensor classes tried, in this order, to infer an on/off pair. */
  const BINARY_SENSOR_TRIGGERS: seq<string> := [
    "co", "cold", "connected", "gas", "hot", "light", "locked", "moist", "motion", "moving",
    "occupied", "plugged_in", "present", "problem", "running", "unsafe", "smoke", "sound",
    "tampered", "vibration", "opened"
  ]

  const ON_OFF_ENTITY_DOMAINS: seq<string> := [
    "binary_sensor", "fan", "light", "switch", "remote", "siren", "vacuum", "humidifier",
    "alert", "media_player"
  ]

  const TOGGLE_ENTITY_DOMAINS: seq<string> := ["script", "automation", "button", "scene"]

  const ON_OFF_ENTITY_ACTION_DOMAINS: seq<string> := [
    "fan", "light", "switch", "remote", "siren", "vacuum", "humidifier", "cover", "lock",
    "alert", "media_player"
  ]

  const TOGGLE_ENTITY_ACTION_DOMAINS: seq<string> := ["script", "automation", "button", "scene"]

  /** Bits of a light's `supported_features` (Home Assistant's
      SUPPORT_BRIGHTNESS and SUPPORT_COLOR_TEMP). */
  const SUPPORT_BRIGHTNESS: nat := 1
  const SUPPORT_COLOR_TEMP: nat := 2

  /** Python's `features & bit` is non-zero, for a single-bit `bit`. */
  predicate HasFeature(features: nat, bit: nat)
    requires bit == 1 || bit == 2
  {
    (features / bit) % 2 == 1
  }
}
