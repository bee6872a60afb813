/** What happens when a subscribed trigger fires: `Coordinator.enable`'s
    `on_trigger` picks the action to perform, and `Component.call_action`
    assembles the data the host receives. The host's platform and service
    calls themselves are not part of this model. */
module Dispatch {
  import opened Values
  import opened Catalog
  import opened Groups
  import opened Binder
  import opened Subscription

  /** The arguments of `call_action(action, extra, type)`: the action
      descriptor, the binding's extra data, and the verb forced on it. */
  datatype Call = Call(action: Descriptor, extra: Extra, verb: Option<string>)

  /** The action index `on_trigger` computes: with two or more actions and
      `reverse` set, index 1 becomes 0 and any other index becomes 1;
      otherwise the trigger index is used as it is. */
  function ActionIndex(b: Binding, idx: nat): nat
  {
    if |b.actions| > 1 && b.reverse == Some(true) then (if idx == 1 then 0 else 1) else idx
  }

  /** `on_trigger(key, idx)`: nothing happens when the binding entry is
      disabled or the shape is missing or disabled; otherwise the chosen
      action is called, with the verb `toggle` forced on a multi-action
      `toggle` shape. An index past the action list raises. */
  function DispatchTrigger(enabled: bool, config: Config, key: Shape, idx: nat): Result<Option<Call>>
  {
    if !enabled then Ok(None)
    else match Find(config, key)
      case None => Ok(None)
      case Some(i) =>
        var b := config[i];
        if !b.enabled then Ok(None)
        else
          var j := ActionIndex(b, idx);
          var verb := if |b.actions| > 1 && key == Toggle then Some("toggle") else None;
          if j < |b.actions| then Ok(Some(Call(b.actions[j], b.extra, verb)))
          else Err(IndexOutOfRange)
  }

  /** The call fires exactly when both enabled gates pass and the computed
      index lies in the action list; it then performs that action with the
      shape's extra data. Every gate that fails drops the event silently. */
  lemma DispatchGates(enabled: bool, config: Config, key: Shape, idx: nat)
    ensures var r := DispatchTrigger(enabled, config, key, idx);
            !enabled || !Has(config, key) ==> r == Ok(None)
    ensures var r := DispatchTrigger(enabled, config, key, idx);
            Has(config, key) && !config[Find(config, key).value].enabled ==> r == Ok(None)
    ensures var r := DispatchTrigger(enabled, config, key, idx);
            r.Err? ==> r.error == IndexOutOfRange
    ensures var r := DispatchTrigger(enabled, config, key, idx);
            r.Ok? && r.value.Some? <==>
              enabled && Has(config, key) && config[Find(config, key).value].enabled
              && ActionIndex(config[Find(config, key).value], idx) < |config[Find(config, key).value].actions|
    ensures var r := DispatchTrigger(enabled, config, key, idx);
            r.Ok? && r.value.Some? ==>
              var b := config[Find(config, key).value];
              r.value.value.action == b.actions[ActionIndex(b, idx)] && r.value.value.extra == b.extra
  {
  }

  /** The verb `toggle` is forced exactly on a `toggle` shape with two or
      more actions; every other call keeps the action's own verb. */
  lemma ToggleVerbForced(enabled: bool, config: Config, key: Shape, idx: nat)
    requires DispatchTrigger(enabled, config, key, idx).Ok? && DispatchTrigger(enabled, config, key, idx).value.Some?
    ensures DispatchTrigger(enabled, config, key, idx).value.value.verb ==
              if key == Toggle && |config[Find(config, key).value].actions| > 1 then Some("toggle") else None
  {
  }

  /** `reverse` swaps the two actions: with two or more actions, firing
      trigger 0 or 1 of a reversed shape does what firing the other trigger
      does when the shape is not reversed. */
  lemma ReverseSwaps(enabled: bool, config: Config, i: nat, idx: nat)
    requires i < |config| && Find(config, config[i].shape) == Some(i)
    requires |config[i].actions| >= 2 && idx <= 1
    ensures DispatchTrigger(enabled, config[i := config[i].(reverse := Some(true))], config[i].shape, idx)
         == DispatchTrigger(enabled, config[i := config[i].(reverse := Some(false))], config[i].shape, 1 - idx)
  {
    var on := config[i := config[i].(reverse := Some(true))];
    var off := config[i := config[i].(reverse := Some(false))];
    SameShapesFind(config, on, config[i].shape);
    SameShapesFind(config, off, config[i].shape);
  }

  /** With a single action `reverse` has no effect: trigger 0 performs it
      and any later trigger index raises. */
  lemma SingleActionUnchanged(enabled: bool, config: Config, key: Shape, idx: nat)
    requires Has(config, key) && |config[Find(config, key).value].actions| == 1
    requires enabled && config[Find(config, key).value].enabled
    ensures idx == 0 ==>
              DispatchTrigger(enabled, config, key, idx) == Ok(Some(Call(config[Find(config, key).value].actions[0], config[Find(config, key).value].extra, None)))
    ensures idx > 0 ==> DispatchTrigger(enabled, config, key, idx) == Err(IndexOutOfRange)
  {
  }

  /** Look-up by shape depends on the shapes alone. */
  lemma SameShapesFind(c: Config, d: Config, s: Shape)
    requires |c| == |d| && forall j :: 0 <= j < |c| ==> c[j].shape == d[j].shape
    ensures Find(c, s) == Find(d, s)
  {
    var r := Find(d, s);
    if Find(c, s).Some? {
      assert d[Find(c, s).value].shape == s;
    }
    if r.Some? {
      assert c[r.value].shape == s;
    }
  }

  /** In a config with one entry per shape, the entry holding a slot is the
      one `config.get(shape)` returns. */
  lemma OrderedFind(config: Config, i: int)
    requires Ordered(config) && 0 <= i < |config|
    ensures Find(config, config[i].shape) == Some(i)
  {
    var r := Find(config, config[i].shape);
    assert config[r.value].shape == config[i].shape;
    assert Rank(config[r.value].shape) == Rank(config[i].shape);
  }

  /** No subscribed trigger can make `on_trigger` raise: in a config with
      one entry per shape and no more triggers than actions per entry, every
      slot the dispatch tables can deliver resolves to an action or to
      nothing. */
  lemma DispatchSafe(enabled: bool, config: Config, s: Slot)
    requires Ordered(config) && Sized(config) && TablesFor(config).Ok?
    requires s in TablesFor(config).value.triggersMap.Values || s in TablesFor(config).value.statesMap.Values
    ensures DispatchTrigger(enabled, config, s.shape, s.index).Ok?
  {
    var f := Slots(config).value;
    var p := TabledSlot(f, s);
    SlotsSound(config);
    assert InSomeEntry(config, f[p].0, f[p].1);
    var i :| SlotOf(config, i, s, f[p].1);
    OrderedFind(config, i);
  }

  /** A slot the tables deliver is the slot of one of the listed triggers. */
  lemma TabledSlot(f: seq<(Slot, Descriptor)>, s: Slot) returns (p: nat)
    requires s in TablesOf(f).triggersMap.Values || s in TablesOf(f).statesMap.Values
    ensures p < |f| && f[p].0 == s
  {
    var tb := TablesOf(f);
    if s in tb.triggersMap.Values {
      DeviceSources(f);
      var n :| n in tb.triggersMap && tb.triggersMap[n] == s;
      p :| 0 <= p < |f| && IsDevice(f[p].1) && f[p].0 == tb.triggersMap[n];
    } else {
      StateTable(f);
      var k :| k in tb.statesMap && tb.statesMap[k] == s;
      p :| LastWithKey(f, p) && KeyOf(f[p].1) == k;
    }
  }

  /** What `call_action` hands to the host: a device action's data for the
      device-automation platform of its domain, or a service call. */
  datatype Invocation =
    | DeviceAction(platform: Value, data: map<string, Value>)
    | ServiceCall(domain: string, service: Option<Value>, data: map<string, Value>)

  /** `call_action(action, extra, type)`: a device action (one with a
      `device_id`) gets `{**action, **extra, "type": type or action["type"]}`;
      an entity action calls the service named by the verb or its `action`
      field, with `{**action["extra"], **extra, "entity_id": ...}`. */
  function CallData(c: Call): Result<Invocation>
  {
    if "device_id" in c.action then
      if "domain" !in c.action then Err(MissingKey("domain"))
      else if (c.verb.None? || c.verb.value == "") && "type" !in c.action then Err(MissingKey("type"))
      else
        var kind := if c.verb.Some? && c.verb.value != "" then Str(c.verb.value) else c.action["type"];
        Ok(DeviceAction(c.action["domain"], (c.action + c.extra)["type" := kind]))
    else if "entity_id" !in c.action then Err(MissingKey("entity_id"))
    else if !c.action["entity_id"].Str? then Err(WrongType("entity_id"))
    else match SplitEntityId(c.action["entity_id"].s)
      case Err(e) => Err(e)
      case Ok(parts) =>
        var own := if "extra" in c.action then c.action["extra"] else Dict(map[]);
        if !own.Dict? then Err(WrongType("extra"))
        else
          var service := if c.verb.Some? && c.verb.value != "" then Some(Str(c.verb.value)) else Get(c.action, "action");
          Ok(ServiceCall(parts.0, service, (own.entries + c.extra)["entity_id" := c.action["entity_id"]]))
  }

  /** The merge lets later sources win: a device action's `type` is the
      forced verb when there is one; otherwise each key comes from `extra`
      when it is there and from the action descriptor otherwise. */
  lemma DeviceCallMerge(c: Call)
    requires "device_id" in c.action && CallData(c).Ok?
    ensures CallData(c).value.DeviceAction?
    ensures CallData(c).value.data.Keys == c.action.Keys + c.extra.Keys + {"type"}
    ensures c.verb.Some? && c.verb.value != "" ==> CallData(c).value.data["type"] == Str(c.verb.value)
    ensures c.verb.None? ==> "type" in c.action && CallData(c).value.data["type"] == c.action["type"]
    ensures forall k :: k in c.extra && k != "type" ==> CallData(c).value.data[k] == c.extra[k]
    ensures forall k :: k in c.action && k !in c.extra && k != "type" ==> CallData(c).value.data[k] == c.action[k]
  {
  }

  /** The `extra` data an entity action carries itself, none when absent. */
  function OwnExtra(action: Descriptor): map<string, Value>
  {
    if "extra" in action && action["extra"].Dict? then action["extra"].entries else map[]
  }

  /** A service call always targets the action's own entity; its data holds
      the keys of the action's own `extra` and of the binding's `extra`, the
      binding's value winning on a clash. */
  lemma ServiceCallMerge(c: Call)
    requires "device_id" !in c.action && CallData(c).Ok?
    ensures CallData(c).value.ServiceCall?
    ensures c.action["entity_id"] == Str(CallData(c).value.domain + "." + c.action["entity_id"].s[|CallData(c).value.domain| + 1..])
    ensures CallData(c).value.data.Keys == OwnExtra(c.action).Keys + c.extra.Keys + {"entity_id"}
    ensures CallData(c).value.data["entity_id"] == c.action["entity_id"]
    ensures forall k :: k in c.extra && k != "entity_id" ==> CallData(c).value.data[k] == c.extra[k]
    ensures forall k :: k in OwnExtra(c.action) && k !in c.extra && k != "entity_id" ==>
              CallData(c).value.data[k] == OwnExtra(c.action)[k]
    ensures c.verb.Some? && c.verb.value != "" ==> CallData(c).value.service == Some(Str(c.verb.value))
    ensures c.verb.None? ==> CallData(c).value.service == Get(c.action, "action")
  {
    var parts := SplitEntityId(c.action["entity_id"].s).value;
    assert c.action["entity_id"].s == parts.0 + "." + parts.1;
    assert (parts.0 + "." + parts.1)[|parts.0| + 1..] == parts.1;
  }

  /** The state of `_remove_state_listeners`: never assigned, reset at the
      start of `enable`, or holding the listeners `subscribe` installed. */
  datatype Listeners = Unset | Cleared | Installed(tables: Tables)

  /** A `Coordinator`: one stored binding entry and its listeners. */
  class Coordinator {
    var enabled: bool
    var config: Config
    var listeners: Listeners
    /** Whether the host still delivers the installed listeners' events. */
    var listening: bool

    constructor(enabled: bool, config: Config)
      ensures this.enabled == enabled && this.config == config
      ensures listeners == Unset && !listening
    {
      this.enabled := enabled;
      this.config := config;
      listeners := Unset;
      listening := false;
    }

    /** `enable` once the host is running: resets the listeners, builds the
        dispatch tables and installs them. A failure raises and leaves no
        listeners installed. */
    method Enable() returns (r: Result<Tables>)
      modifies this
      ensures r == TablesFor(config)
      ensures enabled == old(enabled) && config == old(config)
      ensures r.Ok? ==> listeners == Installed(r.value) && listening
      ensures r.Err? ==> listeners == Cleared && listening == old(listening)
    {
      listeners := Cleared;
      r := Subscribe(config);
      if r.Ok? {
        listeners := Installed(r.value);
        listening := true;
      }
    }

    /** `disable`: removes the installed listeners. The source reads the
        attribute without a default, so disabling a coordinator that was
        never enabled raises. The attribute itself keeps its value. */
    method Disable() returns (r: Result<()>)
      modifies this
      ensures enabled == old(enabled) && config == old(config) && listeners == old(listeners)
      ensures old(listeners) == Unset ==> r == Err(NoAttribute("_remove_state_listeners")) && listening == old(listening)
      ensures old(listeners) != Unset ==> r == Ok(())
      ensures old(listeners).Installed? ==> !listening
      ensures old(listeners) == Cleared ==> listening == old(listening)
    {
      if listeners == Unset {
        return Err(NoAttribute("_remove_state_listeners"));
      }
      if listeners.Installed? {
        listening := false;
      }
      r := Ok(());
    }

    /** The call a state change leads to, if the host delivers it. */
    function OnState(entityId: string, from: Option<string>, to: Option<string>): Result<Option<Call>>
      reads this
    {
      if !listening || !listeners.Installed? then Ok(None)
      else match OnStateChange(listeners.tables, entityId, from, to)
        case Err(e) => Err(e)
        case Ok(None) => Ok(None)
        case Ok(Some(s)) => DispatchTrigger(enabled, config, s.shape, s.index)
    }

    /** The call a device-trigger event leads to, if the host delivers it. */
    function OnTrigger(idx: Option<nat>): Result<Option<Call>>
      reads this
    {
      if !listening || !listeners.Installed? then Ok(None)
      else match OnDeviceTrigger(listeners.tables, idx)
        case None => Ok(None)
        case Some(s) => DispatchTrigger(enabled, config, s.shape, s.index)
    }

    /** A disabled binding entry, or one whose listeners were removed, calls
        nothing whatever the host reports. */
    lemma SilentWhenOff(entityId: string, from: Option<string>, to: Option<string>, idx: Option<nat>)
      requires !enabled || !listening
      ensures OnTrigger(idx) == Ok(None)
      ensures OnState(entityId, from, to).Ok? ==> OnState(entityId, from, to) == Ok(None)
    {
    }

    /** Once enabled on a config with one entry per shape and no more
        triggers than actions per entry, no device-trigger event makes the
        coordinator raise. */
    lemma TriggersNeverRaise(idx: Option<nat>)
      requires listeners.Installed? && TablesFor(config).Ok? && listeners.tables == TablesFor(config).value
      requires Ordered(config) && Sized(config)
      ensures OnTrigger(idx).Ok?
    {
      if listening {
        match OnDeviceTrigger(listeners.tables, idx)
        case None =>
        case Some(s) =>
          assert s in listeners.tables.triggersMap.Values;
          DispatchSafe(enabled, config, s);
      }
    }
  }
}
