/** The dispatch tables `Component.subscribe` builds from a binding config,
    and the decisions its two listeners take when the host reports an event.
    Installing and removing the listeners themselves is host work and stays
    outside. */
module Subscription {
  import opened Values
  import opened Catalog
  import opened Groups
  import opened Binder

  /** Where a trigger sits in the config: the shape key and the trigger's
      index in that shape's list. The callback receives exactly this pair. */
  datatype Slot = Slot(shape: Shape, index: nat)

  /** A state-table key: `(trigger.get("entity_id"), trigger.get("state"))`. */
  type StateKey = (Option<Value>, Option<Value>)

  /** The four structures `subscribe` fills: the device triggers handed to the
      host (`triggers`), their numbering (`triggers_map`), the watched entity
      ids (`states`) and the state table (`states_map`). */
  datatype Tables = Tables(
    triggers: seq<Descriptor>,
    triggersMap: map<nat, Slot>,
    states: set<Option<Value>>,
    statesMap: map<StateKey, Slot>)

  const EMPTY: Tables := Tables([], map[], {}, map[])

  /** A descriptor the host fires as a device trigger. */
  predicate IsDevice(t: Descriptor)
  {
    "device_id" in t
  }

  function KeyOf(t: Descriptor): StateKey
  {
    (Get(t, "entity_id"), Get(t, "state"))
  }

  /** One pass of the inner loop: a device trigger gets the next number; any
      other descriptor is keyed by entity and state, replacing an earlier
      entry with the same key. */
  function Add(tb: Tables, s: Slot, t: Descriptor): Tables
  {
    if IsDevice(t) then
      tb.(triggersMap := tb.triggersMap[|tb.triggers| := s], triggers := tb.triggers + [t])
    else
      tb.(states := tb.states + {Get(t, "entity_id")}, statesMap := tb.statesMap[KeyOf(t) := s])
  }

  /** The triggers of one shape paired with their slots, in list order. */
  function GroupSlots(shape: Shape, ts: seq<Descriptor>): (r: seq<(Slot, Descriptor)>)
    ensures |r| == |ts|
    ensures forall k :: 0 <= k < |ts| ==> r[k] == (Slot(shape, k), ts[k])
  {
    if ts == [] then []
    else
      var n := |ts| - 1;
      GroupSlots(shape, ts[..n]) + [(Slot(shape, n), ts[n])]
  }

  /** Every trigger of the config with its slot, in the order `subscribe`
      visits them. A group with no `triggers` entry (the misspelled entity
      toggle group) makes `item["trigger"]["triggers"]` raise. */
  function Slots(config: Config): Result<seq<(Slot, Descriptor)>>
  {
    if config == [] then Ok([])
    else
      var n := |config| - 1;
      match Slots(config[..n])
      case Err(e) => Err(e)
      case Ok(f) =>
        match config[n].trigger
        case Misspelled(_) => Err(MissingKey("triggers"))
        case Group(ts, _, _) => Ok(f + GroupSlots(config[n].shape, ts))
  }

  /** The tables after visiting a list of slotted triggers. */
  function TablesOf(f: seq<(Slot, Descriptor)>): Tables
  {
    if f == [] then EMPTY
    else
      var n := |f| - 1;
      Add(TablesOf(f[..n]), f[n].0, f[n].1)
  }

  /** What `subscribe` builds, stated without its loops. */
  function TablesFor(config: Config): Result<Tables>
  {
    match Slots(config)
    case Err(e) => Err(e)
    case Ok(f) => Ok(TablesOf(f))
  }

  lemma TablesOfSnoc(f: seq<(Slot, Descriptor)>, e: (Slot, Descriptor))
    ensures TablesOf(f + [e]) == Add(TablesOf(f), e.0, e.1)
  {
    assert (f + [e])[..|f|] == f;
  }

  /** `subscribe`'s two nested loops over the config. */
  method Subscribe(config: Config) returns (r: Result<Tables>)
    ensures r == TablesFor(config)
  {
    var tb := EMPTY;
    ghost var f: seq<(Slot, Descriptor)> := [];
    for i := 0 to |config|
      invariant Slots(config[..i]) == Ok(f)
      invariant tb == TablesOf(f)
    {
      assert config[..i + 1][..i] == config[..i];
      assert config[..i + 1][i] == config[i];
      match config[i].trigger {
        case Misspelled(_) =>
          SlotsFail(config);
          return Err(MissingKey("triggers"));
        case Group(ts, _, _) =>
          tb := AddGroup(tb, f, config[i].shape, ts);
          f := f + GroupSlots(config[i].shape, ts);
      }
    }
    assert config[..|config|] == config;
    r := Ok(tb);
  }

  /** The inner loop of `subscribe`: the triggers of one entry, in order. */
  method AddGroup(tb: Tables, ghost f: seq<(Slot, Descriptor)>, shape: Shape, ts: seq<Descriptor>) returns (r: Tables)
    requires tb == TablesOf(f)
    ensures r == TablesOf(f + GroupSlots(shape, ts))
  {
    r := tb;
    assert f + GroupSlots(shape, ts[..0]) == f;
    for k := 0 to |ts|
      invariant r == TablesOf(f + GroupSlots(shape, ts[..k]))
    {
      assert ts[..k + 1][..k] == ts[..k];
      TablesOfSnoc(f + GroupSlots(shape, ts[..k]), (Slot(shape, k), ts[k]));
      assert f + GroupSlots(shape, ts[..k + 1]) == f + GroupSlots(shape, ts[..k]) + [(Slot(shape, k), ts[k])];
      r := Add(r, Slot(shape, k), ts[k]);
    }
    assert ts[..|ts|] == ts;
  }

  /** Table building fails exactly when some entry's trigger group has no
      `triggers` entry, and always with that missing key. */
  lemma {:induction false} SlotsFail(config: Config)
    ensures Slots(config).Err? <==> exists i :: 0 <= i < |config| && config[i].trigger.Misspelled?
    ensures Slots(config).Err? ==> Slots(config).error == MissingKey("triggers")
  {
    if config != [] {
      var n := |config| - 1;
      SlotsFail(config[..n]);
      assert forall i :: 0 <= i < n ==> config[..n][i] == config[i];
    }
  }

  /** The trigger `t` is entry `i`'s trigger at the slot's index. */
  predicate SlotOf(config: Config, i: int, s: Slot, t: Descriptor)
  {
    0 <= i < |config| && config[i].shape == s.shape && config[i].trigger.Group?
    && s.index < |config[i].trigger.triggers| && config[i].trigger.triggers[s.index] == t
  }

  /** Some entry holds `t` at the slot. */
  ghost predicate InSomeEntry(config: Config, s: Slot, t: Descriptor)
  {
    exists i :: SlotOf(config, i, s, t)
  }

  /** Every slotted trigger is its entry's trigger at the slot's index. */
  lemma {:induction false} SlotsSound(config: Config)
    requires Slots(config).Ok?
    ensures forall p :: 0 <= p < |Slots(config).value| ==>
              InSomeEntry(config, Slots(config).value[p].0, Slots(config).value[p].1)
  {
    if config != [] {
      var n := |config| - 1;
      var pre := config[..n];
      SlotsSound(pre);
      var f: seq<(Slot, Descriptor)> := Slots(pre).value;
      var g: seq<(Slot, Descriptor)> := GroupSlots(config[n].shape, config[n].trigger.triggers);
      var r := Slots(config).value;
      assert r == f + g;
      forall p | 0 <= p < |r|
        ensures InSomeEntry(config, r[p].0, r[p].1)
      {
        if p < |f| {
          assert r[p] == f[p];
          var i :| SlotOf(pre, i, f[p].0, f[p].1);
          assert pre[i] == config[i];
          assert SlotOf(config, i, f[p].0, f[p].1);
        } else {
          assert r[p] == g[p - |f|];
          assert SlotOf(config, n, g[p - |f|].0, g[p - |f|].1);
        }
      }
    }
  }

  /** Every trigger of every entry is slotted with its entry's shape and its
      index within that entry's list. */
  lemma {:induction false} SlotsComplete(config: Config)
    requires Slots(config).Ok?
    ensures forall i, k :: 0 <= i < |config| && config[i].trigger.Group? && 0 <= k < |config[i].trigger.triggers| ==>
              (Slot(config[i].shape, k), config[i].trigger.triggers[k]) in Slots(config).value
  {
    if config != [] {
      var n := |config| - 1;
      var pre := config[..n];
      SlotsComplete(pre);
      var f: seq<(Slot, Descriptor)> := Slots(pre).value;
      var g: seq<(Slot, Descriptor)> := GroupSlots(config[n].shape, config[n].trigger.triggers);
      assert Slots(config).value == f + g;
      forall i, k | 0 <= i < |config| && config[i].trigger.Group? && 0 <= k < |config[i].trigger.triggers|
        ensures (Slot(config[i].shape, k), config[i].trigger.triggers[k]) in f + g
      {
        if i < n {
          assert pre[i] == config[i];
        } else {
          assert g[k] == (Slot(config[i].shape, k), config[i].trigger.triggers[k]);
        }
      }
    }
  }

  /** The number of device triggers in a slotted list. */
  function DeviceCount(f: seq<(Slot, Descriptor)>): (n: nat)
    ensures n <= |f|
  {
    if f == [] then 0
    else
      var n := |f| - 1;
      DeviceCount(f[..n]) + (if IsDevice(f[n].1) then 1 else 0)
  }

  /** Device triggers are numbered by their position among the device
      triggers of the config: the one with `k` device triggers before it is
      `triggers[k]`, and number `k` dispatches to its slot. The numbers are
      exactly the positions of the trigger list, which holds device triggers
      only. */
  lemma {:induction false} DeviceNumbering(f: seq<(Slot, Descriptor)>)
    ensures |TablesOf(f).triggers| == DeviceCount(f)
    ensures forall n :: n in TablesOf(f).triggersMap <==> 0 <= n < |TablesOf(f).triggers|
    ensures forall n :: 0 <= n < |TablesOf(f).triggers| ==> IsDevice(TablesOf(f).triggers[n])
    ensures forall p :: 0 <= p < |f| && IsDevice(f[p].1) ==>
              DeviceCount(f[..p]) < |TablesOf(f).triggers|
              && TablesOf(f).triggers[DeviceCount(f[..p])] == f[p].1
              && TablesOf(f).triggersMap[DeviceCount(f[..p])] == f[p].0
  {
    if f != [] {
      var n := |f| - 1;
      var pre := f[..n];
      DeviceNumbering(pre);
      var tp := TablesOf(pre);
      var tb := TablesOf(f);
      assert tb == Add(tp, f[n].0, f[n].1);
      assert DeviceCount(f) == DeviceCount(pre) + (if IsDevice(f[n].1) then 1 else 0);
      forall p | 0 <= p < |f| && IsDevice(f[p].1)
        ensures DeviceCount(f[..p]) < |tb.triggers|
                && tb.triggers[DeviceCount(f[..p])] == f[p].1
                && tb.triggersMap[DeviceCount(f[..p])] == f[p].0
      {
        if p < n {
          assert pre[p] == f[p] && pre[..p] == f[..p];
        } else {
          assert f[..p] == pre;
        }
      }
    }
  }

  /** Every numbered device trigger comes from some slotted trigger. */
  lemma {:induction false} DeviceSources(f: seq<(Slot, Descriptor)>)
    ensures forall n :: n in TablesOf(f).triggersMap ==>
              exists p :: 0 <= p < |f| && IsDevice(f[p].1) && f[p].0 == TablesOf(f).triggersMap[n]
  {
    if f != [] {
      var m := |f| - 1;
      DeviceSources(f[..m]);
      var pre := TablesOf(f[..m]);
      var tb := TablesOf(f);
      assert tb == Add(pre, f[m].0, f[m].1);
      forall n | n in tb.triggersMap
        ensures exists p :: 0 <= p < |f| && IsDevice(f[p].1) && f[p].0 == tb.triggersMap[n]
      {
        if IsDevice(f[m].1) && n == |pre.triggers| {
          assert f[m].0 == tb.triggersMap[n];
        } else {
          assert n in pre.triggersMap && tb.triggersMap[n] == pre.triggersMap[n];
          var p :| 0 <= p < m && IsDevice(f[..m][p].1) && f[..m][p].0 == pre.triggersMap[n];
          assert f[..m][p] == f[p];
        }
      }
    }
  }

  /** Entry `p` is an entity trigger and no later entity trigger has its key. */
  predicate LastWithKey(f: seq<(Slot, Descriptor)>, p: int)
  {
    0 <= p < |f| && !IsDevice(f[p].1)
    && forall q :: p < q < |f| && !IsDevice(f[q].1) ==> KeyOf(f[q].1) != KeyOf(f[p].1)
  }

  /** The state table holds a key exactly when some entity trigger has it,
      and then dispatches to the slot of the last such trigger. */
  lemma StateTable(f: seq<(Slot, Descriptor)>)
    ensures forall k :: k in TablesOf(f).statesMap ==> exists p :: LastWithKey(f, p) && KeyOf(f[p].1) == k
    ensures forall p :: LastWithKey(f, p) ==>
              KeyOf(f[p].1) in TablesOf(f).statesMap && TablesOf(f).statesMap[KeyOf(f[p].1)] == f[p].0
  {
    StateKeysSourced(f);
    LastStateWins(f);
  }

  /** Every key of the state table is the key of a last entity trigger. */
  lemma {:induction false} StateKeysSourced(f: seq<(Slot, Descriptor)>)
    ensures forall k :: k in TablesOf(f).statesMap ==> exists p :: LastWithKey(f, p) && KeyOf(f[p].1) == k
  {
    if f != [] {
      var m := |f| - 1;
      var pre := f[..m];
      StateKeysSourced(pre);
      assert TablesOf(f) == Add(TablesOf(pre), f[m].0, f[m].1);
      forall k | k in TablesOf(f).statesMap
        ensures exists p :: LastWithKey(f, p) && KeyOf(f[p].1) == k
      {
        if !IsDevice(f[m].1) && k == KeyOf(f[m].1) {
          assert LastWithKey(f, m);
        } else {
          assert k in TablesOf(pre).statesMap;
          var p :| LastWithKey(pre, p) && KeyOf(pre[p].1) == k;
          assert pre[p] == f[p];
          assert forall q :: p < q < m ==> pre[q] == f[q];
          assert LastWithKey(f, p);
        }
      }
    }
  }

  /** The last entity trigger with a key is the one its key dispatches to. */
  lemma {:induction false} LastStateWins(f: seq<(Slot, Descriptor)>)
    ensures forall p :: LastWithKey(f, p) ==>
              KeyOf(f[p].1) in TablesOf(f).statesMap && TablesOf(f).statesMap[KeyOf(f[p].1)] == f[p].0
  {
    if f != [] {
      var m := |f| - 1;
      var pre := f[..m];
      LastStateWins(pre);
      assert TablesOf(f) == Add(TablesOf(pre), f[m].0, f[m].1);
      forall p | LastWithKey(f, p)
        ensures KeyOf(f[p].1) in TablesOf(f).statesMap && TablesOf(f).statesMap[KeyOf(f[p].1)] == f[p].0
      {
        if p < m {
          assert pre[p] == f[p];
          assert forall q :: p < q < m ==> pre[q] == f[q];
          assert LastWithKey(pre, p);
        }
      }
    }
  }

  /** The watched entity ids are exactly those of the entity triggers. */
  lemma {:induction false} WatchedStates(f: seq<(Slot, Descriptor)>)
    ensures forall e :: e in TablesOf(f).states <==>
              exists p :: 0 <= p < |f| && !IsDevice(f[p].1) && Get(f[p].1, "entity_id") == e
  {
    if f != [] {
      var m := |f| - 1;
      WatchedStates(f[..m]);
      assert forall p :: 0 <= p < m ==> f[..m][p] == f[p];
    }
  }

  /** `on_state_change(entity_id, from_state, to_state)`: the slot the
      callback is invoked with, if any. A state object the host reports as
      absent (`None`) raises when its `.state` is read. */
  function OnStateChange(tb: Tables, entityId: string, from: Option<string>, to: Option<string>): Result<Option<Slot>>
  {
    if to.None? then Err(NoStateObject)
    else
      var exact := (Some(Str(entityId)), Some(Str(to.value)));
      var loose := (Some(Str(entityId)), Some(Str(DomainOf(entityId))));
      if exact in tb.statesMap then
        if from.None? then Err(NoStateObject)
        else if from.value != to.value then Ok(Some(tb.statesMap[exact]))
        else Ok(None)
      else if loose in tb.statesMap then Ok(Some(tb.statesMap[loose]))
      else Ok(None)
  }

  /** An entity trigger on `(e, v)` that no later entity trigger shadows fires
      its own slot when the entity changes to `v` from any other state, and
      fires nothing when the state is reported unchanged. */
  lemma StateChangeFires(f: seq<(Slot, Descriptor)>, p: nat, e: string, v: string, w: string)
    requires LastWithKey(f, p) && KeyOf(f[p].1) == (Some(Str(e)), Some(Str(v)))
    ensures w != v ==> OnStateChange(TablesOf(f), e, Some(w), Some(v)) == Ok(Some(f[p].0))
    ensures OnStateChange(TablesOf(f), e, Some(v), Some(v)) == Ok(None)
  {
    StateTable(f);
  }

  /** A change fires nothing unless some entity trigger of that entity names
      the new state or the entity's domain as its state. */
  lemma StateChangeSilent(f: seq<(Slot, Descriptor)>, e: string, from: Option<string>, v: string)
    requires forall p :: 0 <= p < |f| && !IsDevice(f[p].1) ==>
               KeyOf(f[p].1) != (Some(Str(e)), Some(Str(v))) && KeyOf(f[p].1) != (Some(Str(e)), Some(Str(DomainOf(e))))
    ensures OnStateChange(TablesOf(f), e, from, Some(v)) == Ok(None)
  {
    StateTable(f);
    assert (Some(Str(e)), Some(Str(v))) !in TablesOf(f).statesMap;
    assert (Some(Str(e)), Some(Str(DomainOf(e)))) !in TablesOf(f).statesMap;
  }

  /** The looser `(entity_id, domain)` look-up never hits for the triggers
      discovery builds: their state is `on` or `off`, and a domain is neither.
      So every firing is an exact match with a changed state. */
  lemma LooseNeverHits(f: seq<(Slot, Descriptor)>, e: string, from: Option<string>, to: Option<string>)
    requires forall p :: 0 <= p < |f| && !IsDevice(f[p].1) ==>
               Get(f[p].1, "state") == Some(Str("on")) || Get(f[p].1, "state") == Some(Str("off"))
    requires DomainOf(e) != "on" && DomainOf(e) != "off"
    ensures (Some(Str(e)), Some(Str(DomainOf(e)))) !in TablesOf(f).statesMap
    ensures OnStateChange(TablesOf(f), e, from, to).Ok? && OnStateChange(TablesOf(f), e, from, to).value.Some? ==>
              from.Some? && to.Some? && from.value != to.value
              && (Some(Str(e)), Some(Str(to.value))) in TablesOf(f).statesMap
  {
    StateTable(f);
    assert Str(DomainOf(e)) != Str("on") && Str(DomainOf(e)) != Str("off");
  }

  /** `on_trigger(vars)`: the slot for the trigger number the host reports.
      The host passes that number as a decimal string, so number 0 is not
      mistaken for a missing one; `None` is an event without a number. */
  function OnDeviceTrigger(tb: Tables, idx: Option<nat>): Option<Slot>
  {
    if idx.Some? && idx.value in tb.triggersMap then Some(tb.triggersMap[idx.value]) else None
  }

  /** Round trip: when the host fires the device trigger it was handed at
      position `DeviceCount(f[..p])`, the callback receives that trigger's
      slot; numbers past the list fire nothing. */
  lemma DeviceTriggerRoundTrip(f: seq<(Slot, Descriptor)>, p: nat, n: nat)
    requires p < |f| && IsDevice(f[p].1)
    ensures OnDeviceTrigger(TablesOf(f), Some(DeviceCount(f[..p]))) == Some(f[p].0)
    ensures n >= DeviceCount(f) ==> OnDeviceTrigger(TablesOf(f), Some(n)).None?
  {
    DeviceNumbering(f);
  }
}
