/** The binder (`Component.bind_trigger_actions`): pairs a source's trigger
    groups with a destination's action groups, shape by shape. */
module Binder {
  import opened Values
  import opened Catalog
  import opened Groups

  /** One entry of a binding config: the shape's trigger group, its action
      list, and the user-editable `enabled`, `reverse` and `extra` fields.
      `reverse` is an option because an update may store the absent value. */
  datatype Binding = Binding(
    shape: Shape,
    trigger: TriggerGroup,
    actions: seq<Descriptor>,
    enabled: bool,
    reverse: Option<bool>,
    extra: Extra)

  /** A binding config: a dictionary keyed by shape name, kept in its
      insertion order, which the subscription numbering and the summary
      follow. */
  type Config = seq<Binding>

  /** The polar shapes, in the order the binder visits them. */
  const POLAR_ORDER: seq<Shape> := [Brightness, LeftRight, OnOff]

  /** `config.get(key)`: the entry stored for a shape, if any. */
  function Find(config: Config, shape: Shape): (r: Option<nat>)
    ensures r.Some? ==> r.value < |config| && config[r.value].shape == shape
                        && forall j :: 0 <= j < r.value ==> config[j].shape != shape
    ensures r.None? ==> forall j :: 0 <= j < |config| ==> config[j].shape != shape
  {
    if config == [] then None
    else if config[0].shape == shape then Some(0)
    else
      assert forall j :: 0 < j < |config| ==> config[1..][j - 1] == config[j];
      match Find(config[1..], shape)
      case None => None
      case Some(i) => Some(i + 1)
  }

  predicate Has(config: Config, shape: Shape)
  {
    Find(config, shape).Some?
  }

  /** A freshly bound entry: reverse off, no extra data. */
  function Fresh(shape: Shape, trigger: TriggerGroup, actions: seq<Descriptor>, enabled: bool): Binding
  {
    Binding(shape, trigger, actions, enabled, Some(false), map[])
  }

  /** The entries of step one for the listed polar shapes. */
  function PolarBindings(triggers: TriggerGroups, actions: ActionGroups, shapes: seq<Shape>): Config
  {
    if shapes == [] then []
    else
      var n := |shapes| - 1;
      var s := shapes[n];
      PolarBindings(triggers, actions, shapes[..n])
        + (if s in triggers && s in actions then [Fresh(s, triggers[s], actions[s], true)] else [])
  }

  /** Step two of `bind_trigger_actions`, on the entries of step one: a
      `toggle` entry when both sides have `toggle`, or else, when step one
      bound no `on_off`, one that drives the destination's `on_off` actions. */
  function WithToggle(triggers: TriggerGroups, actions: ActionGroups, polar: Config): Config
  {
    var hasOnOff := Has(polar, OnOff);
    if Toggle in triggers && Toggle in actions then
      polar + [Fresh(Toggle, triggers[Toggle], actions[Toggle], !hasOnOff)]
    else if !hasOnOff && Toggle in triggers && OnOff in actions && !Has(polar, Toggle) then
      polar + [Fresh(Toggle, triggers[Toggle], actions[OnOff], true)]
    else polar
  }

  /** `bind_trigger_actions`. */
  function Bind(triggers: TriggerGroups, actions: ActionGroups): Config
  {
    WithToggle(triggers, actions, PolarBindings(triggers, actions, POLAR_ORDER))
  }

  /** Step two keeps the entries of step one and appends at most one entry:
      a `toggle` entry on the source's toggle triggers, with the
      destination's toggle actions (disabled when `on_off` is bound), or
      failing those its `on_off` actions (enabled). */
  lemma ToggleAppended(triggers: TriggerGroups, actions: ActionGroups, polar: Config)
    ensures |polar| <= |WithToggle(triggers, actions, polar)| <= |polar| + 1
    ensures forall i :: 0 <= i < |polar| ==> WithToggle(triggers, actions, polar)[i] == polar[i]
    ensures |WithToggle(triggers, actions, polar)| == |polar| + 1 <==>
              Toggle in triggers && (Toggle in actions || (!Has(polar, OnOff) && OnOff in actions && !Has(polar, Toggle)))
    ensures |WithToggle(triggers, actions, polar)| == |polar| + 1 ==>
              var b := WithToggle(triggers, actions, polar)[|polar|];
              b.shape == Toggle && Toggle in triggers && b.trigger == triggers[Toggle]
              && b.reverse == Some(false) && b.extra == map[]
              && (Toggle in actions ==> b.actions == actions[Toggle] && b.enabled == !Has(polar, OnOff))
              && (Toggle !in actions ==> OnOff in actions && b.actions == actions[OnOff] && b.enabled && !Has(polar, OnOff))
  {
  }

  method BindTriggerActions(triggers: TriggerGroups, actions: ActionGroups) returns (result: Config)
    ensures result == Bind(triggers, actions)
  {
    result := [];
    for i := 0 to |POLAR_ORDER|
      invariant result == PolarBindings(triggers, actions, POLAR_ORDER[..i])
    {
      var item := POLAR_ORDER[i];
      assert POLAR_ORDER[..i + 1][..i] == POLAR_ORDER[..i];
      if item in triggers && item in actions {
        result := result + [Fresh(item, triggers[item], actions[item], true)];
      }
    }
    assert POLAR_ORDER[..|POLAR_ORDER|] == POLAR_ORDER;
    var hasOnOff := Has(result, OnOff);
    if Toggle in triggers && Toggle in actions {
      result := result + [Fresh(Toggle, triggers[Toggle], actions[Toggle], !hasOnOff)];
      assert result[|result| - 1].shape == Toggle;
    }
    if !hasOnOff {
      if Toggle in triggers && OnOff in actions && !Has(result, Toggle) {
        result := result + [Fresh(Toggle, triggers[Toggle], actions[OnOff], true)];
      }
    }
  }

  /** The position of a shape in the binder's output order. */
  function Rank(s: Shape): nat
  {
    match s
    case Brightness => 0
    case LeftRight => 1
    case OnOff => 2
    case Toggle => 3
  }

  /** Each shape at most once, in the binder's order. */
  predicate Ordered(c: Config)
  {
    forall i, j :: 0 <= i < j < |c| ==> Rank(c[i].shape) < Rank(c[j].shape)
  }

  /** An entry of step one: a polar shape both sides have, freshly bound and
      enabled. */
  predicate PolarEntry(triggers: TriggerGroups, actions: ActionGroups, b: Binding)
  {
    b.shape != Toggle && b.shape in triggers && b.shape in actions
    && b == Fresh(b.shape, triggers[b.shape], actions[b.shape], true)
  }

  /** Every entry is a polar entry for one of the listed shapes. */
  predicate PolarEntries(triggers: TriggerGroups, actions: ActionGroups, shapes: seq<Shape>, c: Config)
  {
    forall i :: 0 <= i < |c| ==> c[i].shape in shapes && PolarEntry(triggers, actions, c[i])
  }

  /** Every listed shape both sides have has an entry. */
  predicate Covers(triggers: TriggerGroups, actions: ActionGroups, shapes: seq<Shape>, c: Config)
  {
    forall s :: s in shapes && s in triggers && s in actions ==> exists i :: 0 <= i < |c| && c[i].shape == s
  }

  lemma {:induction false} PolarBindingsEntries(triggers: TriggerGroups, actions: ActionGroups, shapes: seq<Shape>)
    requires Toggle !in shapes
    ensures PolarEntries(triggers, actions, shapes, PolarBindings(triggers, actions, shapes))
  {
    if shapes != [] {
      var n := |shapes| - 1;
      var prefix := shapes[..n];
      assert forall x :: x in prefix ==> x in shapes;
      PolarBindingsEntries(triggers, actions, prefix);
      var c0 := PolarBindings(triggers, actions, prefix);
      var c := PolarBindings(triggers, actions, shapes);
      assert forall i :: 0 <= i < |c0| ==> c[i] == c0[i];
      assert shapes[n] in shapes;
    }
  }

  lemma {:induction false} PolarBindingsComplete(triggers: TriggerGroups, actions: ActionGroups, shapes: seq<Shape>)
    ensures Covers(triggers, actions, shapes, PolarBindings(triggers, actions, shapes))
  {
    if shapes != [] {
      var n := |shapes| - 1;
      var prefix := shapes[..n];
      PolarBindingsComplete(triggers, actions, prefix);
      var c0 := PolarBindings(triggers, actions, prefix);
      var c := PolarBindings(triggers, actions, shapes);
      assert forall i :: 0 <= i < |c0| ==> c[i] == c0[i];
      forall s | s in shapes && s in triggers && s in actions
        ensures exists i :: 0 <= i < |c| && c[i].shape == s
      {
        if s != shapes[n] {
          var k :| 0 <= k < |shapes| && shapes[k] == s;
          assert prefix[k] == s;
          var i :| 0 <= i < |c0| && c0[i].shape == s;
          assert c[i].shape == s;
        } else {
          assert c[|c0|].shape == s;
        }
      }
    }
  }

  lemma {:induction false} PolarBindingsOrdered(triggers: TriggerGroups, actions: ActionGroups, shapes: seq<Shape>)
    requires forall i, j :: 0 <= i < j < |shapes| ==> Rank(shapes[i]) < Rank(shapes[j])
    requires Toggle !in shapes
    ensures Ordered(PolarBindings(triggers, actions, shapes))
  {
    if shapes != [] {
      var n := |shapes| - 1;
      var prefix := shapes[..n];
      assert forall i :: 0 <= i < n ==> prefix[i] == shapes[i];
      PolarBindingsOrdered(triggers, actions, prefix);
      PolarBindingsEntries(triggers, actions, prefix);
      var c0 := PolarBindings(triggers, actions, prefix);
      var c := PolarBindings(triggers, actions, shapes);
      assert forall i :: 0 <= i < |c0| ==> c[i] == c0[i];
      forall i | 0 <= i < |c0| ensures Rank(c0[i].shape) < Rank(shapes[n]) {
        var k :| 0 <= k < |prefix| && prefix[k] == c0[i].shape;
        assert shapes[k] == c0[i].shape;
      }
    }
  }

  /** Step one over the binder's order: ordered polar entries, with each
      polar shape among them exactly when both sides have it, and never
      `toggle`. */
  lemma PolarStep(triggers: TriggerGroups, actions: ActionGroups)
    ensures Ordered(PolarBindings(triggers, actions, POLAR_ORDER))
    ensures PolarEntries(triggers, actions, POLAR_ORDER, PolarBindings(triggers, actions, POLAR_ORDER))
    ensures forall s :: s != Toggle ==> (Has(PolarBindings(triggers, actions, POLAR_ORDER), s) <==> s in triggers && s in actions)
    ensures !Has(PolarBindings(triggers, actions, POLAR_ORDER), Toggle)
  {
    var polar := PolarBindings(triggers, actions, POLAR_ORDER);
    PolarBindingsEntries(triggers, actions, POLAR_ORDER);
    PolarBindingsComplete(triggers, actions, POLAR_ORDER);
    PolarBindingsOrdered(triggers, actions, POLAR_ORDER);
    forall s | s != Toggle ensures Has(polar, s) <==> s in triggers && s in actions {
      if s in triggers && s in actions {
        assert s in POLAR_ORDER by { assert s == Brightness || s == LeftRight || s == OnOff; }
      }
    }
  }

  /** Every entry takes its trigger group from the source, with reverse off
      and no extra data. */
  predicate FromSource(triggers: TriggerGroups, c: Config)
  {
    forall i :: 0 <= i < |c| ==> (c[i].shape in triggers && c[i].trigger == triggers[c[i].shape]
                                 && c[i].reverse == Some(false) && c[i].extra == map[])
  }

  /** Every polar entry is enabled and performs the destination's actions of
      its own shape. */
  predicate PolarFromDestination(actions: ActionGroups, c: Config)
  {
    forall i :: 0 <= i < |c| && c[i].shape != Toggle ==>
      (c[i].shape in actions && c[i].actions == actions[c[i].shape] && c[i].enabled)
  }

  /** A toggle entry is disabled exactly when `on_off` is bound too, and
      performs the destination's toggle actions, or its on/off actions when
      it has no toggle actions. */
  predicate ToggleEntry(triggers: TriggerGroups, actions: ActionGroups, c: Config)
  {
    forall i :: 0 <= i < |c| && c[i].shape == Toggle ==>
      (c[i].enabled == !(OnOff in triggers && OnOff in actions)
       && ((Toggle in actions && c[i].actions == actions[Toggle])
           || (Toggle !in actions && OnOff in actions && c[i].actions == actions[OnOff])))
  }

  /** The binder emits each shape at most once, in the order brightness,
      left_right, on_off, toggle. */
  lemma BindOrdered(triggers: TriggerGroups, actions: ActionGroups)
    ensures Ordered(Bind(triggers, actions))
  {
    PolarStep(triggers, actions);
    ToggleOrdered(triggers, actions, PolarBindings(triggers, actions, POLAR_ORDER));
  }

  /** Appending `toggle` after ordered polar entries keeps the order. */
  lemma ToggleOrdered(triggers: TriggerGroups, actions: ActionGroups, polar: Config)
    requires Ordered(polar)
    requires forall i :: 0 <= i < |polar| ==> polar[i].shape != Toggle
    ensures Ordered(WithToggle(triggers, actions, polar))
  {
    ToggleAppended(triggers, actions, polar);
    var c := WithToggle(triggers, actions, polar);
    if |c| > |polar| {
      assert forall i :: 0 <= i < |polar| ==> Rank(c[i].shape) < Rank(Toggle);
    }
  }

  /** Every bound entry takes its trigger group from the source, with reverse
      off and no extra data. */
  lemma BindFromSource(triggers: TriggerGroups, actions: ActionGroups)
    ensures FromSource(triggers, Bind(triggers, actions))
  {
    var polar := PolarBindings(triggers, actions, POLAR_ORDER);
    PolarStep(triggers, actions);
    ToggleAppended(triggers, actions, polar);
  }

  /** Step two leaves the polar entries of step one as they are. */
  lemma TogglePolar(triggers: TriggerGroups, actions: ActionGroups, polar: Config)
    requires PolarEntries(triggers, actions, POLAR_ORDER, polar)
    requires forall s :: s != Toggle ==> (Has(polar, s) <==> s in triggers && s in actions)
    ensures forall s :: s != Toggle ==> (Has(WithToggle(triggers, actions, polar), s) <==> s in triggers && s in actions)
    ensures PolarFromDestination(actions, WithToggle(triggers, actions, polar))
  {
    ToggleAppended(triggers, actions, polar);
    var c := WithToggle(triggers, actions, polar);
    forall s | s != Toggle ensures Has(c, s) <==> Has(polar, s) {
      if Has(polar, s) {
        var i := Find(polar, s).value;
        assert c[i].shape == s;
      }
      if Has(c, s) {
        var i := Find(c, s).value;
        assert i < |polar| && polar[i].shape == s;
      }
    }
    forall i | 0 <= i < |c| && c[i].shape != Toggle
      ensures c[i].shape in actions && c[i].actions == actions[c[i].shape] && c[i].enabled
    {
      assert i < |polar| && c[i] == polar[i];
      assert PolarEntry(triggers, actions, polar[i]);
    }
  }

  /** A polar shape is bound exactly when both sides have it, to the
      destination's actions, enabled. */
  lemma BindPolar(triggers: TriggerGroups, actions: ActionGroups)
    ensures forall s :: s != Toggle ==> (Has(Bind(triggers, actions), s) <==> s in triggers && s in actions)
    ensures PolarFromDestination(actions, Bind(triggers, actions))
  {
    PolarStep(triggers, actions);
    TogglePolar(triggers, actions, PolarBindings(triggers, actions, POLAR_ORDER));
  }

  /** `toggle` is bound when both sides have it, disabled exactly when an
      `on_off` entry exists; otherwise, when no `on_off` entry exists, a
      toggle trigger is bound to the destination's `on_off` actions, enabled.
      Only one `toggle` entry can exist. */
  lemma BindToggle(triggers: TriggerGroups, actions: ActionGroups)
    ensures Has(Bind(triggers, actions), Toggle) <==>
              Toggle in triggers && (Toggle in actions || (OnOff in actions && OnOff !in triggers))
    ensures ToggleEntry(triggers, actions, Bind(triggers, actions))
  {
    var polar := PolarBindings(triggers, actions, POLAR_ORDER);
    PolarStep(triggers, actions);
    ToggleAppended(triggers, actions, polar);
    var c := Bind(triggers, actions);
    if Has(c, Toggle) {
      assert c[Find(c, Toggle).value].shape == Toggle;
    }
  }

  /** Every entry has no more triggers than actions, so that every trigger
      index of an entry picks an action. */
  predicate Sized(config: Config)
  {
    forall i :: 0 <= i < |config| && config[i].trigger.Group? ==> |config[i].trigger.triggers| <= |config[i].actions|
  }

  /** Groups of discovery's sizes bind to entries with no more triggers than
      actions: two and two for a polar shape, one trigger against one toggle
      action or against the two on/off actions for the fallback toggle. */
  lemma BindSized(triggers: TriggerGroups, actions: ActionGroups)
    requires TriggerSizes(triggers) && ActionSizes(actions)
    ensures Sized(Bind(triggers, actions))
    ensures forall i :: 0 <= i < |Bind(triggers, actions)| ==> |Bind(triggers, actions)[i].actions| >= 1
  {
    BindFromSource(triggers, actions);
    BindPolar(triggers, actions);
    BindToggle(triggers, actions);
  }
}
