/** The binding-list store: `Component.update_entry` rebuilds one entry from a
    request and applies the user's per-shape overrides, and
    `Component.delete_entry` removes one. Persisting the list and reloading
    the integration are host work and stay outside. */
module Store {
  import opened Values
  import opened Catalog
  import opened Groups
  import opened TriggerDiscovery
  import opened ActionDiscovery
  import opened Binder
  import opened Subscription
  import opened Dispatch

  /** A stored binding entry. */
  datatype Entry = Entry(
    id: string,
    name: string,
    source: Reference,
    destination: Reference,
    enabled: bool,
    config: Config)

  /** One per-shape override of an update request. `kind` is the shape name
      the link is for; `extra` is the already parsed YAML of its extra data;
      `trigger` is the selected trigger's key value, the empty string when
      none is selected. */
  datatype Link = Link(kind: string, enabled: bool, reverse: Option<bool>, extra: Extra, trigger: string)

  /** An update request. `entryId` is empty for a new entry. */
  datatype Request = Request(
    entryId: string,
    title: string,
    source: Reference,
    destination: Reference,
    enabled: bool,
    links: seq<Link>)

  /** The shape a link's `type` names, if any. */
  function ShapeOf(kind: string): (r: Option<Shape>)
    ensures forall s :: r == Some(s) <==> ShapeName(s) == kind
  {
    if kind == "on_off" then Some(OnOff)
    else if kind == "toggle" then Some(Toggle)
    else if kind == "brightness" then Some(Brightness)
    else if kind == "left_right" then Some(LeftRight)
    else None
  }

  /** `build_config`, stated without its calls: triggers of the source, then
      actions of the destination, then the binder. */
  function ConfigFor(source: Reference, destination: Reference, host: Host): Result<Config>
  {
    match TriggerGroupsOf(source, host)
    case Err(e) => Err(e)
    case Ok(t) =>
      match ActionGroupsOf(destination, host)
      case Err(e) => Err(e)
      case Ok(a) => Ok(Bind(t, a))
  }

  method BuildConfig(source: Reference, destination: Reference, host: Host) returns (r: Result<Config>)
    ensures r == ConfigFor(source, destination, host)
  {
    var triggers := LoadTriggers(source, host);
    if triggers.Err? {
      return Err(triggers.error);
    }
    var actions := LoadActions(destination, host);
    if actions.Err? {
      return Err(actions.error);
    }
    var binding := BindTriggerActions(triggers.value, actions.value);
    r := Ok(binding);
  }

  /** Select element `j` has the key field, and it differs from the wanted
      value. */
  predicate Passed(sel: seq<Descriptor>, key: Option<string>, want: string, j: int)
    requires 0 <= j < |sel|
  {
    key.Some? && key.value in sel[j] && sel[j][key.value] != Str(want)
  }

  /** Select element `i` is the first whose key field is the wanted value. */
  predicate Picked(sel: seq<Descriptor>, key: Option<string>, want: string, i: int)
  {
    0 <= i < |sel| && key.Some? && key.value in sel[i] && sel[i][key.value] == Str(want)
    && forall j :: 0 <= j < i ==> Passed(sel, key, want, j)
  }

  /** Select element `j` is the first the scan cannot read: the group has no
      key, or the element lacks the key field. */
  ghost predicate Unreadable(sel: seq<Descriptor>, key: Option<string>, want: string, j: int)
  {
    0 <= j < |sel| && (key.None? || key.value !in sel[j])
    && forall l :: 0 <= l < j ==> Passed(sel, key, want, l)
  }

  /** The scan of `_find_trigger` over the select list: the index of the
      first element whose key field equals the wanted value. Reading the key
      of a group without one, or a field an element lacks, raises. */
  function SelectIndex(sel: seq<Descriptor>, key: Option<string>, want: string): (r: Result<Option<nat>>)
    ensures r.Ok? && r.value.Some? ==> Picked(sel, key, want, r.value.value)
    ensures r == Ok(None) <==> forall j :: 0 <= j < |sel| ==> Passed(sel, key, want, j)
    ensures r.Err? ==> r.error == (if key.None? then MissingKey("key") else MissingKey(key.value))
    ensures r.Err? ==> exists j :: Unreadable(sel, key, want, j)
  {
    if sel == [] then Ok(None)
    else if key.None? then
      assert Unreadable(sel, key, want, 0) && !Passed(sel, key, want, 0);
      Err(MissingKey("key"))
    else if key.value !in sel[0] then
      assert Unreadable(sel, key, want, 0) && !Passed(sel, key, want, 0);
      Err(MissingKey(key.value))
    else if sel[0][key.value] == Str(want) then
      assert !Passed(sel, key, want, 0);
      Ok(Some(0))
    else
      var rest := SelectIndex(sel[1..], key, want);
      assert forall j :: 0 < j < |sel| ==> sel[1..][j - 1] == sel[j];
      assert forall j :: 0 < j < |sel| ==> (Passed(sel[1..], key, want, j - 1) <==> Passed(sel, key, want, j));
      if rest.Err? then
        ghost var j :| Unreadable(sel[1..], key, want, j);
        assert Unreadable(sel, key, want, j + 1) && !Passed(sel, key, want, j + 1);
        rest
      else if rest.value.None? then rest
      else
        assert !Passed(sel, key, want, rest.value.value + 1);
        Ok(Some(rest.value.value + 1))
  }

  /** `_find_trigger(group, want)`: the first select element whose key field
      is `want`, or None. A group without a `select` list raises. */
  function Selected(g: TriggerGroup, want: string): (r: Result<Option<Descriptor>>)
    ensures r.Ok? ==> g.Group? && g.select.Some?
    ensures r.Ok? && r.value.Some? ==>
              exists i :: Picked(g.select.value, g.key, want, i) && r.value.value == g.select.value[i]
  {
    match g
    case Misspelled(_) => Err(MissingKey("select"))
    case Group(_, sel, key) =>
      if sel.None? then Err(MissingKey("select"))
      else match SelectIndex(sel.value, key, want)
        case Err(e) => Err(e)
        case Ok(None) => Ok(None)
        case Ok(Some(i)) => Ok(Some(sel.value[i]))
  }

  /** `_find_trigger`'s loop. */
  method FindTrigger(g: TriggerGroup, want: string) returns (r: Result<Option<Descriptor>>)
    ensures r == Selected(g, want)
  {
    if g.Misspelled? || g.select.None? {
      return Err(MissingKey("select"));
    }
    var sel := g.select.value;
    for i := 0 to |sel|
      invariant forall j :: 0 <= j < i ==> Passed(sel, g.key, want, j)
    {
      if g.key.None? {
        SelectIndexStops(sel, g.key, want, i);
        return Err(MissingKey("key"));
      }
      var k := g.key.value;
      if k !in sel[i] {
        SelectIndexStops(sel, g.key, want, i);
        return Err(MissingKey(k));
      }
      if sel[i][k] == Str(want) {
        SelectIndexStops(sel, g.key, want, i);
        return Ok(Some(sel[i]));
      }
    }
    return Ok(None);
  }

  /** The scan stops at the first element that it cannot read or that
      matches. */
  lemma {:induction false} SelectIndexStops(sel: seq<Descriptor>, key: Option<string>, want: string, i: nat)
    requires i < |sel| && !Passed(sel, key, want, i)
    requires forall j :: 0 <= j < i ==> Passed(sel, key, want, j)
    ensures SelectIndex(sel, key, want)
         == if key.None? then Err(MissingKey("key"))
            else if key.value !in sel[i] then Err(MissingKey(key.value))
            else Ok(Some(i))
  {
    if i > 0 {
      assert Passed(sel, key, want, 0);
      assert forall j :: 0 < j < |sel| ==> sel[1..][j - 1] == sel[j];
      assert forall j :: 0 <= j < i - 1 ==> Passed(sel[1..], key, want, j) by {
        forall j | 0 <= j < i - 1 ensures Passed(sel[1..], key, want, j) {
          assert Passed(sel, key, want, j + 1);
        }
      }
      SelectIndexStops(sel[1..], key, want, i - 1);
    }
  }

  /** One link of `update_entry`: the entry of the shape it names gets the
      link's `enabled`, `reverse` and `extra`, and a selected trigger found in
      the group's select list becomes its only trigger. A link for a shape the
      config does not have changes nothing. */
  function ApplyLink(config: Config, link: Link): Result<Config>
  {
    match ShapeOf(link.kind)
    case None => Ok(config)
    case Some(s) =>
      match Find(config, s)
      case None => Ok(config)
      case Some(i) =>
        var b := config[i].(enabled := link.enabled, reverse := link.reverse, extra := link.extra);
        if link.trigger == "" then Ok(config[i := b])
        else match Selected(b.trigger, link.trigger)
          case Err(e) => Err(e)
          case Ok(None) => Ok(config[i := b])
          case Ok(Some(t)) => Ok(config[i := b.(trigger := b.trigger.(triggers := [t]))])
  }

  /** All links, in request order; the first failure aborts the update. */
  function ApplyLinks(config: Config, links: seq<Link>): Result<Config>
  {
    if links == [] then Ok(config)
    else
      var n := |links| - 1;
      match ApplyLinks(config, links[..n])
      case Err(e) => Err(e)
      case Ok(c) => ApplyLink(c, links[n])
  }

  /** The link loop of `update_entry`. */
  method OverrideLinks(config: Config, links: seq<Link>) returns (r: Result<Config>)
    ensures r == ApplyLinks(config, links)
  {
    var c := config;
    for n := 0 to |links|
      invariant ApplyLinks(config, links[..n]) == Ok(c)
    {
      assert links[..n + 1][..n] == links[..n] && links[..n + 1][n] == links[n];
      var link := links[n];
      var s := ShapeOf(link.kind);
      if s.Some? {
        var i := Find(c, s.value);
        if i.Some? {
          var b := c[i.value].(enabled := link.enabled, reverse := link.reverse, extra := link.extra);
          if link.trigger != "" {
            var t := FindTrigger(b.trigger, link.trigger);
            if t.Err? {
              ApplyLinksAborts(config, links, n + 1);
              return Err(t.error);
            }
            if t.value.Some? {
              b := b.(trigger := b.trigger.(triggers := [t.value.value]));
            }
          }
          c := c[i.value := b];
        }
      }
    }
    assert links[..|links|] == links;
    r := Ok(c);
  }

  /** A failing link aborts the whole update with its error. */
  lemma {:induction false} ApplyLinksAborts(config: Config, links: seq<Link>, n: nat)
    requires n <= |links| && ApplyLinks(config, links[..n]).Err?
    ensures ApplyLinks(config, links) == ApplyLinks(config, links[..n])
  {
    if n < |links| {
      var m := |links| - 1;
      assert links[..m][..n] == links[..n];
      ApplyLinksAborts(config, links[..m], n);
    } else {
      assert links[..n] == links;
    }
  }

  /** Entries `c` and `d` hold the same shapes in the same order. */
  predicate SameShapes(c: Config, d: Config)
  {
    |c| == |d| && forall j :: 0 <= j < |c| ==> c[j].shape == d[j].shape
  }

  /** A link for a shape the config does not have changes nothing. */
  lemma ApplyLinkEffect(config: Config, link: Link)
    requires ApplyLinkTarget(config, link).None?
    ensures ApplyLink(config, link) == Ok(config)
  {
  }

  /** The index of the entry a link overrides, if the config has its shape. */
  function ApplyLinkTarget(config: Config, link: Link): (r: Option<nat>)
    ensures r.Some? ==> r.value < |config| && ShapeName(config[r.value].shape) == link.kind
    ensures r.None? ==> forall j :: 0 <= j < |config| ==> ShapeName(config[j].shape) != link.kind
  {
    match ShapeOf(link.kind)
    case None => None
    case Some(s) => Find(config, s)
  }

  /** A link for a shape the config has sets that entry's user fields, keeps
      its shape and actions, and leaves every other entry as it was; its
      trigger group changes only when the selected value is found, and then
      to the found element alone. */
  lemma ApplyLinkTouches(config: Config, link: Link)
    requires ApplyLinkTarget(config, link).Some? && ApplyLink(config, link).Ok?
    ensures var i := ApplyLinkTarget(config, link).value;
            var c := ApplyLink(config, link).value;
            |c| == |config| && c[i].shape == config[i].shape && c[i].actions == config[i].actions
            && c[i].enabled == link.enabled && c[i].reverse == link.reverse && c[i].extra == link.extra
            && (c[i].trigger == config[i].trigger
                || (link.trigger != "" && Selected(config[i].trigger, link.trigger).Ok?
                    && Selected(config[i].trigger, link.trigger).value.Some?
                    && c[i].trigger == config[i].trigger.(triggers := [Selected(config[i].trigger, link.trigger).value.value])))
    ensures forall j :: 0 <= j < |config| && j != ApplyLinkTarget(config, link).value ==>
              ApplyLink(config, link).value[j] == config[j]
  {
  }

  /** After all links the config has the same shapes in the same order, and
      an entry no link names is exactly as the binder produced it. */
  lemma {:induction false} ApplyLinksShapes(config: Config, links: seq<Link>)
    requires ApplyLinks(config, links).Ok?
    ensures SameShapes(ApplyLinks(config, links).value, config)
    ensures forall j :: 0 <= j < |config| && (forall l :: 0 <= l < |links| ==> links[l].kind != ShapeName(config[j].shape)) ==>
              ApplyLinks(config, links).value[j] == config[j]
  {
    if links != [] {
      var n := |links| - 1;
      ApplyLinksShapes(config, links[..n]);
      var c := ApplyLinks(config, links[..n]).value;
      assert ApplyLinks(config, links) == ApplyLink(c, links[n]);
      match ApplyLinkTarget(c, links[n])
      case None =>
        ApplyLinkEffect(c, links[n]);
      case Some(i) =>
        ApplyLinkTouches(c, links[n]);
        forall j | 0 <= j < |config| && (forall l :: 0 <= l < |links| ==> links[l].kind != ShapeName(config[j].shape))
          ensures ApplyLinks(config, links).value[j] == config[j]
        {
          assert forall l :: 0 <= l < n ==> links[..n][l] == links[l];
          assert links[n].kind != ShapeName(config[j].shape);
        }
    }
  }

  /** What the coordinator relies on in a stored config: one entry per
      shape in the binder's order, no more triggers than actions, and at
      least one action per entry. */
  predicate Servable(c: Config)
  {
    Ordered(c) && Sized(c) && forall i :: 0 <= i < |c| ==> |c[i].actions| >= 1
  }

  /** Every config `build_config` returns is servable. */
  lemma BuiltConfigServable(source: Reference, destination: Reference, host: Host)
    requires ConfigFor(source, destination, host).Ok?
    ensures Servable(ConfigFor(source, destination, host).value)
  {
    TriggerGroupsSized(source, host);
    ActionGroupsSized(destination, host);
    var t := TriggerGroupsOf(source, host).value;
    var a := ActionGroupsOf(destination, host).value;
    BindOrdered(t, a);
    BindSized(t, a);
  }

  /** One link keeps a config servable: shapes and actions stay, and a
      narrowed group holds one trigger against at least one action. */
  lemma ApplyLinkServable(config: Config, link: Link)
    requires Servable(config) && ApplyLink(config, link).Ok?
    ensures Servable(ApplyLink(config, link).value)
  {
    match ApplyLinkTarget(config, link)
    case None =>
      ApplyLinkEffect(config, link);
    case Some(i) =>
      ApplyLinkTouches(config, link);
      var c := ApplyLink(config, link).value;
      assert forall j :: 0 <= j < |c| ==> c[j].shape == config[j].shape && c[j].actions == config[j].actions;
  }

  /** All links keep a config servable. */
  lemma {:induction false} ApplyLinksServable(config: Config, links: seq<Link>)
    requires Servable(config) && ApplyLinks(config, links).Ok?
    ensures Servable(ApplyLinks(config, links).value)
  {
    if links != [] {
      var n := |links| - 1;
      ApplyLinksServable(config, links[..n]);
      ApplyLinkServable(ApplyLinks(config, links[..n]).value, links[n]);
    }
  }

  /** Every entry of the list holds a servable config. */
  predicate ServableEntries(es: seq<Entry>)
  {
    forall k :: 0 <= k < |es| ==> Servable(es[k].config)
  }

  /** `update_entry` stores only servable configs. */
  lemma UpdatedServable(es: seq<Entry>, req: Request, host: Host, newId: string)
    requires ServableEntries(es) && Updated(es, req, host, newId).Ok?
    ensures ServableEntries(Updated(es, req, host, newId).value.1)
  {
    var id := if req.entryId != "" then req.entryId else newId;
    if BuiltEntry(req, host, id).Ok? {
      var c := ConfigFor(req.source, req.destination, host).value;
      BuiltConfigServable(req.source, req.destination, host);
      ApplyLinksServable(c, req.links);
      assert Servable(BuiltEntry(req, host, id).value.config);
    }
  }

  /** `delete_entry` keeps the other entries, so they stay servable. */
  lemma DeletedServable(es: seq<Entry>, id: string)
    requires ServableEntries(es)
    ensures ServableEntries(Deleted(es, id).1)
  {
    match IndexOfId(es, id)
    case None =>
    case Some(i) =>
      var rest := es[..i] + es[i + 1..];
      assert forall j :: 0 <= j < |rest| ==> rest[j] == (if j < i then es[j] else es[j + 1]);
  }

  /** No device-trigger event can make the coordinator of a stored entry
      raise: every slot its dispatch tables hold resolves to an action or to
      nothing. */
  lemma StoredEntryDispatches(es: seq<Entry>, k: nat, enabled: bool, s: Slot)
    requires ServableEntries(es) && k < |es| && TablesFor(es[k].config).Ok?
    requires s in TablesFor(es[k].config).value.triggersMap.Values
             || s in TablesFor(es[k].config).value.statesMap.Values
    ensures DispatchTrigger(enabled, es[k].config, s.shape, s.index).Ok?
  {
    DispatchSafe(enabled, es[k].config, s);
  }

  /** Picking a trigger the summary lists keeps it: when every select element
      has the key field and the user sends back one of the listed values,
      the entry's only trigger afterwards carries that value. */
  lemma PickRoundTrip(g: TriggerGroup, want: string)
    requires g.Group? && g.select.Some? && g.key.Some?
    requires forall j :: 0 <= j < |g.select.value| ==> g.key.value in g.select.value[j]
    requires exists j :: 0 <= j < |g.select.value| && g.select.value[j][g.key.value] == Str(want)
    ensures Selected(g, want).Ok? && Selected(g, want).value.Some?
    ensures g.key.value in Selected(g, want).value.value && Selected(g, want).value.value[g.key.value] == Str(want)
  {
    var sel := g.select.value;
    var j :| 0 <= j < |sel| && sel[j][g.key.value] == Str(want);
    assert !Passed(sel, g.key, want, j);
  }

  /** The index of the first entry with the id: the search loop that
      `update_entry` and `delete_entry` run over the stored list. It is not
      `Binder.Find`, which models the dictionary look-up `config.get(shape)`
      on a config; the two search different lists by different fields. */
  function IndexOfId(es: seq<Entry>, id: string): (r: Option<nat>)
    ensures r.Some? ==> r.value < |es| && es[r.value].id == id && forall j :: 0 <= j < r.value ==> es[j].id != id
    ensures r.None? ==> forall j :: 0 <= j < |es| ==> es[j].id != id
  {
    if es == [] then None
    else if es[0].id == id then Some(0)
    else
      assert forall j :: 0 < j < |es| ==> es[1..][j - 1] == es[j];
      match IndexOfId(es[1..], id)
      case None => None
      case Some(i) => Some(i + 1)
  }

  /** The entry `update_entry` stores: the rebuilt config with the links
      applied, and the request's title, references and flag. */
  function BuiltEntry(req: Request, host: Host, id: string): Result<Entry>
  {
    match ConfigFor(req.source, req.destination, host)
    case Err(e) => Err(e)
    case Ok(c) =>
      match ApplyLinks(c, req.links)
      case Err(e) => Err(e)
      case Ok(linked) => Ok(Entry(id, req.title, req.source, req.destination, req.enabled, linked))
  }

  /** `update_entry`, stated without its loops: the boolean it returns and
      the list it stores. An unknown id returns False before anything is
      built; a known id is replaced at its index; no id appends an entry
      under `newId`, the id the source draws at random. */
  function Updated(es: seq<Entry>, req: Request, host: Host, newId: string): Result<(bool, seq<Entry>)>
  {
    if req.entryId != "" then
      match IndexOfId(es, req.entryId)
      case None => Ok((false, es))
      case Some(i) =>
        match BuiltEntry(req, host, req.entryId)
        case Err(e) => Err(e)
        case Ok(e) => Ok((true, es[i := e]))
    else
      match BuiltEntry(req, host, newId)
      case Err(e) => Err(e)
      case Ok(e) => Ok((true, es + [e]))
  }

  /** `delete_entry`: whether an entry with the id existed, and the list with
      the first such entry removed. */
  function Deleted(es: seq<Entry>, id: string): (bool, seq<Entry>)
  {
    match IndexOfId(es, id)
    case None => (false, es)
    case Some(i) => (true, es[..i] + es[i + 1..])
  }

  predicate UniqueIds(es: seq<Entry>)
  {
    forall i, j :: 0 <= i < j < |es| ==> es[i].id != es[j].id
  }

  /** The stored entry carries the request's fields and the rebuilt config
      with the links applied. */
  lemma BuiltEntryFields(req: Request, host: Host, id: string)
    requires BuiltEntry(req, host, id).Ok?
    ensures var e := BuiltEntry(req, host, id).value;
            e.id == id && e.name == req.title && e.source == req.source
            && e.destination == req.destination && e.enabled == req.enabled
            && ConfigFor(req.source, req.destination, host).Ok?
            && ApplyLinks(ConfigFor(req.source, req.destination, host).value, req.links) == Ok(e.config)
  {
  }

  /** An update naming an id no entry has returns False and changes nothing,
      whatever the request holds. */
  lemma UpdateUnknownId(es: seq<Entry>, req: Request, host: Host, newId: string)
    requires req.entryId != "" && forall j :: 0 <= j < |es| ==> es[j].id != req.entryId
    ensures Updated(es, req, host, newId) == Ok((false, es))
  {
  }

  /** An update of a known id returns True, replaces the first entry with
      that id at the same index by the rebuilt entry, under the same id, and
      keeps every other entry. */
  lemma UpdateReplaces(es: seq<Entry>, req: Request, host: Host, newId: string)
    requires req.entryId != "" && IndexOfId(es, req.entryId).Some?
    requires Updated(es, req, host, newId).Ok?
    ensures Updated(es, req, host, newId).value.0
    ensures |Updated(es, req, host, newId).value.1| == |es|
    ensures Updated(es, req, host, newId).value.1[IndexOfId(es, req.entryId).value] == BuiltEntry(req, host, req.entryId).value
    ensures Updated(es, req, host, newId).value.1[IndexOfId(es, req.entryId).value].id == req.entryId
    ensures forall j :: 0 <= j < |es| && j != IndexOfId(es, req.entryId).value ==>
              Updated(es, req, host, newId).value.1[j] == es[j]
  {
    BuiltEntryFields(req, host, req.entryId);
  }

  /** An update without an id returns True and appends one entry, under the
      new id. */
  lemma UpdateAppends(es: seq<Entry>, req: Request, host: Host, newId: string)
    requires req.entryId == "" && Updated(es, req, host, newId).Ok?
    ensures Updated(es, req, host, newId).value.0
    ensures Updated(es, req, host, newId).value.1 == es + [BuiltEntry(req, host, newId).value]
    ensures Updated(es, req, host, newId).value.1[|es|].id == newId
  {
    BuiltEntryFields(req, host, newId);
  }

  /** A failed rebuild raises and leaves nothing to store; it can happen only
      when an entry is actually being written. */
  lemma UpdateFailure(es: seq<Entry>, req: Request, host: Host, newId: string)
    ensures Updated(es, req, host, newId).Err? <==>
              (req.entryId == "" && BuiltEntry(req, host, newId).Err?)
              || (req.entryId != "" && IndexOfId(es, req.entryId).Some? && BuiltEntry(req, host, req.entryId).Err?)
  {
  }

  /** Ids stay unique when the new id is fresh; the source does not check
      that it is, and a colliding new id duplicates an id. */
  lemma UpdateKeepsIdsUnique(es: seq<Entry>, req: Request, host: Host, newId: string)
    requires UniqueIds(es) && Updated(es, req, host, newId).Ok?
    ensures req.entryId != "" ==> UniqueIds(Updated(es, req, host, newId).value.1)
    ensures req.entryId == "" ==>
              (UniqueIds(Updated(es, req, host, newId).value.1) <==> forall j :: 0 <= j < |es| ==> es[j].id != newId)
  {
    var es' := Updated(es, req, host, newId).value.1;
    if req.entryId == "" {
      BuiltEntryFields(req, host, newId);
      assert es'[|es|].id == newId;
      if !forall j :: 0 <= j < |es| ==> es[j].id != newId {
        var j :| 0 <= j < |es| && es[j].id == newId;
        assert es'[j] == es[j];
      }
    } else if IndexOfId(es, req.entryId).Some? {
      BuiltEntryFields(req, host, req.entryId);
    }
  }

  /** Deleting removes the first entry with the id and keeps the others in
      order; with unique ids no entry with it remains, so deleting again
      returns False. */
  lemma DeleteRemoves(es: seq<Entry>, id: string)
    ensures Deleted(es, id).0 <==> exists j :: 0 <= j < |es| && es[j].id == id
    ensures Deleted(es, id).0 ==> |Deleted(es, id).1| == |es| - 1
    ensures !Deleted(es, id).0 ==> Deleted(es, id).1 == es
    ensures UniqueIds(es) ==> forall j :: 0 <= j < |Deleted(es, id).1| ==> Deleted(es, id).1[j].id != id
    ensures UniqueIds(es) ==> UniqueIds(Deleted(es, id).1) && !Deleted(Deleted(es, id).1, id).0
  {
    match IndexOfId(es, id)
    case None =>
    case Some(i) =>
      var rest := es[..i] + es[i + 1..];
      assert forall j :: 0 <= j < |rest| ==> rest[j] == (if j < i then es[j] else es[j + 1]);
  }

  /** The stored list of binding entries. */
  class EntryStore {
    var entries: seq<Entry>

    constructor(entries: seq<Entry>)
      ensures this.entries == entries
    {
      this.entries := entries;
    }

    /** `update_entry(data)`: the id search, the rebuild, the links and the
        store. A failure raises and stores nothing. */
    method UpdateEntry(req: Request, host: Host, newId: string) returns (r: Result<bool>)
      modifies this
      ensures Updated(old(entries), req, host, newId).Ok? ==>
                r == Ok(Updated(old(entries), req, host, newId).value.0)
                && entries == Updated(old(entries), req, host, newId).value.1
      ensures Updated(old(entries), req, host, newId).Err? ==>
                r == Err(Updated(old(entries), req, host, newId).error) && entries == old(entries)
    {
      var found: Option<nat> := None;
      if req.entryId != "" {
        var i := 0;
        while i < |entries| && entries[i].id != req.entryId
          invariant 0 <= i <= |entries|
          invariant forall j :: 0 <= j < i ==> entries[j].id != req.entryId
        {
          i := i + 1;
        }
        if i == |entries| {
          return Ok(false);
        }
        found := Some(i);
      }
      var id := if req.entryId != "" then req.entryId else newId;
      var config := BuildConfig(req.source, req.destination, host);
      if config.Err? {
        return Err(config.error);
      }
      var linked := OverrideLinks(config.value, req.links);
      if linked.Err? {
        return Err(linked.error);
      }
      var e := Entry(id, req.title, req.source, req.destination, req.enabled, linked.value);
      if found.Some? {
        entries := entries[found.value := e];
      } else {
        entries := entries + [e];
      }
      r := Ok(true);
    }

    /** `delete_entry(entry_id)`. */
    method DeleteEntry(id: string) returns (found: bool)
      modifies this
      ensures (found, entries) == Deleted(old(entries), id)
    {
      for i := 0 to |entries|
        invariant entries == old(entries)
        invariant forall j :: 0 <= j < i ==> entries[j].id != id
      {
        if entries[i].id == id {
          entries := entries[..i] + entries[i + 1..];
          return true;
        }
      }
      return false;
    }
  }
}
