/** What discovery reads (a source or destination reference and the host's
    answers about it) and what it produces (trigger and action groups keyed by
    shape). */
module Groups {
  import opened Values
  import opened Catalog

  /** A source or destination as the request carries it: a dictionary with an
      optional `device_id` and an optional `entity_id`; the empty string stands
      for a field that is absent. When both are given the device wins. */
  datatype Reference = Reference(deviceId: string, entityId: string)

  /** The host's answers the engine consumes: the device-automation lists for
      triggers and for actions by device id, and the `supported_features` of
      every entity the entity registry knows. */
  datatype Host = Host(
    deviceTriggers: map<string, seq<Descriptor>>,
    deviceActions: map<string, seq<Descriptor>>,
    features: map<string, nat>)

  /** The automation list of one device; a device the host returns nothing for
      has the empty list. */
  function DeviceList(lists: map<string, seq<Descriptor>>, deviceId: string): seq<Descriptor>
  {
    if deviceId in lists then lists[deviceId] else []
  }

  /** The triggers discovered for one shape. `Group` is the dictionary
      `{triggers, select?, key?}`. `Misspelled` is the entity toggle group,
      which the source stores under the key `trigers`, so it has no
      `triggers`, `select` or `key` entry at all. */
  datatype TriggerGroup =
    | Group(triggers: seq<Descriptor>, select: Option<seq<Descriptor>>, key: Option<string>)
    | Misspelled(trigers: seq<Descriptor>)

  /** A group holding just a list of triggers. */
  function Plain(triggers: seq<Descriptor>): TriggerGroup
  {
    Group(triggers, None, None)
  }

  type TriggerGroups = map<Shape, TriggerGroup>

  /** The actions discovered for each shape (`{shape: {actions: [...]}}`). */
  type ActionGroups = map<Shape, seq<Descriptor>>

  /** The sizes discovery gives trigger groups: at most two triggers for a
      polar shape, at most one for `toggle`. */
  predicate TriggerSizes(t: TriggerGroups)
  {
    forall s :: s in t && t[s].Group? ==> |t[s].triggers| <= (if s == Toggle then 1 else 2)
  }

  /** The sizes discovery gives action groups: two or more actions for a
      polar shape, at least one for `toggle`. */
  predicate ActionSizes(a: ActionGroups)
  {
    forall s :: s in a ==> |a[s]| >= (if s == Toggle then 1 else 2)
  }

  /** An entity-scoped descriptor `{"entity_id": id, field: value}`. */
  function EntityDescriptor(entityId: string, field: string, value: string): Descriptor
  {
    map["entity_id" := Str(entityId), field := Str(value)]
  }
}
