# Quick Automations binding engine, in Dafny

This project models the binding engine of the Quick Automations integration for Home Assistant and proves properties of it.
The engine links a *source* (a device or an entity that fires triggers) to a *destination* (a device or an entity that performs actions) through four semantic shapes: `on_off`, `toggle`, `brightness` and `left_right`.

The model covers:

- **the catalog** of device signatures and entity domains (`catalog.dfy`);
- **the field filter** `_device_triggers` / `_device_trigger` (`filter.dfy`);
- **trigger discovery** `load_triggers` with `_map_binary_sensor` (`triggers.dfy`), and **action discovery** `load_actions` (`actions.dfy`), over the data types in `groups.dfy`;
- **the binder** `bind_trigger_actions` (`binder.dfy`);
- **the dispatch tables** `subscribe` builds, with its `on_state_change` and `on_trigger` listeners (`subscription.dfy`);
- **the dispatch** in `Coordinator.enable`'s `on_trigger`, the data merge of `call_action`, and the coordinator's listener field (`dispatch.dfy`);
- **the entry store** edits `update_entry` / `delete_entry` (`store.dfy`);
- **the UI summary** `_serialize_config`, `_safe_yaml` and the `quick_automation/list` result (`summary.dfy`).

Descriptors are maps from field names to JSON-like values (`Values.Value`).
A Python exception the engine can raise on its data (a `KeyError`, an unpacking `ValueError`, an `IndexError`, a `TypeError` from `sorted` or from a mapping used as a dictionary key) is an `Err` of `Values.Result`. The one exception not modelled is the `ValueError` of `int()` on the host's trigger index (see "Left out").
The host's answers are a `Groups.Host` parameter: the device automation lists and the entity registry's `supported_features`.
Loops of the source are Dafny methods with invariants. Each is proved equal to a function that states the same result without the loop, and the properties are lemmas about those functions.
The entry list, and the coordinator's listener field, are fields of classes whose methods update them.

Where the code and the evident design differ, the model follows the code:

- A polar shape takes the **last** matching catalog pair (every match overwrites). `TriggerDiscovery.PolarGroupShapes` states this.
- The entity toggle trigger group is stored under the misspelled key `trigers`, as `Groups.TriggerGroup.Misspelled`. Any later `["triggers"]` read of it raises, so `subscribe` fails on such a config (`Subscription.SlotsFail`).
- The looser `(entity_id, domain)` state look-up can never hit for the triggers discovery builds, because their states are `on` / `off` (`Subscription.LooseNeverHits`).
- A new entry id is not checked against the stored ids; a colliding id duplicates an id (`Store.UpdateKeepsIdsUnique`).
- A light's `left_right` actions are the brightness `+10` / `-10` step pair (`ActionDiscovery.EntityActionShapes`).
- `load_actions` reads a device's action list without a default. A device the host returns no list for makes the source iterate over `None`, modelled as `Err(NoList)`.
- `load_triggers` reads `x["type"]` of every binary-sensor trigger, so one without a `type` raises (`TriggerDiscovery.DeviceTriggerFailure`).
- `disable` reads `_remove_state_listeners`, which only `enable` assigns, so disabling a coordinator that was never enabled raises (`Dispatch.Coordinator.Disable`).

## Model

| member | source | states |
|---|---|---|
| Values.SplitEntityId | custom_components/quick_automation/coordinator.py:177 | `[domain, name] = id.split(".")` succeeds exactly when the id has one dot, and then gives the parts before and after it |
| Values.DomainOf | custom_components/quick_automation/coordinator.py:323 | `split(".")[0]` is the dot-free text before the first dot, or the whole id when there is no dot |
| Values.SplitDomain | custom_components/quick_automation/coordinator.py:244 | for a well-formed id, the first part of the two-way split is the domain `split(".")[0]` reads |
| DeviceFilter.DeviceTriggersMembers | custom_components/quick_automation/coordinator.py:131-140 | the filter keeps exactly the descriptors whose domain, type and subtype equal every given argument |
| DeviceFilter.DeviceTriggersAppend | custom_components/quick_automation/coordinator.py:131-140 | filtering distributes over concatenation, so it keeps input order |
| DeviceFilter.DeviceTriggersHead | custom_components/quick_automation/coordinator.py:142-144 | the head of the filtered list is the first matching descriptor of the input |
| DeviceFilter.DeviceTriggerIsFirst | custom_components/quick_automation/coordinator.py:142-144 | `_device_trigger` is None exactly when nothing matches, and otherwise the first match; a search naming a field never returns the empty dictionary, so the truthiness test is a presence test |
| TriggerDiscovery.LastMatch | custom_components/quick_automation/coordinator.py:216-220 | the index of a matching pair with no matching pair after it, or None when no pair matches |
| TriggerDiscovery.LastMatchUnique | custom_components/quick_automation/coordinator.py:216-220 | the last matching pair is determined by its contract |
| TriggerDiscovery.WithPairsAppend | custom_components/quick_automation/coordinator.py:223-226 | running the `_ON_OFF_TRIGGERS` loop and then the `_ON_OFF_ACTIONS` loop is running one loop over both tables |
| TriggerDiscovery.WithPairsSnoc | custom_components/quick_automation/coordinator.py:216-220 | one more pair overwrites the shape exactly when both its sides match |
| TriggerDiscovery.WithPairsShape | custom_components/quick_automation/coordinator.py:216-220 | after a pair loop its shape is present exactly when it was before or some pair matches, and then holds the last matching pair; every other shape is left as it was |
| TriggerDiscovery.AddPairs | custom_components/quick_automation/coordinator.py:216-230 | one `for pair in table: _add_pair(...)` loop leaves the shape set from the last matching pair, and otherwise unchanged |
| TriggerDiscovery.TypeMap | custom_components/quick_automation/coordinator.py:148 | `{x["type"]: x}` has every type of the list as a key, and each key names a descriptor of the list with that type |
| TriggerDiscovery.TypeMapSnoc | custom_components/quick_automation/coordinator.py:148 | one more descriptor overwrites the entry of its type |
| TriggerDiscovery.TypeMapLastWins | custom_components/quick_automation/coordinator.py:148 | the last descriptor of a type is the one the map keeps |
| TriggerDiscovery.FirstKeyFailure | custom_components/quick_automation/coordinator.py:148 | the error of the comprehension is that of a descriptor that cannot key the map, with every descriptor before it keyable: a `KeyError` for a missing `type`, a `TypeError` for a mapping |
| TriggerDiscovery.FirstKeyFailureAt | custom_components/quick_automation/coordinator.py:148 | the first descriptor that cannot key the map decides the error |
| TriggerDiscovery.AllTypedSnoc | custom_components/quick_automation/coordinator.py:148 | a list stays keyable by `x["type"]` when a descriptor with a present, non-mapping `type` is appended |
| TriggerDiscovery.BuildTypeMap | custom_components/quick_automation/coordinator.py:147-148 | the comprehension succeeds exactly when every binary-sensor descriptor has a `type` that is not a mapping, and then builds `TypeMap`; otherwise it raises the error of the first descriptor that fails |
| TriggerDiscovery.AddCounterpart | custom_components/quick_automation/coordinator.py:151-154 | one pass of the loop stores [X, no_X] or [X, not_X] for a string type that has a counterpart, and changes nothing otherwise |
| TriggerDiscovery.AddedKey | custom_components/quick_automation/coordinator.py:150-154 | visiting one more type key adds exactly that key's counterpart pair |
| TriggerDiscovery.PairCounterparts | custom_components/quick_automation/coordinator.py:150-154 | the loop over the type map builds the counterpart pairs of every type key |
| TriggerDiscovery.MapBinarySensor | custom_components/quick_automation/coordinator.py:146-155 | `_map_binary_sensor` computes `BinarySensorMap`, failing exactly as the comprehension does |
| TriggerDiscovery.BinarySensorPairs | custom_components/quick_automation/coordinator.py:146-155 | a class X maps to [X, its negation], both binary-sensor descriptors of the device; the negation is `no_X` whenever the device has one, else `not_X` |
| TriggerDiscovery.FirstClass | custom_components/quick_automation/coordinator.py:233-236 | the first class in catalog order that the binary map has, or None when it has none |
| TriggerDiscovery.FindClass | custom_components/quick_automation/coordinator.py:233-236 | the search loop stops at the first class in catalog order that the binary map has, or finds none |
| TriggerDiscovery.AddBinaryFallback | custom_components/quick_automation/coordinator.py:232-236 | the fallback loop sets `on_off` from the first class found, only when `on_off` is not yet set |
| TriggerDiscovery.FallbackOthers | custom_components/quick_automation/coordinator.py:232-236 | the fallback touches no shape but `on_off` |
| TriggerDiscovery.AddToggle | custom_components/quick_automation/coordinator.py:237-242 | the toggle loop computes the fold of its two steps over the toggle table |
| TriggerDiscovery.ToggleFoldOthers | custom_components/quick_automation/coordinator.py:237-242 | the toggle loop changes no shape other than `toggle` |
| TriggerDiscovery.LastPrimary | custom_components/quick_automation/coordinator.py:239-240 | the last pair whose primary signature matches, or None |
| TriggerDiscovery.FirstCounterpart | custom_components/quick_automation/coordinator.py:241-242 | the first pair whose counterpart filter matches anything, or None |
| TriggerDiscovery.ToggleDiscovery | custom_components/quick_automation/coordinator.py:237-242 | the loop's result, stated without the loop: the last primary match wins with `select` its counterparts and key `subtype`; failing that the first non-empty counterpart list gives its first element; failing that no toggle |
| TriggerDiscovery.ExpectedToggleExtends | custom_components/quick_automation/coordinator.py:237-242 | a later matching primary overwrites; a counterpart fallback only fills a toggle still unset |
| TriggerDiscovery.PolarGroupShapes | custom_components/quick_automation/coordinator.py:223-230 | after the four pair loops each polar shape is set exactly when some pair of its table matches, to [first side, second side] of the last matching pair; the on/off tables act as one; `toggle` is not set |
| TriggerDiscovery.DimmersKept | custom_components/quick_automation/coordinator.py:231-242 | the binary-sensor fallback and the toggle loop leave every shape but `on_off` and `toggle` (that is `brightness` and `left_right`) as the pair loops set them |
| TriggerDiscovery.DeviceDimmerTriggers | custom_components/quick_automation/coordinator.py:227-230 | a device source offers `brightness` / `left_right` exactly when a pair of that table matches, with the last matching pair |
| TriggerDiscovery.DeviceOnOffTriggers | custom_components/quick_automation/coordinator.py:223-236 | `on_off` comes from the last matching on/off pair; only when none matches, from the first binary-sensor class in catalog order that has a negation |
| TriggerDiscovery.DeviceToggleTriggers | custom_components/quick_automation/coordinator.py:237-242 | a device source's `toggle` group is the one `ToggleDiscovery` describes over the toggle table |
| TriggerDiscovery.DeviceTriggerFailure | custom_components/quick_automation/coordinator.py:146-148 | device trigger discovery fails exactly when a binary-sensor trigger has no `type` or a mapping as its `type`, and then with that trigger's `KeyError` or `TypeError` |
| TriggerDiscovery.EntityTriggerShapes | custom_components/quick_automation/coordinator.py:243-248 | an entity source offers `on_off` exactly for on/off domains, on states `on`/`off`, and `toggle` exactly for toggle domains, stored under `trigers`; a malformed id fails |
| TriggerDiscovery.WithPairsSized | custom_components/quick_automation/coordinator.py:216-220 | a pair loop stores two triggers under its polar shape, keeping the sizes of the others |
| TriggerDiscovery.BinaryPairsSized | custom_components/quick_automation/coordinator.py:150-154 | every class of the binary-sensor map holds two triggers |
| TriggerDiscovery.FallbackSized | custom_components/quick_automation/coordinator.py:232-236 | the fallback stores a two-trigger pair under `on_off` |
| TriggerDiscovery.ToggleFoldSized | custom_components/quick_automation/coordinator.py:237-242 | the toggle loop stores one trigger under `toggle` |
| TriggerDiscovery.DeviceGroupsSized | custom_components/quick_automation/coordinator.py:212-242 | a device source's groups hold at most two triggers per polar shape and at most one for `toggle` |
| TriggerDiscovery.EntityGroupsSized | custom_components/quick_automation/coordinator.py:243-248 | an entity source's groups hold two triggers for `on_off` and list none for `toggle` |
| TriggerDiscovery.TriggerGroupsSized | custom_components/quick_automation/coordinator.py:208-252 | whatever the source, its trigger groups hold at most two triggers per polar shape and at most one for `toggle` |
| TriggerDiscovery.LoadTriggers | custom_components/quick_automation/coordinator.py:208-252 | `load_triggers` computes the trigger groups of the reference: a device id wins, an entity id is classified by domain, neither gives nothing |
| ActionDiscovery.FirstOfTypeFound | custom_components/quick_automation/coordinator.py:165-166 | a search on `type` finds the first action of that type, and nothing exactly when there is none |
| ActionDiscovery.ActionPairShape | custom_components/quick_automation/coordinator.py:164-168 | `_add_pair` sets the shape exactly when both verbs exist, to [first on action, first off action], and touches no other shape |
| ActionDiscovery.DeviceToggleShape | custom_components/quick_automation/coordinator.py:170-173 | a device offers `toggle` exactly when it has a `toggle` or a `press` action, with the first `toggle` action, else the first `press` action |
| ActionDiscovery.DevicePolarShapes | custom_components/quick_automation/coordinator.py:174-175 | a device offers `on_off` and `brightness` exactly when both verbs exist, as [first on, first off], and never `left_right` |
| ActionDiscovery.EntityActionShapes | custom_components/quick_automation/coordinator.py:176-202 | entity actions by domain: `turn_on`/`turn_off` for on/off domains; the script name, `trigger`, `apply` or `press` for toggle domains; the +10/-10 step pair for a registered light's brightness bit, and the same pair for its colour-temperature bit; a malformed id fails |
| ActionDiscovery.ActionGroupsSized | custom_components/quick_automation/coordinator.py:158-206 | whatever the destination, its action groups hold at least two actions per polar shape and at least one for `toggle` |
| ActionDiscovery.AddActionPair | custom_components/quick_automation/coordinator.py:164-168 | the `_add_pair` closure over the action list |
| ActionDiscovery.LoadActions | custom_components/quick_automation/coordinator.py:158-206 | `load_actions` computes the action groups: a device id wins, a device without a list fails, an entity id is classified by domain and registry features |
| Binder.Find | custom_components/quick_automation/coordinator.py:388 | `config.get(shape)` finds the first entry of that shape, or None when there is none |
| Binder.BindTriggerActions | custom_components/quick_automation/coordinator.py:254-265 | the binder's two steps compute `Bind` |
| Binder.PolarBindingsEntries | custom_components/quick_automation/coordinator.py:256-258 | every entry of step one is a polar shape both sides have, freshly bound and enabled |
| Binder.PolarBindingsComplete | custom_components/quick_automation/coordinator.py:256-258 | every visited shape both sides have gets an entry |
| Binder.PolarBindingsOrdered | custom_components/quick_automation/coordinator.py:256 | step one emits the shapes once each, in the visiting order |
| Binder.PolarStep | custom_components/quick_automation/coordinator.py:256-259 | step one binds a polar shape exactly when both sides have it, in order, and never `toggle` |
| Binder.BindOrdered | custom_components/quick_automation/coordinator.py:254-265 | the binder emits each shape at most once, in the order brightness, left_right, on_off, toggle |
| Binder.BindFromSource | custom_components/quick_automation/coordinator.py:258-264 | every entry takes the source's trigger group of its shape, with `reverse` False and empty `extra` |
| Binder.BindPolar | custom_components/quick_automation/coordinator.py:256-258 | a polar shape is bound exactly when both sides have it, enabled, to the destination's actions of that shape |
| Binder.BindToggle | custom_components/quick_automation/coordinator.py:259-264 | `toggle` is bound exactly when the source has it and the destination has `toggle`, or has `on_off` while no `on_off` entry exists; a direct toggle is enabled exactly when no `on_off` entry exists, the fallback toggle uses the `on_off` actions and is enabled |
| Binder.BindSized | custom_components/quick_automation/coordinator.py:254-265 | groups of discovery's sizes bind to entries with no more triggers than actions, and at least one action each |
| Subscription.GroupSlots | custom_components/quick_automation/coordinator.py:340 | `enumerate` pairs each trigger of a shape with the slot (shape, its index) |
| Subscription.TablesOfSnoc | custom_components/quick_automation/coordinator.py:341-348 | visiting one more trigger adds it to the tables |
| Subscription.Subscribe | custom_components/quick_automation/coordinator.py:339-349 | the nested loops build the tables `TablesFor` describes, or fail as it does |
| Subscription.AddGroup | custom_components/quick_automation/coordinator.py:340-348 | the inner loop adds one entry's triggers to the tables in list order, as `TablesOf` over their slots |
| Subscription.SlotsFail | custom_components/quick_automation/coordinator.py:340 | building the tables fails exactly when some entry's group has no `triggers` entry, with that missing key |
| Subscription.SlotsSound | custom_components/quick_automation/coordinator.py:339-340 | every visited trigger is its entry's trigger at the slot's index |
| Subscription.SlotsComplete | custom_components/quick_automation/coordinator.py:339-340 | every trigger of every entry is visited with its shape and index |
| Subscription.DeviceCount | custom_components/quick_automation/coordinator.py:341-342 | the number of device triggers among the visited ones is at most their number |
| Subscription.DeviceNumbering | custom_components/quick_automation/coordinator.py:341-343 | a device trigger is numbered by the count of device triggers before it; that number holds it in the list and maps to its slot; the numbers are exactly the list positions, and the list holds only device triggers |
| Subscription.DeviceSources | custom_components/quick_automation/coordinator.py:341-343 | every numbered slot is the slot of some device trigger |
| Subscription.StateTable | custom_components/quick_automation/coordinator.py:345-348 | the state table holds a key exactly when an entity trigger has it, mapping to the slot of the last such trigger |
| Subscription.WatchedStates | custom_components/quick_automation/coordinator.py:346-347 | the watched entity ids are exactly those of the entity triggers |
| Subscription.StateChangeFires | custom_components/quick_automation/coordinator.py:321-326 | an unshadowed entity trigger on (e, v) fires its slot when e changes to v from another state, and nothing when the state is unchanged |
| Subscription.StateChangeSilent | custom_components/quick_automation/coordinator.py:321-328 | a change fires nothing when no entity trigger of e names the new state or the domain |
| Subscription.LooseNeverHits | custom_components/quick_automation/coordinator.py:323-328 | with on/off states only, the `(entity_id, domain)` key is never in the table, and every firing is an exact match with a changed state |
| Subscription.DeviceTriggerRoundTrip | custom_components/quick_automation/coordinator.py:330-334 | the event number a device trigger was handed dispatches to that trigger's slot; numbers past the list dispatch nothing |
| Dispatch.DispatchGates | custom_components/quick_automation/coordinator.py:384-399 | a disabled binding, a missing shape or a disabled shape drops the event; otherwise the action at the computed index is called with the shape's `extra`; the only failure is an index past the action list |
| Dispatch.ToggleVerbForced | custom_components/quick_automation/coordinator.py:391-397 | the verb `toggle` is forced exactly on a `toggle` shape with two or more actions, and no verb is forced otherwise |
| Dispatch.ReverseSwaps | custom_components/quick_automation/coordinator.py:393-395 | with two or more actions, `reverse` makes trigger 0 do what trigger 1 does unreversed, and the other way round |
| Dispatch.SingleActionUnchanged | custom_components/quick_automation/coordinator.py:392-399 | with one action the trigger index is used as is: 0 performs it, any other index raises |
| Dispatch.SameShapesFind | custom_components/quick_automation/coordinator.py:388 | `config.get` depends on the shapes alone |
| Dispatch.OrderedFind | custom_components/quick_automation/coordinator.py:388 | in a binder-ordered config the entry of a shape is the one `config.get` returns |
| Dispatch.DispatchSafe | custom_components/quick_automation/coordinator.py:384-399 | every slot the dispatch tables of a binder-ordered config with no more triggers than actions can deliver dispatches without raising |
| Dispatch.DeviceCallMerge | custom_components/quick_automation/coordinator.py:293-305 | a device action's data is action, then extra, then `type`: the forced verb when given, else the action's own type |
| Dispatch.ServiceCallMerge | custom_components/quick_automation/coordinator.py:306-316 | an entity action calls `domain.service` of its own entity id; its data has exactly the keys of the action's own extra, the binding's extra and `entity_id`, the binding's value winning over the action's, and `entity_id` over both; the service is the forced verb or the action's `action` |
| Dispatch.Coordinator.constructor | custom_components/quick_automation/coordinator.py:365-376 | a new coordinator holds its entry's flag and config, and no listeners |
| Dispatch.Coordinator.Enable | custom_components/quick_automation/coordinator.py:378-404 | `enable` resets the listeners, builds the tables of its config and installs them; a failure leaves the field reset |
| Dispatch.Coordinator.Disable | custom_components/quick_automation/coordinator.py:406-408 | `disable` removes installed listeners; on a coordinator never enabled it raises |
| Dispatch.Coordinator.SilentWhenOff | custom_components/quick_automation/coordinator.py:386-387 | a disabled coordinator, or one whose listeners were removed, calls nothing |
| Dispatch.Coordinator.TriggersNeverRaise | custom_components/quick_automation/coordinator.py:384-400 | once enabled on a binder-ordered config with no more triggers than actions, no device-trigger event raises |
| Store.ShapeOf | custom_components/quick_automation/coordinator.py:98 | a link's `type` names a shape exactly when it is that shape's key |
| Store.BuildConfig | custom_components/quick_automation/coordinator.py:283-290 | `build_config` binds the source's trigger groups to the destination's action groups |
| Store.SelectIndex | custom_components/quick_automation/coordinator.py:74-78 | the scan returns the first select element whose key field is the wanted value, None when every element differs, and raises at the first element it cannot read |
| Store.SelectIndexStops | custom_components/quick_automation/coordinator.py:74-78 | the scan stops at the first element that is unreadable or matches |
| Store.Selected | custom_components/quick_automation/coordinator.py:74-78 | `_find_trigger` returns a select element whose key field is the wanted value, and raises on a group without `select` |
| Store.FindTrigger | custom_components/quick_automation/coordinator.py:74-78 | the loop of `_find_trigger` computes `Selected` |
| Store.OverrideLinks | custom_components/quick_automation/coordinator.py:97-104 | the link loop applies the links in request order, stopping at the first failure |
| Store.ApplyLinksAborts | custom_components/quick_automation/coordinator.py:97-104 | a failing link makes the whole update fail with its error |
| Store.ApplyLinkTarget | custom_components/quick_automation/coordinator.py:98 | the entry a link overrides is the one whose shape key is the link's `type`, or none |
| Store.ApplyLinkEffect | custom_components/quick_automation/coordinator.py:98 | a link for a shape the config lacks changes nothing |
| Store.ApplyLinkTouches | custom_components/quick_automation/coordinator.py:98-104 | a link sets its entry's `enabled`, `reverse` and `extra`, keeps its shape and actions, narrows its triggers to the picked select element only when that is found, and leaves every other entry unchanged |
| Store.ApplyLinksShapes | custom_components/quick_automation/coordinator.py:97-104 | the links keep the config's shapes and order, and an entry no link names stays as the binder made it |
| Store.BuiltConfigServable | custom_components/quick_automation/coordinator.py:283-290 | every config `build_config` returns has one entry per shape in binder order, no more triggers than actions, and an action in every entry |
| Store.ApplyLinkServable | custom_components/quick_automation/coordinator.py:98-104 | one link keeps those three properties: shapes and actions stay, a narrowed group holds one trigger |
| Store.ApplyLinksServable | custom_components/quick_automation/coordinator.py:97-104 | the link loop keeps those three properties |
| Store.UpdatedServable | custom_components/quick_automation/coordinator.py:73-106 | `update_entry` stores only such configs |
| Store.DeletedServable | custom_components/quick_automation/coordinator.py:114-123 | `delete_entry` keeps the other entries and their configs |
| Store.StoredEntryDispatches | custom_components/quick_automation/coordinator.py:384-399 | every slot the dispatch tables of a stored entry's config can deliver dispatches without raising |
| Store.PickRoundTrip | custom_components/quick_automation/coordinator.py:102-104 | picking a value the summary lists narrows the triggers to an element carrying that value |
| Store.IndexOfId | custom_components/quick_automation/coordinator.py:82-86 | the index of the first entry with the id, or None when none has it |
| Store.BuiltEntryFields | custom_components/quick_automation/coordinator.py:92-104 | the stored entry carries the request's title, references and flag, and the rebuilt config with the links applied |
| Store.UpdateUnknownId | custom_components/quick_automation/coordinator.py:81-91 | an unknown id returns False and changes nothing |
| Store.UpdateReplaces | custom_components/quick_automation/coordinator.py:81-86 | a known id returns True and replaces the first entry with it in place, under the same id, keeping every other entry |
| Store.UpdateAppends | custom_components/quick_automation/coordinator.py:87-89 | no id returns True and appends one entry under the new id |
| Store.UpdateFailure | custom_components/quick_automation/coordinator.py:92-104 | an update raises exactly when an entry is written and its rebuild fails |
| Store.UpdateKeepsIdsUnique | custom_components/quick_automation/coordinator.py:88-89 | unique ids stay unique on a replace, and on an append exactly when the new id is fresh |
| Store.DeleteRemoves | custom_components/quick_automation/coordinator.py:114-123 | delete returns True exactly when some entry has the id, removes the first one and keeps the rest; with unique ids none is left |
| Store.EntryStore.constructor | custom_components/quick_automation/coordinator.py:67-71 | the store holds the stored entry list |
| Store.EntryStore.UpdateEntry | custom_components/quick_automation/coordinator.py:73-106 | `update_entry` returns and stores what `Updated` gives; a failure stores nothing |
| Store.EntryStore.DeleteEntry | custom_components/quick_automation/coordinator.py:114-123 | `delete_entry` returns and stores what `Deleted` gives |
| Summary.SafeYaml | custom_components/quick_automation/__init__.py:56-59 | the extra text is empty exactly for empty extra data, and otherwise renders that data |
| Summary.StrLeTotal | custom_components/quick_automation/__init__.py:68 | any two strings compare one way or the other |
| Summary.StrLeTrans | custom_components/quick_automation/__init__.py:68 | string order is transitive |
| Summary.StrLeAntisym | custom_components/quick_automation/__init__.py:68 | strings that compare both ways are equal |
| Summary.Insert | custom_components/quick_automation/__init__.py:68 | inserting adds the value once and keeps the others |
| Summary.Sort | custom_components/quick_automation/__init__.py:68 | the sort keeps each value as often as it was given |
| Summary.InsertSorted | custom_components/quick_automation/__init__.py:68 | inserting a value of the same kind into a sorted list keeps it sorted |
| Summary.SortSorted | custom_components/quick_automation/__init__.py:68 | the sort orders a list of strings or of numbers |
| Summary.SortedUnique | custom_components/quick_automation/__init__.py:68 | two sorted lists of the same strings are equal, so the sorted order is determined |
| Summary.SortValuesSpec | custom_components/quick_automation/__init__.py:68 | `sorted` gives the values in order, each as often as given, and raises exactly on two or more values of mixed or unordered kinds |
| Summary.SelectValues | custom_components/quick_automation/__init__.py:68 | the listed values are the select elements' key fields in order, none without `select`; it raises exactly when some element cannot be read |
| Summary.FieldValues | custom_components/quick_automation/__init__.py:68 | the key field of every element in order, or the missing key of the first that lacks it |
| Summary.HeadValue | custom_components/quick_automation/__init__.py:69 | the current trigger is None exactly without a key, otherwise the first trigger's key field; no first trigger or no such field raises |
| Summary.SerializeBindingSpec | custom_components/quick_automation/__init__.py:63-69 | a link names its shape, copies `enabled` and `reverse`, has empty extra text exactly for empty extra, lists the sorted select values and gives the current trigger's key value |
| Summary.SerializeConfigSpec | custom_components/quick_automation/__init__.py:62-71 | the summary has exactly one link per entry, in config order, and fails exactly when some entry's link does |
| Summary.PlainGroupSerializes | custom_components/quick_automation/__init__.py:68-69 | a polar entry always serializes, with no listed triggers and no current trigger |
| Summary.ListEntriesSpec | custom_components/quick_automation/__init__.py:130-137 | the list has one record per stored entry in store order, mapping id, name, enabled, source and destination, with the entry's summary |

## Left out

- Home Assistant's device-automation queries and the entity registry are a `Groups.Host` parameter: the trigger and action lists by device id, and `supported_features` by entity id.
- `_entity_name` and `build_name`: registry look-ups that only produce a display name.
- Installing and removing listeners (`async_track_state_change`, `async_initialize_triggers`, `_remove_listeners`) is host work. The model keeps the tables and an `Installed` / `listening` state, not the host side.
- The `hass.is_running` deferral to `EVENT_HOMEASSISTANT_STARTED` is left out. `Dispatch.Coordinator.Enable` is the enable once the host runs.
- Dispatch.Coordinator.Enable: enabling twice without disabling leaks the first listeners in the source; the model only records the latest tables.
- The device-automation platform call and the service call of `call_action` are foreign. `Dispatch.CallData` is the data handed to them.
- `parse_yaml` and `yaml.dump` are library calls. A link's `extra` is taken as already parsed, and `Summary.SafeYaml` carries the data instead of YAML text.
- `secrets.token_hex(8)` is random, so the new id is the `newId` parameter.
- Persisting the list and reloading the integration (`reload`, `async_update_entry`, entity removal, `setup_config_entry`, the coordinator registry) are host work. `entity_registry.async_remove` in `delete_entry` is left out for the same reason.
- The `BaseEntity` presentation properties, the websocket command schemas and registration, the frontend and the config flow are outside the engine.
- Logging is left out.
- Summary.SortValuesSpec: Python's order on mappings and between strings and numbers is not modelled; every such comparison raises, which is what `sorted` does.
- Summary.SortedUnique: stated for strings only, the type of every `subtype` field.
- Values.Value: numbers are unbounded integers; booleans, floats and `None` inside descriptors are not distinguished.
- Subscription.OnDeviceTrigger: the host's trigger index arrives already converted by `int()`; the `ValueError` that `int()` raises on a non-decimal index is not modelled, since the host echoes the indexes `subscribe` hands it.
- TriggerDiscovery.BinaryPairs: a numeric binary-sensor `type` is never paired; the source would pair `5` with `not_5` and store the pair under the number `5`, which the string-keyed result map does not hold.
