/** The per-shape summary the UI shows (`_serialize_config`, with
    `_safe_yaml`) and the entry list the `quick_automation/list` command
    returns. */
module Summary {
  import opened Values
  import opened Catalog
  import opened Groups
  import opened Binder
  import opened Store

  /** `_safe_yaml(extra)`: the empty string for an empty mapping, otherwise
      the YAML text of the mapping, which the YAML library writes. */
  datatype ExtraText = NoText | YamlOf(data: Extra)

  function SafeYaml(extra: Extra): (r: ExtraText)
    ensures r == NoText <==> extra == map[]
    ensures r.YamlOf? ==> r.data == extra
  {
    if extra == map[] then NoText else YamlOf(extra)
  }

  /** Python's string order: code point by code point, a proper prefix
      first. */
  predicate StrLe(a: string, b: string)
  {
    a == [] || (b != [] && (a[0] < b[0] || (a[0] == b[0] && StrLe(a[1..], b[1..]))))
  }

  lemma {:induction false} StrLeTotal(a: string, b: string)
    ensures StrLe(a, b) || StrLe(b, a)
  {
    if a != [] && b != [] && a[0] == b[0] {
      StrLeTotal(a[1..], b[1..]);
    }
  }

  lemma {:induction false} StrLeTrans(a: string, b: string, c: string)
    requires StrLe(a, b) && StrLe(b, c)
    ensures StrLe(a, c)
  {
    if a != [] && a[0] == b[0] && b[0] == c[0] {
      StrLeTrans(a[1..], b[1..], c[1..]);
    }
  }

  lemma {:induction false} StrLeAntisym(a: string, b: string)
    requires StrLe(a, b) && StrLe(b, a)
    ensures a == b
  {
    if a != [] {
      StrLeAntisym(a[1..], b[1..]);
      assert a == [a[0]] + a[1..] && b == [b[0]] + b[1..];
    }
  }

  /** The order `sorted` uses on the values it can compare: strings by
      `StrLe`, numbers numerically. Values of different kinds, and
      mappings, are not comparable. */
  predicate ValueLe(a: Value, b: Value)
  {
    (a.Str? && b.Str? && StrLe(a.s, b.s)) || (a.Num? && b.Num? && a.n <= b.n)
  }

  predicate AllStr(vs: seq<Value>)
  {
    forall v :: v in vs ==> v.Str?
  }

  predicate AllNum(vs: seq<Value>)
  {
    forall v :: v in vs ==> v.Num?
  }

  predicate Sorted(vs: seq<Value>)
  {
    forall i, j :: 0 <= i < j < |vs| ==> ValueLe(vs[i], vs[j])
  }

  lemma ValueLeTotal(a: Value, b: Value)
    requires (a.Str? && b.Str?) || (a.Num? && b.Num?)
    ensures ValueLe(a, b) || ValueLe(b, a)
  {
    if a.Str? {
      StrLeTotal(a.s, b.s);
    }
  }

  lemma ValueLeTrans(a: Value, b: Value, c: Value)
    requires ValueLe(a, b) && ValueLe(b, c)
    ensures ValueLe(a, c)
  {
    if a.Str? {
      StrLeTrans(a.s, b.s, c.s);
    }
  }

  /** One step of insertion sort. */
  function Insert(x: Value, s: seq<Value>): (r: seq<Value>)
    ensures multiset(r) == multiset(s) + multiset{x}
  {
    if s == [] then [x]
    else if ValueLe(x, s[0]) then [x] + s
    else
      assert s == [s[0]] + s[1..];
      [s[0]] + Insert(x, s[1..])
  }

  /** A sort of the values, comparing with `ValueLe`. */
  function Sort(s: seq<Value>): (r: seq<Value>)
    ensures multiset(r) == multiset(s)
  {
    if s == [] then []
    else
      assert s == [s[0]] + s[1..];
      Insert(s[0], Sort(s[1..]))
  }

  /** A value below every element of a sorted list heads a sorted list. */
  lemma ConsSorted(h: Value, r: seq<Value>)
    requires Sorted(r) && forall y :: y in r ==> ValueLe(h, y)
    ensures Sorted([h] + r)
  {
    forall i, j | 0 <= i < j < |[h] + r| ensures ValueLe(([h] + r)[i], ([h] + r)[j]) {
      assert ([h] + r)[j] == r[j - 1] && r[j - 1] in r;
      if i > 0 {
        assert ([h] + r)[i] == r[i - 1];
      }
    }
  }

  /** Every element of an insertion is the inserted value or came from the
      list. */
  lemma InsertMember(x: Value, s: seq<Value>, y: Value)
    requires y in Insert(x, s)
    ensures y == x || y in s
  {
    assert y in multiset(Insert(x, s));
  }

  /** Inserting a value of the same kind into a sorted list keeps it
      sorted. */
  lemma {:induction false} InsertSorted(x: Value, s: seq<Value>)
    requires Sorted(s) && (AllStr([x] + s) || AllNum([x] + s))
    ensures Sorted(Insert(x, s))
  {
    if s != [] {
      assert x in [x] + s && s[0] in [x] + s;
      if ValueLe(x, s[0]) {
        forall y | y in s ensures ValueLe(x, y) {
          var j :| 0 <= j < |s| && s[j] == y;
          if j > 0 {
            ValueLeTrans(x, s[0], s[j]);
          }
        }
        ConsSorted(x, s);
      } else {
        ValueLeTotal(x, s[0]);
        var tail := s[1..];
        assert forall v :: v in [x] + tail ==> v in [x] + s;
        InsertSorted(x, tail);
        var r := Insert(x, tail);
        forall y | y in r ensures ValueLe(s[0], y) {
          InsertMember(x, tail, y);
          if y != x {
            var j :| 0 <= j < |tail| && tail[j] == y;
            assert s[j + 1] == y;
          }
        }
        ConsSorted(s[0], r);
      }
    }
  }

  /** The sort orders a list of strings, or of numbers. */
  lemma {:induction false} SortSorted(s: seq<Value>)
    requires AllStr(s) || AllNum(s)
    ensures Sorted(Sort(s))
  {
    if s != [] {
      assert s == [s[0]] + s[1..];
      assert forall v :: v in s[1..] ==> v in s;
      SortSorted(s[1..]);
      var t := Sort(s[1..]);
      forall v | v in [s[0]] + t ensures v in s {
        if v != s[0] {
          assert v in multiset(t);
        }
      }
      InsertSorted(s[0], t);
    }
  }

  /** Two sorted lists of the same strings start with the same string. */
  lemma SortedHeads(a: seq<Value>, b: seq<Value>)
    requires Sorted(a) && Sorted(b) && multiset(a) == multiset(b) && AllStr(a) && a != []
    ensures b != [] && a[0] == b[0]
  {
    assert a[0] in multiset(b);
    assert b[0] in multiset(a);
    var i :| 0 <= i < |b| && b[i] == a[0];
    var j :| 0 <= j < |a| && a[j] == b[0];
    assert a[0] in a && a[j] in a;
    if a[0] != b[0] {
      assert ValueLe(b[0], b[i]) && ValueLe(a[0], a[j]);
      StrLeAntisym(a[0].s, b[0].s);
    }
  }

  /** Lists with the same elements and the same head have the same
      remaining elements. */
  lemma TailsAgree(a: seq<Value>, b: seq<Value>)
    requires a != [] && b != [] && a[0] == b[0] && multiset(a) == multiset(b)
    ensures multiset(a[1..]) == multiset(b[1..])
  {
    assert a == [a[0]] + a[1..] && b == [b[0]] + b[1..];
    assert multiset(a) == multiset([a[0]]) + multiset(a[1..]);
    assert multiset(b) == multiset([b[0]]) + multiset(b[1..]);
    forall v ensures multiset(a[1..])[v] == multiset(b[1..])[v] {
      assert multiset(a)[v] == multiset([a[0]])[v] + multiset(a[1..])[v];
    }
  }

  /** Two sorted lists of the same strings are the same list, so the sorted
      order of a list of strings is determined. */
  lemma {:induction false} SortedUnique(a: seq<Value>, b: seq<Value>)
    requires Sorted(a) && Sorted(b) && multiset(a) == multiset(b) && AllStr(a)
    ensures a == b
  {
    if a != [] {
      SortedHeads(a, b);
      TailsAgree(a, b);
      assert forall v :: v in a[1..] ==> v in a;
      SortedUnique(a[1..], b[1..]);
    }
  }

  /** Python's `sorted` on the values: one value or none needs no
      comparison; strings or numbers are sorted; any other list of two or
      more values makes a comparison raise. */
  function SortValues(vs: seq<Value>): Result<seq<Value>>
  {
    if |vs| <= 1 then Ok(vs)
    else if AllStr(vs) || AllNum(vs) then Ok(Sort(vs))
    else Err(Unsortable)
  }

  /** `sorted` returns the values in order, each as often as it was given,
      and raises exactly on two or more values of mixed or unordered
      kinds. */
  lemma SortValuesSpec(vs: seq<Value>)
    ensures SortValues(vs).Err? <==> |vs| >= 2 && !AllStr(vs) && !AllNum(vs)
    ensures SortValues(vs).Ok? ==> Sorted(SortValues(vs).value) && multiset(SortValues(vs).value) == multiset(vs)
  {
    if |vs| >= 2 && (AllStr(vs) || AllNum(vs)) {
      SortSorted(vs);
    }
  }

  /** The descriptor has no field under the key, or there is no key. */
  predicate Lacks(key: Option<string>, d: Descriptor)
  {
    key.None? || key.value !in d
  }

  /** `[x[key] for x in group.get("select", [])]`: the key field of every
      select element, in order. The key is read per element, so an empty or
      missing select list reads nothing. */
  function SelectValues(g: TriggerGroup): (r: Result<seq<Value>>)
    ensures r.Ok? && g.Group? && g.select.Some? ==>
              |r.value| == |g.select.value|
              && forall i :: 0 <= i < |g.select.value| ==>
                   g.key.Some? && g.key.value in g.select.value[i] && r.value[i] == g.select.value[i][g.key.value]
    ensures r.Ok? && (g.Misspelled? || g.select.None?) ==> r.value == []
    ensures r.Err? <==> g.Group? && g.select.Some?
                        && exists i :: 0 <= i < |g.select.value| && Lacks(g.key, g.select.value[i])
  {
    match g
    case Misspelled(_) => Ok([])
    case Group(_, sel, key) =>
      if sel.None? || sel.value == [] then Ok([])
      else if key.None? then
        assert Lacks(g.key, g.select.value[0]);
        Err(MissingKey("key"))
      else FieldValues(sel.value, key.value)
  }

  /** The `key` field of every descriptor, or the error of the first that
      lacks it. */
  function FieldValues(ds: seq<Descriptor>, key: string): (r: Result<seq<Value>>)
    ensures r.Ok? ==> |r.value| == |ds| && forall i :: 0 <= i < |ds| ==> key in ds[i] && r.value[i] == ds[i][key]
    ensures r.Err? ==> r.error == MissingKey(key) && exists i :: 0 <= i < |ds| && key !in ds[i]
  {
    if ds == [] then Ok([])
    else if key !in ds[0] then Err(MissingKey(key))
    else
      match FieldValues(ds[1..], key)
      case Err(e) =>
        ghost var i :| 0 <= i < |ds[1..]| && key !in ds[1..][i];
        assert key !in ds[i + 1];
        Err(e)
      case Ok(rest) =>
        assert forall i :: 0 < i < |ds| ==> ds[1..][i - 1] == ds[i];
        Ok([ds[0][key]] + rest)
  }

  /** `group["triggers"][0][group["key"]] if "key" in group else None`: the
      key field of the current trigger. */
  function HeadValue(g: TriggerGroup): (r: Result<Option<Value>>)
    ensures r == Ok(None) <==> g.Misspelled? || g.key.None?
    ensures r.Ok? && r.value.Some? ==>
              g.Group? && g.key.Some? && |g.triggers| > 0 && g.key.value in g.triggers[0]
              && r.value.value == g.triggers[0][g.key.value]
    ensures r.Err? ==> g.Group? && g.key.Some?
                       && (if g.triggers == [] then r.error == IndexOutOfRange
                           else g.key.value !in g.triggers[0] && r.error == MissingKey(g.key.value))
  {
    match g
    case Misspelled(_) => Ok(None)
    case Group(ts, _, key) =>
      if key.None? then Ok(None)
      else if ts == [] then Err(IndexOutOfRange)
      else if key.value !in ts[0] then Err(MissingKey(key.value))
      else Ok(Some(ts[0][key.value]))
  }

  /** One link of the summary. */
  datatype LinkSummary = LinkSummary(
    kind: string,
    enabled: bool,
    reverse: Option<bool>,
    extra: ExtraText,
    triggers: seq<Value>,
    trigger: Option<Value>)

  /** One element of `_serialize_config`'s comprehension; its fields are
      computed in order, so a failure of `triggers` is the one raised. */
  function SerializeBinding(b: Binding): Result<LinkSummary>
  {
    match SelectValues(b.trigger)
    case Err(e) => Err(e)
    case Ok(vs) =>
      match SortValues(vs)
      case Err(e) => Err(e)
      case Ok(sorted) =>
        match HeadValue(b.trigger)
        case Err(e) => Err(e)
        case Ok(head) => Ok(LinkSummary(ShapeName(b.shape), b.enabled, b.reverse, SafeYaml(b.extra), sorted, head))
  }

  /** `_serialize_config(config)`: one link per entry, in config order. */
  function SerializeConfig(config: Config): Result<seq<LinkSummary>>
  {
    if config == [] then Ok([])
    else
      match SerializeBinding(config[0])
      case Err(e) => Err(e)
      case Ok(link) =>
        match SerializeConfig(config[1..])
        case Err(e) => Err(e)
        case Ok(rest) => Ok([link] + rest)
  }

  /** A summary link names its entry's shape and copies its `enabled` and
      `reverse`; its extra text is empty exactly for empty extra data; its
      `triggers` are the select elements' key values in sorted order; its
      `trigger` is the current trigger's key value when the group has a key,
      and None otherwise. */
  lemma SerializeBindingSpec(b: Binding)
    requires SerializeBinding(b).Ok?
    ensures var l := SerializeBinding(b).value;
            l.kind == ShapeName(b.shape) && l.enabled == b.enabled && l.reverse == b.reverse
            && (l.extra == NoText <==> b.extra == map[])
            && Sorted(l.triggers) && multiset(l.triggers) == multiset(SelectValues(b.trigger).value)
            && (b.trigger.Misspelled? || b.trigger.select.None? ==> l.triggers == [])
            && (l.trigger.None? <==> b.trigger.Misspelled? || b.trigger.key.None?)
            && (l.trigger.Some? ==> l.trigger.value == b.trigger.triggers[0][b.trigger.key.value])
  {
    SortValuesSpec(SelectValues(b.trigger).value);
  }

  /** The summary has exactly one link per config entry, in order, each the
      serialization of its entry; it fails exactly when some entry's
      serialization does. */
  lemma {:induction false} SerializeConfigSpec(config: Config)
    ensures SerializeConfig(config).Ok? <==> forall i :: 0 <= i < |config| ==> SerializeBinding(config[i]).Ok?
    ensures SerializeConfig(config).Ok? ==>
              |SerializeConfig(config).value| == |config|
              && forall i :: 0 <= i < |config| ==> SerializeConfig(config).value[i] == SerializeBinding(config[i]).value
  {
    if config != [] {
      SerializeConfigSpec(config[1..]);
      assert forall i :: 0 < i < |config| ==> config[1..][i - 1] == config[i];
      if SerializeBinding(config[0]).Ok? && SerializeConfig(config[1..]).Ok? {
        var r := SerializeConfig(config).value;
        assert forall i :: 0 < i < |config| ==> r[i] == SerializeConfig(config[1..]).value[i - 1];
      }
    }
  }

  /** A binder entry for a polar shape, which has no select list and no key,
      always serializes, with no listed triggers and no current trigger. */
  lemma PlainGroupSerializes(b: Binding)
    requires b.trigger.Group? && b.trigger.select.None? && b.trigger.key.None?
    ensures SerializeBinding(b).Ok?
    ensures SerializeBinding(b).value.triggers == [] && SerializeBinding(b).value.trigger.None?
  {
  }

  /** One record of the entry list. */
  datatype EntryRecord = EntryRecord(
    entryId: string,
    title: string,
    enabled: bool,
    source: Reference,
    destination: Reference,
    links: seq<LinkSummary>)

  /** The result of `ws_list_entries`: one record per stored entry, in store
      order. */
  function ListEntries(es: seq<Entry>): Result<seq<EntryRecord>>
  {
    if es == [] then Ok([])
    else
      match SerializeConfig(es[0].config)
      case Err(e) => Err(e)
      case Ok(links) =>
        match ListEntries(es[1..])
        case Err(e) => Err(e)
        case Ok(rest) =>
          Ok([EntryRecord(es[0].id, es[0].name, es[0].enabled, es[0].source, es[0].destination, links)] + rest)
  }

  /** The list has one record per entry, in store order, mapping `id`,
      `name`, `enabled`, `source` and `destination` to `entry_id`, `title`,
      `enabled`, `source` and `destination`, with the entry's summary. */
  lemma {:induction false} ListEntriesSpec(es: seq<Entry>)
    requires ListEntries(es).Ok?
    ensures |ListEntries(es).value| == |es|
    ensures forall i :: 0 <= i < |es| ==>
              var r := ListEntries(es).value[i];
              r.entryId == es[i].id && r.title == es[i].name && r.enabled == es[i].enabled
              && r.source == es[i].source && r.destination == es[i].destination
              && SerializeConfig(es[i].config) == Ok(r.links)
  {
    if es != [] {
      ListEntriesSpec(es[1..]);
      var r := ListEntries(es).value;
      assert forall i :: 0 < i < |es| ==> es[1..][i - 1] == es[i] && r[i] == ListEntries(es[1..]).value[i - 1];
    }
  }
}
