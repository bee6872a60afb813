/** Trigger discovery (`Component.load_triggers` and
    `Component._map_binary_sensor`): which shapes a source can fire, and with
    which raw triggers. */
module TriggerDiscovery {
  import opened Values
  import opened Catalog
  import opened DeviceFilter
  import opened Groups

  // ---------------------------------------------------------------------------
  // Polar pairs: `_add_pair` over a catalog table
  // ---------------------------------------------------------------------------

  /** Both sides of a catalog pair are present in the device's triggers. */
  predicate PairMatches(ts: seq<Descriptor>, p: (Filter, Filter))
  {
    DeviceTrigger(ts, p.0).Some? && DeviceTrigger(ts, p.1).Some?
  }

  /** The stored pair: [first match of the first side, first match of the second]. */
  function PairTriggers(ts: seq<Descriptor>, p: (Filter, Filter)): seq<Descriptor>
    requires PairMatches(ts, p)
  {
    [DeviceTrigger(ts, p.0).value, DeviceTrigger(ts, p.1).value]
  }

  /** The index of the last catalog pair whose both sides match. */
  function LastMatch(ts: seq<Descriptor>, pairs: seq<(Filter, Filter)>): (r: Option<nat>)
    ensures r.Some? ==> r.value < |pairs| && PairMatches(ts, pairs[r.value])
                        && forall j :: r.value < j < |pairs| ==> !PairMatches(ts, pairs[j])
    ensures r.None? ==> forall j :: 0 <= j < |pairs| ==> !PairMatches(ts, pairs[j])
  {
    if pairs == [] then None
    else
      var n := |pairs| - 1;
      if PairMatches(ts, pairs[n]) then Some(n)
      else
        var rest := LastMatch(ts, pairs[..n]);
        NoMatchInPrefix(ts, pairs, n, if rest.Some? then rest.value else -1);
        rest
  }

  /** Pairs past `i` in the first `n` pairs that do not match, together with
      pair `n` that does not match either, leave no match past `i` in the
      first `n + 1` pairs. */
  lemma NoMatchInPrefix(ts: seq<Descriptor>, pairs: seq<(Filter, Filter)>, n: nat, i: int)
    requires n < |pairs| && -1 <= i < n
    requires forall j :: i < j < n ==> !PairMatches(ts, pairs[..n][j])
    requires !PairMatches(ts, pairs[n])
    ensures forall j :: i < j <= n ==> !PairMatches(ts, pairs[j])
  {
    forall j | i < j <= n ensures !PairMatches(ts, pairs[j]) {
      if j < n {
        assert pairs[..n][j] == pairs[j];
      }
    }
  }

  /** The groups after `for pair in pairs: _add_pair(shape, *pair)`: every
      matching pair overwrites the shape, so the last one stays. */
  function WithPairs(m: TriggerGroups, shape: Shape, pairs: seq<(Filter, Filter)>, ts: seq<Descriptor>): TriggerGroups
  {
    match LastMatch(ts, pairs)
    case None => m
    case Some(i) => m[shape := Plain(PairTriggers(ts, pairs[i]))]
  }

  /** Running two tables one after the other is running their concatenation. */
  lemma WithPairsAppend(m: TriggerGroups, shape: Shape, a: seq<(Filter, Filter)>, b: seq<(Filter, Filter)>, ts: seq<Descriptor>)
    ensures WithPairs(WithPairs(m, shape, a, ts), shape, b, ts) == WithPairs(m, shape, a + b, ts)
  {
    if LastMatch(ts, b).Some? {
      AppendMatchInSecond(m, shape, a, b, ts);
    } else {
      LastMatchInFirst(ts, a, b);
    }
  }

  /** WithPairsAppend when the second table matches. */
  lemma AppendMatchInSecond(m: TriggerGroups, shape: Shape, a: seq<(Filter, Filter)>, b: seq<(Filter, Filter)>, ts: seq<Descriptor>)
    requires LastMatch(ts, b).Some?
    ensures WithPairs(WithPairs(m, shape, a, ts), shape, b, ts) == WithPairs(m, shape, a + b, ts)
  {
    var i := LastMatch(ts, b).value;
    LastMatchInSecond(ts, a, b, i);
    assert (a + b)[|a| + i] == b[i];
    var v := Plain(PairTriggers(ts, b[i]));
    assert WithPairs(m, shape, a + b, ts) == m[shape := v];
    SetAfterPairs(m, shape, a, ts, v);
  }

  /** Setting the shape after a pair loop for it is setting it directly. */
  lemma SetAfterPairs(m: TriggerGroups, shape: Shape, pairs: seq<(Filter, Filter)>, ts: seq<Descriptor>, v: TriggerGroup)
    ensures WithPairs(m, shape, pairs, ts)[shape := v] == m[shape := v]
  {
    if LastMatch(ts, pairs).Some? {
      var w := Plain(PairTriggers(ts, pairs[LastMatch(ts, pairs).value]));
      assert m[shape := w][shape := v] == m[shape := v];
    }
  }

  /** The last match in a concatenation is the last one in its second part
      when that has one. */
  lemma LastMatchInSecond(ts: seq<Descriptor>, a: seq<(Filter, Filter)>, b: seq<(Filter, Filter)>, i: nat)
    requires LastMatch(ts, b) == Some(i)
    ensures LastMatch(ts, a + b) == Some(|a| + i)
  {
    var ab := a + b;
    assert ab[|a| + i] == b[i];
    forall j | |a| + i < j < |ab| ensures !PairMatches(ts, ab[j]) {
      assert ab[j] == b[j - |a|];
    }
    LastMatchUnique(ts, ab, |a| + i);
  }

  /** The last match in a concatenation whose second part has none is the
      last one in its first part. */
  lemma LastMatchInFirst(ts: seq<Descriptor>, a: seq<(Filter, Filter)>, b: seq<(Filter, Filter)>)
    requires LastMatch(ts, b).None?
    ensures LastMatch(ts, a + b) == LastMatch(ts, a)
  {
    var ab := a + b;
    forall j | |a| <= j < |ab| ensures !PairMatches(ts, ab[j]) {
      assert ab[j] == b[j - |a|];
    }
    forall j | 0 <= j < |a| ensures PairMatches(ts, ab[j]) == PairMatches(ts, a[j]) {
      assert ab[j] == a[j];
    }
    if LastMatch(ts, a).Some? {
      LastMatchUnique(ts, ab, LastMatch(ts, a).value);
    } else {
      assert LastMatch(ts, ab).None?;
    }
  }

  /** LastMatch is determined by its contract. */
  lemma LastMatchUnique(ts: seq<Descriptor>, pairs: seq<(Filter, Filter)>, i: nat)
    requires i < |pairs| && PairMatches(ts, pairs[i])
    requires forall j :: i < j < |pairs| ==> !PairMatches(ts, pairs[j])
    ensures LastMatch(ts, pairs) == Some(i)
  {
  }

  /** One `for pair in pairs: _add_pair(shape, pair[0], pair[1])` loop. */
  method AddPairs(m: TriggerGroups, shape: Shape, pairs: seq<(Filter, Filter)>, ts: seq<Descriptor>)
    returns (result: TriggerGroups)
    ensures result == WithPairs(m, shape, pairs, ts)
  {
    result := m;
    for i := 0 to |pairs|
      invariant result == WithPairs(m, shape, pairs[..i], ts)
    {
      var t1 := DeviceTrigger(ts, pairs[i].0);
      var t2 := DeviceTrigger(ts, pairs[i].1);
      AddPairStep(m, shape, pairs, ts, i);
      if t1.Some? && t2.Some? {
        result := result[shape := Plain([t1.value, t2.value])];
      }
    }
    assert pairs[..|pairs|] == pairs;
  }

  /** One pass of the pair loop: pair `i` overwrites the shape when both its
      sides match, and otherwise leaves the groups as they were. */
  lemma AddPairStep(m: TriggerGroups, shape: Shape, pairs: seq<(Filter, Filter)>, ts: seq<Descriptor>, i: nat)
    requires i < |pairs|
    ensures WithPairs(m, shape, pairs[..i + 1], ts)
         == if PairMatches(ts, pairs[i]) then WithPairs(m, shape, pairs[..i], ts)[shape := Plain(PairTriggers(ts, pairs[i]))]
            else WithPairs(m, shape, pairs[..i], ts)
  {
    var prefix := pairs[..i + 1];
    assert prefix[..i] == pairs[..i] && prefix[i] == pairs[i];
    WithPairsSnoc(m, shape, prefix, ts);
    if PairMatches(ts, pairs[i]) {
      var before := WithPairs(m, shape, pairs[..i], ts);
      assert before == m || before == m[shape := before[shape]];
    }
  }

  /** One more pair: it overwrites the shape when both its sides match. */
  lemma WithPairsSnoc(m: TriggerGroups, shape: Shape, pairs: seq<(Filter, Filter)>, ts: seq<Descriptor>)
    requires pairs != []
    ensures var n := |pairs| - 1;
            WithPairs(m, shape, pairs, ts) ==
              if PairMatches(ts, pairs[n]) then m[shape := Plain(PairTriggers(ts, pairs[n]))]
              else WithPairs(m, shape, pairs[..n], ts)
  {
  }

  /** `_ON_OFF_TRIGGERS` as searches on the `type` field. */
  function OnOffTriggerPairs(): seq<(Filter, Filter)>
  {
    seq(|ON_OFF_TRIGGERS|, i requires 0 <= i < |ON_OFF_TRIGGERS| =>
      (TypeFilter(ON_OFF_TRIGGERS[i].0), TypeFilter(ON_OFF_TRIGGERS[i].1)))
  }

  /** Every pair searched for `on_off`, in the order the source tries them. */
  function OnOffPairs(): seq<(Filter, Filter)>
  {
    OnOffTriggerPairs() + ON_OFF_ACTIONS
  }

  // ---------------------------------------------------------------------------
  // Binary sensors: `_map_binary_sensor`
  // ---------------------------------------------------------------------------

  const BINARY_SENSOR_FILTER: Filter := Filter("binary_sensor", "", "")

  /** A descriptor `x["type"]` can key a dictionary with: the field exists
      and is not a mapping, which Python cannot hash. */
  predicate Keyable(t: Descriptor)
  {
    "type" in t && !t["type"].Dict?
  }

  predicate AllTyped(ts: seq<Descriptor>)
  {
    forall i :: 0 <= i < |ts| ==> Keyable(ts[i])
  }

  /** What `{x["type"]: x ...}` raises on a descriptor it cannot key by:
      a KeyError for a missing `type`, a TypeError for a mapping. */
  function KeyError(t: Descriptor): Error
  {
    if "type" !in t then MissingKey("type") else Unhashable("type")
  }

  /** The comprehension raises on the first descriptor it cannot key by. */
  function FirstKeyFailure(ts: seq<Descriptor>): (r: Error)
    requires !AllTyped(ts)
    ensures exists i :: 0 <= i < |ts| && !Keyable(ts[i]) && r == KeyError(ts[i])
                        && forall j :: 0 <= j < i ==> Keyable(ts[j])
  {
    if !Keyable(ts[0]) then KeyError(ts[0])
    else
      assert forall i :: 0 <= i < |ts| - 1 ==> ts[1..][i] == ts[i + 1];
      var r := FirstKeyFailure(ts[1..]);
      var i :| 0 <= i < |ts| - 1 && !Keyable(ts[1..][i]) && r == KeyError(ts[1..][i])
                && forall j :: 0 <= j < i ==> Keyable(ts[1..][j]);
      assert forall j :: 0 <= j < i + 1 ==> Keyable(ts[j]) by {
        forall j | 0 < j < i + 1 ensures Keyable(ts[j]) { assert ts[j] == ts[1..][j - 1]; }
      }
      r
  }

  /** The first descriptor that cannot key the map decides the error. */
  lemma {:induction false} FirstKeyFailureAt(ts: seq<Descriptor>, i: nat)
    requires i < |ts| && !Keyable(ts[i]) && forall j :: 0 <= j < i ==> Keyable(ts[j])
    ensures FirstKeyFailure(ts) == KeyError(ts[i])
  {
    var k :| 0 <= k < |ts| && !Keyable(ts[k]) && FirstKeyFailure(ts) == KeyError(ts[k])
              && forall j :: 0 <= j < k ==> Keyable(ts[j]);
    if k != i {
      assert false;
    }
  }

  /** `{x["type"]: x for x in ts}`: every type present is a key, and each key
      names a descriptor of the list that has that type. */
  function TypeMap(ts: seq<Descriptor>): (r: map<Value, Descriptor>)
    requires AllTyped(ts)
    ensures forall i :: 0 <= i < |ts| ==> ts[i]["type"] in r
    ensures forall k :: k in r ==> r[k] in ts && "type" in r[k] && r[k]["type"] == k
  {
    if ts == [] then map[]
    else
      var n := |ts| - 1;
      assert forall i :: 0 <= i < n ==> ts[..n][i] == ts[i];
      var prefix := TypeMap(ts[..n]);
      assert forall x :: x in ts[..n] ==> x in ts;
      prefix[ts[n]["type"] := ts[n]]
  }

  /** One more typed descriptor keeps a typed list typed. */
  lemma AllTypedSnoc(ts: seq<Descriptor>)
    requires ts != [] && AllTyped(ts[..|ts| - 1]) && Keyable(ts[|ts| - 1])
    ensures AllTyped(ts)
  {
    var n := |ts| - 1;
    forall j | 0 <= j < |ts| ensures Keyable(ts[j]) {
      if j < n { assert ts[..n][j] == ts[j]; }
    }
  }

  /** One more descriptor overwrites the entry of its type. */
  lemma TypeMapSnoc(ts: seq<Descriptor>)
    requires ts != [] && AllTyped(ts)
    ensures AllTyped(ts[..|ts| - 1])
    ensures TypeMap(ts) == TypeMap(ts[..|ts| - 1])[ts[|ts| - 1]["type"] := ts[|ts| - 1]]
  {
    var n := |ts| - 1;
    assert forall j :: 0 <= j < n ==> ts[..n][j] == ts[j];
  }

  /** A later descriptor of the same type overwrites an earlier one. */
  lemma {:induction false} TypeMapLastWins(ts: seq<Descriptor>, i: nat)
    requires AllTyped(ts) && i < |ts|
    requires forall j :: i < j < |ts| ==> ts[j]["type"] != ts[i]["type"]
    ensures TypeMap(ts)[ts[i]["type"]] == ts[i]
  {
    var n := |ts| - 1;
    var prefix := ts[..n];
    assert AllTyped(prefix) by {
      forall j | 0 <= j < n ensures Keyable(prefix[j]) { assert prefix[j] == ts[j]; }
    }
    if i < n {
      assert prefix[i] == ts[i];
      assert forall j :: i < j < n ==> prefix[j] == ts[j];
      TypeMapLastWins(prefix, i);
      assert TypeMap(ts) == TypeMap(prefix)[ts[n]["type"] := ts[n]];
    }
  }

  /** The type that pairs with `x` as its negation: `not_x`. */
  function NotKey(x: string): Value { Str("not_" + x) }

  /** The type that pairs with `x` as its negation: `no_x`. */
  function NoKey(x: string): Value { Str("no_" + x) }

  predicate HasCounterpart(tm: map<Value, Descriptor>, k: Value)
  {
    k in tm && k.Str? && (NotKey(k.s) in tm || NoKey(k.s) in tm)
  }

  /** The pair stored for type `k`: the `no_` counterpart wins over `not_`. */
  function CounterpartPair(tm: map<Value, Descriptor>, k: Value): seq<Descriptor>
    requires HasCounterpart(tm, k)
  {
    [tm[k], if NoKey(k.s) in tm then tm[NoKey(k.s)] else tm[NotKey(k.s)]]
  }

  /** The result dictionary restricted to the type keys in `done`. */
  function BinaryPairs(tm: map<Value, Descriptor>, done: set<Value>): map<string, seq<Descriptor>>
  {
    map k | k in done && HasCounterpart(tm, k) :: k.s := CounterpartPair(tm, k)
  }

  /** `_map_binary_sensor`: a binary-sensor descriptor without a `type`, or
      with a mapping as its `type`, raises. */
  function BinarySensorMap(ts: seq<Descriptor>): Result<map<string, seq<Descriptor>>>
  {
    var tList := DeviceTriggers(ts, BINARY_SENSOR_FILTER);
    if AllTyped(tList) then
      var tm := TypeMap(tList);
      Ok(BinaryPairs(tm, tm.Keys))
    else Err(FirstKeyFailure(tList))
  }

  /** A class maps to [its trigger, its negation], both binary-sensor
      descriptors of the device, and the negation is `no_X` whenever the
      device has one. */
  lemma BinarySensorPairs(ts: seq<Descriptor>, x: string)
    requires BinarySensorMap(ts).Ok? && x in BinarySensorMap(ts).value
    ensures var p := BinarySensorMap(ts).value[x];
            |p| == 2 && p[0] in ts && p[1] in ts
            && Matches(p[0], BINARY_SENSOR_FILTER) && Matches(p[1], BINARY_SENSOR_FILTER)
            && "type" in p[0] && "type" in p[1] && p[0]["type"] == Str(x)
            && (p[1]["type"] == NoKey(x)
                || p[1]["type"] == NotKey(x))
    ensures BinarySensorMap(ts).value[x][1]["type"] == NotKey(x) ==>
              forall t :: t in ts && Matches(t, BINARY_SENSOR_FILTER) ==> Get(t, "type") != Some(NoKey(x))
  {
    var tList := DeviceTriggers(ts, BINARY_SENSOR_FILTER);
    var tm := TypeMap(tList);
    assert BinaryPairs(tm, tm.Keys) == BinarySensorMap(ts).value;
    PairOfType(tm, x);
    DeviceTriggersMembers(ts, BINARY_SENSOR_FILTER);
    forall t | t in ts && Matches(t, BINARY_SENSOR_FILTER) ensures "type" in t && t["type"] in tm {
      assert t in tList;
      var i :| 0 <= i < |tList| && tList[i] == t;
    }
  }

  /** The pair of `x` in a type map: two of its descriptors, `x` first, then
      its `no_x` counterpart or, when there is none, its `not_x` one. */
  lemma PairOfType(tm: map<Value, Descriptor>, x: string)
    requires forall k :: k in tm ==> "type" in tm[k] && tm[k]["type"] == k
    requires x in BinaryPairs(tm, tm.Keys)
    ensures var p := BinaryPairs(tm, tm.Keys)[x];
            |p| == 2 && p[0] == tm[Str(x)] && p[1] in tm.Values
            && "type" in p[0] && "type" in p[1] && p[0]["type"] == Str(x)
            && (p[1]["type"] == NoKey(x) || (p[1]["type"] == NotKey(x) && NoKey(x) !in tm))
  {
    var k :| k in tm.Keys && HasCounterpart(tm, k) && k.s == x;
    assert k == Str(x);
    assert BinaryPairs(tm, tm.Keys)[x] == CounterpartPair(tm, k);
    assert NoKey(x) != NotKey(x) by { assert NoKey(x).s[2] != NotKey(x).s[2]; }
  }

  /** One pass of `for key, value in type_map.items()`: add the pair of `k`. */
  method AddCounterpart(tm: map<Value, Descriptor>, k: Value, result: map<string, seq<Descriptor>>)
    returns (r: map<string, seq<Descriptor>>)
    requires k in tm
    ensures k.Str? && HasCounterpart(tm, k) ==> r == result[k.s := CounterpartPair(tm, k)]
    ensures !HasCounterpart(tm, k) ==> r == result
  {
    r := result;
    if k.Str? {
      if NotKey(k.s) in tm {
        r := r[k.s := [tm[k], tm[NotKey(k.s)]]];
      }
      if NoKey(k.s) in tm {
        r := r[k.s := [tm[k], tm[NoKey(k.s)]]];
      }
    }
  }

  method MapBinarySensor(ts: seq<Descriptor>) returns (r: Result<map<string, seq<Descriptor>>>)
    ensures r == BinarySensorMap(ts)
  {
    var tList := DeviceTriggers(ts, BINARY_SENSOR_FILTER);
    var typeMap := BuildTypeMap(tList);
    if typeMap.Err? {
      return Err(typeMap.error);
    }
    var result := PairCounterparts(typeMap.value);
    r := Ok(result);
  }

  /** The dictionary comprehension of `_map_binary_sensor`, entry by entry. */
  method BuildTypeMap(tList: seq<Descriptor>) returns (r: Result<map<Value, Descriptor>>)
    ensures r.Ok? <==> AllTyped(tList)
    ensures r.Ok? ==> AllTyped(tList) && r.value == TypeMap(tList)
    ensures r.Err? ==> !AllTyped(tList) && r.error == FirstKeyFailure(tList)
  {
    var typeMap: map<Value, Descriptor> := map[];
    for i := 0 to |tList|
      invariant AllTyped(tList[..i]) && typeMap == TypeMap(tList[..i])
    {
      if !Keyable(tList[i]) {
        assert forall j :: 0 <= j < i ==> tList[..i][j] == tList[j];
        FirstKeyFailureAt(tList, i);
        return Err(KeyError(tList[i]));
      }
      assert tList[..i + 1][..i] == tList[..i];
      AllTypedSnoc(tList[..i + 1]);
      TypeMapSnoc(tList[..i + 1]);
      typeMap := typeMap[tList[i]["type"] := tList[i]];
    }
    assert tList[..|tList|] == tList;
    r := Ok(typeMap);
  }

  /** The second loop of `_map_binary_sensor`, over the type map's entries. */
  method PairCounterparts(typeMap: map<Value, Descriptor>) returns (result: map<string, seq<Descriptor>>)
    ensures result == BinaryPairs(typeMap, typeMap.Keys)
  {
    result := map[];
    var todo := typeMap.Keys;
    while todo != {}
      invariant todo <= typeMap.Keys
      invariant result == BinaryPairs(typeMap, typeMap.Keys - todo)
      decreases |todo|
    {
      var k :| k in todo;
      var done := typeMap.Keys - todo;
      result := AddCounterpart(typeMap, k, result);
      todo := todo - {k};
      assert typeMap.Keys - todo == done + {k};
      AddedKey(typeMap, done, k);
    }
  }

  lemma AddedKey(tm: map<Value, Descriptor>, done: set<Value>, k: Value)
    requires k !in done
    ensures HasCounterpart(tm, k) ==> BinaryPairs(tm, done + {k}) == BinaryPairs(tm, done)[k.s := CounterpartPair(tm, k)]
    ensures !HasCounterpart(tm, k) ==> BinaryPairs(tm, done + {k}) == BinaryPairs(tm, done)
  {
    var before := BinaryPairs(tm, done);
    var after := BinaryPairs(tm, done + {k});
    if HasCounterpart(tm, k) {
      assert k.s in after;
      forall s | s in after ensures s in before || s == k.s {
        var v :| v in done + {k} && HasCounterpart(tm, v) && v.s == s;
      }
    } else {
      forall s | s in after ensures s in before {
        var v :| v in done + {k} && HasCounterpart(tm, v) && v.s == s;
      }
    }
  }

  // ---------------------------------------------------------------------------
  // Binary-sensor fallback for `on_off`
  // ---------------------------------------------------------------------------

  /** The index of the first class, in catalog order, that the map has. */
  function FirstClass(bm: map<string, seq<Descriptor>>, classes: seq<string>): (r: Option<nat>)
    ensures r.Some? ==> r.value < |classes| && classes[r.value] in bm
                        && forall j :: 0 <= j < r.value ==> classes[j] !in bm
    ensures r.None? ==> forall j :: 0 <= j < |classes| ==> classes[j] !in bm
  {
    if classes == [] then None
    else if classes[0] in bm then Some(0)
    else
      assert forall j :: 0 < j < |classes| ==> classes[1..][j - 1] == classes[j];
      match FirstClass(bm, classes[1..])
      case None => None
      case Some(i) => Some(i + 1)
  }

  /** `if "on_off" not in result: for item in _BINARY_SENSOR_TRIGGERS: ...`. */
  function WithBinaryFallback(m: TriggerGroups, bm: map<string, seq<Descriptor>>): TriggerGroups
  {
    if OnOff in m then m
    else match FirstClass(bm, BINARY_SENSOR_TRIGGERS)
      case None => m
      case Some(i) => m[OnOff := Plain(bm[BINARY_SENSOR_TRIGGERS[i]])]
  }

  /** The first class the map has is the one at `i` when none before it is. */
  lemma FirstClassAt(bm: map<string, seq<Descriptor>>, classes: seq<string>, i: nat)
    requires i < |classes| && classes[i] in bm
    requires forall j :: 0 <= j < i ==> classes[j] !in bm
    ensures FirstClass(bm, classes) == Some(i)
  {
  }

  /** The fallback touches no shape but `on_off`. */
  lemma FallbackOthers(m: TriggerGroups, bm: map<string, seq<Descriptor>>)
    ensures forall s :: s != OnOff ==> (s in WithBinaryFallback(m, bm) <==> s in m)
    ensures forall s :: s != OnOff && s in m ==> WithBinaryFallback(m, bm)[s] == m[s]
  {
  }

  method AddBinaryFallback(m: TriggerGroups, bm: map<string, seq<Descriptor>>) returns (result: TriggerGroups)
    ensures result == WithBinaryFallback(m, bm)
  {
    result := m;
    if OnOff !in result {
      var found := FindClass(bm, BINARY_SENSOR_TRIGGERS);
      if found.Some? {
        result := result[OnOff := Plain(bm[BINARY_SENSOR_TRIGGERS[found.value]])];
      }
    }
  }

  /** `for item in _BINARY_SENSOR_TRIGGERS: if item in bs_map: ... break`. */
  method FindClass(bm: map<string, seq<Descriptor>>, classes: seq<string>) returns (r: Option<nat>)
    ensures r == FirstClass(bm, classes)
  {
    for i := 0 to |classes|
      invariant forall j :: 0 <= j < i ==> classes[j] !in bm
    {
      if classes[i] in bm {
        FirstClassAt(bm, classes, i);
        return Some(i);
      }
    }
    return None;
  }

  // ---------------------------------------------------------------------------
  // Toggle
  // ---------------------------------------------------------------------------

  /** The toggle group: one chosen trigger, every counterpart as the choice
      list, and `subtype` as the field that tells them apart. */
  function ToggleGroup(t: Descriptor, select: seq<Descriptor>): TriggerGroup
  {
    Group([t], Some(select), Some("subtype"))
  }

  /** One pass of `for pair in _TOGGLE_ACTIONS`. */
  function ToggleStep(m: TriggerGroups, ts: seq<Descriptor>, p: (Filter, Filter)): TriggerGroups
  {
    var actions := DeviceTriggers(ts, p.1);
    var m1 := match DeviceTrigger(ts, p.0)
      case Some(t) => m[Toggle := ToggleGroup(t, actions)]
      case None => m;
    if Toggle !in m1 && |actions| > 0 then m1[Toggle := ToggleGroup(actions[0], actions)] else m1
  }

  function ToggleFold(m: TriggerGroups, ts: seq<Descriptor>, pairs: seq<(Filter, Filter)>): TriggerGroups
  {
    if pairs == [] then m
    else ToggleStep(ToggleFold(m, ts, pairs[..|pairs| - 1]), ts, pairs[|pairs| - 1])
  }

  method AddToggle(m: TriggerGroups, ts: seq<Descriptor>, pairs: seq<(Filter, Filter)>) returns (result: TriggerGroups)
    ensures result == ToggleFold(m, ts, pairs)
  {
    result := m;
    for i := 0 to |pairs|
      invariant result == ToggleFold(m, ts, pairs[..i])
    {
      assert pairs[..i + 1][..i] == pairs[..i];
      var actions := DeviceTriggers(ts, pairs[i].1);
      var t := DeviceTrigger(ts, pairs[i].0);
      if t.Some? {
        result := result[Toggle := ToggleGroup(t.value, actions)];
      }
      if Toggle !in result && |actions| > 0 {
        result := result[Toggle := ToggleGroup(actions[0], actions)];
      }
    }
    assert pairs[..|pairs|] == pairs;
  }

  /** The toggle loop touches no other shape. */
  lemma {:induction false} ToggleFoldOthers(m: TriggerGroups, ts: seq<Descriptor>, pairs: seq<(Filter, Filter)>)
    ensures forall s :: s != Toggle ==> (s in ToggleFold(m, ts, pairs) <==> s in m)
    ensures forall s :: s != Toggle && s in m ==> ToggleFold(m, ts, pairs)[s] == m[s]
  {
    if pairs != [] {
      ToggleFoldOthers(m, ts, pairs[..|pairs| - 1]);
    }
  }

  /** The index of the last pair whose primary signature matches. */
  function LastPrimary(ts: seq<Descriptor>, pairs: seq<(Filter, Filter)>): (r: Option<nat>)
    ensures r.Some? ==> r.value < |pairs| && DeviceTrigger(ts, pairs[r.value].0).Some?
                        && forall j :: r.value < j < |pairs| ==> DeviceTrigger(ts, pairs[j].0).None?
    ensures r.None? ==> forall j :: 0 <= j < |pairs| ==> DeviceTrigger(ts, pairs[j].0).None?
  {
    if pairs == [] then None
    else
      var n := |pairs| - 1;
      if DeviceTrigger(ts, pairs[n].0).Some? then Some(n)
      else
        var r := LastPrimary(ts, pairs[..n]);
        NoPrimaryInPrefix(ts, pairs, n, if r.Some? then r.value else -1);
        r
  }

  /** NoMatchInPrefix for the primary side alone. */
  lemma NoPrimaryInPrefix(ts: seq<Descriptor>, pairs: seq<(Filter, Filter)>, n: nat, i: int)
    requires n < |pairs| && -1 <= i < n
    requires forall j :: i < j < n ==> DeviceTrigger(ts, pairs[..n][j].0).None?
    requires DeviceTrigger(ts, pairs[n].0).None?
    ensures forall j :: i < j <= n ==> DeviceTrigger(ts, pairs[j].0).None?
  {
    forall j | i < j <= n ensures DeviceTrigger(ts, pairs[j].0).None? {
      if j < n {
        assert pairs[..n][j] == pairs[j];
      }
    }
  }

  /** Pairs before `k` in the first `n` pairs whose counterparts match
      nothing are pairs before `k` whose counterparts match nothing. */
  lemma NoCounterpartInPrefix(ts: seq<Descriptor>, pairs: seq<(Filter, Filter)>, n: nat, k: nat)
    requires k <= n <= |pairs|
    requires forall j :: 0 <= j < k ==> DeviceTriggers(ts, pairs[..n][j].1) == []
    ensures forall j :: 0 <= j < k ==> DeviceTriggers(ts, pairs[j].1) == []
  {
    forall j | 0 <= j < k ensures DeviceTriggers(ts, pairs[j].1) == [] {
      assert pairs[..n][j] == pairs[j];
    }
  }

  /** The index of the first pair whose counterpart filter matches anything. */
  function FirstCounterpart(ts: seq<Descriptor>, pairs: seq<(Filter, Filter)>): (r: Option<nat>)
    ensures r.Some? ==> r.value < |pairs| && |DeviceTriggers(ts, pairs[r.value].1)| > 0
                        && forall j :: 0 <= j < r.value ==> DeviceTriggers(ts, pairs[j].1) == []
    ensures r.None? ==> forall j :: 0 <= j < |pairs| ==> DeviceTriggers(ts, pairs[j].1) == []
  {
    if pairs == [] then None
    else
      var n := |pairs| - 1;
      var r := FirstCounterpart(ts, pairs[..n]);
      NoCounterpartInPrefix(ts, pairs, n, if r.Some? then r.value else n);
      if r.Some? then
        assert pairs[..n][r.value] == pairs[r.value];
        r
      else if |DeviceTriggers(ts, pairs[n].1)| > 0 then Some(n)
      else None
  }

  /** What the toggle loop leaves, stated without the loop: the last pair
      whose primary side matches wins; failing that, the first non-empty
      counterpart list supplies its first element. */
  function ExpectedToggle(ts: seq<Descriptor>, pairs: seq<(Filter, Filter)>): Option<TriggerGroup>
  {
    match LastPrimary(ts, pairs)
    case Some(j) => Some(ToggleGroup(DeviceTrigger(ts, pairs[j].0).value, DeviceTriggers(ts, pairs[j].1)))
    case None =>
      match FirstCounterpart(ts, pairs)
      case Some(i) => Some(ToggleGroup(DeviceTriggers(ts, pairs[i].1)[0], DeviceTriggers(ts, pairs[i].1)))
      case None => None
  }

  lemma {:induction false} ToggleDiscovery(m: TriggerGroups, ts: seq<Descriptor>, pairs: seq<(Filter, Filter)>)
    requires Toggle !in m
    ensures ToggleFold(m, ts, pairs) == match ExpectedToggle(ts, pairs)
                                        case None => m
                                        case Some(g) => m[Toggle := g]
  {
    if pairs != [] {
      var n := |pairs| - 1;
      ToggleDiscovery(m, ts, pairs[..n]);
      ExpectedToggleExtends(ts, pairs);
    }
  }

  /** Appending a pair: a matching primary side wins outright; otherwise the
      expected group of the earlier pairs stays, or the new pair's
      counterparts supply it when the earlier pairs had none. */
  lemma ExpectedToggleExtends(ts: seq<Descriptor>, pairs: seq<(Filter, Filter)>)
    requires pairs != []
    ensures var n := |pairs| - 1;
            var actions := DeviceTriggers(ts, pairs[n].1);
            ExpectedToggle(ts, pairs) ==
              match DeviceTrigger(ts, pairs[n].0)
              case Some(t) => Some(ToggleGroup(t, actions))
              case None =>
                if ExpectedToggle(ts, pairs[..n]).Some? then ExpectedToggle(ts, pairs[..n])
                else if |actions| > 0 then Some(ToggleGroup(actions[0], actions))
                else None
  {
    var n := |pairs| - 1;
    var prefix := pairs[..n];
    match LastPrimary(ts, prefix)
    case Some(j) =>
      assert prefix[j] == pairs[j];
    case None =>
      match FirstCounterpart(ts, prefix)
      case Some(i) =>
        assert prefix[i] == pairs[i];
      case None =>
  }

  // ---------------------------------------------------------------------------
  // load_triggers
  // ---------------------------------------------------------------------------

  /** The trigger groups of a device, from its trigger list. */
  function DeviceTriggerGroups(ts: seq<Descriptor>): Result<TriggerGroups>
  {
    match BinarySensorMap(ts)
    case Err(e) => Err(e)
    case Ok(bm) => Ok(ToggleFold(WithBinaryFallback(PolarGroups(ts), bm), ts, TOGGLE_ACTIONS))
  }

  /** The groups after the four `_add_pair` loops. */
  function PolarGroups(ts: seq<Descriptor>): TriggerGroups
  {
    var m1 := WithPairs(map[], OnOff, OnOffTriggerPairs(), ts);
    var m2 := WithPairs(m1, OnOff, ON_OFF_ACTIONS, ts);
    var m3 := WithPairs(m2, Brightness, BRIGHTNESS_ACTIONS, ts);
    WithPairs(m3, LeftRight, LEFT_RIGHT_ACTIONS, ts)
  }

  /** The four pair loops set each polar shape from its last matching pair,
      reading the on/off tables as one, and never set `toggle`. */
  lemma PolarGroupShapes(ts: seq<Descriptor>)
    ensures var r := PolarGroups(ts);
            && Toggle !in r
            && (Brightness in r <==> LastMatch(ts, BRIGHTNESS_ACTIONS).Some?)
            && (Brightness in r ==> r[Brightness] == Plain(PairTriggers(ts, BRIGHTNESS_ACTIONS[LastMatch(ts, BRIGHTNESS_ACTIONS).value])))
            && (LeftRight in r <==> LastMatch(ts, LEFT_RIGHT_ACTIONS).Some?)
            && (LeftRight in r ==> r[LeftRight] == Plain(PairTriggers(ts, LEFT_RIGHT_ACTIONS[LastMatch(ts, LEFT_RIGHT_ACTIONS).value])))
            && (OnOff in r <==> LastMatch(ts, OnOffPairs()).Some?)
            && (OnOff in r ==> r[OnOff] == Plain(PairTriggers(ts, OnOffPairs()[LastMatch(ts, OnOffPairs()).value])))
  {
    FourLoops(ts, OnOffTriggerPairs(), ON_OFF_ACTIONS, BRIGHTNESS_ACTIONS, LEFT_RIGHT_ACTIONS);
  }

  /** PolarGroupShapes over any four tables. */
  lemma FourLoops(ts: seq<Descriptor>, a: seq<(Filter, Filter)>, b: seq<(Filter, Filter)>,
                  c: seq<(Filter, Filter)>, d: seq<(Filter, Filter)>)
    ensures var r := WithPairs(WithPairs(WithPairs(WithPairs(map[], OnOff, a, ts), OnOff, b, ts), Brightness, c, ts), LeftRight, d, ts);
            && Toggle !in r
            && (Brightness in r <==> LastMatch(ts, c).Some?)
            && (Brightness in r ==> r[Brightness] == Plain(PairTriggers(ts, c[LastMatch(ts, c).value])))
            && (LeftRight in r <==> LastMatch(ts, d).Some?)
            && (LeftRight in r ==> r[LeftRight] == Plain(PairTriggers(ts, d[LastMatch(ts, d).value])))
            && (OnOff in r <==> LastMatch(ts, a + b).Some?)
            && (OnOff in r ==> r[OnOff] == Plain(PairTriggers(ts, (a + b)[LastMatch(ts, a + b).value])))
  {
    var m1 := WithPairs(map[], OnOff, a, ts);
    var m2 := WithPairs(m1, OnOff, b, ts);
    var m3 := WithPairs(m2, Brightness, c, ts);
    WithPairsAppend(map[], OnOff, a, b, ts);
    WithPairsShape(map[], OnOff, a + b, ts);
    WithPairsShape(m2, Brightness, c, ts);
    WithPairsShape(m3, LeftRight, d, ts);
  }

  /** A pair loop sets its own shape when a pair matches and touches no
      other shape. */
  lemma WithPairsShape(m: TriggerGroups, shape: Shape, pairs: seq<(Filter, Filter)>, ts: seq<Descriptor>)
    ensures var r := WithPairs(m, shape, pairs, ts);
            && (forall s :: s != shape ==> (s in r <==> s in m) && (s in m ==> r[s] == m[s]))
            && (shape in r <==> shape in m || LastMatch(ts, pairs).Some?)
            && (LastMatch(ts, pairs).Some? ==> r[shape] == Plain(PairTriggers(ts, pairs[LastMatch(ts, pairs).value])))
            && (LastMatch(ts, pairs).None? ==> r == m)
  {
  }

  /** What a device source can fire on `brightness` and `left_right`: the
      last catalog pair whose both sides match. */
  lemma DeviceDimmerTriggers(ts: seq<Descriptor>)
    requires DeviceTriggerGroups(ts).Ok?
    ensures var r := DeviceTriggerGroups(ts).value;
            && (Brightness in r <==> LastMatch(ts, BRIGHTNESS_ACTIONS).Some?)
            && (Brightness in r ==> r[Brightness] == Plain(PairTriggers(ts, BRIGHTNESS_ACTIONS[LastMatch(ts, BRIGHTNESS_ACTIONS).value])))
            && (LeftRight in r <==> LastMatch(ts, LEFT_RIGHT_ACTIONS).Some?)
            && (LeftRight in r ==> r[LeftRight] == Plain(PairTriggers(ts, LEFT_RIGHT_ACTIONS[LastMatch(ts, LEFT_RIGHT_ACTIONS).value])))
  {
    DimmersKept(ts);
    PolarGroupShapes(ts);
  }

  /** The binary-sensor fallback and the toggle loop leave the dimmer shapes
      as the pair loops set them. */
  lemma DimmersKept(ts: seq<Descriptor>)
    requires DeviceTriggerGroups(ts).Ok?
    ensures forall s :: s != OnOff && s != Toggle ==>
              (s in DeviceTriggerGroups(ts).value <==> s in PolarGroups(ts))
              && (s in PolarGroups(ts) ==> DeviceTriggerGroups(ts).value[s] == PolarGroups(ts)[s])
  {
    DeviceGroupsSteps(ts);
    LaterStepsKeep(PolarGroups(ts), BinarySensorMap(ts).value, ts);
  }

  /** A device's groups are the pair loops, then the fallback, then the
      toggle loop. */
  lemma DeviceGroupsSteps(ts: seq<Descriptor>)
    requires DeviceTriggerGroups(ts).Ok?
    ensures BinarySensorMap(ts).Ok?
    ensures DeviceTriggerGroups(ts).value
            == ToggleFold(WithBinaryFallback(PolarGroups(ts), BinarySensorMap(ts).value), ts, TOGGLE_ACTIONS)
  {
  }

  /** The fallback and the toggle loop keep every shape but `on_off` and
      `toggle`. */
  lemma LaterStepsKeep(m: TriggerGroups, bm: map<string, seq<Descriptor>>, ts: seq<Descriptor>)
    ensures forall s :: s != OnOff && s != Toggle ==>
              (s in ToggleFold(WithBinaryFallback(m, bm), ts, TOGGLE_ACTIONS) <==> s in m)
              && (s in m ==> ToggleFold(WithBinaryFallback(m, bm), ts, TOGGLE_ACTIONS)[s] == m[s])
  {
    FallbackOthers(m, bm);
    ToggleFoldOthers(WithBinaryFallback(m, bm), ts, TOGGLE_ACTIONS);
  }

  /** What a device source can fire on `on_off`: the last matching pair of
      the generic pairs followed by the remote pairs, and only when none of
      those matches, the pair of the first binary-sensor class in catalog
      order. */
  lemma DeviceOnOffTriggers(ts: seq<Descriptor>)
    requires DeviceTriggerGroups(ts).Ok?
    ensures var r := DeviceTriggerGroups(ts).value;
            && (LastMatch(ts, OnOffPairs()).Some? ==>
                  OnOff in r && r[OnOff] == Plain(PairTriggers(ts, OnOffPairs()[LastMatch(ts, OnOffPairs()).value])))
            && (LastMatch(ts, OnOffPairs()).None? ==>
                  var bm := BinarySensorMap(ts).value;
                  (OnOff in r <==> FirstClass(bm, BINARY_SENSOR_TRIGGERS).Some?)
                  && (OnOff in r ==> r[OnOff] == Plain(bm[BINARY_SENSOR_TRIGGERS[FirstClass(bm, BINARY_SENSOR_TRIGGERS).value]])))
  {
    PolarGroupShapes(ts);
    ToggleFoldOthers(WithBinaryFallback(PolarGroups(ts), BinarySensorMap(ts).value), ts, TOGGLE_ACTIONS);
  }

  /** What a device source can fire as `toggle`: ExpectedToggle over the
      toggle table. */
  lemma DeviceToggleTriggers(ts: seq<Descriptor>)
    requires DeviceTriggerGroups(ts).Ok?
    ensures var r := DeviceTriggerGroups(ts).value;
            && (Toggle in r <==> ExpectedToggle(ts, TOGGLE_ACTIONS).Some?)
            && (Toggle in r ==> r[Toggle] == ExpectedToggle(ts, TOGGLE_ACTIONS).value)
  {
    PolarGroupShapes(ts);
    ToggleDiscovery(WithBinaryFallback(PolarGroups(ts), BinarySensorMap(ts).value), ts, TOGGLE_ACTIONS);
  }

  /** A device's discovery fails exactly when one of its binary-sensor
      triggers has no `type` or a mapping as its `type`, with the error of
      such a trigger. */
  lemma DeviceTriggerFailure(ts: seq<Descriptor>)
    ensures DeviceTriggerGroups(ts).Err? <==>
              exists i :: 0 <= i < |ts| && Matches(ts[i], BINARY_SENSOR_FILTER) && !Keyable(ts[i])
    ensures DeviceTriggerGroups(ts).Err? ==>
              exists i :: 0 <= i < |ts| && Matches(ts[i], BINARY_SENSOR_FILTER) && !Keyable(ts[i])
                          && DeviceTriggerGroups(ts).error == KeyError(ts[i])
  {
    var tList := DeviceTriggers(ts, BINARY_SENSOR_FILTER);
    DeviceTriggersMembers(ts, BINARY_SENSOR_FILTER);
    if !AllTyped(tList) {
      var k :| 0 <= k < |tList| && !Keyable(tList[k]) && FirstKeyFailure(tList) == KeyError(tList[k]);
      assert tList[k] in tList;
      var i :| 0 <= i < |ts| && ts[i] == tList[k];
    } else {
      forall i | 0 <= i < |ts| && Matches(ts[i], BINARY_SENSOR_FILTER) ensures Keyable(ts[i]) {
        assert ts[i] in tList;
      }
    }
  }

  /** The trigger groups of an entity: state triggers for on/off domains, a
      (misspelled) domain trigger group for toggle domains. */
  function EntityTriggerGroups(entityId: string): Result<TriggerGroups>
  {
    match SplitEntityId(entityId)
    case Err(e) => Err(e)
    case Ok(parts) =>
      var domain := parts.0;
      var m := if domain in ON_OFF_ENTITY_DOMAINS
        then map[OnOff := Plain([EntityDescriptor(entityId, "state", "on"), EntityDescriptor(entityId, "state", "off")])]
        else map[];
      Ok(if domain in TOGGLE_ENTITY_DOMAINS
         then m[Toggle := Misspelled([EntityDescriptor(entityId, "domain", domain)])]
         else m)
  }

  /** An entity source fires `on_off` exactly for the on/off domains, on the
      states `on` and `off`, and offers `toggle` exactly for the toggle
      domains, as a domain trigger stored under the misspelled key; ids that
      do not split in two fail. */
  lemma EntityTriggerShapes(entityId: string)
    ensures EntityTriggerGroups(entityId).Err? <==> Count(entityId, '.') != 1
    ensures EntityTriggerGroups(entityId).Ok? ==>
      var r := EntityTriggerGroups(entityId).value;
      var domain := DomainOf(entityId);
      && r.Keys <= {OnOff, Toggle}
      && (OnOff in r <==> domain in ON_OFF_ENTITY_DOMAINS)
      && (OnOff in r ==> r[OnOff] == Plain([EntityDescriptor(entityId, "state", "on"), EntityDescriptor(entityId, "state", "off")]))
      && (Toggle in r <==> domain in TOGGLE_ENTITY_DOMAINS)
      && (Toggle in r ==> r[Toggle] == Misspelled([EntityDescriptor(entityId, "domain", domain)]))
  {
    if SplitEntityId(entityId).Ok? {
      SplitDomain(entityId);
    }
  }

  // ---------------------------------------------------------------------------
  // Group sizes
  // ---------------------------------------------------------------------------

  /** A pair loop stores two triggers under a polar shape. */
  lemma WithPairsSized(m: TriggerGroups, shape: Shape, pairs: seq<(Filter, Filter)>, ts: seq<Descriptor>)
    requires TriggerSizes(m) && shape != Toggle
    ensures TriggerSizes(WithPairs(m, shape, pairs, ts))
  {
    WithPairsShape(m, shape, pairs, ts);
  }

  /** Every pair of the binary-sensor map has two triggers. */
  lemma BinaryPairsSized(tm: map<Value, Descriptor>, done: set<Value>)
    ensures forall x :: x in BinaryPairs(tm, done) ==> |BinaryPairs(tm, done)[x]| == 2
  {
    forall x | x in BinaryPairs(tm, done) ensures |BinaryPairs(tm, done)[x]| == 2 {
      var k :| k in done && HasCounterpart(tm, k) && k.s == x;
    }
  }

  /** The fallback stores a two-trigger pair under `on_off`. */
  lemma FallbackSized(m: TriggerGroups, bm: map<string, seq<Descriptor>>)
    requires TriggerSizes(m)
    requires forall x :: x in bm ==> |bm[x]| == 2
    ensures TriggerSizes(WithBinaryFallback(m, bm))
  {
  }

  /** The toggle loop stores one trigger under `toggle`. */
  lemma {:induction false} ToggleFoldSized(m: TriggerGroups, ts: seq<Descriptor>, pairs: seq<(Filter, Filter)>)
    requires TriggerSizes(m)
    ensures TriggerSizes(ToggleFold(m, ts, pairs))
  {
    if pairs != [] {
      var n := |pairs| - 1;
      ToggleFoldSized(m, ts, pairs[..n]);
      var before := ToggleFold(m, ts, pairs[..n]);
      assert ToggleFold(m, ts, pairs) == ToggleStep(before, ts, pairs[n]);
    }
  }

  /** A device's trigger groups have discovery's sizes. */
  lemma DeviceGroupsSized(ts: seq<Descriptor>)
    requires DeviceTriggerGroups(ts).Ok?
    ensures TriggerSizes(DeviceTriggerGroups(ts).value)
  {
    DeviceGroupsSteps(ts);
    var m1 := WithPairs(map[], OnOff, OnOffTriggerPairs(), ts);
    var m2 := WithPairs(m1, OnOff, ON_OFF_ACTIONS, ts);
    var m3 := WithPairs(m2, Brightness, BRIGHTNESS_ACTIONS, ts);
    WithPairsSized(map[], OnOff, OnOffTriggerPairs(), ts);
    WithPairsSized(m1, OnOff, ON_OFF_ACTIONS, ts);
    WithPairsSized(m2, Brightness, BRIGHTNESS_ACTIONS, ts);
    WithPairsSized(m3, LeftRight, LEFT_RIGHT_ACTIONS, ts);
    var tList := DeviceTriggers(ts, BINARY_SENSOR_FILTER);
    var tm := TypeMap(tList);
    assert BinarySensorMap(ts).value == BinaryPairs(tm, tm.Keys);
    BinaryPairsSized(tm, tm.Keys);
    FallbackSized(PolarGroups(ts), BinarySensorMap(ts).value);
    ToggleFoldSized(WithBinaryFallback(PolarGroups(ts), BinarySensorMap(ts).value), ts, TOGGLE_ACTIONS);
  }

  /** Whatever a source is, its trigger groups have discovery's sizes: two
      triggers for a polar shape, one for a device toggle, and none listed
      under `triggers` for an entity toggle. */
  lemma TriggerGroupsSized(ref: Reference, host: Host)
    requires TriggerGroupsOf(ref, host).Ok?
    ensures TriggerSizes(TriggerGroupsOf(ref, host).value)
  {
    if ref.deviceId != "" {
      DeviceGroupsSized(DeviceList(host.deviceTriggers, ref.deviceId));
    } else if ref.entityId != "" {
      EntityGroupsSized(ref.entityId);
    }
  }

  /** An entity's trigger groups have discovery's sizes. */
  lemma EntityGroupsSized(entityId: string)
    requires EntityTriggerGroups(entityId).Ok?
    ensures TriggerSizes(EntityTriggerGroups(entityId).value)
  {
    var parts := SplitEntityId(entityId).value;
    var m: TriggerGroups := if parts.0 in ON_OFF_ENTITY_DOMAINS
      then map[OnOff := Plain([EntityDescriptor(entityId, "state", "on"), EntityDescriptor(entityId, "state", "off")])]
      else map[];
    assert TriggerSizes(m);
  }

  /** `load_triggers`, stated without its loops. */
  function TriggerGroupsOf(ref: Reference, host: Host): Result<TriggerGroups>
  {
    if ref.deviceId != "" then DeviceTriggerGroups(DeviceList(host.deviceTriggers, ref.deviceId))
    else if ref.entityId != "" then EntityTriggerGroups(ref.entityId)
    else Ok(map[])
  }

  method LoadTriggers(ref: Reference, host: Host) returns (r: Result<TriggerGroups>)
    ensures r == TriggerGroupsOf(ref, host)
  {
    if ref.deviceId != "" {
      var ts := DeviceList(host.deviceTriggers, ref.deviceId);
      var result: TriggerGroups := map[];
      result := AddPairs(result, OnOff, OnOffTriggerPairs(), ts);
      result := AddPairs(result, OnOff, ON_OFF_ACTIONS, ts);
      result := AddPairs(result, Brightness, BRIGHTNESS_ACTIONS, ts);
      result := AddPairs(result, LeftRight, LEFT_RIGHT_ACTIONS, ts);
      var binaryMap := MapBinarySensor(ts);
      if binaryMap.Err? {
        return Err(binaryMap.error);
      }
      result := AddBinaryFallback(result, binaryMap.value);
      result := AddToggle(result, ts, TOGGLE_ACTIONS);
      r := Ok(result);
    } else if ref.entityId != "" {
      r := EntityTriggerGroups(ref.entityId);
    } else {
      r := Ok(map[]);
    }
  }
}
