/** The field filter over raw descriptors (`Component._device_triggers` and
    `Component._device_trigger`): every search the discoverer makes goes
    through it. */
module DeviceFilter {
  import opened Values
  import opened Catalog

  /** One keyword argument: holds when the argument is not given, or when the
      descriptor's field is that very string. */
  predicate FieldMatches(t: Descriptor, field: string, want: string)
  {
    want == "" || Get(t, field) == Some(Str(want))
  }

  predicate Matches(t: Descriptor, f: Filter)
  {
    FieldMatches(t, "domain", f.domain) && FieldMatches(t, "type", f.kind) && FieldMatches(t, "subtype", f.subtype)
  }

  /** A filter with at least one argument given. */
  predicate Restrictive(f: Filter)
  {
    f.domain != "" || f.kind != "" || f.subtype != ""
  }

  /** `_device_triggers`: the matching descriptors, in input order. */
  function DeviceTriggers(ts: seq<Descriptor>, f: Filter): (r: seq<Descriptor>)
    ensures |r| <= |ts|
  {
    if ts == [] then []
    else (if Matches(ts[0], f) then [ts[0]] else []) + DeviceTriggers(ts[1..], f)
  }

  /** The filter keeps exactly the matching descriptors. */
  lemma {:induction false} DeviceTriggersMembers(ts: seq<Descriptor>, f: Filter)
    ensures forall x :: x in DeviceTriggers(ts, f) <==> x in ts && Matches(x, f)
  {
    if ts != [] {
      DeviceTriggersMembers(ts[1..], f);
      assert ts == [ts[0]] + ts[1..];
    }
  }

  /** Filtering distributes over concatenation: together with the membership
      clause of DeviceTriggers this says the filter keeps input order. */
  lemma {:induction false} DeviceTriggersAppend(a: seq<Descriptor>, b: seq<Descriptor>, f: Filter)
    ensures DeviceTriggers(a + b, f) == DeviceTriggers(a, f) + DeviceTriggers(b, f)
  {
    if a == [] {
      assert a + b == b;
    } else {
      assert (a + b)[0] == a[0];
      assert (a + b)[1..] == a[1..] + b;
      DeviceTriggersAppend(a[1..], b, f);
    }
  }

  /** The head of the filtered list is the first matching descriptor. */
  lemma {:induction false} DeviceTriggersHead(ts: seq<Descriptor>, f: Filter)
    requires |DeviceTriggers(ts, f)| > 0
    ensures exists i :: 0 <= i < |ts| && ts[i] == DeviceTriggers(ts, f)[0] && Matches(ts[i], f)
                        && forall j :: 0 <= j < i ==> !Matches(ts[j], f)
  {
    DeviceTriggersMembers(ts, f);
    if Matches(ts[0], f) {
      assert ts[0] == DeviceTriggers(ts, f)[0];
    } else {
      assert DeviceTriggers(ts, f) == DeviceTriggers(ts[1..], f);
      DeviceTriggersHead(ts[1..], f);
      var k :| 0 <= k < |ts[1..]| && ts[1..][k] == DeviceTriggers(ts[1..], f)[0] && Matches(ts[1..][k], f)
               && forall j :: 0 <= j < k ==> !Matches(ts[1..][j], f);
      forall j | 0 <= j < k + 1 ensures !Matches(ts[j], f) {
        if j > 0 { assert ts[j] == ts[1..][j - 1]; }
      }
      assert ts[k + 1] == DeviceTriggers(ts, f)[0];
    }
  }

  /** `_device_trigger`: the head of the filtered list, or None. */
  function DeviceTrigger(ts: seq<Descriptor>, f: Filter): Option<Descriptor>
  {
    var l := DeviceTriggers(ts, f);
    if |l| > 0 then Some(l[0]) else None
  }

  /** `_device_trigger` finds the first matching descriptor, and None only
      when nothing matches. A found descriptor is never the empty dictionary
      when the search names a field, so the source's truthiness test on it is
      a presence test. */
  lemma DeviceTriggerIsFirst(ts: seq<Descriptor>, f: Filter)
    ensures DeviceTrigger(ts, f).Some? <==> exists i :: 0 <= i < |ts| && Matches(ts[i], f)
    ensures DeviceTrigger(ts, f).Some? ==>
              exists i :: 0 <= i < |ts| && ts[i] == DeviceTrigger(ts, f).value && Matches(ts[i], f)
                          && forall j :: 0 <= j < i ==> !Matches(ts[j], f)
    ensures DeviceTrigger(ts, f).Some? && Restrictive(f) ==> DeviceTrigger(ts, f).value != map[]
  {
    DeviceTriggersMembers(ts, f);
    if |DeviceTriggers(ts, f)| > 0 {
      DeviceTriggersHead(ts, f);
    } else {
      forall i | 0 <= i < |ts| ensures !Matches(ts[i], f) {
        assert ts[i] in ts;
      }
    }
  }
}
