/** Raw data shared by every part of the binding engine: the JSON-like values
    that the host platform hands over as trigger and action descriptors, and
    the ways the engine's dictionary look-ups can fail. */
module Values {

  datatype Option<+T> = None | Some(value: T)

  /** A value inside a descriptor: a string, a number or a nested mapping. */
  datatype Value = Str(s: string) | Num(n: int) | Dict(entries: map<string, Value>)

  /** A raw trigger or action descriptor, as the host's automation query
      returns it, or as the engine builds it for an entity. */
  type Descriptor = map<string, Value>

  /** The user-supplied extra service data of one shape binding. */
  type Extra = map<string, Value>

  /** The exceptions the engine can raise on the data it is given. */
  datatype Error =
    | MissingKey(key: string)    // a `d[key]` look-up of a key that is absent
    | BadEntityId(id: string)    // an entity id that does not split into exactly two parts at '.'
    | IndexOutOfRange            // a list index past the end of the list
    | Unsortable                 // `sorted` over values that do not compare with each other
    | NoStateObject              // `.state` read from a state that does not exist
    | NoList                     // a list operation applied to None
    | WrongType(key: string)     // the value under `key` is not of the kind the operation needs
    | NoAttribute(name: string)  // an attribute read before anything assigned it
    | Unhashable(key: string)    // the mapping under `key` used as a dictionary key

  datatype Result<+T> = Ok(value: T) | Err(error: Error)

  /** Python's `d.get(key)`. */
  function Get(d: Descriptor, key: string): (r: Option<Value>)
    ensures r.Some? <==> key in d
    ensures r.Some? ==> r.value == d[key]
  {
    if key in d then Some(d[key]) else None
  }

  /** The number of occurrences of `c` in `s`. */
  function Count(s: string, c: char): (n: nat)
    ensures n <= |s|
    ensures n == 0 <==> c !in s
  {
    if s == [] then 0 else (if s[0] == c then 1 else 0) + Count(s[1..], c)
  }

  /** The index of the first `c` in `s`. */
  function IndexOf(s: string, c: char): (i: nat)
    requires c in s
    ensures i < |s| && s[i] == c
    ensures c !in s[..i]
  {
    if s[0] == c then 0 else 1 + IndexOf(s[1..], c)
  }

  /** Python's `[domain, name] = entity_id.split(".")`: succeeds only when the
      id holds exactly one dot, and then yields the parts before and after it. */
  function SplitEntityId(id: string): (r: Result<(string, string)>)
    ensures r.Ok? <==> Count(id, '.') == 1
    ensures r.Ok? ==> id == r.value.0 + "." + r.value.1 && '.' !in r.value.0 && '.' !in r.value.1
  {
    if Count(id, '.') != 1 then Err(BadEntityId(id))
    else
      var i := IndexOf(id, '.');
      CountSplit(id, i);
      assert id == id[..i] + "." + id[i + 1..];
      Ok((id[..i], id[i + 1..]))
  }

  /** Python's `entity_id.split(".")[0]`: everything before the first dot, or
      the whole id when it has none. */
  function DomainOf(id: string): (d: string)
    ensures '.' !in d
    ensures '.' in id ==> |d| < |id| && id == d + id[|d|..] && id[|d|] == '.'
    ensures '.' !in id ==> d == id
  {
    if '.' in id then id[..IndexOf(id, '.')] else id
  }

  lemma {:induction false} CountSplit(s: string, i: nat)
    requires i < |s|
    ensures Count(s, '.') == Count(s[..i], '.') + (if s[i] == '.' then 1 else 0) + Count(s[i + 1..], '.')
  {
    if i == 0 {
      assert s[..0] == [];
      assert s[1..] == s[i + 1..];
    } else {
      var t := s[1..];
      CountSplit(t, i - 1);
      assert t[..i - 1] == s[..i][1..];
      assert t[i - 1] == s[i];
      assert t[i..] == s[i + 1..];
      assert Count(s[..i], '.') == (if s[0] == '.' then 1 else 0) + Count(t[..i - 1], '.');
    }
  }

  /** The text before the first dot is any dot-free prefix followed by a dot. */
  lemma DomainPrefix(id: string, domain: string)
    requires |domain| < |id| && id[..|domain|] == domain && id[|domain|] == '.' && '.' !in domain
    ensures DomainOf(id) == domain
  {
    assert '.' in id by { assert id[|domain|] == '.'; }
    var d := DomainOf(id);
    assert forall k :: 0 <= k < |domain| ==> id[k] == domain[k];
    assert forall k :: 0 <= k < |d| ==> id[k] == d[k];
    assert d == id[..|d|];
  }

  /** The two parts of a well-formed entity id are its domain, as
      `split(".")[0]` reads it, and the rest after the dot. */
  lemma SplitDomain(id: string)
    requires SplitEntityId(id).Ok?
    ensures DomainOf(id) == SplitEntityId(id).value.0
    ensures id[|DomainOf(id)| + 1..] == SplitEntityId(id).value.1
  {
    var (domain, name) := SplitEntityId(id).value;
    assert id == domain + "." + name;
    assert id[..|domain|] == domain;
    DomainPrefix(id, domain);
    assert id[|domain| + 1..] == name;
  }
}
