/** `dict_to_defaultdict`: copies a dictionary into a `defaultdict` with a
    given default factory, converting every value that is exactly a `dict`
    (one level deep) into a `defaultdict` with the same factory, and
    overwriting those values in the original dictionary as it goes. */
module TypeConversions {

  /** A Python value as far as the conversion looks at it. A default factory
      is a callable without arguments; it is represented by the value it
      returns. */
  datatype Value =
    | Leaf(repr: string)                              // any value whose type is not exactly `dict`
    | Dict(entries: seq<Entry>)                       // a `dict`, in insertion order
    | DefaultDict(factory: Value, entries: seq<Entry>) // a `defaultdict(factory)`

  /** One key/value pair of a dictionary. Keys are strings in this model. */
  datatype Entry = Entry(key: string, value: Value)

  /** The factory `lambda: False`, the default of `dict_to_defaultdict`. */
  const FalseFactory := Leaf("False")

  /** The keys of a dictionary in iteration (insertion) order. */
  function Keys(es: seq<Entry>): (r: seq<string>)
    ensures |r| == |es|
    ensures forall i :: 0 <= i < |es| ==> r[i] == es[i].key
  {
    seq(|es|, i requires 0 <= i < |es| => es[i].key)
  }

  predicate DistinctKeys(es: seq<Entry>) {
    forall i, j :: 0 <= i < j < |es| ==> es[i].key != es[j].key
  }

  /** The entries of a Python dictionary: distinct keys, and so are those of
      any `dict` stored as a value. */
  predicate ValidDict(es: seq<Entry>) {
    DistinctKeys(es)
    && forall i :: 0 <= i < |es| && es[i].value.Dict? ==> DistinctKeys(es[i].value.entries)
  }

  /** Where key `k` sits. */
  function KeyIndex(keys: seq<string>, k: string): (i: nat)
    requires k in keys
    ensures i < |keys| && keys[i] == k && k !in keys[..i]
  {
    if keys[0] == k then 0
    else
      var i := KeyIndex(keys[1..], k);
      assert keys[..i + 1] == [keys[0]] + keys[1..][..i];
      i + 1
  }

  /** With distinct keys, the key at position `i` is found at `i`. */
  lemma KeyIndexAt(es: seq<Entry>, i: nat)
    requires DistinctKeys(es) && i < |es|
    ensures es[i].key in Keys(es) && KeyIndex(Keys(es), es[i].key) == i
  {
    assert Keys(es)[i] == es[i].key;
    var j := KeyIndex(Keys(es), es[i].key);
    assert es[j].key == es[i].key;
  }

  /** `d[k]` for a key that is present. */
  function Get(es: seq<Entry>, k: string): Value
    requires k in Keys(es)
  {
    es[KeyIndex(Keys(es), k)].value
  }

  /** `d[k] = v`: a present key keeps its place and takes the new value; a new
      key is appended. */
  function Assign(es: seq<Entry>, k: string, v: Value): seq<Entry> {
    if k in Keys(es) then es[KeyIndex(Keys(es), k) := Entry(k, v)]
    else es + [Entry(k, v)]
  }

  /** Assigning keeps the keys distinct and makes `k` map to `v`. */
  lemma AssignGet(es: seq<Entry>, k: string, v: Value)
    requires DistinctKeys(es)
    ensures DistinctKeys(Assign(es, k, v))
    ensures k in Keys(Assign(es, k, v)) && Get(Assign(es, k, v), k) == v
    ensures forall j :: j in Keys(es) ==> j in Keys(Assign(es, k, v))
    ensures forall j :: j in Keys(Assign(es, k, v)) ==> j in Keys(es) || j == k
  {
    var r := Assign(es, k, v);
    if k in Keys(es) {
      var i := KeyIndex(Keys(es), k);
      assert Keys(r) == Keys(es);
      KeyIndexAt(r, i);
    } else {
      KeyIndexAt(r, |es|);
      assert Keys(r) == Keys(es) + [k];
    }
  }

  datatype Option<T> = None | Some(value: T)

  /** `d[k]` on a dictionary: the value and the dictionary afterwards. A
      `defaultdict` answers a missing key with its factory's value and stores
      it; a `dict` answers `None` here, standing for `KeyError`. */
  function GetItem(d: Value, k: string): (r: Option<(Value, Value)>)
    requires !d.Leaf?
    ensures d.Dict? ==> (r.Some? <==> k in Keys(d.entries))
    ensures d.DefaultDict? ==> r.Some?
  {
    if k in Keys(d.entries) then Some((Get(d.entries, k), d))
    else if d.DefaultDict? then
      Some((d.factory, DefaultDict(d.factory, d.entries + [Entry(k, d.factory)])))
    else None
  }

  // ---------------------------------------------------------------------------
  // What dict_to_defaultdict computes

  /** A value stored by the conversion: a value whose type is exactly `dict`
      becomes a `defaultdict` with the same pairs and the given factory; any
      other value (a `defaultdict` included) is kept as it is. */
  function ConvertValue(v: Value, factory: Value): Value {
    if v.Dict? then DefaultDict(factory, v.entries) else v
  }

  /** The pairs of the returned `defaultdict`, which are also the pairs the
      original dictionary holds afterwards. */
  function Converted(es: seq<Entry>, factory: Value): (r: seq<Entry>)
    ensures |r| == |es|
    ensures forall i :: 0 <= i < |es| ==> r[i] == Entry(es[i].key, ConvertValue(es[i].value, factory))
  {
    seq(|es|, i requires 0 <= i < |es| => Entry(es[i].key, ConvertValue(es[i].value, factory)))
  }

  /** A dictionary whose entries the function updates in place. */
  class PyDict {
    var entries: seq<Entry>

    ghost predicate Valid()
      reads this
    {
      ValidDict(entries)
    }

    constructor (entries: seq<Entry>)
      requires ValidDict(entries)
      ensures Valid() && this.entries == entries
    {
      this.entries := entries;
    }
  }

  /** `dict_to_defaultdict(original_dict, default)`: builds the result key by
      key; each inner `dict` is copied into a new `defaultdict` that also
      replaces it in `original_dict`. */
  method DictToDefaultDict(originalDict: PyDict, default: Value) returns (result: Value)
    requires originalDict.Valid()
    modifies originalDict
    ensures originalDict.Valid()
    ensures originalDict.entries == Converted(old(originalDict.entries), default)
    ensures result == DefaultDict(default, Converted(old(originalDict.entries), default))
  {
    ghost var original := originalDict.entries;
    ghost var converted := Converted(original, default);
    var resultEntries: seq<Entry> := [];
    var keys := Keys(originalDict.entries);
    for i := 0 to |keys|
      invariant originalDict.entries == converted[..i] + original[i..]
      invariant resultEntries == converted[..i]
    {
      var key := keys[i];
      PartlyConverted(original, default, i);
      assert originalDict.entries[i] == original[i] && key == original[i].key;
      var value := ConvertInPlace(originalDict, key, default, i);
      assert Entry(key, value) == converted[i];
      assert originalDict.entries == converted[..i + 1] + original[i + 1..];
      resultEntries := Assign(resultEntries, key, value);
      AssignNext(converted, i);
    }
    assert originalDict.entries == converted by {
      assert original[|keys|..] == [];
      assert converted[..|keys|] == converted;
    }
    ConvertedValid(original, default);
    result := DefaultDict(default, resultEntries);
  }

  /** One turn of the loop of `dict_to_defaultdict` up to `result[key] = ...`:
      a `dict` stored under `key` (at position `i`) is copied into a new
      `defaultdict` that replaces it; what is stored under `key` afterwards is
      returned. */
  method ConvertInPlace(originalDict: PyDict, key: string, default: Value, ghost i: nat)
    returns (value: Value)
    requires i < |originalDict.entries| && originalDict.entries[i].key == key
    requires DistinctKeys(originalDict.entries)
    requires originalDict.entries[i].value.Dict? ==> DistinctKeys(originalDict.entries[i].value.entries)
    modifies originalDict
    ensures value == ConvertValue(old(originalDict.entries[i].value), default)
    ensures originalDict.entries == old(originalDict.entries)[i := Entry(key, value)]
  {
    KeyIndexAt(originalDict.entries, i);
    if Get(originalDict.entries, key).Dict? {
      var tempDict := CopyDict(Get(originalDict.entries, key).entries);
      originalDict.entries := Assign(originalDict.entries, key, DefaultDict(default, tempDict));
    }
    KeyIndexAt(originalDict.entries, i);
    value := Get(originalDict.entries, key);
  }

  /** The original dictionary part way through the loop: the first `i`
      entries converted, the others as they were. Its keys are the original
      keys, and converting entry `i` moves on to `i + 1`. */
  lemma PartlyConverted(original: seq<Entry>, factory: Value, i: nat)
    requires ValidDict(original) && i <= |original|
    ensures var cur := Converted(original, factory)[..i] + original[i..];
      Keys(cur) == Keys(original) && DistinctKeys(cur)
      && (i < |original| ==>
            cur[i] == original[i]
            && cur[i := Converted(original, factory)[i]]
               == Converted(original, factory)[..i + 1] + original[i + 1..])
  {
    var cur := Converted(original, factory)[..i] + original[i..];
    assert Keys(cur) == Keys(original);
  }

  /** Assigning the `i`-th pair of a dictionary with distinct keys after its
      first `i` pairs appends it. */
  lemma AssignNext(es: seq<Entry>, i: nat)
    requires DistinctKeys(es) && i < |es|
    ensures Assign(es[..i], es[i].key, es[i].value) == es[..i + 1]
  {
    assert es[i].key !in Keys(es[..i]) by {
      forall k | 0 <= k < i ensures Keys(es[..i])[k] != es[i].key {
        assert es[..i][k] == es[k];
      }
    }
  }

  /** The converted pairs form a valid dictionary with the same keys. */
  lemma ConvertedValid(es: seq<Entry>, factory: Value)
    requires ValidDict(es)
    ensures ValidDict(Converted(es, factory)) && Keys(Converted(es, factory)) == Keys(es)
  {
  }

  /** The inner loop: `temp_dict[current_key] = ...` for each pair of a
      dictionary with distinct keys, into an empty one, copies it. */
  method CopyDict(source: seq<Entry>) returns (r: seq<Entry>)
    requires DistinctKeys(source)
    ensures r == source
  {
    r := [];
    for j := 0 to |source|
      invariant r == source[..j]
    {
      assert source[j].key !in Keys(r) by {
        forall k | 0 <= k < j ensures Keys(r)[k] != source[j].key {
          assert r[k] == source[k];
        }
      }
      r := Assign(r, source[j].key, source[j].value);
      assert source[..j + 1] == source[..j] + [source[j]];
    }
  }

  // ---------------------------------------------------------------------------
  // Properties of dict_to_defaultdict

  /** Looking a key up after the conversion: a `dict` value comes back as a
      `defaultdict` with the given factory and the very same pairs (only one
      level is converted); any other value comes back unchanged. No key is
      added or lost. */
  lemma LookupConverted(es: seq<Entry>, factory: Value, k: string)
    requires ValidDict(es)
    ensures k in Keys(Converted(es, factory)) <==> k in Keys(es)
    ensures k in Keys(es) && Get(es, k).Dict? ==>
              Get(Converted(es, factory), k) == DefaultDict(factory, Get(es, k).entries)
    ensures k in Keys(es) && !Get(es, k).Dict? ==>
              Get(Converted(es, factory), k) == Get(es, k)
  {
    ConvertedValid(es, factory);
  }

  /** A key the input does not hold: the converted `defaultdict` answers it
      with the factory's value (`False` by default) and stores that. */
  lemma MissingKeyDefault(es: seq<Entry>, factory: Value, k: string)
    requires ValidDict(es) && k !in Keys(es)
    ensures GetItem(DefaultDict(factory, Converted(es, factory)), k)
         == Some((factory, DefaultDict(factory, Converted(es, factory) + [Entry(k, factory)])))
  {
    ConvertedValid(es, factory);
  }

  /** The same holds inside a converted inner dictionary: it shares the
      outer factory. */
  lemma InnerMissingKeyDefault(es: seq<Entry>, factory: Value, k: string, j: string)
    requires ValidDict(es) && k in Keys(es) && Get(es, k).Dict? && j !in Keys(Get(es, k).entries)
    ensures GetItem(Get(Converted(es, factory), k), j).Some?
    ensures GetItem(Get(Converted(es, factory), k), j).value.0 == factory
  {
    LookupConverted(es, factory, k);
  }

  /** Converting the converted pairs again changes nothing: every converted
      value is a `defaultdict`, not a `dict`. */
  lemma ConvertedIdempotent(es: seq<Entry>, factory: Value)
    ensures Converted(Converted(es, factory), factory) == Converted(es, factory)
  {
    var once := Converted(es, factory);
    forall i | 0 <= i < |es| ensures Converted(once, factory)[i] == once[i] {
      assert !once[i].value.Dict?;
    }
  }

  /** A dictionary's pairs as a mapping, which is what `==` on dictionaries
      compares. */
  function AsMap(es: seq<Entry>): (m: map<string, Value>)
    ensures forall k :: k in m <==> k in Keys(es)
    decreases |es|
  {
    if es == [] then map[]
    else
      var init := es[..|es| - 1];
      assert Keys(es) == Keys(init) + [es[|es| - 1].key];
      AsMap(init)[es[|es| - 1].key := es[|es| - 1].value]
  }

  /** Assigning in order: the last pair decides its key. */
  lemma AsMapSnoc(es: seq<Entry>, e: Entry)
    ensures AsMap(es + [e]) == AsMap(es)[e.key := e.value]
  {
    assert (es + [e])[..|es|] == es;
  }

  const SamplePhone := [
    Entry("Manufacturer", Leaf("Nokia")),
    Entry("Model", Leaf("Cityman 100")),
    Entry("Release Date", Leaf("1998"))]

  const SampleUser := [
    Entry("Name", Leaf("John")),
    Entry("Phone", Dict(SamplePhone)),
    Entry("Age", Leaf("13"))]

  /** Three entries make the mapping that assigns them in order. */
  lemma AsMapThree(a: Entry, b: Entry, c: Entry)
    ensures AsMap([a, b, c]) == map[a.key := a.value, b.key := b.value, c.key := c.value]
  {
    AsMapSnoc([], a);
    AsMapSnoc([a], b);
    AsMapSnoc([a, b], c);
    assert [] + [a] == [a] && [a] + [b] == [a, b] && [a, b] + [c] == [a, b, c];
  }

  /** The user dictionary of the module's example, converted: `Name`,
      `Phone` and `Age` in that order, `Phone` now a `defaultdict` with the
      same factory. */
  lemma SampleConverted()
    ensures Converted(SampleUser, FalseFactory)
         == [Entry("Name", Leaf("John")),
             Entry("Phone", DefaultDict(FalseFactory, SamplePhone)),
             Entry("Age", Leaf("13"))]
  {
    var r := Converted(SampleUser, FalseFactory);
    assert r == [r[0], r[1], r[2]];
  }

  /** Assigning `Name`, `Age` and then `Phone` to an empty dictionary appends
      them in that order. */
  lemma SampleAssigned()
    ensures Assign(Assign(Assign([], "Name", Leaf("John")), "Age", Leaf("13")),
                   "Phone", DefaultDict(FalseFactory, SamplePhone))
         == [Entry("Name", Leaf("John")), Entry("Age", Leaf("13")),
             Entry("Phone", DefaultDict(FalseFactory, SamplePhone))]
  {
    var e1 := Assign([], "Name", Leaf("John"));
    assert e1 == [Entry("Name", Leaf("John"))];
    var e2 := Assign(e1, "Age", Leaf("13"));
    assert e2 == e1 + [Entry("Age", Leaf("13"))] by {
      assert Keys(e1) == ["Name"];
    }
    assert Keys(e2) == ["Name", "Age"];
  }

  /** The converted user dictionary as a mapping. */
  lemma SampleConvertedMap()
    ensures AsMap(Converted(SampleUser, FalseFactory))
         == map["Name" := Leaf("John"), "Phone" := DefaultDict(FalseFactory, SamplePhone), "Age" := Leaf("13")]
  {
    var name := Entry("Name", Leaf("John"));
    var phone := Entry("Phone", DefaultDict(FalseFactory, SamplePhone));
    var age := Entry("Age", Leaf("13"));
    SampleConverted();
    AsMapThree(name, phone, age);
  }

  /** The test's expected `defaultdict` as a mapping. */
  lemma SampleAssignedMap()
    ensures AsMap(Assign(Assign(Assign([], "Name", Leaf("John")), "Age", Leaf("13")),
                         "Phone", DefaultDict(FalseFactory, SamplePhone)))
         == map["Name" := Leaf("John"), "Age" := Leaf("13"), "Phone" := DefaultDict(FalseFactory, SamplePhone)]
  {
    var name := Entry("Name", Leaf("John"));
    var phone := Entry("Phone", DefaultDict(FalseFactory, SamplePhone));
    var age := Entry("Age", Leaf("13"));
    SampleAssigned();
    AsMapThree(name, age, phone);
  }

  /** As a mapping, the converted user dictionary equals the `defaultdict`
      built by assigning `Name`, `Age` and then `Phone`. */
  lemma SampleConversion()
    ensures var expected :=
              Assign(Assign(Assign([], "Name", Leaf("John")), "Age", Leaf("13")),
                     "Phone", DefaultDict(FalseFactory, SamplePhone));
            AsMap(Converted(SampleUser, FalseFactory)) == AsMap(expected)
  {
    SampleConvertedMap();
    SampleAssignedMap();
  }
}
