/** Python's insertion-ordered `dict` with string keys: the key order is a
    sequence, the contents a map. */
module OrderedDicts {
  import opened Seqs

  datatype OrderedDict<V> = OrderedDict(keys: seq<string>, entries: map<string, V>) {

    /** Keys are listed once each, and exactly the mapped keys are listed. */
    ghost predicate Valid() {
      NoDup(keys) && Elems(keys) == entries.Keys
    }
  }

  function Empty<V>(): (r: OrderedDict<V>)
    ensures r.Valid() && |r.keys| == 0 && |r.entries| == 0
  {
    OrderedDict([], map[])
  }

  /** `d[k] = v`: a new key goes to the end, an existing key keeps its place
      and gets the new value. */
  function Put<V>(d: OrderedDict<V>, k: string, v: V): (r: OrderedDict<V>)
    ensures r.keys == AppendMissing(d.keys, [k])
    ensures r.entries == d.entries[k := v]
    ensures d.Valid() ==> r.Valid()
  {
    if k in d.keys then OrderedDict(d.keys, d.entries[k := v])
    else OrderedDict(d.keys + [k], d.entries[k := v])
  }

  /** The keys of a list of pairs, in order. */
  function KeysOf<V>(items: seq<(string, V)>): (r: seq<string>)
    ensures |r| == |items|
    ensures forall i :: 0 <= i < |items| ==> r[i] == items[i].0
  {
    seq(|items|, i requires 0 <= i < |items| => items[i].0)
  }

  /** The mapping `dict(items)` denotes, without its key order: a later
      pair overrides an earlier one with the same key. */
  function AsMap<V>(items: seq<(string, V)>): map<string, V>
    decreases |items|
  {
    if |items| == 0 then map[]
    else AsMap(items[..|items| - 1])[items[|items| - 1].0 := items[|items| - 1].1]
  }

  /** A key is mapped exactly when some pair carries it. */
  lemma {:induction false} AsMapKeys<V>(items: seq<(string, V)>, k: string)
    ensures k in AsMap(items) <==> k in KeysOf(items)
    decreases |items|
  {
    if |items| > 0 {
      var init := items[..|items| - 1];
      AsMapKeys(init, k);
      assert KeysOf(items) == KeysOf(init) + [items[|items| - 1].0];
    }
  }

  /** With distinct keys, pair `i` is found with its own value. */
  lemma {:induction false} AsMapAt<V>(items: seq<(string, V)>, i: nat)
    requires NoDup(KeysOf(items)) && i < |items|
    ensures items[i].0 in AsMap(items) && AsMap(items)[items[i].0] == items[i].1
    decreases |items|
  {
    var n := |items| - 1;
    if i < n {
      var init := items[..n];
      assert KeysOf(init) == KeysOf(items)[..n];
      assert KeysOf(items)[i] != KeysOf(items)[n];
      AsMapAt(init, i);
    }
  }

  /** `dict(items)`: a key keeps the position of its first pair and the
      value of its last. */
  function FromItems<V>(items: seq<(string, V)>): (r: OrderedDict<V>)
    ensures r.Valid()
  {
    var r := OrderedDict(Distinct(KeysOf(items)), AsMap(items));
    assert Elems(r.keys) == r.entries.Keys by {
      forall k ensures k in Elems(r.keys) <==> k in r.entries {
        AsMapKeys(items, k);
      }
    }
    r
  }

  /** `d.items()`: the pairs in key order. */
  function Items<V>(d: OrderedDict<V>): (r: seq<(string, V)>)
    requires d.Valid()
    ensures KeysOf(r) == d.keys
    ensures forall i :: 0 <= i < |r| ==> r[i].0 in d.entries && r[i].1 == d.entries[r[i].0]
  {
    seq(|d.keys|, i requires 0 <= i < |d.keys| => (d.keys[i], d.entries[d.keys[i]]))
  }

  /** The pairs of a dict with each value transformed. */
  function MapItems<V, W>(d: OrderedDict<V>, f: V -> W): (r: seq<(string, W)>)
    requires d.Valid()
    ensures KeysOf(r) == d.keys
    ensures forall i :: 0 <= i < |r| ==> r[i].0 in d.entries && r[i].1 == f(d.entries[r[i].0])
  {
    seq(|d.keys|, i requires 0 <= i < |d.keys| => (d.keys[i], f(d.entries[d.keys[i]])))
  }

  /** With distinct keys, the dict built from pairs lists exactly those
      pairs back. */
  lemma ItemsOfDistinct<V>(items: seq<(string, V)>)
    requires NoDup(KeysOf(items))
    ensures Items(FromItems(items)) == items
  {
    var keys := KeysOf(items);
    assert Distinct(keys) == keys by {
      AppendMissingFresh([], keys);
      assert [] + keys == keys;
    }
    var d := FromItems(items);
    assert d.keys == keys;
    var back := Items(d);
    assert |back| == |items|;
    forall i | 0 <= i < |items| ensures back[i] == items[i] {
      AsMapAt(items, i);
      assert back[i].0 == keys[i] == items[i].0;
    }
  }
}
