/** `ValidatedDict` and its five subclasses: a dict that runs the
    category's `_validate_entry` on every value it stores. */
module ValidatedDicts {
  import opened Wrappers
  import opened Seqs
  import opened OrderedDicts
  import opened Specs
  import opened Fields
  import opened Entries
  import opened EntryProperties

  /** A validated dictionary: names to spec objects, in insertion order. */
  type Table = OrderedDict<Entry>

  /** What every dictionary of a category holds once validation has run on
      caller values that are themselves valid. */
  ghost predicate Canonical(cat: Category, t: Table) {
    t.Valid() && forall k :: k in t.entries ==> Admitted(cat, t.entries[k])
  }

  /** The values of the pairs are valid wherever they are spec objects. */
  predicate AllRawOk(items: seq<(string, Raw)>) {
    forall i :: 0 <= i < |items| ==> RawOk(items[i].1)
  }

  /** `__setitem__` with the validator `validate`: the value is
      validated, then stored under `key`. */
  function StoreWith<R, V>(validate: R -> Result<V>, d: OrderedDict<V>, key: string, raw: R)
    : (r: Result<OrderedDict<V>>)
    ensures r.Success? <==> validate(raw).Success?
    ensures r.Success? ==> r.value.keys == AppendMissing(d.keys, [key])
    ensures r.Success? ==> r.value.entries == d.entries[key := validate(raw).value]
    ensures d.Valid() && r.Success? ==> r.value.Valid()
  {
    var v :- validate(raw);
    Success(Put(d, key, v))
  }

  /** The `for k, v in ...: self[k] = v` loop shared by the constructor and
      `update`: it stops at the first value the validator refuses. */
  function StoreAllWith<R, V>(validate: R -> Result<V>, d: OrderedDict<V>, items: seq<(string, R)>)
    : (r: Result<OrderedDict<V>>)
    ensures r.Success? <==> ItemsValidate(validate, items)
    ensures r.Success? ==> forall k :: k in d.entries && k !in KeysOf(items) ==>
                                         k in r.value.entries && r.value.entries[k] == d.entries[k]
    decreases |items|
  {
    if |items| == 0 then Success(d)
    else
      assert KeysOf(items)[1..] == KeysOf(items[1..]);
      var next :- StoreWith(validate, d, items[0].0, items[0].1);
      StoreAllWith(validate, next, items[1..])
  }

  /** The loop appends the new keys in order, ends up with the old keys and
      the new ones, and keeps a well-formed dict well formed. */
  lemma StoreAllShape<R, V>(validate: R -> Result<V>, d: OrderedDict<V>, items: seq<(string, R)>)
    requires StoreAllWith(validate, d, items).Success?
    ensures StoreAllWith(validate, d, items).value.keys == AppendMissing(d.keys, KeysOf(items))
    ensures StoreAllWith(validate, d, items).value.entries.Keys == d.entries.Keys + Elems(KeysOf(items))
    ensures d.Valid() ==> StoreAllWith(validate, d, items).value.Valid()
  {
    StoreAllKeys(validate, d, items);
    StoreAllDomain(validate, d, items);
    if d.Valid() {
      StoreAllValid(validate, d, items);
    }
  }

  lemma {:induction false} StoreAllKeys<R, V>(validate: R -> Result<V>, d: OrderedDict<V>, items: seq<(string, R)>)
    requires StoreAllWith(validate, d, items).Success?
    ensures StoreAllWith(validate, d, items).value.keys == AppendMissing(d.keys, KeysOf(items))
    decreases |items|
  {
    if |items| > 0 {
      var rest := items[1..];
      StoreAllStep(validate, d, items);
      var next := StoreWith(validate, d, items[0].0, items[0].1).value;
      assert KeysOf(items)[1..] == KeysOf(rest);
      assert KeysOf(items)[0] == items[0].0;
      StoreAllKeys(validate, next, rest);
    }
  }

  lemma {:induction false} StoreAllDomain<R, V>(validate: R -> Result<V>, d: OrderedDict<V>, items: seq<(string, R)>)
    requires StoreAllWith(validate, d, items).Success?
    ensures StoreAllWith(validate, d, items).value.entries.Keys == d.entries.Keys + Elems(KeysOf(items))
    decreases |items|
  {
    if |items| > 0 {
      var rest := items[1..];
      StoreAllStep(validate, d, items);
      var next := StoreWith(validate, d, items[0].0, items[0].1).value;
      assert KeysOf(items)[1..] == KeysOf(rest);
      ElemsCons(KeysOf(items));
      StoreAllDomain(validate, next, rest);
    }
  }

  lemma {:induction false} StoreAllValid<R, V>(validate: R -> Result<V>, d: OrderedDict<V>, items: seq<(string, R)>)
    requires d.Valid() && StoreAllWith(validate, d, items).Success?
    ensures StoreAllWith(validate, d, items).value.Valid()
    decreases |items|
  {
    if |items| > 0 {
      StoreAllStep(validate, d, items);
      StoreAllValid(validate, StoreWith(validate, d, items[0].0, items[0].1).value, items[1..]);
    }
  }

  /** A property every old value and every validated value has holds of
      every value the loop leaves in the dict. */
  lemma {:induction false} StoreAllKeeps<R, V>(validate: R -> Result<V>, ok: V -> bool,
                                                d: OrderedDict<V>, items: seq<(string, R)>)
    requires forall k :: k in d.entries ==> ok(d.entries[k])
    requires forall i :: 0 <= i < |items| && validate(items[i].1).Success? ==> ok(validate(items[i].1).value)
    requires StoreAllWith(validate, d, items).Success?
    ensures forall k :: k in StoreAllWith(validate, d, items).value.entries ==>
              ok(StoreAllWith(validate, d, items).value.entries[k])
    decreases |items|
  {
    if |items| > 0 {
      var next := StoreWith(validate, d, items[0].0, items[0].1).value;
      var rest := items[1..];
      forall i | 0 <= i < |rest| && validate(rest[i].1).Success?
        ensures ok(validate(rest[i].1).value)
      {
        assert rest[i] == items[i + 1];
      }
      StoreAllKeeps(validate, ok, next, rest);
    }
  }

  /** With distinct keys, every pair's value is stored in validated form. */
  lemma {:induction false} StoreAllValues<R, V>(validate: R -> Result<V>, d: OrderedDict<V>,
                                                 items: seq<(string, R)>, i: nat)
    requires NoDup(KeysOf(items)) && i < |items|
    requires StoreAllWith(validate, d, items).Success?
    ensures items[i].0 in StoreAllWith(validate, d, items).value.entries
    ensures StoreAllWith(validate, d, items).value.entries[items[i].0] == validate(items[i].1).value
    decreases |items|
  {
    if i == 0 {
      StoreAllHead(validate, d, items);
    } else {
      var rest := items[1..];
      StoreAllStep(validate, d, items);
      assert KeysOf(items)[1..] == KeysOf(rest);
      NoDupTail(KeysOf(items));
      assert items[i] == rest[i - 1];
      StoreAllValues(validate, StoreWith(validate, d, items[0].0, items[0].1).value, rest, i - 1);
    }
  }

  /** The first pair's value survives the rest of the loop, whose keys
      differ from it. */
  lemma StoreAllHead<R, V>(validate: R -> Result<V>, d: OrderedDict<V>, items: seq<(string, R)>)
    requires NoDup(KeysOf(items)) && |items| > 0
    requires StoreAllWith(validate, d, items).Success?
    ensures items[0].0 in StoreAllWith(validate, d, items).value.entries
    ensures StoreAllWith(validate, d, items).value.entries[items[0].0] == validate(items[0].1).value
  {
    var rest := items[1..];
    StoreAllStep(validate, d, items);
    var next := StoreWith(validate, d, items[0].0, items[0].1).value;
    var k := items[0].0;
    assert KeysOf(items)[1..] == KeysOf(rest);
    NoDupTail(KeysOf(items));
    assert k !in KeysOf(rest);
    assert k in next.entries && next.entries[k] == validate(items[0].1).value;
    assert StoreAllWith(validate, next, rest).value.entries[k] == next.entries[k];
  }

  /** A successful loop is its first step followed by the rest. */
  lemma StoreAllStep<R, V>(validate: R -> Result<V>, d: OrderedDict<V>, items: seq<(string, R)>)
    requires |items| > 0 && StoreAllWith(validate, d, items).Success?
    ensures StoreWith(validate, d, items[0].0, items[0].1).Success?
    ensures StoreAllWith(validate, d, items)
            == StoreAllWith(validate, StoreWith(validate, d, items[0].0, items[0].1).value, items[1..])
  {
  }

  /** The category's `_validate_entry`, as a function value. */
  function Validator(cat: Category): Raw -> Result<Entry> {
    raw => ValidateEntry(cat, raw)
  }

  /** `d[key] = raw` on the category's dictionary. */
  function Store(cat: Category, t: Table, key: string, raw: Raw): (r: Result<Table>)
    ensures r.Success? <==> ValidateEntry(cat, raw).Success?
    ensures r.Success? ==> r.value.keys == AppendMissing(t.keys, [key])
    ensures r.Success? ==> r.value.entries == t.entries[key := ValidateEntry(cat, raw).value]
    ensures Canonical(cat, t) && RawOk(raw) && r.Success? ==> Canonical(cat, r.value)
  {
    StoreWith(Validator(cat), t, key, raw)
  }

  /** `update(raw)`: the mapping is read as `dict(raw)` and each of its
      entries stored in turn. Only a dict is accepted as the mapping; the
      update succeeds exactly when every value of the mapping validates. */
  function Update(cat: Category, t: Table, raw: Raw): (r: Result<Table>)
    ensures !raw.Dict? ==> r.Failure?
    ensures raw.Dict? ==>
              (r.Success? <==> forall k :: k in AsMap(raw.pairs) ==> ValidateEntry(cat, AsMap(raw.pairs)[k]).Success?)
    ensures raw.Dict? && r.Success? ==> r.value.keys == AppendMissing(t.keys, Distinct(KeysOf(raw.pairs)))
  {
    if raw.Dict? then
      var items := Items(FromItems(raw.pairs));
      ItemsCoverMap(raw.pairs);
      AllItemsValidate(Validator(cat), raw.pairs);
      var r := StoreAllWith(Validator(cat), t, items);
      assert r.Success? ==> r.value.keys == AppendMissing(t.keys, KeysOf(items)) by {
        if r.Success? {
          StoreAllShape(Validator(cat), t, items);
        }
      }
      r
    else Failure
  }

  /** The items of `dict(pairs)` are its keys, once each, with their values. */
  lemma ItemsCoverMap<V>(pairs: seq<(string, V)>)
    ensures NoDup(KeysOf(Items(FromItems(pairs))))
    ensures forall k :: k in AsMap(pairs) <==> k in KeysOf(Items(FromItems(pairs)))
    ensures forall i :: 0 <= i < |Items(FromItems(pairs))| ==>
              Items(FromItems(pairs))[i].1 == AsMap(pairs)[Items(FromItems(pairs))[i].0]
  {
    var items := Items(FromItems(pairs));
    forall k ensures k in AsMap(pairs) <==> k in KeysOf(items) {
      assert k in Elems(KeysOf(items)) <==> k in KeysOf(items);
    }
  }

  /** Every item of `dict(pairs)` validates exactly when every value of the
      mapping does. */
  lemma AllItemsValidate<R, V>(validate: R -> Result<V>, pairs: seq<(string, R)>)
    ensures ItemsValidate(validate, Items(FromItems(pairs))) <==> ValuesValidate(validate, AsMap(pairs))
  {
    if ItemsValidate(validate, Items(FromItems(pairs))) {
      ItemsValidateMap(validate, pairs);
    }
    if ValuesValidate(validate, AsMap(pairs)) {
      MapValidatesItems(validate, pairs);
    }
  }

  predicate ItemsValidate<R, V>(validate: R -> Result<V>, items: seq<(string, R)>) {
    forall i :: 0 <= i < |items| ==> validate(items[i].1).Success?
  }

  predicate ValuesValidate<R, V>(validate: R -> Result<V>, m: map<string, R>) {
    forall k :: k in m ==> validate(m[k]).Success?
  }

  lemma ItemsValidateMap<R, V>(validate: R -> Result<V>, pairs: seq<(string, R)>)
    requires ItemsValidate(validate, Items(FromItems(pairs)))
    ensures ValuesValidate(validate, AsMap(pairs))
  {
    forall k | k in AsMap(pairs) ensures validate(AsMap(pairs)[k]).Success? {
      ItemOfKey(pairs, k);
    }
  }

  lemma MapValidatesItems<R, V>(validate: R -> Result<V>, pairs: seq<(string, R)>)
    requires ValuesValidate(validate, AsMap(pairs))
    ensures ItemsValidate(validate, Items(FromItems(pairs)))
  {
    forall i | 0 <= i < |Items(FromItems(pairs))| ensures validate(Items(FromItems(pairs))[i].1).Success? {
      KeyOfItem(pairs, i);
    }
  }

  /** Each key of `dict(pairs)` is listed by some item, with its value. */
  lemma ItemOfKey<V>(pairs: seq<(string, V)>, k: string)
    requires k in AsMap(pairs)
    ensures exists i :: 0 <= i < |Items(FromItems(pairs))|
                        && Items(FromItems(pairs))[i] == (k, AsMap(pairs)[k])
  {
    var d := FromItems(pairs);
    assert k in Elems(d.keys);
    var i :| 0 <= i < |d.keys| && d.keys[i] == k;
    assert KeysOf(Items(d))[i] == k;
  }

  /** Each item of `dict(pairs)` is a key of the mapping with its value. */
  lemma KeyOfItem<V>(pairs: seq<(string, V)>, i: nat)
    requires i < |Items(FromItems(pairs))|
    ensures Items(FromItems(pairs))[i].0 in AsMap(pairs)
    ensures Items(FromItems(pairs))[i].1 == AsMap(pairs)[Items(FromItems(pairs))[i].0]
  {
  }

  /** After `update(pairs)`, each key of the mapping holds its validated value. */
  lemma UpdateValues(cat: Category, t: Table, pairs: seq<(string, Raw)>, k: string)
    requires Update(cat, t, Dict(pairs)).Success? && k in AsMap(pairs)
    ensures k in Update(cat, t, Dict(pairs)).value.entries
    ensures Update(cat, t, Dict(pairs)).value.entries[k] == ValidateEntry(cat, AsMap(pairs)[k]).value
  {
    var items := Items(FromItems(pairs));
    ItemsCoverMap(pairs);
    ItemOfKey(pairs, k);
    var i :| 0 <= i < |items| && items[i] == (k, AsMap(pairs)[k]);
    StoreAllValues(Validator(cat), t, items, i);
  }

  /** `update(pairs)` leaves every key outside the mapping as it was. */
  lemma UpdateKeepsOthers(cat: Category, t: Table, pairs: seq<(string, Raw)>, k: string)
    requires Update(cat, t, Dict(pairs)).Success? && k in t.entries && k !in AsMap(pairs)
    ensures k in Update(cat, t, Dict(pairs)).value.entries
    ensures Update(cat, t, Dict(pairs)).value.entries[k] == t.entries[k]
  {
    ItemsCoverMap(pairs);
  }

  /** Updating a canonical dictionary with valid values keeps it canonical. */
  lemma UpdateCanonical(cat: Category, t: Table, pairs: seq<(string, Raw)>)
    requires Canonical(cat, t) && AllRawOk(pairs) && Update(cat, t, Dict(pairs)).Success?
    ensures Canonical(cat, Update(cat, t, Dict(pairs)).value)
  {
    var items := Items(FromItems(pairs));
    ItemsCoverMap(pairs);
    forall i | 0 <= i < |items| ensures RawOk(items[i].1) {
      ValueOfSomePair(pairs, items[i].0);
    }
    StoreAllShape(Validator(cat), t, items);
    StoreAllKeeps(Validator(cat), e => Admitted(cat, e), t, items);
  }

  /** Every value of `dict(pairs)` is the value of one of the pairs. */
  lemma {:induction false} ValueOfSomePair(pairs: seq<(string, Raw)>, k: string)
    requires k in AsMap(pairs)
    ensures exists i :: 0 <= i < |pairs| && pairs[i].1 == AsMap(pairs)[k]
    decreases |pairs|
  {
    var n := |pairs| - 1;
    if pairs[n].0 != k {
      ValueOfSomePair(pairs[..n], k);
      var i :| 0 <= i < n && pairs[..n][i].1 == AsMap(pairs[..n])[k];
      assert pairs[i].1 == AsMap(pairs)[k];
    }
  }

  /** `SomeDict(raw)`: an empty dictionary updated with `raw`; its keys are
      those of `dict(raw)`, in first-seen order. */
  function New(cat: Category, raw: Raw): (r: Result<Table>)
    ensures !raw.Dict? ==> r.Failure?
    ensures raw.Dict? && r.Success? ==> r.value.keys == Distinct(KeysOf(raw.pairs))
  {
    if raw.Dict? then
      var keys := Distinct(KeysOf(raw.pairs));
      AppendMissingFresh([], keys);
      assert [] + keys == keys;
      Update(cat, Empty(), raw)
    else Failure
  }

  /** `SomeDict(pairs)` holds exactly the keys of the pairs, each with its
      validated value. */
  lemma NewContents(cat: Category, pairs: seq<(string, Raw)>, k: string)
    requires New(cat, Dict(pairs)).Success?
    ensures New(cat, Dict(pairs)).value.Valid()
    ensures k in New(cat, Dict(pairs)).value.entries <==> k in KeysOf(pairs)
    ensures k in KeysOf(pairs) ==>
              New(cat, Dict(pairs)).value.entries[k] == ValidateEntry(cat, AsMap(pairs)[k]).value
  {
    var items := Items(FromItems(pairs));
    ItemsCoverMap(pairs);
    StoreAllShape(Validator(cat), Empty(), items);
    AsMapKeys(pairs, k);
    if k in KeysOf(pairs) {
      UpdateValues(cat, Empty(), pairs, k);
    }
  }

  /** `SomeDict(pairs)` built from valid values is canonical. */
  lemma NewCanonical(cat: Category, pairs: seq<(string, Raw)>)
    requires AllRawOk(pairs) && New(cat, Dict(pairs)).Success?
    ensures Canonical(cat, New(cat, Dict(pairs)).value)
  {
    UpdateCanonical(cat, Empty(), pairs);
  }

  /** Storing a dictionary's own items, each passed through `f`, rebuilds
      the dictionary when validation undoes `f`. */
  lemma RebuildStore<R, V>(validate: R -> Result<V>, t: OrderedDict<V>, f: V -> R)
    requires t.Valid()
    requires forall k :: k in t.entries ==> validate(f(t.entries[k])) == Success(t.entries[k])
    ensures StoreAllWith(validate, Empty(), MapItems(t, f)) == Success(t)
  {
    RebuildSucceeds(validate, t, f);
    RebuildKeys(validate, t, f);
    RebuildEntries(validate, t, f);
  }

  lemma RebuildKeys<R, V>(validate: R -> Result<V>, t: OrderedDict<V>, f: V -> R)
    requires t.Valid()
    requires StoreAllWith(validate, Empty(), MapItems(t, f)).Success?
    ensures StoreAllWith(validate, Empty(), MapItems(t, f)).value.keys == t.keys
  {
    StoreAllShape(validate, Empty(), MapItems(t, f));
    AppendMissingFresh([], t.keys);
    assert [] + t.keys == t.keys;
  }

  lemma RebuildEntries<R, V>(validate: R -> Result<V>, t: OrderedDict<V>, f: V -> R)
    requires t.Valid()
    requires forall k :: k in t.entries ==> validate(f(t.entries[k])) == Success(t.entries[k])
    requires StoreAllWith(validate, Empty(), MapItems(t, f)).Success?
    ensures StoreAllWith(validate, Empty(), MapItems(t, f)).value.entries == t.entries
  {
    var r := StoreAllWith(validate, Empty(), MapItems(t, f)).value;
    RebuildDomain(validate, t, f);
    forall k | k in t.entries ensures r.entries[k] == t.entries[k] {
      RebuildAt(validate, t, f, k);
    }
    MapsAgree(r.entries, t.entries);
  }

  lemma RebuildDomain<R, V>(validate: R -> Result<V>, t: OrderedDict<V>, f: V -> R)
    requires t.Valid()
    requires StoreAllWith(validate, Empty(), MapItems(t, f)).Success?
    ensures StoreAllWith(validate, Empty(), MapItems(t, f)).value.entries.Keys == t.entries.Keys
  {
    StoreAllShape(validate, Empty(), MapItems(t, f));
  }

  /** Maps with the same keys and the same value at each key are equal. */
  lemma MapsAgree<K, V>(a: map<K, V>, b: map<K, V>)
    requires a.Keys == b.Keys && forall k :: k in a ==> a[k] == b[k]
    ensures a == b
  {
  }

  lemma RebuildAt<R, V>(validate: R -> Result<V>, t: OrderedDict<V>, f: V -> R, k: string)
    requires t.Valid() && k in t.entries
    requires forall k :: k in t.entries ==> validate(f(t.entries[k])) == Success(t.entries[k])
    requires StoreAllWith(validate, Empty(), MapItems(t, f)).Success?
    ensures k in StoreAllWith(validate, Empty(), MapItems(t, f)).value.entries
    ensures StoreAllWith(validate, Empty(), MapItems(t, f)).value.entries[k] == t.entries[k]
  {
    var items := MapItems(t, f);
    assert k in t.keys;
    var i :| 0 <= i < |t.keys| && t.keys[i] == k;
    assert items[i].0 == k by {
      assert KeysOf(items)[i] == items[i].0;
    }
    assert items[i].1 == f(t.entries[k]);
    StoreAllValues(validate, Empty(), items, i);
  }


  lemma RebuildSucceeds<R, V>(validate: R -> Result<V>, t: OrderedDict<V>, f: V -> R)
    requires t.Valid()
    requires forall k :: k in t.entries ==> validate(f(t.entries[k])) == Success(t.entries[k])
    ensures StoreAllWith(validate, Empty(), MapItems(t, f)).Success?
  {
    var items := MapItems(t, f);
    forall i | 0 <= i < |items| ensures validate(items[i].1).Success? {
      assert items[i].1 == f(t.entries[items[i].0]);
    }
  }

  /** A dictionary rebuilt from its own items, each value passed through
      `f`, is the same dictionary when validation undoes `f`. */
  lemma RebuildWith(cat: Category, t: Table, f: Entry -> Raw)
    requires t.Valid()
    requires forall k :: k in t.entries ==> ValidateEntry(cat, f(t.entries[k])) == Success(t.entries[k])
    ensures New(cat, Dict(MapItems(t, f))) == Success(t)
  {
    RebuildStore(Validator(cat), t, f);
    RebuildIsNew(cat, MapItems(t, f));
  }

  /** With distinct keys, building a dictionary from pairs stores them in
      their own order. */
  lemma RebuildIsNew(cat: Category, items: seq<(string, Raw)>)
    requires NoDup(KeysOf(items))
    ensures New(cat, Dict(items)) == StoreAllWith(Validator(cat), Empty(), items)
  {
    ItemsOfDistinct(items);
  }

  /** `SomeDict({k: v.model_dump() | {"type": ...} for k, v in d.items()})`
      gives back `d`: the serialised form of a dictionary reads back
      through the longhand path of its own category. */
  lemma SerialisedTableRoundTrip(cat: Category, t: Table)
    requires Canonical(cat, t) && forall k :: k in t.entries ==> PlainEntry(t.entries[k])
    ensures New(cat, Dict(MapItems(t, Serialise))) == Success(t)
  {
    forall k | k in t.entries ensures ValidateEntry(cat, Serialise(t.entries[k])) == Success(t.entries[k]) {
      SerialiseRoundTrip(cat, t.entries[k]);
    }
    RebuildWith(cat, t, Serialise);
  }

  /** `SomeDict(dict(d))` gives back `d` when every value is of the class
      the dictionary passes through unchanged. */
  lemma InstanceTableRoundTrip(cat: Category, t: Table)
    requires t.Valid() && forall k :: k in t.entries ==> InstanceOf(cat, t.entries[k])
    ensures New(cat, Dict(MapItems(t, e => Instance(e)))) == Success(t)
  {
    RebuildWith(cat, t, e => Instance(e));
  }
}
