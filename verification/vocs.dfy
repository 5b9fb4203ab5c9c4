/** The `VOCS` model of `gest_api/vocs.py`: five validated dictionaries
    (variables, objectives, constraints, constants, observables), the field
    validators that build them, the serialiser, and the name and count
    properties derived from them. */
module Vocs {
  import opened Wrappers
  import opened Seqs
  import opened OrderedDicts
  import opened Specs
  import opened Fields
  import opened Entries
  import opened ValidatedDicts

  datatype VOCS = VOCS(variables: Table, objectives: Table, constraints: Table,
                       constants: Table, observables: Table)
  {
    /** The dictionary of one category. */
    function Field(cat: Category): Table {
      match cat
      case Variables => variables
      case Objectives => objectives
      case Constraints => constraints
      case Constants => constants
      case Observables => observables
    }

    /** The same record with the dictionary of `cat` replaced. */
    function With(cat: Category, t: Table): (r: VOCS)
      ensures forall c :: r.Field(c) == if c == cat then t else Field(c)
    {
      match cat
      case Variables => this.(variables := t)
      case Objectives => this.(objectives := t)
      case Constraints => this.(constraints := t)
      case Constants => this.(constants := t)
      case Observables => this.(observables := t)
    }

    /** Every dictionary is well keyed (the structural part, needed to list
        its items). */
    ghost predicate Keyed() {
      forall cat :: Field(cat).Valid()
    }

    /** Every dictionary holds only what its category admits. */
    ghost predicate Valid() {
      forall cat :: Canonical(cat, Field(cat))
    }

    /** No entry holds a spec object inside its `dtype` or constant value. */
    ghost predicate Plain() {
      forall cat, k :: k in Field(cat).entries ==> PlainEntry(Field(cat).entries[k])
    }
  }

  /** The keyword under which a category is passed to `VOCS(...)`. */
  function FieldName(cat: Category): string {
    match cat
    case Variables => "variables"
    case Objectives => "objectives"
    case Constraints => "constraints"
    case Constants => "constants"
    case Observables => "observables"
  }

  /** The category a keyword names, if any. */
  function CategoryNamed(name: string): Option<Category> {
    if name == "variables" then Some(Variables)
    else if name == "objectives" then Some(Objectives)
    else if name == "constraints" then Some(Constraints)
    else if name == "constants" then Some(Constants)
    else if name == "observables" then Some(Observables)
    else None
  }

  /** `FieldName` and `CategoryNamed` are inverse. */
  lemma CategoryNamedInverse(cat: Category, name: string)
    ensures CategoryNamed(FieldName(cat)) == Some(cat)
    ensures CategoryNamed(name) == Some(cat) ==> name == FieldName(cat)
  {
  }

  /** `extra="forbid"`: every keyword names a field. */
  predicate KnownKeywords(kw: Kwargs) {
    forall name :: name in kw ==> CategoryNamed(name).Some?
  }

  /** The string names of a list or set of observables. */
  function NamesOf(items: seq<Raw>): (r: Result<seq<string>>)
    ensures r.Success? <==> forall i :: 0 <= i < |items| ==> items[i].Scalar? && items[i].atom.Str?
    ensures r.Success? ==> |r.value| == |items| && forall i :: 0 <= i < |items| ==> items[i] == Text(r.value[i])
    decreases |items|
  {
    if |items| == 0 then Success([])
    else if items[0].Scalar? && items[0].atom.Str? then
      var rest :- NamesOf(items[1..]);
      assert forall i :: 1 <= i < |items| ==> items[i] == items[1..][i - 1];
      Success([items[0].atom.s] + rest)
    else Failure
  }

  /** `{name: Observable() for name in names}` as pairs. */
  function ObservablePairs(names: seq<string>): (r: seq<(string, Raw)>)
    ensures KeysOf(r) == names
    ensures forall i :: 0 <= i < |r| ==> r[i].1 == Instance(Observable(None))
  {
    seq(|names|, i requires 0 <= i < |names| => (names[i], Instance(Observable(None))))
  }

  /** The elements of a set, as raw values. */
  function SetItems(elems: seq<Atom>): (r: seq<Raw>)
    ensures |r| == |elems| && forall i :: 0 <= i < |elems| ==> r[i] == Scalar(elems[i])
  {
    seq(|elems|, i requires 0 <= i < |elems| => Scalar(elems[i]))
  }

  /** The names of a list or a set of names, in iteration order. */
  function NameItems(v: Raw): seq<Raw>
    requires v.List? || v.Set?
  {
    if v.List? then v.items else SetItems(v.elems)
  }

  /** `validate_observables`: a list or set of names becomes one default
      `Observable` per name, once, at the position of its first occurrence;
      a dict goes through `ObservableDict`; any other value is refused. */
  function ValidateObservables(v: Raw): (r: Result<Table>)
    ensures !(v.List? || v.Set? || v.Dict?) ==> r.Failure?
    ensures v.Dict? ==> r == New(Observables, v)
    ensures v.List? || v.Set? ==> (r.Success? <==> NamesOf(NameItems(v)).Success?)
    ensures (v.List? || v.Set?) && r.Success? ==>
              && r.value.Valid()
              && r.value.keys == Distinct(NamesOf(NameItems(v)).value)
              && forall k :: k in r.value.entries ==> r.value.entries[k] == Observable(None)
  {
    if v.List? || v.Set? then
      var names :- NamesOf(NameItems(v));
      ObservablesFromNames(names);
      New(Observables, Dict(ObservablePairs(names)))
    else if v.Dict? then New(Observables, v)
    else Failure
  }

  /** Names given as a list: each becomes a default `Observable`, once, at
      the position of its first occurrence. */
  lemma ObservablesFromNames(names: seq<string>)
    ensures New(Observables, Dict(ObservablePairs(names))).Success?
    ensures New(Observables, Dict(ObservablePairs(names))).value.Valid()
    ensures New(Observables, Dict(ObservablePairs(names))).value.keys == Distinct(names)
    ensures forall k :: k in New(Observables, Dict(ObservablePairs(names))).value.entries ==>
              New(Observables, Dict(ObservablePairs(names))).value.entries[k] == Observable(None)
  {
    var pairs := ObservablePairs(names);
    ObservablesSucceed(names);
    forall k | k in New(Observables, Dict(pairs)).value.entries
      ensures New(Observables, Dict(pairs)).value.entries[k] == Observable(None)
    {
      ObservableAt(names, k);
    }
    NewContents(Observables, pairs, "");
  }

  /** Every value of the mapping built from the names is a default `Observable`. */
  lemma ObservableValues(names: seq<string>)
    ensures forall k :: k in AsMap(ObservablePairs(names)) ==>
              AsMap(ObservablePairs(names))[k] == Instance(Observable(None))
  {
    var pairs := ObservablePairs(names);
    forall k | k in AsMap(pairs) ensures AsMap(pairs)[k] == Instance(Observable(None)) {
      ValueOfSomePair(pairs, k);
    }
  }

  lemma ObservablesSucceed(names: seq<string>)
    ensures New(Observables, Dict(ObservablePairs(names))).Success?
  {
    ObservableValues(names);
    assert ValidateEntry(Observables, Instance(Observable(None))).Success?;
  }

  lemma ObservableAt(names: seq<string>, k: string)
    requires New(Observables, Dict(ObservablePairs(names))).Success?
    requires k in New(Observables, Dict(ObservablePairs(names))).value.entries
    ensures New(Observables, Dict(ObservablePairs(names))).value.entries[k] == Observable(None)
  {
    var pairs := ObservablePairs(names);
    NewContents(Observables, pairs, k);
    ObservableValueAt(names, k);
    DefaultObservableKept();
  }

  /** Each name of the mapping is bound to a default `Observable`. */
  lemma ObservableValueAt(names: seq<string>, k: string)
    requires k in KeysOf(ObservablePairs(names))
    ensures k in AsMap(ObservablePairs(names)) && AsMap(ObservablePairs(names))[k] == Instance(Observable(None))
  {
    AsMapKeys(ObservablePairs(names), k);
    ObservableValues(names);
  }

  /** A default `Observable` passes the observable dictionary unchanged. */
  lemma DefaultObservableKept()
    ensures ValidateEntry(Observables, Instance(Observable(None))) == Success(Observable(None))
  {
  }

  /** The field validator of a category: `SomeDict(v)`, or
      `validate_observables` for the observables. */
  function ValidateField(cat: Category, raw: Raw): Result<Table> {
    if cat == Observables then ValidateObservables(raw) else New(cat, raw)
  }

  /** A field's value: validated when given, the empty dictionary when not
      (pydantic does not validate defaults). */
  function FieldOrDefault(kw: Kwargs, cat: Category): (r: Result<Table>)
    ensures FieldName(cat) !in kw ==> r == Success(Empty())
    ensures FieldName(cat) in kw ==> r == ValidateField(cat, kw[FieldName(cat)])
  {
    if FieldName(cat) in kw then ValidateField(cat, kw[FieldName(cat)]) else Success(Empty())
  }

  /** `VOCS(**kw)`: unknown keywords are refused, `variables` is required,
      and every field given must validate. */
  function Make(kw: Kwargs): (r: Result<VOCS>)
    ensures r.Success? <==>
              && KnownKeywords(kw)
              && FieldName(Variables) in kw
              && forall cat :: FieldOrDefault(kw, cat).Success?
    ensures r.Success? ==> forall cat :: r.value.Field(cat) == FieldOrDefault(kw, cat).value
  {
    if !KnownKeywords(kw) || FieldName(Variables) !in kw then Failure
    else Assemble(cat => FieldOrDefault(kw, cat))
  }

  /** `VOCS(**kw)` field by field: it is built exactly when every field
      given validates; a field given holds its validated value, and a field
      left out holds the empty dictionary. */
  lemma MakeFields(kw: Kwargs)
    ensures Make(kw).Success? <==>
              && KnownKeywords(kw)
              && FieldName(Variables) in kw
              && forall cat :: FieldName(cat) in kw ==> ValidateField(cat, kw[FieldName(cat)]).Success?
    ensures Make(kw).Success? ==> forall cat :: FieldName(cat) !in kw ==> Make(kw).value.Field(cat) == Empty()
    ensures Make(kw).Success? ==> forall cat :: FieldName(cat) in kw ==>
              Make(kw).value.Field(cat) == ValidateField(cat, kw[FieldName(cat)]).value
  {
    forall cat ensures FieldOrDefault(kw, cat).Success? <==>
                         (FieldName(cat) in kw ==> ValidateField(cat, kw[FieldName(cat)]).Success?) {
    }
  }

  /** The record of five dictionaries, each computed by `fields`; the first
      failure is the result. */
  function Assemble(fields: Category -> Result<Table>): (r: Result<VOCS>)
    ensures r.Success? <==> forall cat :: fields(cat).Success?
    ensures r.Success? ==> forall cat :: r.value.Field(cat) == fields(cat).value
  {
    var vars :- fields(Variables);
    var objs :- fields(Objectives);
    var cons :- fields(Constraints);
    var consts :- fields(Constants);
    var obs :- fields(Observables);
    var r := VOCS(vars, objs, cons, consts, obs);
    FieldsOf(fields, r);
    Success(r)
  }

  lemma FieldsOf(fields: Category -> Result<Table>, r: VOCS)
    requires fields(Variables) == Success(r.variables) && fields(Objectives) == Success(r.objectives)
    requires fields(Constraints) == Success(r.constraints) && fields(Constants) == Success(r.constants)
    requires fields(Observables) == Success(r.observables)
    ensures forall cat :: fields(cat) == Success(r.Field(cat))
  {
    forall cat ensures fields(cat) == Success(r.Field(cat)) {
      match cat
      case Variables =>
      case Objectives =>
      case Constraints =>
      case Constants =>
      case Observables =>
    }
  }

  /** A record is determined by its five dictionaries. */
  lemma FieldsDetermine(a: VOCS, b: VOCS)
    requires forall cat :: a.Field(cat) == b.Field(cat)
    ensures a == b
  {
    assert a.Field(Variables) == b.Field(Variables) && a.Field(Objectives) == b.Field(Objectives);
    assert a.Field(Constraints) == b.Field(Constraints) && a.Field(Constants) == b.Field(Constants);
    assert a.Field(Observables) == b.Field(Observables);
  }

  /** The raw value of a field is valid all the way down: a dict whose
      values are valid, or a list or set of names. */
  predicate FieldRawOk(raw: Raw) {
    raw.Dict? ==> AllRawOk(raw.pairs)
  }

  /** Every field validator, fed valid values, builds a canonical
      dictionary. */
  lemma ValidateFieldCanonical(cat: Category, raw: Raw)
    requires FieldRawOk(raw) && ValidateField(cat, raw).Success?
    ensures Canonical(cat, ValidateField(cat, raw).value)
  {
    if raw.Dict? {
      assert ValidateField(cat, raw) == New(cat, raw);
      NewCanonical(cat, raw.pairs);
    } else {
      assert cat == Observables;
      assert WellFormed(Observable(None));
    }
  }

  /** A `VOCS` built from valid values is valid. */
  lemma MakeValid(kw: Kwargs)
    requires forall name :: name in kw ==> FieldRawOk(kw[name])
    requires Make(kw).Success?
    ensures Make(kw).value.Valid()
  {
    forall cat ensures Canonical(cat, Make(kw).value.Field(cat)) {
      if FieldName(cat) in kw {
        ValidateFieldCanonical(cat, kw[FieldName(cat)]);
      }
    }
  }

  /** `vocs.<name> = raw` under `validate_assignment=True`: the field's
      validator runs again and only that field changes. */
  function Assign(v: VOCS, name: string, raw: Raw): (r: Result<VOCS>)
    ensures r.Success? <==> CategoryNamed(name).Some? && ValidateField(CategoryNamed(name).value, raw).Success?
    ensures r.Success? ==> forall cat ::
              r.value.Field(cat) == if Some(cat) == CategoryNamed(name) then ValidateField(cat, raw).value else v.Field(cat)
  {
    match CategoryNamed(name)
    case None => Failure
    case Some(cat) =>
      var t :- ValidateField(cat, raw);
      Success(v.With(cat, t))
  }

  /** Assignment keeps a valid `VOCS` valid: the new field passed its
      validator, and the other four are untouched. */
  lemma AssignKeepsValid(v: VOCS, name: string, raw: Raw)
    requires v.Valid() && FieldRawOk(raw) && Assign(v, name, raw).Success?
    ensures Assign(v, name, raw).value.Valid()
  {
    var cat := CategoryNamed(name).value;
    ValidateFieldCanonical(cat, raw);
  }

  /** The field serialisers: every value becomes
      `val.model_dump() | {"type": type(val).__name__}`. */
  function SerialiseTable(t: Table): (r: Raw)
    requires t.Valid()
    ensures r.Dict? && KeysOf(r.pairs) == t.keys
    ensures forall i :: 0 <= i < |r.pairs| ==> r.pairs[i].1 == Serialise(t.entries[r.pairs[i].0])
  {
    Dict(MapItems(t, Serialise))
  }

  /** `vocs.model_dump()`: every field, serialised, under its own name. */
  function ModelDump(v: VOCS): (r: Kwargs)
    requires v.Keyed()
    ensures forall name :: name in r <==> CategoryNamed(name).Some?
    ensures forall cat :: FieldName(cat) in r && r[FieldName(cat)] == SerialiseTable(v.Field(cat))
  {
    FieldNamesNamed();
    map name | name in FieldNames() :: SerialiseTable(v.Field(CategoryNamed(name).value))
  }

  /** The five keywords. */
  function FieldNames(): set<string> {
    {FieldName(Variables), FieldName(Objectives), FieldName(Constraints),
     FieldName(Constants), FieldName(Observables)}
  }

  /** The keywords are exactly the names of categories. */
  lemma FieldNamesNamed()
    ensures forall cat :: FieldName(cat) in FieldNames() && CategoryNamed(FieldName(cat)) == Some(cat)
    ensures forall name :: name in FieldNames() <==> CategoryNamed(name).Some?
  {
    forall cat ensures FieldName(cat) in FieldNames() && CategoryNamed(FieldName(cat)) == Some(cat) {
      CategoryNamedInverse(cat, FieldName(cat));
      match cat
      case Variables =>
      case Objectives =>
      case Constraints =>
      case Constants =>
      case Observables =>
    }
    forall name | CategoryNamed(name).Some? ensures name in FieldNames() {
      CategoryNamedInverse(CategoryNamed(name).value, name);
    }
  }

  /** `VOCS(**vocs.model_dump()) == vocs` when no entry holds a nested spec
      object. */
  lemma DumpRoundTrip(v: VOCS)
    requires v.Valid() && v.Plain()
    ensures v.Keyed()
    ensures Make(ModelDump(v)) == Success(v)
  {
    DumpedFields(v);
    MakeOf(ModelDump(v), v);
  }

  /** Keywords whose fields all validate to those of `v` make `v`. */
  lemma MakeOf(kw: Kwargs, v: VOCS)
    requires KnownKeywords(kw) && FieldName(Variables) in kw
    requires forall cat :: FieldOrDefault(kw, cat) == Success(v.Field(cat))
    ensures Make(kw) == Success(v)
  {
    FieldsDetermine(Make(kw).value, v);
  }

  lemma DumpedFields(v: VOCS)
    requires v.Valid() && v.Plain()
    ensures v.Keyed()
    ensures forall cat :: FieldOrDefault(ModelDump(v), cat) == Success(v.Field(cat))
  {
    forall cat ensures FieldOrDefault(ModelDump(v), cat) == Success(v.Field(cat)) {
      DumpedField(v, cat);
    }
  }

  /** Each field of the dump reads back as the dictionary it came from. */
  lemma DumpedField(v: VOCS, cat: Category)
    requires v.Valid() && v.Plain()
    ensures v.Keyed()
    ensures FieldOrDefault(ModelDump(v), cat) == Success(v.Field(cat))
  {
    assert Canonical(cat, v.Field(cat));
    SerialisedTableRoundTrip(cat, v.Field(cat));
  }

  /** `variable_names`, `objective_names`, `constraint_names`,
      `observable_names`, `constant_names`: the keys of one dictionary, in
      insertion order, each once. */
  function Names(v: VOCS, cat: Category): (r: seq<string>)
    ensures v.Keyed() ==> NoDup(r) && Elems(r) == v.Field(cat).entries.Keys
  {
    v.Field(cat).keys
  }

  /** `n_variables`, `n_objectives`, `n_constraints`, `n_observables`,
      `n_constants`: `len` of one dictionary. */
  function Count(v: VOCS, cat: Category): (r: nat)
    ensures v.Keyed() ==> r == |Names(v, cat)|
  {
    assert v.Keyed() ==> |v.Field(cat).entries| == |v.Field(cat).keys| by {
      if v.Keyed() {
        NoDupCard(v.Field(cat).keys);
      }
    }
    |v.Field(cat).entries|
  }

  /** `output_names`: the objective names, then each constraint name and each
      observable name not listed yet. */
  function OutputNames(v: VOCS): (r: seq<string>)
    ensures |Names(v, Objectives)| <= |r| && r[..|Names(v, Objectives)|] == Names(v, Objectives)
    ensures Elems(r) == Elems(Names(v, Objectives)) + Elems(Names(v, Constraints)) + Elems(Names(v, Observables))
    ensures v.Keyed() ==> NoDup(r)
    ensures |r| <= |Names(v, Objectives)| + |Names(v, Constraints)| + |Names(v, Observables)|
    ensures AppendMissing(Names(v, Objectives), Names(v, Constraints)) <= r
  {
    AppendMissing(AppendMissing(Names(v, Objectives), Names(v, Constraints)), Names(v, Observables))
  }

  /** After the objective names, `output_names` lists the constraint names
      that are not objectives, in their own order, and then the observable
      names listed nowhere before, in their own order. */
  lemma OutputNamesOrder(v: VOCS)
    ensures var head := AppendMissing(Names(v, Objectives), Names(v, Constraints));
            && (forall i :: |Names(v, Objectives)| <= i < |head| ==>
                  head[i] in Names(v, Constraints) && head[i] !in Names(v, Objectives))
            && (forall i, j :: |Names(v, Objectives)| <= i < j < |head| ==>
                  FirstIndex(Names(v, Constraints), head[i]) < FirstIndex(Names(v, Constraints), head[j]))
    ensures var head := AppendMissing(Names(v, Objectives), Names(v, Constraints));
            && (forall i :: |head| <= i < |OutputNames(v)| ==>
                  OutputNames(v)[i] in Names(v, Observables) && OutputNames(v)[i] !in head)
            && (forall i, j :: |head| <= i < j < |OutputNames(v)| ==>
                  FirstIndex(Names(v, Observables), OutputNames(v)[i])
                  < FirstIndex(Names(v, Observables), OutputNames(v)[j]))
  {
    var head := AppendMissing(Names(v, Objectives), Names(v, Constraints));
    AppendMissingNew(Names(v, Objectives), Names(v, Constraints));
    AppendMissingOrder(Names(v, Objectives), Names(v, Constraints));
    AppendMissingNew(head, Names(v, Observables));
    AppendMissingOrder(head, Names(v, Observables));
  }

  /** When objectives, constraints and observables share no name,
      `output_names` is simply the three name lists one after another. */
  lemma OutputNamesDisjoint(v: VOCS)
    requires v.Keyed()
    requires v.objectives.entries.Keys !! v.constraints.entries.Keys
    requires v.objectives.entries.Keys !! v.observables.entries.Keys
    requires v.constraints.entries.Keys !! v.observables.entries.Keys
    ensures OutputNames(v) == Names(v, Objectives) + Names(v, Constraints) + Names(v, Observables)
  {
    var a, b, c := Names(v, Objectives), Names(v, Constraints), Names(v, Observables);
    AppendMissingFresh(a, b);
    assert Elems(a + b) == Elems(a) + Elems(b);
    AppendMissingFresh(a + b, c);
  }

  /** `n_outputs` is the sum of the three output counts exactly when no name
      is shared between objectives, constraints and observables. */
  lemma {:induction false} OutputCountExact(v: VOCS)
    requires v.Keyed()
    ensures NOutputs(v) == Count(v, Objectives) + Count(v, Constraints) + Count(v, Observables)
            <==> && v.objectives.entries.Keys !! v.constraints.entries.Keys
                 && v.objectives.entries.Keys !! v.observables.entries.Keys
                 && v.constraints.entries.Keys !! v.observables.entries.Keys
  {
    var a, b, c := Names(v, Objectives), Names(v, Constraints), Names(v, Observables);
    var x := AppendMissing(a, b);
    AppendMissingExact(a, b);
    AppendMissingExact(x, c);
    assert Elems(x) == Elems(a) + Elems(b);
  }

  /** `n_inputs`: variables and constants. */
  function NInputs(v: VOCS): (r: nat)
    ensures v.Keyed() ==> r == |Names(v, Variables) + Names(v, Constants)|
  {
    Count(v, Variables) + Count(v, Constants)
  }

  /** `n_outputs`: the length of `output_names`, so a name shared between
      output categories counts once. */
  function NOutputs(v: VOCS): (r: nat)
    ensures v.Keyed() ==> Count(v, Objectives) <= r <= Count(v, Objectives) + Count(v, Constraints) + Count(v, Observables)
  {
    |OutputNames(v)|
  }

  /** `all_names`: variables, then constants, then outputs. */
  function AllNames(v: VOCS): (r: seq<string>)
    ensures v.Keyed() ==> |r| == NInputs(v) + NOutputs(v)
    ensures Elems(r) == Elems(Names(v, Variables)) + Elems(Names(v, Constants)) + Elems(OutputNames(v))
  {
    Names(v, Variables) + Names(v, Constants) + OutputNames(v)
  }

  /** `all_names` repeats no name exactly when variables, constants and
      outputs share no name; the model does not check this, so a `VOCS`
      may list a name twice. */
  lemma AllNamesDistinct(v: VOCS)
    requires v.Keyed()
    ensures NoDup(AllNames(v)) <==>
              && v.variables.entries.Keys !! v.constants.entries.Keys
              && v.variables.entries.Keys !! Elems(OutputNames(v))
              && v.constants.entries.Keys !! Elems(OutputNames(v))
  {
    var vs, cs, os := Names(v, Variables), Names(v, Constants), OutputNames(v);
    NoDupConcat(vs, cs);
    NoDupConcat(vs + cs, os);
    assert Elems(vs + cs) == Elems(vs) + Elems(cs);
  }
}
