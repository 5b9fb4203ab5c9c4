/** Building a spec object from keyword fields, `SomeClass(**fields)`, and
    its inverse, `model_dump() | {"type": ClassName}`. Fields a class does
    not declare are ignored, as pydantic does for these models. */
module Fields {
  import opened Wrappers
  import opened Seqs
  import opened OrderedDicts
  import opened Specs

  /** The keyword arguments of a constructor call. */
  type Kwargs = map<string, Raw>

  /** `dtype: Optional[Union[str, Type, Tuple]] = None`. */
  function ParseDType(kw: Kwargs): (r: Result<DType>)
    ensures r.Success? ==> DTypeOk(r.value)
  {
    if "dtype" !in kw || kw["dtype"] == Scalar(NoneAtom) then Success(None)
    else if DTypeOk(Some(kw["dtype"])) then Success(Some(kw["dtype"]))
    else Failure
  }

  /** A `float` field: numbers only (no coercion from strings or bools). */
  function ParseFloat(v: Raw): Result<real> {
    if v.Scalar? && v.atom.Num? then Success(v.atom.x) else Failure
  }

  /** `default_value: float | None = None`. */
  function ParseDefault(kw: Kwargs): Result<Option<real>> {
    if "default_value" !in kw || kw["default_value"] == Scalar(NoneAtom) then Success(None)
    else var x :- ParseFloat(kw["default_value"]); Success(Some(x))
  }

  /** `conlist(float, min_length=2, max_length=2)`. */
  function ParsePair(v: Raw): (r: Result<(real, real)>)
    ensures r.Success? <==> v.List? && |v.items| == 2 && ParseFloat(v.items[0]).Success?
                                                      && ParseFloat(v.items[1]).Success?
    ensures r.Success? ==> r.value == (v.items[0].atom.x, v.items[1].atom.x)
  {
    if v.List? && |v.items| == 2 then
      var lo :- ParseFloat(v.items[0]);
      var hi :- ParseFloat(v.items[1]);
      Success((lo, hi))
    else Failure
  }

  /** `conset(Any, min_length=1)`. */
  function ParseValues(v: Raw): (r: Result<seq<Atom>>)
    ensures r.Success? <==> v.Set? && |v.elems| > 0
    ensures r.Success? ==> |r.value| > 0 && NoDup(r.value) && Elems(r.value) == Elems(v.elems)
  {
    if v.Set? && |v.elems| > 0 then Success(Distinct(v.elems)) else Failure
  }

  /** A field without a default. */
  function Required(kw: Kwargs, field: string): Result<Raw> {
    if field in kw then Success(kw[field]) else Failure
  }

  /** `ContinuousVariable(domain=...)` with its `domain[1] > domain[0]` validator. */
  function NewContinuous(dtype: DType, dv: Option<real>, domain: Raw): (r: Result<Entry>)
    ensures r.Success? <==> ParsePair(domain).Success? && ParsePair(domain).value.0 < ParsePair(domain).value.1
    ensures r.Success? ==> r.value == ContinuousVariable(dtype, dv, domain.items[0].atom.x, domain.items[1].atom.x)
  {
    var (lo, hi) :- ParsePair(domain);
    :- Need(hi > lo);
    Success(ContinuousVariable(dtype, dv, lo, hi))
  }

  /** `DiscreteVariable(values=...)`: a non-empty set. */
  function NewDiscrete(dtype: DType, dv: Option<real>, values: Raw): (r: Result<Entry>)
    ensures r.Success? <==> values.Set? && |values.elems| > 0
    ensures r.Success? ==> r.value.DiscreteVariable? && Elems(r.value.values) == Elems(values.elems)
  {
    var vs :- ParseValues(values);
    Success(DiscreteVariable(dtype, dv, vs))
  }

  /** `BoundsConstraint(range=...)` with its ascending-order validator. */
  function NewBounds(dtype: DType, range: Raw): (r: Result<Entry>)
    ensures r.Success? <==> ParsePair(range).Success? && ParsePair(range).value.0 < ParsePair(range).value.1
    ensures r.Success? ==> r.value == BoundsConstraint(dtype, range.items[0].atom.x, range.items[1].atom.x)
  {
    var (lo, hi) :- ParsePair(range);
    :- Need(lo < hi);
    Success(BoundsConstraint(dtype, lo, hi))
  }

  /** `cls(**kw)`: fails for a missing required field and for a field
      value the class's validators reject. */
  function Construct(cls: Class, kw: Kwargs): (r: Result<Entry>)
    ensures r.Success? ==> ClassOf(r.value) == cls && WellFormed(r.value)
    ensures ParseDType(kw).Failure? ==> r.Failure?
  {
    var dtype :- ParseDType(kw);
    match cls
    case BaseFieldClass => Success(BaseField(dtype))
    case BaseVariableClass =>
      var dv :- ParseDefault(kw);
      Success(BaseVariable(dtype, dv))
    case ContinuousVariableClass =>
      var dv :- ParseDefault(kw);
      var domain :- Required(kw, "domain");
      NewContinuous(dtype, dv, domain)
    case DiscreteVariableClass =>
      var dv :- ParseDefault(kw);
      var values :- Required(kw, "values");
      NewDiscrete(dtype, dv, values)
    case BaseConstraintClass => Success(BaseConstraint(dtype))
    case LessThanConstraintClass =>
      var v :- Required(kw, "value");
      var t :- ParseFloat(v);
      Success(LessThanConstraint(dtype, t))
    case GreaterThanConstraintClass =>
      var v :- Required(kw, "value");
      var t :- ParseFloat(v);
      Success(GreaterThanConstraint(dtype, t))
    case BoundsConstraintClass =>
      var range :- Required(kw, "range");
      NewBounds(dtype, range)
    case BaseObjectiveClass => Success(BaseObjective(dtype))
    case MinimizeObjectiveClass => Success(MinimizeObjective(dtype))
    case MaximizeObjectiveClass => Success(MaximizeObjective(dtype))
    case ExploreObjectiveClass => Success(ExploreObjective(dtype))
    case ConstantClass =>
      var v :- Required(kw, "value");
      Success(Constant(dtype, v))
    case ObservableClass => Success(Observable(dtype))
  }

  /** A Python number (no coercion from strings or bools). */
  predicate IsNumber(v: Raw) {
    v.Scalar? && v.atom.Num?
  }

  /** A Python string. */
  predicate IsString(v: Raw) {
    v.Scalar? && v.atom.Str?
  }

  /** An optional field that is absent or explicitly None takes its
      default, None. */
  predicate Omitted(kw: Kwargs, field: string) {
    field !in kw || kw[field] == Scalar(NoneAtom)
  }

  /** A two-number list in strictly ascending order. */
  predicate AscendingPair(v: Raw) {
    v.List? && |v.items| == 2 && IsNumber(v.items[0]) && IsNumber(v.items[1])
    && v.items[0].atom.x < v.items[1].atom.x
  }

  /** What `cls(**kw)` demands of the keywords: an accepted `dtype` unless it
      is omitted, a number as `default_value` unless it is omitted (for the
      variable classes), and each required field present and accepted by its
      validator. */
  predicate FieldsAccepted(cls: Class, kw: Kwargs) {
    && (Omitted(kw, "dtype") || DTypeOk(Some(kw["dtype"])))
    && (cls in {BaseVariableClass, ContinuousVariableClass, DiscreteVariableClass} ==>
          Omitted(kw, "default_value") || IsNumber(kw["default_value"]))
    && (cls == ContinuousVariableClass ==> "domain" in kw && AscendingPair(kw["domain"]))
    && (cls == DiscreteVariableClass ==> "values" in kw && kw["values"].Set? && |kw["values"].elems| > 0)
    && (cls in {LessThanConstraintClass, GreaterThanConstraintClass} ==> "value" in kw && IsNumber(kw["value"]))
    && (cls == BoundsConstraintClass ==> "range" in kw && AscendingPair(kw["range"]))
    && (cls == ConstantClass ==> "value" in kw)
  }

  /** `cls(**kw)` succeeds exactly when the keywords are accepted; an
      omitted optional field is no obstacle. */
  lemma ConstructAccepts(cls: Class, kw: Kwargs)
    ensures Construct(cls, kw).Success? <==> FieldsAccepted(cls, kw)
  {
  }

  /** The object `cls(**kw)` builds holds the given fields: the `dtype`
      given or None, the `default_value` given or None, and the domain,
      values, threshold, range or constant value given. */
  lemma ConstructFields(cls: Class, kw: Kwargs)
    requires Construct(cls, kw).Success?
    ensures Construct(cls, kw).value.dtype == if Omitted(kw, "dtype") then None else Some(kw["dtype"])
    ensures cls in {BaseVariableClass, ContinuousVariableClass, DiscreteVariableClass} ==>
              Construct(cls, kw).value.defaultValue
              == if Omitted(kw, "default_value") then None else Some(kw["default_value"].atom.x)
    ensures cls == ContinuousVariableClass ==>
              Construct(cls, kw).value.lo == kw["domain"].items[0].atom.x
              && Construct(cls, kw).value.hi == kw["domain"].items[1].atom.x
    ensures cls == DiscreteVariableClass ==> Elems(Construct(cls, kw).value.values) == Elems(kw["values"].elems)
    ensures cls in {LessThanConstraintClass, GreaterThanConstraintClass} ==>
              Construct(cls, kw).value.threshold == kw["value"].atom.x
    ensures cls == BoundsConstraintClass ==>
              Construct(cls, kw).value.lo == kw["range"].items[0].atom.x
              && Construct(cls, kw).value.hi == kw["range"].items[1].atom.x
    ensures cls == ConstantClass ==> Construct(cls, kw).value.value == kw["value"]
  {
    ConstructAccepts(cls, kw);
  }

  /** Omitting `dtype` is the same as passing None. */
  lemma ConstructOmittedDType(cls: Class, kw: Kwargs)
    requires "dtype" !in kw
    ensures Construct(cls, kw) == Construct(cls, kw["dtype" := Scalar(NoneAtom)])
  {
    var kw' := kw["dtype" := Scalar(NoneAtom)];
    assert ParseDType(kw) == ParseDType(kw') == Success(None);
    assert ParseDefault(kw) == ParseDefault(kw');
    assert forall f :: f != "dtype" ==> Required(kw, f) == Required(kw', f);
  }

  /** Omitting `default_value` is the same as passing None. */
  lemma ConstructOmittedDefault(cls: Class, kw: Kwargs)
    requires "default_value" !in kw
    ensures Construct(cls, kw) == Construct(cls, kw["default_value" := Scalar(NoneAtom)])
  {
    var kw' := kw["default_value" := Scalar(NoneAtom)];
    assert ParseDType(kw) == ParseDType(kw');
    assert ParseDefault(kw) == ParseDefault(kw') == Success(None);
    assert forall f :: f != "default_value" ==> Required(kw, f) == Required(kw', f);
  }

  /** How `model_dump` writes a value held in a field: a spec object becomes
      the dict of its own fields, and lists, tuples and dicts are written
      element by element. */
  function DumpValue(r: Raw): (d: Raw)
    ensures r.Scalar? || r.Set? ==> d == r
    ensures r.Tuple? ==> d.Tuple?
    decreases r, 0
  {
    match r
    case Scalar(_) => r
    case Set(_) => r
    case List(items) => List(seq(|items|, i requires 0 <= i < |items| => DumpValue(items[i])))
    case Tuple(items) => Tuple(seq(|items|, i requires 0 <= i < |items| => DumpValue(items[i])))
    case Dict(pairs) => Dict(seq(|pairs|, i requires 0 <= i < |pairs| => (pairs[i].0, DumpValue(pairs[i].1))))
    case Instance(e) => Dict(Dump(e))
  }

  function DumpDType(d: DType): Raw
    decreases d, 0
  {
    if d.None? then Scalar(NoneAtom) else DumpValue(d.value)
  }

  function DumpOptional(x: Option<real>): Raw {
    if x.None? then Scalar(NoneAtom) else Number(x.value)
  }

  function DumpPair(lo: real, hi: real): Raw {
    List([Number(lo), Number(hi)])
  }

  /** The declared fields of `e`, inherited ones first, given its `dtype`
      and, for a constant, its `value` already dumped. */
  function DumpFields(e: Entry, dtype: Raw, value: Raw): seq<(string, Raw)> {
    var d := ("dtype", dtype);
    match e
    case BaseVariable(_, dv) => [d, ("default_value", DumpOptional(dv))]
    case ContinuousVariable(_, dv, lo, hi) =>
      [d, ("default_value", DumpOptional(dv)), ("domain", DumpPair(lo, hi))]
    case DiscreteVariable(_, dv, vs) =>
      [d, ("default_value", DumpOptional(dv)), ("values", Set(vs))]
    case LessThanConstraint(_, t) => [d, ("value", Number(t))]
    case GreaterThanConstraint(_, t) => [d, ("value", Number(t))]
    case BoundsConstraint(_, lo, hi) => [d, ("range", DumpPair(lo, hi))]
    case Constant(_, _) => [d, ("value", value)]
    case _ => [d]
  }

  /** `e.model_dump()`. */
  function Dump(e: Entry): seq<(string, Raw)>
    decreases e, 1
  {
    DumpFields(e, DumpDType(e.dtype), if e.Constant? then DumpValue(e.value) else Scalar(NoneAtom))
  }

  /** The entry `type(e)(**e.model_dump())` builds: `e` with every spec
      object inside its `dtype`, or inside a constant's `value`, replaced by
      the dict of its fields. */
  function Flatten(e: Entry): Entry {
    var f := e.(dtype := FlattenDType(e.dtype));
    match e
    case Constant(_, v) => Constant(f.dtype, DumpValue(v))
    case _ => f
  }

  /** The `dtype` that reading back a dumped `dtype` gives. */
  function FlattenDType(d: DType): DType {
    if d.None? then None else Some(DumpValue(d.value))
  }

  /** A dumped `dtype` reads back with any nested spec object flattened. */
  lemma ParseDumpedDType(d: DType, kw: Kwargs)
    requires DTypeOk(d) && "dtype" in kw && kw["dtype"] == DumpDType(d)
    ensures ParseDType(kw) == Success(FlattenDType(d))
  {
  }

  /** Dumping a value that holds no spec object changes nothing. */
  lemma {:induction false} DumpPlainValue(r: Raw)
    requires Plain(r)
    ensures DumpValue(r) == r
    decreases r
  {
    match r {
      case Scalar(_) =>
      case Set(_) =>
      case List(items) =>
        forall i | 0 <= i < |items| ensures DumpValue(items[i]) == items[i] {
          DumpPlainValue(items[i]);
        }
        assert DumpValue(r).items == items;
      case Tuple(items) =>
        forall i | 0 <= i < |items| ensures DumpValue(items[i]) == items[i] {
          DumpPlainValue(items[i]);
        }
        assert DumpValue(r).items == items;
      case Dict(pairs) =>
        forall i | 0 <= i < |pairs| ensures DumpValue(pairs[i].1) == pairs[i].1 {
          DumpPlainValue(pairs[i].1);
        }
        assert DumpValue(r).pairs == pairs;
    }
  }

  /** An entry holding no spec object is its own flattening. */
  lemma FlattenPlain(e: Entry)
    requires PlainEntry(e)
    ensures Flatten(e) == e
  {
    if e.dtype.Some? {
      DumpPlainValue(e.dtype.value);
    }
    if e.Constant? {
      DumpPlainValue(e.value);
    }
  }

  /** `e.model_dump() | {"type": type(e).__name__}`: the serialised entry is
      a dict whose keys are distinct, whose last key is "type" holding the
      class name, and whose other keys are field names. */
  function Serialise(e: Entry): (r: Raw)
    ensures r.Dict? && |r.pairs| >= 2 && NoDup(KeysOf(r.pairs))
    ensures r.pairs[|r.pairs| - 1] == ("type", Text(ClassName(ClassOf(e))))
    ensures r.pairs[0] == ("dtype", DumpDType(e.dtype))
  {
    var pairs := Dump(e) + [("type", Text(ClassName(ClassOf(e))))];
    assert NoDup(KeysOf(pairs)) by {
      var ks := KeysOf(pairs);
      forall i, j | 0 <= i < j < |ks| ensures ks[i] != ks[j] {
        assert ks[i] == pairs[i].0 && ks[j] == pairs[j].0;
      }
    }
    Dict(pairs)
  }

  /** Constructing the entry's class from its dumped fields gives the entry
      back with nested spec objects flattened:
      `type(e)(**e.model_dump())`. */
  lemma ConstructFromDump(e: Entry, kw: Kwargs)
    requires WellFormed(e)
    requires forall i :: 0 <= i < |Dump(e)| ==> Dump(e)[i].0 in kw && kw[Dump(e)[i].0] == Dump(e)[i].1
    ensures Construct(ClassOf(e), kw) == Success(Flatten(e))
  {
    var value := if e.Constant? then DumpValue(e.value) else Scalar(NoneAtom);
    var ds := DumpFields(e, DumpDType(e.dtype), value);
    assert Dump(e) == ds;
    assert ds[0] == ("dtype", DumpDType(e.dtype));
    ParseDumpedDType(e.dtype, kw);
    ConstructFromFields(e, FlattenDType(e.dtype), DumpDType(e.dtype), value, kw);
  }

  /** Keywords holding the fields of `e`, with `dt` read from the dumped
      `dtype` and `value` as a constant's dumped value, build `e` with those
      two replaced. */
  lemma {:induction false} ConstructFromFields(e: Entry, dt: DType, dtype: Raw, value: Raw, kw: Kwargs)
    requires WellFormed(e) && ParseDType(kw) == Success(dt)
    requires forall i :: 0 <= i < |DumpFields(e, dtype, value)| ==>
               DumpFields(e, dtype, value)[i].0 in kw && kw[DumpFields(e, dtype, value)[i].0] == DumpFields(e, dtype, value)[i].1
    ensures e.Constant? ==> Construct(ClassOf(e), kw) == Success(Constant(dt, value))
    ensures !e.Constant? ==> Construct(ClassOf(e), kw) == Success(e.(dtype := dt))
  {
    var ds := DumpFields(e, dtype, value);
    match e {
      case BaseVariable(_, dv) => assert ds[1].0 == "default_value";
      case ContinuousVariable(_, dv, lo, hi) =>
        assert ds[1].0 == "default_value" && ds[2].0 == "domain";
      case DiscreteVariable(_, dv, vs) =>
        assert ds[1].0 == "default_value" && ds[2].0 == "values";
        DiscreteFromFields(kw, dt, dv, vs);
      case LessThanConstraint(_, t) => assert ds[1].0 == "value";
      case GreaterThanConstraint(_, t) => assert ds[1].0 == "value";
      case BoundsConstraint(_, lo, hi) => assert ds[1].0 == "range";
      case Constant(_, v) => assert ds[1].0 == "value";
      case _ =>
    }
  }

  /** The dumped fields of a discrete variable build it again; the value
      set passes through `Distinct` unchanged since it has no repeats. */
  lemma DiscreteFromFields(kw: Kwargs, dt: DType, dv: Option<real>, vs: seq<Atom>)
    requires ParseDType(kw) == Success(dt) && |vs| > 0 && NoDup(vs)
    requires "default_value" in kw && kw["default_value"] == DumpOptional(dv)
    requires "values" in kw && kw["values"] == Set(vs)
    ensures Construct(DiscreteVariableClass, kw) == Success(DiscreteVariable(dt, dv, vs))
  {
    AppendMissingFresh([], vs);
    assert [] + vs == vs;
  }
}
