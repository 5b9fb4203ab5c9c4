/** The `_validate_entry` dispatch of the five validated dictionaries: each
    turns one raw value, shorthand or longhand, into a spec object or fails. */
module Entries {
  import opened Wrappers
  import opened Seqs
  import opened OrderedDicts
  import opened Specs
  import opened Fields

  /** The five categories of a VOCS, each with its own dictionary class. */
  datatype Category = Variables | Objectives | Constraints | Constants | Observables

  /** `str.upper()` on one character (ASCII letters only). */
  function UpperChar(c: char): char {
    if 'a' <= c <= 'z' then (c as int - 32) as char else c
  }

  /** `str.upper()`. */
  function Upper(s: string): (r: string)
    ensures |r| == |s|
    ensures forall i :: 0 <= i < |s| ==> r[i] == UpperChar(s[i])
  {
    seq(|s|, i requires 0 <= i < |s| => UpperChar(s[i]))
  }

  /** Upper-casing twice is upper-casing once. */
  lemma UpperIdempotent(s: string)
    ensures Upper(Upper(s)) == Upper(s)
  {
  }

  /** The longhand form `{"type": T, **fields}`: fails when there is no
      "type" key; otherwise gives `T` and the remaining fields. */
  function Longhand(pairs: seq<(string, Raw)>): Result<(Raw, Kwargs)> {
    var d := AsMap(pairs);
    if "type" in d then Success((d["type"], d - {"type"})) else Failure
  }

  /** `globals()[t]`: the spec class named by the string `t`. A tag that is
      not a string, or a string that names no spec class, raises. */
  function LookupClass(t: Raw): (r: Result<Class>)
    ensures r.Success? <==> IsString(t) && ClassNamed(t.atom.s).Some?
    ensures r.Success? ==> ClassNamed(t.atom.s) == Some(r.value)
  {
    if IsString(t) && ClassNamed(t.atom.s).Some? then
      Success(ClassNamed(t.atom.s).value)
    else
      Failure
  }

  /** Every class is found under its own name. */
  lemma LookupClassName(c: Class)
    ensures LookupClass(Text(ClassName(c))) == Success(c)
  {
    ClassNamedInverse(c, ClassName(c));
  }

  /** A tag finds class `c` exactly when it is the string `ClassName(c)`. */
  lemma LookupClassIff(t: Raw, c: Class)
    ensures LookupClass(t) == Success(c) <==> t == Text(ClassName(c))
  {
    LookupClassName(c);
    if LookupClass(t) == Success(c) {
      ClassNamedInverse(c, t.atom.s);
    }
  }

  /** The longhand has a "type" and it names a spec class. */
  predicate TagKnown(pairs: seq<(string, Raw)>) {
    Longhand(pairs).Success? && LookupClass(Longhand(pairs).value.0).Success?
  }

  /** The class the "type" of a longhand names. */
  function TagClass(pairs: seq<(string, Raw)>): Class
    requires TagKnown(pairs)
  {
    LookupClass(Longhand(pairs).value.0).value
  }

  /** The "type" of a longhand names class `c` exactly when it is the
      string `ClassName(c)`: the tag rule of the constant and observable
      dictionaries, stated over the tag itself. */
  lemma TagIs(pairs: seq<(string, Raw)>, c: Class)
    ensures (TagKnown(pairs) && TagClass(pairs) == c)
            <==> (Longhand(pairs).Success? && Longhand(pairs).value.0 == Text(ClassName(c)))
  {
    if Longhand(pairs).Success? {
      LookupClassIff(Longhand(pairs).value.0, c);
    }
  }

  /** The longhand path shared by all categories: the "type" must name a
      class of `family`, which is then built from the remaining fields. A
      missing or unknown "type" is refused, and nothing but the named class
      is ever tried. */
  function FromLonghand(pairs: seq<(string, Raw)>, family: set<Class>): (r: Result<Entry>)
    ensures !TagKnown(pairs) ==> r.Failure?
    ensures r.Success? ==> TagKnown(pairs) && ClassOf(r.value) == TagClass(pairs)
    ensures r.Success? ==> ClassOf(r.value) in family && WellFormed(r.value)
  {
    var (t, kw) :- Longhand(pairs);
    var cls :- LookupClass(t);
    :- Need(cls in family);
    Construct(cls, kw)
  }

  /** Once the tag names a class of the family, the longhand path is just
      the construction of that class. */
  lemma FromLonghandNamed(pairs: seq<(string, Raw)>, family: set<Class>, cls: Class)
    requires Longhand(pairs).Success? && LookupClass(Longhand(pairs).value.0) == Success(cls)
    requires cls in family
    ensures FromLonghand(pairs, family) == Construct(cls, Longhand(pairs).value.1)
  {
  }

  /** A raw value that is already a spec object holds a valid one (pydantic
      runs the validators when the object is built). */
  predicate RawOk(raw: Raw) {
    raw.Instance? ==> WellFormed(raw.entry)
  }

  /** `isinstance(e, C)` for the class the category's dictionary passes
      through unchanged. */
  predicate InstanceOf(cat: Category, e: Entry) {
    match cat
    case Variables => IsVariable(e)
    case Constraints => IsConstraint(e)
    case Objectives => IsObjective(e)
    case Constants => e.Constant?
    case Observables => e.Observable?
  }

  /** What a category's dictionary may hold once validated: a valid object of
      any spec class for variables and constraints (their longhand path
      accepts any class of the module), an objective class for objectives,
      a `Constant` for constants and an `Observable` for observables. */
  predicate Admitted(cat: Category, e: Entry) {
    && WellFormed(e)
    && match cat
       case Variables => true
       case Constraints => true
       case Objectives => IsObjective(e)
       case Constants => e.Constant?
       case Observables => e.Observable?
  }

  /** `VariableDict._validate_entry`. */
  function ValidateVariable(raw: Raw): (r: Result<Entry>)
    ensures raw.Instance? ==> (r.Success? <==> IsVariable(raw.entry))
    ensures raw.Instance? && r.Success? ==> r.value == raw.entry
    ensures raw.List? ==>
              (r.Success? <==> (|raw.items| == 2 && ParsePair(raw).Success?
                                && raw.items[0].atom.x < raw.items[1].atom.x))
    ensures raw.List? && r.Success? ==>
              r.value == ContinuousVariable(None, None, raw.items[0].atom.x, raw.items[1].atom.x)
    ensures raw.Set? ==> (r.Success? <==> |raw.elems| > 0)
    ensures raw.Set? && r.Success? ==>
              (r.value.DiscreteVariable? && r.value.dtype.None? && r.value.defaultValue.None?
               && Elems(r.value.values) == Elems(raw.elems))
    ensures raw.Dict? && !TagKnown(raw.pairs) ==> r.Failure?
    ensures raw.Dict? && TagKnown(raw.pairs) ==>
              r == Construct(TagClass(raw.pairs), Longhand(raw.pairs).value.1)
    ensures raw.Scalar? || raw.Tuple? ==> r.Failure?
    ensures RawOk(raw) && r.Success? ==> Admitted(Variables, r.value)
  {
    match raw
    case Instance(e) => if IsVariable(e) then Success(e) else Failure
    case List(items) => if |items| != 2 then Failure else NewContinuous(None, None, raw)
    case Set(_) => NewDiscrete(None, None, raw)
    case Dict(pairs) => FromLonghand(pairs, AllClasses)
    case _ => Failure
  }

  /** The keys of `CONSTRAINT_CLASSES`. */
  const ConstraintKinds: set<string> := {"LESS_THAN", "GREATER_THAN", "BOUNDS"}

  /** The list shorthand of a constraint: `[kind, value]` for LESS_THAN and
      GREATER_THAN (later elements ignored), and the flat `[kind, lo, hi]`
      for BOUNDS, whose range is everything after the kind. The kind is
      matched case-insensitively. */
  function ConstraintFromList(items: seq<Raw>): (r: Result<Entry>)
    ensures r.Success? ==> (|items| >= 2 && items[0].Scalar? && items[0].atom.Str?
                            && Upper(items[0].atom.s) in ConstraintKinds)
    ensures |items| > 0 && IsString(items[0]) && Upper(items[0].atom.s) == "BOUNDS" ==>
              (r.Success? <==> (|items| == 3 && IsNumber(items[1]) && IsNumber(items[2])
                                && items[1].atom.x < items[2].atom.x))
    ensures r.Success? && Upper(items[0].atom.s) == "BOUNDS" ==>
              r.value == BoundsConstraint(None, items[1].atom.x, items[2].atom.x)
    ensures |items| > 0 && IsString(items[0])
            && Upper(items[0].atom.s) in {"LESS_THAN", "GREATER_THAN"} ==>
              (r.Success? <==> |items| >= 2 && IsNumber(items[1]))
    ensures r.Success? && Upper(items[0].atom.s) == "LESS_THAN" ==>
              r.value == LessThanConstraint(None, items[1].atom.x)
    ensures r.Success? && Upper(items[0].atom.s) == "GREATER_THAN" ==>
              r.value == GreaterThanConstraint(None, items[1].atom.x)
  {
    if |items| == 0 then Failure
    else if !(items[0].Scalar? && items[0].atom.Str?) then Failure
    else
      var kind := Upper(items[0].atom.s);
      if kind == "BOUNDS" then NewBounds(None, List(items[1..]))
      else if kind == "LESS_THAN" || kind == "GREATER_THAN" then
        if |items| < 2 then Failure
        else
          var t :- ParseFloat(items[1]);
          if kind == "LESS_THAN" then Success(LessThanConstraint(None, t))
          else Success(GreaterThanConstraint(None, t))
      else Failure
  }

  /** `ConstraintDict._validate_entry`. */
  function ValidateConstraint(raw: Raw): (r: Result<Entry>)
    ensures raw.Instance? ==> (r.Success? <==> IsConstraint(raw.entry))
    ensures raw.Instance? && r.Success? ==> r.value == raw.entry
    ensures raw.List? ==> r == ConstraintFromList(raw.items)
    ensures raw.Dict? && !TagKnown(raw.pairs) ==> r.Failure?
    ensures raw.Dict? && TagKnown(raw.pairs) ==>
              r == Construct(TagClass(raw.pairs), Longhand(raw.pairs).value.1)
    ensures raw.Scalar? || raw.Tuple? || raw.Set? ==> r.Failure?
    ensures RawOk(raw) && r.Success? ==> Admitted(Constraints, r.value)
  {
    match raw
    case Instance(e) => if IsConstraint(e) then Success(e) else Failure
    case Dict(pairs) => FromLonghand(pairs, AllClasses)
    case List(items) => ConstraintFromList(items)
    case _ => Failure
  }

  /** The direction keywords, the keys of `OBJECTIVE_CLASSES`. */
  const Directions: set<string> := {"MINIMIZE", "MAXIMIZE", "EXPLORE"}

  /** The class `OBJECTIVE_CLASSES` gives for a direction keyword. */
  function DirectionClass(direction: string): Class {
    if direction == "MINIMIZE" then MinimizeObjectiveClass
    else if direction == "MAXIMIZE" then MaximizeObjectiveClass
    else ExploreObjectiveClass
  }

  /** `OBJECTIVE_CLASSES[s.upper()]()`: the direction is matched
      case-insensitively. */
  function ObjectiveFromString(s: string): (r: Result<Entry>)
    ensures r.Success? <==> Upper(s) in Directions
    ensures r.Success? ==> (r.value.dtype.None? && IsObjective(r.value)
                            && ClassOf(r.value) == DirectionClass(Upper(s)))
  {
    match Upper(s)
    case "MINIMIZE" => Success(MinimizeObjective(None))
    case "MAXIMIZE" => Success(MaximizeObjective(None))
    case "EXPLORE" => Success(ExploreObjective(None))
    case _ => Failure
  }

  /** `ObjectiveDict._validate_entry`: the longhand path, unlike those of
      variables and constraints, checks that the class is an objective. */
  function ValidateObjective(raw: Raw): (r: Result<Entry>)
    ensures raw.Instance? ==> (r.Success? <==> IsObjective(raw.entry))
    ensures raw.Instance? && r.Success? ==> r.value == raw.entry
    ensures raw.Scalar? && raw.atom.Str? ==> r == ObjectiveFromString(raw.atom.s)
    ensures raw.Dict? && !TagKnown(raw.pairs) ==> r.Failure?
    ensures raw.Dict? && TagKnown(raw.pairs) ==>
              r == if TagClass(raw.pairs) in ObjectiveClasses
                   then Construct(TagClass(raw.pairs), Longhand(raw.pairs).value.1)
                   else Failure
    ensures raw.List? || raw.Tuple? || raw.Set? || (raw.Scalar? && !raw.atom.Str?) ==> r.Failure?
    ensures RawOk(raw) && r.Success? ==> Admitted(Objectives, r.value)
  {
    match raw
    case Instance(e) => if IsObjective(e) then Success(e) else Failure
    case Dict(pairs) => FromLonghand(pairs, ObjectiveClasses)
    case Scalar(Str(s)) => ObjectiveFromString(s)
    case _ => Failure
  }

  /** `ConstantDict._validate_entry`: any value that is neither a `Constant`
      nor a dict becomes the value of a new constant, so only the longhand
      path can fail. */
  function ValidateConstant(raw: Raw): (r: Result<Entry>)
    ensures !raw.Dict? ==>
              r == Success(if raw.Instance? && raw.entry.Constant? then raw.entry else Constant(None, raw))
    ensures raw.Dict? ==>
              r == if Longhand(raw.pairs).Success? && Longhand(raw.pairs).value.0 == Text("Constant")
                   then Construct(ConstantClass, Longhand(raw.pairs).value.1)
                   else Failure
    ensures RawOk(raw) && r.Success? ==> Admitted(Constants, r.value)
  {
    match raw
    case Instance(e) => if e.Constant? then Success(e) else Success(Constant(None, raw))
    case Dict(pairs) =>
      TagIs(pairs, ConstantClass);
      FromLonghand(pairs, {ConstantClass})
    case _ => Success(Constant(None, raw))
  }

  /** `ObservableDict._validate_entry`: a str, a type or a tuple becomes the
      dtype of a new observable. */
  function ValidateObservable(raw: Raw): (r: Result<Entry>)
    ensures raw.Instance? ==> (r.Success? <==> raw.entry.Observable?)
    ensures raw.Instance? && r.Success? ==> r.value == raw.entry
    ensures raw.Tuple? || (raw.Scalar? && (raw.atom.Str? || raw.atom.TypeObj?)) ==>
              r == Success(Observable(Some(raw)))
    ensures raw.List? || raw.Set? || (raw.Scalar? && !raw.atom.Str? && !raw.atom.TypeObj?) ==> r.Failure?
    ensures raw.Dict? ==>
              r == if Longhand(raw.pairs).Success? && Longhand(raw.pairs).value.0 == Text("Observable")
                   then Construct(ObservableClass, Longhand(raw.pairs).value.1)
                   else Failure
    ensures RawOk(raw) && r.Success? ==> Admitted(Observables, r.value)
  {
    match raw
    case Instance(e) => if e.Observable? then Success(e) else Failure
    case Dict(pairs) =>
      TagIs(pairs, ObservableClass);
      FromLonghand(pairs, {ObservableClass})
    case Tuple(_) => Success(Observable(Some(raw)))
    case Scalar(a) => if a.Str? || a.TypeObj? then Success(Observable(Some(raw))) else Failure
    case _ => Failure
  }

  /** The classes a category's longhand path accepts. */
  function Family(cat: Category): set<Class> {
    match cat
    case Variables => AllClasses
    case Constraints => AllClasses
    case Objectives => ObjectiveClasses
    case Constants => {ConstantClass}
    case Observables => {ObservableClass}
  }

  /** `_validate_entry` of the category's dictionary. */
  function ValidateEntry(cat: Category, raw: Raw): (r: Result<Entry>)
    ensures raw.Instance? ==> (r == Success(raw.entry) <==> InstanceOf(cat, raw.entry))
    ensures RawOk(raw) && r.Success? ==> Admitted(cat, r.value)
  {
    match cat
    case Variables => ValidateVariable(raw)
    case Constraints => ValidateConstraint(raw)
    case Objectives => ValidateObjective(raw)
    case Constants => ValidateConstant(raw)
    case Observables => ValidateObservable(raw)
  }

  /** Every category reads a dict through the shared longhand path, with
      its own family of classes. */
  lemma LonghandPath(cat: Category, pairs: seq<(string, Raw)>)
    ensures ValidateEntry(cat, Dict(pairs)) == FromLonghand(pairs, Family(cat))
  {
  }

  /** No dictionary accepts a longhand whose "type" is missing or names no
      spec class: the lookup raises before any class is tried. */
  lemma UnknownTagRefused(cat: Category, pairs: seq<(string, Raw)>)
    requires !TagKnown(pairs)
    ensures ValidateEntry(cat, Dict(pairs)).Failure?
  {
    LonghandPath(cat, pairs);
  }
}
