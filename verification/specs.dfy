/** The values the schema works on.

    `Raw` is a Python value handed to the schema: a scalar, a list, a tuple, a
    set, a dict, or an object that is already one of the spec classes.
    `Entry` is an instance of one of the spec classes of `gest_api/vocs.py`;
    its constructors carry the classes' own names, so a class name is a
    constructor name. */
module Specs {
  import opened Wrappers
  import opened Seqs

  /** Hashable scalars: None, bool, numbers (int and float as reals, no NaN
      or infinity), str, and a type object named by its `__name__`. */
  datatype Atom =
    | NoneAtom
    | BoolAtom(b: bool)
    | Num(x: real)
    | Str(s: string)
    | TypeObj(name: string)

  /** A Python value. A set is given by its elements in the interpreter's
      iteration order; a dict by its `(key, value)` pairs, read with Python's
      dict semantics (a repeated key keeps its first position and its last
      value). */
  datatype Raw =
    | Scalar(atom: Atom)
    | List(items: seq<Raw>)
    | Tuple(items: seq<Raw>)
    | Set(elems: seq<Atom>)
    | Dict(pairs: seq<(string, Raw)>)
    | Instance(entry: Entry)

  /** The optional `dtype` of every spec (`str`, a type or a tuple), kept as
      the raw value it was given as. */
  type DType = Option<Raw>

  /** The spec classes. `defaultValue` is the optional `default_value` of a
      variable; `lo`/`hi` are the `domain` of a continuous variable and the
      `range` of a bounds constraint; `values` is the discrete set in
      iteration order; `threshold` is the `value` of a less-than or
      greater-than constraint; `value` is the value of a constant. */
  datatype Entry =
    | BaseField(dtype: DType)
    | BaseVariable(dtype: DType, defaultValue: Option<real>)
    | ContinuousVariable(dtype: DType, defaultValue: Option<real>, lo: real, hi: real)
    | DiscreteVariable(dtype: DType, defaultValue: Option<real>, values: seq<Atom>)
    | BaseConstraint(dtype: DType)
    | LessThanConstraint(dtype: DType, threshold: real)
    | GreaterThanConstraint(dtype: DType, threshold: real)
    | BoundsConstraint(dtype: DType, lo: real, hi: real)
    | BaseObjective(dtype: DType)
    | MinimizeObjective(dtype: DType)
    | MaximizeObjective(dtype: DType)
    | ExploreObjective(dtype: DType)
    | Constant(dtype: DType, value: Raw)
    | Observable(dtype: DType)

  function Text(s: string): Raw {
    Scalar(Str(s))
  }

  function Number(x: real): Raw {
    Scalar(Num(x))
  }

  /** What the `dtype` field accepts: absent, or a str, a type or a tuple. */
  predicate DTypeOk(d: DType) {
    d.None? || d.value.Tuple? || (d.value.Scalar? && (d.value.atom.Str? || d.value.atom.TypeObj?))
  }

  /** A value with no spec object anywhere inside it. */
  predicate Plain(r: Raw)
    decreases r
  {
    match r
    case Scalar(_) => true
    case Set(_) => true
    case List(items) => forall i :: 0 <= i < |items| ==> Plain(items[i])
    case Tuple(items) => forall i :: 0 <= i < |items| ==> Plain(items[i])
    case Dict(pairs) => forall i :: 0 <= i < |pairs| ==> Plain(pairs[i].1)
    case Instance(_) => false
  }

  /** An entry whose `dtype`, and whose `value` if it is a constant, hold no
      spec object. */
  predicate PlainEntry(e: Entry) {
    && (e.dtype.Some? ==> Plain(e.dtype.value))
    && (e.Constant? ==> Plain(e.value))
  }

  /** The field validators of the classes: a dtype of the accepted kind,
      `domain[1] > domain[0]`, a non-empty set of values, and a range in
      ascending order. */
  predicate WellFormed(e: Entry) {
    && DTypeOk(e.dtype)
    && (e.ContinuousVariable? ==> e.lo < e.hi)
    && (e.DiscreteVariable? ==> |e.values| > 0 && NoDup(e.values))
    && (e.BoundsConstraint? ==> e.lo < e.hi)
  }

  /** The spec classes themselves, as the values `globals()` holds. */
  datatype Class =
    | BaseFieldClass | BaseVariableClass | ContinuousVariableClass | DiscreteVariableClass
    | BaseConstraintClass | LessThanConstraintClass | GreaterThanConstraintClass | BoundsConstraintClass
    | BaseObjectiveClass | MinimizeObjectiveClass | MaximizeObjectiveClass | ExploreObjectiveClass
    | ConstantClass | ObservableClass

  /** `type(e)`. */
  function ClassOf(e: Entry): Class {
    match e
    case BaseField(_) => BaseFieldClass
    case BaseVariable(_, _) => BaseVariableClass
    case ContinuousVariable(_, _, _, _) => ContinuousVariableClass
    case DiscreteVariable(_, _, _) => DiscreteVariableClass
    case BaseConstraint(_) => BaseConstraintClass
    case LessThanConstraint(_, _) => LessThanConstraintClass
    case GreaterThanConstraint(_, _) => GreaterThanConstraintClass
    case BoundsConstraint(_, _, _) => BoundsConstraintClass
    case BaseObjective(_) => BaseObjectiveClass
    case MinimizeObjective(_) => MinimizeObjectiveClass
    case MaximizeObjective(_) => MaximizeObjectiveClass
    case ExploreObjective(_) => ExploreObjectiveClass
    case Constant(_, _) => ConstantClass
    case Observable(_) => ObservableClass
  }

  /** `cls.__name__`. */
  function ClassName(c: Class): string {
    match c
    case BaseFieldClass => "BaseField"
    case BaseVariableClass => "BaseVariable"
    case ContinuousVariableClass => "ContinuousVariable"
    case DiscreteVariableClass => "DiscreteVariable"
    case BaseConstraintClass => "BaseConstraint"
    case LessThanConstraintClass => "LessThanConstraint"
    case GreaterThanConstraintClass => "GreaterThanConstraint"
    case BoundsConstraintClass => "BoundsConstraint"
    case BaseObjectiveClass => "BaseObjective"
    case MinimizeObjectiveClass => "MinimizeObjective"
    case MaximizeObjectiveClass => "MaximizeObjective"
    case ExploreObjectiveClass => "ExploreObjective"
    case ConstantClass => "Constant"
    case ObservableClass => "Observable"
  }

  /** `globals()[name]` restricted to the spec classes: the class whose
      `__name__` is `name`, if any. */
  function ClassNamed(name: string): Option<Class> {
    match name
    case "BaseField" => Some(BaseFieldClass)
    case "BaseVariable" => Some(BaseVariableClass)
    case "ContinuousVariable" => Some(ContinuousVariableClass)
    case "DiscreteVariable" => Some(DiscreteVariableClass)
    case "BaseConstraint" => Some(BaseConstraintClass)
    case "LessThanConstraint" => Some(LessThanConstraintClass)
    case "GreaterThanConstraint" => Some(GreaterThanConstraintClass)
    case "BoundsConstraint" => Some(BoundsConstraintClass)
    case "BaseObjective" => Some(BaseObjectiveClass)
    case "MinimizeObjective" => Some(MinimizeObjectiveClass)
    case "MaximizeObjective" => Some(MaximizeObjectiveClass)
    case "ExploreObjective" => Some(ExploreObjectiveClass)
    case "Constant" => Some(ConstantClass)
    case "Observable" => Some(ObservableClass)
    case _ => None
  }

  /** Every class is found under its own name, so class names are
      distinct, and only a class's own name finds it. */
  lemma ClassNamedInverse(c: Class, name: string)
    ensures ClassNamed(ClassName(c)) == Some(c)
    ensures ClassNamed(name) == Some(c) ==> name == ClassName(c)
  {
  }

  /** The subclasses of `BaseObjective`, itself included. */
  const ObjectiveClasses: set<Class> :=
    {BaseObjectiveClass, MinimizeObjectiveClass, MaximizeObjectiveClass, ExploreObjectiveClass}

  /** All the spec classes. */
  const AllClasses: set<Class> := {
    BaseFieldClass, BaseVariableClass, ContinuousVariableClass, DiscreteVariableClass,
    BaseConstraintClass, LessThanConstraintClass, GreaterThanConstraintClass, BoundsConstraintClass,
    BaseObjectiveClass, MinimizeObjectiveClass, MaximizeObjectiveClass, ExploreObjectiveClass,
    ConstantClass, ObservableClass
  }

  /** `isinstance(e, BaseVariable)`. */
  predicate IsVariable(e: Entry) {
    e.BaseVariable? || e.ContinuousVariable? || e.DiscreteVariable?
  }

  /** `isinstance(e, BaseConstraint)`. */
  predicate IsConstraint(e: Entry) {
    e.BaseConstraint? || e.LessThanConstraint? || e.GreaterThanConstraint? || e.BoundsConstraint?
  }

  /** `isinstance(e, BaseObjective)`. */
  predicate IsObjective(e: Entry) {
    e.BaseObjective? || e.MinimizeObjective? || e.MaximizeObjective? || e.ExploreObjective?
  }

  /** The constraint classes that define `check`. */
  predicate HasCheck(c: Entry) {
    c.LessThanConstraint? || c.GreaterThanConstraint? || c.BoundsConstraint?
  }

  /** `c.check(x)`: whether the value `x` of the constrained output satisfies
      the constraint. */
  function Check(c: Entry, x: real): bool
    requires HasCheck(c)
  {
    match c
    case LessThanConstraint(_, t) => x < t
    case GreaterThanConstraint(_, t) => x > t
    case BoundsConstraint(_, lo, hi) => lo <= x <= hi
  }

  /** Both thresholds are strict: the threshold itself fails the check. */
  lemma ThresholdIsStrict(d: DType, t: real)
    ensures !Check(LessThanConstraint(d, t), t)
    ensures !Check(GreaterThanConstraint(d, t), t)
    ensures forall x :: Check(LessThanConstraint(d, t), x) || Check(GreaterThanConstraint(d, t), x) <==> x != t
  {
  }

  /** A bounds constraint holds at both of its ends, and is exactly the
      conjunction "not below `lo`" and "not above `hi`" of the two threshold
      constraints. */
  lemma BoundsAreInclusive(d: DType, lo: real, hi: real)
    requires lo < hi
    ensures Check(BoundsConstraint(d, lo, hi), lo) && Check(BoundsConstraint(d, lo, hi), hi)
    ensures forall x :: Check(BoundsConstraint(d, lo, hi), x)
              <==> !Check(LessThanConstraint(d, lo), x) && !Check(GreaterThanConstraint(d, hi), x)
  {
  }

  /** The objective classes are exactly the classes of objective entries. */
  lemma ObjectiveFamily(e: Entry)
    ensures ClassOf(e) in AllClasses
    ensures ClassOf(e) in ObjectiveClasses <==> IsObjective(e)
  {
  }
}
