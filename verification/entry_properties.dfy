/** Properties of the entry validators: the serialised form parses back,
    shorthand and longhand agree, and already-built objects pass unchanged. */
module EntryProperties {
  import opened Wrappers
  import opened Seqs
  import opened OrderedDicts
  import opened Specs
  import opened Fields
  import opened Entries

  /** In a dict with distinct keys, a "type" pair gives the tag. */
  lemma LonghandTag(pairs: seq<(string, Raw)>, i: nat)
    requires NoDup(KeysOf(pairs)) && i < |pairs| && pairs[i].0 == "type"
    ensures Longhand(pairs).Success? && Longhand(pairs).value.0 == pairs[i].1
  {
    AsMapAt(pairs, i);
  }

  /** In a dict with distinct keys, every other pair becomes a field. */
  lemma LonghandField(pairs: seq<(string, Raw)>, i: nat)
    requires NoDup(KeysOf(pairs)) && i < |pairs| && pairs[i].0 != "type"
    ensures Longhand(pairs).Success? ==>
              pairs[i].0 in Longhand(pairs).value.1 && Longhand(pairs).value.1[pairs[i].0] == pairs[i].1
  {
    AsMapAt(pairs, i);
  }

  /** A key the dict does not carry is not a field. */
  lemma LonghandAbsent(pairs: seq<(string, Raw)>, k: string)
    requires k !in KeysOf(pairs)
    ensures Longhand(pairs).Success? ==> k !in Longhand(pairs).value.1
  {
    AsMapKeys(pairs, k);
  }

  /** Reading a dict with distinct keys whose last key is "type" finds the
      tag under "type" and every earlier field under its own name. */
  lemma LonghandOfTagged(fields: seq<(string, Raw)>, t: Raw)
    requires NoDup(KeysOf(fields + [("type", t)]))
    ensures Longhand(fields + [("type", t)]).Success?
    ensures Longhand(fields + [("type", t)]).value.0 == t
    ensures forall i :: 0 <= i < |fields| ==>
              fields[i].0 in Longhand(fields + [("type", t)]).value.1
              && Longhand(fields + [("type", t)]).value.1[fields[i].0] == fields[i].1
  {
    var pairs := fields + [("type", t)];
    LonghandTag(pairs, |fields|);
    forall i | 0 <= i < |fields|
      ensures fields[i].0 in Longhand(pairs).value.1
      ensures Longhand(pairs).value.1[fields[i].0] == fields[i].1
    {
      assert pairs[i] == fields[i];
      assert KeysOf(pairs)[i] != KeysOf(pairs)[|fields|];
      LonghandField(pairs, i);
    }
  }

  /** The serialised dict of `e` is its dumped fields followed by the tag. */
  lemma SerialisedShape(e: Entry)
    ensures Serialise(e).pairs == Dump(e) + [("type", Text(ClassName(ClassOf(e))))]
  {
  }

  /** After popping "type", every dumped field is among the remaining fields. */
  lemma SerialisedKwargs(e: Entry)
    ensures Longhand(Serialise(e).pairs).Success?
    ensures Longhand(Serialise(e).pairs).value.0 == Text(ClassName(ClassOf(e)))
    ensures forall i :: 0 <= i < |Dump(e)| ==>
              Dump(e)[i].0 in Longhand(Serialise(e).pairs).value.1
              && Longhand(Serialise(e).pairs).value.1[Dump(e)[i].0] == Dump(e)[i].1
  {
    SerialisedShape(e);
    LonghandOfTagged(Dump(e), Text(ClassName(ClassOf(e))));
  }

  /** The fields left after popping "type" build the entry again, with
      nested spec objects flattened. */
  lemma ConstructFromSerialised(e: Entry)
    requires WellFormed(e)
    ensures Longhand(Serialise(e).pairs).Success?
    ensures Construct(ClassOf(e), Longhand(Serialise(e).pairs).value.1) == Success(Flatten(e))
  {
    SerialisedKwargs(e);
    ConstructFromDump(e, Longhand(Serialise(e).pairs).value.1);
  }

  /** The longhand path restricted to `family` rebuilds a serialised entry
      whose class belongs to the family. */
  lemma SerialiseThroughLonghand(e: Entry, family: set<Class>)
    requires WellFormed(e) && ClassOf(e) in family
    ensures FromLonghand(Serialise(e).pairs, family) == Success(Flatten(e))
  {
    SerialisedKwargs(e);
    ConstructFromSerialised(e);
    LookupClassName(ClassOf(e));
    FromLonghandNamed(Serialise(e).pairs, family, ClassOf(e));
  }

  /** The serialised form of an entry its dictionary may hold parses back,
      through the longhand path of that dictionary, to the entry with its
      nested spec objects flattened; to the same entry when it holds none. */
  lemma SerialiseRoundTrip(cat: Category, e: Entry)
    requires Admitted(cat, e)
    ensures ValidateEntry(cat, Serialise(e)) == Success(Flatten(e))
    ensures PlainEntry(e) ==> ValidateEntry(cat, Serialise(e)) == Success(e)
  {
    ObjectiveFamily(e);
    LonghandPath(cat, Serialise(e).pairs);
    SerialiseThroughLonghand(e, Family(cat));
    if PlainEntry(e) {
      FlattenPlain(e);
    }
  }

  /** A constant holding a spec object does not come back from its
      serialised form: the object returns as the dict of its fields. */
  lemma NestedConstantFlattened()
    ensures var inner := ContinuousVariable(None, None, 0.0, 1.0);
            ValidateEntry(Constants, Serialise(Constant(None, Instance(inner))))
            == Success(Constant(None, Dict(Dump(inner))))
    ensures var e := Constant(None, Instance(ContinuousVariable(None, None, 0.0, 1.0)));
            ValidateEntry(Constants, Serialise(e)) != Success(e)
  {
    var e := Constant(None, Instance(ContinuousVariable(None, None, 0.0, 1.0)));
    SerialiseRoundTrip(Constants, e);
  }

  /** A value the dictionary produced, if it is of the class the dictionary
      passes through, is left unchanged by a second validation. */
  lemma NormaliseIdempotent(cat: Category, raw: Raw)
    requires ValidateEntry(cat, raw).Success?
    requires InstanceOf(cat, ValidateEntry(cat, raw).value)
    ensures ValidateEntry(cat, Instance(ValidateEntry(cat, raw).value)) == ValidateEntry(cat, raw)
  {
  }

  /** A longhand whose tag names `cls` builds `cls` from its other fields
      when the category's family holds `cls`, and fails otherwise. */
  lemma TaggedEntry(cat: Category, pairs: seq<(string, Raw)>, cls: Class)
    requires Longhand(pairs).Success? && Longhand(pairs).value.0 == Text(ClassName(cls))
    ensures ValidateEntry(cat, Dict(pairs))
            == (if cls in Family(cat) then Construct(cls, Longhand(pairs).value.1) else Failure)
  {
    LookupClassName(cls);
    LonghandPath(cat, pairs);
  }

  /** `{"type": t, k: v}` reads as the tag `t` and the single field `k`. */
  lemma OneFieldLonghand(pairs: seq<(string, Raw)>)
    requires |pairs| == 2 && pairs[0].0 == "type" && pairs[1].0 != "type"
    ensures Longhand(pairs) == Success((pairs[0].1, map[pairs[1].0 := pairs[1].1]))
  {
    var first := pairs[..1];
    assert first[..0] == [];
    assert AsMap(first) == map["type" := pairs[0].1];
    assert AsMap(pairs) == AsMap(first)[pairs[1].0 := pairs[1].1];
    var fields := AsMap(pairs) - {"type"};
    assert fields.Keys == {pairs[1].0};
    assert fields == map[pairs[1].0 := pairs[1].1];
  }

  /** `{"type": t}` reads as the tag `t` and no fields. */
  lemma TagOnlyLonghand(pairs: seq<(string, Raw)>)
    requires |pairs| == 1 && pairs[0].0 == "type"
    ensures Longhand(pairs) == Success((pairs[0].1, map[]))
  {
    assert pairs[..0] == [];
    assert AsMap(pairs) == map["type" := pairs[0].1];
  }

  /** The names of the classes the examples below spell out. */
  lemma ExampleNames()
    ensures ClassName(ContinuousVariableClass) == "ContinuousVariable"
    ensures ClassName(DiscreteVariableClass) == "DiscreteVariable"
    ensures ClassName(ObservableClass) == "Observable"
    ensures ClassName(MaximizeObjectiveClass) == "MaximizeObjective"
    ensures ClassName(LessThanConstraintClass) == "LessThanConstraint"
  {
  }

  /** A longhand that gives only its required field is accepted, the
      omitted `dtype` taking its default None:
      `{"type": "LessThanConstraint", "value": t}` is `LessThanConstraint(value=t)`. */
  lemma MinimalLonghand(t: real)
    ensures ValidateEntry(Constraints, Dict([("type", Text("LessThanConstraint")), ("value", Number(t))]))
            == Success(LessThanConstraint(None, t))
  {
    var pairs := [("type", Text("LessThanConstraint")), ("value", Number(t))];
    OneFieldLonghand(pairs);
    ExampleNames();
    TaggedEntry(Constraints, pairs, LessThanConstraintClass);
  }

  /** The shorthand `[lo, hi]` of a variable is the longhand
      `{"type": "ContinuousVariable", "domain": [lo, hi]}`, and both are
      accepted exactly when `lo < hi`. */
  lemma ContinuousShorthandIsLonghand(lo: real, hi: real)
    ensures ValidateVariable(List([Number(lo), Number(hi)]))
            == ValidateVariable(Dict([("type", Text("ContinuousVariable")), ("domain", List([Number(lo), Number(hi)]))]))
    ensures ValidateVariable(List([Number(lo), Number(hi)])).Success? <==> lo < hi
  {
    var domain := List([Number(lo), Number(hi)]);
    var pairs := [("type", Text("ContinuousVariable")), ("domain", domain)];
    OneFieldLonghand(pairs);
    ExampleNames();
    TaggedEntry(Variables, pairs, ContinuousVariableClass);
    assert Construct(ContinuousVariableClass, map["domain" := domain]) == NewContinuous(None, None, domain);
  }

  /** A set shorthand `{v, ...}` is the longhand
      `{"type": "DiscreteVariable", "values": {v, ...}}`. */
  lemma DiscreteShorthandIsLonghand(vs: seq<Atom>)
    ensures ValidateVariable(Set(vs))
            == ValidateVariable(Dict([("type", Text("DiscreteVariable")), ("values", Set(vs))]))
  {
    var pairs := [("type", Text("DiscreteVariable")), ("values", Set(vs))];
    OneFieldLonghand(pairs);
    ExampleNames();
    TaggedEntry(Variables, pairs, DiscreteVariableClass);
    assert Construct(DiscreteVariableClass, map["values" := Set(vs)]) == NewDiscrete(None, None, Set(vs));
  }

  /** The BOUNDS shorthand is flat: `["bounds", lo, hi]` (any letter case)
      gives the range `[lo, hi]`, while the nested `["BOUNDS", [lo, hi]]`
      gives a one-element range and is always refused. */
  lemma BoundsShorthandIsFlat(lo: real, hi: real)
    ensures ValidateConstraint(List([Text("bounds"), Number(lo), Number(hi)]))
            == (if lo < hi then Success(BoundsConstraint(None, lo, hi)) else Failure)
    ensures ValidateConstraint(List([Text("BOUNDS"), List([Number(lo), Number(hi)])])).Failure?
  {
    assert Upper("bounds") == "BOUNDS";
    assert Upper("BOUNDS") == "BOUNDS";
  }

  /** The threshold shorthands: `["less_than", t]` and `["GREATER_THAN", t]`. */
  lemma ThresholdShorthand(t: real)
    ensures ValidateConstraint(List([Text("less_than"), Number(t)])) == Success(LessThanConstraint(None, t))
    ensures ValidateConstraint(List([Text("GREATER_THAN"), Number(t)])) == Success(GreaterThanConstraint(None, t))
    ensures ValidateConstraint(List([Text("LESS_THAN")])).Failure?
    ensures ValidateConstraint(List([])).Failure?
  {
    assert Upper("less_than") == "LESS_THAN";
    assert Upper("GREATER_THAN") == "GREATER_THAN";
    assert Upper("LESS_THAN") == "LESS_THAN";
  }

  /** Objective strings are matched case-insensitively: a string and its
      upper-cased form validate alike. */
  lemma ObjectiveCaseInsensitive(s: string)
    ensures ValidateObjective(Text(s)) == ValidateObjective(Text(Upper(s)))
  {
    UpperIdempotent(s);
  }

  /** The longhand path of variables accepts any class of the module: an
      `Observable` stored as a variable is accepted, yet the same object
      handed back to the variable dictionary is refused, because it is not
      a `BaseVariable`. */
  lemma ForeignClassVariable()
    ensures ValidateVariable(Dict([("type", Text("Observable"))])) == Success(Observable(None))
    ensures ValidateVariable(Instance(Observable(None))).Failure?
  {
    var pairs := [("type", Text("Observable"))];
    TagOnlyLonghand(pairs);
    ExampleNames();
    TaggedEntry(Variables, pairs, ObservableClass);
  }

  /** The objective longhand path refuses a class outside the objective family. */
  lemma ObjectiveLonghandChecksFamily()
    ensures ValidateObjective(Dict([("type", Text("Observable"))])).Failure?
    ensures ValidateObjective(Dict([("type", Text("MaximizeObjective"))])) == Success(MaximizeObjective(None))
  {
    var bad := [("type", Text("Observable"))];
    var good := [("type", Text("MaximizeObjective"))];
    assert ValidateObjective(Dict(bad)).Failure? by {
      TagOnlyLonghand(bad);
      ExampleNames();
      TaggedEntry(Objectives, bad, ObservableClass);
    }
    assert ValidateObjective(Dict(good)) == Success(MaximizeObjective(None)) by {
      TagOnlyLonghand(good);
      ExampleNames();
      TaggedEntry(Objectives, good, MaximizeObjectiveClass);
    }
  }

  /** No check ties a default value to the domain: a default outside
      `[lo, hi]` is accepted. */
  lemma DefaultOutsideDomainAccepted(lo: real, hi: real, dv: real)
    requires lo < hi && !(lo <= dv <= hi)
    ensures ValidateVariable(Dict([("type", Text("ContinuousVariable")),
                                   ("domain", List([Number(lo), Number(hi)])),
                                   ("default_value", Number(dv))]))
            == Success(ContinuousVariable(None, Some(dv), lo, hi))
  {
    var pairs := [("type", Text("ContinuousVariable")),
                  ("domain", List([Number(lo), Number(hi)])),
                  ("default_value", Number(dv))];
    assert KeysOf(pairs) == ["type", "domain", "default_value"];
    ContinuousLonghand(pairs, lo, hi, dv);
  }

  /** A three-field continuous longhand with a default builds the variable. */
  lemma ContinuousLonghand(pairs: seq<(string, Raw)>, lo: real, hi: real, dv: real)
    requires lo < hi && KeysOf(pairs) == ["type", "domain", "default_value"]
    requires pairs[0].1 == Text("ContinuousVariable")
    requires pairs[1].1 == List([Number(lo), Number(hi)]) && pairs[2].1 == Number(dv)
    ensures ValidateVariable(Dict(pairs)) == Success(ContinuousVariable(None, Some(dv), lo, hi))
  {
    ContinuousLonghandFields(pairs);
    ConstructContinuous(Longhand(pairs).value.1, lo, hi, dv);
    ExampleNames();
    TaggedEntry(Variables, pairs, ContinuousVariableClass);
  }

  lemma ContinuousLonghandFields(pairs: seq<(string, Raw)>)
    requires KeysOf(pairs) == ["type", "domain", "default_value"]
    ensures Longhand(pairs).Success? && Longhand(pairs).value.0 == pairs[0].1
    ensures "domain" in Longhand(pairs).value.1 && Longhand(pairs).value.1["domain"] == pairs[1].1
    ensures "default_value" in Longhand(pairs).value.1 && Longhand(pairs).value.1["default_value"] == pairs[2].1
    ensures "dtype" !in Longhand(pairs).value.1
  {
    LonghandTag(pairs, 0);
    LonghandField(pairs, 1);
    LonghandField(pairs, 2);
    LonghandAbsent(pairs, "dtype");
  }

  /** The fields of a continuous variable with a default build it. */
  lemma ConstructContinuous(kw: Kwargs, lo: real, hi: real, dv: real)
    requires "dtype" !in kw && lo < hi
    requires "domain" in kw && kw["domain"] == List([Number(lo), Number(hi)])
    requires "default_value" in kw && kw["default_value"] == Number(dv)
    ensures Construct(ContinuousVariableClass, kw) == Success(ContinuousVariable(None, Some(dv), lo, hi))
  {
  }
}
