# gest-api VOCS schema and Generator contract, in Dafny

This project models the two components of gest-api.

The first is the VOCS schema (`gest_api/vocs.py`). A VOCS is five validated dictionaries:

- variables;
- objectives;
- constraints;
- constants;
- observables.

Every value stored through the constructor, `[]=` or `update` passes through that dictionary's `_validate_entry`. It turns a shorthand or a longhand raw value into one spec object, or refuses it. The shorthands are:

- `[lo, hi]` for a continuous variable and `{...}` for a discrete one;
- `["LESS_THAN", v]`, `["GREATER_THAN", v]` and the flat `["BOUNDS", lo, hi]` for constraints;
- `"minimize"` in any letter case for objectives;
- any value for a constant;
- a string, a type or a tuple for an observable.

The longhand is `{"type": ClassName, **fields}`. Around the dispatch sit:

- the class validators: `domain[1] > domain[0]`, a non-empty discrete set, and an ascending range;
- the three constraint `check` predicates;
- the field validators and the serialisers of `VOCS`;
- the name lists and counts derived from the five dictionaries.

The second is the `Generator` interface (`gest_api/generator.py`). It is an abstract class whose contract is written in prose:

- construction runs `_validate_vocs`;
- `suggest(n)` returns exactly `n` points or fails;
- every point carries the input names and, for a generator that returns ids, an `"_id"`;
- `ingest` refuses an `"_id"` the instance never issued;
- the base `ingest` and `finalize` do nothing.

The contracts of `suggest` and `ingest` are stated as predicates, `SuggestContract` and `IngestContract`. A reference generator that keeps the set of ids it has issued is proved to meet both.

Modules, in dependency order:

| file | module | what it holds |
|---|---|---|
| wrappers.dfy | Wrappers | `Option`, `Result`, `Outcome` |
| seqs.dfy | Seqs | no-repeat sequences and the "append if missing" loop |
| ordered_dict.dfy | OrderedDicts | a Python dict with string keys: key order plus mapping, `dict(pairs)` semantics |
| specs.dfy | Specs | the raw Python values (`Raw`), the 14 spec classes (`Entry`, `Class`), class names, the `check` predicates |
| fields.dfy | Fields | `cls(**fields)` with the pydantic field validators, and `model_dump() \| {"type": ...}` |
| entries.dfy | Entries | the five `_validate_entry` dispatchers and the shared longhand path |
| entry_properties.dfy | EntryProperties | round trip, idempotence, shorthand/longhand agreement, facts about the dispatch |
| validated_dict.dfy | ValidatedDicts | `ValidatedDict`: `__init__`, `update` and `__setitem__` |
| vocs.dfy | Vocs | the `VOCS` record, its field validators, assignment, `model_dump`, and the name and count properties |
| generator.dfy | Generators | the `Generator` contract and a reference generator |

Python's `globals()[name]` lookup is the finite map from the names of the 14 spec classes of `vocs.py` to the classes. Floats are Dafny `real` without NaN or infinities. Every error, whichever exception the source raises, is the one `Failure`.

## Model

| member | source | states |
|---|---|---|
| Seqs.AppendMissing | gest_api/vocs.py:374-381 | the `if ele not in full_list: full_list += [ele]` loop keeps the list it started from as a prefix. It ends with exactly the union of both lists' elements and never grows past their total length. It introduces no repeat |
| Seqs.AppendMissingNew | gest_api/vocs.py:374-381 | everything the loop appends comes from the added list and was not already in the list it started from |
| Seqs.AppendMissingOrder | gest_api/vocs.py:374-381 | the loop appends in the order of first occurrence in the added list |
| Seqs.AppendMissingExact | gest_api/vocs.py:372-383 | no element is dropped by the loop exactly when the added list has no repeats and shares nothing with the list it is added to |
| OrderedDicts.Put | gest_api/vocs.py:55-58 | `dict.__setitem__` appends a new key at the end, and an existing key keeps its place with the new value. Keys stay listed once each |
| OrderedDicts.ItemsOfDistinct | gest_api/vocs.py:46-49 | a dict built from pairs with distinct keys lists exactly those pairs back from `items()`, in order |
| Specs.ClassNamedInverse | gest_api/vocs.py:84-86 | each spec class is found under its own `__name__`, and only under it |
| Specs.ThresholdIsStrict | gest_api/vocs.py:99-110 | `LessThanConstraint` and `GreaterThanConstraint` both fail at the threshold itself. Between them they accept every other value |
| Specs.BoundsAreInclusive | gest_api/vocs.py:113-126 | `BoundsConstraint.check` holds at both ends of the range. It is exactly "not below lo and not above hi" |
| Specs.Check | gest_api/vocs.py:99-127 | the three `check` methods: below the threshold, above the threshold, and within the closed range |
| Specs.ObjectiveFamily | gest_api/vocs.py:174-194 | the subclasses of `BaseObjective` are exactly the classes of objective entries |
| Fields.ParsePair | gest_api/vocs.py:24-26 | a `conlist(float, 2, 2)` accepts exactly a list of two numbers, and holds those two numbers in order |
| Fields.ParseValues | gest_api/vocs.py:38-41 | a `conset(min_length=1)` accepts exactly a non-empty set. It holds the set's elements, without repeats |
| Fields.NewContinuous | gest_api/vocs.py:23-35 | a continuous variable is built exactly when the domain is two numbers with `domain[1] > domain[0]`. It holds that domain |
| Fields.NewDiscrete | gest_api/vocs.py:38-41 | a discrete variable is built exactly from a non-empty set. It holds the same elements |
| Fields.NewBounds | gest_api/vocs.py:113-122 | a bounds constraint is built exactly when the range is two numbers in ascending order. It holds that range |
| Fields.Construct | gest_api/vocs.py:84-87 | `cls(**fields)` only ever gives an object of class `cls` that passes all its validators. A `dtype` of the wrong kind is refused |
| Fields.ConstructAccepts | gest_api/vocs.py:15-41 | `cls(**kw)` succeeds exactly when the keywords meet `FieldsAccepted`. An omitted `dtype` or `default_value` is no obstacle. Each required field (`domain`, `values`, `value`, `range`) must be present and accepted by its validator |
| Fields.ConstructFields | gest_api/vocs.py:15-128 | the object built holds the `dtype` and `default_value` given, or None when they are omitted. It also holds the given domain, values, threshold, range or constant value |
| Fields.ConstructOmittedDType | gest_api/vocs.py:16 | leaving `dtype` out builds the same object as passing `dtype=None` |
| Fields.ConstructOmittedDefault | gest_api/vocs.py:20 | leaving `default_value` out builds the same object as passing `default_value=None` |
| Fields.Serialise | gest_api/vocs.py:332-337 | the serialised entry is a dict with distinct keys. It starts with `dtype` and ends with `"type"` holding the class name |
| Fields.ConstructFromDump | gest_api/vocs.py:336 | any keyword set holding an object's dumped fields rebuilds that object through its own class, with nested spec objects turned into dicts |
| Fields.DumpPlainValue | gest_api/vocs.py:336 | `model_dump` leaves a field value that holds no spec object unchanged |
| Fields.FlattenPlain | gest_api/vocs.py:336 | an object with no spec object nested in its fields is rebuilt exactly |
| Entries.LookupClass | gest_api/vocs.py:82-86 | the `"type"` value finds a class exactly when it is a string naming a spec class, and it finds the class of that name |
| Entries.LookupClassName | gest_api/vocs.py:84 | every spec class is found under its own name |
| Entries.LookupClassIff | gest_api/vocs.py:82-86 | a tag finds a given class exactly when it is that class's name |
| Entries.TagIs | gest_api/vocs.py:239-245 | a longhand's `"type"` names a class exactly when it is the string naming that class, so a check on the class is a check on the tag's text |
| Entries.FromLonghand | gest_api/vocs.py:79-87 | a missing `"type"` key, or one that names no spec class, is refused. Otherwise only the class the tag names is ever built, and only when it is in the allowed family; the result is valid |
| Entries.UnknownTagRefused | gest_api/vocs.py:80-86 | every dictionary refuses a longhand whose `"type"` is missing or names no class |
| Entries.ValidateVariable | gest_api/vocs.py:66-92 | what a variable becomes, case by case. A variable object passes unchanged and any other object is refused. A list is accepted exactly when it is two numbers in ascending order, giving that domain. A set is accepted exactly when it is non-empty, giving those values. A dict is refused when its `"type"` is missing or names no class, and otherwise is exactly the construction of the named class from the other fields. A scalar or tuple is refused. Valid input always gives a value admissible as a variable |
| Entries.ConstraintFromList | gest_api/vocs.py:150-168 | a list constraint needs a string kind whose upper-case form is one of the three. BOUNDS takes the rest of the list as its range, which must be two ascending numbers. LESS_THAN and GREATER_THAN need a second element that is a number, and take it as the threshold |
| Entries.ValidateConstraint | gest_api/vocs.py:136-171 | a constraint object passes unchanged and any other object is refused. A dict is refused when its `"type"` is missing or names no class, and otherwise is exactly the construction of the named class from the other fields. A list goes through the list shorthand, and a scalar, tuple or set is refused. Valid input always gives a value admissible as a constraint |
| Entries.ObjectiveFromString | gest_api/vocs.py:215-221 | a string is accepted exactly when its upper-case form is MINIMIZE, MAXIMIZE or EXPLORE. It gives the objective class `OBJECTIVE_CLASSES` names for it, with no dtype |
| Entries.ValidateObjective | gest_api/vocs.py:197-223 | an objective object passes unchanged and any other object is refused. A dict is refused when its `"type"` is missing, names no class, or names a class that is not an objective; otherwise it is exactly the construction of that objective class from the other fields. A string goes through the direction table. A list, tuple, set or non-string scalar is refused. Valid input always gives a valid objective |
| Entries.ValidateConstant | gest_api/vocs.py:230-248 | anything but a dict is accepted: a `Constant` passes unchanged and any other value becomes the value of a new constant. A dict is accepted only when its `"type"` is the string `"Constant"`, and is then exactly a `Constant` built from the other fields. Valid input always gives a valid `Constant` |
| Entries.ValidateObservable | gest_api/vocs.py:255-275 | an `Observable` passes unchanged and any other object is refused. A str, a type or a tuple becomes the dtype of a new observable. A dict is accepted only when its `"type"` is the string `"Observable"`, and is then exactly an `Observable` built from the other fields. A list, set or other scalar is refused. Valid input always gives a valid `Observable` |
| Entries.ValidateEntry | gest_api/vocs.py:55-63 | a spec object is passed through unchanged exactly when it is of the class the category's dictionary accepts. A valid input always gives a value the category admits |
| Entries.LonghandPath | gest_api/vocs.py:79-87 | every category reads a dict through the one shared longhand path, restricted to its own family of classes |
| EntryProperties.SerialiseRoundTrip | gest_api/vocs.py:332-344 | the serialised form of any entry a dictionary may hold parses back through that dictionary's dict path. It gives the entry with any spec object nested in its `dtype` or constant value turned into a dict, and the same entry when nothing is nested |
| EntryProperties.NestedConstantFlattened | gest_api/vocs.py:226-228 | a constant holding a continuous variable comes back from its serialised form holding the variable's field dict instead, so it is not the same constant |
| EntryProperties.NormaliseIdempotent | gest_api/vocs.py:69-70 | validating a validated value again changes nothing when the value is of the class the dictionary passes through |
| EntryProperties.ContinuousShorthandIsLonghand | gest_api/vocs.py:71-76 | `[lo, hi]` and `{"type": "ContinuousVariable", "domain": [lo, hi]}` give the same result, accepted exactly when `lo < hi` |
| EntryProperties.MinimalLonghand | gest_api/vocs.py:99-100 | `{"type": "LessThanConstraint", "value": t}` is accepted as a constraint and gives `LessThanConstraint(value=t)` with no `dtype` |
| EntryProperties.DiscreteShorthandIsLonghand | gest_api/vocs.py:77-78 | a set and `{"type": "DiscreteVariable", "values": set}` give the same result |
| EntryProperties.BoundsShorthandIsFlat | gest_api/vocs.py:163-164 | `["bounds", lo, hi]` gives the range `[lo, hi]` when `lo < hi` and fails otherwise. The nested `["BOUNDS", [lo, hi]]` is always refused |
| EntryProperties.ThresholdShorthand | gest_api/vocs.py:165-168 | `["less_than", t]` and `["GREATER_THAN", t]` give the threshold constraints. A kind with no value, and the empty list, are refused |
| EntryProperties.ObjectiveCaseInsensitive | gest_api/vocs.py:215-217 | an objective string and its upper-case form validate alike |
| EntryProperties.ForeignClassVariable | gest_api/vocs.py:79-87 | the variable dict path accepts a class from outside the variable family (an `Observable`), while the same object passed directly is refused |
| EntryProperties.ObjectiveLonghandChecksFamily | gest_api/vocs.py:205-214 | the objective dict path refuses a class outside `BaseObjective` and accepts an objective class |
| EntryProperties.DefaultOutsideDomainAccepted | gest_api/vocs.py:19-35 | a continuous variable whose `default_value` lies outside its domain is accepted |
| ValidatedDicts.StoreWith | gest_api/vocs.py:55-58 | `d[key] = v` succeeds exactly when `v` validates. It stores the validated value under `key` with Python's key order and keeps the dict well formed |
| ValidatedDicts.StoreAllWith | gest_api/vocs.py:48-53 | storing pairs one after another succeeds exactly when every value validates. A key that no pair names keeps its old value |
| ValidatedDicts.StoreAllShape | gest_api/vocs.py:48-53 | after storing the pairs, the key order is the old order followed by each new key at its first occurrence. The keys are the old keys plus the pairs' keys, and the dict stays well formed |
| ValidatedDicts.StoreAllKeeps | gest_api/vocs.py:48-58 | any property held by every old value and every validated value holds of every value the dict ends with |
| ValidatedDicts.StoreAllValues | gest_api/vocs.py:48-49 | when keys are distinct, every pair's key ends up holding that pair's validated value |
| ValidatedDicts.Store | gest_api/vocs.py:55-58 | `d[key] = raw` on a category's dictionary succeeds exactly when the raw value validates, and keeps a canonical dictionary canonical |
| ValidatedDicts.Update | gest_api/vocs.py:51-53 | the model of `update` takes a single dict argument only. It succeeds exactly when every value of `dict(raw)` validates, and appends the new keys in first-seen order |
| ValidatedDicts.UpdateValues | gest_api/vocs.py:51-53 | after `update`, each key of the mapping holds its last value, validated |
| ValidatedDicts.UpdateKeepsOthers | gest_api/vocs.py:51-53 | `update` leaves every key the mapping does not name as it was |
| ValidatedDicts.UpdateCanonical | gest_api/vocs.py:51-58 | updating a canonical dictionary with valid values keeps every stored value admissible |
| ValidatedDicts.New | gest_api/vocs.py:45-49 | the constructor refuses anything but a dict, and lists the keys of its argument once each in first-seen order |
| ValidatedDicts.NewContents | gest_api/vocs.py:45-49 | a new dictionary holds exactly the keys of its argument, each with its last value validated |
| ValidatedDicts.NewCanonical | gest_api/vocs.py:45-58 | a dictionary built from valid values holds only admissible values |
| ValidatedDicts.SerialisedTableRoundTrip | gest_api/vocs.py:332-337 | building a category's dictionary from its own serialised items gives back the same dictionary, in the same key order, when no entry holds a nested spec object |
| ValidatedDicts.InstanceTableRoundTrip | gest_api/vocs.py:45-49 | a dictionary rebuilt from its own items gives back the same dictionary, when its values are of the class its category passes through |
| Vocs.NamesOf | gest_api/vocs.py:324-326 | a list of observable names is read exactly when every item is a string, keeping the names in order |
| Vocs.ValidateObservables | gest_api/vocs.py:322-330 | a list or set of names gives one default `Observable` per name, once, at its first position. A dict goes through `ObservableDict`, and anything else is refused |
| Vocs.ObservablesFromNames | gest_api/vocs.py:326 | `ObservableDict({name: Observable() for name in names})` always succeeds. It is well formed, keyed by the distinct names, and all its values are default observables |
| Vocs.Make | gest_api/vocs.py:278-330 | `VOCS(**kw)` succeeds exactly when every keyword is a field, `variables` is given, and every field validates. Each field is then its validated value |
| Vocs.MakeFields | gest_api/vocs.py:278-301 | `VOCS(**kw)` is built exactly when every field given validates. A field given holds its validated value, and a field left out holds the empty dictionary |
| Vocs.ValidateFieldCanonical | gest_api/vocs.py:306-330 | every field validator fed valid values builds a dictionary holding only what its category admits |
| Vocs.MakeValid | gest_api/vocs.py:278-330 | a `VOCS` built from valid values holds only admissible values in every dictionary |
| Vocs.Assign | gest_api/vocs.py:302-304 | assigning a field re-runs its validator. It succeeds exactly when the name is a field and the value validates, and changes only that field |
| Vocs.AssignKeepsValid | gest_api/vocs.py:278-304 | assigning a field keeps a valid `VOCS` valid: every dictionary still holds only what its category admits |
| Vocs.SerialiseTable | gest_api/vocs.py:332-344 | a serialised dictionary keeps its key order, and each value is the entry's serialised form |
| Vocs.ModelDump | gest_api/vocs.py:332-344 | the dump has exactly the five field names as keys, each holding the serialised dictionary |
| Vocs.DumpRoundTrip | gest_api/vocs.py:278-344 | `VOCS(**vocs.model_dump())` gives back the same `VOCS` when no entry holds a nested spec object |
| Vocs.Names | gest_api/vocs.py:351-369 | the name list of a category lists each of its keys exactly once |
| Vocs.Count | gest_api/vocs.py:395-423 | the count of a category equals the length of its name list |
| Vocs.OutputNames | gest_api/vocs.py:371-383 | `output_names` starts with the objective names followed by the constraint names they lack. It holds exactly the objective, constraint and observable names, with no repeat, and is no longer than their total |
| Vocs.OutputNamesOrder | gest_api/vocs.py:371-383 | after the objectives come the constraint names that are not objectives, in constraint order. Then come the observable names listed nowhere before, in observable order |
| Vocs.OutputNamesDisjoint | gest_api/vocs.py:371-383 | when the three categories share no name, `output_names` is the objective, constraint and observable names one after another |
| Vocs.OutputCountExact | gest_api/vocs.py:425-428 | `n_outputs` is the sum of the three output counts exactly when objectives, constraints and observables share no name |
| Vocs.NInputs | gest_api/vocs.py:405-408 | `n_inputs` is the length of the variable names followed by the constant names |
| Vocs.NOutputs | gest_api/vocs.py:425-428 | `n_outputs` is at least the number of objectives and at most the sum of the three output counts |
| Vocs.AllNames | gest_api/vocs.py:390-393 | `all_names` has length `n_inputs + n_outputs` and holds exactly the variable, constant and output names |
| Vocs.AllNamesDistinct | gest_api/vocs.py:390-393 | `all_names` repeats no name exactly when variables, constants and outputs share no name |
| Generators.InputNames | gest_api/generator.py:95-97 | the input names are exactly the variable and constant names |
| Generators.SuggestedShape | gest_api/generator.py:95-107 | what each suggested point promises: a key for every variable and constant, an `"_id"` on a generator that returns ids, and a scalar value for every variable declared without a `dtype` |
| Generators.SuggestContract | gest_api/generator.py:90-123 | what `suggest(num_points)` promises: exactly `num_points` points when a count is given, each of the suggested shape |
| Generators.CarriesAllNames | gest_api/generator.py:140-147 | what `ingest` demands of each result: a key for every variable, constant, objective, constraint and observable |
| Generators.IngestContract | gest_api/generator.py:149-157 | what `ingest` promises: a batch is refused exactly when it carries an `"_id"` the generator never issued |
| Generators.Init | gest_api/generator.py:39-76 | construction succeeds exactly when `_validate_vocs` accepts the `VOCS`. It starts with no issued ids and no history |
| Generators.InitDefault | gest_api/generator.py:31-37 | a generator that keeps `returns_id` at its default `False` is still built exactly when `_validate_vocs` accepts the `VOCS`, and it returns no ids |
| Generators.SuggestedPoint | gest_api/generator.py:95-107 | a suggested point has every input name and nothing else but the `"_id"`, and a scalar for each variable without a `dtype`. A generator that returns ids always puts the point's own id there, counted from the batch's first id. One that does not has an `"_id"` only when an input is itself named `"_id"` |
| Generators.Suggest | gest_api/generator.py:90-134 | with a count, exactly that many points or a failure. Without one, the generator's batch size. Every point has the suggested shape |
| Generators.SuggestIds | gest_api/generator.py:121-123 | the ids of one batch are distinct, none was issued before, and each is now known to the generator |
| Generators.SuggestKeepsValid | gest_api/generator.py:31-37 | suggesting keeps every issued id below the next one, never forgets an id, and issues none when the generator returns no ids |
| Generators.Ingest | gest_api/generator.py:136-168 | `ingest` succeeds exactly when every `"_id"` it is given was issued by this instance, and it keeps the results |
| Generators.IssuedIds | gest_api/generator.py:31-37 | the id values a generator has handed out are exactly the ones it knows |
| Generators.IngestMeetsContract | gest_api/generator.py:136-168 | the reference `ingest` meets `IngestContract`: it accepts a batch exactly when every `"_id"` in it is one of the ids handed out |
| Generators.IngestKeepsNames | gest_api/generator.py:140-147 | every result a generator keeps carries all the names of its `VOCS` |
| Generators.IngestExternal | gest_api/generator.py:153-155 | results without `"_id"` are always accepted |
| Generators.IngestUnknownId | gest_api/generator.py:149-157 | one result with an unknown `"_id"` makes the whole `ingest` fail |
| Generators.SuggestThenIngest | gest_api/generator.py:31-37 | points sent back with the ids they were suggested with are accepted by the generator that suggested them |
| Generators.NoIdWithoutReturnsId | gest_api/generator.py:121-123 | a generator that returns no ids puts no `"_id"` in its points, unless an input is itself named `"_id"` |
| Generators.Finalize | gest_api/generator.py:170-182 | `finalize` keeps the ingested results and the issued ids |
| Generators.BaseNoOps | gest_api/generator.py:136-182 | after the base `ingest` and `finalize`, a generator suggests exactly what it would have suggested before them |
| Generators.BaseIngest | gest_api/generator.py:136-168 | the base class's `ingest` has only a docstring, so it accepts any batch and changes nothing |
| Generators.BaseFinalize | gest_api/generator.py:170-182 | the base class's `finalize` has only a docstring, so it changes nothing |
| Generators.BaseIngestAcceptsUnknownId | gest_api/generator.py:136-168 | the base `ingest` accepts a result whose `"_id"` the contract says to refuse |

## Left out

- Pydantic's lax coercion is not modelled. Floats come only from numbers, a `conlist` only from a list, and a `conset` only from a set. A string, bool or int-like string is never coerced.
- Pydantic drops unknown keyword fields of a longhand dict. This is modelled: `Construct` ignores fields its class does not declare. `model_config`, `ConfigDict` and the serialiser plumbing are not modelled; only the shape of the serialised dict is.
- `globals()[name]` covers only the 14 spec classes. The other names in the module's namespace are not modelled: the dictionary classes, `VOCS`, and the pydantic and `typing` imports.
- A failing `__init__`, `update` or assignment is one `Failure`. The partial dictionary Python leaves behind after the first refused value is not modelled.
- The in-place `val.pop("type")` on the caller's dict is not modelled. The longhand path reads the dict without changing it.
- The `bounds` property (gest_api/vocs.py:346-349) is left out. It fails on any variable without a `domain`.
- Vocs.DumpRoundTrip and ValidatedDicts.SerialisedTableRoundTrip are stated only for entries with no spec object nested in their `dtype` or constant value. `model_dump` turns such a nested object into the dict of its fields, so the program does not get the same `VOCS` back. `EntryProperties.SerialiseRoundTrip` states what comes back instead, and `EntryProperties.NestedConstantFlattened` shows one case.
- Vocs.ValidateObservables: a list or set of names is accepted only when every name is a string. Python also accepts other hashable names; dictionary keys are strings throughout this model.
- Dict keys are strings throughout, so a dict with non-string keys cannot be expressed.
- Entries.Upper: `str.upper` is modelled on ASCII letters only.
- ValidatedDicts.New: only a dict argument is accepted. `dict(*args, **kwargs)` also takes a list of pairs or keyword arguments.
- ValidatedDicts.Update: only a single dict argument is accepted. `dict(*args, **kwargs)` also takes a list of pairs, keyword arguments, or nothing at all, which leaves the dictionary unchanged.
- Vocs.NamesOf: a list or set of observable names is read only when every name is a string. Python also accepts other hashable names, but dictionary keys are strings throughout this model.
- `dict.setdefault` and `d |= {...}` on a validated dictionary store values without validation, since `ValidatedDict` overrides only `__init__`, `update` and `__setitem__`. These two bypasses are not modelled.
- Generators.SuggestedShape: this reads "keys include each input name" strictly. A suggested point may carry no key other than the input names and `"_id"`, while the docstring leaves extra keys open.
- Generators.SuggestedShape: a variable with a declared `dtype` has its value left unconstrained, whether that dtype is an array or a scalar type such as `"float"`. The model does not interpret dtype values, so it cannot tell the two apart.
- A spec object stored in a dictionary is taken to stay valid. The spec classes do not validate assignment, so a later `obj.domain = [5, 1]` on a stored object goes unchecked in Python. The model has no such mutation.
- Fields.ParseValues: set elements are atoms only, so a set holding tuples or frozensets cannot be expressed. Python also treats `True`, `1` and `1.0` as one set element, while the model keeps `BoolAtom(true)` and `Num(1.0)` apart.
- A set's iteration order is taken as given, since Python does not define it. A discrete variable's values are kept without repeats in that order.
- `finalize`'s promise that background work has drained, and any concurrency, are not modelled.
- The exception kinds are not modelled. For example, `[]` as a constraint raises `IndexError` rather than `ValueError`.
- The source does not check that names are unique across categories, or that a default value lies in its domain, so neither is modelled as enforced. `Vocs.AllNamesDistinct` and `EntryProperties.DefaultOutsideDomainAccepted` state the consequences.
- Generators.SuggestThenIngest assumes no input is itself named `"_id"`. The source does not say what happens then.
- The reference generator makes choices that are the model's own and not the source's:
  - the values it suggests;
  - its `capacity` and its `batch`;
  - numbering ids from 0.
- Generators.BaseIngest: the base class's `ingest` accepts every result. The id rule is the contract of subclasses, stated by `Generators.Ingest`.
- The usage examples in the docstrings of `generator.py` are left out: `init_model`, `simulate` and `NelderMead`.
