/** The `Generator` interface of `gest_api/generator.py`.

    The class is abstract and states its contract in prose: what `suggest`
    returns, what `ingest` accepts, and that construction validates the
    `VOCS`. The contract is written here as predicates over a generator's
    observable behaviour, and a reference generator that hands out ids is
    proved to meet it. The base class's own `ingest` and `finalize` bodies,
    which do nothing, are modelled as they are written. */
module Generators {
  import opened Wrappers
  import opened Seqs
  import opened Specs
  import opened Entries
  import opened Vocs

  /** A point: names to values. */
  type Point = map<string, Raw>

  /** The key under which a generator that returns ids puts a point's id. */
  const IdKey: string := "_id"

  /** `Generator.returns_id`: a generator returns no ids unless it says so. */
  const DefaultReturnsId: bool := false

  /** The names every suggested point carries: variables and constants. */
  function InputNames(v: VOCS): (r: seq<string>)
    ensures v.Keyed() ==> Elems(r) == v.variables.entries.Keys + v.constants.entries.Keys
  {
    Names(v, Variables) + Names(v, Constants)
  }

  /** A variable declared without a `dtype`: its values are scalars. */
  predicate ScalarVariable(e: Entry) {
    IsVariable(e) && e.dtype.None?
  }

  /** A suggested point carries every input name, and nothing else besides
      the `"_id"` of a generator that returns ids; such a generator always
      puts one there. A variable declared without a `dtype` gets a scalar. */
  predicate SuggestedShape(v: VOCS, returnsId: bool, p: Point) {
    && (forall k :: k in Elems(InputNames(v)) ==> k in p)
    && (forall k :: k in p ==> k in Elems(InputNames(v)) || (returnsId && k == IdKey))
    && (returnsId ==> IdKey in p)
    && (forall k :: k in p && k in v.variables.entries && ScalarVariable(v.variables.entries[k]) ==>
          p[k].Scalar?)
  }

  /** The contract of `suggest(num_points)`: with a count, exactly that many
      points; without one, as many as the generator chooses; every point of
      the suggested shape. */
  predicate SuggestContract(v: VOCS, returnsId: bool, n: Option<int>, points: seq<Point>) {
    && (n.Some? ==> |points| == n.value)
    && forall i :: 0 <= i < |points| ==> SuggestedShape(v, returnsId, points[i])
  }

  /** What `ingest` demands of each result: a key for every variable,
      constant, objective, constraint and observable. */
  predicate CarriesAllNames(v: VOCS, p: Point) {
    forall k :: k in Elems(AllNames(v)) ==> k in p
  }

  /** The value a reference point gives an input: the lower end of a
      continuous domain, the first discrete value, a constant's value, or
      else the declared default (None when there is none). */
  function InputValue(e: Entry): Raw {
    match e
    case ContinuousVariable(_, _, lo, _) => Scalar(Num(lo))
    case DiscreteVariable(_, _, values) => if |values| > 0 then Scalar(values[0]) else Scalar(NoneAtom)
    case Constant(_, value) => value
    case BaseVariable(_, Some(x)) => Scalar(Num(x))
    case _ => Scalar(NoneAtom)
  }

  /** The id values a generator hands out. */
  function IdValue(id: nat): Raw {
    Scalar(Num(id as real))
  }

  /** A reference generator: it suggests `batch` points when no count is
      given, at most `capacity` points when one is, numbers them with fresh
      ids when it returns ids, and keeps what it ingests. */
  datatype RefGenerator = RefGenerator(
    vocs: VOCS, returnsId: bool, batch: nat, capacity: nat,
    nextId: nat, issued: set<nat>, history: seq<Point>)
  {
    /** Every issued id is below the next one, and a generator that returns
        no ids has issued none. */
    ghost predicate Valid() {
      && (forall id :: id in issued ==> id < nextId)
      && (!returnsId ==> issued == {})
    }
  }

  /** `__init__(vocs, ...)`: `_validate_vocs(vocs)` runs first, and a `VOCS`
      it refuses makes construction fail. */
  function Init(vocs: VOCS, validateVocs: VOCS -> Outcome, returnsId: bool, batch: nat, capacity: nat)
    : (r: Result<RefGenerator>)
    ensures r.Success? <==> validateVocs(vocs).Pass?
    ensures r.Success? ==> r.value.Valid() && r.value.vocs == vocs && r.value.issued == {} && r.value.history == []
  {
    if validateVocs(vocs).Fail? then Failure
    else Success(RefGenerator(vocs, returnsId, batch, capacity, 0, {}, []))
  }

  /** `__init__` of a subclass that keeps the class attribute `returns_id`
      at its default: construction still validates the `VOCS`, and the
      generator hands out no ids. */
  function InitDefault(vocs: VOCS, validateVocs: VOCS -> Outcome, batch: nat, capacity: nat)
    : (r: Result<RefGenerator>)
    ensures r.Success? <==> validateVocs(vocs).Pass?
    ensures r.Success? ==> r.value.Valid() && !r.value.returnsId && r.value.issued == {}
  {
    Init(vocs, validateVocs, DefaultReturnsId, batch, capacity)
  }

  /** The inputs of a point: variables first, then constants not already
      named by a variable. */
  function InputPoint(v: VOCS): (r: Point)
    ensures r.Keys == Elems(InputNames(v))
  {
    map k | k in Elems(InputNames(v)) ::
      if k in v.variables.entries then InputValue(v.variables.entries[k])
      else if k in v.constants.entries then InputValue(v.constants.entries[k])
      else Scalar(NoneAtom)
  }

  /** The `i`-th point of a batch whose ids start at `first`. */
  function SuggestedPoint(g: RefGenerator, first: nat, i: nat): (r: Point)
    ensures SuggestedShape(g.vocs, g.returnsId, r)
    ensures g.returnsId ==> r[IdKey] == IdValue(first + i)
  {
    var p := InputPoint(g.vocs);
    if g.returnsId then p[IdKey := IdValue(first + i)] else p
  }

  /** The ids `first`, ..., `first + count - 1`. */
  function IdRange(first: nat, count: nat): (r: set<nat>)
    ensures forall id :: id in r <==> first <= id < first + count
    decreases count
  {
    if count == 0 then {} else {first} + IdRange(first + 1, count - 1)
  }

  /** `suggest(num_points)`. */
  function Suggest(g: RefGenerator, n: Option<int>): (r: Result<(RefGenerator, seq<Point>)>)
    ensures r.Success? <==> n.None? || 0 <= n.value <= g.capacity
    ensures r.Success? ==> SuggestContract(g.vocs, g.returnsId, n, r.value.1)
    ensures r.Success? && n.None? ==> |r.value.1| == g.batch
    ensures r.Success? ==> r.value.0.vocs == g.vocs && r.value.0.history == g.history
  {
    if n.Some? && !(0 <= n.value <= g.capacity) then Failure
    else
      var count: nat := if n.Some? then n.value else g.batch;
      var points := seq(count, i requires 0 <= i < count => SuggestedPoint(g, g.nextId, i));
      var next := if g.returnsId
        then g.(nextId := g.nextId + count, issued := g.issued + IdRange(g.nextId, count))
        else g;
      Success((next, points))
  }

  /** The ids of one batch are new, distinct, and recorded as issued. */
  lemma SuggestIds(g: RefGenerator, n: Option<int>, i: nat, j: nat)
    requires g.Valid() && g.returnsId && Suggest(g, n).Success?
    requires i < j < |Suggest(g, n).value.1|
    ensures Suggest(g, n).value.1[i][IdKey] != Suggest(g, n).value.1[j][IdKey]
    ensures forall id :: id in g.issued ==> Suggest(g, n).value.1[i][IdKey] != IdValue(id)
    ensures KnownId(Suggest(g, n).value.0, Suggest(g, n).value.1[i][IdKey])
  {
    var (next, points) := Suggest(g, n).value;
    assert points[i][IdKey] == IdValue(g.nextId + i);
    assert points[j][IdKey] == IdValue(g.nextId + j);
    assert g.nextId + i in next.issued;
  }

  /** Suggesting keeps the record of issued ids sound. */
  lemma SuggestKeepsValid(g: RefGenerator, n: Option<int>)
    requires g.Valid() && Suggest(g, n).Success?
    ensures Suggest(g, n).value.0.Valid()
    ensures Suggest(g, n).value.0.issued >= g.issued
  {
  }

  /** The generator issued `raw` as an id. */
  predicate KnownId(g: RefGenerator, raw: Raw) {
    exists id :: id in g.issued && raw == IdValue(id)
  }

  /** `ingest(results)`: a result with an `"_id"` the generator never issued
      is refused; results without one are external data and are accepted. */
  function Ingest(g: RefGenerator, results: seq<Point>): (r: Result<RefGenerator>)
    requires forall i :: 0 <= i < |results| ==> CarriesAllNames(g.vocs, results[i])
    ensures r.Success? <==> forall i :: 0 <= i < |results| && IdKey in results[i] ==> KnownId(g, results[i][IdKey])
    ensures r.Success? ==> r.value.history == g.history + results
    ensures r.Success? ==> r.value.issued == g.issued && r.value.vocs == g.vocs
  {
    if forall i :: 0 <= i < |results| && IdKey in results[i] ==> KnownId(g, results[i][IdKey])
    then Success(g.(history := g.history + results))
    else Failure
  }

  /** The contract of `ingest(results)`, for a generator that has handed
      out the ids `issued`: the batch is accepted exactly when every
      `"_id"` among the results is one of them. */
  predicate IngestContract(issued: set<Raw>, results: seq<Point>, accepted: bool) {
    accepted <==> forall i :: 0 <= i < |results| && IdKey in results[i] ==> results[i][IdKey] in issued
  }

  /** The id values a reference generator has handed out. */
  function IssuedIds(g: RefGenerator): (r: set<Raw>)
    ensures forall raw :: raw in r <==> KnownId(g, raw)
  {
    set id | id in g.issued :: IdValue(id)
  }

  /** The reference `ingest` meets the contract. */
  lemma IngestMeetsContract(g: RefGenerator, results: seq<Point>)
    requires forall i :: 0 <= i < |results| ==> CarriesAllNames(g.vocs, results[i])
    ensures IngestContract(IssuedIds(g), results, Ingest(g, results).Success?)
  {
  }

  /** Every result the generator keeps carries all names of its `VOCS`. */
  lemma IngestKeepsNames(g: RefGenerator, results: seq<Point>)
    requires forall i :: 0 <= i < |g.history| ==> CarriesAllNames(g.vocs, g.history[i])
    requires forall i :: 0 <= i < |results| ==> CarriesAllNames(g.vocs, results[i])
    requires Ingest(g, results).Success?
    ensures forall i :: 0 <= i < |Ingest(g, results).value.history| ==>
              CarriesAllNames(g.vocs, Ingest(g, results).value.history[i])
  {
    var h := Ingest(g, results).value.history;
    forall i | 0 <= i < |h| ensures CarriesAllNames(g.vocs, h[i]) {
      if i < |g.history| {
        assert h[i] == g.history[i];
      } else {
        assert h[i] == results[i - |g.history|];
      }
    }
  }

  /** Results without ids are always accepted. */
  lemma IngestExternal(g: RefGenerator, results: seq<Point>)
    requires forall i :: 0 <= i < |results| ==> CarriesAllNames(g.vocs, results[i]) && IdKey !in results[i]
    ensures Ingest(g, results).Success?
  {
  }

  /** A result carrying an id the generator never issued is refused,
      whatever else is ingested with it. */
  lemma IngestUnknownId(g: RefGenerator, results: seq<Point>, i: nat)
    requires forall j :: 0 <= j < |results| ==> CarriesAllNames(g.vocs, results[j])
    requires i < |results| && IdKey in results[i] && !KnownId(g, results[i][IdKey])
    ensures Ingest(g, results).Failure?
  {
  }

  /** Suggested points, evaluated and sent back with their ids kept, are
      accepted by the generator that suggested them. */
  lemma SuggestThenIngest(g: RefGenerator, n: Option<int>, results: seq<Point>)
    requires g.Valid() && Suggest(g, n).Success? && IdKey !in Elems(InputNames(g.vocs))
    requires |results| == |Suggest(g, n).value.1|
    requires forall i :: 0 <= i < |results| ==> CarriesAllNames(g.vocs, results[i])
    requires forall i :: 0 <= i < |results| ==>
               (IdKey in results[i] <==> IdKey in Suggest(g, n).value.1[i])
               && (IdKey in results[i] ==> results[i][IdKey] == Suggest(g, n).value.1[i][IdKey])
    ensures Ingest(Suggest(g, n).value.0, results).Success?
  {
    var (next, points) := Suggest(g, n).value;
    if g.returnsId {
      forall i | 0 <= i < |results| && IdKey in results[i] ensures KnownId(next, results[i][IdKey]) {
        SuggestedAt(g, n, i);
      }
    } else {
      forall i | 0 <= i < |results| ensures IdKey !in results[i] {
        NoIdWithoutReturnsId(g.vocs, points[i]);
      }
    }
  }

  /** Point `i` of a batch carries the id `nextId + i`, now issued. */
  lemma SuggestedAt(g: RefGenerator, n: Option<int>, i: nat)
    requires g.returnsId && Suggest(g, n).Success? && i < |Suggest(g, n).value.1|
    ensures Suggest(g, n).value.1[i][IdKey] == IdValue(g.nextId + i)
    ensures g.nextId + i in Suggest(g, n).value.0.issued
    ensures KnownId(Suggest(g, n).value.0, Suggest(g, n).value.1[i][IdKey])
  {
    assert Suggest(g, n).value.1[i] == SuggestedPoint(g, g.nextId, i);
  }

  /** A generator that returns no ids puts no `"_id"` in its points, unless
      an input is itself named `"_id"`. */
  lemma NoIdWithoutReturnsId(v: VOCS, p: Point)
    requires SuggestedShape(v, false, p) && IdKey !in Elems(InputNames(v))
    ensures IdKey !in p
  {
  }

  /** `finalize()`: nothing to close down for a generator with no
      background work; its state is already up to date. */
  function Finalize(g: RefGenerator): (r: RefGenerator)
    ensures r.history == g.history && r.issued == g.issued
  {
    g
  }

  /** The base class's `ingest` body: it does nothing. */
  function BaseIngest<G>(g: G, results: seq<Point>): Result<G> {
    Success(g)
  }

  /** The base class's `finalize` body: it does nothing. */
  function BaseFinalize<G>(g: G): G {
    g
  }

  /** A generator that keeps the base `ingest` and `finalize` suggests
      after them exactly what it would have suggested before. */
  lemma BaseNoOps(g: RefGenerator, results: seq<Point>, n: Option<int>)
    ensures BaseIngest(g, results).Success?
    ensures Suggest(BaseIngest(g, results).value, n) == Suggest(g, n)
    ensures Suggest(BaseFinalize(g), n) == Suggest(g, n)
  {
  }

  /** The base `ingest` enforces none of the contract: it accepts a result
      whose `"_id"` was never issued, which the contract says to refuse. */
  lemma BaseIngestAcceptsUnknownId(g: RefGenerator, results: seq<Point>, i: nat)
    requires forall j :: 0 <= j < |results| ==> CarriesAllNames(g.vocs, results[j])
    requires i < |results| && IdKey in results[i] && !KnownId(g, results[i][IdKey])
    ensures BaseIngest(g, results).Success? && Ingest(g, results).Failure?
  {
  }
}
