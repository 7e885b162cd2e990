/** An animal enclosure (`Cercado`): up to three animals of one species, producing goods on
    a timer. States: Idle (no animals) -> Accumulating -> ProductReady -> (collected) ->
    Accumulating. */
module Pens {
  import opened Options
  import opened Catalog

  const Capacity: nat := 3

  datatype Pen = Pen(
    id: nat,
    species: Option<Species>,   // bound by the first animal added
    count: nat,
    progress: real,
    ready: bool)

  /** The enclosure invariant: at most three animals, progress in [0,1], the product is ready
      exactly when the bar is full, only an inhabited pen is ready, and animals have a species. */
  predicate Valid(e: Pen) {
    && e.count <= Capacity
    && 0.0 <= e.progress <= 1.0
    && (e.ready <==> e.progress == 1.0)
    && (e.ready ==> e.count > 0)
    && (e.count > 0 ==> e.species.Some?)
  }

  /** A freshly built, empty enclosure. */
  function New(id: nat): (e: Pen)
    ensures Valid(e) && e.id == id && e.count == 0 && e.species.None? && !e.ready
  {
    Pen(id, None, 0, 0.0, false)
  }

  /** `adicionarAnimal`: an empty pen takes on the species of the first animal. A pen that
      already holds animals accepts only its own species and only below capacity; a refusal
      changes nothing. */
  function AddAnimal(e: Pen, s: Species): (r: (Pen, bool))
    ensures e.count == 0 ==> r.1 && r.0.species == Some(s)
    ensures e.count > 0 ==> (r.1 <==> e.species == Some(s) && e.count < Capacity)
    ensures r.1 ==> r.0 == e.(species := Some(s), count := e.count + 1)
    ensures !r.1 ==> r.0 == e
    ensures Valid(e) ==> Valid(r.0) && r.0.count <= Capacity
  {
    var bound := if e.count == 0 then e.(species := Some(s)) else e;
    if bound.species != Some(s) then (bound, false)
    else if bound.count >= Capacity then (bound, false)
    else (bound.(count := bound.count + 1), true)
  }

  /** A full enclosure refuses every animal. */
  lemma FullPenRefuses(e: Pen, s: Species)
    requires e.count >= Capacity
    ensures AddAnimal(e, s) == (e, false)
  {
  }

  /** `atualizarTempo`: nothing happens to an empty pen or one whose product is waiting.
      Otherwise progress rises by `dt` over the species' production time; reaching 1 pins it
      at 1 and marks the product ready. */
  function AdvanceTime(e: Pen, dt: real): (q: Pen)
    ensures e.count == 0 || e.ready ==> q == e
    ensures q == e.(progress := q.progress, ready := q.ready)
    ensures e.count > 0 && !e.ready && e.species.Some? ==>
              var next := e.progress + dt / ProductionSeconds(e.species.value);
              (q.ready <==> next >= 1.0) && (q.ready ==> q.progress == 1.0)
              && (!q.ready ==> q.progress == next)
    ensures Valid(e) && dt >= 0.0 ==> Valid(q) && e.progress <= q.progress
  {
    if e.count == 0 || e.ready then e
    else
      match e.species
      case None => e
      case Some(s) =>
        var next := e.progress + dt / ProductionSeconds(s);
        if next >= 1.0 then e.(progress := 1.0, ready := true) else e.(progress := next)
  }

  /** `coletarProdutos`: a ready pen pays the product value times the head count and starts
      a new cycle from zero; otherwise it pays nothing and changes nothing. */
  function Collect(e: Pen): (r: (Pen, real))
    ensures e.ready && e.count > 0 && e.species.Some? ==>
              r.1 == ProductValue(e.species.value) * e.count as real
              && r.0 == e.(progress := 0.0, ready := false)
    ensures !(e.ready && e.count > 0) ==> r == (e, 0.0)
    ensures r.1 >= 0.0
    ensures Valid(e) ==> Valid(r.0) && (r.1 > 0.0 <==> e.ready)
  {
    if !e.ready || e.count == 0 then (e, 0.0)
    else
      match e.species
      case None => (e, 0.0)
      case Some(s) => (e.(progress := 0.0, ready := false), ProductValue(s) * e.count as real)
  }

  /** Collecting twice pays once. */
  lemma CollectTwice(e: Pen)
    requires Valid(e) && e.ready
    ensures Collect(e).1 > 0.0
    ensures Collect(Collect(e).0) == (Collect(e).0, 0.0)
  {
  }

  /** `calcularCustoManutencao`: the species' daily rate times the head count, nothing when
      the pen is empty. */
  function MaintenanceCost(e: Pen): (r: real)
    ensures r >= 0.0
    ensures e.count == 0 ==> r == 0.0
    ensures e.count > 0 && e.species.Some? ==> r == DailyUpkeep(e.species.value) * e.count as real
  {
    if e.count == 0 then 0.0
    else
      match e.species
      case None => 0.0
      case Some(s) => UpkeepPerDay(s, e.count)
  }

  /** The plain scenario: one hen (product 8, 30 s) yields a ready product after 30 s,
      collecting it pays 8 and resets the bar. */
  lemma HenScenario(e: Pen)
    requires Valid(e) && e.species == Some(Galinha) && e.count == 1
    requires e.progress == 0.0
    ensures AdvanceTime(e, 30.0).ready
    ensures Collect(AdvanceTime(e, 30.0)) == (e, 8.0)
  {
  }

  /** Production does not depend on how the elapsed time is sliced into ticks:
      advancing by `a` then by `b` equals advancing by `a + b` once. */
  lemma AdvanceTimeSplit(e: Pen, a: real, b: real)
    requires a >= 0.0 && b >= 0.0
    ensures AdvanceTime(AdvanceTime(e, a), b) == AdvanceTime(e, a + b)
  {
    if e.count > 0 && !e.ready && e.species.Some? {
      DivideSum(a, b, ProductionSeconds(e.species.value));
    }
  }
}
