/** The autonomous farmhand (`PersonagemIA`). Every half second of accumulated time it
    rebuilds its list of worthwhile tasks from the farm (harvests on plots without a tractor,
    plantings on plots without a planter, ready enclosures, pending fertilizer applications),
    takes the most valuable one and performs it. It never buys anything. */
module Agent {
  import opened Options
  import opened Catalog
  import Plots
  import Pens
  import Farm

  /** Minimum accumulated time between two actions. */
  const ActionInterval: real := 0.5

  /** Price of one fertilizer unit: a batch's price over its size. */
  const FertilizerUnitCost: real := FertilizerBatchCost / FertilizerBatchSize as real

  datatype Task = Harvest | Plant | Collect | Fertilize | Idle

  /** A candidate action: its kind, the plot or enclosure index, the crop for a planting,
      and the estimated value used to rank it. */
  datatype Decision = Decision(task: Task, target: nat, crop: Option<Crop>, value: real)

  /** The agent's own state: the on/off switch, the time since the last successful action,
      and the decisions left in its queue after the last poll. */
  datatype AI = AI(active: bool, sinceLastAction: real, pending: seq<Decision>)

  // ---------------------------------------------------------------- crop choice

  /** Position of a crop in the declaration order. */
  function Rank(c: Crop): (r: nat)
    ensures r < |Crops| && Crops[r] == c
  {
    match c
    case Alface => 0
    case Cenoura => 1
    case Abobora => 2
  }

  /** The plot's level allows the crop. */
  predicate Eligible(c: Crop, p: Plots.Plot) {
    MinLevel(c) <= p.level
  }

  /** `calcularLucroEsperado`: the crop's value per second of growth on this plot, counting
      the level and irrigator bonuses, and the fertilizer bonus when the toggle is on and the
      farm holds stock. */
  function ExpectedProfit(c: Crop, p: Plots.Plot, stock: nat): (r: real)
    ensures p.level >= 1 ==> r > 0.0
  {
    var fertilized := p.fertilizerEnabled && stock > 0;
    BaseValue(c) * Plots.ValueMultiplier(p.level, Plots.Irrigated(p), fertilized)
      / Plots.GrowthDuration(c, p.level, Plots.Irrigated(p), fertilized)
  }

  /** The estimate is the rate the planting actually yields (sale value over effective
      growth time) whenever the toggle is off or the farm holds fertilizer. */
  lemma ExpectedProfitIsPlantedRate(p: Plots.Plot, c: Crop, stock: nat)
    requires p.unlocked && !Plots.Occupied(p)
    requires p.fertilizerEnabled ==> stock > 0
    ensures Plots.Plant(p, c).1
    ensures ExpectedProfit(c, p, stock)
            == Plots.SellValue(Plots.Plant(p, c).0) / Plots.Duration(Plots.Plant(p, c).0)
  {
    Plots.PlantedWorth(p, c);
    assert (p.fertilizerEnabled && stock > 0) == p.fertilizerEnabled;
  }

  /** With the toggle on and an empty stock the estimate leaves out the fertilizer bonus the
      planting nevertheless receives, so it is strictly below the actual rate. */
  lemma ExpectedProfitUnderestimatesWithoutStock(p: Plots.Plot, c: Crop)
    requires Plots.Valid(p) && p.unlocked && !Plots.Occupied(p) && p.fertilizerEnabled
    ensures ExpectedProfit(c, p, 0)
            < Plots.SellValue(Plots.Plant(p, c).0) / Plots.Duration(Plots.Plant(p, c).0)
  {
    Plots.PlantedWorth(p, c);
    FertilizerRaisesRate(c, p.level, Plots.Irrigated(p));
  }

  /** Fertilizer raises the rate of a crop: more value over no more time. */
  lemma FertilizerRaisesRate(c: Crop, level: int, irrigated: bool)
    requires level >= 1
    ensures BaseValue(c) * Plots.ValueMultiplier(level, irrigated, false)
              / Plots.GrowthDuration(c, level, irrigated, false)
            < BaseValue(c) * Plots.ValueMultiplier(level, irrigated, true)
              / Plots.GrowthDuration(c, level, irrigated, true)
  {
    FertilizerPaysMore(c, level, irrigated);
    FertilizerGrowsFaster(c, level, irrigated);
    RatioGrows(BaseValue(c) * Plots.ValueMultiplier(level, irrigated, false),
               BaseValue(c) * Plots.ValueMultiplier(level, irrigated, true),
               Plots.GrowthDuration(c, level, irrigated, false),
               Plots.GrowthDuration(c, level, irrigated, true));
  }

  /** Fertilizer adds its bonus to the multiplier, so the sale value rises. */
  lemma FertilizerPaysMore(c: Crop, level: int, irrigated: bool)
    requires level >= 1
    ensures 0.0 < BaseValue(c) * Plots.ValueMultiplier(level, irrigated, false)
                < BaseValue(c) * Plots.ValueMultiplier(level, irrigated, true)
  {
    var v := Plots.ValueMultiplier(level, irrigated, false);
    var v' := Plots.ValueMultiplier(level, irrigated, true);
    assert v' == v + FertilizerValueBonus;
    Plots.ScaleGrows(BaseValue(c), v, v');
    Plots.ScaleGrows(BaseValue(c), 0.0, v);
  }

  /** Fertilizer never lengthens the growth time. */
  lemma FertilizerGrowsFaster(c: Crop, level: int, irrigated: bool)
    ensures 0.0 < Plots.GrowthDuration(c, level, irrigated, true)
                <= Plots.GrowthDuration(c, level, irrigated, false)
  {
    var red := Plots.GrowthReduction(level, irrigated, false);
    var red' := Plots.GrowthReduction(level, irrigated, true);
    assert red <= red';
    Plots.ScaleGrows(GrowthSeconds(c) as real, 1.0 - red', 1.0 - red);
  }

  /** A larger numerator over a no larger positive denominator gives a larger quotient. */
  lemma RatioGrows(a: real, a': real, b: real, b': real)
    requires 0.0 < a < a' && 0.0 < b' <= b
    ensures a / b < a' / b'
  {
    assert a / b <= a / b' by {
      assert (a / b) * b == a && (a / b') * b' == a;
      assert (a / b) * b' <= (a / b) * b;
    }
    assert a / b' < a' / b' by {
      assert (a / b') * b' == a && (a' / b') * b' == a';
    }
  }

  /** The scan of `escolherMelhorVegetalPara` from position `n` of the crop order, holding the
      best crop so far and its estimate: a crop replaces the best only when it is eligible and
      strictly better. */
  function ScanBest(p: Plots.Plot, stock: nat, n: nat, best: Option<Crop>, bestProfit: real)
    : (r: (Option<Crop>, real))
    requires n <= |Crops|
    ensures r.1 >= bestProfit
    ensures r.1 == bestProfit ==> r.0 == best
    ensures r.1 > bestProfit ==>
              r.0.Some? && n <= Rank(r.0.value) && Eligible(r.0.value, p)
              && r.1 == ExpectedProfit(r.0.value, p, stock)
              && (forall d :: n <= Rank(d) < Rank(r.0.value) && Eligible(d, p) ==>
                                ExpectedProfit(d, p, stock) < r.1)
    ensures forall d :: n <= Rank(d) && Eligible(d, p) ==> ExpectedProfit(d, p, stock) <= r.1
    decreases |Crops| - n
  {
    if n == |Crops| then (best, bestProfit)
    else
      var c := Crops[n];
      var profit := ExpectedProfit(c, p, stock);
      if Eligible(c, p) && profit > bestProfit then ScanBest(p, stock, n + 1, Some(c), profit)
      else ScanBest(p, stock, n + 1, best, bestProfit)
  }

  /** `escolherMelhorVegetalPara`: the eligible crop with the highest positive estimate, the
      earliest one in declaration order on a tie; none when no eligible crop has a positive
      estimate. */
  function BestCrop(p: Plots.Plot, stock: nat): (r: Option<Crop>)
    ensures r.Some? ==>
              Eligible(r.value, p) && ExpectedProfit(r.value, p, stock) > 0.0
              && (forall d :: Eligible(d, p) ==>
                                ExpectedProfit(d, p, stock) <= ExpectedProfit(r.value, p, stock))
              && (forall d :: Eligible(d, p) && Rank(d) < Rank(r.value) ==>
                                ExpectedProfit(d, p, stock) < ExpectedProfit(r.value, p, stock))
    ensures r.None? <==> forall d :: Eligible(d, p) ==> ExpectedProfit(d, p, stock) <= 0.0
  {
    ScanBest(p, stock, 0, None, 0.0).0
  }

  /** Every plot of level 1 or more gets a crop: lettuce is always eligible and profitable. */
  lemma BestCropExists(p: Plots.Plot, stock: nat)
    requires p.level >= 1
    ensures BestCrop(p, stock).Some?
  {
    assert Eligible(Alface, p) && ExpectedProfit(Alface, p, stock) > 0.0;
  }

  /** On a bare level-5 plot pumpkin pays best (3 per second against 2 for carrot and 1.5 for
      lettuce), and on a bare level-2 plot carrot beats lettuce. */
  lemma BestCropScenario(p: Plots.Plot, stock: nat)
    requires !Plots.Irrigated(p) && !p.fertilizerEnabled
    ensures p.level == 5 ==> BestCrop(p, stock) == Some(Abobora)
    ensures p.level == 2 ==> BestCrop(p, stock) == Some(Cenoura)
  {
    if p.level == 5 {
      assert ExpectedProfit(Alface, p, stock) == 1.5;
      assert ExpectedProfit(Cenoura, p, stock) == 2.0;
      assert ExpectedProfit(Abobora, p, stock) == 3.0;
    }
    if p.level == 2 {
      assert ExpectedProfit(Alface, p, stock) == 18.0 / 27.0;
      assert ExpectedProfit(Cenoura, p, stock) == 48.0 / 54.0;
      assert !Eligible(Abobora, p);
    }
  }

  // ---------------------------------------------------------------- candidates

  /** Number of targets a task kind ranges over. */
  function Targets(w: Farm.World, t: Task): nat {
    match t
    case Collect => |w.pens|
    case Idle => 0
    case _ => |w.plots|
  }

  /** What the evaluation of task kind `t` proposes for target `j` (`avaliarColheitas`,
      `avaliarPlantios`, `avaliarColetaAnimais`, `avaliarAplicacaoFertilizante`). */
  function Offer(w: Farm.World, t: Task, j: nat): (r: Option<Decision>)
    ensures r.Some? ==> j < Targets(w, t) && r.value.task == t && r.value.target == j
    ensures t == Harvest && j < |w.plots| ==>
              var p := w.plots[j];
              (r.Some? <==> p.unlocked && Plots.Ready(p) && Trator !in p.machines)
              && (r.Some? ==> r.value.value == Plots.SellValue(p))
    ensures t == Plant && j < |w.plots| ==>
              var p := w.plots[j];
              (r.Some? <==> p.unlocked && !Plots.Occupied(p) && Arador !in p.machines
                            && BestCrop(p, w.fertilizerStock).Some?)
              && (r.Some? ==> r.value.crop == BestCrop(p, w.fertilizerStock)
                              && r.value.value == ExpectedProfit(r.value.crop.value, p, w.fertilizerStock))
    ensures t == Collect && j < |w.pens| ==>
              var e := w.pens[j];
              (r.Some? <==> e.ready && e.species.Some?)
              && (r.Some? ==> r.value.value == ProductValue(e.species.value) * e.count as real)
    ensures t == Fertilize && j < |w.plots| ==>
              var p := w.plots[j];
              (r.Some? <==> w.fertilizerStock > 0 && p.unlocked && p.crop.Some? && p.fertilizerEnabled
                            && !p.fertilizerApplied && BaseValue(p.crop.value) * 0.5 > 15.0)
              && (r.Some? ==> r.value.value == BaseValue(p.crop.value) * 0.5 - 15.0)
  {
    if j >= Targets(w, t) then None
    else
      match t
      case Harvest =>
        var p := w.plots[j];
        if p.unlocked && Plots.Ready(p) && Trator !in p.machines
        then Some(Decision(Harvest, j, None, Plots.SellValue(p)))
        else None
      case Plant =>
        var p := w.plots[j];
        if p.unlocked && !Plots.Occupied(p) && Arador !in p.machines then
          match BestCrop(p, w.fertilizerStock)
          case Some(c) => Some(Decision(Plant, j, Some(c), ExpectedProfit(c, p, w.fertilizerStock)))
          case None => None
        else None
      case Collect =>
        var e := w.pens[j];
        if e.ready && e.species.Some?
        then Some(Decision(Collect, j, None, ProductValue(e.species.value) * e.count as real))
        else None
      case Fertilize =>
        var p := w.plots[j];
        if w.fertilizerStock <= 0 || !p.unlocked then None
        else if p.crop.Some? && p.fertilizerEnabled && !p.fertilizerApplied then
          var benefit := BaseValue(p.crop.value) * FertilizerValueBonus;
          if benefit > FertilizerUnitCost
          then Some(Decision(Fertilize, j, None, benefit - FertilizerUnitCost))
          else None
        else None
  }

  /** Lettuce is never worth a fertilizer unit to the agent: half its value (7.5) does not
      exceed the unit price (15). */
  lemma NoFertilizerForLettuce(w: Farm.World, j: nat)
    requires j < |w.plots| && w.plots[j].crop == Some(Alface)
    ensures Offer(w, Fertilize, j).None?
  {
  }

  /** The proposals of one task kind over targets `from` onwards, in index order. */
  function Gather(w: Farm.World, t: Task, from: nat): (r: seq<Decision>)
    ensures forall d :: d in r ==> from <= d.target && Offer(w, t, d.target) == Some(d)
    ensures forall j :: from <= j && Offer(w, t, j).Some? ==> Offer(w, t, j).value in r
    decreases Targets(w, t) - from
  {
    if from >= Targets(w, t) then []
    else
      var rest := Gather(w, t, from + 1);
      match Offer(w, t, from)
      case Some(d) => [d] + rest
      case None => rest
  }

  /** `recalcularFilaTarefas`: harvests, then plantings, then collections, then fertilizer
      applications. A decision is a candidate exactly when its kind proposes it for its
      target. */
  function Candidates(w: Farm.World): (r: seq<Decision>)
    ensures forall d :: d in r ==> Offer(w, d.task, d.target) == Some(d)
    ensures forall t, j :: Offer(w, t, j).Some? ==> Offer(w, t, j).value in r
  {
    Gather(w, Harvest, 0) + Gather(w, Plant, 0) + Gather(w, Collect, 0) + Gather(w, Fertilize, 0)
  }

  /** Position of the first decision of highest value: what the queue's poll returns. */
  function BestIndex(ds: seq<Decision>): (k: nat)
    requires |ds| > 0
    ensures k < |ds|
    ensures forall j :: 0 <= j < |ds| ==> ds[j].value <= ds[k].value
    ensures forall j :: 0 <= j < k ==> ds[j].value < ds[k].value
  {
    if |ds| == 1 then 0
    else
      var k := BestIndex(ds[..|ds| - 1]);
      if ds[|ds| - 1].value > ds[k].value then |ds| - 1 else k
  }

  /** The decision the agent takes next: a candidate of maximal value, none when there is
      no candidate. */
  function Chosen(w: Farm.World): (r: Option<Decision>)
    ensures r.None? <==> Candidates(w) == []
    ensures r.Some? ==> r.value in Candidates(w)
                        && forall d :: d in Candidates(w) ==> d.value <= r.value.value
  {
    var cands := Candidates(w);
    if cands == [] then None else Some(cands[BestIndex(cands)])
  }

  // ---------------------------------------------------------------- execution

  /** `executarColheita`: refused for a bad index or a plot that is locked or not ready;
      otherwise harvests, credits the value and succeeds. The crop the planters use is left
      as it was: the source reads it from the plot after the harvest, when it is always gone. */
  function ExecuteHarvest(w: Farm.World, i: nat): (r: (Farm.World, bool))
    ensures r.1 <==> i < |w.plots| && w.plots[i].unlocked && Plots.Ready(w.plots[i])
    ensures !r.1 ==> r.0 == w
    ensures r.1 ==> r.0 == w.(plots := w.plots[i := Plots.Harvest(w.plots[i]).0],
                              money := w.money + Plots.Harvest(w.plots[i]).1)
  {
    if i >= |w.plots| then (w, false)
    else
      var p := w.plots[i];
      if !p.unlocked || !Plots.Ready(p) then (w, false)
      else
        var (q, value) := Plots.Harvest(p);
        // the remembered crop would be updated from the plot's crop, which the harvest removed
        assert q.crop.None?;
        (Farm.Earn(w.(plots := w.plots[i := q]), value), true)
  }

  /** `executarPlantio`: refused for a bad index, no crop, or a plot that is locked or
      occupied; otherwise plants, remembers the crop for the planters and, with the toggle on,
      attempts a fertilizer application, which the planting has already made pointless. */
  function ExecutePlant(w: Farm.World, i: nat, crop: Option<Crop>): (r: (Farm.World, bool))
    ensures r.1 <==> i < |w.plots| && crop.Some? && w.plots[i].unlocked
                     && !Plots.Occupied(w.plots[i])
    ensures !r.1 ==> r.0 == w
    ensures r.1 ==> r.0 == w.(plots := w.plots[i := Plots.Plant(w.plots[i], crop.value).0],
                              lastPlanted := crop.value)
  {
    if i >= |w.plots| || crop.None? then (w, false)
    else
      var p := w.plots[i];
      if !p.unlocked || Plots.Occupied(p) then (w, false)
      else
        var (q, planted) := Plots.Plant(p, crop.value);
        if planted then
          var w1 := w.(plots := w.plots[i := q], lastPlanted := crop.value);
          var w2 := if q.fertilizerEnabled then Farm.FertilizePlot(w1, i).0 else w1;
          (w2, true)
        else (w, false)
  }

  /** `executarColetaAnimais`: refused for a bad index or an enclosure without a ready
      product; otherwise collects, credits the value and succeeds when it was positive. */
  function ExecuteCollect(w: Farm.World, k: nat): (r: (Farm.World, bool))
    ensures !(k < |w.pens| && w.pens[k].ready) ==> r == (w, false)
    ensures k < |w.pens| && w.pens[k].ready ==>
              r.0 == w.(pens := w.pens[k := Pens.Collect(w.pens[k]).0],
                        money := w.money + Pens.Collect(w.pens[k]).1)
              && (r.1 <==> Pens.Collect(w.pens[k]).1 > 0.0)
  {
    if k >= |w.pens| then (w, false)
    else
      var e := w.pens[k];
      if !e.ready then (w, false)
      else
        var (e', value) := Pens.Collect(e);
        (Farm.Earn(w.(pens := w.pens[k := e']), value), value > 0.0)
  }

  /** `executarAplicacaoFertilizante`: refused for a bad index or a locked plot; otherwise the
      plot's fertilizer application against the farm's stock. */
  function ExecuteFertilize(w: Farm.World, i: nat): (r: (Farm.World, bool))
    ensures !(i < |w.plots| && w.plots[i].unlocked) ==> r == (w, false)
    ensures i < |w.plots| && w.plots[i].unlocked ==> r == Farm.FertilizePlot(w, i)
  {
    if i >= |w.plots| then (w, false)
    else if !w.plots[i].unlocked then (w, false)
    else Farm.FertilizePlot(w, i)
  }

  /** `executarDecisao`: dispatches on the task kind; an idle decision does nothing. The
      day never changes and a locked plot is never touched. */
  function Execute(w: Farm.World, d: Decision): (r: (Farm.World, bool))
    ensures d.task == Idle ==> r == (w, false)
    ensures !r.1 && d.task != Collect ==> r.0 == w
    ensures r.0.day == w.day && |r.0.plots| == |w.plots|
    ensures forall i :: 0 <= i < |w.plots| && !w.plots[i].unlocked ==> r.0.plots[i] == w.plots[i]
  {
    match d.task
    case Harvest => ExecuteHarvest(w, d.target)
    case Plant => ExecutePlant(w, d.target, d.crop)
    case Collect => ExecuteCollect(w, d.target)
    case Fertilize => ExecuteFertilize(w, d.target)
    case Idle => (w, false)
  }

  /** `w'` differs from `w` only in what the agent may touch: the treasury does not shrink,
      and the day, the inventory, the installed machines, the plots' unlock state, levels,
      machines and toggles and the enclosures' animals stay as they were. */
  predicate Untouched(w: Farm.World, w': Farm.World) {
    && w'.money >= w.money
    && w'.day == w.day && w'.inventory == w.inventory && w'.installed == w.installed
    && |w'.plots| == |w.plots| && |w'.pens| == |w.pens|
    && (forall i :: 0 <= i < |w.plots| ==>
          w'.plots[i].unlocked == w.plots[i].unlocked
          && w'.plots[i].level == w.plots[i].level
          && w'.plots[i].machines == w.plots[i].machines
          && w'.plots[i].fertilizerEnabled == w.plots[i].fertilizerEnabled)
    && (forall k :: 0 <= k < |w.pens| ==>
          w'.pens[k].species == w.pens[k].species && w'.pens[k].count == w.pens[k].count)
  }

  /** The agent buys nothing: whatever it executes on a valid farm leaves everything but the
      crops, the products, the income and the fertilizer stock untouched, and only a
      successful fertilizer task takes stock, exactly one unit. */
  lemma ExecuteNeverSpends(w: Farm.World, d: Decision)
    requires Farm.Valid(w)
    ensures Untouched(w, Execute(w, d).0)
    ensures var (w', ok) := Execute(w, d);
            w'.fertilizerStock == w.fertilizerStock - (if d.task == Fertilize && ok then 1 else 0)
  {
    match d.task
    case Harvest => HarvestNeverSpends(w, d.target);
    case Plant => PlantNeverSpends(w, d.target, d.crop);
    case Collect => CollectNeverSpends(w, d.target);
    case Fertilize => FertilizeNeverSpends(w, d.target);
    case Idle =>
  }

  /** A harvest task only empties the plot and credits its non-negative value. */
  lemma HarvestNeverSpends(w: Farm.World, i: nat)
    requires Farm.Valid(w)
    ensures Untouched(w, ExecuteHarvest(w, i).0)
    ensures ExecuteHarvest(w, i).0.fertilizerStock == w.fertilizerStock
  {
    if ExecuteHarvest(w, i).1 {
      assert Plots.Valid(w.plots[i]);
    }
  }

  /** A planting task only fills the plot, and takes no stock. */
  lemma PlantNeverSpends(w: Farm.World, i: nat, crop: Option<Crop>)
    requires Farm.Valid(w)
    ensures Untouched(w, ExecutePlant(w, i, crop).0)
    ensures ExecutePlant(w, i, crop).0.fertilizerStock == w.fertilizerStock
  {
  }

  /** A collect task only empties the enclosure's product and credits its value. */
  lemma CollectNeverSpends(w: Farm.World, k: nat)
    requires Farm.Valid(w)
    ensures Untouched(w, ExecuteCollect(w, k).0)
    ensures ExecuteCollect(w, k).0.fertilizerStock == w.fertilizerStock
  {
    if k < |w.pens| && w.pens[k].ready {
      assert Pens.Valid(w.pens[k]);
    }
  }

  /** A fertilizer task only marks the plot and takes one unit when it succeeds. */
  lemma FertilizeNeverSpends(w: Farm.World, i: nat)
    requires Farm.Valid(w)
    ensures Untouched(w, ExecuteFertilize(w, i).0)
    ensures var (w', ok) := ExecuteFertilize(w, i);
            w'.fertilizerStock == w.fertilizerStock - (if ok then 1 else 0)
  {
  }

  /** Execution keeps the farm valid. */
  lemma ExecuteKeepsValid(w: Farm.World, d: Decision)
    requires Farm.Valid(w)
    ensures Farm.Valid(Execute(w, d).0)
  {
    match d.task
    case Harvest =>
      if ExecuteHarvest(w, d.target).1 {
        var i := d.target;
        var q := Plots.Harvest(w.plots[i]).0;
        assert w.installed[i := w.installed[i]] == w.installed;
        Farm.ReplacePlotKeepsValid(w, i, q, w.installed[i], Execute(w, d).0);
      }
    case Plant =>
      if ExecutePlant(w, d.target, d.crop).1 {
        var i := d.target;
        var q := Plots.Plant(w.plots[i], d.crop.value).0;
        assert w.installed[i := w.installed[i]] == w.installed;
        Farm.ReplacePlotKeepsValid(w, i, q, w.installed[i], Execute(w, d).0);
      }
    case Collect =>
      if d.target < |w.pens| && w.pens[d.target].ready {
        assert Pens.Valid(w.pens[d.target]);
      }
    case Fertilize =>
    case Idle =>
  }

  /** Every candidate of a valid farm can be carried out: the agent's evaluation only proposes
      actions whose execution succeeds. */
  lemma CandidateSucceeds(w: Farm.World, d: Decision)
    requires Farm.Valid(w) && d in Candidates(w)
    ensures Execute(w, d).1
  {
    assert Offer(w, d.task, d.target) == Some(d);
    if d.task == Collect {
      assert Pens.Valid(w.pens[d.target]);
    }
  }

  /** On a valid farm the agent's estimate for a harvest is exactly what the harvest pays,
      and its estimate for a collection exactly what the collection pays. */
  lemma CandidateValueIsPaid(w: Farm.World, d: Decision)
    requires Farm.Valid(w) && d in Candidates(w) && (d.task == Harvest || d.task == Collect)
    ensures Execute(w, d).0.money == w.money + d.value
  {
    assert Offer(w, d.task, d.target) == Some(d);
    if d.task == Harvest {
      assert Plots.Occupied(w.plots[d.target]);
    } else {
      assert Pens.Valid(w.pens[d.target]);
    }
  }

  // ---------------------------------------------------------------- the agent's cycle

  /** A new agent: switched off, no elapsed time, nothing queued. */
  function New(): (a: AI)
    ensures !a.active && a.pending == [] && a.sinceLastAction == 0.0
  {
    AI(false, 0.0, [])
  }

  /** `ativar`: switches the agent on; nothing else changes. */
  function Activate(a: AI): (r: AI)
    ensures r.active && r.sinceLastAction == a.sinceLastAction && r.pending == a.pending
  {
    a.(active := true)
  }

  /** `desativar`: switches the agent off and empties its queue. */
  function Deactivate(a: AI): (r: AI)
    ensures !r.active && r.pending == [] && r.sinceLastAction == a.sinceLastAction
  {
    a.(active := false, pending := [])
  }

  /** `atualizar`: an inactive agent does nothing. Otherwise the elapsed time accumulates;
      below the interval nothing else happens. Once it is reached the agent rebuilds its
      candidates, polls the most valuable one and executes it; the cooldown restarts only
      when the execution succeeds. Returns the agent, the farm and whether it acted. The
      queue left behind holds the other candidates; only its length is stated, because the
      next step that reaches the interval rebuilds the queue from the farm and never reads
      what was left in it. */
  function Step(a: AI, w: Farm.World, dt: real): (r: (AI, Farm.World, bool))
    ensures !a.active ==> r == (a, w, false)
    ensures r.0.active == a.active
    ensures r.1.day == w.day && |r.1.plots| == |w.plots|
    ensures forall i :: 0 <= i < |w.plots| && !w.plots[i].unlocked ==> r.1.plots[i] == w.plots[i]
    ensures a.active && a.sinceLastAction + dt < ActionInterval ==>
              r == (a.(sinceLastAction := a.sinceLastAction + dt), w, false)
    ensures a.active && a.sinceLastAction + dt >= ActionInterval ==>
              match Chosen(w)
              case None => r == (a.(sinceLastAction := a.sinceLastAction + dt, pending := []), w, false)
              case Some(d) =>
                r.1 == Execute(w, d).0 && r.2 == Execute(w, d).1
                && |r.0.pending| == |Candidates(w)| - 1
                && r.0.sinceLastAction == (if r.2 then 0.0 else a.sinceLastAction + dt)
  {
    if !a.active then (a, w, false)
    else
      var elapsed := a.sinceLastAction + dt;
      if elapsed < ActionInterval then (a.(sinceLastAction := elapsed), w, false)
      else
        var cands := Candidates(w);
        if cands == [] then (a.(sinceLastAction := elapsed, pending := []), w, false)
        else
          var k := BestIndex(cands);
          var rest := cands[..k] + cands[k + 1..];
          var (w', ok) := Execute(w, cands[k]);
          (AI(true, if ok then 0.0 else elapsed, rest), w', ok)
  }

  /** On a valid farm an agent whose interval has elapsed acts exactly when there is
      something to do, performing the most valuable candidate, and the farm stays valid. */
  lemma StepActsWhenWorkExists(a: AI, w: Farm.World, dt: real)
    requires Farm.Valid(w) && a.active && a.sinceLastAction + dt >= ActionInterval
    ensures Step(a, w, dt).2 <==> Candidates(w) != []
    ensures Step(a, w, dt).2 ==> Step(a, w, dt).0.sinceLastAction == 0.0
    ensures Farm.Valid(Step(a, w, dt).1)
  {
    match Chosen(w)
    case None =>
    case Some(d) =>
      CandidateSucceeds(w, d);
      ExecuteKeepsValid(w, d);
  }

  /** A step on a valid farm never lowers the treasury and keeps the farm valid. */
  lemma StepNeverSpends(a: AI, w: Farm.World, dt: real)
    requires Farm.Valid(w)
    ensures Step(a, w, dt).1.money >= w.money
    ensures Step(a, w, dt).1.inventory == w.inventory
    ensures Farm.Valid(Step(a, w, dt).1)
  {
    if a.active && a.sinceLastAction + dt >= ActionInterval {
      match Chosen(w)
      case None =>
      case Some(d) =>
        ExecuteNeverSpends(w, d);
        ExecuteKeepsValid(w, d);
    }
  }
}
