/** The simulation tick (`GameLoop.atualizarJogo`) and the manual commands the interface sends
    through the loop. One tick, given the elapsed seconds, advances the day clock (a full day
    of 15 s triggers the day change), grows and automates every unlocked plot, advances the
    enclosures every half second, and lets the farmhand act when the AI mode is on. The
    wall-clock driver that measures the elapsed time is not modelled: `dt` is a parameter. */
module Loop {
  import opened Options
  import opened Catalog
  import Plots
  import Pens
  import Farm
  import Agent

  /** Enclosures are advanced by this fixed step once this much time has accumulated. */
  const AnimalInterval: real := 0.5

  /** The loop's state: the farm, the two accumulators, the farmhand and the AI-mode flag. */
  datatype Game = Game(
    farm: Farm.World,
    dayClock: real,
    animalClock: real,
    agent: Agent.AI,
    aiMode: bool)

  /** The loop invariant: a valid farm, both accumulators within their period, and the
      AI-mode flag agreeing with the farmhand's own switch. */
  predicate Valid(g: Game) {
    && Farm.Valid(g.farm)
    && 0.0 <= g.dayClock < SecondsPerDay as real
    && 0.0 <= g.animalClock < AnimalInterval
    && g.aiMode == g.agent.active
  }

  /** A new loop over the initial farm, clocks at zero, AI mode off. */
  function New(): (g: Game)
    ensures Valid(g) && !g.aiMode && g.farm == Farm.Initial()
  {
    Game(Farm.Initial(), 0.0, 0.0, Agent.New(), false)
  }

  // ---------------------------------------------------------------- plots

  /** `processarAutomacao` on one plot, given the farm's stock and remembered crop. A tractor
      harvests a ready plot. A planter then plants the remembered crop on an empty plot, first
      attempting a fertilizer application when the toggle is on and stock exists (refused on
      the empty plot, so no unit is ever taken). Returns the plot, the stock, the income and
      whether a machine acted. */
  function Automate(p: Plots.Plot, stock: nat, seed: Crop): (r: (Plots.Plot, nat, real, bool))
    ensures r.1 == stock
    ensures Trator !in p.machines && Arador !in p.machines ==> r == (p, stock, 0.0, false)
    ensures Trator in p.machines && Plots.Ready(p) ==> r.2 == Plots.Harvest(p).1 && r.3
    ensures !(Trator in p.machines && Plots.Ready(p)) ==> r.2 == 0.0
    ensures Arador in p.machines && p.unlocked && Plots.Valid(p)
            && (!Plots.Occupied(p) || (Trator in p.machines && Plots.Ready(p))) ==>
              r.0 == Plots.Plant(Plots.Clear(p), seed).0 && r.3
    ensures r.0.id == p.id && r.0.level == p.level && r.0.unlocked == p.unlocked
            && r.0.machines == p.machines && r.0.fertilizerEnabled == p.fertilizerEnabled
    ensures Plots.Valid(p) ==> Plots.Valid(r.0) && r.2 >= 0.0
  {
    var (p1, income, harvested) :=
      if Trator in p.machines && Plots.Ready(p) then
        var (q, value) := Plots.Harvest(p);
        (q, value, true)
      else (p, 0.0, false);
    if Arador in p1.machines && !Plots.Occupied(p1) then
      var (p2, stock2, _) :=
        if p1.fertilizerEnabled && stock > 0 then Plots.ApplyFertilizer(p1, stock)
        else (p1, stock, false);
      (Plots.Plant(p2, seed).0, stock2, income, true)
    else (p1, stock, income, harvested)
  }

  /** A plot carrying both a tractor and a planter that is ready at the start of a tick is
      harvested, paid for and replanted with the remembered crop in that same tick, and the
      farm's stock is untouched. */
  lemma HarvestAndReplant(p: Plots.Plot, stock: nat, seed: Crop)
    requires Plots.Valid(p) && p.unlocked && Plots.Occupied(p) && Plots.Ready(p)
    requires Trator in p.machines && Arador in p.machines
    ensures var (q, stock', income, acted) := Automate(p, stock, seed);
            && acted && income == Plots.SellValue(p) && stock' == stock
            && q.crop == Some(seed) && q.progress == 0.0
            && q.fertilizerApplied == p.fertilizerEnabled
  {
  }

  /** One plot's share of a tick: growth when it is occupied and not yet ready, then the
      automation on the grown plot. A tractor plot that ripens during this tick is therefore
      harvested and paid in the same pass, and a planter replants an empty or just-harvested
      plot with the remembered crop. Returns the plot and its income. */
  function PlotStep(p: Plots.Plot, dt: real, stock: nat, seed: Crop): (r: (Plots.Plot, real))
    ensures r.0.id == p.id && r.0.level == p.level && r.0.unlocked == p.unlocked
            && r.0.machines == p.machines && r.0.fertilizerEnabled == p.fertilizerEnabled
    ensures Trator !in p.machines && Arador !in p.machines ==>
              r == (Plots.AdvanceTime(p, dt), 0.0)
    ensures Plots.Valid(p) && dt >= 0.0 ==> Plots.Valid(r.0) && r.1 >= 0.0
    ensures Trator !in p.machines ==> r.1 == 0.0
    ensures Trator in p.machines && Plots.Ready(p) ==> r.1 == Plots.SellValue(p)
    ensures Trator in p.machines && Plots.Ready(Plots.AdvanceTime(p, dt)) ==>
              r.1 == Plots.SellValue(Plots.AdvanceTime(p, dt))
    ensures Plots.Valid(p) && dt >= 0.0 && p.unlocked && Arador in p.machines
            && (!Plots.Occupied(p) || (Trator in p.machines && Plots.Ready(Plots.AdvanceTime(p, dt)))) ==>
              r.0 == Plots.Plant(Plots.Clear(Plots.AdvanceTime(p, dt)), seed).0
  {
    var grown := if Plots.Occupied(p) && !Plots.Ready(p) then Plots.AdvanceTime(p, dt) else p;
    var (q, _, income, _) := Automate(grown, stock, seed);
    (q, income)
  }

  /** The income the plot loop credits for `plots`: each unlocked plot's own step income,
      given the stock and the remembered crop, summed; locked plots earn nothing. */
  function PlotIncome(plots: seq<Plots.Plot>, dt: real, stock: nat, seed: Crop): (r: real)
    ensures (forall j :: 0 <= j < |plots| ==> Plots.Valid(plots[j])) && dt >= 0.0 ==> r >= 0.0
  {
    if plots == [] then 0.0
    else
      assert forall j :: 0 <= j < |plots[1..]| ==> plots[1..][j] == plots[j + 1];
      (if plots[0].unlocked then PlotStep(plots[0], dt, stock, seed).1 else 0.0)
      + PlotIncome(plots[1..], dt, stock, seed)
  }

  /** Only a tractor earns: a tick over plots none of which carries one credits nothing,
      however long the elapsed time and whatever else is installed. */
  lemma {:induction false} NoTractorNoIncome(plots: seq<Plots.Plot>, dt: real, stock: nat, seed: Crop)
    requires forall j :: 0 <= j < |plots| ==> Trator !in plots[j].machines
    ensures PlotIncome(plots, dt, stock, seed) == 0.0
  {
    if plots != [] {
      assert Trator !in plots[0].machines;
      NoTractorNoIncome(plots[1..], dt, stock, seed);
    }
  }

  /** The plot loop of a tick from index `n` on: locked plots are skipped, every unlocked plot
      takes its own step, independently of the others, and its income is credited, so the
      treasury grows by exactly the plots' income. The stock, the remembered crop and
      everything outside the plots and the treasury are unchanged. */
  function ProcessPlots(w: Farm.World, dt: real, n: nat): (r: Farm.World)
    ensures r == w.(plots := r.plots, money := r.money)
    ensures |r.plots| == |w.plots|
    ensures forall j :: 0 <= j < |w.plots| ==>
              r.plots[j] == if n <= j && w.plots[j].unlocked
                            then PlotStep(w.plots[j], dt, w.fertilizerStock, w.lastPlanted).0
                            else w.plots[j]
    ensures (forall j :: 0 <= j < |w.plots| ==> Plots.Valid(w.plots[j])) && dt >= 0.0 ==>
              r.money >= w.money
    ensures n <= |w.plots| ==>
              r.money == w.money + PlotIncome(w.plots[n..], dt, w.fertilizerStock, w.lastPlanted)
    decreases |w.plots| - n
  {
    if n >= |w.plots| then w
    else
      var p := w.plots[n];
      var w1 :=
        if !p.unlocked then w
        else
          var (q, income) := PlotStep(p, dt, w.fertilizerStock, w.lastPlanted);
          Farm.Earn(w.(plots := w.plots[n := q]), income);
      assert (forall j :: 0 <= j < |w.plots| ==> Plots.Valid(w.plots[j])) && dt >= 0.0 ==>
               (forall j :: 0 <= j < |w1.plots| ==> Plots.Valid(w1.plots[j]))
               && w1.money >= w.money;
      assert w.plots[n..][1..] == w.plots[n + 1..] == w1.plots[n + 1..];
      ProcessPlots(w1, dt, n + 1)
  }

  /** The plot loop keeps the farm valid. */
  lemma ProcessPlotsKeepsValid(w: Farm.World, dt: real)
    requires Farm.Valid(w) && dt >= 0.0
    ensures Farm.Valid(ProcessPlots(w, dt, 0))
  {
    var r := ProcessPlots(w, dt, 0);
    forall j | 0 <= j < |r.plots|
      ensures r.plots[j].id == j && Plots.Valid(r.plots[j])
    {
      assert Plots.Valid(w.plots[j]);
    }
    assert Farm.MachinesRecorded(r) by {
      forall j, m | 0 <= j < |r.plots| && m in r.plots[j].machines
        ensures m in r.installed[j]
      {
        assert m in w.plots[j].machines;
      }
    }
  }

  // ---------------------------------------------------------------- enclosures

  /** Every enclosure advanced by the fixed animal step. */
  function AdvancePens(pens: seq<Pens.Pen>): (r: seq<Pens.Pen>)
    ensures |r| == |pens|
    ensures forall k :: 0 <= k < |pens| ==> r[k] == Pens.AdvanceTime(pens[k], AnimalInterval)
  {
    seq(|pens|, k requires 0 <= k < |pens| => Pens.AdvanceTime(pens[k], AnimalInterval))
  }

  // ---------------------------------------------------------------- the tick

  /** The treasury after the day step of a tick: the day change's upkeep when the elapsed
      time completes a day, the treasury as it was otherwise. */
  function DayMoney(g: Game, dt: real): real {
    if g.dayClock + dt >= SecondsPerDay as real then Farm.AdvanceDay(g.farm).money else g.farm.money
  }

  /** `atualizarJogo`: the day clock accumulates `dt` and, on reaching a full day, is reset to
      zero (not carried over) and the farm advances one day; then the plot loop; then the
      animal clock accumulates `dt` and, on reaching half a second, is reset and every
      enclosure advances by half a second; last, in AI mode, the farmhand's step. However
      long the elapsed time, the day advances at most once; locked plots are never touched;
      without the farmhand no fertilizer is taken from the stock, the enclosures advance by
      exactly half a second whatever the elapsed time, a plot without machines just grows
      by the elapsed time, and the treasury ends at the balance the day step leaves plus the
      plots' income. */
  function Tick(g: Game, dt: real): (r: Game)
    ensures r.aiMode == g.aiMode && r.agent.active == g.agent.active
    ensures g.dayClock + dt >= SecondsPerDay as real ==> r.dayClock == 0.0
    ensures g.dayClock + dt < SecondsPerDay as real ==> r.dayClock == g.dayClock + dt
    ensures g.animalClock + dt >= AnimalInterval ==> r.animalClock == 0.0
    ensures g.animalClock + dt < AnimalInterval ==> r.animalClock == g.animalClock + dt
    ensures !g.aiMode ==> r.agent == g.agent
    ensures r.farm.day == g.farm.day + (if g.dayClock + dt >= SecondsPerDay as real then 1 else 0)
    ensures |r.farm.plots| == |g.farm.plots|
    ensures forall i :: 0 <= i < |g.farm.plots| && !g.farm.plots[i].unlocked ==>
              r.farm.plots[i] == g.farm.plots[i]
    ensures !g.aiMode ==> r.farm.fertilizerStock == g.farm.fertilizerStock
    ensures !g.aiMode ==> |r.farm.pens| == |g.farm.pens|
    ensures !g.aiMode && g.animalClock + dt >= AnimalInterval ==>
              forall k :: 0 <= k < |g.farm.pens| ==>
                r.farm.pens[k] == Pens.AdvanceTime(g.farm.pens[k], AnimalInterval)
    ensures !g.aiMode && g.animalClock + dt < AnimalInterval ==> r.farm.pens == g.farm.pens
    ensures !g.aiMode ==>
              forall i :: 0 <= i < |g.farm.plots| && g.farm.plots[i].unlocked
                          && Trator !in g.farm.plots[i].machines
                          && Arador !in g.farm.plots[i].machines ==>
                r.farm.plots[i] == Plots.AdvanceTime(g.farm.plots[i], dt)
    ensures !g.aiMode ==>
              forall i :: 0 <= i < |g.farm.plots| && g.farm.plots[i].unlocked ==>
                r.farm.plots[i] == PlotStep(g.farm.plots[i], dt, g.farm.fertilizerStock,
                                            g.farm.lastPlanted).0
    ensures !g.aiMode ==>
              r.farm.money == DayMoney(g, dt)
                              + PlotIncome(g.farm.plots, dt, g.farm.fertilizerStock, g.farm.lastPlanted)
  {
    var clock := g.dayClock + dt;
    var (w1, dayClock) :=
      if clock >= SecondsPerDay as real then (Farm.AdvanceDay(g.farm), 0.0) else (g.farm, clock);
    var w2 := ProcessPlots(w1, dt, 0);
    var animalClock := g.animalClock + dt;
    var (w3, animalClock') :=
      if animalClock >= AnimalInterval then (w2.(pens := AdvancePens(w2.pens)), 0.0)
      else (w2, animalClock);
    var (agent, w4) :=
      if g.aiMode then
        var (a, w, _) := Agent.Step(g.agent, w3, dt);
        (a, w)
      else (g.agent, w3);
    Game(w4, dayClock, animalClock', agent, g.aiMode)
  }

  /** A tick with a non-negative elapsed time keeps the loop invariant, and even in AI mode
      the treasury ends at least where the day step and the plots' income leave it: the
      farmhand never spends. */
  lemma TickKeepsValid(g: Game, dt: real)
    requires Valid(g) && dt >= 0.0
    ensures Valid(Tick(g, dt))
    ensures Tick(g, dt).farm.money
            >= DayMoney(g, dt) + PlotIncome(g.farm.plots, dt, g.farm.fertilizerStock, g.farm.lastPlanted)
  {
    var clock := g.dayClock + dt;
    var w1 := if clock >= SecondsPerDay as real then Farm.AdvanceDay(g.farm) else g.farm;
    ProcessPlotsKeepsValid(w1, dt);
    var w2 := ProcessPlots(w1, dt, 0);
    var w3 := if g.animalClock + dt >= AnimalInterval then w2.(pens := AdvancePens(w2.pens)) else w2;
    AdvancePensKeepsValid(w2);
    if g.aiMode {
      Agent.StepNeverSpends(g.agent, w3, dt);
      assert Tick(g, dt).farm == Agent.Step(g.agent, w3, dt).1;
    } else {
      assert Tick(g, dt).farm == w3;
    }
  }

  /** Advancing every enclosure keeps the farm valid. */
  lemma AdvancePensKeepsValid(w: Farm.World)
    requires Farm.Valid(w)
    ensures Farm.Valid(w.(pens := AdvancePens(w.pens)))
  {
    var w' := w.(pens := AdvancePens(w.pens));
    forall k | 0 <= k < |w'.pens|
      ensures w'.pens[k].id == k && Pens.Valid(w'.pens[k])
    {
      assert Pens.Valid(w.pens[k]);
    }
    assert Farm.MachinesRecorded(w');
  }

  // ---------------------------------------------------------------- commands

  /** `coletarProdutosAnimais`: a bad index yields nothing; otherwise the enclosure is
      collected and a positive value is credited. Returns the value. */
  function CollectAnimalProducts(g: Game, k: int): (r: (Game, real))
    ensures !(0 <= k < |g.farm.pens|) ==> r == (g, 0.0)
    ensures 0 <= k < |g.farm.pens| ==> r.1 == Pens.Collect(g.farm.pens[k]).1
    ensures r.0.farm.money == g.farm.money + r.1
    ensures r.0 == g.(farm := r.0.farm)
    ensures Valid(g) ==> Valid(r.0)
    ensures Valid(g) && 0 <= k < |g.farm.pens| ==> (r.1 > 0.0 <==> g.farm.pens[k].ready)
  {
    if !(0 <= k < |g.farm.pens|) then (g, 0.0)
    else
      var (e, value) := Pens.Collect(g.farm.pens[k]);
      var w := g.farm.(pens := g.farm.pens[k := e]);
      var w' := if value > 0.0 then Farm.Earn(w, value) else w;
      assert Valid(g) ==> Pens.Valid(g.farm.pens[k]);
      (g.(farm := w'), value)
  }

  /** Collecting an enclosure twice pays once. */
  lemma CollectTwicePaysOnce(g: Game, k: int)
    requires Valid(g) && 0 <= k < |g.farm.pens| && g.farm.pens[k].ready
    ensures CollectAnimalProducts(g, k).1 > 0.0
    ensures CollectAnimalProducts(CollectAnimalProducts(g, k).0, k).1 == 0.0
  {
    var g1 := CollectAnimalProducts(g, k).0;
    assert Valid(g1) && !g1.farm.pens[k].ready;
  }

  /** `adicionarAnimal` through the loop: a free addition after an index check. */
  function AddAnimal(g: Game, k: int, s: Species): (r: (Game, bool))
    ensures !(0 <= k < |g.farm.pens|) ==> r == (g, false)
    ensures 0 <= k < |g.farm.pens| ==> r.1 == Pens.AddAnimal(g.farm.pens[k], s).1
    ensures r.0 == g.(farm := r.0.farm) && r.0.farm.money == g.farm.money
    ensures 0 <= k < |g.farm.pens| && r.1 ==>
              r.0.farm == g.farm.(pens := g.farm.pens[k := Pens.AddAnimal(g.farm.pens[k], s).0])
    ensures Valid(g) ==> Valid(r.0)
  {
    if !(0 <= k < |g.farm.pens|) then (g, false)
    else
      var (w, ok) := Farm.AddAnimalFree(g.farm, k, s);
      (g.(farm := w), ok)
  }

  /** `comprarAnimal` through the loop: an index check, then the farm's purchase. */
  function BuyAnimal(g: Game, k: int): (r: (Game, bool))
    ensures !(0 <= k < |g.farm.pens|) ==> r == (g, false)
    ensures r == (g.(farm := Farm.BuyAnimal(g.farm, k).0), Farm.BuyAnimal(g.farm, k).1)
    ensures Valid(g) ==> Valid(r.0)
  {
    if !(0 <= k < |g.farm.pens|) then (g, false)
    else
      var (w, ok) := Farm.BuyAnimal(g.farm, k);
      (g.(farm := w), ok)
  }

  /** `desbloquearSolo` through the loop: an index check, then the farm's unlock. */
  function UnlockPlot(g: Game, i: int): (r: (Game, bool))
    ensures !(0 <= i < |g.farm.plots|) ==> r == (g, false)
    ensures r == (g.(farm := Farm.UnlockPlot(g.farm, i).0), Farm.UnlockPlot(g.farm, i).1)
    ensures Valid(g) ==> Valid(r.0)
  {
    if !(0 <= i < |g.farm.plots|) then (g, false)
    else
      var (w, ok) := Farm.UnlockPlot(g.farm, i);
      (g.(farm := w), ok)
  }

  /** `ativarIA`: turns the AI mode and the farmhand on together. */
  function ActivateAI(g: Game): (r: Game)
    ensures r.aiMode && r.agent.active && r.farm == g.farm
    ensures Valid(g) ==> Valid(r)
  {
    g.(aiMode := true, agent := Agent.Activate(g.agent))
  }

  /** `desativarIA`: turns both off and empties the farmhand's queue. */
  function DeactivateAI(g: Game): (r: Game)
    ensures !r.aiMode && !r.agent.active && r.agent.pending == [] && r.farm == g.farm
    ensures Valid(g) ==> Valid(r)
  {
    g.(aiMode := false, agent := Agent.Deactivate(g.agent))
  }
}
