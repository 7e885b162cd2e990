# Idle farm simulation core, modelled in Dafny

This project models the simulation core of a small idle-farming game (Java, package
`br.ufpa.fazenda`). The world (`FazendaEstado`) holds a treasury, a day counter, a shared
fertilizer stock, six plots (`Solo`), three animal enclosures (`Cercado`), an inventory of
machines (`Maquina`) with per-plot lists of installed machines, and the last crop planted.
A game loop (`GameLoop`) advances everything by a time delta: it changes the day every
15 seconds, grows the crops, lets tractors harvest and planters replant, advances the
enclosures every half second, and runs an autonomous farmhand (`PersonagemIA`). The
farmhand ranks harvests, plantings, collections and fertilizer applications by estimated
value and performs the best one. It never buys anything.

The model is purely functional. Every entity is an immutable datatype. Every operation is a
function that returns the new state together with the success flag or value the Java method
returns. The global singleton is replaced by an explicit world parameter. The plot operations
that reach the singleton (upgrade, unlock, fertilizer application) take the treasury or the
stock as an argument and return its new value. Money, progress and time are exact reals.

Modules, one per component:

- `Options`: the optional value, used for an empty plot's crop and an empty pen's species.
- `Catalog`: crops (`Vegetal`), species (`Animal`), machines and the balancing constants
  (`Constantes`).
- `Ledger`: the guarded debit of the treasury and the guarded withdrawal of one stock unit.
- `Plots`: the plot state machine Empty -> Growing -> Ready -> Empty.
- `Pens`: the enclosure state machine.
- `Farm`: the world aggregate and its business operations.
- `Agent`: the farmhand's evaluation, crop choice, ranking, execution and cooldown.
- `Loop`: one tick of the game loop and the manual commands routed through it.

The model keeps these behaviours of the code as they are:

- Planting with the fertilizer toggle on marks the crop as fertilized without taking any
  stock. Because of that, the farmhand's application right after planting and the planters'
  application before planting never take stock either.
- Installing a machine a plot already has still takes a unit from the inventory and adds a
  second entry to the plot's list.
- The farmhand's harvest never changes the remembered crop. The code reads the crop from the
  plot after the harvest has removed it.
- Unlocking a plot that is already unlocked reports success at no cost.

The model keeps these further behaviours of the code:

- The stock plus the fertilizer in effect on the plots is conserved only by the fertilizer
  application itself. Planting with the toggle on adds an application without stock, and a
  harvest removes one.
- The farmhand's profit estimate counts the fertilizer bonus only when the toggle is on and
  the stock is positive.
- The day and animal clocks fire when they reach their period (`>=`), and they are reset to
  zero rather than carried over.

## Model

| member | source | states |
|---|---|---|
| Catalog.MinLevel | FazendaIdle2/src/br/ufpa/fazenda/model/Vegetal.java:10-12 | minimum plot level per crop (1, 2, 5); always at least 1 |
| Catalog.GrowthDays | FazendaIdle2/src/br/ufpa/fazenda/model/Vegetal.java:10-12 | growth days per crop (2, 4, 10); always positive |
| Catalog.BaseValue | FazendaIdle2/src/br/ufpa/fazenda/model/Vegetal.java:10-12 | base sale value per crop (15, 40, 150); always positive |
| Catalog.GrowthSeconds | FazendaIdle2/src/br/ufpa/fazenda/model/Vegetal.java:30-32 | growth time is a whole number of 15-second days, equal to the crop's growth days, and positive |
| Catalog.DailyUpkeep | FazendaIdle2/src/br/ufpa/fazenda/model/Animal.java:8-10 | daily upkeep per animal (5, 10, 20); positive |
| Catalog.ProductValue | FazendaIdle2/src/br/ufpa/fazenda/model/Animal.java:8-10 | product value per animal (8, 25, 50); positive |
| Catalog.ProductionSeconds | FazendaIdle2/src/br/ufpa/fazenda/model/Animal.java:8-10 | production time (30, 45, 60 s); positive, so progress division is defined |
| Catalog.PurchasePrice | FazendaIdle2/src/br/ufpa/fazenda/model/Animal.java:8-10 | purchase price (100, 250, 500); positive |
| Catalog.UpkeepPerDay | FazendaIdle2/src/br/ufpa/fazenda/model/Animal.java:32-34 | herd upkeep is non-negative and zero exactly for an empty herd |
| Catalog.UpkeepGrowsByOneRate | FazendaIdle2/src/br/ufpa/fazenda/model/Animal.java:32-34 | one more animal costs exactly one more daily rate |
| Catalog.MachineCost | FazendaIdle2/src/br/ufpa/fazenda/model/Maquina.java:8-10 | machine prices (300, 250, 400); positive |
| Ledger.Debit | FazendaIdle2/src/br/ufpa/fazenda/model/FazendaEstado.java:87-93 | succeeds iff the balance covers the amount, then takes exactly that amount and stays non-negative; a failure leaves the balance unchanged |
| Ledger.Credit | FazendaIdle2/src/br/ufpa/fazenda/model/FazendaEstado.java:95-97 | a non-negative credit never lowers the balance |
| Ledger.RefundRestores | FazendaIdle2/src/br/ufpa/fazenda/model/FazendaEstado.java:261-264 | crediting back a successful debit restores the balance |
| Ledger.TakeOne | FazendaIdle2/src/br/ufpa/fazenda/model/FazendaEstado.java:136-142 | takes a unit iff the stock is positive; the new stock plus the unit taken equals the old stock |
| Plots.New | FazendaIdle2/src/br/ufpa/fazenda/model/Solo.java:20-27 | a new plot is valid, empty, level 1, without machines, toggle off |
| Plots.Clear | FazendaIdle2/src/br/ufpa/fazenda/model/Solo.java:161-165 | removes crop, progress and fertilizer flag, keeps everything else and keeps the plot valid |
| Plots.Plant | FazendaIdle2/src/br/ufpa/fazenda/model/Solo.java:33-49 | succeeds iff unlocked and empty; a failure changes nothing; on success the crop is set, progress is 0 and the fertilizer flag equals the toggle; the plot stays valid |
| Plots.ReplacePlant | FazendaIdle2/src/br/ufpa/fazenda/model/Solo.java:55-64 | succeeds iff unlocked, replacing any crop; the result is a fresh planting of the new crop |
| Plots.GrowthReduction | FazendaIdle2/src/br/ufpa/fazenda/model/Solo.java:104-118 | the reduction never exceeds 0.9 and is non-negative from level 1 |
| Plots.GrowthDuration | FazendaIdle2/src/br/ufpa/fazenda/model/Solo.java:100-120 | effective growth time is at least a tenth of the base time, positive, and at most the base time from level 1 |
| Plots.Duration | FazendaIdle2/src/br/ufpa/fazenda/model/Solo.java:100-120 | the standing crop's growth time is at least a tenth of its base time |
| Plots.SellValue | FazendaIdle2/src/br/ufpa/fazenda/model/Solo.java:70-90 | 0 for an empty plot, and at least the crop's base value from level 1 |
| Plots.SellValueFormula | FazendaIdle2/src/br/ufpa/fazenda/model/Solo.java:70-90 | an occupied plot sells for base × (1 + 0.2(level−1) + 0.25·irrigator + 0.5·applied) |
| Plots.AdvanceTime | FazendaIdle2/src/br/ufpa/fazenda/model/Solo.java:96-127 | no effect on an empty or ready plot; only progress changes; with dt ≥ 0 progress never decreases, never exceeds 1, and the plot stays valid |
| Plots.Grow | FazendaIdle2/src/br/ufpa/fazenda/model/Solo.java:119-124 | the clamped progress never exceeds 1, reaches 1 exactly when dt covers the remaining fraction of the growth time, and short of that is the old progress plus dt over the duration |
| Plots.AdvanceTimeReady | FazendaIdle2/src/br/ufpa/fazenda/model/Solo.java:96-127 | a growing plot becomes ready exactly when the remaining time has elapsed, then holds progress exactly 1; short of that its progress rises by dt over the duration |
| Plots.AdvanceTimeSplit | FazendaIdle2/src/br/ufpa/fazenda/model/Solo.java:96-127 | growing by a then by b equals growing by a + b |
| Plots.Harvest | FazendaIdle2/src/br/ufpa/fazenda/model/Solo.java:132-138 | a ready plot pays its sale value and is cleared; otherwise pays 0 and nothing changes |
| Plots.Uproot | FazendaIdle2/src/br/ufpa/fazenda/model/Solo.java:143-145 | empties the plot with no reward, into the state a harvest leaves |
| Plots.HarvestTwice | FazendaIdle2/src/br/ufpa/fazenda/model/Solo.java:132-138 | a second harvest pays 0 and changes nothing |
| Plots.PlantGrowHarvest | FazendaIdle2/src/br/ufpa/fazenda/model/Solo.java:33-138 | plant, full growth, harvest returns the plot to its prior state and pays base × multiplier |
| Plots.HarvestRipe | FazendaIdle2/src/br/ufpa/fazenda/model/Solo.java:132-165 | a fresh planting at full growth is harvested for base × multiplier and leaves the plot as it was before planting |
| Plots.PlantedWorth | FazendaIdle2/src/br/ufpa/fazenda/model/Solo.java:33-120 | a planting is worth the crop's base value times the plot's multiplier under its toggle, and takes the catalog growth time under the same bonuses |
| Plots.LettuceScenario | FazendaIdle2/src/br/ufpa/fazenda/model/Solo.java:96-138 | lettuce on a bare level-1 plot is half grown after 15 s, ripe after 30 s, and harvests for 15 |
| Plots.ApplyFertilizer | FazendaIdle2/src/br/ufpa/fazenda/model/Solo.java:150-159 | succeeds iff occupied, not yet applied and stock positive, taking exactly one unit; stock plus units in effect is conserved |
| Plots.PlantWithToggleTakesNoStock | FazendaIdle2/src/br/ufpa/fazenda/model/Solo.java:41-46 | planting with the toggle on puts a unit in effect, and a later application is refused and takes no stock |
| Plots.Upgrade | FazendaIdle2/src/br/ufpa/fazenda/model/Solo.java:188-199 | succeeds iff below level 10, unlocked and 100 × level is affordable; then debits exactly that and raises the level by one; a failure changes nothing |
| Plots.UpgradeImproves | FazendaIdle2/src/br/ufpa/fazenda/model/Solo.java:188-199 | an upgrade makes the standing crop worth strictly more and grow no slower |
| Plots.LevelUpPaysMore | FazendaIdle2/src/br/ufpa/fazenda/model/Solo.java:70-90 | one more level makes a standing crop worth strictly more |
| Plots.LevelUpGrowsFaster | FazendaIdle2/src/br/ufpa/fazenda/model/Solo.java:100-120 | one more level never lengthens the growth time |
| Plots.Unlock | FazendaIdle2/src/br/ufpa/fazenda/model/Solo.java:207-218 | an unlocked plot succeeds at no cost; a locked one unlocks for 300 iff affordable, else nothing changes |
| Plots.UnlockTwice | FazendaIdle2/src/br/ufpa/fazenda/model/Solo.java:207-218 | a second unlock costs nothing and changes nothing |
| Plots.InstallMachine | FazendaIdle2/src/br/ufpa/fazenda/model/Solo.java:169-172 | ignored on a locked plot; otherwise the machine joins the set |
| Plots.RemoveMachine | FazendaIdle2/src/br/ufpa/fazenda/model/Solo.java:174-176 | the machine leaves the set and every other machine stays; removing an absent machine changes nothing |
| Plots.InstallThenRemove | FazendaIdle2/src/br/ufpa/fazenda/model/Solo.java:169-176 | removing a freshly installed machine restores the plot |
| Pens.New | FazendaIdle2/src/br/ufpa/fazenda/model/Cercado.java:16-21 | a new enclosure is valid, empty, unbound and not ready |
| Pens.AddAnimal | FazendaIdle2/src/br/ufpa/fazenda/model/Cercado.java:27-39 | an empty pen binds the species; otherwise accepted iff same species and below 3; a refusal changes nothing; the count stays ≤ 3 |
| Pens.FullPenRefuses | FazendaIdle2/src/br/ufpa/fazenda/model/Cercado.java:35 | a full pen refuses every animal with no change |
| Pens.AdvanceTime | FazendaIdle2/src/br/ufpa/fazenda/model/Cercado.java:45-58 | no effect on an empty or ready pen; otherwise progress rises by dt over the production time, and reaching 1 clamps it and sets ready; the invariant is kept |
| Pens.AdvanceTimeSplit | FazendaIdle2/src/br/ufpa/fazenda/model/Cercado.java:45-58 | advancing by a then by b equals advancing by a + b |
| Pens.Collect | FazendaIdle2/src/br/ufpa/fazenda/model/Cercado.java:60-71 | a ready pen pays product value × count and restarts from 0; otherwise pays 0 and changes nothing; on a valid pen the payment is positive iff ready |
| Pens.CollectTwice | FazendaIdle2/src/br/ufpa/fazenda/model/Cercado.java:60-71 | a second collection pays 0 |
| Pens.MaintenanceCost | FazendaIdle2/src/br/ufpa/fazenda/model/Cercado.java:73-76 | daily rate × count, 0 when empty |
| Pens.HenScenario | FazendaIdle2/src/br/ufpa/fazenda/model/Cercado.java:45-71 | one hen is ready after 30 s and collecting pays 8 and resets the bar |
| Farm.StarterPen | FazendaIdle2/src/br/ufpa/fazenda/model/FazendaEstado.java:54-69 | an enclosure with one free animal of the given species |
| Farm.Initial | FazendaIdle2/src/br/ufpa/fazenda/model/FazendaEstado.java:37-75 | money 500, day 1, no stock, lettuce remembered, six level-1 empty plots of which 0..2 are unlocked, one hen, sheep and cow, no machines; the farm is valid |
| Farm.Spend | FazendaIdle2/src/br/ufpa/fazenda/model/FazendaEstado.java:87-93 | succeeds iff affordable and takes exactly the amount; a failure leaves the whole farm unchanged |
| Farm.Earn | FazendaIdle2/src/br/ufpa/fazenda/model/FazendaEstado.java:95-97 | only the treasury changes, and a non-negative amount never lowers it |
| Farm.SpendThenEarn | FazendaIdle2/src/br/ufpa/fazenda/model/FazendaEstado.java:87-97 | earning back what was spent restores the farm |
| Farm.AnimalUpkeep | FazendaIdle2/src/br/ufpa/fazenda/model/FazendaEstado.java:109-117 | total enclosure upkeep is non-negative and 0 when every pen is empty |
| Farm.AnimalUpkeepUpdate | FazendaIdle2/src/br/ufpa/fazenda/model/FazendaEstado.java:109-117 | the total is additive over the pens: replacing one pen changes it by exactly the difference in that pen's rate × count |
| Farm.InitialUpkeep | FazendaIdle2/src/br/ufpa/fazenda/model/FazendaEstado.java:37-75 | the farm as built owes 35 a day for its three starter animals and has no machine entry to charge weekly |
| Farm.InstalledTotal | FazendaIdle2/src/br/ufpa/fazenda/model/FazendaEstado.java:123-126 | no entries when every list is empty |
| Farm.InstalledTotalUpdate | FazendaIdle2/src/br/ufpa/fazenda/model/FazendaEstado.java:123-126 | every list entry counts: replacing one list changes the total by exactly the difference in its length |
| Farm.ApplyMachineUpkeep | FazendaIdle2/src/br/ufpa/fazenda/model/FazendaEstado.java:119-134 | takes 10 per installed entry only when fully affordable; nothing else changes |
| Farm.AdvanceDay | FazendaIdle2/src/br/ufpa/fazenda/model/FazendaEstado.java:99-107 | the day rises by one, animal upkeep is always taken, machine upkeep on days divisible by 7 only if affordable; the farm stays valid |
| Farm.UpkeepMayOverdraw | FazendaIdle2/src/br/ufpa/fazenda/model/FazendaEstado.java:109-117 | an unaffordable animal upkeep drives the treasury negative |
| Farm.ConsumeFertilizer | FazendaIdle2/src/br/ufpa/fazenda/model/FazendaEstado.java:136-142 | takes one unit iff the stock is positive; otherwise nothing changes |
| Farm.BuyFertilizer | FazendaIdle2/src/br/ufpa/fazenda/model/FazendaEstado.java:144-148 | with 150 available, pays 150 and adds 10 units; otherwise nothing changes |
| Farm.FertilizePlot | FazendaIdle2/src/br/ufpa/fazenda/model/Solo.java:150-159 | the world-level application: succeeds iff occupied, not applied and stock positive; stock plus units in effect over all plots is conserved |
| Farm.UnlockPlot | FazendaIdle2/src/br/ufpa/fazenda/model/FazendaEstado.java:157-162 | a bad index fails; an unlocked plot succeeds free; a locked one unlocks for 300 iff affordable |
| Farm.UpgradePlot | FazendaIdle2/src/br/ufpa/fazenda/model/Solo.java:188-199 | the world-level upgrade against the treasury, with the same success condition and cost |
| Farm.BuyMachine | FazendaIdle2/src/br/ufpa/fazenda/model/FazendaEstado.java:169-176 | succeeds iff affordable; then pays the price and owns exactly one more of that machine and no other change |
| Farm.InstallMachine | FazendaIdle2/src/br/ufpa/fazenda/model/FazendaEstado.java:181-201 | succeeds iff the inventory has one, the index is valid and the plot unlocked; moves one unit onto the plot and its list; owned counts are conserved |
| Farm.InstallTwice | FazendaIdle2/src/br/ufpa/fazenda/model/FazendaEstado.java:181-201 | installing a machine the plot already has still succeeds, adds a second list entry and so one more weekly upkeep charge |
| Farm.InstallCountsForUpkeep | FazendaIdle2/src/br/ufpa/fazenda/model/FazendaEstado.java:119-134 | a successful installation adds exactly one entry to the count the weekly upkeep is charged on; a refused one adds none |
| Farm.RemoveCountsForUpkeep | FazendaIdle2/src/br/ufpa/fazenda/model/FazendaEstado.java:119-134 | a successful removal takes exactly one entry off that count; a removal that finds none takes none |
| Farm.RemoveFirst | FazendaIdle2/src/br/ufpa/fazenda/model/FazendaEstado.java:214 | drops one occurrence iff there is one |
| Farm.RemoveMachine | FazendaIdle2/src/br/ufpa/fazenda/model/FazendaEstado.java:206-223 | a bad index fails; succeeds iff the list has an entry, returning the unit to the inventory; owned counts are conserved |
| Farm.RemoveFirstConserves | FazendaIdle2/src/br/ufpa/fazenda/model/FazendaEstado.java:206-223 | dropping a list entry and returning a unit exactly when one was found conserves every owned count |
| Farm.ReplacePlotKeepsValid | FazendaIdle2/src/br/ufpa/fazenda/model/FazendaEstado.java:181-223 | replacing one plot by a valid plot with the same identity, whose machines its new list records, keeps the farm valid |
| Farm.RemoveMachineKeepsValid | FazendaIdle2/src/br/ufpa/fazenda/model/FazendaEstado.java:206-223 | removal keeps the farm valid |
| Farm.RemoveMissingMachine | FazendaIdle2/src/br/ufpa/fazenda/model/FazendaEstado.java:206-223 | on a farm whose lists record its machines, a removal without an entry changes nothing |
| Farm.BuyAnimal | FazendaIdle2/src/br/ufpa/fazenda/model/FazendaEstado.java:233-267 | succeeds iff the index is valid, the pen has room and a species, and the price is affordable; then pays it and adds one animal of the same species; a failure changes nothing |
| Farm.AddAnimalFree | FazendaIdle2/src/br/ufpa/fazenda/model/FazendaEstado.java:273-280 | the free addition: the pen's own rule, no payment; on success only that pen changes, becoming the pen with the animal added |
| Farm.BuyAnimalRaisesUpkeep | FazendaIdle2/src/br/ufpa/fazenda/model/FazendaEstado.java:233-267 | a successful purchase raises the daily animal upkeep by exactly the species' rate |
| Farm.AddAnimalRaisesUpkeep | FazendaIdle2/src/br/ufpa/fazenda/model/FazendaEstado.java:273-280 | a successful free addition raises the daily animal upkeep by exactly the species' rate |
| Agent.ExpectedProfit | FazendaIdle2/src/br/ufpa/fazenda/controller/PersonagemIA.java:274-307 | the estimate is positive on every plot of level 1 or more |
| Agent.ExpectedProfitIsPlantedRate | FazendaIdle2/src/br/ufpa/fazenda/controller/PersonagemIA.java:274-307 | when the toggle is off or stock exists, the estimate equals sale value over growth time of the actual planting |
| Agent.ExpectedProfitUnderestimatesWithoutStock | FazendaIdle2/src/br/ufpa/fazenda/controller/PersonagemIA.java:285-300 | with the toggle on and no stock, the estimate is strictly below the planting's actual rate |
| Agent.FertilizerRaisesRate | FazendaIdle2/src/br/ufpa/fazenda/controller/PersonagemIA.java:274-307 | fertilizer strictly raises a crop's value per second of growth |
| Agent.FertilizerPaysMore | FazendaIdle2/src/br/ufpa/fazenda/model/Solo.java:70-90 | fertilizer strictly raises a crop's positive sale value |
| Agent.FertilizerGrowsFaster | FazendaIdle2/src/br/ufpa/fazenda/model/Solo.java:100-120 | fertilizer never lengthens the positive growth time |
| Agent.ScanBest | FazendaIdle2/src/br/ufpa/fazenda/controller/PersonagemIA.java:255-272 | the scan keeps the earliest eligible crop of strictly maximal estimate above the starting bound |
| Agent.BestCrop | FazendaIdle2/src/br/ufpa/fazenda/controller/PersonagemIA.java:255-272 | the chosen crop is eligible, positive and maximal, and beats every earlier eligible crop strictly; none iff no eligible crop has a positive estimate |
| Agent.BestCropExists | FazendaIdle2/src/br/ufpa/fazenda/controller/PersonagemIA.java:255-272 | every plot of level 1 or more gets a crop |
| Agent.BestCropScenario | FazendaIdle2/src/br/ufpa/fazenda/controller/PersonagemIA.java:255-307 | a bare level-5 plot gets pumpkin and a bare level-2 plot gets carrot |
| Agent.Offer | FazendaIdle2/src/br/ufpa/fazenda/controller/PersonagemIA.java:143-251 | each kind proposes a target exactly under its conditions (harvest: unlocked, ready, no tractor; plant: unlocked, empty, no planter, a best crop; collect: ready; fertilize: stock, unlocked, occupied, toggled, not applied, half the value above 15) with the stated value |
| Agent.NoFertilizerForLettuce | FazendaIdle2/src/br/ufpa/fazenda/controller/PersonagemIA.java:229-248 | lettuce is never proposed for fertilizer |
| Agent.Gather | FazendaIdle2/src/br/ufpa/fazenda/controller/PersonagemIA.java:143-251 | the gathered decisions are exactly the proposals for the remaining targets |
| Agent.Candidates | FazendaIdle2/src/br/ufpa/fazenda/controller/PersonagemIA.java:124-141 | a decision is a candidate exactly when its kind proposes it for its target |
| Agent.BestIndex | FazendaIdle2/src/br/ufpa/fazenda/controller/PersonagemIA.java:66-68 | the polled position holds a maximal value, strictly above every earlier one |
| Agent.Chosen | FazendaIdle2/src/br/ufpa/fazenda/controller/PersonagemIA.java:103-109 | a candidate of maximal value, none exactly when there are no candidates |
| Agent.ExecuteHarvest | FazendaIdle2/src/br/ufpa/fazenda/controller/PersonagemIA.java:336-351 | succeeds iff the index is valid and the plot unlocked and ready; harvests and credits; the remembered crop is unchanged |
| Agent.ExecutePlant | FazendaIdle2/src/br/ufpa/fazenda/controller/PersonagemIA.java:353-371 | succeeds iff the index is valid, a crop is given and the plot is unlocked and empty; plants and remembers the crop, with no other change |
| Agent.ExecuteCollect | FazendaIdle2/src/br/ufpa/fazenda/controller/PersonagemIA.java:373-382 | a bad index or unready pen fails with no change; otherwise collects, credits, and succeeds iff the value is positive |
| Agent.ExecuteFertilize | FazendaIdle2/src/br/ufpa/fazenda/controller/PersonagemIA.java:384-391 | a bad index or locked plot fails with no change; otherwise the plot's application against the stock |
| Agent.Execute | FazendaIdle2/src/br/ufpa/fazenda/controller/PersonagemIA.java:311-334 | an idle decision does nothing; the day never changes and locked plots are never touched |
| Agent.ExecuteNeverSpends | FazendaIdle2/src/br/ufpa/fazenda/controller/PersonagemIA.java:311-391 | on a valid farm no execution lowers the treasury or changes the day, inventory, installed machines, unlocks, levels, machines, toggles or animals; only a successful fertilizer task takes stock, exactly one unit |
| Agent.HarvestNeverSpends | FazendaIdle2/src/br/ufpa/fazenda/controller/PersonagemIA.java:336-351 | a harvest task leaves all of those untouched and takes no stock |
| Agent.PlantNeverSpends | FazendaIdle2/src/br/ufpa/fazenda/controller/PersonagemIA.java:353-371 | a planting task leaves all of those untouched and takes no stock |
| Agent.CollectNeverSpends | FazendaIdle2/src/br/ufpa/fazenda/controller/PersonagemIA.java:373-382 | a collect task leaves all of those untouched and takes no stock |
| Agent.FertilizeNeverSpends | FazendaIdle2/src/br/ufpa/fazenda/controller/PersonagemIA.java:384-391 | a fertilizer task leaves all of those untouched and takes exactly one unit when it succeeds |
| Agent.ExecuteKeepsValid | FazendaIdle2/src/br/ufpa/fazenda/controller/PersonagemIA.java:311-391 | every execution keeps the farm valid |
| Agent.CandidateSucceeds | FazendaIdle2/src/br/ufpa/fazenda/controller/PersonagemIA.java:143-391 | every candidate of a valid farm executes successfully |
| Agent.CandidateValueIsPaid | FazendaIdle2/src/br/ufpa/fazenda/controller/PersonagemIA.java:143-382 | a harvest or collection candidate pays exactly its estimated value |
| Agent.New | FazendaIdle2/src/br/ufpa/fazenda/controller/PersonagemIA.java:52-55 | a new agent is off, with nothing queued and no elapsed time |
| Agent.Activate | FazendaIdle2/src/br/ufpa/fazenda/controller/PersonagemIA.java:73-76 | switches on and changes nothing else |
| Agent.Deactivate | FazendaIdle2/src/br/ufpa/fazenda/controller/PersonagemIA.java:78-82 | switches off and empties the queue |
| Agent.Step | FazendaIdle2/src/br/ufpa/fazenda/controller/PersonagemIA.java:93-120 | inactive: no change; below 0.5 s: only the time accumulates; otherwise executes the chosen maximal candidate, leaves the rest queued (only their number is stated, since the next action rebuilds the queue), and restarts the cooldown only on success |
| Agent.StepActsWhenWorkExists | FazendaIdle2/src/br/ufpa/fazenda/controller/PersonagemIA.java:93-120 | once the interval has elapsed on a valid farm, the agent acts iff there is a candidate, then restarts its cooldown, and the farm stays valid |
| Agent.StepNeverSpends | FazendaIdle2/src/br/ufpa/fazenda/controller/PersonagemIA.java:93-120 | a step never lowers the treasury or changes the inventory, and keeps the farm valid |
| Loop.New | FazendaIdle2/src/br/ufpa/fazenda/engine/GameLoop.java:30-35 | the loop starts valid over the initial farm with AI mode off |
| Loop.Automate | FazendaIdle2/src/br/ufpa/fazenda/engine/GameLoop.java:125-168 | a tractor harvests a ready plot and its value is the income; a planter then plants the remembered crop on the emptied plot; the stock is never touched; the plot's configuration is kept |
| Loop.HarvestAndReplant | FazendaIdle2/src/br/ufpa/fazenda/engine/GameLoop.java:128-158 | a ready plot with both machines is harvested, paid and replanted in one tick without taking stock |
| Loop.PlotStep | FazendaIdle2/src/br/ufpa/fazenda/engine/GameLoop.java:73-84 | a plot without machines only grows; the plot's configuration is kept; validity is kept and income is non-negative; no tractor means no income; a tractor plot that is ready after this tick's growth, including one that ripens during it, earns its sale value; a planter replants an empty or just-harvested plot with the remembered crop |
| Loop.NoTractorNoIncome | FazendaIdle2/src/br/ufpa/fazenda/engine/GameLoop.java:129-132 | only a tractor earns: plots without one credit nothing in a tick |
| Loop.ProcessPlots | FazendaIdle2/src/br/ufpa/fazenda/engine/GameLoop.java:69-90 | locked plots are skipped, each unlocked plot takes its own step independently, only plots and treasury change, and the treasury grows by exactly the unlocked plots' step income |
| Loop.ProcessPlotsKeepsValid | FazendaIdle2/src/br/ufpa/fazenda/engine/GameLoop.java:69-90 | the plot loop keeps the farm valid |
| Loop.AdvancePens | FazendaIdle2/src/br/ufpa/fazenda/engine/GameLoop.java:96-97 | every enclosure advances by exactly 0.5 s |
| Loop.Tick | FazendaIdle2/src/br/ufpa/fazenda/engine/GameLoop.java:55-119 | the day advances exactly when the day clock reaches 15 s, at most once; clocks reset to zero; locked plots never change; the AI flag is kept; without the agent no stock is taken, pens advance by exactly 0.5 s, bare plots just grow, every unlocked plot, automated or not, takes its own plot step, and the treasury ends at the day step's balance (animal upkeep, and machine upkeep on a seventh day) plus the plots' income |
| Loop.AdvancePensKeepsValid | FazendaIdle2/src/br/ufpa/fazenda/engine/GameLoop.java:93-97 | advancing every enclosure keeps the farm valid |
| Loop.TickKeepsValid | FazendaIdle2/src/br/ufpa/fazenda/engine/GameLoop.java:55-119 | a tick with dt ≥ 0 keeps the farm valid, the clocks within their periods and the AI flag equal to the agent's switch; with the agent on, the treasury ends no lower than the day step's balance plus the plots' income |
| Loop.CollectAnimalProducts | FazendaIdle2/src/br/ufpa/fazenda/engine/GameLoop.java:173-191 | a bad index yields 0; otherwise credits exactly the collected value, which is positive iff the pen was ready |
| Loop.CollectTwicePaysOnce | FazendaIdle2/src/br/ufpa/fazenda/engine/GameLoop.java:173-191 | collecting twice pays once |
| Loop.AddAnimal | FazendaIdle2/src/br/ufpa/fazenda/engine/GameLoop.java:198-212 | a bad index fails; otherwise the pen's own rule, free of charge; on success only that pen of the farm changes |
| Loop.BuyAnimal | FazendaIdle2/src/br/ufpa/fazenda/engine/GameLoop.java:217-236 | a bad index fails; otherwise the farm's purchase |
| Loop.UnlockPlot | FazendaIdle2/src/br/ufpa/fazenda/engine/GameLoop.java:241-253 | a bad index fails; otherwise the farm's unlock |
| Loop.ActivateAI | FazendaIdle2/src/br/ufpa/fazenda/engine/GameLoop.java:258-264 | the AI flag and the agent's switch are both turned on |
| Loop.DeactivateAI | FazendaIdle2/src/br/ufpa/fazenda/engine/GameLoop.java:269-275 | both are turned off and the agent's queue is emptied |

## Left out

- The thread driver (`run`, `Thread.sleep`, `System.currentTimeMillis`, `rodando`, `parar`): a tick is a function of an explicit elapsed time `dt`.
- The singleton and its synchronized `getInstance`: the world is passed explicitly, so the concurrency between the loop and the console is out of scope.
- Listener callbacks, console logging, `Decisao.descricao`, `getStatus`, `getInfoCompleta` and all names and descriptions: presentation only. The loop's per-plot repaint flag is dropped.
- The console, Swing views and entry points: user interface.
- Getters and the toggle setter (`setFertilizanteAtivado` is a field update, `getTarefasPendentes` is the length of `pending`, `isAtivo`, `isIAActivo`, `getPersonagemIA`, inventory and list copies).
- IEEE double rounding: money, progress and time are exact reals.
- Java `int` overflow of the day counter, the stock and the inventory counts: these are unbounded naturals.
- The exception catch in `executarDecisao`: the model has no exceptions. The one null dereference the model has to rule out, a ready pen without a species, is excluded by `Pens.Valid`, and such a pen is simply not proposed.
- The unused `priorizarLucroImediato` flag and its setter.
- The priority queue's order among equal values: the model polls the first maximal candidate in gather order, and the contracts state only maximality.
- Negative decision targets: decisions carry a natural target, so the executors check only the upper bound.
- The planters' null check on the remembered crop: it is a crop, never absent.
- Farm.BuyAnimal: the refund after a refused addition is unreachable, because the guards already ensure the pen accepts its own species below capacity; the refund itself is stated by Ledger.RefundRestores.
- Agent.ExecuteNeverSpends: stated for a valid farm only, because on a plot with a level below 1 the sale value could be negative; the code never lets a level leave 1..10.
- Loop.Tick: the treasury is given exactly only with AI mode off; with it on, Loop.TickKeepsValid bounds it from below, and the farmhand's own effect is stated by Agent.Step and Agent.Execute.
