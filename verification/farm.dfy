/** The farm (`FazendaEstado`): the one aggregate holding the treasury, the day counter, the
    fertilizer stock, six plots, three enclosures, the machine inventory, the per-plot lists of
    installed machines and the last crop planted. Every operation takes the farm and returns
    the new farm with its success flag; nothing is global. */
module Farm {
  import opened Options
  import opened Catalog
  import Ledger
  import Plots
  import Pens

  const PlotCount: nat := 6
  const UnlockedAtStart: nat := 3
  const PenCount: nat := 3
  const StartingMoney: real := 500.0
  /** Charged per installed machine every seventh day. */
  const MachineWeeklyUpkeep: real := 10.0
  const DaysPerWeek: nat := 7

  /** Machines owned but not installed. */
  datatype Inventory = Inventory(trator: nat, arador: nat, irrigador: nat) {

    function Count(m: Machine): nat {
      match m
      case Trator => trator
      case Arador => arador
      case Irrigador => irrigador
    }

    /** The inventory with the count of `m` set to `n` and every other count kept. */
    function Put(m: Machine, n: nat): (r: Inventory)
      ensures r.Count(m) == n
      ensures forall x :: x != m ==> r.Count(x) == Count(x)
    {
      match m
      case Trator => this.(trator := n)
      case Arador => this.(arador := n)
      case Irrigador => this.(irrigador := n)
    }
  }

  datatype World = World(
    money: real,
    day: nat,
    fertilizerStock: nat,
    plots: seq<Plots.Plot>,
    pens: seq<Pens.Pen>,
    inventory: Inventory,
    installed: seq<seq<Machine>>,   // per plot, machines installed through the farm, in order
    lastPlanted: Crop)

  /** Every machine on a plot is also recorded in that plot's installed list. */
  predicate MachinesRecorded(w: World)
    requires |w.installed| == |w.plots|
  {
    forall i, m :: 0 <= i < |w.plots| && m in w.plots[i].machines ==> m in w.installed[i]
  }

  /** The farm invariant: fixed numbers of plots, lists and pens, identities by index,
      every plot and pen within its own invariant, day at least 1, machines recorded. */
  predicate Valid(w: World) {
    && |w.plots| == PlotCount
    && |w.installed| == PlotCount
    && |w.pens| == PenCount
    && w.day >= 1
    && (forall i :: 0 <= i < |w.plots| ==> w.plots[i].id == i && Plots.Valid(w.plots[i]))
    && (forall k :: 0 <= k < |w.pens| ==> w.pens[k].id == k && Pens.Valid(w.pens[k]))
    && MachinesRecorded(w)
  }

  /** An enclosure built with one free animal of the given species. */
  function StarterPen(id: nat, s: Species): (e: Pens.Pen)
    ensures Pens.Valid(e) && e.id == id && e.species == Some(s) && e.count == 1 && !e.ready
  {
    Pens.AddAnimal(Pens.New(id), s).0
  }

  /** The constructor: 500 in the treasury, day 1, no fertilizer, lettuce remembered,
      six level-1 empty plots of which only the first three are unlocked, one hen, one sheep
      and one cow in the three enclosures, and no machines anywhere. */
  function Initial(): (w: World)
    ensures Valid(w)
    ensures w.money == 500.0 && w.day == 1 && w.fertilizerStock == 0 && w.lastPlanted == Alface
    ensures forall i :: 0 <= i < |w.plots| ==>
              (w.plots[i].unlocked <==> i < 3) && w.plots[i].level == 1
              && !Plots.Occupied(w.plots[i]) && w.plots[i].machines == {}
    ensures w.pens[0].species == Some(Galinha) && w.pens[0].count == 1
    ensures w.pens[1].species == Some(Ovelha) && w.pens[1].count == 1
    ensures w.pens[2].species == Some(Vaca) && w.pens[2].count == 1
    ensures forall m :: w.inventory.Count(m) == 0
    ensures forall i :: 0 <= i < |w.installed| ==> w.installed[i] == []
  {
    var plots := seq(PlotCount, i requires 0 <= i => Plots.New(i, i < UnlockedAtStart));
    assert forall i :: 0 <= i < PlotCount ==> plots[i] == Plots.New(i, i < UnlockedAtStart);
    var installed: seq<seq<Machine>> := seq(PlotCount, _ => []);
    assert forall i :: 0 <= i < PlotCount ==> installed[i] == [];
    World(
      StartingMoney, 1, 0, plots,
      [StarterPen(0, Galinha), StarterPen(1, Ovelha), StarterPen(2, Vaca)],
      Inventory(0, 0, 0), installed, Alface)
  }

  // ---------------------------------------------------------------- treasury

  /** `gastarDinheiro`: succeeds exactly when the treasury covers the amount and then takes
      exactly that amount; a failure leaves the whole farm unchanged. */
  function Spend(w: World, amount: real): (r: (World, bool))
    ensures r.1 <==> w.money >= amount
    ensures r.1 ==> r.0 == w.(money := w.money - amount) && r.0.money >= 0.0
    ensures !r.1 ==> r.0 == w
  {
    var (rest, paid) := Ledger.Debit(w.money, amount);
    if paid then (w.(money := rest), true) else (w, false)
  }

  /** `ganharDinheiro`: adds the amount to the treasury. */
  function Earn(w: World, amount: real): (r: World)
    ensures r == w.(money := r.money)
    ensures amount >= 0.0 ==> r.money >= w.money
  {
    w.(money := Ledger.Credit(w.money, amount))
  }

  /** Earning back what was just spent restores the farm. */
  lemma SpendThenEarn(w: World, amount: real)
    requires Spend(w, amount).1
    ensures Earn(Spend(w, amount).0, amount) == w
  {
  }

  // ---------------------------------------------------------------- day advance

  /** Sum of the enclosures' daily upkeep. */
  function AnimalUpkeep(pens: seq<Pens.Pen>): (r: real)
    ensures r >= 0.0
    ensures (forall k :: 0 <= k < |pens| ==> pens[k].count == 0) ==> r == 0.0
  {
    if pens == [] then 0.0 else Pens.MaintenanceCost(pens[0]) + AnimalUpkeep(pens[1..])
  }

  /** Number of entries in all installed-machine lists. */
  function InstalledTotal(installed: seq<seq<Machine>>): (r: nat)
    ensures (forall i :: 0 <= i < |installed| ==> installed[i] == []) ==> r == 0
  {
    if installed == [] then 0 else |installed[0]| + InstalledTotal(installed[1..])
  }

  /** Replacing one list changes the entry count by the difference in that list's length. */
  lemma {:induction false} InstalledTotalUpdate(installed: seq<seq<Machine>>, i: nat,
                                                l: seq<Machine>)
    requires i < |installed|
    ensures InstalledTotal(installed[i := l]) + |installed[i]| == InstalledTotal(installed) + |l|
  {
    if i == 0 {
      assert installed[i := l][1..] == installed[1..];
    } else {
      assert installed[i := l][1..] == installed[1..][i - 1 := l];
      InstalledTotalUpdate(installed[1..], i - 1, l);
    }
  }

  /** Replacing one enclosure changes the total upkeep by the difference on that enclosure. */
  lemma {:induction false} AnimalUpkeepUpdate(pens: seq<Pens.Pen>, k: nat, e: Pens.Pen)
    requires k < |pens|
    ensures AnimalUpkeep(pens[k := e]) + Pens.MaintenanceCost(pens[k])
            == AnimalUpkeep(pens) + Pens.MaintenanceCost(e)
  {
    if k == 0 {
      assert pens[k := e][1..] == pens[1..];
    } else {
      assert pens[k := e][1..] == pens[1..][k - 1 := e];
      AnimalUpkeepUpdate(pens[1..], k - 1, e);
    }
  }

  /** The farm as built owes 5 + 10 + 20 a day for its three starter animals and nothing
      weekly, having no machine installed. */
  lemma InitialUpkeep()
    ensures AnimalUpkeep(Initial().pens) == 35.0
    ensures InstalledTotal(Initial().installed) == 0
  {
    var pens := Initial().pens;
    assert pens[1..][1..][1..] == [];
  }

  /** Weekly machine upkeep: 10 per installed entry, taken only if fully affordable. */
  function ApplyMachineUpkeep(w: World): (r: World)
    ensures r == w.(money := r.money)
    ensures var cost := InstalledTotal(w.installed) as real * 10.0;
            r.money == if w.money >= cost then w.money - cost else w.money
  {
    var cost := InstalledTotal(w.installed) as real * MachineWeeklyUpkeep;
    if cost > 0.0 && w.money >= cost then w.(money := w.money - cost) else w
  }

  /** `avancarDia`: the day goes up by one and the total animal upkeep is always taken,
      even into a negative balance; when the new day is a multiple of seven the machine
      upkeep is then taken as well, but only if the remaining balance covers all of it. */
  function AdvanceDay(w: World): (r: World)
    ensures r == w.(day := w.day + 1, money := r.money)
    ensures var afterAnimals := w.money - AnimalUpkeep(w.pens);
            var weekly := InstalledTotal(w.installed) as real * 10.0;
            if (w.day + 1) % 7 == 0 && afterAnimals >= weekly
            then r.money == afterAnimals - weekly
            else r.money == afterAnimals
    ensures Valid(w) ==> Valid(r)
  {
    var w1 := w.(day := w.day + 1);
    var upkeep := AnimalUpkeep(w1.pens);
    var w2 := if upkeep > 0.0 then w1.(money := w1.money - upkeep) else w1;
    if w2.day % DaysPerWeek == 0 then ApplyMachineUpkeep(w2) else w2
  }

  /** The animal upkeep is not gated: a treasury that cannot cover it goes negative. */
  lemma UpkeepMayOverdraw(w: World)
    requires w.money < AnimalUpkeep(w.pens)
    ensures AdvanceDay(w).money < 0.0
  {
  }

  // ---------------------------------------------------------------- fertilizer

  /** Fertilizer units in effect across the plots. */
  function InEffectTotal(plots: seq<Plots.Plot>): nat {
    if plots == [] then 0 else Plots.InEffect(plots[0]) + InEffectTotal(plots[1..])
  }

  /** Replacing one plot changes the total in effect by the difference on that plot. */
  lemma {:induction false} InEffectTotalUpdate(plots: seq<Plots.Plot>, i: nat, p: Plots.Plot)
    requires i < |plots|
    ensures InEffectTotal(plots[i := p]) + Plots.InEffect(plots[i])
            == InEffectTotal(plots) + Plots.InEffect(p)
  {
    if i == 0 {
      assert plots[i := p][1..] == plots[1..];
    } else {
      assert plots[i := p][1..] == plots[1..][i - 1 := p];
      InEffectTotalUpdate(plots[1..], i - 1, p);
    }
  }

  /** `consumirFertilizanteDoEstoque`: takes one unit when there is one; the stock never
      goes below zero. */
  function ConsumeFertilizer(w: World): (r: (World, bool))
    ensures r.1 <==> w.fertilizerStock > 0
    ensures r.1 ==> r.0 == w.(fertilizerStock := w.fertilizerStock - 1)
    ensures !r.1 ==> r.0 == w
  {
    var (rest, took) := Ledger.TakeOne(w.fertilizerStock);
    (w.(fertilizerStock := rest), took)
  }

  /** `comprarFertilizante`: ten units for 150, added only after the debit succeeds;
      otherwise nothing changes. */
  function BuyFertilizer(w: World): (r: World)
    ensures w.money >= 150.0 ==>
              r == w.(money := w.money - 150.0, fertilizerStock := w.fertilizerStock + 10)
    ensures w.money < 150.0 ==> r == w
  {
    var (w1, paid) := Spend(w, FertilizerBatchCost);
    if paid then w1.(fertilizerStock := w1.fertilizerStock + FertilizerBatchSize) else w1
  }

  /** `aplicarFertilizante` on plot `i`, drawing on the farm's stock. The stock plus the
      units in effect on all plots is conserved, and no other plot changes. */
  function FertilizePlot(w: World, i: nat): (r: (World, bool))
    requires i < |w.plots|
    ensures r.1 <==> Plots.Occupied(w.plots[i]) && !w.plots[i].fertilizerApplied
                     && w.fertilizerStock > 0
    ensures r.1 ==> r.0 == w.(plots := w.plots[i := w.plots[i].(fertilizerApplied := true)],
                              fertilizerStock := w.fertilizerStock - 1)
    ensures !r.1 ==> r.0 == w
    ensures r.0.fertilizerStock + InEffectTotal(r.0.plots)
            == w.fertilizerStock + InEffectTotal(w.plots)
    ensures Valid(w) ==> Valid(r.0)
  {
    var (p, stock, ok) := Plots.ApplyFertilizer(w.plots[i], w.fertilizerStock);
    InEffectTotalUpdate(w.plots, i, p);
    if ok then (w.(plots := w.plots[i := p], fertilizerStock := stock), true) else (w, false)
  }

  // ---------------------------------------------------------------- plots

  /** `desbloquearSolo`: out-of-range indices fail; otherwise the plot's own unlock runs
      against the treasury. */
  function UnlockPlot(w: World, i: int): (r: (World, bool))
    ensures !(0 <= i < |w.plots|) ==> r == (w, false)
    ensures 0 <= i < |w.plots| && w.plots[i].unlocked ==> r == (w, true)
    ensures 0 <= i < |w.plots| && !w.plots[i].unlocked ==>
              (r.1 <==> w.money >= 300.0)
              && (r.1 ==> r.0 == w.(plots := w.plots[i := w.plots[i].(unlocked := true)],
                                    money := w.money - 300.0))
              && (!r.1 ==> r.0 == w)
    ensures Valid(w) ==> Valid(r.0)
  {
    if !(0 <= i < |w.plots|) then (w, false)
    else
      var (p, money, ok) := Plots.Unlock(w.plots[i], w.money);
      if w.plots[i].unlocked then (w, true)
      else (w.(plots := w.plots[i := p], money := money), ok)
  }

  /** `upgrade` of plot `i` against the treasury. */
  function UpgradePlot(w: World, i: nat): (r: (World, bool))
    requires i < |w.plots|
    ensures r.1 <==> w.plots[i].level < 10 && w.plots[i].unlocked
                     && w.money >= 100.0 * w.plots[i].level as real
    ensures r.1 ==> r.0 == w.(plots := w.plots[i := w.plots[i].(level := w.plots[i].level + 1)],
                              money := w.money - 100.0 * w.plots[i].level as real)
    ensures !r.1 ==> r.0 == w
    ensures Valid(w) ==> Valid(r.0)
  {
    var (p, money, ok) := Plots.Upgrade(w.plots[i], w.money);
    if ok then (w.(plots := w.plots[i := p], money := money), true) else (w, false)
  }

  // ---------------------------------------------------------------- machines

  /** Occurrences of `m` in all installed-machine lists. */
  function Occurrences(installed: seq<seq<Machine>>, m: Machine): nat {
    if installed == [] then 0 else multiset(installed[0])[m] + Occurrences(installed[1..], m)
  }

  /** Replacing one list changes the occurrences by the difference on that list. */
  lemma {:induction false} OccurrencesUpdate(installed: seq<seq<Machine>>, i: nat,
                                             l: seq<Machine>, m: Machine)
    requires i < |installed|
    ensures Occurrences(installed[i := l], m) + multiset(installed[i])[m]
            == Occurrences(installed, m) + multiset(l)[m]
  {
    if i == 0 {
      assert installed[i := l][1..] == installed[1..];
    } else {
      assert installed[i := l][1..] == installed[1..][i - 1 := l];
      OccurrencesUpdate(installed[1..], i - 1, l, m);
    }
  }

  /** Units of `m` the farm owns: in the inventory plus installed on plots. */
  function Owned(w: World, m: Machine): nat {
    w.inventory.Count(m) + Occurrences(w.installed, m)
  }

  /** `comprarMaquina`: gated by the debit of the machine's price; on success exactly one
      more unit of that machine is in the inventory. */
  function BuyMachine(w: World, m: Machine): (r: (World, bool))
    ensures r.1 <==> w.money >= MachineCost(m)
    ensures r.1 ==> r.0.money == w.money - MachineCost(m)
                    && r.0.inventory.Count(m) == w.inventory.Count(m) + 1
                    && r.0 == w.(money := r.0.money, inventory := r.0.inventory)
    ensures r.1 ==> Owned(r.0, m) == Owned(w, m) + 1
    ensures forall x :: x != m ==> r.0.inventory.Count(x) == w.inventory.Count(x)
    ensures !r.1 ==> r.0 == w
    ensures Valid(w) ==> Valid(r.0)
  {
    var (w1, paid) := Spend(w, MachineCost(m));
    if paid then (w1.(inventory := w1.inventory.Put(m, w1.inventory.Count(m) + 1)), true)
    else (w, false)
  }

  /** `instalarMaquina`: fails with no change when the inventory has none, the index is out
      of range or the plot is locked. Otherwise one unit moves from the inventory onto the plot
      (there is no check for a machine already installed). Every machine's owned count is
      conserved either way. */
  function InstallMachine(w: World, i: int, m: Machine): (r: (World, bool))
    requires |w.installed| == |w.plots|
    ensures r.1 <==> w.inventory.Count(m) > 0 && 0 <= i < |w.plots| && w.plots[i].unlocked
    ensures !r.1 ==> r.0 == w
    ensures r.1 ==> r.0.inventory.Count(m) + 1 == w.inventory.Count(m)
                    && r.0.installed == w.installed[i := w.installed[i] + [m]]
                    && r.0.plots == w.plots[i := w.plots[i].(machines := w.plots[i].machines + {m})]
    ensures forall x :: Owned(r.0, x) == Owned(w, x)
    ensures Valid(w) ==> Valid(r.0)
  {
    var available := w.inventory.Count(m);
    if available <= 0 then (w, false)
    else if !(0 <= i < |w.plots|) then (w, false)
    else if !w.plots[i].unlocked then (w, false)
    else
      var l := w.installed[i] + [m];
      var r := w.(plots := w.plots[i := Plots.InstallMachine(w.plots[i], m)],
                  installed := w.installed[i := l],
                  inventory := w.inventory.Put(m, available - 1));
      assert forall x :: Owned(r, x) == Owned(w, x) by {
        forall x
          ensures Owned(r, x) == Owned(w, x)
        {
          OccurrencesUpdate(w.installed, i, l, x);
          assert multiset(l) == multiset(w.installed[i]) + multiset{m};
        }
      }
      (r, true)
  }

  /** `List.remove(Object)`: drops the first occurrence of `m`, reporting whether there was one. */
  function RemoveFirst(s: seq<Machine>, m: Machine): (r: (seq<Machine>, bool))
    ensures r.1 <==> m in s
    ensures multiset(r.0) == multiset(s) - multiset{m}
    ensures !r.1 ==> r.0 == s
    ensures forall x :: x != m ==> (x in r.0 <==> x in s)
    ensures |r.0| == if r.1 then |s| - 1 else |s|
  {
    if s == [] then (s, false)
    else
      assert s == [s[0]] + s[1..];
      if s[0] == m then (s[1..], true)
      else
        var (rest, found) := RemoveFirst(s[1..], m);
        ([s[0]] + rest, found)
  }

  /** `removerMaquina`: out-of-range indices fail. Otherwise the machine leaves the plot and
      its first entry leaves the plot's list; when there was an entry, the unit returns to the
      inventory. Owned counts are conserved whatever happens. */
  function RemoveMachine(w: World, i: int, m: Machine): (r: (World, bool))
    requires |w.installed| == |w.plots|
    ensures !(0 <= i < |w.plots|) ==> r == (w, false)
    ensures 0 <= i < |w.plots| ==> (r.1 <==> m in w.installed[i])
    ensures 0 <= i < |w.plots| ==>
              && r.0.plots == w.plots[i := Plots.RemoveMachine(w.plots[i], m)]
              && r.0.installed == w.installed[i := RemoveFirst(w.installed[i], m).0]
              && r.0 == w.(plots := r.0.plots, installed := r.0.installed,
                           inventory := r.0.inventory)
    ensures r.1 ==> r.0.inventory.Count(m) == w.inventory.Count(m) + 1
                    && m !in r.0.plots[i].machines
    ensures !r.1 ==> r.0 == w.(plots := r.0.plots)
    ensures forall x :: Owned(r.0, x) == Owned(w, x)
  {
    if !(0 <= i < |w.plots|) then (w, false)
    else
      var (l, removed) := RemoveFirst(w.installed[i], m);
      var inventory := if removed then w.inventory.Put(m, w.inventory.Count(m) + 1)
                       else w.inventory;
      var r := w.(plots := w.plots[i := Plots.RemoveMachine(w.plots[i], m)],
                  installed := w.installed[i := l], inventory := inventory);
      RemoveFirstConserves(w, i, m, r);
      assert !removed ==> w.installed[i := l] == w.installed;
      (r, removed)
  }

  /** Dropping the first entry of `m` from list `i` and returning a unit to the inventory
      exactly when an entry was found leaves every owned count unchanged. */
  lemma RemoveFirstConserves(w: World, i: nat, m: Machine, r: World)
    requires i < |w.installed|
    requires r.installed == w.installed[i := RemoveFirst(w.installed[i], m).0]
    requires r.inventory == if RemoveFirst(w.installed[i], m).1
                            then w.inventory.Put(m, w.inventory.Count(m) + 1)
                            else w.inventory
    ensures forall x :: Owned(r, x) == Owned(w, x)
  {
    var (l, removed) := RemoveFirst(w.installed[i], m);
    forall x
      ensures Owned(r, x) == Owned(w, x)
    {
      OccurrencesUpdate(w.installed, i, l, x);
      var back := if removed && x == m then 1 else 0;
      assert multiset(l)[x] + back == multiset(w.installed[i])[x];
      assert r.inventory.Count(x) == w.inventory.Count(x) + back;
    }
  }

  /** Replacing one plot and its installed list keeps the farm valid when the new plot is
      valid, keeps its identity, and carries only machines the new list records. */
  lemma ReplacePlotKeepsValid(w: World, i: nat, p: Plots.Plot, l: seq<Machine>, r: World)
    requires Valid(w) && i < |w.plots|
    requires Plots.Valid(p) && p.id == i
    requires forall x :: x in p.machines ==> x in l
    requires r.plots == w.plots[i := p] && r.installed == w.installed[i := l]
    requires r.pens == w.pens && r.day == w.day
    ensures Valid(r)
  {
  }

  /** On a valid farm, removal keeps the farm valid. */
  lemma RemoveMachineKeepsValid(w: World, i: int, m: Machine)
    requires Valid(w)
    ensures Valid(RemoveMachine(w, i, m).0)
  {
    if 0 <= i < |w.plots| {
      var q := Plots.RemoveMachine(w.plots[i], m);
      var l := RemoveFirst(w.installed[i], m).0;
      assert forall x :: x in q.machines ==> x in l by {
        assert MachinesRecorded(w);
      }
      ReplacePlotKeepsValid(w, i, q, l, RemoveMachine(w, i, m).0);
    }
  }

  /** On a valid farm, a removal that finds no entry changes nothing: the plot cannot hold a
      machine its list lacks. */
  lemma RemoveMissingMachine(w: World, i: int, m: Machine)
    requires |w.installed| == |w.plots| && MachinesRecorded(w)
    ensures !RemoveMachine(w, i, m).1 ==> RemoveMachine(w, i, m).0 == w
  {
    var r := RemoveMachine(w, i, m);
    if 0 <= i < |w.plots| && !r.1 {
      assert m !in w.plots[i].machines;
      assert r.0.plots == w.plots;
    }
  }

  /** The weekly charge follows the lists: a successful installation adds exactly one entry to
      the count the machine upkeep is charged on, and a refused one adds none. */
  lemma InstallCountsForUpkeep(w: World, i: int, m: Machine)
    requires |w.installed| == |w.plots|
    ensures InstalledTotal(InstallMachine(w, i, m).0.installed)
            == InstalledTotal(w.installed) + (if InstallMachine(w, i, m).1 then 1 else 0)
  {
    if InstallMachine(w, i, m).1 {
      InstalledTotalUpdate(w.installed, i, w.installed[i] + [m]);
    }
  }

  /** A successful removal takes exactly one entry off the count the machine upkeep is
      charged on, and a removal that finds no entry takes none. */
  lemma RemoveCountsForUpkeep(w: World, i: int, m: Machine)
    requires |w.installed| == |w.plots|
    ensures InstalledTotal(RemoveMachine(w, i, m).0.installed) + (if RemoveMachine(w, i, m).1 then 1 else 0)
            == InstalledTotal(w.installed)
  {
    if 0 <= i < |w.plots| {
      var (l, found) := RemoveFirst(w.installed[i], m);
      InstalledTotalUpdate(w.installed, i, l);
    }
  }

  /** The missing duplicate check: installing a machine the plot already has still consumes
      a unit and appends a second entry to the plot's list, while the plot's set is unchanged. */
  lemma InstallTwice(w: World, i: nat, m: Machine)
    requires Valid(w) && i < |w.plots| && w.plots[i].unlocked
    requires m in w.plots[i].machines && w.inventory.Count(m) > 0
    ensures InstallMachine(w, i, m).1
    ensures InstallMachine(w, i, m).0.plots == w.plots
    ensures multiset(InstallMachine(w, i, m).0.installed[i])[m]
            == multiset(w.installed[i])[m] + 1
    ensures InstalledTotal(InstallMachine(w, i, m).0.installed) == InstalledTotal(w.installed) + 1
  {
    InstallCountsForUpkeep(w, i, m);
    assert w.plots[i].machines + {m} == w.plots[i].machines;
    assert w.plots[i := w.plots[i]] == w.plots;
  }

  // ---------------------------------------------------------------- animals

  /** `comprarAnimal`: fails with the treasury unchanged for a bad index, a full pen, a pen
      without a species or an unaffordable price. Otherwise the price is paid and one animal
      of the pen's species joins it. The refund for a pen refusing the animal is dead code:
      the guards already ensure the pen accepts its own species below capacity. */
  function BuyAnimal(w: World, k: int): (r: (World, bool))
    ensures r.1 <==> 0 <= k < |w.pens| && w.pens[k].count < Pens.Capacity
                     && w.pens[k].species.Some?
                     && w.money >= PurchasePrice(w.pens[k].species.value)
    ensures !r.1 ==> r.0 == w
    ensures |r.0.pens| == |w.pens|
    ensures r.1 ==> r.0.money == w.money - PurchasePrice(w.pens[k].species.value)
                    && r.0.pens[k].count == w.pens[k].count + 1
                    && r.0.pens[k] == w.pens[k].(count := w.pens[k].count + 1)
                    && r.0 == w.(money := r.0.money, pens := w.pens[k := r.0.pens[k]])
    ensures Valid(w) ==> Valid(r.0)
  {
    if !(0 <= k < |w.pens|) then (w, false)
    else
      var e := w.pens[k];
      if e.count >= Pens.Capacity then (w, false)
      else if e.species.None? then (w, false)
      else
        var price := PurchasePrice(e.species.value);
        var (w1, paid) := Spend(w, price);
        if !paid then (w, false)
        else
          var (e', added) := Pens.AddAnimal(e, e.species.value);
          if !added then assert false; (w, false)
          else (w1.(pens := w1.pens[k := e']), true)
  }

  /** `adicionarAnimalInicial`: a free addition, used only when building the farm. */
  function AddAnimalFree(w: World, k: int, s: Species): (r: (World, bool))
    ensures !(0 <= k < |w.pens|) ==> r == (w, false)
    ensures 0 <= k < |w.pens| ==> r.1 == Pens.AddAnimal(w.pens[k], s).1
    ensures !r.1 ==> r.0 == w
    ensures |r.0.pens| == |w.pens|
    ensures r.1 ==> r.0.money == w.money && r.0.pens[k].count == w.pens[k].count + 1
    ensures 0 <= k < |w.pens| && r.1 ==> r.0 == w.(pens := w.pens[k := Pens.AddAnimal(w.pens[k], s).0])
    ensures Valid(w) ==> Valid(r.0)
  {
    if !(0 <= k < |w.pens|) then (w, false)
    else
      var (e', added) := Pens.AddAnimal(w.pens[k], s);
      if added then (w.(pens := w.pens[k := e']), true) else (w, false)
  }

  /** A purchase raises the daily animal upkeep by exactly one rate of the pen's species. */
  lemma BuyAnimalRaisesUpkeep(w: World, k: int)
    requires BuyAnimal(w, k).1
    ensures AnimalUpkeep(BuyAnimal(w, k).0.pens)
            == AnimalUpkeep(w.pens) + DailyUpkeep(w.pens[k].species.value)
  {
    var e := w.pens[k];
    var s := e.species.value;
    AnimalUpkeepUpdate(w.pens, k, e.(count := e.count + 1));
    UpkeepGrowsByOneRate(s, e.count);
  }

  /** A free addition raises the daily animal upkeep by exactly one rate of the species
      added. */
  lemma AddAnimalRaisesUpkeep(w: World, k: int, s: Species)
    requires AddAnimalFree(w, k, s).1
    ensures AnimalUpkeep(AddAnimalFree(w, k, s).0.pens) == AnimalUpkeep(w.pens) + DailyUpkeep(s)
  {
    var e := w.pens[k];
    AnimalUpkeepUpdate(w.pens, k, Pens.AddAnimal(e, s).0);
    UpkeepGrowsByOneRate(s, e.count);
  }
}
