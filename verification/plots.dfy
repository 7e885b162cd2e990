/** A plot of farmland (`Solo`): its growth state machine Empty -> Growing -> Ready -> Empty,
    its sale value, and the operations the operator, the automation and the agent apply to it.
    Operations that reach the shared farm (fertilizer stock, treasury) take that component as
    a parameter and return its new value. */
module Plots {
  import opened Options
  import opened Catalog
  import Ledger

  const MaxLevel: int := 10
  /** Upgrading from level n costs n times this amount. */
  const UpgradeCostPerLevel: real := 100.0
  const UnlockCost: real := 300.0
  /** Growth time is never reduced by more than this fraction. */
  const MaxReduction: real := 0.9

  datatype Plot = Plot(
    id: nat,
    level: int,
    unlocked: bool,
    crop: Option<Crop>,
    progress: real,
    machines: set<Machine>,
    fertilizerEnabled: bool,   // the operator's toggle
    fertilizerApplied: bool)   // whether the current crop received the bonus

  predicate Occupied(p: Plot) { p.crop.Some? }

  /** `isPronto`: the growth bar is full. */
  predicate Ready(p: Plot) { p.progress >= 1.0 }

  predicate Irrigated(p: Plot) { Irrigador in p.machines }

  /** The plot invariant: level within 1..10, progress within [0,1],
      and an empty plot has no progress and no fertilizer in effect. */
  predicate Valid(p: Plot) {
    && 1 <= p.level <= MaxLevel
    && 0.0 <= p.progress <= 1.0
    && (!Occupied(p) ==> p.progress == 0.0 && !p.fertilizerApplied)
  }

  /** Fertilizer units currently in effect on the plot (0 or 1). */
  function InEffect(p: Plot): nat {
    if p.fertilizerApplied then 1 else 0
  }

  /** A freshly built plot: level 1, empty, no machines, toggle off. */
  function New(id: nat, unlocked: bool): (p: Plot)
    ensures Valid(p) && !Occupied(p) && !Ready(p)
    ensures p.id == id && p.level == 1 && p.unlocked == unlocked
    ensures p.machines == {} && !p.fertilizerEnabled
  {
    Plot(id, 1, unlocked, None, 0.0, {}, false, false)
  }

  /** `limparSolo`: removes the crop, its progress and its fertilizer flag. */
  function Clear(p: Plot): (q: Plot)
    ensures !Occupied(q) && q.progress == 0.0 && !q.fertilizerApplied
    ensures q.id == p.id && q.level == p.level && q.unlocked == p.unlocked
    ensures q.machines == p.machines && q.fertilizerEnabled == p.fertilizerEnabled
    ensures Valid(p) ==> Valid(q)
  {
    p.(crop := None, progress := 0.0, fertilizerApplied := false)
  }

  // ---------------------------------------------------------------- planting

  /** `plantar`: refused on an occupied or locked plot. On success the crop starts from zero
      and the fertilizer flag copies the toggle, without touching any stock. */
  function Plant(p: Plot, c: Crop): (r: (Plot, bool))
    ensures r.1 <==> p.unlocked && !Occupied(p)
    ensures !r.1 ==> r.0 == p
    ensures r.1 ==> r.0.crop == Some(c) && r.0.progress == 0.0 && !Ready(r.0)
    ensures r.1 ==> r.0.fertilizerApplied == p.fertilizerEnabled
    ensures r.1 ==> Clear(r.0) == Clear(p)
    ensures Valid(p) ==> Valid(r.0)
  {
    if Occupied(p) || !p.unlocked then (p, false)
    else (p.(crop := Some(c), progress := 0.0, fertilizerApplied := p.fertilizerEnabled), true)
  }

  /** What a planting is worth: the sale value and the growth time of the new crop are the
      catalog figures under the plot's level, its irrigator and its fertilizer toggle. */
  lemma PlantedWorth(p: Plot, c: Crop)
    requires p.unlocked && !Occupied(p)
    ensures SellValue(Plant(p, c).0)
            == BaseValue(c) * ValueMultiplier(p.level, Irrigated(p), p.fertilizerEnabled)
    ensures Duration(Plant(p, c).0)
            == GrowthDuration(c, p.level, Irrigated(p), p.fertilizerEnabled)
  {
    var q := Plant(p, c).0;
    assert q == p.(crop := Some(c), progress := 0.0, fertilizerApplied := p.fertilizerEnabled);
    assert Irrigated(q) == Irrigated(p);
  }

  /** `plantarSubstituindo`: on an unlocked plot, uproots whatever grows there and plants `c`. */
  function ReplacePlant(p: Plot, c: Crop): (r: (Plot, bool))
    ensures r.1 <==> p.unlocked
    ensures !r.1 ==> r.0 == p
    ensures r.1 ==> r.0.crop == Some(c) && r.0.progress == 0.0
    ensures r.1 ==> r.0.fertilizerApplied == p.fertilizerEnabled && Clear(r.0) == Clear(p)
    ensures Valid(p) ==> Valid(r.0)
  {
    if !p.unlocked then (p, false)
    else Plant(if Occupied(p) then Uproot(p) else p, c)
  }

  // ---------------------------------------------------------------- bonuses

  /** Multiplier on the base sale value: level, irrigator and fertilizer bonuses. */
  function ValueMultiplier(level: int, irrigated: bool, fertilized: bool): (r: real)
    ensures level >= 1 ==> r >= 1.0
  {
    1.0 + (level - 1) as real * LevelValueBonus
    + (if irrigated then IrrigatorValueBonus else 0.0)
    + (if fertilized then FertilizerValueBonus else 0.0)
  }

  /** Fraction by which the growth time is cut, capped at `MaxReduction`. */
  function GrowthReduction(level: int, irrigated: bool, fertilized: bool): (r: real)
    ensures r <= MaxReduction
    ensures level >= 1 ==> r >= 0.0
  {
    var raw := (if irrigated then IrrigatorTimeBonus else 0.0)
      + (if fertilized then FertilizerTimeBonus else 0.0)
      + (level - 1) as real * LevelGrowthBonus;
    if raw > MaxReduction then MaxReduction else raw
  }

  /** Effective growth time of crop `c` under the given bonuses. Whatever the bonuses,
      it is at least a tenth of the base time, so it is always positive. */
  function GrowthDuration(c: Crop, level: int, irrigated: bool, fertilized: bool): (r: real)
    ensures r >= GrowthSeconds(c) as real / 10.0
    ensures r > 0.0
    ensures level >= 1 ==> r <= GrowthSeconds(c) as real
  {
    GrowthSeconds(c) as real * (1.0 - GrowthReduction(level, irrigated, fertilized))
  }

  /** Effective growth time of the crop standing on the plot. */
  function Duration(p: Plot): (r: real)
    requires Occupied(p)
    ensures r >= GrowthSeconds(p.crop.value) as real / 10.0
  {
    GrowthDuration(p.crop.value, p.level, Irrigated(p), p.fertilizerApplied)
  }

  /** `calcularValorVenda`: nothing for an empty plot; otherwise the base value times
      1 + 0.2 per level above 1, + 0.25 with an irrigator, + 0.5 with fertilizer applied. */
  function SellValue(p: Plot): (v: real)
    ensures !Occupied(p) ==> v == 0.0
    ensures Occupied(p) && p.level >= 1 ==> v >= BaseValue(p.crop.value)
  {
    if !Occupied(p) then 0.0
    else BaseValue(p.crop.value) * ValueMultiplier(p.level, Irrigated(p), p.fertilizerApplied)
  }

  /** The sale value in the catalog's own figures: the base value times 1, plus 0.2 per level
      above 1, plus 0.25 with an irrigator, plus 0.5 with fertilizer applied. */
  lemma SellValueFormula(p: Plot)
    requires Occupied(p)
    ensures SellValue(p) == BaseValue(p.crop.value) * (1.0 + 0.2 * (p.level - 1) as real
                              + (if Irrigador in p.machines then 0.25 else 0.0)
                              + (if p.fertilizerApplied then 0.5 else 0.0))
  {
  }

  // ---------------------------------------------------------------- growth

  /** `atualizarTempo`: does nothing on an empty or ready plot; otherwise adds
      `dt / Duration` to the progress, clamped at 1. Only the progress changes, the plot
      becomes ready exactly when the remaining time has elapsed, and with `dt >= 0`
      progress never decreases and never exceeds 1. */
  function AdvanceTime(p: Plot, dt: real): (q: Plot)
    ensures !Occupied(p) || Ready(p) ==> q == p
    ensures q == p.(progress := q.progress)
    ensures Occupied(p) && !Ready(p) ==> q.progress <= 1.0
    ensures Occupied(p) && !Ready(p) ==> q.progress == Grow(p.progress, dt, Duration(p))
    ensures dt >= 0.0 ==> p.progress <= q.progress
    ensures Valid(p) && dt >= 0.0 ==> Valid(q)
  {
    if !Occupied(p) || Ready(p) then p
    else p.(progress := Grow(p.progress, dt, Duration(p)))
  }

  /** On a growing plot, an advance makes it ready exactly when `dt` covers the remaining
      fraction of the growth time; short of that, progress grows by `dt / Duration`. */
  lemma AdvanceTimeReady(p: Plot, dt: real)
    requires Occupied(p) && !Ready(p)
    ensures Ready(AdvanceTime(p, dt)) <==> dt >= (1.0 - p.progress) * Duration(p)
    ensures !Ready(AdvanceTime(p, dt)) ==>
              AdvanceTime(p, dt).progress == p.progress + dt / Duration(p)
    ensures Ready(AdvanceTime(p, dt)) ==> AdvanceTime(p, dt) == p.(progress := 1.0)
  {
    var q := AdvanceTime(p, dt);
    assert q == p.(progress := Grow(p.progress, dt, Duration(p)));
  }

  /** Progress `x` advanced by `dt` seconds of a `d`-second growth, clamped at 1: the result
      reaches 1 exactly when `dt` covers the remaining fraction of `d`. */
  function Grow(x: real, dt: real, d: real): (y: real)
    requires d > 0.0
    ensures y <= 1.0
    ensures y >= 1.0 <==> dt >= (1.0 - x) * d
    ensures y < 1.0 ==> y == x + dt / d
    ensures x <= 1.0 && dt >= 0.0 ==> x <= y
  {
    var step := dt / d;
    assert step * d == dt;
    assert (x + step) * d == x * d + dt;
    assert x + step >= 1.0 <==> (x + step) * d >= 1.0 * d;
    assert dt >= 0.0 ==> step >= 0.0 by {
      if step < 0.0 { assert step * d < 0.0 * d; }
    }
    if x + step > 1.0 then 1.0 else x + step
  }

  /** Advancing by `a` then by `b` is the same as advancing by `a + b` once:
      growth does not depend on how the elapsed time is sliced into ticks. */
  lemma AdvanceTimeSplit(p: Plot, a: real, b: real)
    requires a >= 0.0 && b >= 0.0
    ensures AdvanceTime(AdvanceTime(p, a), b) == AdvanceTime(p, a + b)
  {
    if Occupied(p) && !Ready(p) {
      DivideSum(a, b, Duration(p));
    }
  }

  // ---------------------------------------------------------------- harvest

  /** `colher`: on a ready plot, pays the sale value and leaves the plot empty;
      otherwise pays nothing and changes nothing. */
  function Harvest(p: Plot): (r: (Plot, real))
    ensures Occupied(p) && Ready(p) ==> r.1 == SellValue(p) && r.0 == Clear(p)
    ensures !(Occupied(p) && Ready(p)) ==> r.0 == p && r.1 == 0.0
    ensures Valid(p) ==> Valid(r.0) && r.1 >= 0.0
  {
    if !Ready(p) || !Occupied(p) then (p, 0.0)
    else (Clear(p), SellValue(p))
  }

  /** `arrancar`: empties the plot with no reward. The plot ends in the state a harvest
      would leave it in. */
  function Uproot(p: Plot): (q: Plot)
    ensures !Occupied(q) && q.progress == 0.0 && !q.fertilizerApplied
    ensures Occupied(p) && Ready(p) ==> q == Harvest(p).0
    ensures Valid(p) ==> Valid(q)
  {
    Clear(p)
  }

  /** Harvesting twice pays once: the second harvest finds an empty plot. */
  lemma HarvestTwice(p: Plot)
    requires Occupied(p) && Ready(p)
    ensures Harvest(p).1 == SellValue(p)
    ensures Harvest(Harvest(p).0) == (Harvest(p).0, 0.0)
  {
  }

  /** Round trip: planting on an empty valid plot, letting the full effective growth time
      pass and harvesting pays the crop's base value times the plot's multiplier, and
      returns the plot to exactly the state it was in before planting. */
  lemma PlantGrowHarvest(p: Plot, c: Crop, dt: real)
    requires Valid(p) && p.unlocked && !Occupied(p)
    requires dt >= GrowthDuration(c, p.level, Irrigated(p), p.fertilizerEnabled)
    ensures Plant(p, c).1
    ensures Ready(AdvanceTime(Plant(p, c).0, dt))
    ensures Harvest(AdvanceTime(Plant(p, c).0, dt))
            == (p, BaseValue(c) * ValueMultiplier(p.level, Irrigated(p), p.fertilizerEnabled))
  {
    var q := Plant(p, c).0;
    assert Duration(q) == GrowthDuration(c, p.level, Irrigated(p), p.fertilizerEnabled);
    assert dt >= (1.0 - q.progress) * Duration(q);
    AdvanceTimeReady(q, dt);
    HarvestRipe(p, c);
  }

  /** A crop just planted on an empty plot and brought to full growth is harvested for its
      base value times the plot's multiplier, and the plot returns to its state before
      planting. */
  lemma HarvestRipe(p: Plot, c: Crop)
    requires Valid(p) && p.unlocked && !Occupied(p)
    ensures Harvest(Plant(p, c).0.(progress := 1.0))
            == (p, BaseValue(c) * ValueMultiplier(p.level, Irrigated(p), p.fertilizerEnabled))
  {
    var g := Plant(p, c).0.(progress := 1.0);
    assert Clear(g) == p;
  }

  /** The plain scenario: a level-1 plot with no bonuses grows lettuce (value 15, 30 s)
      to half after 15 s and to ripe after another 15 s, and the harvest pays 15. */
  lemma LettuceScenario(p: Plot)
    requires Valid(p) && p.unlocked && !Occupied(p) && p.level == 1
    requires !Irrigated(p) && !p.fertilizerEnabled
    ensures AdvanceTime(Plant(p, Alface).0, 15.0).progress == 0.5
    ensures AdvanceTime(AdvanceTime(Plant(p, Alface).0, 15.0), 15.0).progress == 1.0
    ensures Harvest(AdvanceTime(AdvanceTime(Plant(p, Alface).0, 15.0), 15.0)) == (p, 15.0)
  {
    var q := Plant(p, Alface).0;
    assert Duration(q) == 30.0;
    AdvanceTimeReady(q, 15.0);
    AdvanceTimeReady(AdvanceTime(q, 15.0), 15.0);
  }

  // ---------------------------------------------------------------- fertilizer

  /** `aplicarFertilizante`: refused on an empty plot or one already fertilized; otherwise
      succeeds exactly when the shared stock has a unit, which it takes. The stock plus
      the units in effect on the plot is conserved whatever happens. */
  function ApplyFertilizer(p: Plot, stock: nat): (r: (Plot, nat, bool))
    ensures r.2 <==> Occupied(p) && !p.fertilizerApplied && stock > 0
    ensures r.2 ==> r.0 == p.(fertilizerApplied := true) && r.1 == stock - 1
    ensures !r.2 ==> r.0 == p && r.1 == stock
    ensures r.1 + InEffect(r.0) == stock + InEffect(p)
    ensures Valid(p) ==> Valid(r.0)
  {
    if !Occupied(p) || p.fertilizerApplied then (p, stock, false)
    else
      var (rest, took) := Ledger.TakeOne(stock);
      if took then (p.(fertilizerApplied := true), rest, true) else (p, stock, false)
  }

  /** Planting with the toggle on marks the crop fertilized although no unit is taken,
      so a fertilizer application right after planting is refused and takes nothing. */
  lemma PlantWithToggleTakesNoStock(p: Plot, c: Crop, stock: nat)
    requires p.unlocked && !Occupied(p) && p.fertilizerEnabled
    ensures InEffect(Plant(p, c).0) == 1
    ensures ApplyFertilizer(Plant(p, c).0, stock) == (Plant(p, c).0, stock, false)
  {
  }

  // ---------------------------------------------------------------- upgrade and unlock

  /** `upgrade`: refused at level 10 or on a locked plot; otherwise charges 100 times the
      current level from the treasury and raises the level by one, or changes nothing
      when the treasury cannot cover it. */
  function Upgrade(p: Plot, money: real): (r: (Plot, real, bool))
    ensures r.2 <==> p.level < MaxLevel && p.unlocked && money >= 100.0 * p.level as real
    ensures r.2 ==> r.0 == p.(level := p.level + 1) && r.1 == money - 100.0 * p.level as real
    ensures r.2 ==> r.1 >= 0.0
    ensures !r.2 ==> r.0 == p && r.1 == money
    ensures Valid(p) ==> Valid(r.0)
  {
    if p.level >= MaxLevel || !p.unlocked then (p, money, false)
    else
      var (rest, paid) := Ledger.Debit(money, UpgradeCostPerLevel * p.level as real);
      if paid then (p.(level := p.level + 1), rest, true) else (p, money, false)
  }

  /** An upgrade makes the standing crop worth strictly more and grow no slower. */
  lemma UpgradeImproves(p: Plot, money: real)
    requires Valid(p) && Occupied(p) && Upgrade(p, money).2
    ensures SellValue(Upgrade(p, money).0) > SellValue(p)
    ensures Duration(Upgrade(p, money).0) <= Duration(p)
  {
    LevelUpPaysMore(p);
    LevelUpGrowsFaster(p);
  }

  /** One more level adds the level bonus to the multiplier, so the sale value rises. */
  lemma LevelUpPaysMore(p: Plot)
    requires Occupied(p) && p.level >= 1
    ensures SellValue(p) < SellValue(p.(level := p.level + 1))
  {
    var q := p.(level := p.level + 1);
    var c, irr, fert := p.crop.value, Irrigated(p), p.fertilizerApplied;
    var v := ValueMultiplier(p.level, irr, fert);
    assert Irrigated(q) == irr;
    assert ValueMultiplier(q.level, irr, fert) == v + LevelValueBonus;
    ScaleGrows(BaseValue(c), v, v + LevelValueBonus);
  }

  /** One more level never lengthens the growth time. */
  lemma LevelUpGrowsFaster(p: Plot)
    requires Occupied(p) && p.level >= 1
    ensures Duration(p.(level := p.level + 1)) <= Duration(p)
  {
    var q := p.(level := p.level + 1);
    var c, irr, fert := p.crop.value, Irrigated(p), p.fertilizerApplied;
    var red := GrowthReduction(p.level, irr, fert);
    var red' := GrowthReduction(q.level, irr, fert);
    assert Irrigated(q) == irr;
    assert red <= red';
    ScaleGrows(GrowthSeconds(c) as real, 1.0 - red', 1.0 - red);
  }

  /** Scaling by a positive factor keeps the order. */
  lemma ScaleGrows(k: real, a: real, b: real)
    requires k > 0.0 && a <= b
    ensures k * a <= k * b
    ensures a < b ==> k * a < k * b
  {
  }

  /** `desbloquear`: an unlocked plot reports success at no cost; a locked one is unlocked
      for 300 when the treasury covers it, and otherwise nothing changes. */
  function Unlock(p: Plot, money: real): (r: (Plot, real, bool))
    ensures p.unlocked ==> r == (p, money, true)
    ensures !p.unlocked ==> (r.2 <==> money >= 300.0)
    ensures r.2 ==> r.0 == p.(unlocked := true)
    ensures r.2 && !p.unlocked ==> r.1 == money - 300.0 && r.1 >= 0.0
    ensures !r.2 ==> r.0 == p && r.1 == money
    ensures Valid(p) ==> Valid(r.0)
  {
    if p.unlocked then (p, money, true)
    else
      var (rest, paid) := Ledger.Debit(money, UnlockCost);
      if paid then (p.(unlocked := true), rest, true) else (p, money, false)
  }

  /** Unlocking is idempotent: a second unlock costs nothing and changes nothing. */
  lemma UnlockTwice(p: Plot, money: real)
    ensures var (q, m, _) := Unlock(p, money); Unlock(q, m).0 == q && Unlock(q, m).1 == m
  {
  }

  // ---------------------------------------------------------------- machines

  /** `instalarMaquina` on the plot: a locked plot ignores it; otherwise the machine joins
      the plot's set (installing a machine already there changes nothing). */
  function InstallMachine(p: Plot, m: Machine): (q: Plot)
    ensures p.unlocked ==> q.machines == p.machines + {m}
    ensures !p.unlocked ==> q == p
    ensures q == p.(machines := q.machines)
    ensures Valid(p) ==> Valid(q)
  {
    if !p.unlocked then p else p.(machines := p.machines + {m})
  }

  /** `removerMaquina` on the plot: the machine leaves the set, everything else stays. */
  function RemoveMachine(p: Plot, m: Machine): (q: Plot)
    ensures m !in q.machines && q.machines <= p.machines
    ensures forall x :: x in p.machines && x != m ==> x in q.machines
    ensures m !in p.machines ==> q == p
    ensures q == p.(machines := q.machines)
    ensures Valid(p) ==> Valid(q)
  {
    assert m !in p.machines ==> p.machines - {m} == p.machines;
    p.(machines := p.machines - {m})
  }

  /** Removing a machine just installed on an unlocked plot that lacked it restores the plot. */
  lemma InstallThenRemove(p: Plot, m: Machine)
    requires p.unlocked && m !in p.machines
    ensures RemoveMachine(InstallMachine(p, m), m) == p
  {
    assert InstallMachine(p, m).machines - {m} == p.machines;
  }
}
