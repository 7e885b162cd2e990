/** Static tables of the game: crops, animal species, machines and the balancing constants.
    Money, time and bonuses are exact reals. */
module Catalog {

  // ---------------------------------------------------------------- constants

  /** Wall-clock seconds in one game day. */
  const SecondsPerDay: nat := 15

  /** Price of one batch of fertilizer and the number of units it contains. */
  const FertilizerBatchCost: real := 150.0
  const FertilizerBatchSize: nat := 10

  /** Growth-time reductions (fractions of the base time). */
  const IrrigatorTimeBonus: real := 0.15
  const FertilizerTimeBonus: real := 0.40
  const LevelGrowthBonus: real := 0.10

  /** Sale-value increases (fractions of the base value). */
  const IrrigatorValueBonus: real := 0.25
  const FertilizerValueBonus: real := 0.50
  const LevelValueBonus: real := 0.20

  // ---------------------------------------------------------------- crops

  datatype Crop = Alface | Cenoura | Abobora

  /** Crops in declaration order; the agent scans them in this order. */
  const Crops: seq<Crop> := [Alface, Cenoura, Abobora]

  /** Minimum plot level on which the crop may be chosen. */
  function MinLevel(c: Crop): (r: nat)
    ensures 1 <= r
  {
    match c
    case Alface => 1
    case Cenoura => 2
    case Abobora => 5
  }

  /** Game days the crop needs to ripen without bonuses. */
  function GrowthDays(c: Crop): (r: nat)
    ensures r > 0
  {
    match c
    case Alface => 2
    case Cenoura => 4
    case Abobora => 10
  }

  /** Base sale value of one harvest. */
  function BaseValue(c: Crop): (r: real)
    ensures r > 0.0
  {
    match c
    case Alface => 15.0
    case Cenoura => 40.0
    case Abobora => 150.0
  }

  /** Base growth time in seconds: whole game days at the day length. */
  function GrowthSeconds(c: Crop): (r: nat)
    ensures r > 0
    ensures r % SecondsPerDay == 0 && r / SecondsPerDay == GrowthDays(c)
  {
    GrowthDays(c) * SecondsPerDay
  }

  lemma CropsListsEveryCrop(c: Crop)
    ensures c in Crops
  {
  }

  // ---------------------------------------------------------------- animals

  datatype Species = Galinha | Ovelha | Vaca

  /** Upkeep charged per animal per game day. */
  function DailyUpkeep(s: Species): (r: real)
    ensures r > 0.0
  {
    match s
    case Galinha => 5.0
    case Ovelha => 10.0
    case Vaca => 20.0
  }

  /** Value of the product one animal yields per production cycle. */
  function ProductValue(s: Species): (r: real)
    ensures r > 0.0
  {
    match s
    case Galinha => 8.0
    case Ovelha => 25.0
    case Vaca => 50.0
  }

  /** Seconds one production cycle takes. */
  function ProductionSeconds(s: Species): (r: real)
    ensures r > 0.0
  {
    match s
    case Galinha => 30.0
    case Ovelha => 45.0
    case Vaca => 60.0
  }

  /** Price of buying one animal of the species. */
  function PurchasePrice(s: Species): (r: real)
    ensures r > 0.0
  {
    match s
    case Galinha => 100.0
    case Ovelha => 250.0
    case Vaca => 500.0
  }

  /** Daily upkeep of a herd of `n` animals of species `s`. */
  function UpkeepPerDay(s: Species, n: nat): (r: real)
    ensures r >= 0.0
    ensures n == 0 <==> r == 0.0
  {
    DailyUpkeep(s) * n as real
  }

  /** Upkeep is additive in the herd size: one more animal costs one more daily rate. */
  lemma UpkeepGrowsByOneRate(s: Species, n: nat)
    ensures UpkeepPerDay(s, n + 1) == UpkeepPerDay(s, n) + DailyUpkeep(s)
  {
  }

  // ---------------------------------------------------------------- machines

  datatype Machine = Trator | Arador | Irrigador

  /** Purchase price of a machine. */
  function MachineCost(m: Machine): (r: real)
    ensures r > 0.0
  {
    match m
    case Trator => 300.0
    case Arador => 250.0
    case Irrigador => 400.0
  }

  // ---------------------------------------------------------------- time arithmetic

  /** Elapsed time divided by a catalog duration splits over a sum of intervals. */
  lemma DivideSum(a: real, b: real, d: real)
    requires d > 0.0
    ensures (a + b) / d == a / d + b / d
  {
    var x, y := a / d, b / d;
    assert x * d == a && y * d == b;
    assert (x + y) * d == a + b;
  }
}
