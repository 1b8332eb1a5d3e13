/**
 * The retirement-projection engine: monthly compounding with end-of-month
 * contributions, one-off lump sums at the start of chosen years, annual
 * inflation discounting, and the summary derived from the final balance.
 *
 * The specification functions below describe the result year by year;
 * `CalculateCompoundInterest` is the engine's loop, proved to produce exactly
 * what they describe. Properties of the result are proved in ProjectionFacts.
 */
module Projection {
  import opened Form

  /** The record emitted for each simulated year. */
  datatype YearSnapshot = YearSnapshot(
    year: int,
    nominalValue: real,
    realValue: real,
    totalContributed: real,
    gains: real)

  /** The summary record computed after the last year. */
  datatype Summary = Summary(
    finalNominalValue: real,
    finalRealValue: real,
    totalContributed: real,
    totalGains: real,
    monthlyRetirementIncome: real)

  /** The two running totals of the engine's loop: `currentValue` and `totalContributed`. */
  datatype Running = Running(currentValue: real, totalContributed: real)

  // ---------------------------------------------------------------------------
  // Horizon and rates

  /** How many years the yearly loop visits: the whole numbers from 1 up to the horizon. */
  function YearCount(form: FormData): (n: nat)
    ensures n == 0 <==> form.yearsToRetirement < 1.0
    ensures n > 0 ==> n as real <= form.yearsToRetirement < n as real + 1.0
  {
    if form.yearsToRetirement < 1.0 then 0 else form.yearsToRetirement.Floor
  }

  /** The horizon is a whole number, so `Math.pow(base, yearsToRetirement)` is a power with an integer exponent. */
  predicate WholeHorizon(form: FormData)
  {
    form.yearsToRetirement == form.yearsToRetirement.Floor as real
  }

  /** The inflation base `1 + inflationRate / 100` is not zero, so deflating divides by a non-zero number. */
  predicate Deflatable(form: FormData)
  {
    form.inflationRate != -100.0
  }

  function MonthlyRate(form: FormData): real
  {
    form.realInterestRate / 100.0 / 12.0
  }

  function InflationBase(form: FormData): (b: real)
    ensures Deflatable(form) ==> b != 0.0
    ensures form.inflationRate >= 0.0 ==> b >= 1.0
  {
    1.0 + form.inflationRate / 100.0
  }

  /** `Math.pow(b, k)` for a natural exponent. */
  function Pow(b: real, k: nat): (r: real)
    ensures b != 0.0 ==> r != 0.0
    ensures b > 0.0 ==> r > 0.0
    ensures b >= 1.0 ==> r >= 1.0
  {
    if k == 0 then 1.0 else b * Pow(b, k - 1)
  }

  /** `Math.pow(b, e)` for an integer exponent: a negative one divides. */
  function IntPow(b: real, e: int): (r: real)
    requires b != 0.0
    ensures r != 0.0
    ensures b > 0.0 ==> r > 0.0
    ensures e >= 0 ==> r == Pow(b, e)
  {
    if e >= 0 then Pow(b, e) else 1.0 / Pow(b, -e)
  }

  /** What is known of `Math.pow(InflationBase(form), yearsToRetirement)`, the
      divisor of the final real value, which the caller hands in: it is not zero,
      it is positive for a positive base, and for a whole-number horizon it is
      the integer power. (A fractional exponent has no exact model here.) */
  predicate HorizonDeflator(form: FormData, p: real)
  {
    Deflatable(form)
    && p != 0.0
    && (InflationBase(form) > 0.0 ==> p > 0.0)
    && (WholeHorizon(form) ==> p == IntPow(InflationBase(form), form.yearsToRetirement.Floor))
  }

  // ---------------------------------------------------------------------------
  // The intermediate-contribution lookup

  /** The filter applied before an entry is stored in the lookup. */
  predicate Eligible(c: Contribution, horizon: real)
  {
    c.year <= horizon && c.amount > 0.0
  }

  /** The year-to-amount lookup built by visiting the entries in list order:
      an eligible entry overwrites whatever its year held before. */
  function IntermediateMap(cs: seq<Contribution>, horizon: real): (m: map<real, real>)
    ensures forall k :: k in m ==> k <= horizon && m[k] > 0.0
  {
    if cs == [] then map[]
    else
      var m := IntermediateMap(cs[..|cs| - 1], horizon);
      var c := cs[|cs| - 1];
      if Eligible(c, horizon) then m[c.year := c.amount] else m
  }

  function Lookup(form: FormData): map<real, real>
  {
    IntermediateMap(form.intermediateContributions, form.yearsToRetirement)
  }

  /** The lump sum added at the start of `year` (0 when the lookup has none). */
  function Lump(m: map<real, real>, year: int): real
  {
    if year as real in m then m[year as real] else 0.0
  }

  // ---------------------------------------------------------------------------
  // The year-by-year simulation

  /** One month: interest on the prior balance (`growth` is `1 + monthlyRate`),
      then the contribution lands. */
  function MonthStep(run: Running, growth: real, monthly: real): Running
  {
    Running(run.currentValue * growth + monthly, run.totalContributed + monthly)
  }

  /** `k` consecutive months. */
  function Months(run: Running, growth: real, monthly: real, k: nat): (r: Running)
    ensures monthly >= 0.0 ==> r.totalContributed >= run.totalContributed
  {
    if k == 0 then run else MonthStep(Months(run, growth, monthly, k - 1), growth, monthly)
  }

  /** A lump sum counts both as value and as contribution. */
  function AddLump(run: Running, amount: real): Running
  {
    Running(run.currentValue + amount, run.totalContributed + amount)
  }

  /** The running totals after `y` whole years (year 0: the initial value).
      Lump sums are positive, so with a non-negative monthly contribution the
      contributed total never falls below the initial value. */
  function AfterYear(form: FormData, y: nat): (r: Running)
    ensures form.monthlyContribution >= 0.0 ==> r.totalContributed >= form.initialValue
  {
    if y == 0 then Running(form.initialValue, form.initialValue)
    else
      var start := AddLump(AfterYear(form, y - 1), Lump(Lookup(form), y));
      Months(start, 1.0 + MonthlyRate(form), form.monthlyContribution, 12)
  }

  /** The snapshot emitted for `year`. */
  function SnapshotAt(form: FormData, year: nat): YearSnapshot
    requires Deflatable(form)
  {
    var run := AfterYear(form, year);
    YearSnapshot(year, run.currentValue, run.currentValue / Pow(InflationBase(form), year),
                 run.totalContributed, run.currentValue - run.totalContributed)
  }

  /** The snapshots of years 1..k, in order. */
  function Snapshots(form: FormData, k: nat): (r: seq<YearSnapshot>)
    requires Deflatable(form)
    ensures |r| == k
  {
    if k == 0 then [] else Snapshots(form, k - 1) + [SnapshotAt(form, k)]
  }

  /** The chart data: one snapshot per simulated year, none below one year. */
  function YearlyData(form: FormData): (d: seq<YearSnapshot>)
    requires Deflatable(form)
    ensures |d| == YearCount(form)
    ensures form.yearsToRetirement < 1.0 ==> d == []
  {
    Snapshots(form, YearCount(form))
  }

  /** The summary: final balances, gains and the 4%-rule monthly income.
      `horizonDeflator` is `Math.pow(1 + inflationRate / 100, yearsToRetirement)`. */
  function FinalResults(form: FormData, horizonDeflator: real): (r: Summary)
    requires HorizonDeflator(form, horizonDeflator)
    ensures r.totalGains == r.finalNominalValue - r.totalContributed
    ensures r.finalRealValue * horizonDeflator == r.finalNominalValue
    ensures r.monthlyRetirementIncome == r.finalRealValue * 0.04 / 12.0
  {
    var run := AfterYear(form, YearCount(form));
    var finalRealValue := run.currentValue / horizonDeflator;
    Summary(run.currentValue, finalRealValue, run.totalContributed,
            run.currentValue - run.totalContributed, finalRealValue * 0.04 / 12.0)
  }

  // ---------------------------------------------------------------------------
  // The engine

  /** Fills the lookup entry by entry, as the `forEach` over the list does. */
  method BuildIntermediateMap(cs: seq<Contribution>, horizon: real) returns (m: map<real, real>)
    ensures m == IntermediateMap(cs, horizon)
  {
    m := map[];
    for i := 0 to |cs|
      invariant m == IntermediateMap(cs[..i], horizon)
    {
      var c := cs[i];
      assert cs[..i + 1][..i] == cs[..i];
      if c.year <= horizon && c.amount > 0.0 {
        m := m[c.year := c.amount];
      }
    }
    assert cs[..|cs|] == cs;
  }

  /** The twelve monthly steps of one year. */
  method CompoundYear(value: real, contributed: real, monthlyRate: real, monthlyContribution: real)
    returns (currentValue: real, totalContributed: real)
    ensures Running(currentValue, totalContributed) == Months(Running(value, contributed), 1.0 + monthlyRate, monthlyContribution, 12)
  {
    currentValue, totalContributed := value, contributed;
    var month := 1;
    while month <= 12
      invariant 1 <= month <= 13
      invariant Running(currentValue, totalContributed) == Months(Running(value, contributed), 1.0 + monthlyRate, monthlyContribution, month - 1)
    {
      ghost var before := Running(currentValue, totalContributed);
      currentValue := currentValue * (1.0 + monthlyRate) + monthlyContribution;
      totalContributed := totalContributed + monthlyContribution;
      assert Running(currentValue, totalContributed) == MonthStep(before, 1.0 + monthlyRate, monthlyContribution);
      month := month + 1;
    }
  }

  /** The projection: yearly snapshots and the final summary. `horizonDeflator`
      is the value of `Math.pow(1 + inflationRate / 100, yearsToRetirement)`. */
  method CalculateCompoundInterest(form: FormData, horizonDeflator: real) returns (yearlyData: seq<YearSnapshot>, finalResults: Summary)
    requires HorizonDeflator(form, horizonDeflator)
    ensures yearlyData == YearlyData(form)
    ensures finalResults == FinalResults(form, horizonDeflator)
  {
    var monthlyRate := form.realInterestRate / 100.0 / 12.0;
    yearlyData := [];
    var currentValue := form.initialValue;
    var totalContributed := form.initialValue;
    var intermediateMap := BuildIntermediateMap(form.intermediateContributions, form.yearsToRetirement);

    var year := 1;
    while year as real <= form.yearsToRetirement
      invariant 1 <= year <= YearCount(form) + 1
      invariant Running(currentValue, totalContributed) == AfterYear(form, year - 1)
      invariant yearlyData == Snapshots(form, year - 1)
      decreases YearCount(form) + 1 - year
    {
      if year as real in intermediateMap {
        currentValue := currentValue + intermediateMap[year as real];
        totalContributed := totalContributed + intermediateMap[year as real];
      }
      assert Running(currentValue, totalContributed) == AddLump(AfterYear(form, year - 1), Lump(Lookup(form), year));
      currentValue, totalContributed := CompoundYear(currentValue, totalContributed, monthlyRate, form.monthlyContribution);
      assert Running(currentValue, totalContributed) == AfterYear(form, year);
      var inflationAdjustedValue := currentValue / Pow(1.0 + form.inflationRate / 100.0, year);
      yearlyData := yearlyData + [YearSnapshot(year, currentValue, inflationAdjustedValue,
                                               totalContributed, currentValue - totalContributed)];
      year := year + 1;
    }

    finalResults := Summary(currentValue, currentValue / horizonDeflator, totalContributed,
                            currentValue - totalContributed, (currentValue / horizonDeflator) * 0.04 / 12.0);
  }
}
