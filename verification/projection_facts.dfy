/**
 * What the projection promises: the shape of the snapshot sequence, the
 * bookkeeping of contributions, the lookup's last-wins semantics, the
 * per-snapshot and summary identities, and the zero-interest case.
 */
module ProjectionFacts {
  import opened Form
  import opened Projection

  // ---------------------------------------------------------------------------
  // The intermediate-contribution lookup

  /** A year is in the lookup exactly when some eligible entry names it. */
  lemma {:induction false} IntermediateMapKeys(cs: seq<Contribution>, horizon: real, k: real)
    ensures k in IntermediateMap(cs, horizon)
            <==> exists i :: 0 <= i < |cs| && Eligible(cs[i], horizon) && cs[i].year == k
  {
    if cs != [] {
      var init, last := cs[..|cs| - 1], cs[|cs| - 1];
      IntermediateMapKeys(init, horizon, k);
      if k in IntermediateMap(cs, horizon) {
        if !(Eligible(last, horizon) && last.year == k) {
          var i :| 0 <= i < |init| && Eligible(init[i], horizon) && init[i].year == k;
          assert cs[i] == init[i];
        }
      } else {
        forall i | 0 <= i < |cs| ensures !(Eligible(cs[i], horizon) && cs[i].year == k) {
          if i < |init| { assert cs[i] == init[i]; }
        }
      }
    }
  }

  /** Last wins: the amount stored for a year is that of the last eligible
      entry naming it; earlier entries for that year are overwritten, not added. */
  lemma {:induction false} IntermediateMapLastWins(cs: seq<Contribution>, horizon: real, i: int)
    requires 0 <= i < |cs| && Eligible(cs[i], horizon)
    requires forall j :: i < j < |cs| ==> !(Eligible(cs[j], horizon) && cs[j].year == cs[i].year)
    ensures cs[i].year in IntermediateMap(cs, horizon)
    ensures IntermediateMap(cs, horizon)[cs[i].year] == cs[i].amount
  {
    var init := cs[..|cs| - 1];
    if i < |cs| - 1 {
      forall j | i < j < |init| ensures !(Eligible(init[j], horizon) && init[j].year == init[i].year) {
        assert init[j] == cs[j];
      }
      IntermediateMapLastWins(init, horizon, i);
    }
  }

  /** Two eligible entries for the same year in a row: the first has no effect. */
  lemma LaterEntryOverwrites(cs: seq<Contribution>, horizon: real, first: Contribution, second: Contribution)
    requires first.year == second.year && Eligible(second, horizon)
    ensures IntermediateMap(cs + [first, second], horizon) == IntermediateMap(cs + [second], horizon)
  {
    assert (cs + [first, second])[..|cs| + 1] == cs + [first];
    assert (cs + [first])[..|cs|] == cs;
    assert (cs + [second])[..|cs|] == cs;
  }

  /** Deleting entry `i` leaves the lookup unchanged at every year other than
      that entry's, and everywhere when the entry was not eligible. */
  lemma {:induction false} RemovalKeepsOtherYears(cs: seq<Contribution>, horizon: real, i: int, k: real)
    requires 0 <= i < |cs|
    requires k != cs[i].year || !Eligible(cs[i], horizon)
    ensures var before, after := IntermediateMap(cs, horizon), IntermediateMap(cs[..i] + cs[i + 1..], horizon);
            (k in after <==> k in before) && (k in before ==> after[k] == before[k])
  {
    var init, last := cs[..|cs| - 1], cs[|cs| - 1];
    var rest := cs[..i] + cs[i + 1..];
    if i == |cs| - 1 {
      assert rest == init;
    } else {
      var initRest := init[..i] + init[i + 1..];
      assert rest[..|rest| - 1] == initRest;
      assert rest[|rest| - 1] == last;
      assert init[i] == cs[i];
      RemovalKeepsOtherYears(init, horizon, i, k);
    }
  }

  // ---------------------------------------------------------------------------
  // Months and years

  /** Each month adds the monthly contribution to the contributed total. */
  lemma {:induction false} MonthsContributed(run: Running, growth: real, monthly: real, k: nat)
    ensures Months(run, growth, monthly, k).totalContributed == run.totalContributed + k as real * monthly
  {
    if k > 0 {
      MonthsContributed(run, growth, monthly, k - 1);
      assert (k - 1) as real * monthly + monthly == k as real * monthly;
    }
  }

  /** A lump of `amount` left to grow by the factor `growth` for `k` months. */
  function Grown(amount: real, growth: real, k: nat): real
  {
    if k == 0 then amount else Grown(amount, growth, k - 1) * growth
  }

  lemma {:induction false} GrownIsPow(amount: real, growth: real, k: nat)
    ensures Grown(amount, growth, k) == amount * Pow(growth, k)
  {
    if k > 0 {
      GrownIsPow(amount, growth, k - 1);
      assert (amount * Pow(growth, k - 1)) * growth == amount * (growth * Pow(growth, k - 1));
    }
  }

  /** A lump sum added before `k` months ends up compounded `k` times, on top
      of what the balance would have grown to without it. */
  lemma {:induction false} MonthsCompoundLump(run: Running, amount: real, growth: real, monthly: real, k: nat)
    ensures Months(AddLump(run, amount), growth, monthly, k).currentValue
            == Months(run, growth, monthly, k).currentValue + Grown(amount, growth, k)
  {
    if k > 0 {
      MonthsCompoundLump(run, amount, growth, monthly, k - 1);
    }
  }

  /** One year's bookkeeping: the contributed total grows by that year's lump
      sum plus twelve monthly contributions. */
  lemma YearStep(form: FormData, y: nat)
    requires y >= 1
    ensures AfterYear(form, y).totalContributed
            == AfterYear(form, y - 1).totalContributed + Lump(Lookup(form), y) + 12.0 * form.monthlyContribution
  {
    MonthsContributed(AddLump(AfterYear(form, y - 1), Lump(Lookup(form), y)), 1.0 + MonthlyRate(form),
                      form.monthlyContribution, 12);
  }

  /** One year's growth: the year's lump sum joins the balance before the
      twelve compounding months, so it earns a full year of interest on top of
      what the balance would have reached without it. */
  lemma LumpBeforeCompounding(form: FormData, y: nat)
    requires y >= 1
    ensures AfterYear(form, y).currentValue
            == Months(AfterYear(form, y - 1), 1.0 + MonthlyRate(form), form.monthlyContribution, 12).currentValue
               + Lump(Lookup(form), y) * Pow(1.0 + MonthlyRate(form), 12)
  {
    var lump, growth := Lump(Lookup(form), y), 1.0 + MonthlyRate(form);
    MonthsCompoundLump(AfterYear(form, y - 1), lump, growth, form.monthlyContribution, 12);
    GrownIsPow(lump, growth, 12);
  }

  /** The lump sums of years 1..y. */
  function LumpTotal(m: map<real, real>, y: nat): real
  {
    if y == 0 then 0.0 else LumpTotal(m, y - 1) + Lump(m, y)
  }

  /** The contributed total after `y` years, counted without the balance: the
      initial value, then each year's lump sum and twelve monthly contributions. */
  function ContributedAfter(initial: real, lumps: map<real, real>, monthly: real, y: nat): real
  {
    if y == 0 then initial
    else ContributedAfter(initial, lumps, monthly, y - 1) + Lump(lumps, y) + 12.0 * monthly
  }

  /** The loop's contributed total is the one counted by `ContributedAfter`. */
  lemma {:induction false} ContributedTracksLoop(form: FormData, y: nat)
    ensures AfterYear(form, y).totalContributed
            == ContributedAfter(form.initialValue, Lookup(form), form.monthlyContribution, y)
  {
    if y > 0 {
      ContributedTracksLoop(form, y - 1);
      YearStep(form, y);
    }
  }

  /** `k` copies of `x`, added one at a time. */
  function Times(k: nat, x: real): real
  {
    if k == 0 then 0.0 else Times(k - 1, x) + x
  }

  lemma {:induction false} TimesIsProduct(k: nat, x: real)
    ensures Times(k, x) == k as real * x
  {
    if k > 0 {
      TimesIsProduct(k - 1, x);
      assert (k - 1) as real * x + x == k as real * x;
    }
  }

  /** The contributed total in closed form: the initial value, all lump sums so
      far, and one year's monthly contributions per year. */
  lemma {:induction false} ContributedClosedForm(initial: real, lumps: map<real, real>, monthly: real, y: nat)
    ensures ContributedAfter(initial, lumps, monthly, y)
            == initial + LumpTotal(lumps, y) + Times(y, 12.0 * monthly)
  {
    if y > 0 {
      ContributedClosedForm(initial, lumps, monthly, y - 1);
    }
  }

  /** After year y the contributed total is the initial value, plus the lump
      sums of years 1..y, plus 12·y monthly contributions. */
  lemma ContributedAfterYear(form: FormData, y: nat)
    ensures AfterYear(form, y).totalContributed
            == form.initialValue + LumpTotal(Lookup(form), y) + y as real * (12.0 * form.monthlyContribution)
  {
    var yearly := 12.0 * form.monthlyContribution;
    calc {
      AfterYear(form, y).totalContributed;
    == { ContributedTracksLoop(form, y); }
      ContributedAfter(form.initialValue, Lookup(form), form.monthlyContribution, y);
    == { ContributedClosedForm(form.initialValue, Lookup(form), form.monthlyContribution, y); }
      form.initialValue + LumpTotal(Lookup(form), y) + Times(y, yearly);
    == { TimesIsProduct(y, yearly); }
      form.initialValue + LumpTotal(Lookup(form), y) + y as real * yearly;
    }
  }

  /** With a non-negative monthly contribution the contributed total never decreases. */
  lemma {:induction false} ContributedMonotone(form: FormData, i: nat, j: nat)
    requires form.monthlyContribution >= 0.0
    requires i <= j
    ensures AfterYear(form, i).totalContributed <= AfterYear(form, j).totalContributed
  {
    if i < j {
      ContributedMonotone(form, i, j - 1);
      YearStep(form, j);
    }
  }

  // ---------------------------------------------------------------------------
  // The snapshot sequence

  lemma {:induction false} SnapshotsAt(form: FormData, k: nat, i: nat)
    requires Deflatable(form)
    requires i < k
    ensures |Snapshots(form, k)| == k
    ensures Snapshots(form, k)[i] == SnapshotAt(form, i + 1)
  {
    if i < k - 1 {
      SnapshotsAt(form, k - 1, i);
    } else if k > 1 {
      SnapshotsAt(form, k - 1, 0);
    }
  }

  /** One snapshot per year the loop visits, with years 1..N in order and no
      gaps; none at all when the horizon is below one year. */
  lemma YearlyDataShape(form: FormData)
    requires Deflatable(form)
    ensures |YearlyData(form)| == YearCount(form)
    ensures form.yearsToRetirement < 1.0 ==> YearlyData(form) == []
    ensures forall i :: 0 <= i < |YearlyData(form)| ==> YearlyData(form)[i].year == i + 1
  {
    var n := YearCount(form);
    if n > 0 {
      SnapshotsAt(form, n, 0);
    }
    forall i | 0 <= i < |YearlyData(form)| ensures YearlyData(form)[i].year == i + 1 {
      SnapshotsAt(form, n, i);
    }
  }

  /** `v / p <= v` for a non-negative value and a divisor of at least one. */
  lemma DeflatedAtMost(v: real, p: real)
    requires v >= 0.0 && p >= 1.0
    ensures v / p <= v
  {
    assert v / p * p == v;
    assert v / p >= 0.0;
    assert v - v / p == v / p * (p - 1.0);
  }

  /** Every snapshot: the gains identity, the real value as the nominal value
      deflated by (1 + inflation/100)^year, the running totals of that year,
      and real ≤ nominal when inflation and the nominal value are non-negative. */
  lemma SnapshotFacts(form: FormData, i: nat)
    requires Deflatable(form)
    requires i < |YearlyData(form)|
    ensures var s := YearlyData(form)[i];
            s.year == i + 1
            && s.gains == s.nominalValue - s.totalContributed
            && s.realValue == s.nominalValue / Pow(InflationBase(form), s.year)
            && s.nominalValue == AfterYear(form, i + 1).currentValue
            && s.totalContributed == AfterYear(form, i + 1).totalContributed
            && (form.inflationRate >= 0.0 && s.nominalValue >= 0.0 ==> s.realValue <= s.nominalValue)
  {
    YearlyDataShape(form);
    SnapshotsAt(form, YearCount(form), i);
    var s := YearlyData(form)[i];
    if form.inflationRate >= 0.0 && s.nominalValue >= 0.0 {
      DeflatedAtMost(s.nominalValue, Pow(InflationBase(form), i + 1));
    }
  }

  /** With a non-negative monthly contribution, `totalContributed` is
      non-decreasing along the snapshot sequence, and from one year to the
      next it grows by twelve monthly contributions plus that year's lump sum. */
  lemma ContributedNonDecreasing(form: FormData, i: nat, j: nat)
    requires Deflatable(form)
    requires form.monthlyContribution >= 0.0
    requires i <= j < |YearlyData(form)|
    ensures YearlyData(form)[i].totalContributed <= YearlyData(form)[j].totalContributed
    ensures j == i + 1 ==> YearlyData(form)[j].totalContributed
                           == YearlyData(form)[i].totalContributed
                              + Lump(Lookup(form), j + 1) + 12.0 * form.monthlyContribution
  {
    SnapshotFacts(form, i);
    SnapshotFacts(form, j);
    ContributedMonotone(form, i + 1, j + 1);
    YearStep(form, j + 1);
  }

  // ---------------------------------------------------------------------------
  // The summary

  /** For a whole-number horizon the integer power of the inflation base is an
      admissible deflator, so the summary is defined for every such horizon. */
  lemma WholeHorizonDeflator(form: FormData)
    requires WholeHorizon(form) && Deflatable(form)
    ensures HorizonDeflator(form, IntPow(InflationBase(form), form.yearsToRetirement.Floor))
  {
  }

  /** The summary agrees with the last snapshot (or with the initial value when
      no year is simulated), gains are final value minus contributions, the
      final real value is the final value divided by the horizon's deflator, and
      the monthly income is 4% of the final real value spread over twelve months.
      The final real value equals the last snapshot's only for a whole-number
      horizon: otherwise the two are deflated by different powers. */
  lemma SummaryFacts(form: FormData, p: real)
    requires HorizonDeflator(form, p)
    ensures var r, d := FinalResults(form, p), YearlyData(form);
            r.totalGains == r.finalNominalValue - r.totalContributed
            && r.monthlyRetirementIncome == r.finalRealValue * 0.04 / 12.0
            && r.finalRealValue * p == r.finalNominalValue
            && (|d| == 0 ==> r.finalNominalValue == form.initialValue && r.totalContributed == form.initialValue
                             && r.totalGains == 0.0)
            && (|d| > 0 ==> r.finalNominalValue == d[|d| - 1].nominalValue
                            && r.totalContributed == d[|d| - 1].totalContributed
                            && r.totalGains == d[|d| - 1].gains)
            && (|d| > 0 && WholeHorizon(form) ==> r.finalRealValue == d[|d| - 1].realValue)
  {
    YearlyDataShape(form);
    var d := YearlyData(form);
    if |d| > 0 {
      SnapshotFacts(form, |d| - 1);
    }
  }

  /** A horizon below one year: no snapshots, nothing grows, the final real
      value is the initial value deflated once by the horizon's deflator, and for
      a whole horizon of zero or fewer years it is the initial value times
      (1 + inflation/100)^-horizon. */
  lemma EmptyHorizon(form: FormData, p: real)
    requires HorizonDeflator(form, p)
    requires form.yearsToRetirement < 1.0
    ensures YearlyData(form) == []
    ensures FinalResults(form, p).finalNominalValue == form.initialValue
    ensures FinalResults(form, p).totalContributed == form.initialValue
    ensures FinalResults(form, p).totalGains == 0.0
    ensures FinalResults(form, p).finalRealValue == form.initialValue / p
    ensures WholeHorizon(form) ==>
              FinalResults(form, p).finalRealValue
              == form.initialValue * Pow(InflationBase(form), -form.yearsToRetirement.Floor)
  {
    if WholeHorizon(form) {
      var q := Pow(InflationBase(form), -form.yearsToRetirement.Floor);
      assert p * q == 1.0;
      assert form.initialValue / p == form.initialValue * q;
    }
  }

  // ---------------------------------------------------------------------------
  // Zero interest

  lemma {:induction false} ZeroRateMonths(run: Running, monthly: real, k: nat)
    ensures var r := Months(run, 1.0, monthly, k);
            r.currentValue - r.totalContributed == run.currentValue - run.totalContributed
  {
    if k > 0 {
      ZeroRateMonths(run, monthly, k - 1);
    }
  }

  /** With a zero real interest rate the portfolio is worth exactly what was put in. */
  lemma {:induction false} ZeroRateNoGains(form: FormData, y: nat)
    requires form.realInterestRate == 0.0
    ensures AfterYear(form, y).currentValue == AfterYear(form, y).totalContributed
  {
    if y > 0 {
      ZeroRateNoGains(form, y - 1);
      ZeroRateMonths(AddLump(AfterYear(form, y - 1), Lump(Lookup(form), y)), form.monthlyContribution, 12);
    }
  }

  /** With zero interest and no intermediate contributions, the nominal value
      after year y is the initial value plus 12·y monthly contributions. */
  lemma ZeroRateNominal(form: FormData, y: nat)
    requires form.realInterestRate == 0.0 && form.intermediateContributions == []
    ensures AfterYear(form, y).currentValue == form.initialValue + y as real * (12.0 * form.monthlyContribution)
    ensures Deflatable(form) && 1 <= y <= |YearlyData(form)| ==>
            YearlyData(form)[y - 1].nominalValue == form.initialValue + y as real * (12.0 * form.monthlyContribution)
  {
    ZeroRateNoGains(form, y);
    ContributedAfterYear(form, y);
    NoLumps(Lookup(form), y);
    if Deflatable(form) && 1 <= y <= |YearlyData(form)| {
      SnapshotFacts(form, y - 1);
    }
  }

  lemma {:induction false} NoLumps(m: map<real, real>, y: nat)
    requires m == map[]
    ensures LumpTotal(m, y) == 0.0
  {
    if y > 0 {
      NoLumps(m, y - 1);
    }
  }

  // ---------------------------------------------------------------------------
  // Entries that cannot matter

  /** An entry that cannot land in any simulated year: it fails the filter,
      or its year is not a whole number, or it is below one. */
  predicate Irrelevant(c: Contribution, form: FormData)
  {
    !Eligible(c, form.yearsToRetirement) || c.year != c.year.Floor as real || c.year < 1.0
  }

  lemma {:induction false} SameLumpsSameGrowth(f: FormData, g: FormData, y: nat)
    requires g == f.(intermediateContributions := g.intermediateContributions)
    requires forall k :: 1 <= k <= y ==> Lump(Lookup(f), k) == Lump(Lookup(g), k)
    ensures AfterYear(f, y) == AfterYear(g, y)
  {
    if y > 0 {
      SameLumpsSameGrowth(f, g, y - 1);
    }
  }

  lemma {:induction false} SameGrowthSameSnapshots(f: FormData, g: FormData, k: nat)
    requires Deflatable(f)
    requires g == f.(intermediateContributions := g.intermediateContributions)
    requires forall y :: 1 <= y <= k ==> AfterYear(f, y) == AfterYear(g, y)
    ensures Snapshots(f, k) == Snapshots(g, k)
  {
    if k > 0 {
      SameGrowthSameSnapshots(f, g, k - 1);
    }
  }

  /** Deleting an entry whose year is not a whole year of the horizon, or whose
      amount is not positive, changes neither the snapshots nor the summary. */
  lemma IrrelevantEntryIgnored(form: FormData, i: int, p: real)
    requires 0 <= i < |form.intermediateContributions|
    requires Irrelevant(form.intermediateContributions[i], form)
    requires Deflatable(form)
    ensures var cs := form.intermediateContributions;
            var pruned := form.(intermediateContributions := cs[..i] + cs[i + 1..]);
            YearlyData(pruned) == YearlyData(form)
            && (HorizonDeflator(form, p) ==> FinalResults(pruned, p) == FinalResults(form, p))
  {
    var cs := form.intermediateContributions;
    var pruned := form.(intermediateContributions := cs[..i] + cs[i + 1..]);
    var n := YearCount(form);
    forall k | 1 <= k <= n ensures Lump(Lookup(form), k) == Lump(Lookup(pruned), k) {
      RemovalKeepsOtherYears(cs, form.yearsToRetirement, i, k as real);
    }
    forall y | 1 <= y <= n ensures AfterYear(form, y) == AfterYear(pruned, y) {
      SameLumpsSameGrowth(form, pruned, y);
    }
    SameGrowthSameSnapshots(form, pruned, n);
    SameLumpsSameGrowth(form, pruned, n);
  }

  // ---------------------------------------------------------------------------
  // A worked example

  /** Twelve months from 10000 at 10% a year with 1000 a month, as an exact fraction. */
  lemma DefaultYearMonths()
    ensures Months(Running(10000.0, 10000.0), 1.0 + 1.0 / 120.0, 1000.0, 12).currentValue
            == 21053319406426944231253933.0 / 891610044825600000000.0
  {
    var run, g := Running(10000.0, 10000.0), 1.0 + 1.0 / 120.0;
    assert Months(run, g, 1000.0, 1).currentValue == 33250.0 / 3.0;
    assert Months(run, g, 1000.0, 2).currentValue == 438325.0 / 36.0;
    assert Months(run, g, 1000.0, 3).currentValue == 11471465.0 / 864.0;
    assert Months(run, g, 1000.0, 4).currentValue == 298345453.0 / 20736.0;
    assert Months(run, g, 1000.0, 5).currentValue == 38588119813.0 / 2488320.0;
    assert Months(run, g, 1000.0, 6).currentValue == 4967760897373.0 / 298598400.0;
    assert Months(run, g, 1000.0, 7).currentValue == 636930876582133.0 / 35831808000.0;
    assert Months(run, g, 1000.0, 8).currentValue == 81368453026438093.0 / 4299816960000.0;
    assert Months(run, g, 1000.0, 9).currentValue == 10361560851399009253.0 / 515978035200000.0;
    assert Months(run, g, 1000.0, 10).currentValue == 1315666227243280119613.0 / 61917364224000000.0;
    assert Months(run, g, 1000.0, 11).currentValue == 166625697203316894473173.0 / 7430083706880000000.0;
  }

  /** The default inputs over a one-year horizon: one snapshot for year 1, with
      22000 contributed, a nominal value between 23612 and 23613 (so gains
      between 1612 and 1613), and the real
      value equal to the nominal value divided by 1.04. */
  lemma OneYearWithDefaults()
    ensures var form := INITIAL_FORM_DATA.(yearsToRetirement := 1.0);
            var d := YearlyData(form);
            |d| == 1 && d[0].year == 1
            && d[0].totalContributed == 22000.0
            && 23612.0 < d[0].nominalValue < 23613.0
            && 1612.0 < d[0].gains < 1613.0
            && d[0].realValue == d[0].nominalValue / 1.04
  {
    var form := INITIAL_FORM_DATA.(yearsToRetirement := 1.0);
    YearlyDataShape(form);
    SnapshotFacts(form, 0);
    assert Lookup(form) == map[];
    var year1 := Months(Running(10000.0, 10000.0), 1.0 + 1.0 / 120.0, 1000.0, 12);
    assert AfterYear(form, 1) == year1;
    DefaultYearMonths();
    MonthsContributed(Running(10000.0, 10000.0), 1.0 + 1.0 / 120.0, 1000.0, 12);
  }
}
