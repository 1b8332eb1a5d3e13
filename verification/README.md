# Compound-interest retirement calculator — a verified Dafny model

This project models the computational core of a browser-based retirement
calculator. The user enters five values and an optional list of one-off
contributions:

- a starting balance;
- a monthly contribution;
- a real annual interest rate, in percent;
- an annual inflation rate, in percent;
- the number of years to retirement.

The page then projects the portfolio year by year:

- each year's lump sum is added first;
- twelve months of `value = value·(1 + rate/100/12) + monthly` follow;
- the year's value is deflated by `(1 + inflation/100)^year`.

It also derives a summary: final nominal and real values, total contributed,
total gains, and a monthly income under the 4% withdrawal rule.

The model is split by concern:

- `Form` (form.dfy): the form record, the contribution entries and the reset defaults.
- `InputField` (input_field.dfy): how the numeric input widget coerces typed text.
  Unparseable text becomes 0. Percentages are clamped to [0, 100]. The outcome of
  the browser's `parseFloat` is a parameter, `None` standing for `NaN`.
- `Projection` (projection.dfy): the engine. Pure specification functions describe
  the result year by year. `CalculateCompoundInterest` is the engine's loop; its
  postcondition says it produces exactly `YearlyData(form)` and `FinalResults(form, horizonDeflator)`.
  The year→amount lookup is filled by `BuildIntermediateMap`, a loop over the entries.
- `ProjectionFacts` (projection_facts.dfy): lemmas about those functions.
- `Calculator` (calculator.dfy): the page state (form, results, chart data,
  visibility flag) and each event handler as a function from old state to new state.
  The "calculate" handler is a method that calls the engine.

All JavaScript numbers are exact `real`s. The properties proved are algebraic and
hold exactly.

With the default inputs over one year, the loop
(`src/components/CompoundInterestCalculator.jsx:110-113`) gives a nominal value of
23612.70 to two decimals; `OneYearWithDefaults` proves the exact value lies between
23612 and 23613.

The browser's `Math.pow(1 + inflation/100, yearsToRetirement)`, the divisor of the
final real value, is a parameter of the engine, as `parseFloat` is of the input
widget. `HorizonDeflator` says what is known of it: it is non-zero, positive for a
positive base, and for a whole-number horizon it equals the integer power. So the
snapshots, the final nominal value, the contributions and the gains are modelled
for every horizon, fractional ones included.

## Model

| member | source | states |
|---|---|---|
| `Form.DefaultsInRange` | src/components/CompoundInterestCalculator.jsx:12-19 | `INITIAL_FORM_DATA` is the page's `initialFormData` — 10000 to start, 1000 a month, 10% real interest, 4% inflation, 30 years, no lump sums — and both its rates lie in [0,100]; `Calculator.ReachableRatesInRange` starts from it |
| `InputField.ParsedOrZero` | src/components/InputField.jsx:8 | `parseFloat(x) \|\| 0`: an unparseable input (NaN) yields 0; any parsed number is passed on |
| `InputField.ClampPercent` | src/components/InputField.jsx:12 | the result is in [0,100]; values in range are unchanged, below 0 become 0, above 100 become 100 |
| `InputField.HandleChange` | src/components/InputField.jsx:4-16 | currency/number emit the parsed value unclamped (negatives survive); all numeric types emit 0 for unparseable input; percentage output always lies in [0,100], in-range values pass through, others clamp to the nearer bound; any other type tag emits the raw text unchanged |
| `Projection.YearCount` | src/components/CompoundInterestCalculator.jsx:100 | the loop `year = 1 .. year <= yearsToRetirement` visits exactly ⌊horizon⌋ years, none when the horizon is below 1 |
| `Projection.InflationBase` | src/components/CompoundInterestCalculator.jsx:116 | `1 + inflation/100` is non-zero unless inflation is -100, and at least 1 for non-negative inflation |
| `Projection.Pow` | src/components/CompoundInterestCalculator.jsx:116 | `Math.pow(b, k)` for natural k is non-zero for non-zero b and at least 1 for b ≥ 1 |
| `Projection.IntPow` | src/components/CompoundInterestCalculator.jsx:129 | `Math.pow(b, e)` for an integer exponent is non-zero and equals `Pow` for e ≥ 0 |
| `Projection.IntermediateMap` | src/components/CompoundInterestCalculator.jsx:93-98 | every stored year is within the horizon and every stored amount is positive |
| `Projection.AfterYear` | src/components/CompoundInterestCalculator.jsx:89-113 | the two running totals after y years (lump sum first, then twelve months); the contributed total never falls below the initial value for a non-negative monthly contribution; `YearStep`, `LumpBeforeCompounding`, `ContributedAfterYear` and `ZeroRateNoGains` describe it further |
| `Projection.YearlyData` | src/components/CompoundInterestCalculator.jsx:100-125 | the chart data: one snapshot per visited year, ⌊horizon⌋ of them and none below one year; `YearlyDataShape` and `SnapshotFacts` give each snapshot's year and values |
| `Projection.FinalResults` | src/components/CompoundInterestCalculator.jsx:127-133 | the summary: gains = final value − contributed, final real value × the horizon's `Math.pow` = final value, income = real value·0.04/12; `SummaryFacts` ties it to the last snapshot |
| `Projection.BuildIntermediateMap` | src/components/CompoundInterestCalculator.jsx:93-98 | the `forEach` loop yields exactly the lookup `IntermediateMap` specifies |
| `Projection.CompoundYear` | src/components/CompoundInterestCalculator.jsx:110-113 | the 12-month loop yields exactly twelve `MonthStep`s of both running totals |
| `Projection.CalculateCompoundInterest` | src/components/CompoundInterestCalculator.jsx:86-133 | for any horizon, the engine's loop emits exactly the specified snapshot sequence, and the summary built from the final totals and the given `Math.pow` of the horizon |
| `ProjectionFacts.IntermediateMapKeys` | src/components/CompoundInterestCalculator.jsx:93-98 | a year is in the lookup iff some entry with that year has `year <= horizon` and `amount > 0` |
| `ProjectionFacts.IntermediateMapLastWins` | src/components/CompoundInterestCalculator.jsx:94-97 | the stored amount for a year is that of the last eligible entry naming it (overwrite, not sum) |
| `ProjectionFacts.LaterEntryOverwrites` | src/components/CompoundInterestCalculator.jsx:96 | two consecutive entries for the same year, the second eligible: the first has no effect on the lookup |
| `ProjectionFacts.RemovalKeepsOtherYears` | src/components/CompoundInterestCalculator.jsx:93-98 | deleting one entry leaves the lookup unchanged at every other year, and everywhere if the entry was ineligible |
| `ProjectionFacts.MonthsContributed` | src/components/CompoundInterestCalculator.jsx:110-113 | k months add exactly k monthly contributions to the contributed total |
| `ProjectionFacts.GrownIsPow` | src/components/CompoundInterestCalculator.jsx:111 | compounding an amount k times by the monthly factor multiplies it by `(1+r)^k` |
| `ProjectionFacts.MonthsCompoundLump` | src/components/CompoundInterestCalculator.jsx:104-113 | a lump added before k months contributes its k-times-compounded amount on top of the balance without it |
| `ProjectionFacts.YearStep` | src/components/CompoundInterestCalculator.jsx:104-113 | each year the contributed total grows by that year's lump sum plus 12 monthly contributions |
| `ProjectionFacts.LumpBeforeCompounding` | src/components/CompoundInterestCalculator.jsx:103-113 | a year's lump sum is applied before its 12 compounding months, so it earns a full `(1+r)^12` |
| `ProjectionFacts.ContributedTracksLoop` | src/components/CompoundInterestCalculator.jsx:90-113 | the loop's contributed total after year y equals the count of the initial value plus each year's lump sum and twelve monthly contributions |
| `ProjectionFacts.ContributedClosedForm` | src/components/CompoundInterestCalculator.jsx:90-113 | that count equals the initial value + the lump sums of years 1..y + y years of 12 monthly contributions |
| `ProjectionFacts.ContributedAfterYear` | src/components/CompoundInterestCalculator.jsx:90-113 | after year y, contributed = initial value + lump sums of years 1..y + 12·y·monthly |
| `ProjectionFacts.ContributedMonotone` | src/components/CompoundInterestCalculator.jsx:106-112 | with a non-negative monthly contribution the contributed total never decreases from year to year |
| `ProjectionFacts.YearlyDataShape` | src/components/CompoundInterestCalculator.jsx:100-125 | one snapshot per visited year, years 1..N ascending with no gaps; empty when the horizon is below one year |
| `ProjectionFacts.SnapshotFacts` | src/components/CompoundInterestCalculator.jsx:116-124 | every snapshot: gains = nominal − contributed, real = nominal / (1+infl/100)^year, the year's running totals, and real ≤ nominal for infl ≥ 0 and nominal ≥ 0 |
| `ProjectionFacts.ContributedNonDecreasing` | src/components/CompoundInterestCalculator.jsx:104-122 | with non-negative monthly contribution, snapshot contributions are non-decreasing, and consecutive ones differ by lump + 12·monthly |
| `ProjectionFacts.WholeHorizonDeflator` | src/components/CompoundInterestCalculator.jsx:129 | for a whole-number horizon the integer power of `1 + inflation/100` meets every condition on the deflator |
| `ProjectionFacts.SummaryFacts` | src/components/CompoundInterestCalculator.jsx:127-133 | the summary matches the last snapshot (or the initial value without years); gains = final − contributed; final real value × deflator = final value; income = real·0.04/12; the final real value equals the last snapshot's only for a whole horizon |
| `ProjectionFacts.EmptyHorizon` | src/components/CompoundInterestCalculator.jsx:127-133 | horizon below one year: no snapshots, final value and contributions equal the initial value, zero gains, real value = initial / deflator, and = initial·(1+infl/100)^−horizon for a whole horizon ≤ 0 |
| `ProjectionFacts.ZeroRateNoGains` | src/components/CompoundInterestCalculator.jsx:87-113 | with a zero interest rate the nominal value always equals the contributed total |
| `ProjectionFacts.ZeroRateNominal` | src/components/CompoundInterestCalculator.jsx:87-113 | zero rate and no contributions: nominal after year y = initial + 12·y·monthly |
| `ProjectionFacts.IrrelevantEntryIgnored` | src/components/CompoundInterestCalculator.jsx:95-107 | deleting an entry with non-positive amount, or a year that is not a whole number in 1..horizon, changes neither snapshots nor summary |
| `ProjectionFacts.OneYearWithDefaults` | src/components/CompoundInterestCalculator.jsx:100-124 | defaults over one year: one snapshot, 22000 contributed, nominal in (23612, 23613), gains in (1612, 1613), real = nominal/1.04 |
| `Calculator.HandleInputChange` | src/components/CompoundInterestCalculator.jsx:27-32 | only the named field takes the new value; other fields, the contribution list and the results are unchanged |
| `Calculator.AddIntermediateContribution` | src/components/CompoundInterestCalculator.jsx:34-42 | appends `{year: 1, amount: 0}` and keeps earlier entries and everything else |
| `Calculator.UpdateIntermediateContribution` | src/components/CompoundInterestCalculator.jsx:44-51 | only field f of entry i changes; other entries, the other field and everything else are unchanged; out-of-range index changes nothing |
| `Calculator.FilterOutIndex` | src/components/CompoundInterestCalculator.jsx:56 | filtering out index i yields the list without entry i, order preserved; an out-of-range index returns the list |
| `Calculator.RemoveIntermediateContribution` | src/components/CompoundInterestCalculator.jsx:53-58 | deletes only entry i and keeps the rest in order; nothing else changes |
| `Calculator.ResetCalculator` | src/components/CompoundInterestCalculator.jsx:60-75 | restores 10000, 1000, 10, 4, 30 with no contributions, no results, empty chart data, results hidden; equals the initial page state |
| `Calculator.Calculate` | src/components/CompoundInterestCalculator.jsx:77-138 | for any horizon: keeps the form, stores the engine's summary and snapshots (one per visited year), and shows results |
| `Calculator.OnFieldInput` | src/components/CompoundInterestCalculator.jsx:171-203 | only the typed field changes; a rate field takes the parsed value clamped to [0,100], so both rates stay in range; a currency or number field takes the parsed value; unparseable input sets the field to 0; the list and results are unchanged |
| `Calculator.OnContributionInput` | src/components/CompoundInterestCalculator.jsx:228-243 | only the typed field of entry i changes: it takes the parsed value, or 0 when unparseable; other entries, the entry's other field, the scalar fields and the results are unchanged |
| `Calculator.RatesStayInRange` | src/components/InputField.jsx:10-12 | after any sequence of form edits, entry edits and resets the rates stay in [0,100], so the inflation base is never zero |
| `Calculator.ReachableRatesInRange` | src/components/CompoundInterestCalculator.jsx:12-25 | from the page's initial state every sequence of form edits, entry edits and resets keeps the rates in [0,100] |
| `Calculator.RemoveUndoesAdd` | src/components/CompoundInterestCalculator.jsx:34-58 | removing the entry just appended restores the previous state |
| `Calculator.ResetForgetsHistory` | src/components/CompoundInterestCalculator.jsx:60-75 | any sequence of form edits, entry edits and resets followed by a reset ends in the initial state |

## Left out

- IEEE-754 floating point: all arithmetic is exact `real`. Rounding, `Infinity` and `NaN` propagation are not modelled.
- `Projection.FinalResults`, `Projection.CalculateCompoundInterest`, `Calculator.Calculate`: `Math.pow` with a non-integer exponent (a horizon such as 2.5) has no exact model here, so its value is a parameter. For such a horizon only the final real value and the monthly income depend on it, and the model knows no more of it than `HorizonDeflator` states.
- `Projection.CalculateCompoundInterest`, `Projection.YearlyData`, `Calculator.Calculate`: require an inflation rate other than -100. JavaScript divides by zero there and yields `Infinity`/`NaN`. `Calculator.RatesStayInRange` shows the page's inputs never reach that value.
- The "Calcular" click is not one of the `Calculator.Event`s. It leaves the form unchanged (`Calculator.Calculate`), so the lemmas over event sequences also hold with clicks interleaved.
- `Projection.CalculateCompoundInterest`: the 12-month inner loop is the separate method `CompoundYear`, called from the yearly loop. Its behaviour is unchanged.
- `parseFloat` string parsing: a foreign call, modelled as a given `Option<real>`. `parseFloat` results of `±Infinity` are not modelled.
- `handleInputChange` with a field name other than the five scalar fields: the page never makes such a call, so `Form.Field` names only those five.
- The `formatValue` display path of the input widget (`toLocaleString`), the result cards and the charts: presentation and locale formatting only.
- React hook plumbing, JSX rendering, animation and icons: UI only. Each `setState` is modelled as producing the next `AppState` value.
- The last-wins handling of two entries for the same year is modelled as written. Summing them instead would be a product decision.
