/**
 * The calculator's form record: the five scalar inputs and the list of
 * one-off intermediate contributions, as the page keeps them in its state.
 * Every JavaScript number is modelled as an exact `real`.
 */
module Form {

  /** One scheduled lump sum: `{ year, amount }`. The year is whatever the
      numeric input produced, so it need not be a whole number. */
  datatype Contribution = Contribution(year: real, amount: real)

  datatype FormData = FormData(
    initialValue: real,
    monthlyContribution: real,
    realInterestRate: real,
    inflationRate: real,
    yearsToRetirement: real,
    intermediateContributions: seq<Contribution>)

  /** The five scalar fields that `handleInputChange` can be asked to set. */
  datatype Field = InitialValue | MonthlyContribution | RealInterestRate | InflationRate | YearsToRetirement

  /** The two fields of a contribution that `updateIntermediateContribution` can set. */
  datatype ContributionField = Year | Amount

  /** Reads one scalar field of the form. */
  function FieldValue(form: FormData, field: Field): real
  {
    match field
    case InitialValue => form.initialValue
    case MonthlyContribution => form.monthlyContribution
    case RealInterestRate => form.realInterestRate
    case InflationRate => form.inflationRate
    case YearsToRetirement => form.yearsToRetirement
  }

  /** Reads one field of a contribution. */
  function ContributionFieldValue(c: Contribution, field: ContributionField): real
  {
    match field
    case Year => c.year
    case Amount => c.amount
  }

  /** The defaults the page starts from and that a reset restores. */
  const INITIAL_FORM_DATA := FormData(10000.0, 1000.0, 10.0, 4.0, 30.0, [])

  /** Both percentage fields lie in [0, 100], as the percentage input clamps them. */
  predicate RatesInRange(form: FormData)
  {
    0.0 <= form.realInterestRate <= 100.0 && 0.0 <= form.inflationRate <= 100.0
  }

  /** The defaults: 10000 to start, 1000 a month, 10% real interest, 4%
      inflation, 30 years and no lump sums; both rates are in range. */
  lemma DefaultsInRange()
    ensures INITIAL_FORM_DATA == FormData(10000.0, 1000.0, 10.0, 4.0, 30.0, [])
    ensures RatesInRange(INITIAL_FORM_DATA)
  {
  }
}
