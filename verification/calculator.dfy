/**
 * The calculator page's state and its event handlers. The page keeps four
 * pieces of state: the form record, the last summary (`null` until the first
 * calculation), the chart data and a visibility flag. Each handler is a
 * function from the old state to the new one; the calculation handler runs
 * the projection engine.
 */
module Calculator {
  import opened Wrappers
  import opened Form
  import opened Projection
  import InputField
  import ProjectionFacts

  datatype AppState = AppState(
    formData: FormData,
    results: Option<Summary>,
    chartData: seq<YearSnapshot>,
    showResults: bool)

  /** The state the page starts in. */
  const INITIAL_STATE := AppState(INITIAL_FORM_DATA, None, [], false)

  /** `handleInputChange(field, value)`: sets one scalar field of the form. */
  function HandleInputChange(s: AppState, field: Field, value: real): (r: AppState)
    ensures FieldValue(r.formData, field) == value
    ensures forall other :: other != field ==> FieldValue(r.formData, other) == FieldValue(s.formData, other)
    ensures r.formData.intermediateContributions == s.formData.intermediateContributions
    ensures r.results == s.results && r.chartData == s.chartData && r.showResults == s.showResults
  {
    var f := s.formData;
    var updated := match field
      case InitialValue => f.(initialValue := value)
      case MonthlyContribution => f.(monthlyContribution := value)
      case RealInterestRate => f.(realInterestRate := value)
      case InflationRate => f.(inflationRate := value)
      case YearsToRetirement => f.(yearsToRetirement := value);
    s.(formData := updated)
  }

  /** The state with only the contribution list replaced. */
  function WithContributions(s: AppState, cs: seq<Contribution>): AppState
  {
    s.(formData := s.formData.(intermediateContributions := cs))
  }

  /** `addIntermediateContribution()`: appends `{ year: 1, amount: 0 }`. */
  function AddIntermediateContribution(s: AppState): (r: AppState)
    ensures var before, after := s.formData.intermediateContributions, r.formData.intermediateContributions;
            |after| == |before| + 1 && after[..|before|] == before && after[|before|] == Contribution(1.0, 0.0)
    ensures r == WithContributions(s, r.formData.intermediateContributions)
  {
    WithContributions(s, s.formData.intermediateContributions + [Contribution(1.0, 0.0)])
  }

  /** A copy of the entry with one field replaced. */
  function SetContributionField(c: Contribution, field: ContributionField, value: real): Contribution
  {
    match field
    case Year => c.(year := value)
    case Amount => c.(amount := value)
  }

  /** `updateIntermediateContribution(index, field, value)`: rewrites one field
      of the entry at `index`; an index outside the list changes nothing. */
  function UpdateIntermediateContribution(s: AppState, index: int, field: ContributionField, value: real): (r: AppState)
    ensures var before, after := s.formData.intermediateContributions, r.formData.intermediateContributions;
            |after| == |before|
            && (forall j :: 0 <= j < |before| && j != index ==> after[j] == before[j])
            && (0 <= index < |before| ==>
                  ContributionFieldValue(after[index], field) == value
                  && (field == Year ==> after[index].amount == before[index].amount)
                  && (field == Amount ==> after[index].year == before[index].year))
    ensures r == WithContributions(s, r.formData.intermediateContributions)
  {
    var cs := s.formData.intermediateContributions;
    WithContributions(s, seq(|cs|, i requires 0 <= i < |cs| =>
                                 if i == index then SetContributionField(cs[i], field, value) else cs[i]))
  }

  /** The list filtered by position: every entry except the one at `index`. */
  function FilterOutIndex(cs: seq<Contribution>, index: int): (r: seq<Contribution>)
    ensures 0 <= index < |cs| ==> r == cs[..index] + cs[index + 1..]
    ensures !(0 <= index < |cs|) ==> r == cs
  {
    if cs == [] then []
    else
      var rest := FilterOutIndex(cs[1..], index - 1);
      assert 0 < index < |cs| ==> cs[1..][..index - 1] == cs[1..index] && cs[1..][index..] == cs[index + 1..];
      if index == 0 then rest else [cs[0]] + rest
  }

  /** `removeIntermediateContribution(index)`: deletes the entry at `index`,
      keeping the others in order; an index outside the list changes nothing. */
  function RemoveIntermediateContribution(s: AppState, index: int): (r: AppState)
    ensures var before, after := s.formData.intermediateContributions, r.formData.intermediateContributions;
            (0 <= index < |before| ==> after == before[..index] + before[index + 1..])
            && (!(0 <= index < |before|) ==> after == before)
    ensures r == WithContributions(s, r.formData.intermediateContributions)
  {
    WithContributions(s, FilterOutIndex(s.formData.intermediateContributions, index))
  }

  /** `resetCalculator()`: the five defaults, no contributions, no results. */
  function ResetCalculator(s: AppState): (r: AppState)
    ensures r.formData == FormData(10000.0, 1000.0, 10.0, 4.0, 30.0, [])
    ensures r.results == None && r.chartData == [] && !r.showResults
    ensures r == INITIAL_STATE
  {
    var form := FormData(INITIAL_FORM_DATA.initialValue, INITIAL_FORM_DATA.monthlyContribution,
                         INITIAL_FORM_DATA.realInterestRate, INITIAL_FORM_DATA.inflationRate,
                         INITIAL_FORM_DATA.yearsToRetirement, []);
    AppState(form, None, [], false)
  }

  /** `calculateCompoundInterest()`: runs the projection on the current form
      and shows its result. `horizonDeflator` is the browser's value of
      `Math.pow(1 + inflationRate / 100, yearsToRetirement)`. */
  method Calculate(s: AppState, horizonDeflator: real) returns (r: AppState)
    requires HorizonDeflator(s.formData, horizonDeflator)
    ensures r.formData == s.formData
    ensures r.results == Some(FinalResults(s.formData, horizonDeflator))
    ensures r.chartData == YearlyData(s.formData) && |r.chartData| == YearCount(s.formData)
    ensures r.showResults
  {
    var yearlyData, finalResults := CalculateCompoundInterest(s.formData, horizonDeflator);
    ProjectionFacts.YearlyDataShape(s.formData);
    r := s.(results := Some(finalResults), chartData := yearlyData, showResults := true);
  }

  // ---------------------------------------------------------------------------
  // The page's wiring of input widgets to handlers

  /** The widget type the page uses for each scalar field. */
  function InputKind(field: Field): InputField.InputType
  {
    match field
    case InitialValue => InputField.Currency
    case MonthlyContribution => InputField.Currency
    case RealInterestRate => InputField.Percentage
    case InflationRate => InputField.Percentage
    case YearsToRetirement => InputField.Number
  }

  /** The widget type the page uses for each contribution field. */
  function ContributionInputKind(field: ContributionField): InputField.InputType
  {
    match field
    case Year => InputField.Number
    case Amount => InputField.Currency
  }

  /** Typing into the widget of a scalar field: coerce, then set the field. */
  function OnFieldInput(s: AppState, field: Field, raw: string, parsed: Option<real>): (r: AppState)
    ensures RatesInRange(s.formData) ==> RatesInRange(r.formData)
    ensures field == RealInterestRate || field == InflationRate ==> 0.0 <= FieldValue(r.formData, field) <= 100.0
    ensures parsed.None? ==> FieldValue(r.formData, field) == 0.0
    ensures !(field == RealInterestRate || field == InflationRate) && parsed.Some? ==>
              FieldValue(r.formData, field) == parsed.value
    ensures (field == RealInterestRate || field == InflationRate) && parsed.Some? ==>
              FieldValue(r.formData, field) == InputField.ClampPercent(parsed.value)
    ensures forall other :: other != field ==> FieldValue(r.formData, other) == FieldValue(s.formData, other)
    ensures r.formData.intermediateContributions == s.formData.intermediateContributions
    ensures r.results == s.results && r.chartData == s.chartData && r.showResults == s.showResults
  {
    HandleInputChange(s, field, InputField.HandleChange(InputKind(field), raw, parsed).value)
  }

  /** Typing into the widget of a contribution field: coerce, then update that entry. */
  function OnContributionInput(s: AppState, index: int, field: ContributionField, raw: string, parsed: Option<real>): (r: AppState)
    ensures r.formData.(intermediateContributions := s.formData.intermediateContributions) == s.formData
    ensures r.results == s.results && r.chartData == s.chartData && r.showResults == s.showResults
    ensures var before, after := s.formData.intermediateContributions, r.formData.intermediateContributions;
            |after| == |before|
            && (forall j :: 0 <= j < |before| && j != index ==> after[j] == before[j])
            && (0 <= index < |before| ==>
                  (parsed.None? ==> ContributionFieldValue(after[index], field) == 0.0)
                  && (parsed.Some? ==> ContributionFieldValue(after[index], field) == parsed.value)
                  && (field == Year ==> after[index].amount == before[index].amount)
                  && (field == Amount ==> after[index].year == before[index].year))
  {
    UpdateIntermediateContribution(s, index, field, InputField.HandleChange(ContributionInputKind(field), raw, parsed).value)
  }

  /** A user action on the form. */
  datatype Event =
    | FieldInput(field: Field, raw: string, parsed: Option<real>)
    | AddEntry
    | EntryInput(index: int, entryField: ContributionField, raw: string, parsed: Option<real>)
    | RemoveEntry(index: int)
    | Reset

  function Apply(s: AppState, e: Event): AppState
  {
    match e
    case FieldInput(field, raw, parsed) => OnFieldInput(s, field, raw, parsed)
    case AddEntry => AddIntermediateContribution(s)
    case EntryInput(index, field, raw, parsed) => OnContributionInput(s, index, field, raw, parsed)
    case RemoveEntry(index) => RemoveIntermediateContribution(s, index)
    case Reset => ResetCalculator(s)
  }

  function ApplyAll(s: AppState, events: seq<Event>): AppState
    decreases events
  {
    if events == [] then s else ApplyAll(Apply(s, events[0]), events[1..])
  }

  /** Whatever the user types, both percentages stay within [0, 100], so the
      inflation base is never zero and the projection's deflation is defined. */
  lemma {:induction false} RatesStayInRange(s: AppState, events: seq<Event>)
    requires RatesInRange(s.formData)
    ensures RatesInRange(ApplyAll(s, events).formData)
    ensures Deflatable(ApplyAll(s, events).formData)
    decreases events
  {
    if events != [] {
      RatesStayInRange(Apply(s, events[0]), events[1..]);
    }
  }

  /** From the page's initial state, every sequence of form edits, entry edits and resets keeps the rates in range. */
  lemma ReachableRatesInRange(events: seq<Event>)
    ensures RatesInRange(ApplyAll(INITIAL_STATE, events).formData)
  {
    RatesStayInRange(INITIAL_STATE, events);
  }

  /** Removing the entry just added gives back the state before the addition. */
  lemma RemoveUndoesAdd(s: AppState)
    ensures RemoveIntermediateContribution(AddIntermediateContribution(s), |s.formData.intermediateContributions|) == s
  {
    var cs := s.formData.intermediateContributions;
    assert (cs + [Contribution(1.0, 0.0)])[..|cs|] == cs;
  }

  /** A reset discards every earlier action: the result does not depend on the prior state. */
  lemma ResetForgetsHistory(s: AppState, events: seq<Event>)
    ensures ApplyAll(s, events + [Reset]) == INITIAL_STATE
  {
    ApplyAllAppend(s, events, [Reset]);
  }

  lemma {:induction false} ApplyAllAppend(s: AppState, first: seq<Event>, second: seq<Event>)
    ensures ApplyAll(s, first + second) == ApplyAll(ApplyAll(s, first), second)
    decreases first
  {
    if first == [] {
      assert first + second == second;
    } else {
      assert (first + second)[1..] == first[1..] + second;
      ApplyAllAppend(Apply(s, first[0]), first[1..], second);
    }
  }
}
