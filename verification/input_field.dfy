/**
 * The coercion rule of the numeric input widget: what value a keystroke
 * hands to the page, depending on the widget's type tag. The browser's
 * `parseFloat` is not modelled; its outcome is a parameter, `None` standing
 * for `NaN` (text that does not start with a number).
 */
module InputField {
  import opened Wrappers

  /** The widget's `type` prop. Any tag other than the three numeric ones
      falls into `Other`. When a caller omits the prop it is `Number`. */
  datatype InputType = Currency | Number | Percentage | Other

  /** What the widget hands to its `onChange` callback. */
  datatype Emitted = Numeric(value: real) | Text(raw: string)

  /** The parsed number, or 0 when parsing gave NaN or zero (both are falsy). */
  function ParsedOrZero(parsed: Option<real>): (r: real)
    ensures parsed.None? ==> r == 0.0
    ensures parsed.Some? ==> r == parsed.value
  {
    if parsed.Some? && parsed.value != 0.0 then parsed.value else 0.0
  }

  /** Clamps a percentage to [0, 100]: first capped at 100, then raised to 0. */
  function ClampPercent(x: real): (r: real)
    ensures 0.0 <= r <= 100.0
    ensures 0.0 <= x <= 100.0 ==> r == x
    ensures x < 0.0 ==> r == 0.0
    ensures x > 100.0 ==> r == 100.0
  {
    var upper := if 100.0 < x then 100.0 else x;
    if 0.0 < upper then upper else 0.0
  }

  /** The change handler: the value emitted for raw text `raw` whose
      `parseFloat` outcome is `parsed`. */
  function HandleChange(kind: InputType, raw: string, parsed: Option<real>): (e: Emitted)
    // currency and number fields: the parsed value, unclamped (negatives survive)
    ensures (kind == Currency || kind == Number) && parsed.Some? ==> e == Numeric(parsed.value)
    // every numeric field: unparseable text becomes 0
    ensures !kind.Other? && parsed.None? ==> e == Numeric(0.0)
    // percentage fields: always in [0, 100] ...
    ensures kind == Percentage ==> e.Numeric? && 0.0 <= e.value <= 100.0
    // ... a parsed value already in range passes through, others are clamped to the nearer bound
    ensures kind == Percentage && parsed.Some? && 0.0 <= parsed.value <= 100.0 ==> e == Numeric(parsed.value)
    ensures kind == Percentage && parsed.Some? && parsed.value < 0.0 ==> e == Numeric(0.0)
    ensures kind == Percentage && parsed.Some? && parsed.value > 100.0 ==> e == Numeric(100.0)
    // any other type tag: the raw text, untouched
    ensures kind.Other? ==> e == Text(raw)
  {
    match kind
    case Currency => Numeric(ParsedOrZero(parsed))
    case Number => Numeric(ParsedOrZero(parsed))
    case Percentage => Numeric(ClampPercent(ParsedOrZero(parsed)))
    case Other => Text(raw)
  }
}
