/**
 Axis-label formatting of the bar chart (src/components/charts/IndicatorChart.tsx):
 large currency values are abbreviated with a magnitude suffix.
 */
module IndicatorChart {
  import opened Common
  import opened Format

  /** An axis label: a scaled value with a suffix, or the plain rendering. */
  datatype AxisLabel =
    | Billions(scaled: real)   // "<scaled, one decimal>B"
    | Millions(scaled: real)   // "<scaled, one decimal>M"
    | Thousands(scaled: real)  // "<scaled, one decimal>K"
    | Plain(text: Formatted)

  /** `formatAxisValue`: buckets are tried from the largest down, so exactly
      one applies to a currency value of at least 1000, and the scaled
      number of the M and K buckets lies in [1, 1000). */
  function FormatAxisValue(unit: Unit, v: real): (r: AxisLabel)
    ensures r.Billions? <==> unit == Currency && v >= 1000000000.0
    ensures r.Millions? <==> unit == Currency && 1000000.0 <= v < 1000000000.0
    ensures r.Thousands? <==> unit == Currency && 1000.0 <= v < 1000000.0
    ensures r.Plain? <==> unit != Currency || v < 1000.0
    ensures r.Billions? ==> r.scaled >= 1.0 && r.scaled * 1000000000.0 == v
    ensures r.Millions? ==> 1.0 <= r.scaled < 1000.0 && r.scaled * 1000000.0 == v
    ensures r.Thousands? ==> 1.0 <= r.scaled < 1000.0 && r.scaled * 1000.0 == v
    ensures r.Plain? ==> r.text == FormatValue(unit, v)
  {
    if unit == Currency && v >= 1000000000.0 then Billions(v / 1000000000.0)
    else if unit == Currency && v >= 1000000.0 then Millions(v / 1000000.0)
    else if unit == Currency && v >= 1000.0 then Thousands(v / 1000.0)
    else Plain(FormatValue(unit, v))
  }

  /** Magnitude order of the labels: plain < K < M < B. */
  function Rank(l: AxisLabel): nat {
    match l
    case Plain(_) => 0
    case Thousands(_) => 1
    case Millions(_) => 2
    case Billions(_) => 3
  }

  /** A larger currency value never gets a smaller suffix. */
  lemma AxisSuffixMonotone(a: real, b: real)
    requires a <= b
    ensures Rank(FormatAxisValue(Currency, a)) <= Rank(FormatAxisValue(Currency, b))
  {
  }
}
