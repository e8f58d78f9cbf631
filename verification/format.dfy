/**
 Display formatting, modelled as the choice of a rendering and the number it
 renders rather than as exact locale-dependent text.
 */
module Format {
  import opened Common

  /** A number rendered for display. */
  datatype Formatted =
    | Brl(amount: real)       // pt-BR currency, no decimals ("R$ 1.234")
    | Percent2(amount: real)  // two decimals and a trailing "%"
    | Fixed2(amount: real)    // two decimals

  /** `formatValue` of the chart and of the indicator card: the rendering is
      chosen by the unit alone and renders the value unscaled. */
  function FormatValue(unit: Unit, v: real): (r: Formatted)
    ensures r.amount == v
    ensures r.Brl? <==> unit == Currency
    ensures r.Percent2? <==> unit == Percentage
    ensures r.Fixed2? <==> unit == Ratio
  {
    match unit
    case Currency => Brl(v)
    case Percentage => Percent2(v)
    case Ratio => Fixed2(v)
  }
}
