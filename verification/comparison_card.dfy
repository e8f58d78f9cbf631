/**
 The comparison card (src/components/dashboard/ComparisonCard.tsx): the
 current value with a "not applicable" guard, and one row per available
 comparison (previous quarter, same quarter last year) with its change,
 trend icon and trend colour.
 */
module ComparisonCard {
  import opened Common
  import opened Change

  /** A JavaScript number slot that may also hold `undefined`, `null` or NaN. */
  datatype JsNumber = Undefined | Null | NaN | Num(value: real)

  /** What the card prints for a value. */
  datatype CardValue =
    | NotApplicable            // "N/A"
    | MillionsText(millions: real)  // "<millions, one decimal> milhões"
    | PercentText(amount: real)     // "<two decimals>%"
    | RatioText(amount: real)       // "<two decimals>"

  /** `formatValue`: null, undefined and NaN print "N/A" for every unit; a
      currency amount is printed in millions. */
  function FormatCardValue(unit: Unit, v: JsNumber): (r: CardValue)
    ensures r.NotApplicable? <==> !v.Num?
    ensures v.Num? && unit == Currency ==> r.MillionsText? && r.millions * 1000000.0 == v.value
    ensures v.Num? && unit == Percentage ==> r == PercentText(v.value)
    ensures v.Num? && unit == Ratio ==> r == RatioText(v.value)
  {
    match v
    case Num(x) =>
      (match unit
       case Currency => MillionsText(x / 1000000.0)
       case Percentage => PercentText(x)
       case Ratio => RatioText(x))
    case _ => NotApplicable
  }

  /** A comparison row's content: the change (printed with one decimal) and its trend. */
  datatype CardComparison = CardComparison(percentage: real, trend: Trend)

  /** `getComparison(current, previous)`: absent exactly when `previous` is
      missing or zero; otherwise the percentage change, trending up exactly
      when `current` exceeds `previous` and down exactly when it is below. */
  function GetCardComparison(current: real, previous: Option<real>): (r: Option<CardComparison>)
    ensures r.Some? <==> Truthy(previous)
    ensures r.Some? ==> ChangePercent(current, previous) == Some(r.value.percentage)
    ensures r.Some? ==> (r.value.trend == Up <==> current > previous.value)
    ensures r.Some? ==> (r.value.trend == Down <==> current < previous.value)
    ensures r.Some? ==> (r.value.trend == Neutral <==> current == previous.value)
  {
    match ChangePercent(current, previous)
    case None => None
    case Some(change) =>
      TrendIsSignOfDifference(current, previous);
      Some(CardComparison(change, TrendOf(change)))
  }

  /** `getTrendColor`: a distinct class for each trend. */
  function TrendColor(t: Trend): (c: string)
    ensures c == "text-success" <==> t == Up
    ensures c == "text-destructive" <==> t == Down
    ensures c == "text-primary" <==> t == Neutral
  {
    match t
    case Up => "text-success"
    case Down => "text-destructive"
    case Neutral => "text-primary"
  }

  datatype Icon = TrendingUpIcon | TrendingDownIcon | MinusIcon

  /** An icon together with its colour class. */
  datatype TrendMark = TrendMark(icon: Icon, colorClass: string)

  /** `getTrendIcon`: the icon is painted in the same colour as the row text. */
  function TrendIcon(t: Trend): (m: TrendMark)
    ensures m.colorClass == TrendColor(t)
    ensures m.icon == TrendingUpIcon <==> t == Up
    ensures m.icon == TrendingDownIcon <==> t == Down
  {
    match t
    case Up => TrendMark(TrendingUpIcon, "text-success")
    case Down => TrendMark(TrendingDownIcon, "text-destructive")
    case Neutral => TrendMark(MinusIcon, "text-primary")
  }

  /** One rendered comparison row. */
  datatype Row = Row(percentage: real, colorClass: string, mark: TrendMark)

  /** The card as rendered. */
  datatype View = View(currentText: CardValue, quarterRow: Option<Row>, yearRow: Option<Row>)

  function RowOf(c: CardComparison): Row {
    Row(c.percentage, TrendColor(c.trend), TrendIcon(c.trend))
  }

  /** The card: each row is computed independently and shown only when its
      comparison exists, i.e. when its reference value is truthy. */
  function Render(unit: Unit, current: real, previousQuarter: Option<real>, sameQuarterLastYear: Option<real>): (v: View)
    ensures v.currentText == FormatCardValue(unit, Num(current))
    ensures v.quarterRow.Some? <==> Truthy(previousQuarter)
    ensures v.yearRow.Some? <==> Truthy(sameQuarterLastYear)
    ensures v.quarterRow.Some? ==> v.quarterRow.value == RowOf(GetCardComparison(current, previousQuarter).value)
    ensures v.yearRow.Some? ==> v.yearRow.value == RowOf(GetCardComparison(current, sameQuarterLastYear).value)
  {
    var q := GetCardComparison(current, previousQuarter);
    var y := GetCardComparison(current, sameQuarterLastYear);
    View(FormatCardValue(unit, Num(current)),
         if q.Some? then Some(RowOf(q.value)) else None,
         if y.Some? then Some(RowOf(y.value)) else None)
  }

  /** The quarter row does not depend on the year reference, and vice versa. */
  lemma RowsAreIndependent(unit: Unit, current: real, q1: Option<real>, q2: Option<real>, y1: Option<real>, y2: Option<real>)
    ensures Render(unit, current, q1, y1).quarterRow == Render(unit, current, q1, y2).quarterRow
    ensures Render(unit, current, q1, y1).yearRow == Render(unit, current, q2, y1).yearRow
  {
  }
}
