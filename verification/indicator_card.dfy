/**
 The indicator card (src/components/dashboard/IndicatorCard.tsx): a value,
 a trend icon and colour taken from the `trend` prop, and a change line
 relative to the previous value.
 */
module IndicatorCard {
  import opened Common
  import opened Change
  import opened Format

  /** `getChangePercentage`: absent when `previousValue` is missing or zero. */
  function GetChangePercentage(value: real, previousValue: Option<real>): (r: Option<real>)
    ensures r.Some? <==> Truthy(previousValue)
    ensures r.Some? ==> r.value * Abs(previousValue.value) == (value - previousValue.value) * 100.0
  {
    ChangePercent(value, previousValue)
  }

  datatype Icon = TrendingUpIcon | TrendingDownIcon | MinusIcon

  /** Icon and colour class of the card. */
  datatype Style = Style(icon: Icon, colorClass: string)

  /** `getTrendIcon`/`getTrendColor`: chosen from the `trend` prop alone (the
      computed change plays no part); a missing prop reads as neutral. */
  function TrendStyle(trend: Option<Trend>): (s: Style)
    ensures s.colorClass == "text-success" <==> trend == Some(Up)
    ensures s.colorClass == "text-destructive" <==> trend == Some(Down)
    ensures s.colorClass == "text-muted-foreground" <==> !(trend == Some(Up) || trend == Some(Down))
    ensures s.icon == TrendingUpIcon <==> s.colorClass == "text-success"
    ensures s.icon == TrendingDownIcon <==> s.colorClass == "text-destructive"
  {
    match trend
    case Some(Up) => Style(TrendingUpIcon, "text-success")
    case Some(Down) => Style(TrendingDownIcon, "text-destructive")
    case _ => Style(MinusIcon, "text-muted-foreground")
  }

  /** What `{previousValue && (<p>…</p>)}` puts on the page. */
  datatype ChangeArea =
    | NothingShown
    | StrayZero                               // React prints the number 0
    | ChangeLine(change: Option<real>)        // "<change>% em relação ao trimestre anterior"

  /** The change area as written: `previousValue && …` evaluates to `0`
      when the previous value is zero, and React renders that number. */
  function ChangeAreaAsWritten(value: real, previousValue: Option<real>): (a: ChangeArea)
    ensures a.StrayZero? <==> previousValue == Some(0.0)
    ensures a.ChangeLine? <==> Truthy(previousValue)
  {
    match previousValue
    case None => NothingShown
    case Some(p) => if p == 0.0 then StrayZero else ChangeLine(GetChangePercentage(value, previousValue))
  }

  /** The stray "0" is shown for every value when the previous value is zero. */
  lemma StrayZeroWhenPreviousIsZero(value: real)
    ensures ChangeAreaAsWritten(value, Some(0.0)) == StrayZero
  {
  }

  /** The change area as intended: the line exactly when the previous value
      is truthy, and then its percentage is always available. */
  function ChangeAreaOf(value: real, previousValue: Option<real>): (a: ChangeArea)
    ensures a.ChangeLine? <==> Truthy(previousValue)
    ensures !a.ChangeLine? ==> a == NothingShown
    ensures a.ChangeLine? ==> a.change.Some?
  {
    if Truthy(previousValue) then ChangeLine(GetChangePercentage(value, previousValue)) else NothingShown
  }

  /** The card as rendered. */
  datatype View = View(text: Formatted, style: Style, change: ChangeArea)

  /** The card as written: the change area is `previousValue && …`, so a
      previous value of 0 puts a stray "0" under the value. */
  function Render(unit: Unit, value: real, previousValue: Option<real>, trend: Option<Trend>): (v: View)
    ensures v.text.amount == value
    ensures v.style == TrendStyle(trend)
    ensures v.change.ChangeLine? <==> Truthy(previousValue)
    ensures v.change.ChangeLine? ==> v.change.change == GetChangePercentage(value, previousValue)
    ensures v.change.StrayZero? <==> previousValue == Some(0.0)
    ensures v.change == NothingShown <==> previousValue.None?
  {
    View(FormatValue(unit, value), TrendStyle(trend), ChangeAreaAsWritten(value, previousValue))
  }

  /** The card with the corrected change area: nothing under the value
      unless there is a usable previous value. */
  function RenderCorrected(unit: Unit, value: real, previousValue: Option<real>, trend: Option<Trend>): (v: View)
    ensures v.text.amount == value
    ensures v.style == TrendStyle(trend)
    ensures v.change.ChangeLine? <==> Truthy(previousValue)
    ensures v.change.ChangeLine? ==> v.change.change == GetChangePercentage(value, previousValue)
    ensures !v.change.ChangeLine? ==> v.change == NothingShown
  {
    View(FormatValue(unit, value), TrendStyle(trend), ChangeAreaOf(value, previousValue))
  }

  /** The two cards differ exactly on a previous value of 0. */
  lemma CorrectionOnlyAffectsZero(unit: Unit, value: real, previousValue: Option<real>, trend: Option<Trend>)
    ensures Render(unit, value, previousValue, trend) == RenderCorrected(unit, value, previousValue, trend)
            <==> previousValue != Some(0.0)
  {
  }

  /** The style ignores the values: two cards with the same `trend` prop look
      alike whatever their values are. */
  lemma StyleIgnoresValues(unit: Unit, v1: real, v2: real, p1: Option<real>, p2: Option<real>, trend: Option<Trend>)
    ensures Render(unit, v1, p1, trend).style == Render(unit, v2, p2, trend).style
  {
  }
}
