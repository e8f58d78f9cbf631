/**
 Percentage change between a value and an earlier one, and its trend. Both
 cards compute it the same way: `(current - previous) / |previous| * 100`,
 guarded so that a missing or zero `previous` yields no change at all
 (src/components/dashboard/ComparisonCard.tsx, getComparison;
 src/components/dashboard/IndicatorCard.tsx, getChangePercentage).
 */
module Change {
  import opened Common

  function Abs(x: real): (r: real)
    ensures r >= 0.0 && (r == x || r == -x)
  {
    if x < 0.0 then -x else x
  }

  /** The percentage change from `previous` to `current`, when `previous`
      is truthy; no division by zero can happen. */
  function ChangePercent(current: real, previous: Option<real>): (r: Option<real>)
    ensures r.Some? <==> Truthy(previous)
    ensures r.Some? ==> r.value * Abs(previous.value) == (current - previous.value) * 100.0
  {
    if !Truthy(previous) then None
    else
      var p := previous.value;
      var change := ((current - p) / Abs(p)) * 100.0;
      assert change * Abs(p) == (current - p) * 100.0;
      Some(change)
  }

  /** Trend of a change: up when positive, down when negative. */
  function TrendOf(change: real): (t: Trend)
    ensures t == Up <==> change > 0.0
    ensures t == Down <==> change < 0.0
    ensures t == Neutral <==> change == 0.0
  {
    if change > 0.0 then Up else if change < 0.0 then Down else Neutral
  }

  /** The change determines `current` back from `previous`. */
  lemma ChangeRecoversCurrent(current: real, previous: Option<real>)
    requires Truthy(previous)
    ensures current == previous.value + ChangePercent(current, previous).value * Abs(previous.value) / 100.0
  {
    var p := previous.value;
    var c := ChangePercent(current, previous).value;
    assert c * Abs(p) == (current - p) * 100.0;
    assert c * Abs(p) / 100.0 == current - p;
  }

  /** The trend is the sign of `current - previous`, since `|previous| > 0`. */
  lemma TrendIsSignOfDifference(current: real, previous: Option<real>)
    requires Truthy(previous)
    ensures var t := TrendOf(ChangePercent(current, previous).value);
            && (t == Up <==> current > previous.value)
            && (t == Down <==> current < previous.value)
            && (t == Neutral <==> current == previous.value)
  {
    var p := previous.value;
    var c := ChangePercent(current, previous).value;
    var a := Abs(p);
    assert a > 0.0;
    assert c * a == (current - p) * 100.0;
    if c > 0.0 {
      assert c * a > 0.0;
    } else if c < 0.0 {
      assert c * a < 0.0;
    }
  }
}
