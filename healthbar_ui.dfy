/** The player's health bar: a fill whose width and colour follow the health
    fraction, and a "current / max" label. */
module HealthBar {
  import opened Common
  import opened Text
  import opened Screens

  const BarWidth: int := 200
  const BarHeight: int := 20
  const Border: int := 2
  /** The fill's full width: the bar less a border on each side. */
  const MaxWidth: real := (BarWidth - Border * 2) as real
  /** The quad is never narrower than this, even at zero health. */
  const MinWidth: real := 0.1

  datatype Band = Green | Yellow | Red

  /** The severity of a colour: green 0, yellow 1, red 2. */
  function Severity(b: Band): nat
  {
    match b
    case Green => 0
    case Yellow => 1
    case Red => 2
  }

  /** `currentHealth / maxHealth` in float arithmetic: a zero maximum gives an
      infinity of the numerator's sign (0/0 is taken as 0). */
  function Ratio(current: real, max: real): real
  {
    if max != 0.0 then current / max
    else if current > 0.0 then 1.0
    else 0.0
  }

  /** The clamp `max(0, min(1, current / max))`. */
  function Percent(current: real, max: real): real
  {
    Max(0.0, Min(1.0, Ratio(current, max)))
  }

  /** The fill width, `max(0.1, maxWidth * percent)`. */
  function Width(percent: real): real
  {
    Max(MinWidth, MaxWidth * percent)
  }

  /** Green above 0.6, yellow above 0.3, red otherwise. */
  function BandFor(percent: real): Band
  {
    if percent > 0.6 then Green else if percent > 0.3 then Yellow else Red
  }

  /** The label: both values cast to int. */
  function HealthText(current: real, max: real): string
  {
    IntToString(Truncate(current)) + " / " + IntToString(Truncate(max))
  }

  /** The percentage lies in [0, 1]; for health between 0 and a positive
      maximum it is their exact ratio, above the maximum it is full and at or
      below zero it is empty. */
  lemma PercentBounds(current: real, max: real)
    ensures 0.0 <= Percent(current, max) <= 1.0
    ensures 0.0 <= current <= max && max > 0.0 ==> Percent(current, max) == current / max
    ensures current >= max > 0.0 ==> Percent(current, max) == 1.0
    ensures current <= 0.0 < max ==> Percent(current, max) == 0.0
  {
    if max > 0.0 {
      RatioAgainstOne(current, max);
    }
  }

  /** For a positive maximum the ratio is compared with 1 as the health is with the maximum. */
  lemma RatioAgainstOne(current: real, max: real)
    requires max > 0.0
    ensures current / max <= 1.0 <==> current <= max
    ensures current / max >= 1.0 <==> current >= max
  {
    var r := current / max;
    assert r * max == current;
    assert current - max == (r - 1.0) * max;
    if r > 1.0 {
      ProductPositive(r - 1.0, max);
    } else if r < 1.0 {
      ProductPositive(1.0 - r, max);
    }
  }

  /** With a fixed positive maximum, more health never shows a shorter bar. */
  lemma PercentMonotone(c1: real, c2: real, max: real)
    requires c1 <= c2 && max > 0.0
    ensures Percent(c1, max) <= Percent(c2, max)
  {
    assert c1 / max <= c2 / max by {
      assert (c2 - c1) / max >= 0.0;
      assert c2 / max - c1 / max == (c2 - c1) / max;
    }
  }

  /** The fill lies between the minimum sliver and the full width, is exactly
      proportional above the sliver, and grows with the percentage. */
  lemma WidthProperties(p: real, q: real)
    requires 0.0 <= p <= q <= 1.0
    ensures MinWidth <= Width(p) <= MaxWidth
    ensures MaxWidth * p >= MinWidth ==> Width(p) == MaxWidth * p
    ensures Width(p) <= Width(q)
    ensures Width(1.0) == MaxWidth && Width(0.0) == MinWidth
  {
  }

  /** Exactly one colour for each percentage, getting no less severe as health
      drops, with the bands' edges where the code puts them. */
  lemma BandProperties(p: real, q: real)
    requires p <= q
    ensures Severity(BandFor(q)) <= Severity(BandFor(p))
    ensures BandFor(p) == Green <==> p > 0.6
    ensures BandFor(p) == Red <==> p <= 0.3
    ensures BandFor(p) == Yellow <==> 0.3 < p <= 0.6
  {
  }

  /** The label reads back: the number before " / " is the current health
      cast to int, the number after it the maximum. */
  lemma HealthTextReadsBack(current: real, max: real)
    ensures var t := HealthText(current, max);
      var k := RunStart(t, |t|);
      && 3 + |IntToString(Truncate(current))| == k <= |t|
      && t[k - 3..k] == " / "
      && IsIntText(t[..k - 3]) && ParseInt(t[..k - 3]) == Truncate(current)
      && IsIntText(t[k..]) && ParseInt(t[k..]) == Truncate(max)
  {
    var a := IntToString(Truncate(current));
    var b := IntToString(Truncate(max));
    IntToStringRoundTrip(Truncate(current));
    IntToStringRoundTrip(Truncate(max));
    var p := a + " / ";
    assert p + b + "" == HealthText(current, max);
    RunStartFinds(p, b, "", |p| + |b|);
    var t := HealthText(current, max);
    assert t[..|p| - 3] == a;
    assert t[|p|..] == b;
    assert t[|p| - 3..|p|] == " / ";
  }

  /** The state the bar's logic depends on. */
  datatype BarView = BarView(scene: Scene, percent: real, width: real, band: Band, text: string)

  /** update: the new percentage, width, colour and label. */
  function Updated(v: BarView, current: real, max: real): BarView
  {
    var p := Percent(current, max);
    v.(percent := p, width := Width(p), band := BandFor(p), text := HealthText(current, max))
  }

  /** The width and colour always agree with the percentage held. */
  predicate ViewValid(v: BarView)
  {
    && Alternates(v.scene)
    && 0.0 <= v.percent <= 1.0
    && v.width == Width(v.percent) && v.band == BandFor(v.percent)
  }

  /** Updating, showing and hiding keep the bar consistent; an update is
      independent of what was shown before. */
  lemma StepsKeepValid(v: BarView, w: BarView, current: real, max: real)
    requires ViewValid(v)
    ensures ViewValid(Updated(v, current, max))
    ensures ViewValid(v.(scene := Opened(v.scene))) && ViewValid(v.(scene := Closed(v.scene)))
    ensures w.scene == v.scene ==> Updated(w, current, max) == Updated(v, current, max)
  {
    PercentBounds(current, max);
    OpenClose(v.scene);
  }

  class HealthBarUI
  {
    var scene: Scene
    var currentHealthPercent: real
    var fillWidth: real
    var fillColour: Band
    var healthText: string

    function View(): BarView
      reads this
    {
      BarView(scene, currentHealthPercent, fillWidth, fillColour, healthText)
    }

    predicate Valid()
      reads this
    {
      ViewValid(View())
    }

    /** A full green bar labelled "100 / 100", not yet attached. */
    constructor ()
      ensures Valid() && View() == BarView(Unshown, 1.0, MaxWidth, Green, "100 / 100")
    {
      scene := Unshown;
      currentHealthPercent := 1.0;
      fillWidth := MaxWidth;
      fillColour := Green;
      healthText := "100 / 100";
    }

    method Update(current: real, max: real)
      requires Valid()
      modifies this
      ensures Valid() && View() == Updated(old(View()), current, max)
    {
      ghost var v0 := View();
      StepsKeepValid(v0, v0, current, max);
      currentHealthPercent := Max(0.0, Min(1.0, Ratio(current, max)));
      assert currentHealthPercent == Percent(current, max);
      fillWidth := Max(MinWidth, MaxWidth * currentHealthPercent);
      assert fillWidth == Width(currentHealthPercent);
      if currentHealthPercent > 0.6 {
        fillColour := Green;
      } else if currentHealthPercent > 0.3 {
        fillColour := Yellow;
      } else {
        fillColour := Red;
      }
      healthText := IntToString(Truncate(current)) + " / " + IntToString(Truncate(max));
    }

    /** show: attach unless already a child of the GUI. */
    method Show()
      requires Valid()
      modifies this
      ensures Valid() && View() == old(View()).(scene := Opened(old(scene)))
    {
      OpenClose(scene);
      scene := Opened(scene);
    }

    /** hide: detach if a child of the GUI. */
    method Hide()
      requires Valid()
      modifies this
      ensures Valid() && View() == old(View()).(scene := Closed(old(scene)))
    {
      OpenClose(scene);
      scene := Closed(scene);
    }
  }
}
