/**
 * The star rating widget: one button per star, star k (counting from 1)
 * filled when k is at most the rating, the buttons disabled unless the
 * widget is interactive, and a click reporting the star's value to the
 * change handler when there is one. The rating is a real number, as in
 * JavaScript; the star count comes from an integer maximum that defaults to
 * five. Sizes and colours are presentation and are not modelled.
 */
module StarRating {
  import opened Wrappers
  import Decimal

  const DefaultMaxRating := 5
  const LabelSuffix := "星"

  /** One star button: its value, whether it is filled, whether it is disabled, and its accessible label. */
  datatype Star = Star(value: nat, filled: bool, disabled: bool, ariaLabel: string)

  /**
   * How many buttons are made for the maxRating property: five when it is
   * not given, otherwise the value itself, and none for a negative value
   * (an array length below zero counts as zero).
   */
  function StarCount(maxRating: Option<int>): (n: nat)
    ensures maxRating.None? ==> n == DefaultMaxRating
    ensures maxRating.Some? && maxRating.value >= 0 ==> n == maxRating.value
    ensures maxRating.Some? && maxRating.value < 0 ==> n == 0
  {
    match maxRating
    case None => DefaultMaxRating
    case Some(m) => if m < 0 then 0 else m
  }

  function MakeStar(value: nat, rating: real, interactive: bool): Star
  {
    Star(value, value as real <= rating, !interactive, Decimal.NatToString(value) + LabelSuffix)
  }

  /** The first n stars. */
  function StarsUpTo(n: nat, rating: real, interactive: bool): (stars: seq<Star>)
    ensures |stars| == n
    ensures forall i :: 0 <= i < n ==> stars[i] == MakeStar(i + 1, rating, interactive)
  {
    if n == 0 then [] else StarsUpTo(n - 1, rating, interactive) + [MakeStar(n, rating, interactive)]
  }

  /**
   * The widget's buttons. Star i (from 0) has value i + 1; it is filled
   * exactly when its value is at most the rating, and disabled exactly
   * when the widget is not interactive.
   */
  function Stars(rating: real, maxRating: Option<int>, interactive: bool): (stars: seq<Star>)
    ensures |stars| == StarCount(maxRating)
    ensures forall i :: 0 <= i < |stars| ==> stars[i].value == i + 1
    ensures forall i :: 0 <= i < |stars| ==> (stars[i].filled <==> (i + 1) as real <= rating)
    ensures forall i :: 0 <= i < |stars| ==> (stars[i].disabled <==> !interactive)
    ensures forall i :: 0 <= i < |stars| ==> stars[i].ariaLabel == Decimal.NatToString(i + 1) + LabelSuffix
  {
    StarsUpTo(StarCount(maxRating), rating, interactive)
  }

  /** The filled stars come first: a filled star has only filled stars before it. */
  lemma FilledStarsFormPrefix(rating: real, maxRating: Option<int>, interactive: bool, i: nat, j: nat)
    requires i < j < |Stars(rating, maxRating, interactive)|
    requires Stars(rating, maxRating, interactive)[j].filled
    ensures Stars(rating, maxRating, interactive)[i].filled
  {
  }

  function CountFilled(stars: seq<Star>): nat
  {
    if stars == [] then 0 else CountFilled(stars[..|stars| - 1]) + (if stars[|stars| - 1].filled then 1 else 0)
  }

  /** The number of filled stars out of n: the rating rounded down, kept between 0 and n. */
  lemma {:induction false} FilledCountUpTo(n: nat, rating: real, interactive: bool)
    ensures CountFilled(StarsUpTo(n, rating, interactive)) ==
      if rating.Floor < 0 then 0 else if rating.Floor > n then n else rating.Floor
  {
    if n > 0 {
      var stars := StarsUpTo(n, rating, interactive);
      assert stars[..n - 1] == StarsUpTo(n - 1, rating, interactive);
      FilledCountUpTo(n - 1, rating, interactive);
    }
  }

  /** The widget shows min(max(floor(rating), 0), star count) filled stars. */
  lemma FilledCount(rating: real, maxRating: Option<int>, interactive: bool)
    ensures var n := StarCount(maxRating);
      CountFilled(Stars(rating, maxRating, interactive)) ==
        if rating.Floor < 0 then 0 else if rating.Floor > n then n else rating.Floor
  {
    FilledCountUpTo(StarCount(maxRating), rating, interactive);
  }

  /**
   * A click on a star: the change handler gets the star's value when the
   * widget is interactive and a handler was given; otherwise nothing is
   * reported.
   */
  function Click(star: Star, interactive: bool, hasOnChange: bool): (reported: Option<nat>)
    ensures reported.Some? <==> interactive && hasOnChange
    ensures reported.Some? ==> reported.value == star.value
  {
    if interactive && hasOnChange then Some(star.value) else None
  }

  /** Every star has its own label, so a star can be found by its label. */
  lemma {:induction false} LabelsDistinct(rating: real, maxRating: Option<int>, interactive: bool, i: nat, j: nat)
    requires i < j < |Stars(rating, maxRating, interactive)|
    ensures Stars(rating, maxRating, interactive)[i].ariaLabel != Stars(rating, maxRating, interactive)[j].ariaLabel
  {
    var stars := Stars(rating, maxRating, interactive);
    var a, b := Decimal.NatToString(i + 1), Decimal.NatToString(j + 1);
    if stars[i].ariaLabel == stars[j].ariaLabel {
      assert |a| == |b|;
      assert a == stars[i].ariaLabel[..|a|] && b == stars[j].ariaLabel[..|b|];
      Decimal.NatToStringInjective(i + 1, j + 1);
    }
  }

  /**
   * The widget as used with rating 3 and the defaults: five stars, the first
   * three filled, all disabled; made interactive with a handler, the star
   * labelled "4星" reports 4.
   */
  lemma DefaultWidgetExample()
    ensures |Stars(3.0, None, false)| == 5
    ensures Stars(3.0, None, false)[0].filled && Stars(3.0, None, false)[2].filled
    ensures !Stars(3.0, None, false)[3].filled && !Stars(3.0, None, false)[4].filled
    ensures forall i :: 0 <= i < 5 ==> Stars(3.0, None, false)[i].disabled
    ensures Stars(0.0, None, true)[3].ariaLabel == "4星"
    ensures Click(Stars(0.0, None, true)[3], true, true) == Some(4)
  {
    assert Decimal.NatToString(4) == "4";
  }
}
