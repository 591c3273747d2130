/** The arithmetic that every dashboard view repeats: integer percentages
    rounded with Math.round, values rounded to two decimals, and the
    threshold labels put on a pass rate or a trend. */
module Rates {

  /** `total > 0 ? Math.round((part / total) * 100) : 0`, computed exactly:
      Math.round rounds halves upwards, so the result is
      floor(100 * part / total + 1/2) = (200 * part + total) / (2 * total). */
  function Percent(part: nat, total: nat): (r: nat)
    ensures total == 0 ==> r == 0
    ensures total > 0 ==> 2 * total * r <= 200 * part + total < 2 * total * (r + 1)
    ensures part <= total ==> r <= 100
  {
    if total == 0 then 0
    else
      var r := (200 * part + total) / (2 * total);
      PercentBound(part, total, r);
      r
  }

  lemma PercentBound(part: nat, total: nat, r: nat)
    requires total > 0
    requires 2 * total * r <= 200 * part + total
    ensures part <= total ==> r <= 100
  {
    if part <= total && r > 100 {
      assert 2 * total * r >= 2 * total * 101 by {
        MultiplyMonotone(2 * total, 101, r);
      }
    }
  }

  lemma MultiplyMonotone(k: nat, a: int, b: int)
    requires a <= b
    ensures k * a <= k * b
  {
  }

  lemma PercentExtremes(total: nat)
    requires total > 0
    ensures Percent(total, total) == 100
    ensures Percent(0, total) == 0
  {
    var r := Percent(total, total);
    if r < 100 {
      MultiplyMonotone(2 * total, r + 1, 100);
    }
    var z := Percent(0, total);
    if z > 0 {
      MultiplyMonotone(2 * total, 1, z);
    }
  }

  /** The three percentages of a three-way split of a total add up to 100, give or take one. */
  lemma PercentsOfSplit(a: nat, b: nat, c: nat)
    requires a + b + c > 0
    ensures var t := a + b + c;
      99 <= Percent(a, t) + Percent(b, t) + Percent(c, t) <= 101
  {
    var t := a + b + c;
    var k := 2 * t;
    var ra, rb, rc := Percent(a, t), Percent(b, t), Percent(c, t);
    var sum := ra + rb + rc;
    assert k * ra <= 200 * a + t && k * rb <= 200 * b + t && k * rc <= 200 * c + t;
    assert 200 * a + t < k * (ra + 1) && 200 * b + t < k * (rb + 1) && 200 * c + t < k * (rc + 1);
    assert k * sum == k * ra + k * rb + k * rc by {
      Distribute(k, ra, rb, rc);
    }
    assert k * (sum + 3) == k * (ra + 1) + k * (rb + 1) + k * (rc + 1) by {
      Distribute(k, ra + 1, rb + 1, rc + 1);
    }
    assert k * sum <= 203 * t;
    assert 203 * t < k * (sum + 3);
    if sum > 101 {
      MultiplyMonotone(k, 102, sum);
    }
    if sum < 99 {
      MultiplyMonotone(k, sum + 3, 101);
    }
  }

  lemma Distribute(k: int, x: int, y: int, z: int)
    ensures k * (x + y + z) == k * x + k * y + k * z
  {
  }

  /** JavaScript's Math.round: halves go towards positive infinity. */
  function RoundHalfUp(x: real): (r: int)
    ensures r as real <= x + 0.5 < r as real + 1.0
  {
    (x + 0.5).Floor
  }

  /** `Math.round(x * 100) / 100`, on exact reals. */
  function Round2(x: real): (r: real)
    ensures r - 0.005 <= x < r + 0.005
  {
    RoundHalfUp(x * 100.0) as real / 100.0
  }

  // ---------------------------------------------------------------------
  // Threshold labels

  /** The four-way label of a pass rate: QualityMetrics' status, the
      heatmap cell status and the Locations page's status text. */
  datatype Tier = Excellent | Good | Warning | Critical

  function TierOf(rate: int): (t: Tier)
    ensures t == Excellent <==> rate >= 90
    ensures t == Good <==> 80 <= rate < 90
    ensures t == Warning <==> 60 <= rate < 80
    ensures t == Critical <==> rate < 60
  {
    if rate >= 90 then Excellent else if rate >= 80 then Good else if rate >= 60 then Warning else Critical
  }

  /** The three-way badge and text colour of a pass rate (green, yellow, red). */
  datatype Badge = Green | Yellow | Red

  function BadgeOf(rate: int): (b: Badge)
    ensures b == Green <==> rate >= 90
    ensures b == Yellow <==> 80 <= rate < 90
    ensures b == Red <==> rate < 80
  {
    if rate >= 90 then Green else if rate >= 80 then Yellow else Red
  }

  /** The badge colour is the tier with warning and critical merged. */
  lemma BadgeRefinesTier(rate: int)
    ensures BadgeOf(rate) == match TierOf(rate)
      case Excellent => Green
      case Good => Yellow
      case _ => Red
  {
  }

  /** Direction of a trend: the icon and colour of getTrendIcon / getTrendColor. */
  datatype Direction = Up | Down | Flat

  function DirectionOf(trend: int): (d: Direction)
    ensures d == Up <==> trend > 5
    ensures d == Down <==> trend < -5
    ensures d == Flat <==> -5 <= trend <= 5
  {
    if trend > 5 then Up else if trend < -5 then Down else Flat
  }

  /** Negating a trend swaps up and down and keeps flat. */
  lemma DirectionAntisymmetric(trend: int)
    ensures DirectionOf(-trend) == match DirectionOf(trend)
      case Up => Down
      case Down => Up
      case Flat => Flat
  {
  }
}
