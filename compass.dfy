/**
 * The compass tab's heading label. The heading arrives already rounded to
 * a whole number of degrees, so `Math.floor(deg / 45 + 0.5)` is the integer
 * floor of (2 * deg + 45) / 90, and the label is looked up with
 * JavaScript's truncating `%`.
 */
module Compass {
  import opened Wrappers

  const LABELS: seq<string> := ["N", "NE", "E", "SE", "S", "SW", "W", "NW"]

  /** The sector a heading rounds to: `Math.floor(deg / 45 + 0.5)`. */
  function Sector(deg: int): (val: int)
    ensures 90 * val <= 2 * deg + 45 < 90 * val + 90
  {
    (2 * deg + 45) / 90
  }

  /** JavaScript's `a % 8`: the sign follows the dividend. */
  function JsRem8(a: int): (r: int)
    ensures a >= 0 ==> 0 <= r < 8
    ensures a < 0 ==> -8 < r <= 0
    ensures (a - r) % 8 == 0
  {
    if a >= 0 then a % 8
    else
      var m := (-a) % 8;
      assert -a == 8 * ((-a) / 8) + m;
      -m
  }

  /**
   * getCardinalDirection; None where `arr[val % 8]` is undefined (a
   * negative index; a negative multiple of 8 gives -0, which reads "N").
   */
  function CardinalDirection(deg: int): (r: Option<string>)
    ensures r.Some? ==> r.value in LABELS
  {
    var i := JsRem8(Sector(deg));
    if 0 <= i < |LABELS| then Some(LABELS[i]) else None
  }

  /** Every heading _angle produces gets a label, from the rounded sector. */
  lemma {:induction false} HeadingsAreLabelled(deg: int)
    requires 0 <= deg <= 360
    ensures CardinalDirection(deg) == Some(LABELS[Sector(deg) % 8])
  {
    assert Sector(deg) >= 0;
  }

  /** Which headings get a label at all. */
  lemma LabelledIff(deg: int)
    ensures CardinalDirection(deg).Some? <==> deg >= -22 || Sector(deg) % 8 == 0
  {
    var v := Sector(deg);
    assert v >= 0 <==> deg >= -22;
    if v < 0 {
      assert (-v) % 8 == 0 <==> v % 8 == 0;
    }
  }

  /** Both ends of the dial read north. */
  lemma NorthAtBothEnds()
    ensures CardinalDirection(0) == Some("N")
    ensures CardinalDirection(360) == Some("N")
  {
    assert Sector(0) == 0;
    assert Sector(360) == 8;
  }

  /** The heading 45k names direction k. */
  lemma OnTheCompassPoints(k: nat)
    ensures CardinalDirection(45 * k) == Some(LABELS[k % 8])
  {
    assert Sector(45 * k) == k;
  }

  /** A heading reads as the compass point it is nearest to. */
  lemma NearestPoint(deg: int, k: nat)
    requires 45 * k - 22 <= deg <= 45 * k + 22
    ensures CardinalDirection(deg) == Some(LABELS[k % 8])
  {
    assert Sector(deg) == k;
  }

  /** 0 to 22 read N, 23 to 67 read NE. */
  lemma FirstSectors(deg: int)
    ensures 0 <= deg <= 22 ==> CardinalDirection(deg) == Some("N")
    ensures 23 <= deg <= 67 ==> CardinalDirection(deg) == Some("NE")
  {
    if 0 <= deg <= 22 {
      NearestPoint(deg, 0);
    } else if 23 <= deg <= 67 {
      NearestPoint(deg, 1);
    }
  }

  /** Turning a full circle does not change the label. */
  lemma FullTurn(deg: int)
    requires deg >= -22
    ensures CardinalDirection(deg + 360) == CardinalDirection(deg)
  {
    var v := Sector(deg);
    var w := Sector(deg + 360);
    assert 90 * w <= 2 * deg + 765 < 90 * w + 90;
    assert w == v + 8;
    assert v >= 0;
    assert v + 8 == 8 * (v / 8 + 1) + v % 8;
    assert JsRem8(w) == JsRem8(v);
  }
}
