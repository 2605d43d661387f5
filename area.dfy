/** The conversion of a nearest-neighbour distance (metres) into the area, in acres,
    of a circle whose diameter is that distance (`distancia_a_acres`). */
module Area {
  import opened Bounds

  /** `np.pi`, written as the shortest decimal that reads back as that double; the
      examples depend on its exact value, the general lemmas only on its sign. */
  const PI: real := 3.141592653589793

  /** Square metres in one acre, the divisor the source uses. */
  const SquareMetresPerAcre: real := 4046.86

  function Square(x: real): real {
    x * x
  }

  lemma SquareNonNegative(x: real)
    ensures Square(x) >= 0.0
  {
  }

  /** `distancia_a_acres(d)`: radius d / 2, circle area pi * r^2 in m^2, then acres. */
  function DistanceToAcres(d: real): (a: real)
    ensures a >= 0.0
    ensures d == 0.0 ==> a == 0.0
  {
    var radius := d / 2.0;
    SquareNonNegative(radius);
    PI * Square(radius) / SquareMetresPerAcre
  }

  /** The same area computed from the squared distance, which is what the model
      keeps for the nearest neighbour (Dafny's reals have no square root). */
  function AreaFromSquaredDistance(d2: real): (a: real)
    requires d2 >= 0.0
    ensures a >= 0.0
    ensures d2 == 0.0 ==> a == 0.0
  {
    PI * (d2 / 4.0) / SquareMetresPerAcre
  }

  /** The spacing column for a nearest squared distance that may be the +inf
      padding of a well with no neighbour: numpy's inf / 2, inf ** 2, pi * inf and
      inf / 4046.86 are all inf. */
  function AcresOf(d2: Bound): (a: Bound)
    requires d2.Fin? ==> d2.v >= 0.0
    ensures a.Fin? <==> d2.Fin?
    ensures d2.PosInf? ==> a == PosInf
    ensures a.Fin? ==> a.v >= 0.0 && a.v == AreaFromSquaredDistance(d2.v)
  {
    match d2
    case Fin(x) => Fin(AreaFromSquaredDistance(x))
    case _ => PosInf
  }

  /** Going through the squared distance gives the source's value. */
  lemma SquaredDistanceAgrees(d: real)
    ensures Square(d) >= 0.0
    ensures AreaFromSquaredDistance(Square(d)) == DistanceToAcres(d)
  {
    SquareNonNegative(d);
    assert Square(d / 2.0) == Square(d) / 4.0;
  }

  /** A farther nearest neighbour never yields a smaller drainage area. */
  lemma DistanceToAcresMonotone(d: real, e: real)
    requires 0.0 <= d <= e
    ensures DistanceToAcres(d) <= DistanceToAcres(e)
  {
    SquareMonotone(d / 2.0, e / 2.0);
  }

  lemma SquareMonotone(x: real, y: real)
    requires 0.0 <= x <= y
    ensures Square(x) <= Square(y)
  {
  }

  /** The area grows with the square of the distance: scaling the spacing by k
      scales the drainage area by k^2. */
  lemma DistanceToAcresScales(k: real, d: real)
    ensures DistanceToAcres(k * d) == Square(k) * DistanceToAcres(d)
  {
    assert Square(k * d / 2.0) == Square(k) * Square(d / 2.0);
  }

  /** Neighbours 100 m apart drain a circle of radius 50 m: about 1.94 acres. */
  lemma HundredMetresExample()
    ensures 1.9407 < DistanceToAcres(100.0) < 1.9408
  {
    assert Square(50.0) == 2500.0;
  }
}
