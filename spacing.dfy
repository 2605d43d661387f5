/** Wells and the nearest-neighbour spacing within one zone (`distancia_min`). */
module Spacing {
  import opened Bounds
  import opened Area

  /** One row of the input table: the columns the classification reads, plus the
      well's identifier standing for the columns it carries through untouched. */
  datatype Well = Well(id: string, zone: string, x: real, y: real, cum: real)

  /** Squared Euclidean distance between two wells' (X, Y) coordinates. */
  function SqDist(p: Well, q: Well): real {
    Square(p.x - q.x) + Square(p.y - q.y)
  }

  lemma SqDistNonNegative(p: Well, q: Well)
    ensures SqDist(p, q) >= 0.0
  {
    SquareNonNegative(p.x - q.x);
    SquareNonNegative(p.y - q.y);
  }

  /** Wells at the same coordinates are at distance 0. */
  lemma SqDistCoincident(p: Well, q: Well)
    requires p.x == q.x && p.y == q.y
    ensures SqDist(p, q) == 0.0
  {
  }

  /** The smallest squared distance from ws[i] to the wells ws[k..] other than itself,
      or +inf when there is none (the padding a k-nearest query returns for a
      missing neighbour). */
  function NearestFrom(ws: seq<Well>, i: nat, k: nat): (r: Bound)
    requires i < |ws| && k <= |ws|
    ensures r.PosInf? <==> |ws| - k == (if k <= i then 1 else 0)
    ensures r.Fin? || r.PosInf?
    ensures r.Fin? ==> r.v >= 0.0
    ensures forall j :: k <= j < |ws| && j != i ==> Le(r, Fin(SqDist(ws[i], ws[j])))
    ensures r.Fin? ==> exists j :: k <= j < |ws| && j != i && r.v == SqDist(ws[i], ws[j])
    decreases |ws| - k
  {
    if k == |ws| then PosInf
    else
      var rest := NearestFrom(ws, i, k + 1);
      if k == i then rest
      else
        var d := SqDist(ws[i], ws[k]);
        SqDistNonNegative(ws[i], ws[k]);
        if rest.Fin? && rest.v <= d then rest else Fin(d)
  }

  /** `distancias[:, 1]` of `cKDTree(coords).query(coords, k=2)`, squared: the second
      hit of a two-nearest query is the closest other well (the first is the well
      itself at distance 0). */
  function NearestSq(ws: seq<Well>, i: nat): (r: Bound)
    requires i < |ws|
    ensures |ws| == 1 <==> r.PosInf?
    ensures r.Fin? ==> r.v >= 0.0
    ensures !r.NegInf?
  {
    NearestFrom(ws, i, 0)
  }

  /** With at least two wells in the zone, a well's nearest distance is no greater
      than its distance to any other well of the zone and equals the distance to one
      of them. */
  lemma NearestIsMinimumOverOthers(ws: seq<Well>, i: nat)
    requires i < |ws| && |ws| >= 2
    ensures NearestSq(ws, i).Fin?
    ensures forall j :: 0 <= j < |ws| && j != i ==> NearestSq(ws, i).v <= SqDist(ws[i], ws[j])
    ensures exists j :: 0 <= j < |ws| && j != i && NearestSq(ws, i).v == SqDist(ws[i], ws[j])
  {
  }

  /** A well that shares its coordinates with another well of the zone has spacing 0. */
  lemma CoincidentWellsHaveZeroSpacing(ws: seq<Well>, i: nat, j: nat)
    requires i < |ws| && j < |ws| && i != j
    requires ws[i].x == ws[j].x && ws[i].y == ws[j].y
    ensures NearestSq(ws, i) == Fin(0.0)
  {
    SqDistCoincident(ws[i], ws[j]);
  }

  /** Three wells on a line at x = 0, 10 and 30: the squared spacings are 100, 100
      and 400, and the first two wells are each other's nearest neighbour. */
  lemma CollinearWellsExample()
    ensures var ws := [Well("A", "Z", 0.0, 0.0, 0.0), Well("B", "Z", 10.0, 0.0, 0.0),
                       Well("C", "Z", 30.0, 0.0, 0.0)];
      NearestSq(ws, 0) == Fin(100.0) && NearestSq(ws, 1) == Fin(100.0) && NearestSq(ws, 2) == Fin(400.0)
  {
    var ws := [Well("A", "Z", 0.0, 0.0, 0.0), Well("B", "Z", 10.0, 0.0, 0.0),
               Well("C", "Z", 30.0, 0.0, 0.0)];
    assert Square(0.0) == 0.0 && Square(10.0) == 100.0 && Square(-10.0) == 100.0;
    assert Square(30.0) == 900.0 && Square(-30.0) == 900.0;
    assert Square(20.0) == 400.0 && Square(-20.0) == 400.0;
    assert SqDist(ws[0], ws[1]) == 100.0 && SqDist(ws[1], ws[0]) == 100.0;
    assert SqDist(ws[0], ws[2]) == 900.0 && SqDist(ws[2], ws[0]) == 900.0;
    assert SqDist(ws[1], ws[2]) == 400.0 && SqDist(ws[2], ws[1]) == 400.0;
    assert NearestFrom(ws, 0, 2) == Fin(900.0);
    assert NearestFrom(ws, 0, 1) == Fin(100.0);
    assert NearestFrom(ws, 1, 2) == Fin(400.0);
    assert NearestFrom(ws, 1, 1) == Fin(400.0);
    assert NearestFrom(ws, 1, 0) == Fin(100.0);
    assert NearestFrom(ws, 2, 2) == PosInf;
    assert NearestFrom(ws, 2, 1) == Fin(400.0);
    assert NearestFrom(ws, 2, 0) == Fin(400.0);
  }
}
