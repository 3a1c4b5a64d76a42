/**
 * The waypoint generators of the mission script, on real coordinates: the
 * square-spiral path around an origin and its rescaling about that origin.
 */
module Waypoints {
  import opened Wrappers
  import opened Geometry

  /** A planar waypoint (latitude, longitude in the mission). */
  datatype Waypoint = Waypoint(x: real, y: real)

  /** The waypoint at a given integer offset from the origin. */
  function Translate(origin: Waypoint, o: Offset): Waypoint {
    Waypoint(origin.x + o.dx as real, origin.y + o.dy as real)
  }

  /**
   * generate_square_spiral_path: None when layers <= 0; otherwise the
   * (2 layers + 1)^2 points of the clockwise square spiral around origin,
   * computed index by index into the preallocated coordinate lists x and y.
   */
  method GenerateSquareSpiralPath(layers: int, origin: Waypoint) returns (path: Option<seq<Waypoint>>)
    ensures path.None? <==> layers <= 0
    ensures path.Some? ==> |path.value| == Square(2 * layers + 1)
    ensures path.Some? ==> path.value[0] == origin
    ensures path.Some? ==> forall n :: 0 <= n < |path.value| ==> path.value[n] == Translate(origin, SpiralOffset(n))
  {
    if layers <= 0 {
      return None;
    }
    var total := Square(2 * layers + 1);
    assert 1 <= total by {
      SquareMonotonic(1, 2 * layers + 1);
    }
    var x := new real[total];
    var y := new real[total];
    x[0] := origin.x;
    y[0] := origin.y;
    for n := 0 to total
      modifies x, y
      invariant x[0] == origin.x && y[0] == origin.y
      invariant forall i :: 0 <= i < n ==> Waypoint(x[i], y[i]) == Translate(origin, SpiralOffset(i))
    {
      var xn, yn := SpiralPoint(n, x[0], y[0]);
      x[n], y[n] := xn, yn;
    }
    var waypoints := PairCoordinates(x, y);
    path := Some(waypoints);
  }

  /** The final loop of generate_square_spiral_path: the coordinate lists paired up into waypoints. */
  method PairCoordinates(x: array<real>, y: array<real>) returns (points: seq<Waypoint>)
    requires x.Length == y.Length
    ensures |points| == x.Length
    ensures forall i :: 0 <= i < |points| ==> points[i] == Waypoint(x[i], y[i])
  {
    var waypoints := new Waypoint[x.Length];
    for n := 0 to x.Length
      modifies waypoints
      invariant forall i :: 0 <= i < n ==> waypoints[i] == Waypoint(x[i], y[i])
    {
      waypoints[n] := Waypoint(x[n], y[n]);
    }
    points := waypoints[..];
  }

  /**
   * One pass of the loop of generate_square_spiral_path: the coordinates of
   * point n from those of point 0, by the ring's odd diameter, its real
   * radius and the place layer_n along it. Point 0 itself (layer_n == 0) keeps
   * the coordinates it was given.
   */
  method SpiralPoint(n: nat, x0: real, y0: real) returns (xn: real, yn: real)
    ensures Waypoint(xn, yn) == Translate(Waypoint(x0, y0), SpiralOffset(n))
  {
    var crn := CeilSqrt(n + 1);
    var diameter := if crn % 2 == 0 then crn + 1 else crn;
    var radius := (diameter - 1) as real / 2.0;
    var layerN := n + 1 - Square(diameter - 2);
    LoopQuantities(n, diameter, layerN);
    PlaceMatchesSpiral(Waypoint(x0, y0), n, diameter, radius, layerN);
    xn, yn := x0, y0;
    if layerN == 0 {
    } else if layerN <= diameter - 1 {
      xn := x0 - radius + layerN as real;
      yn := y0 + radius;
    } else if layerN <= 2 * diameter - 2 {
      xn := x0 + radius;
      yn := y0 + radius - layerN as real + diameter as real - 1.0;
    } else if layerN <= 3 * diameter - 3 {
      xn := x0 + radius - (layerN - 2 * diameter + 2) as real;
      yn := y0 - radius;
    } else if layerN <= 4 * diameter - 4 {
      xn := x0 - radius;
      yn := y0 - radius + (layerN - 3 * diameter + 3) as real;
    }
  }

  /**
   * The loop's own arithmetic (a real radius, the unreduced layer_n) lands on
   * the integer spiral: layer_n is 0 exactly for the origin, and otherwise lies
   * in 1 .. 4 (diameter - 1), where each edge branch yields the translated
   * spiral offset.
   */
  lemma PlaceMatchesSpiral(origin: Waypoint, n: nat, diameter: int, radius: real, layerN: int)
    requires diameter == 2 * LayerRadius(n) + 1 && layerN == LayerPosition(n)
    requires radius == (diameter - 1) as real / 2.0
    ensures layerN == 0 <==> n == 0
    ensures 0 <= layerN <= 4 * diameter - 4
    ensures n == 0 ==> origin == Translate(origin, SpiralOffset(n))
    ensures 1 <= layerN <= diameter - 1 ==>
      Waypoint(origin.x - radius + layerN as real, origin.y + radius) == Translate(origin, SpiralOffset(n))
    ensures diameter - 1 < layerN <= 2 * diameter - 2 ==>
      Waypoint(origin.x + radius, origin.y + radius - layerN as real + diameter as real - 1.0) == Translate(origin, SpiralOffset(n))
    ensures 2 * diameter - 2 < layerN <= 3 * diameter - 3 ==>
      Waypoint(origin.x + radius - (layerN - 2 * diameter + 2) as real, origin.y - radius) == Translate(origin, SpiralOffset(n))
    ensures 3 * diameter - 3 < layerN <= 4 * diameter - 4 ==>
      Waypoint(origin.x - radius, origin.y - radius + (layerN - 3 * diameter + 3) as real) == Translate(origin, SpiralOffset(n))
  {
    var r: int := LayerRadius(n);
    if n == 0 {
      TranslateByZero(origin, SpiralOffset(n));
    } else {
      HalfDiameter(diameter, r, radius);
      EdgesInReals(origin, r, layerN, diameter, radius);
    }
  }

  /** The loop's diameter and layer_n are the diameter and place of the ring that holds point n. */
  lemma LoopQuantities(n: nat, diameter: int, layerN: int)
    requires diameter == if CeilSqrt(n + 1) % 2 == 0 then CeilSqrt(n + 1) + 1 else CeilSqrt(n + 1)
    requires layerN == n + 1 - Square(diameter - 2)
    ensures diameter == 2 * LayerRadius(n) + 1 && layerN == LayerPosition(n)
  {
    var r: int := LayerRadius(n);
    assert diameter == LayerDiameter(n);
    DiameterOfRing(n);
    assert diameter - 2 == 2 * r - 1;
  }

  lemma TranslateByZero(origin: Waypoint, o: Offset)
    requires o == Offset(0, 0)
    ensures Translate(origin, o) == origin
  {
  }

  /** The real radius (diameter - 1) / 2 of an odd diameter 2r + 1 is r. */
  lemma HalfDiameter(diameter: int, r: int, radius: real)
    requires diameter == 2 * r + 1 && radius == (diameter - 1) as real / 2.0
    ensures radius == r as real
  {
  }

  /** The four edge branches, in reals with radius r, place k on the ring as RingOffset does. */
  lemma EdgesInReals(origin: Waypoint, r: int, k: int, diameter: int, radius: real)
    requires 1 <= r && diameter == 2 * r + 1 && radius == r as real && 1 <= k <= 8 * r
    ensures k <= diameter - 1 ==>
      Waypoint(origin.x - radius + k as real, origin.y + radius) == Translate(origin, RingOffset(r, k))
    ensures diameter - 1 < k <= 2 * diameter - 2 ==>
      Waypoint(origin.x + radius, origin.y + radius - k as real + diameter as real - 1.0) == Translate(origin, RingOffset(r, k))
    ensures 2 * diameter - 2 < k <= 3 * diameter - 3 ==>
      Waypoint(origin.x + radius - (k - 2 * diameter + 2) as real, origin.y - radius) == Translate(origin, RingOffset(r, k))
    ensures 3 * diameter - 3 < k ==>
      Waypoint(origin.x - radius, origin.y - radius + (k - 3 * diameter + 3) as real) == Translate(origin, RingOffset(r, k))
  {
  }

  /** One waypoint rescaled about origin: each coordinate's offset from origin is multiplied by factor. */
  function ScalePoint(p: Waypoint, factor: real, origin: Waypoint): (q: Waypoint)
    ensures p == origin ==> q == origin
    ensures factor == 1.0 ==> q == p
    ensures factor == 0.0 ==> q == origin
  {
    Waypoint(factor * (p.x - origin.x) + origin.x, factor * (p.y - origin.y) + origin.y)
  }

  /** Rescaling by a and then by b is rescaling by a * b. */
  lemma ScaleComposes(p: Waypoint, a: real, b: real, origin: Waypoint)
    ensures ScalePoint(ScalePoint(p, a, origin), b, origin) == ScalePoint(p, a * b, origin)
  {
    var q := ScalePoint(p, a, origin);
    assert q.x - origin.x == a * (p.x - origin.x);
    assert q.y - origin.y == a * (p.y - origin.y);
    assert b * (a * (p.x - origin.x)) == (a * b) * (p.x - origin.x);
    assert b * (a * (p.y - origin.y)) == (a * b) * (p.y - origin.y);
    assert ScalePoint(q, b, origin).x == (a * b) * (p.x - origin.x) + origin.x;
    assert ScalePoint(q, b, origin).y == (a * b) * (p.y - origin.y) + origin.y;
  }

  /** A non-zero rescaling is undone by the reciprocal factor. */
  lemma ScaleInverts(p: Waypoint, factor: real, origin: Waypoint)
    requires factor != 0.0
    ensures ScalePoint(ScalePoint(p, factor, origin), 1.0 / factor, origin) == p
  {
    ScaleComposes(p, factor, 1.0 / factor, origin);
    assert factor * (1.0 / factor) == 1.0;
  }

  /** Rescaling by a non-zero factor about origin never merges two points. */
  lemma ScaleIsInjective(p: Waypoint, q: Waypoint, factor: real, origin: Waypoint)
    requires factor != 0.0 && ScalePoint(p, factor, origin) == ScalePoint(q, factor, origin)
    ensures p == q
  {
    ScaleInverts(p, factor, origin);
    ScaleInverts(q, factor, origin);
  }

  /**
   * scale_waypoints_by_factor: a new list of the same length whose i-th point
   * is the i-th input point rescaled about origin.
   */
  method ScaleWaypointsByFactor(points: seq<Waypoint>, factor: real, origin: Waypoint) returns (scaled: seq<Waypoint>)
    ensures |scaled| == |points|
    ensures forall i :: 0 <= i < |points| ==> scaled[i] == ScalePoint(points[i], factor, origin)
    ensures forall i :: 0 <= i < |points| && points[i] == origin ==> scaled[i] == origin
    ensures factor == 1.0 ==> scaled == points
  {
    var newPoints := new Waypoint[|points|];
    for i := 0 to |points|
      modifies newPoints
      invariant forall j :: 0 <= j < i ==> newPoints[j] == ScalePoint(points[j], factor, origin)
    {
      newPoints[i] := Waypoint(factor * (points[i].x - origin.x) + origin.x, factor * (points[i].y - origin.y) + origin.y);
    }
    scaled := newPoints[..];
  }
}
