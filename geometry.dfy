/**
 * The square spiral behind generate_square_spiral_path, as integer offsets
 * from the origin. Point 0 is the origin; the points after it fill the square
 * rings r = 1, 2, ... in turn, ring r holding the 8r points that follow the
 * (2r - 1)^2 points of the square inside it, in clockwise order from the
 * top-left corner. The mission code finds the ring of point n in closed form,
 * as the odd rounding of ceil(sqrt(n + 1)); DiameterOfRing shows that the
 * closed form finds the same ring.
 */
module Geometry {

  /** A waypoint's offset from the origin, in path units. */
  datatype Offset = Offset(dx: int, dy: int)

  function Abs(a: int): nat {
    if a < 0 then -a else a
  }

  /** Chebyshev (square-ring) distance of an offset from the origin. */
  function Chebyshev(o: Offset): nat {
    if Abs(o.dx) < Abs(o.dy) then Abs(o.dy) else Abs(o.dx)
  }

  /**
   * k squared, the `** 2` of the mission code, built up from the odd numbers:
   * the proofs reason about squares through SquareStep and SquareMonotonic,
   * and SquareIsProduct ties the definition to multiplication.
   */
  function Square(k: int): nat
    decreases if k < 0 then 1 - 2 * k else 2 * k
  {
    if k < 0 then Square(-k) else if k == 0 then 0 else Square(k - 1) + 2 * k - 1
  }

  lemma {:induction false} SquareIsProduct(k: int)
    ensures Square(k) == k * k
    decreases if k < 0 then 1 - 2 * k else 2 * k
  {
    if k < 0 {
      SquareIsProduct(-k);
    } else if k > 0 {
      SquareIsProduct(k - 1);
    }
  }

  /** From one square to the next: (k + 1)^2 = k^2 + 2k + 1. */
  lemma SquareStep(k: int)
    ensures Square(k + 1) == Square(k) + 2 * k + 1
  {
    if k < -1 {
      assert Square(k) == Square(-k);
      assert Square(-k) == Square(-k - 1) + 2 * -k - 1;
    } else if k == -1 {
      assert Square(k) == Square(1);
    }
  }

  /** Squaring is increasing, strictly so, on the naturals. */
  lemma {:induction false} SquareMonotonic(a: int, b: int)
    requires 0 <= a <= b
    ensures Square(a) <= Square(b)
    ensures a < b ==> Square(a) < Square(b)
    decreases b - a
  {
    if a < b {
      SquareMonotonic(a, b - 1);
      SquareStep(b - 1);
    }
  }

  /** Number of points that precede ring r >= 1: the (2r - 1)^2 points of the inner square. */
  function RingStart(r: nat): nat {
    Square(2 * r - 1)
  }

  /** Ring r + 1 starts right after the 8r points of ring r. */
  lemma RingStartStep(r: nat)
    ensures RingStart(r + 1) == RingStart(r) + 8 * r
  {
    SquareStep(2 * r - 1);
    SquareStep(2 * r);
  }

  /**
   * The ring that holds point n, counted ring by ring: point n stays on the
   * ring of point n - 1 until that ring's 8r places are used up.
   */
  function LayerRadius(n: nat): (r: nat)
    ensures n == 0 ==> r == 0
    ensures 1 <= n ==> 1 <= r && RingStart(r) <= n < RingStart(r) + 8 * r
  {
    if n == 0 then 0
    else
      var p := LayerRadius(n - 1);
      if n < RingStart(p) + 8 * p then p
      else
        RingStartStep(p);
        p + 1
  }

  /** layer_n: the 1-based place of point n along its ring (0 only for the origin). */
  function LayerPosition(n: nat): (k: int)
    ensures n == 0 ==> k == 0
    ensures 1 <= n ==> 1 <= k <= 8 * LayerRadius(n)
  {
    n + 1 - RingStart(LayerRadius(n))
  }

  /** Place k (1 .. 8r) on the ring of radius r >= 1: the top, right, bottom and left edges in turn. */
  function RingOffset(r: int, k: int): Offset {
    if k <= 2 * r then Offset(-r + k, r)
    else if k <= 4 * r then Offset(r, 3 * r - k)
    else if k <= 6 * r then Offset(5 * r - k, -r)
    else Offset(-r, k - 7 * r)
  }

  /** Offset of point n from the origin. */
  function SpiralOffset(n: nat): Offset {
    if n == 0 then Offset(0, 0) else RingOffset(LayerRadius(n), LayerPosition(n))
  }

  /** Two rings never share an index. */
  lemma RingsAreDisjoint(n: nat, r: nat, s: nat)
    requires 1 <= r && 1 <= s
    requires RingStart(r) <= n < RingStart(r) + 8 * r
    requires RingStart(s) <= n < RingStart(s) + 8 * s
    ensures r == s
  {
    RingEnd(r);
    RingEnd(s);
    if r < s {
      SquareMonotonic(2 * r + 1, 2 * s - 1);
    } else if s < r {
      SquareMonotonic(2 * s + 1, 2 * r - 1);
    }
  }

  /** Ring r >= 1 holds exactly the 8r consecutive indices RingStart(r) .. RingStart(r) + 8r - 1. */
  lemma RingMembership(n: nat, r: nat)
    requires 1 <= r
    ensures LayerRadius(n) == r <==> RingStart(r) <= n < RingStart(r) + 8 * r
  {
    if RingStart(r) <= n < RingStart(r) + 8 * r {
      SquareMonotonic(1, 2 * r - 1);
      RingsAreDisjoint(n, r, LayerRadius(n));
    }
  }

  /**
   * ceil(sqrt(m)) on integers: the least c with m <= c^2. From m - 1 to m it
   * grows by one exactly when m passes a perfect square.
   */
  function CeilSqrt(m: nat): (c: nat)
    requires 1 <= m
    ensures 1 <= c && Square(c - 1) < m <= Square(c)
  {
    if m == 1 then 1
    else
      var c := CeilSqrt(m - 1);
      if m <= Square(c) then c
      else
        SquareStep(c);
        c + 1
  }

  /** Rounding ceil(sqrt(m)) up to an odd number d keeps m within ((d - 2)^2, d^2]. */
  lemma OddCeiling(m: nat, c: nat)
    requires 1 <= c && Square(c - 1) < m <= Square(c)
    ensures var d := if c % 2 == 0 then c + 1 else c;
      && (m == 1 ==> d == 1)
      && (2 <= m ==> 3 <= d && Square(d - 2) < m <= Square(d))
  {
    if c % 2 == 0 {
      SquareMonotonic(c, c + 1);
      SquareMonotonic(1, c - 1);
    } else if c == 1 {
      assert Square(1) == 1;
    } else {
      SquareMonotonic(c - 2, c - 1);
      SquareMonotonic(1, c - 1);
    }
  }

  /** layer_diameter: ceil(sqrt(n + 1)) rounded up to the next odd number. */
  function LayerDiameter(n: nat): (d: nat)
    ensures d % 2 == 1
    ensures n == 0 ==> d == 1
    ensures 1 <= n ==> 3 <= d && Square(d - 2) < n + 1 <= Square(d)
  {
    var c := CeilSqrt(n + 1);
    OddCeiling(n + 1, c);
    if c % 2 == 0 then c + 1 else c
  }

  /** An odd d with m in ((d - 2)^2, d^2] is the diameter of the ring r that holds index m - 1. */
  lemma OddBracketIsRing(m: int, d: int, r: int)
    requires 3 <= d && d % 2 == 1 && Square(d - 2) < m <= Square(d)
    requires 1 <= r && RingStart(r) < m <= RingStart(r) + 8 * r
    ensures d == 2 * r + 1
  {
    RingEnd(r);
    if d < 2 * r + 1 {
      SquareMonotonic(d, 2 * r - 1);
    } else if d > 2 * r + 1 {
      SquareMonotonic(2 * r + 1, d - 2);
    }
  }

  /** The closed-form diameter is the diameter 2r + 1 of the ring that holds point n. */
  lemma DiameterOfRing(n: nat)
    ensures LayerDiameter(n) == 2 * LayerRadius(n) + 1
  {
    if 1 <= n {
      OddBracketIsRing(n + 1, LayerDiameter(n), LayerRadius(n));
    }
  }

  /** Every point of ring r is at Chebyshev distance exactly r from the origin. */
  lemma ChebyshevIsRadius(n: nat)
    ensures Chebyshev(SpiralOffset(n)) == LayerRadius(n)
  {
    if 1 <= n {
      RingOffsetPlaces(LayerRadius(n), LayerPosition(n));
    }
  }

  /** One clockwise step along the square spiral, decided from the position alone. */
  function Advance(o: Offset): Offset {
    var r: int := Chebyshev(o);
    if o.dy == r && -r < o.dx < r then Offset(o.dx + 1, o.dy)        // top edge: east
    else if o.dx == r && -r < o.dy then Offset(o.dx, o.dy - 1)       // right edge: south
    else if o.dy == -r && -r < o.dx then Offset(o.dx - 1, o.dy)      // bottom edge: west
    else Offset(o.dx, o.dy + 1)                                     // left edge, or on to the next ring: north
  }

  /** Each step moves to a neighbouring grid point, on the same ring or out to the top edge of the next one. */
  lemma AdvanceIsUnitStep(o: Offset)
    ensures var next := Advance(o);
      && Abs(next.dx - o.dx) + Abs(next.dy - o.dy) == 1
      && (Chebyshev(next) == Chebyshev(o) || (Chebyshev(next) == Chebyshev(o) + 1 && next.dy == Chebyshev(next)))
  {
  }

  /** Reference definition: walk the spiral step by step from the origin. */
  function Walk(n: nat): Offset {
    if n == 0 then Offset(0, 0) else Advance(Walk(n - 1))
  }

  /** Advance moves place k of ring r to place k + 1, and the last place on to the first place of ring r + 1. */
  lemma AdvanceOnRing(r: int, k: int)
    requires 1 <= r && 1 <= k <= 8 * r
    ensures Advance(RingOffset(r, k)) == if k < 8 * r then RingOffset(r, k + 1) else RingOffset(r + 1, 1)
  {
  }

  /** The first step leaves the origin northwards, onto the first place of ring 1. */
  lemma FirstStep()
    ensures Advance(Offset(0, 0)) == RingOffset(1, 1)
  {
  }

  /** Ring and place of point n after point n - 1: the next place on the same ring, or the first place of the next ring. */
  lemma NextPlace(n: nat)
    requires 1 <= n
    ensures var r := LayerRadius(n - 1);
      var k := LayerPosition(n - 1);
      if k < 8 * r then LayerRadius(n) == r && LayerPosition(n) == k + 1
      else LayerRadius(n) == r + 1 && LayerPosition(n) == 1
  {
    var r := LayerRadius(n - 1);
    if LayerPosition(n - 1) < 8 * r {
      RingMembership(n, r);
    } else {
      RingStartStep(r);
      RingMembership(n, r + 1);
    }
  }

  /** Point 1 is one step north of the origin, the first place of ring 1. */
  lemma SpiralAdvanceFromOrigin(n: nat)
    requires n == 1
    ensures SpiralOffset(n) == Advance(SpiralOffset(n - 1))
  {
    NextPlace(n);
    FirstStep();
  }

  /** From point n - 1 >= 1 the spiral moves on along its ring, or out to the next one. */
  lemma SpiralAdvanceOnRing(n: nat)
    requires 2 <= n
    ensures SpiralOffset(n) == Advance(SpiralOffset(n - 1))
  {
    NextPlace(n);
    AdvanceOnRing(LayerRadius(n - 1), LayerPosition(n - 1));
  }

  /** The spiral moves exactly like a clockwise walker from point n - 1 to point n. */
  lemma SpiralAdvance(n: nat)
    requires 1 <= n
    ensures SpiralOffset(n) == Advance(SpiralOffset(n - 1))
  {
    if n == 1 {
      SpiralAdvanceFromOrigin(n);
    } else {
      SpiralAdvanceOnRing(n);
    }
  }

  /** The square spiral agrees with walking it step by step. */
  lemma {:induction false} SpiralIsWalk(n: nat)
    ensures SpiralOffset(n) == Walk(n)
  {
    if n > 0 {
      SpiralIsWalk(n - 1);
      SpiralAdvance(n);
    }
  }

  /** Place (1 .. 8r) of an offset along its ring r >= 1, in spiral order. */
  function EdgePosition(o: Offset): int {
    var r: int := Chebyshev(o);
    if o.dy == r && -r < o.dx then o.dx + r
    else if o.dx == r && o.dy < r then 3 * r - o.dy
    else if o.dy == -r && o.dx < r then 5 * r - o.dx
    else o.dy + 7 * r
  }

  /** Inverse of SpiralOffset: the index at which the spiral reaches an offset. */
  function SpiralIndex(o: Offset): nat {
    var r := Chebyshev(o);
    if r == 0 then 0
    else
      SquareMonotonic(1, 2 * r - 1);
      RingStart(r) - 1 + EdgePosition(o)
  }

  /** EdgePosition reads back the place that RingOffset put on ring r. */
  lemma RingOffsetPlaces(r: int, k: int)
    requires 1 <= r && 1 <= k <= 8 * r
    ensures Chebyshev(RingOffset(r, k)) == r && EdgePosition(RingOffset(r, k)) == k
  {
  }

  /** RingOffset puts back every offset of ring r >= 1 at the place EdgePosition reads. */
  lemma EdgePositionPlaces(o: Offset)
    requires 1 <= Chebyshev(o)
    ensures 1 <= EdgePosition(o) <= 8 * Chebyshev(o)
    ensures RingOffset(Chebyshev(o), EdgePosition(o)) == o
  {
  }

  lemma SpiralIndexOfOffset(n: nat)
    ensures SpiralIndex(SpiralOffset(n)) == n
  {
    if 1 <= n {
      RingOffsetPlaces(LayerRadius(n), LayerPosition(n));
    }
  }

  lemma SpiralOffsetOfIndex(o: Offset)
    ensures SpiralOffset(SpiralIndex(o)) == o
  {
    var r: int := Chebyshev(o);
    if r != 0 {
      var k := EdgePosition(o);
      EdgePositionPlaces(o);
      var n := SpiralIndex(o);
      SquareMonotonic(1, 2 * r - 1);
      RingMembership(n, r);
    }
  }

  /** The first (2 layers + 1)^2 points lie on the rings 0 .. layers. */
  lemma RadiusWithinLayers(layers: nat, n: nat)
    requires n < Square(2 * layers + 1)
    ensures LayerRadius(n) <= layers
  {
    var r := LayerRadius(n);
    if r > layers {
      SquareMonotonic(2 * layers + 1, 2 * r - 1);
    }
  }

  /** A path of `layers` rings, (2 layers + 1)^2 points, stays inside the square of radius `layers`. */
  lemma SpiralStaysInSquare(layers: nat, n: nat)
    requires n < Square(2 * layers + 1)
    ensures Chebyshev(SpiralOffset(n)) <= layers
  {
    RadiusWithinLayers(layers, n);
    ChebyshevIsRadius(n);
  }

  /** Ring r ends where the square of side 2r + 1 is full. */
  lemma RingEnd(r: nat)
    ensures RingStart(r) + 8 * r == Square(2 * r + 1)
  {
    SquareStep(2 * r - 1);
    SquareStep(2 * r);
  }

  /** Place k of ring r <= layers comes before index (2 layers + 1)^2. */
  lemma PlaceBelowSquare(r: nat, layers: nat, k: int)
    requires 1 <= r <= layers && 1 <= k <= 8 * r
    ensures RingStart(r) - 1 + k < Square(2 * layers + 1)
  {
    RingEnd(r);
    SquareMonotonic(2 * r + 1, 2 * layers + 1);
  }

  /** An offset within Chebyshev distance `layers` has its spiral index below (2 layers + 1)^2. */
  lemma IndexWithinSquare(layers: nat, o: Offset)
    requires Chebyshev(o) <= layers
    ensures SpiralIndex(o) < Square(2 * layers + 1)
  {
    var r := Chebyshev(o);
    if r > 0 {
      EdgePositionPlaces(o);
      PlaceBelowSquare(r, layers, EdgePosition(o));
    }
  }

  /** ... and reaches every grid point of that square, at an index below (2 layers + 1)^2. */
  lemma SquareIsCovered(layers: nat, o: Offset)
    requires Chebyshev(o) <= layers
    ensures SpiralIndex(o) < Square(2 * layers + 1)
    ensures SpiralOffset(SpiralIndex(o)) == o
  {
    IndexWithinSquare(layers, o);
    SpiralOffsetOfIndex(o);
  }
}
