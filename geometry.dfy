/** The GeoJSON geometry a field carries and the planar rules the field's
    containment test and area approximation follow (DemeterEye/Model/Field.swift).
    `GeoJSONGeometry` and `Polygon` are declared outside the modelled files, so only
    what Field.swift uses of them is kept: the polygon case, its rings, and the outer
    ring. Coordinates are exact reals. */
module Geometry {

  /** A GeoJSON position; `CLLocationCoordinate2D` carries the same pair. */
  datatype Position = Position(longitude: real, latitude: real)

  /** A GeoJSON polygon: ring 0 is the outer boundary, further rings are holes. */
  datatype Polygon = Polygon(coordinates: seq<seq<Position>>) {
    /** `outerRingCoordinates`: the first ring, or no coordinates when there is none. */
    function OuterRing(): seq<Position> {
      if |coordinates| == 0 then [] else coordinates[0]
    }
  }

  /** The geometry enumeration: the polygon case, and every other GeoJSON case
      folded into one. */
  datatype GeoJSONGeometry = PolygonGeometry(polygon: Polygon) | OtherGeometry(kind: string)

  // ---------------------------------------------------------------------------
  // Even-odd containment

  /** The vertex that precedes vertex i on a closed walk: the last one for i = 0. */
  function Trailing(ring: seq<Position>, i: nat): nat
    requires i < |ring|
  {
    if i == 0 then |ring| - 1 else i - 1
  }

  /** The longitude at latitude `lat` of the line through (xi, yi) and (xj, yj),
      by linear interpolation from vertex i. */
  function CrossingLongitude(xi: real, yi: real, xj: real, yj: real, lat: real): real
    requires yi != yj
  {
    (xj - xi) * (lat - yi) / (yj - yi) + xi
  }

  /** The horizontal ray through `p`, pointing east, crosses the edge from vertex
      Trailing(ring, i) to vertex i: the edge straddles p's latitude and p lies
      west of the edge's longitude at that latitude. Only a straddling edge is
      interpolated, and a straddling edge has distinct end latitudes, so the
      division is always defined. */
  predicate Crosses(ring: seq<Position>, i: nat, p: Position): (c: bool)
    requires i < |ring|
    ensures c ==> ring[i].latitude != ring[Trailing(ring, i)].latitude
    ensures c ==> p.longitude < ring[i].longitude || p.longitude < ring[Trailing(ring, i)].longitude
  {
    var j := Trailing(ring, i);
    var xi, yi, xj, yj := ring[i].longitude, ring[i].latitude, ring[j].longitude, ring[j].latitude;
    if (yi > p.latitude) != (yj > p.latitude) then
      var x := CrossingLongitude(xi, yi, xj, yj, p.latitude);
      InterpolationBetween(xi, yi, xj, yj, p.latitude);
      p.longitude < x
    else
      false
  }

  /** A straddled edge meets the latitude between its end longitudes. */
  lemma InterpolationBetween(xi: real, yi: real, xj: real, yj: real, lat: real)
    requires (yi > lat) != (yj > lat)
    ensures CrossingLongitude(xi, yi, xj, yj, lat) <= xi || CrossingLongitude(xi, yi, xj, yj, lat) <= xj
  {
    var num, den := lat - yi, yj - yi;
    var t := num / den;
    assert t * den == num;
    if den > 0.0 {
      assert 0.0 <= num <= den;
    } else {
      assert den <= num <= 0.0;
    }
    assert 0.0 <= t <= 1.0;
    assert CrossingLongitude(xi, yi, xj, yj, lat) == xi + (xj - xi) * t;
    if xj >= xi {
      assert (xj - xi) * (1.0 - t) >= 0.0;
    } else {
      assert (xi - xj) * t >= 0.0;
    }
  }

  /** The number of edges among those ending at vertices 0 .. k-1 that the ray crosses. */
  function Crossings(ring: seq<Position>, p: Position, k: nat): (n: nat)
    requires k <= |ring|
    ensures n <= k
  {
    if k == 0 then 0 else Crossings(ring, p, k - 1) + (if Crosses(ring, k - 1, p) then 1 else 0)
  }

  /** The parity flag after visiting the edges ending at vertices 0 .. k-1,
      flipped at every crossing. */
  predicate OddCrossings(ring: seq<Position>, p: Position, k: nat)
    requires k <= |ring|
  {
    if k == 0 then false else OddCrossings(ring, p, k - 1) != Crosses(ring, k - 1, p)
  }

  /** Flipping a flag at every crossing leaves it set exactly when the number of
      crossings is odd. */
  lemma {:induction false} OddCrossingsIsParity(ring: seq<Position>, p: Position, k: nat)
    requires k <= |ring|
    ensures OddCrossings(ring, p, k) <==> Crossings(ring, p, k) % 2 == 1
  {
    if k > 0 {
      OddCrossingsIsParity(ring, p, k - 1);
      var n := Crossings(ring, p, k - 1);
      if Crosses(ring, k - 1, p) {
        assert Crossings(ring, p, k) == n + 1;
        SuccessorParity(n);
      } else {
        assert Crossings(ring, p, k) == n;
      }
    }
  }

  lemma SuccessorParity(n: nat)
    ensures (n + 1) % 2 == 1 <==> n % 2 != 1
  {
  }

  /** Even-odd rule against a ring: at least three vertices and an odd number of crossings. */
  predicate InsideRing(ring: seq<Position>, p: Position) {
    |ring| >= 3 && Crossings(ring, p, |ring|) % 2 == 1
  }

  /** A point at or above every vertex, or strictly below every vertex, is
      straddled by no edge, so it is inside no ring. */
  lemma {:induction false} NoStraddleNoCrossing(ring: seq<Position>, p: Position, k: nat)
    requires k <= |ring|
    requires (forall v :: 0 <= v < |ring| ==> ring[v].latitude <= p.latitude)
          || (forall v :: 0 <= v < |ring| ==> ring[v].latitude > p.latitude)
    ensures Crossings(ring, p, k) == 0
  {
    if k > 0 {
      NoStraddleNoCrossing(ring, p, k - 1);
      var j := Trailing(ring, k - 1);
      assert (ring[k - 1].latitude > p.latitude) == (ring[j].latitude > p.latitude);
    }
  }

  lemma OutsideLatitudeRange(ring: seq<Position>, p: Position)
    requires (forall v :: 0 <= v < |ring| ==> ring[v].latitude <= p.latitude)
          || (forall v :: 0 <= v < |ring| ==> ring[v].latitude > p.latitude)
    ensures !InsideRing(ring, p)
  {
    NoStraddleNoCrossing(ring, p, |ring|);
  }

  // ---------------------------------------------------------------------------
  // Shoelace area

  /** The conversion factor from square degrees to hectares. */
  const HectaresPerSquareDegree: real := 12100.0

  /** The cross product of two positions, the summand of the Shoelace formula. */
  function Cross(a: Position, b: Position): real {
    a.longitude * b.latitude - b.longitude * a.latitude
  }

  /** The Shoelace summand for the edge from vertex i to the next vertex, wrapping to 0. */
  function ShoelaceTerm(ring: seq<Position>, i: nat): real
    requires i < |ring|
  {
    Cross(ring[i], ring[(i + 1) % |ring|])
  }

  /** The index after i, wrapping around: `(i + 1) % n` spelled out. */
  lemma NextIndex(i: nat, n: nat)
    requires i < n
    ensures (i + 1) % n == if i + 1 == n then 0 else i + 1
  {
  }

  /** The sum of the first k Shoelace summands. */
  function ShoelacePartial(ring: seq<Position>, k: nat): real
    requires k <= |ring|
  {
    if k == 0 then 0.0 else ShoelacePartial(ring, k - 1) + ShoelaceTerm(ring, k - 1)
  }

  /** Twice the signed area of the ring, positive when it runs counter-clockwise. */
  function SignedDoubleArea(ring: seq<Position>): real {
    ShoelacePartial(ring, |ring|)
  }

  /** The Shoelace sum of a closed four-sided ring a, b, c, d, a, summand by summand. */
  lemma ClosedQuadrilateral(a: Position, b: Position, c: Position, d: Position)
    ensures SignedDoubleArea([a, b, c, d, a]) == Cross(a, b) + Cross(b, c) + Cross(c, d) + Cross(d, a)
  {
    var ring := [a, b, c, d, a];
    NextIndex(0, 5); NextIndex(1, 5); NextIndex(2, 5); NextIndex(3, 5); NextIndex(4, 5);
    assert ShoelacePartial(ring, 1) == Cross(a, b);
    assert ShoelacePartial(ring, 2) == Cross(a, b) + Cross(b, c);
    assert ShoelacePartial(ring, 3) == Cross(a, b) + Cross(b, c) + Cross(c, d);
    assert ShoelacePartial(ring, 4) == Cross(a, b) + Cross(b, c) + Cross(c, d) + Cross(d, a);
  }

  function Abs(x: real): (a: real)
    ensures a >= 0.0 && (a == x || a == -x)
  {
    if x < 0.0 then -x else x
  }

  /** The approximate area in hectares of the region a ring encloses: zero for
      fewer than three vertices, never negative. */
  function RingAreaHectares(ring: seq<Position>): (h: real)
    ensures h >= 0.0
    ensures |ring| < 3 ==> h == 0.0
  {
    if |ring| < 3 then 0.0 else Abs(SignedDoubleArea(ring)) / 2.0 * HectaresPerSquareDegree
  }

  /** The open chain sum: the summands of consecutive vertices, without the closing edge. */
  function ChainSum(s: seq<Position>): real {
    if |s| < 2 then 0.0 else Cross(s[0], s[1]) + ChainSum(s[1..])
  }

  function Reverse(s: seq<Position>): (r: seq<Position>)
    ensures |r| == |s|
    ensures forall i :: 0 <= i < |s| ==> r[i] == s[|s| - 1 - i]
  {
    seq(|s|, i requires 0 <= i < |s| => s[|s| - 1 - i])
  }

  lemma CrossAntisymmetric(a: Position, b: Position)
    ensures Cross(b, a) == -Cross(a, b)
  {
  }

  /** Appending a vertex adds the summand of the new last edge. */
  lemma {:induction false} ChainSumSnoc(s: seq<Position>, x: Position)
    requires |s| >= 1
    ensures ChainSum(s + [x]) == ChainSum(s) + Cross(s[|s| - 1], x)
  {
    if |s| == 1 {
      assert s + [x] == [s[0], x];
    } else {
      assert (s + [x])[1..] == s[1..] + [x];
      ChainSumSnoc(s[1..], x);
    }
  }

  /** Walking the chain backwards negates its sum. */
  lemma {:induction false} ChainSumReverse(s: seq<Position>)
    ensures ChainSum(Reverse(s)) == -ChainSum(s)
  {
    if |s| >= 2 {
      var rest := Reverse(s[1..]);
      assert Reverse(s) == rest + [s[0]];
      ChainSumReverse(s[1..]);
      ChainSumSnoc(rest, s[0]);
      assert rest[|rest| - 1] == s[1];
      CrossAntisymmetric(s[0], s[1]);
    } else if |s| == 1 {
      assert Reverse(s) == s;
    } else {
      assert Reverse(s) == s;
    }
  }

  /** Before the last summand, the partial Shoelace sum is the chain sum of the
      vertices seen so far. */
  lemma {:induction false} PartialIsChain(ring: seq<Position>, k: nat)
    requires k < |ring|
    ensures ShoelacePartial(ring, k) == ChainSum(ring[..k + 1])
  {
    if k > 0 {
      var prefix, x := ring[..k], ring[k];
      PartialIsChain(ring, k - 1);
      assert ring[..k - 1 + 1] == prefix;
      assert ring[..k + 1] == prefix + [x];
      ChainSumSnoc(prefix, x);
      assert prefix[|prefix| - 1] == ring[k - 1];
      NextIndex(k - 1, |ring|);
    }
  }

  /** The full Shoelace sum is the chain sum plus the edge closing the ring. */
  lemma SignedAreaAsChain(ring: seq<Position>)
    requires |ring| >= 1
    ensures SignedDoubleArea(ring) == ChainSum(ring) + Cross(ring[|ring| - 1], ring[0])
  {
    var n := |ring|;
    PartialIsChain(ring, n - 1);
    assert ring[..n] == ring;
    NextIndex(n - 1, n);
  }

  /** Reversing the vertex order negates the signed area. */
  lemma SignedAreaReverse(ring: seq<Position>)
    ensures SignedDoubleArea(Reverse(ring)) == -SignedDoubleArea(ring)
  {
    var n := |ring|;
    if n >= 1 {
      var rev := Reverse(ring);
      SignedAreaAsChain(ring);
      SignedAreaAsChain(rev);
      ChainSumReverse(ring);
      CrossAntisymmetric(ring[n - 1], ring[0]);
    }
  }

  /** The area does not depend on the direction the ring is walked. */
  lemma AreaReversalInvariant(ring: seq<Position>)
    ensures RingAreaHectares(Reverse(ring)) == RingAreaHectares(ring)
  {
    SignedAreaReverse(ring);
  }

  /** A closed ring around an axis-aligned box spanning w degrees of longitude
      and h degrees of latitude encloses w * h square degrees. */
  lemma BoxArea(x0: real, y0: real, x1: real, y1: real)
    requires x0 <= x1 && y0 <= y1
    ensures RingAreaHectares([Position(x0, y0), Position(x1, y0), Position(x1, y1), Position(x0, y1), Position(x0, y0)])
            == (x1 - x0) * (y1 - y0) * HectaresPerSquareDegree
  {
    var a, b, c, d := Position(x0, y0), Position(x1, y0), Position(x1, y1), Position(x0, y1);
    ClosedQuadrilateral(a, b, c, d);
    var twice := Cross(a, b) + Cross(b, c) + Cross(c, d) + Cross(d, a);
    assert twice == 2.0 * ((x1 - x0) * (y1 - y0));
    assert (x1 - x0) * (y1 - y0) >= 0.0;
    assert Abs(twice) == twice;
  }
}
