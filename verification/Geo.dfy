/** Rectangles and distances (src/utils/geo.h) over real numbers. */
module Geo {
  datatype Point = Point(lat: real, lon: real)

  /** The parts of floating-point arithmetic that stay uninterpreted: the square root,
      the cosine of an angle in degrees, and the largest finite value. */
  datatype Numbers = Numbers(sqrt: real -> real, cosine: real -> real, max: real)

  function GeoDistance(m: Numbers, a: Point, b: Point): real {
    var dLat := a.lat - b.lat;
    var dLon := (a.lon - b.lon) * m.cosine((a.lat + b.lat) / 2.0);
    m.sqrt(dLat * dLat + dLon * dLon)
  }

  lemma DistanceSymmetric(m: Numbers, a: Point, b: Point)
    ensures GeoDistance(m, a, b) == GeoDistance(m, b, a)
  {
    var c := m.cosine((a.lat + b.lat) / 2.0);
    assert (a.lon - b.lon) * c == -((b.lon - a.lon) * c);
    SquareOfNegation(b.lat - a.lat);
    SquareOfNegation((b.lon - a.lon) * c);
  }

  lemma SquareOfNegation(x: real)
    ensures (-x) * (-x) == x * x
  {
  }

  /** The square root is the nonnegative one. */
  ghost predicate IsRoot(sqrt: real -> real) {
    forall x: real :: x >= 0.0 ==> sqrt(x) >= 0.0 && sqrt(x) * sqrt(x) == x
  }

  function Span(a: real, b: real): (r: real)
    ensures r >= 0.0 && (r == a - b || r == b - a)
  {
    if a < b then b - a else a - b
  }

  /** The distance is the hypotenuse over the way along the meridian and the way along the
      parallel, which the cosine of the middle latitude shortens. */
  lemma DistanceIsHypotenuse(m: Numbers, a: Point, b: Point)
    requires IsRoot(m.sqrt)
    ensures var d, shrink := GeoDistance(m, a, b), m.cosine((a.lat + b.lat) / 2.0);
            var north, east := Span(a.lat, b.lat), Span(a.lon, b.lon) * shrink;
            && d >= 0.0 && d * d == north * north + east * east
            && (a.lon == b.lon ==> d == north)
  {
    var d, shrink := GeoDistance(m, a, b), m.cosine((a.lat + b.lat) / 2.0);
    var x, y := a.lat - b.lat, (a.lon - b.lon) * shrink;
    SquareOfNegation(x);
    SquareOfNegation(y);
    assert Span(a.lon, b.lon) * shrink == y || Span(a.lon, b.lon) * shrink == -y;
    assert x * x >= 0.0 && y * y >= 0.0;
    if a.lon == b.lon {
      assert y == 0.0;
      SameSquare(d, Span(a.lat, b.lat));
    }
  }

  lemma SameSquare(a: real, b: real)
    requires a >= 0.0 && b >= 0.0 && a * a == b * b
    ensures a == b
  {
    if a < b { SquaresGrow(a, b); }
    if b < a { SquaresGrow(b, a); }
  }

  lemma SquaresGrow(a: real, b: real)
    requires 0.0 <= a < b
    ensures a * a < b * b
  {
    assert b * b - a * a == (b - a) * (a + b);
    PositiveProduct(b - a, a + b);
  }

  lemma PositiveProduct(x: real, y: real)
    requires x > 0.0 && y > 0.0
    ensures x * y > 0.0
  {
  }

  function Min(a: real, b: real): real { if b < a then b else a }

  function Max(a: real, b: real): real { if a < b then b else a }

  datatype Region = Region(minLat: real, maxLat: real, minLon: real, maxLon: real) {
    predicate Contains(p: Point) {
      p.lat >= minLat && p.lat <= maxLat && p.lon >= minLon && p.lon <= maxLon
    }

    /** This rectangle reaches at least as far as the other on every side. */
    predicate Covers(o: Region) {
      minLat <= o.minLat && o.maxLat <= maxLat && minLon <= o.minLon && o.maxLon <= maxLon
    }

    /** The centre of a quadrant: 0 = SW, 1 = SE, 2 = NW, 3 = NE. */
    function QuadrantCenter(q: int): Point {
      var midLat := (minLat + maxLat) / 2.0;
      var midLon := (minLon + maxLon) / 2.0;
      Point(if q >= 2 then (midLat + maxLat) / 2.0 else (minLat + midLat) / 2.0,
            if q % 2 == 1 then (midLon + maxLon) / 2.0 else (minLon + midLon) / 2.0)
    }

    function QuadrantOf(p: Point): (q: nat)
      ensures q < 4
    {
      (if p.lat >= (minLat + maxLat) / 2.0 then 2 else 0) + (if p.lon >= (minLon + maxLon) / 2.0 then 1 else 0)
    }
  }

  /** x lies halfway between the middle of [lo, hi] and the end that `at` is nearer to, the
      high end on ties: as far from the one as from the other. */
  predicate IsHalfway(lo: real, hi: real, at: real, x: real) {
    var mid := (lo + hi) / 2.0;
    if at - lo < hi - at then x - lo == mid - x else hi - x == x - mid
  }

  /** The centre of the quarter of a region that a place is nearest to, and that quarter's number. */
  predicate IsCentreFor(r: Region, p: Point, q: nat, centre: Point) {
    && IsHalfway(r.minLat, r.maxLat, p.lat, centre.lat) && IsHalfway(r.minLon, r.maxLon, p.lon, centre.lon)
    && q < 4 && (q >= 2 <==> r.maxLat - p.lat <= p.lat - r.minLat)
    && (q % 2 == 1 <==> r.maxLon - p.lon <= p.lon - r.minLon)
  }

  /** The quadrant of a place and its centre are those of the quarter the place is nearest to,
      and there is no other such quarter. */
  lemma QuadrantIsNearest(r: Region, p: Point, q: nat, centre: Point)
    ensures IsCentreFor(r, p, q, centre) <==> q == r.QuadrantOf(p) && centre == r.QuadrantCenter(q)
  {
  }

  /** The four centres lie in their own quadrants, as far from the region's middle lines as from
      its outer sides. */
  lemma QuadrantCentres(r: Region, q: nat)
    requires q < 4 && r.minLat < r.maxLat && r.minLon < r.maxLon
    ensures var x := r.QuadrantCenter(q);
            var midLat, midLon := (r.minLat + r.maxLat) / 2.0, (r.minLon + r.maxLon) / 2.0;
            && r.Contains(x) && r.QuadrantOf(x) == q
            && (if q == 0 || q == 1 then midLat - x.lat == x.lat - r.minLat > 0.0
                else x.lat - midLat == r.maxLat - x.lat > 0.0)
            && (if q == 0 || q == 2 then midLon - x.lon == x.lon - r.minLon > 0.0
                else x.lon - midLon == r.maxLon - x.lon > 0.0)
  {
  }

  function PointRegion(p: Point): Region {
    Region(p.lat, p.lat, p.lon, p.lon)
  }

  function Merge(a: Region, b: Region): Region {
    Region(Min(a.minLat, b.minLat), Max(a.maxLat, b.maxLat), Min(a.minLon, b.minLon), Max(a.maxLon, b.maxLon))
  }

  /** A rectangle covers a merge exactly when it covers both parts: merge is the least upper bound. */
  lemma MergeIsLeast(a: Region, b: Region, r: Region)
    ensures r.Covers(Merge(a, b)) <==> r.Covers(a) && r.Covers(b)
  {
  }

  lemma CoversAntisymmetric(a: Region, b: Region)
    requires a.Covers(b) && b.Covers(a)
    ensures a == b
  {
  }
}
