/**
 The point-in-polygon test of `app.py`, the park boundary rows of `download_nps_trails.py`,
 and the bounding-box prefilter between them, over exact reals.
 */
module ParkPolygon {
  import opened Common
  import opened Reals

  datatype Point = Point(lon: real, lat: real)

  /** A linear ring: positions in order; the edge from the last to the first closes it. */
  type Ring = seq<Point>

  // ---------- One edge ----------

  /** The edge has one end above the latitude and one not above it. */
  predicate Straddles(a: Point, b: Point, lat: real) {
    (b.lat > lat) != (a.lat > lat)
  }

  function OrTiny(d: real): (r: real)
    ensures r != 0.0
  {
    if d == 0.0 then 0.000000000001 else d
  }

  /** The longitude at which the line through `a` and `b` meets the latitude. */
  function MeetsAt(a: Point, b: Point, lat: real): real {
    (a.lon - b.lon) * (lat - b.lat) / OrTiny(a.lat - b.lat) + b.lon
  }

  /** The edge from `a` to `b` crosses the ray that leaves (lon, lat) eastwards. */
  predicate Crosses(a: Point, b: Point, p: Point) {
    Straddles(a, b, p.lat) && p.lon < MeetsAt(a, b, p.lat)
  }

  /** The number a fraction `t` of the way from `x` to `y`. */
  function Mix(x: real, y: real, t: real): real {
    x + t * (y - x)
  }

  /** What a straddling edge's meeting point is: a point part of the way along the edge. */
  lemma MeetsPartWay(a: Point, b: Point, lat: real) returns (t: real)
    requires Straddles(a, b, lat)
    ensures 0.0 <= t <= 1.0 && MeetsAt(a, b, lat) == Mix(b.lon, a.lon, t)
    ensures t * (a.lat - b.lat) == lat - b.lat
  {
    var d, n, w := a.lat - b.lat, lat - b.lat, a.lon - b.lon;
    t := n / d;
    Ratio(n, d, w, t);
  }

  lemma Ratio(n: real, d: real, w: real, t: real)
    requires d != 0.0 && t == n / d
    requires (d > 0.0 && 0.0 <= n <= d) || (d < 0.0 && d <= n <= 0.0)
    ensures 0.0 <= t <= 1.0 && w * n / d == t * w && t * d == n
  {
    assert t * d == n;
    if t < 0.0 { MulSign(-t, if d > 0.0 then d else -d); }
    if t > 1.0 { MulSign(t - 1.0, if d > 0.0 then d else -d); }
  }

  /** The test does not depend on the direction of the edge. */
  lemma CrossesSymmetric(a: Point, b: Point, p: Point)
    ensures Crosses(a, b, p) == Crosses(b, a, p)
  {
    if Straddles(a, b, p.lat) {
      var t := MeetsPartWay(a, b, p.lat);
      var u := MeetsPartWay(b, a, p.lat);
      PartsMeet(a.lat, b.lat, p.lat, a.lon, b.lon, t, u);
      hide MeetsAt, Mix;
    }
  }

  lemma PartsMeet(y1: real, y2: real, y: real, x1: real, x2: real, t: real, u: real)
    requires y1 != y2 && t * (y1 - y2) == y - y2 && u * (y2 - y1) == y - y1
    ensures Mix(x2, x1, t) == Mix(x1, x2, u)
  {
    assert (t + u) * (y1 - y2) == y1 - y2;
    assert t + u == 1.0;
    calc { x1 + u * (x2 - x1); == { assert u == 1.0 - t; } x1 + (1.0 - t) * (x2 - x1); == x2 + t * (x1 - x2); }
  }

  // ---------- Paths and rings ----------

  function One(b: bool): nat {
    if b then 1 else 0
  }

  /** How many edges of a path cross the ray from `p`. */
  function Crossings(path: seq<Point>, p: Point): nat {
    if |path| < 2 then 0 else One(Crosses(path[0], path[1], p)) + Crossings(path[1..], p)
  }

  /** The ring as a closed path: from its last position round to its last position. */
  function Closed(ring: Ring): seq<Point>
    requires ring != []
  {
    [ring[|ring| - 1]] + ring
  }

  /** The even-odd rule of the polygon test: an odd number of edges crosses the ray. */
  predicate Inside(p: Point, ring: Ring) {
    ring != [] && Crossings(Closed(ring), p) % 2 == 1
  }

  /** The path grows by one edge at its end. */
  lemma {:induction false} CrossingsAppend(path: seq<Point>, q: Point, p: Point)
    requires path != []
    ensures Crossings(path + [q], p) == Crossings(path, p) + One(Crosses(path[|path| - 1], q, p))
  {
    var longer := path + [q];
    if |path| == 1 {
      assert longer[1..] == [q];
    } else {
      assert longer[1..] == path[1..] + [q];
      CrossingsAppend(path[1..], q, p);
    }
  }

  /** `_point_in_ring`: `inside` toggles at every crossing edge. */
  method PointInRing(lon: real, lat: real, ring: Ring) returns (inside: bool)
    ensures inside == Inside(Point(lon, lat), ring)
  {
    hide Crosses, Crossings, MeetsAt;
    inside := false;
    if ring == [] { return false; }
    var p := Point(lon, lat);
    ghost var path := Closed(ring);
    NoCrossing(path[..1], p);
    var j := |ring| - 1;
    for i := 0 to |ring|
      invariant 0 <= j < |ring| && ring[j] == path[i]
      invariant inside == (Crossings(path[..i + 1], p) % 2 == 1)
    {
      var xi, yi := ring[i].lon, ring[i].lat;
      var xj, yj := ring[j].lon, ring[j].lat;
      CrossesIs(ring[j], ring[i], p);
      var intersects := (yi > lat) != (yj > lat) && lon < (xj - xi) * (lat - yi) / OrTiny(yj - yi) + xi;
      PathStep(path, i, p);
      if intersects { inside := !inside; }
      j := i;
    }
    assert path[..|ring| + 1] == path;
  }

  lemma CrossesIs(a: Point, b: Point, p: Point)
    ensures Crosses(a, b, p)
            <==> (b.lat > p.lat) != (a.lat > p.lat)
                 && p.lon < (a.lon - b.lon) * (p.lat - b.lat) / OrTiny(a.lat - b.lat) + b.lon
  {
  }

  lemma NoCrossing(path: seq<Point>, p: Point)
    requires |path| < 2
    ensures Crossings(path, p) == 0
  {
  }

  lemma PathStep(path: seq<Point>, i: nat, p: Point)
    requires i + 1 < |path|
    ensures Crossings(path[..i + 2], p) == Crossings(path[..i + 1], p) + One(Crosses(path[i], path[i + 1], p))
  {
    assert path[..i + 2] == path[..i + 1] + [path[i + 1]];
    CrossingsAppend(path[..i + 1], path[i + 1], p);
  }

  /** Two paths that share an end make one path. */
  lemma {:induction false} CrossingsJoin(a: seq<Point>, b: seq<Point>, p: Point)
    requires a != []
    ensures Crossings(a + b, p) == Crossings(a, p) + Crossings([a[|a| - 1]] + b, p)
  {
    if |a| == 1 {
      assert a + b == [a[0]] + b;
    } else {
      assert (a + b)[1..] == a[1..] + b;
      CrossingsJoin(a[1..], b, p);
    }
  }

  /** Starting the ring at another position changes nothing. */
  lemma RotationInvariant(p: Point, ring: Ring, k: nat)
    requires k <= |ring|
    ensures Inside(p, ring[k..] + ring[..k]) == Inside(p, ring)
  {
    var a, b := ring[..k], ring[k..];
    assert ring == a + b;
    if 0 < k < |ring| {
      TwoArcs(a, b, p);
      TwoArcs(b, a, p);
      hide Crossings;
    } else {
      assert b + a == ring;
    }
  }

  /** A ring of two arcs: each arc, entered from the end of the other. */
  lemma TwoArcs(a: Ring, b: Ring, p: Point)
    requires a != [] && b != []
    ensures Crossings(Closed(a + b), p) == Crossings([b[|b| - 1]] + a, p) + Crossings([a[|a| - 1]] + b, p)
  {
    hide Crosses, Crossings;
    assert Closed(a + b) == ([b[|b| - 1]] + a) + b;
    CrossingsJoin([b[|b| - 1]] + a, b, p);
  }

  function Reverse(ring: Ring): (r: Ring)
    ensures |r| == |ring|
  {
    if ring == [] then [] else Reverse(ring[1..]) + [ring[0]]
  }

  lemma {:induction false} ReverseEnds(ring: Ring)
    requires ring != []
    ensures Reverse(ring)[0] == ring[|ring| - 1] && Reverse(ring)[|ring| - 1] == ring[0]
  {
    if |ring| > 1 { ReverseEnds(ring[1..]); }
  }

  lemma {:induction false} ReverseCrossings(path: seq<Point>, p: Point)
    ensures Crossings(Reverse(path), p) == Crossings(path, p)
  {
    if |path| >= 2 {
      ReverseCrossings(path[1..], p);
      ReverseEnds(path[1..]);
      CrossingsAppend(Reverse(path[1..]), path[0], p);
      CrossesSymmetric(path[0], path[1], p);
    }
  }

  lemma {:induction false} ReverseAppend(ring: Ring, q: Point)
    ensures Reverse(ring + [q]) == [q] + Reverse(ring)
  {
    if ring == [] {
      assert [] + [q] == [q] && Reverse([q]) == Reverse([]) + [q];
    } else {
      ReverseAppend(ring[1..], q);
      assert (ring + [q])[1..] == ring[1..] + [q];
      assert ([q] + Reverse(ring[1..])) + [ring[0]] == [q] + (Reverse(ring[1..]) + [ring[0]]);
    }
  }

  /** Walking the ring the other way round changes nothing. */
  lemma ReversalInvariant(p: Point, ring: Ring)
    ensures Inside(p, Reverse(ring)) == Inside(p, ring)
  {
    if ring != [] {
      var back := Reverse(ring);
      var last := ring[|ring| - 1];
      ReverseEnds(ring);
      ReverseCrossings(Closed(ring), p);
      assert Reverse(Closed(ring)) == back + [last] by { assert Closed(ring)[1..] == ring; }
      CrossingsAppend(back, last, p);
      assert Closed(back)[1..] == back;
      CrossesSymmetric(ring[0], last, p);
    }
  }

  // ---------- The bounding box ----------

  datatype Box = Box(west: real, south: real, east: real, north: real)

  predicate Covers(box: Box, q: Point) {
    box.west <= q.lon <= box.east && box.south <= q.lat <= box.north
  }

  predicate CoversAll(box: Box, path: seq<Point>) {
    forall k :: 0 <= k < |path| ==> Covers(box, path[k])
  }

  /** West of a path every straddling edge crosses, so the parity is that of the ends. */
  lemma {:induction false} WestParity(path: seq<Point>, p: Point, box: Box)
    requires path != [] && CoversAll(box, path) && p.lon < box.west
    ensures Crossings(path, p) % 2 == 1 <==> (path[0].lat > p.lat) != (path[|path| - 1].lat > p.lat)
  {
    if |path| >= 2 {
      var a, b := path[0], path[1];
      assert Covers(box, a) && Covers(box, b);
      WestParity(path[1..], p, box);
      if Straddles(a, b, p.lat) { MeetsWithin(a, b, p.lat, box); }
    }
  }

  /** A straddling edge meets the latitude inside the box of its ends. */
  lemma MeetsWithin(a: Point, b: Point, lat: real, box: Box)
    requires Straddles(a, b, lat) && Covers(box, a) && Covers(box, b)
    ensures box.west <= MeetsAt(a, b, lat) <= box.east
  {
    var t := MeetsPartWay(a, b, lat);
    Mixes(b.lon, a.lon, t);
    hide MeetsAt, Mix;
  }

  lemma Mixes(x: real, y: real, t: real)
    requires 0.0 <= t <= 1.0
    ensures (if x <= y then x else y) <= Mix(x, y, t) <= (if x <= y then y else x)
  {
    if x <= y {
      TimesNonNeg(t, y - x);
      TimesNonNeg(1.0 - t, y - x);
      calc { y - (x + t * (y - x)); == Times(1.0 - t, y - x); }
      calc { (x + t * (y - x)) - x; == Times(t, y - x); }
    } else {
      TimesNonNeg(t, x - y);
      TimesNonNeg(1.0 - t, x - y);
      calc { (x + t * (y - x)) - y; == Times(1.0 - t, x - y); }
      calc { x - (x + t * (y - x)); == Times(t, x - y); }
    }
  }

  /** East of a path, above it or below it, no edge crosses. */
  lemma {:induction false} NoCrossingOutside(path: seq<Point>, p: Point, box: Box)
    requires CoversAll(box, path) && (p.lon >= box.east || p.lat >= box.north || p.lat < box.south)
    ensures Crossings(path, p) == 0
  {
    if |path| >= 2 {
      var a, b := path[0], path[1];
      assert Covers(box, a) && Covers(box, b);
      NoCrossingOutside(path[1..], p, box);
      if Straddles(a, b, p.lat) { MeetsWithin(a, b, p.lat, box); }
    }
  }

  /** The test is true only inside any box that covers the ring: a closed ring crosses any
      horizontal line an even number of times. */
  lemma InsideOnlyInBox(p: Point, ring: Ring, box: Box)
    requires CoversAll(box, ring) && Inside(p, ring)
    ensures box.west <= p.lon < box.east && box.south <= p.lat < box.north
  {
    var path := Closed(ring);
    assert CoversAll(box, path);
    if p.lon < box.west {
      WestParity(path, p, box);
    } else if !(p.lon < box.east && box.south <= p.lat < box.north) {
      NoCrossingOutside(path, p, box);
    }
  }

  // ---------- Polygons with holes ----------

  /** The GeoJSON geometries the test distinguishes (section 3.1.6 of RFC 7946): the first
      ring of a polygon is its outline, the others are holes. */
  datatype Geometry =
    | NoGeometry
    | Polygon(rings: seq<Ring>)
    | MultiPolygon(polygons: seq<seq<Ring>>)
    | OtherGeometry

  predicate InPolygon(p: Point, rings: seq<Ring>) {
    rings != [] && Inside(p, rings[0]) && forall k :: 1 <= k < |rings| ==> !Inside(p, rings[k])
  }

  function PolygonsOf(g: Geometry): seq<seq<Ring>> {
    match g
    case Polygon(rings) => [rings]
    case MultiPolygon(polygons) => polygons
    case _ => []
  }

  predicate InSomePolygon(p: Point, polygons: seq<seq<Ring>>) {
    exists k :: 0 <= k < |polygons| && InPolygon(p, polygons[k])
  }

  predicate InGeometry(p: Point, g: Geometry) {
    InSomePolygon(p, PolygonsOf(g))
  }

  /** `any(_point_in_ring(lon, lat, hole) for hole in holes)`. */
  method InAnyHole(lon: real, lat: real, rings: seq<Ring>) returns (any: bool)
    requires rings != []
    ensures any <==> exists k :: 1 <= k < |rings| && Inside(Point(lon, lat), rings[k])
  {
    hide Inside;
    for k := 1 to |rings|
      invariant forall i :: 1 <= i < k ==> !Inside(Point(lon, lat), rings[i])
    {
      var inside := PointInRing(lon, lat, rings[k]);
      if inside { return true; }
    }
    return false;
  }

  /** `_point_in_geojson_polygon`. */
  method PointInGeojsonPolygon(lon: real, lat: real, g: Geometry) returns (found: bool)
    ensures found == InGeometry(Point(lon, lat), g)
  {
    hide Inside;
    var p := Point(lon, lat);
    var polygons: seq<seq<Ring>>;
    match g {
      case NoGeometry => return false;
      case OtherGeometry => return false;
      case Polygon(rings) => polygons := [rings];
      case MultiPolygon(ps) => polygons := ps;
    }
    assert polygons == PolygonsOf(g);
    for k := 0 to |polygons|
      invariant forall i :: 0 <= i < k ==> !InPolygon(p, polygons[i])
    {
      var rings := polygons[k];
      if rings != [] {
        var outer := PointInRing(lon, lat, rings[0]);
        if outer {
          var inHole := InAnyHole(lon, lat, rings);
          if !inHole { return true; }
        }
      }
    }
    return false;
  }

  // ---------- Boundary rows ----------

  /** `_bbox_from_coords`. */
  method BboxFromCoords(coords: seq<Point>) returns (box: Option<Box>)
    ensures box.None? <==> coords == []
    ensures box.Some? ==> Tight(box.value, coords)
  {
    if coords == [] { return None; }
    var b := Box(coords[0].lon, coords[0].lat, coords[0].lon, coords[0].lat);
    for k := 1 to |coords|
      invariant Tight(b, coords[..k])
    {
      var q := coords[k];
      assert coords[..k + 1] == coords[..k] + [q];
      TightGrows(b, coords[..k], q);
      b := Grown(b, q);
    }
    assert coords[..|coords|] == coords;
    return Some(b);
  }

  function Grown(b: Box, q: Point): Box {
    Box(if q.lon < b.west then q.lon else b.west, if q.lat < b.south then q.lat else b.south,
        if q.lon > b.east then q.lon else b.east, if q.lat > b.north then q.lat else b.north)
  }

  /** The smallest box that covers the points: every side passes through one of them. */
  ghost predicate Tight(box: Box, coords: seq<Point>) {
    && CoversAll(box, coords)
    && (exists q :: q in coords && q.lon == box.west) && (exists q :: q in coords && q.lat == box.south)
    && (exists q :: q in coords && q.lon == box.east) && (exists q :: q in coords && q.lat == box.north)
  }

  lemma TightGrows(b: Box, coords: seq<Point>, q: Point)
    requires Tight(b, coords)
    ensures Tight(Grown(b, q), coords + [q])
  {
    var all := coords + [q];
    assert q == all[|coords|] && q in all;
    var w :| w in coords && w.lon == b.west;
    var s :| s in coords && s.lat == b.south;
    var e :| e in coords && e.lon == b.east;
    var n :| n in coords && n.lat == b.north;
    assert w in all && s in all && e in all && n in all;
    forall k | 0 <= k < |all|
      ensures Covers(Grown(b, q), all[k])
    {
      if k < |coords| { assert Covers(b, coords[k]); }
    }
  }

  function Points(rings: seq<Ring>): seq<Point> {
    if rings == [] then [] else rings[0] + Points(rings[1..])
  }

  function Singletons(rings: seq<Ring>): seq<seq<Ring>> {
    seq(|rings|, k requires 0 <= k < |rings| => [rings[k]])
  }

  datatype Park = Park(geometry: Geometry, box: Option<Box>)

  /** The boundary row a downloaded unit gets: each ring becomes a polygon of its own. */
  method BoundaryRow(rings: seq<Ring>) returns (park: Park)
    ensures BuiltFrom(park, rings)
  {
    if rings == [] { return Park(NoGeometry, None); }
    var box := BboxFromCoords(Points(rings));
    return Park(MultiPolygon(Singletons(rings)), box);
  }

  ghost predicate BuiltFrom(park: Park, rings: seq<Ring>) {
    && park.geometry == (if rings == [] then NoGeometry else MultiPolygon(Singletons(rings)))
    && (park.box.None? <==> Points(rings) == [])
    && (park.box.Some? ==> CoversAll(park.box.value, Points(rings)))
  }

  lemma {:induction false} RingCovered(rings: seq<Ring>, box: Box, k: nat)
    requires k < |rings| && CoversAll(box, Points(rings))
    ensures CoversAll(box, rings[k])
  {
    var all := Points(rings);
    assert all == rings[0] + Points(rings[1..]);
    if k == 0 {
      assert forall i :: 0 <= i < |rings[0]| ==> all[i] == rings[0][i];
    } else {
      forall i | 0 <= i < |Points(rings[1..])|
        ensures Covers(box, Points(rings[1..])[i])
      {
        assert all[|rings[0]| + i] == Points(rings[1..])[i];
      }
      RingCovered(rings[1..], box, k - 1);
    }
  }

  predicate InSomeRing(p: Point, rings: seq<Ring>) {
    exists k :: 0 <= k < |rings| && Inside(p, rings[k])
  }

  /** A point is in a built park exactly when it is inside some ring: holes are not cut out. */
  lemma BuiltParkIsUnion(p: Point, park: Park, rings: seq<Ring>)
    requires BuiltFrom(park, rings)
    ensures InGeometry(p, park.geometry) <==> InSomeRing(p, rings)
  {
    hide Inside;
    var polygons := PolygonsOf(park.geometry);
    if k :| 0 <= k < |polygons| && InPolygon(p, polygons[k]) {
      assert Inside(p, rings[k]);
    }
    if k :| 0 <= k < |rings| && Inside(p, rings[k]) {
      assert polygons[k] == [rings[k]];
      assert InPolygon(p, polygons[k]);
    }
  }

  /** All rings of the polygons of an area. */
  function RingsOf(polygons: seq<seq<Ring>>): seq<Ring> {
    if polygons == [] then [] else polygons[0] + RingsOf(polygons[1..])
  }

  /** The point is inside a hole of one of the polygons. */
  predicate InHole(p: Point, polygons: seq<seq<Ring>>) {
    exists i, k :: 0 <= i < |polygons| && 1 <= k < |polygons[i]| && Inside(p, polygons[i][k])
  }

  /** A park built from the rings of an area has exactly the points of the area and those in its holes. */
  lemma HolesCountExactlyWhen(p: Point, park: Park, polygons: seq<seq<Ring>>)
    requires BuiltFrom(park, RingsOf(polygons))
    ensures InGeometry(p, park.geometry) <==> InGeometry(p, MultiPolygon(polygons)) || InHole(p, polygons)
  {
    BuiltParkIsUnion(p, park, RingsOf(polygons));
    RingsAreArea(p, polygons);
    assert PolygonsOf(MultiPolygon(polygons)) == polygons;
    hide InSomePolygon, InSomeRing, InHole, BuiltFrom;
  }

  lemma RingsAreArea(p: Point, polygons: seq<seq<Ring>>)
    ensures InSomeRing(p, RingsOf(polygons)) <==> InSomePolygon(p, polygons) || InHole(p, polygons)
  {
    hide Inside, RingsOf;
    if InSomePolygon(p, polygons) {
      var i :| 0 <= i < |polygons| && InPolygon(p, polygons[i]);
      var k := RingPlace(polygons, i, 0);
    }
    if InHole(p, polygons) {
      var i, j :| 0 <= i < |polygons| && 1 <= j < |polygons[i]| && Inside(p, polygons[i][j]);
      var k := RingPlace(polygons, i, j);
    }
    if InSomeRing(p, RingsOf(polygons)) {
      var k :| 0 <= k < |RingsOf(polygons)| && Inside(p, RingsOf(polygons)[k]);
      var i, j := RingOrigin(polygons, k);
      if j == 0 && !InHole(p, polygons) { assert InPolygon(p, polygons[i]); }
    }
  }

  lemma {:induction false} RingPlace(polygons: seq<seq<Ring>>, i: nat, j: nat) returns (k: nat)
    requires i < |polygons| && j < |polygons[i]|
    ensures k < |RingsOf(polygons)| && RingsOf(polygons)[k] == polygons[i][j]
  {
    if i == 0 {
      k := j;
    } else {
      k := RingPlace(polygons[1..], i - 1, j);
      k := k + |polygons[0]|;
    }
  }

  lemma {:induction false} RingOrigin(polygons: seq<seq<Ring>>, k: nat) returns (i: nat, j: nat)
    requires k < |RingsOf(polygons)|
    ensures i < |polygons| && j < |polygons[i]| && RingsOf(polygons)[k] == polygons[i][j]
  {
    if k < |polygons[0]| {
      i, j := 0, k;
    } else {
      i, j := RingOrigin(polygons[1..], k - |polygons[0]|);
      i := i + 1;
    }
  }

  function Square(low: real, high: real): Ring {
    [Point(low, low), Point(high, low), Point(high, high), Point(low, high)]
  }

  /** The middle of a square with a square hole: not in the area, but in the park built from its rings. */
  lemma HoleIsCounted(park: Park)
    requires BuiltFrom(park, [Square(0.0, 10.0), Square(4.0, 6.0)])
    ensures !InGeometry(Point(5.0, 5.0), Polygon([Square(0.0, 10.0), Square(4.0, 6.0)]))
    ensures InGeometry(Point(5.0, 5.0), park.geometry)
  {
    var rings := [Square(0.0, 10.0), Square(4.0, 6.0)];
    BuiltParkIsUnion(Point(5.0, 5.0), park, rings);
    MiddleInside(4.0, 6.0);
    hide BuiltFrom, Square, Inside;
    assert Inside(Point(5.0, 5.0), rings[1]);
    assert PolygonsOf(Polygon(rings))[0] == rings;
  }

  lemma MiddleInside(low: real, high: real)
    requires low < 5.0 < high
    ensures Inside(Point(5.0, 5.0), Square(low, high))
  {
    var p, a, b, c, d := Point(5.0, 5.0), Point(low, low), Point(high, low), Point(high, high), Point(low, high);
    assert !Crosses(d, a, p) by { assert MeetsAt(d, a, 5.0) == low; }
    assert !Crosses(a, b, p) && !Crosses(c, d, p);
    assert Crosses(b, c, p) by { assert MeetsAt(b, c, 5.0) == high; }
    hide Crosses;
    assert Closed(Square(low, high)) == [d, a, b, c, d];
    assert Crossings([d], p) == 0;
    assert [d, a, b, c, d][1..] == [a, b, c, d] && [a, b, c, d][1..] == [b, c, d];
    assert [b, c, d][1..] == [c, d] && [c, d][1..] == [d];
    assert Crossings([c, d], p) == 0 && Crossings([b, c, d], p) == 1 && Crossings([a, b, c, d], p) == 1;
  }

  /** A point in a built park lies in the park's box, which therefore exists. */
  lemma InParkInBox(p: Point, park: Park, rings: seq<Ring>)
    requires BuiltFrom(park, rings) && InGeometry(p, park.geometry)
    ensures park.box.Some? && Covers(park.box.value, p)
  {
    var polygons := PolygonsOf(park.geometry);
    var k :| 0 <= k < |polygons| && InPolygon(p, polygons[k]);
    assert polygons[k] == [rings[k]] && Inside(p, rings[k]);
    hide Inside;
    PointsHave(rings, k);
    RingCovered(rings, park.box.value, k);
    InsideOnlyInBox(p, rings[k], park.box.value);
  }

  lemma {:induction false} PointsHave(rings: seq<Ring>, k: nat)
    requires k < |rings| && rings[k] != []
    ensures Points(rings) != []
  {
    if k > 0 { PointsHave(rings[1..], k - 1); }
  }

  // ---------- The prefilter ----------

  /** A trail row, in the name order of the query: whether it has a name, the name stripped, and its length or 0. */
  datatype Trail = Trail(id: int, named: bool, name: string, parkCode: string, box: Box, length: real)

  const ROW_LIMIT: nat := 12000

  /** The bounding-box condition of the query; a park without a box matches nothing. */
  predicate Overlaps(t: Trail, box: Option<Box>) {
    && box.Some?
    && t.box.east >= box.value.west && t.box.west <= box.value.east
    && t.box.north >= box.value.south && t.box.south <= box.value.north
  }

  function Center(b: Box): Point {
    Point((b.west + b.east) / 2.0, (b.south + b.north) / 2.0)
  }

  /** What a row is selected by: the two queries' conditions and the exact test. */
  datatype Filter =
    | Named
    | Coded(code: string)
    | Near(box: Option<Box>)
    | InPark(parkCode: string, geometry: Geometry)

  predicate Matches(f: Filter, t: Trail) {
    match f
    case Named => t.named
    case Coded(code) => t.named && t.parkCode == code
    case Near(box) => t.named && Overlaps(t, box)
    case InPark(code, geometry) => t.parkCode == code || InGeometry(Center(t.box), geometry)
  }

  function Select(trails: seq<Trail>, f: Filter): seq<Trail> {
    if trails == [] then []
    else (if Matches(f, trails[0]) then [trails[0]] else []) + Select(trails[1..], f)
  }

  function Limit(rows: seq<Trail>): seq<Trail> {
    if |rows| <= ROW_LIMIT then rows else rows[..ROW_LIMIT]
  }

  lemma {:induction false} SelectAppend(a: seq<Trail>, b: seq<Trail>, f: Filter)
    ensures Select(a + b, f) == Select(a, f) + Select(b, f)
  {
    hide Matches;
    if a == [] {
      assert a + b == b;
    } else {
      var ab := a + b;
      assert ab[0] == a[0] && ab[1..] == a[1..] + b;
      SelectAppend(a[1..], b, f);
      SelectStep(ab, f);
      SelectStep(a, f);
      hide Select;
      var first := if Matches(f, a[0]) then [a[0]] else [];
      assert first + (Select(a[1..], f) + Select(b, f)) == (first + Select(a[1..], f)) + Select(b, f);
    }
  }

  lemma SelectStep(trails: seq<Trail>, f: Filter)
    requires trails != []
    ensures Select(trails, f) == (if Matches(f, trails[0]) then [trails[0]] else []) + Select(trails[1..], f)
  {
  }

  /** A query: the rows in order that satisfy the condition, up to the row limit. */
  method Query(trails: seq<Trail>, f: Filter) returns (rows: seq<Trail>)
    ensures rows == Limit(Select(trails, f))
  {
    rows := [];
    for k := 0 to |trails|
      invariant rows == Limit(Select(trails[..k], f))
    {
      assert trails[..k + 1] == trails[..k] + [trails[k]];
      SelectAppend(trails[..k], [trails[k]], f);
      if |rows| < ROW_LIMIT && Matches(f, trails[k]) { rows := rows + [trails[k]]; }
    }
    assert trails[..|trails|] == trails;
  }

  /** The two queries and the exact test of `api_hiking_park_trails`, before rows are merged by name
      (module TrailList). */
  method ParkTrails(trails: seq<Trail>, code: string, park: Park) returns (kept: seq<Trail>)
    ensures kept == ParkTrailsSpec(trails, code, park)
  {
    hide InGeometry;
    var rows := Query(trails, Coded(code));
    if rows == [] {
      rows := Query(trails, Near(park.box));
    }
    kept := KeepInPark(rows, code, park.geometry);
  }

  method KeepInPark(rows: seq<Trail>, code: string, geometry: Geometry) returns (kept: seq<Trail>)
    ensures kept == Select(rows, InPark(code, geometry))
  {
    hide InGeometry;
    kept := [];
    for k := 0 to |rows|
      invariant kept == Select(rows[..k], InPark(code, geometry))
    {
      assert rows[..k + 1] == rows[..k] + [rows[k]];
      SelectAppend(rows[..k], [rows[k]], InPark(code, geometry));
      var c := Center(rows[k].box);
      var inPark := rows[k].parkCode == code;
      if !inPark { inPark := PointInGeojsonPolygon(c.lon, c.lat, geometry); }
      if inPark { kept := kept + [rows[k]]; }
    }
    assert rows[..|rows|] == rows;
  }

  function ParkTrailsSpec(trails: seq<Trail>, code: string, park: Park): seq<Trail> {
    var coded := Limit(Select(trails, Coded(code)));
    var rows := if coded == [] then Limit(Select(trails, Near(park.box))) else coded;
    Select(rows, InPark(code, park.geometry))
  }

  /** The named trails that pass the exact test, with no bounding box and no limit. */
  function ExactTrails(trails: seq<Trail>, code: string, park: Park): seq<Trail> {
    Select(Select(trails, Named), InPark(code, park.geometry))
  }

  predicate ProperBoxes(trails: seq<Trail>) {
    forall t :: t in trails ==> t.box.west <= t.box.east && t.box.south <= t.box.north
  }

  /** A named trail outside the bounding-box condition fails the exact test. */
  lemma NearKeepsInPark(t: Trail, code: string, park: Park, rings: seq<Ring>)
    requires BuiltFrom(park, rings)
    requires t.box.west <= t.box.east && t.box.south <= t.box.north
    requires !Matches(Coded(code), t) && Matches(Named, t) && Matches(InPark(code, park.geometry), t)
    ensures Matches(Near(park.box), t)
  {
    InParkInBox(Center(t.box), park, rings);
  }

  /** Two conditions that agree on every row passing a second filter select the same rows through it. */
  lemma {:induction false} SelectThrough(trails: seq<Trail>, f: Filter, g: Filter, last: Filter)
    requires forall t :: t in trails && Matches(last, t) ==> Matches(f, t) == Matches(g, t)
    ensures Select(Select(trails, f), last) == Select(Select(trails, g), last)
  {
    hide Matches;
    if trails != [] {
      var t := trails[0];
      SelectThrough(trails[1..], f, g, last);
      SelectAppend(if Matches(f, t) then [t] else [], Select(trails[1..], f), last);
      SelectAppend(if Matches(g, t) then [t] else [], Select(trails[1..], g), last);
      assert t in trails;
    }
  }

  lemma {:induction false} NoneMatch(trails: seq<Trail>, f: Filter, t: Trail)
    requires Select(trails, f) == [] && t in trails
    ensures !Matches(f, t)
  {
    hide Matches;
    if t != trails[0] { NoneMatch(trails[1..], f, t); }
  }

  /** The prefilter is lossless: with no trail carrying the park's code, the route returns exactly
      the trails the exact test keeps if and only if no such trail lies past the row limit. */
  lemma PrefilterLossless(trails: seq<Trail>, code: string, park: Park, rings: seq<Ring>)
    requires BuiltFrom(park, rings) && ProperBoxes(trails)
    requires Select(trails, Coded(code)) == []
    ensures var near, exact := Select(trails, Near(park.box)), InPark(code, park.geometry);
            ParkTrailsSpec(trails, code, park) == ExactTrails(trails, code, park)
            <==> |near| <= ROW_LIMIT || Select(near[ROW_LIMIT..], exact) == []
  {
    var box, exact := Near(park.box), InPark(code, park.geometry);
    var near := Select(trails, box);
    forall t | t in trails && Matches(exact, t)
      ensures Matches(Named, t) == Matches(box, t)
    {
      NoneMatch(trails, Coded(code), t);
      if Matches(Named, t) { NearKeepsInPark(t, code, park, rings); }
    }
    SelectThrough(trails, Named, box, exact);
    hide Matches, Select;
    if |near| > ROW_LIMIT {
      assert near == near[..ROW_LIMIT] + near[ROW_LIMIT..];
      SelectAppend(near[..ROW_LIMIT], near[ROW_LIMIT..], exact);
    }
  }

  /** A trail that carries the park's code makes the route return coded trails only. */
  lemma CodedFirst(trails: seq<Trail>, code: string, park: Park)
    requires Select(trails, Coded(code)) != []
    ensures ParkTrailsSpec(trails, code, park) == Limit(Select(trails, Coded(code)))
  {
    var rows := Limit(Select(trails, Coded(code)));
    forall t | t in rows
      ensures Matches(InPark(code, park.geometry), t)
    {
      Selected(trails, Coded(code), t);
    }
    SelectAll(rows, InPark(code, park.geometry));
  }

  lemma {:induction false} Selected(trails: seq<Trail>, f: Filter, t: Trail)
    requires t in Select(trails, f)
    ensures t in trails && Matches(f, t)
  {
    hide Matches;
    if trails != [] {
      if !(Matches(f, trails[0]) && t == trails[0]) { Selected(trails[1..], f, t); }
    }
  }

  lemma {:induction false} SelectAll(rows: seq<Trail>, f: Filter)
    requires forall t :: t in rows ==> Matches(f, t)
    ensures Select(rows, f) == rows
  {
    hide Matches;
    if rows != [] {
      assert rows[0] in rows;
      SelectAll(rows[1..], f);
    }
  }
}
