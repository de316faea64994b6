/**
 The cross-state hop planner of `routing_node.py`, over exact reals.

 The table of state boxes, the alias table and `math.hypot` are parameters: every result
 holds for all tables, in the order the program walks them.
 */
module HopPlanner {
  import opened Common
  import opened Reals

  /** A state name; the tables hold no empty one. */
  type Name = s: string | s != "" witness "?"

  datatype Point = Point(lat: real, lon: real)
  datatype Box = Box(lonMin: real, latMin: real, lonMax: real, latMax: real)
  datatype Entry = Entry(state: Name, box: Box)
  datatype Leg = Leg(state: Name, start: Point, end: Point)

  /** `STATE_BBOX` in its order, and `_STATE_ALIAS`. */
  datatype Atlas = Atlas(table: seq<Entry>, alias: map<Name, Name>)

  predicate Contains(b: Box, p: Point) {
    b.latMin <= p.lat <= b.latMax && b.lonMin <= p.lon <= b.lonMax
  }

  predicate StrictlyInside(b: Box, p: Point) {
    b.latMin < p.lat < b.latMax && b.lonMin < p.lon < b.lonMax
  }

  function Area(b: Box): real {
    (b.lonMax - b.lonMin) * (b.latMax - b.latMin)
  }

  /** One coordinate, a fraction `t` of the way from `p` to `q`. */
  function Lerp(p: real, q: real, t: real): real {
    p + t * (q - p)
  }

  /** The fraction at which a coordinate reaches `edge`. */
  function Reaches(p: real, q: real, edge: real): real
    requires q != p
  {
    (edge - p) / (q - p)
  }

  /** The point a fraction `t` of the way from `a` to `b`. */
  function At(a: Point, b: Point, t: real): Point {
    Point(Lerp(a.lat, b.lat, t), Lerp(a.lon, b.lon, t))
  }

  // ---------- Which state a point is in ----------

  /** Entry `i` is the first of the smallest boxes that contain `p`. */
  ghost predicate SmallestBox(table: seq<Entry>, p: Point, i: int) {
    && 0 <= i < |table| && Contains(table[i].box, p)
    && forall j :: 0 <= j < |table| && Contains(table[j].box, p) ==>
         Area(table[i].box) <= Area(table[j].box) && (j < i ==> Area(table[i].box) < Area(table[j].box))
  }

  function Resolve(atlas: Atlas, state: Name): Name {
    if state in atlas.alias then atlas.alias[state] else state
  }

  /** The state of `p`: its smallest box decides, unless no box contains it. */
  ghost predicate StateIs(atlas: Atlas, p: Point, r: Option<Name>) {
    match r
    case None => forall i :: 0 <= i < |atlas.table| ==> !Contains(atlas.table[i].box, p)
    case Some(s) => exists i :: SmallestBox(atlas.table, p, i) && s == Resolve(atlas, atlas.table[i].state)
  }

  lemma StateIsUnique(atlas: Atlas, p: Point, r1: Option<Name>, r2: Option<Name>)
    requires StateIs(atlas, p, r1) && StateIs(atlas, p, r2)
    ensures r1 == r2
  {
    if r1.Some? && r2.Some? {
      var i :| SmallestBox(atlas.table, p, i) && r1.value == Resolve(atlas, atlas.table[i].state);
      var j :| SmallestBox(atlas.table, p, j) && r2.value == Resolve(atlas, atlas.table[j].state);
      assert i == j;
    }
  }

  /** `_state_for_coord`: one pass that keeps the first smallest box. */
  method StateForCoord(atlas: Atlas, p: Point) returns (r: Option<Name>)
    ensures StateIs(atlas, p, r)
  {
    var best: Option<nat> := None;
    var table := atlas.table;
    for k := 0 to |table|
      invariant best.None? ==> forall j :: 0 <= j < k ==> !Contains(table[j].box, p)
      invariant best.Some? ==> best.value < k && SmallestBox(table[..k], p, best.value)
    {
      if Contains(table[k].box, p)
         && (best.None? || Area(table[k].box) < Area(table[best.value].box)) {
        best := Some(k);
      }
      assert table[..k + 1] == table[..k] + [table[k]];
    }
    assert table[..|table|] == table;
    if best.None? { return None; }
    assert SmallestBox(table, p, best.value);
    return Some(Resolve(atlas, table[best.value].state));
  }

  function BoxOf(table: seq<Entry>, state: Name): Option<Box> {
    if table == [] then None
    else if table[0].state == state then Some(table[0].box)
    else BoxOf(table[1..], state)
  }

  // ---------- Where a straight path leaves a box ----------

  /** The path from `a` to `b` meets a latitude edge of the box at fraction `t`. */
  predicate HitsLat(b: Box, p: Point, q: Point, edge: real, t: real) {
    && q.lat != p.lat && t == Reaches(p.lat, q.lat, edge) && 0.0 < t < 1.0
    && b.lonMin <= Lerp(p.lon, q.lon, t) <= b.lonMax
  }

  predicate HitsLon(b: Box, p: Point, q: Point, edge: real, t: real) {
    && q.lon != p.lon && t == Reaches(p.lon, q.lon, edge) && 0.0 < t < 1.0
    && b.latMin <= Lerp(p.lat, q.lat, t) <= b.latMax
  }

  predicate HitsEdge(b: Box, p: Point, q: Point, t: real) {
    || HitsLat(b, p, q, b.latMin, t) || HitsLat(b, p, q, b.latMax, t)
    || HitsLon(b, p, q, b.lonMin, t) || HitsLon(b, p, q, b.lonMax, t)
  }

  /** `e` is the first point where the open segment from `p` to `q` meets an edge of the box. */
  ghost predicate FirstHit(b: Box, p: Point, q: Point, e: Point) {
    exists t :: HitsEdge(b, p, q, t) && e == At(p, q, t) && forall u :: HitsEdge(b, p, q, u) ==> t <= u
  }

  datatype Crossing = Crossing(t: real, point: Point)

  /** `min(crossings)`: tuples compare by their fraction first. */
  method Least(crossings: seq<Crossing>) returns (c: Crossing)
    requires crossings != []
    ensures c in crossings
    ensures forall k :: 0 <= k < |crossings| ==> c.t <= crossings[k].t
  {
    c := crossings[0];
    for k := 1 to |crossings|
      invariant c in crossings
      invariant forall j :: 0 <= j < k ==> c.t <= crossings[j].t
    {
      if crossings[k].t < c.t { c := crossings[k]; }
    }
  }

  function LatCrossing(b: Box, p: Point, q: Point, edge: real): Option<Crossing> {
    if q.lat == p.lat then None
    else
      var t := Reaches(p.lat, q.lat, edge);
      var lon := Lerp(p.lon, q.lon, t);
      if 0.0 < t < 1.0 && b.lonMin <= lon <= b.lonMax
      then Some(Crossing(t, Point(Lerp(p.lat, q.lat, t), lon))) else None
  }

  function LonCrossing(b: Box, p: Point, q: Point, edge: real): Option<Crossing> {
    if q.lon == p.lon then None
    else
      var t := Reaches(p.lon, q.lon, edge);
      var lat := Lerp(p.lat, q.lat, t);
      if 0.0 < t < 1.0 && b.latMin <= lat <= b.latMax
      then Some(Crossing(t, Point(lat, Lerp(p.lon, q.lon, t)))) else None
  }

  /** `crossings` lists edge hits, and misses none on the edges done so far. */
  ghost predicate Lists(b: Box, p: Point, q: Point, lats: seq<real>, lons: seq<real>, crossings: seq<Crossing>) {
    && (forall c :: c in crossings ==>
          && c.point == At(p, q, c.t)
          && ((exists e :: e in lats && HitsLat(b, p, q, e, c.t))
              || (exists e :: e in lons && HitsLon(b, p, q, e, c.t))))
    && (forall e, t :: e in lats && HitsLat(b, p, q, e, t) ==> Crossing(t, At(p, q, t)) in crossings)
    && (forall e, t :: e in lons && HitsLon(b, p, q, e, t) ==> Crossing(t, At(p, q, t)) in crossings)
  }

  lemma LatCrossingHits(b: Box, p: Point, q: Point, edge: real)
    ensures LatCrossing(b, p, q, edge).Some? ==>
              LatCrossing(b, p, q, edge).value.point == At(p, q, LatCrossing(b, p, q, edge).value.t)
    ensures forall t :: HitsLat(b, p, q, edge, t) <==> LatCrossing(b, p, q, edge) == Some(Crossing(t, At(p, q, t)))
  {
    hide Lerp, Reaches;
  }

  lemma LatListed(b: Box, p: Point, q: Point, lats: seq<real>, lons: seq<real>, crossings: seq<Crossing>, edge: real)
    requires Lists(b, p, q, lats, lons, crossings)
    ensures Lists(b, p, q, lats + [edge], lons,
                  match LatCrossing(b, p, q, edge) case None => crossings case Some(c) => crossings + [c])
  {
    hide HitsLat, HitsLon, LatCrossing, At;
    var r := LatCrossing(b, p, q, edge);
    LatCrossingHits(b, p, q, edge);
    var all := lats + [edge];
    assert all[|lats|] == edge && edge in all;
    var found := match r case None => crossings case Some(c) => crossings + [c];
    if r.Some? {
      assert forall c :: c in found <==> c in crossings || c == r.value;
      assert HitsLat(b, p, q, edge, r.value.t);
    }
    assert forall e :: e in all <==> e in lats || e == edge;
  }

  lemma LonCrossingHits(b: Box, p: Point, q: Point, edge: real)
    ensures LonCrossing(b, p, q, edge).Some? ==>
              LonCrossing(b, p, q, edge).value.point == At(p, q, LonCrossing(b, p, q, edge).value.t)
    ensures forall t :: HitsLon(b, p, q, edge, t) <==> LonCrossing(b, p, q, edge) == Some(Crossing(t, At(p, q, t)))
  {
    hide Lerp, Reaches;
  }

  lemma LonListed(b: Box, p: Point, q: Point, lats: seq<real>, lons: seq<real>, crossings: seq<Crossing>, edge: real)
    requires Lists(b, p, q, lats, lons, crossings)
    ensures Lists(b, p, q, lats, lons + [edge],
                  match LonCrossing(b, p, q, edge) case None => crossings case Some(c) => crossings + [c])
  {
    hide HitsLat, HitsLon, LonCrossing, At;
    var r := LonCrossing(b, p, q, edge);
    LonCrossingHits(b, p, q, edge);
    var all := lons + [edge];
    assert all[|lons|] == edge && edge in all;
    var found := match r case None => crossings case Some(c) => crossings + [c];
    if r.Some? {
      assert forall c :: c in found <==> c in crossings || c == r.value;
      assert HitsLon(b, p, q, edge, r.value.t);
    }
    assert forall e :: e in all <==> e in lons || e == edge;
  }

  lemma ListedAll(b: Box, p: Point, q: Point, crossings: seq<Crossing>)
    requires Lists(b, p, q, [b.latMin, b.latMax], [b.lonMin, b.lonMax], crossings)
    ensures forall t :: HitsEdge(b, p, q, t) ==> Crossing(t, At(p, q, t)) in crossings
    ensures forall c :: c in crossings ==> c.point == At(p, q, c.t) && HitsEdge(b, p, q, c.t)
  {
    hide HitsLat, HitsLon, At;
  }

  /** `_border_crossing`: collect the hits of the four edges, then take the least. */
  method BorderCrossing(p: Point, q: Point, box: Option<Box>) returns (r: Option<Point>)
    ensures r.None? <==> box.None? || forall t :: !HitsEdge(box.value, p, q, t)
    ensures r.Some? ==> FirstHit(box.value, p, q, r.value)
  {
    if box.None? { return None; }
    hide HitsLat, HitsLon, LatCrossing, LonCrossing, At, Lists, HitsEdge;
    var b := box.value;
    var crossings: seq<Crossing> := [];
    var lats, lons := [b.latMin, b.latMax], [b.lonMin, b.lonMax];
    NothingListed(b, p, q);
    for k := 0 to 2
      invariant Lists(b, p, q, lats[..k], [], crossings)
    {
      var c := LatCrossing(b, p, q, lats[k]);
      LatListed(b, p, q, lats[..k], [], crossings, lats[k]);
      assert lats[..k + 1] == lats[..k] + [lats[k]];
      if c.Some? { crossings := crossings + [c.value]; }
    }
    assert lats[..2] == lats && lons[..0] == [];
    for k := 0 to 2
      invariant Lists(b, p, q, lats, lons[..k], crossings)
    {
      var c := LonCrossing(b, p, q, lons[k]);
      LonListed(b, p, q, lats, lons[..k], crossings, lons[k]);
      assert lons[..k + 1] == lons[..k] + [lons[k]];
      if c.Some? { crossings := crossings + [c.value]; }
    }
    assert lons[..2] == lons;
    ListedAll(b, p, q, crossings);
    if crossings == [] { return None; }
    var c := Least(crossings);
    assert HitsEdge(b, p, q, c.t);
    return Some(c.point);
  }

  lemma NothingListed(b: Box, p: Point, q: Point)
    ensures Lists(b, p, q, [], [], [])
  {
  }

  /** Along one axis: the fraction at which a path from `p` to `q` leaves the range `lo`..`hi`
      (past the end of the path when it does not). */
  function Leaves(lo: real, hi: real, p: real, q: real): real {
    if q > p then Reaches(p, q, hi) else if q < p then Reaches(p, q, lo) else 2.0
  }

  lemma Quotient(e: real, d: real, t: real)
    requires d != 0.0
    ensures (e / d) * d == e
    ensures d > 0.0 ==> (t < e / d <==> t * d < e) && (t > e / d <==> t * d > e)
    ensures d < 0.0 ==> (t < e / d <==> t * d > e) && (t > e / d <==> t * d < e)
  {
    var z := e / d;
    var n := if d > 0.0 then d else -d;
    assert z * d == e;
    if t < z { MulLess(t, z, n); }
    if t > z { MulLess(z, t, n); }
    assert t * n == if d > 0.0 then t * d else -(t * d);
    assert z * n == if d > 0.0 then e else -e;
  }

  lemma AxisSeparates(lo: real, hi: real, p: real, q: real, t: real)
    requires lo < p < hi && 0.0 <= t <= 1.0
    ensures Leaves(lo, hi, p, q) > 0.0 && Lerp(p, q, 1.0) == q
    ensures t < Leaves(lo, hi, p, q) ==> lo < Lerp(p, q, t) < hi
    ensures t == Leaves(lo, hi, p, q) ==> Lerp(p, q, t) == if q > p then hi else lo
    ensures t > Leaves(lo, hi, p, q) ==> !(lo <= Lerp(p, q, t) <= hi)
  {
    if q > p {
      ReachesSign(p, q, hi, t);
      ReachesSign(p, q, hi, 0.0);
      LerpMoves(p, q, t);
    } else if q < p {
      ReachesSign(p, q, lo, t);
      ReachesSign(p, q, lo, 0.0);
      LerpMoves(p, q, t);
    }
    hide Reaches;
  }

  lemma LerpMoves(p: real, q: real, t: real)
    requires 0.0 <= t
    ensures q > p ==> Lerp(p, q, t) >= p
    ensures q < p ==> Lerp(p, q, t) <= p
  {
    if q > p { assert t * (q - p) >= 0.0; }
    if q < p { assert t * (p - q) >= 0.0; }
  }

  /** Before, at and after the fraction at which a coordinate reaches `edge`. */
  lemma ReachesSign(p: real, q: real, edge: real, t: real)
    requires q != p
    ensures q > p ==> (t < Reaches(p, q, edge) <==> Lerp(p, q, t) < edge)
                      && (t > Reaches(p, q, edge) <==> Lerp(p, q, t) > edge)
    ensures q < p ==> (t < Reaches(p, q, edge) <==> Lerp(p, q, t) > edge)
                      && (t > Reaches(p, q, edge) <==> Lerp(p, q, t) < edge)
  {
    Quotient(edge - p, q - p, t);
  }

  /** A positive fraction at which an axis meets one of its bounds is not before it leaves. */
  lemma AxisHit(lo: real, hi: real, p: real, q: real, edge: real)
    requires lo < p < hi && q != p && (edge == lo || edge == hi) && Reaches(p, q, edge) > 0.0
    ensures Reaches(p, q, edge) == Leaves(lo, hi, p, q)
  {
    Quotient(edge - p, q - p, 0.0);
  }

  /** The first fraction at which the path leaves the box on either axis. */
  function Exit(b: Box, p: Point, q: Point): real {
    var x, y := Leaves(b.latMin, b.latMax, p.lat, q.lat), Leaves(b.lonMin, b.lonMax, p.lon, q.lon);
    if x <= y then x else y
  }

  lemma ExitHits(b: Box, p: Point, q: Point)
    requires StrictlyInside(b, p) && !Contains(b, q)
    ensures 0.0 < Exit(b, p, q) < 1.0 && HitsEdge(b, p, q, Exit(b, p, q))
  {
    hide Leaves, Lerp, Reaches;
    var x := Exit(b, p, q);
    AxisSeparates(b.latMin, b.latMax, p.lat, q.lat, 1.0);
    AxisSeparates(b.lonMin, b.lonMax, p.lon, q.lon, 1.0);
    AxisSeparates(b.latMin, b.latMax, p.lat, q.lat, x);
    AxisSeparates(b.lonMin, b.lonMax, p.lon, q.lon, x);
    if Leaves(b.latMin, b.latMax, p.lat, q.lat) < 1.0 { LeavesAtBound(b.latMin, b.latMax, p.lat, q.lat); }
    if Leaves(b.lonMin, b.lonMax, p.lon, q.lon) < 1.0 { LeavesAtBound(b.lonMin, b.lonMax, p.lon, q.lon); }
  }

  lemma LeavesAtBound(lo: real, hi: real, p: real, q: real)
    requires lo < p < hi && Leaves(lo, hi, p, q) < 1.0
    ensures q != p && Leaves(lo, hi, p, q) == Reaches(p, q, if q > p then hi else lo)
  {
  }

  lemma NoHitBeforeExit(b: Box, p: Point, q: Point, t: real)
    requires StrictlyInside(b, p) && HitsEdge(b, p, q, t)
    ensures Exit(b, p, q) <= t
  {
    hide Leaves, Lerp, Reaches;
    if HitsLat(b, p, q, b.latMin, t) { AxisHit(b.latMin, b.latMax, p.lat, q.lat, b.latMin); }
    else if HitsLat(b, p, q, b.latMax, t) { AxisHit(b.latMin, b.latMax, p.lat, q.lat, b.latMax); }
    else if HitsLon(b, p, q, b.lonMin, t) { AxisHit(b.lonMin, b.lonMax, p.lon, q.lon, b.lonMin); }
    else { AxisHit(b.lonMin, b.lonMax, p.lon, q.lon, b.lonMax); }
  }

  /** From strictly inside a box towards a point outside it, there is a first hit; the path is
      strictly inside the box before it and outside the box after it. */
  lemma CrossingSeparates(b: Box, p: Point, q: Point)
    requires StrictlyInside(b, p) && !Contains(b, q)
    ensures exists e :: FirstHit(b, p, q, e)
    ensures forall e :: FirstHit(b, p, q, e) ==> exists x :: 0.0 < x < 1.0 && SeparatesAt(b, p, q, e, x)
  {
    hide HitsEdge, Leaves, Lerp, Reaches;
    var x := Exit(b, p, q);
    ExitHits(b, p, q);
    forall t | HitsEdge(b, p, q, t)
      ensures x <= t
    {
      NoHitBeforeExit(b, p, q, t);
    }
    assert FirstHit(b, p, q, At(p, q, x));
    forall t | 0.0 <= t <= 1.0
      ensures t < x ==> StrictlyInside(b, At(p, q, t))
      ensures x < t ==> !Contains(b, At(p, q, t))
    {
      AxisSeparates(b.latMin, b.latMax, p.lat, q.lat, t);
      AxisSeparates(b.lonMin, b.lonMax, p.lon, q.lon, t);
    }
    forall e | FirstHit(b, p, q, e)
      ensures SeparatesAt(b, p, q, e, x)
    {
      var t :| HitsEdge(b, p, q, t) && e == At(p, q, t) && forall u :: HitsEdge(b, p, q, u) ==> t <= u;
      assert t == x;
    }
  }

  /** `e` lies at fraction `x`, with the path inside before and outside after. */
  ghost predicate SeparatesAt(b: Box, p: Point, q: Point, e: Point, x: real) {
    && e == At(p, q, x)
    && forall t :: 0.0 <= t <= 1.0 ==>
         (t < x ==> StrictlyInside(b, At(p, q, t))) && (x < t ==> !Contains(b, At(p, q, t)))
  }

  // ---------- The planner ----------

  /** Steps tried past a border, in degrees along the path: fine ones first, then coarse ones. */
  function StepSchedule(): (steps: seq<real>)
    ensures forall k :: 0 <= k < |steps| ==> steps[k] > 0.0
    ensures forall j, k :: 0 <= j < k < |steps| ==> steps[j] < steps[k]
  {
    seq(15, n => (n + 1) as real * 0.1) + seq(23, n => 1.5 + (n + 1) as real * 0.5)
  }

  /** The point `step` degrees beyond `exit` along a path of direction `d` and length `mag`. */
  function Beyond(exit: Point, d: Point, mag: real, step: real): Point
    requires mag != 0.0
  {
    Point(exit.lat + step * d.lat / mag, exit.lon + step * d.lon / mag)
  }

  function Dot(a: Point, b: Point): real {
    a.lat * b.lat + a.lon * b.lon
  }

  function Minus(a: Point, b: Point): Point {
    Point(a.lat - b.lat, a.lon - b.lon)
  }

  /** `p` is not before the destination `q` in direction `d`. */
  predicate Past(q: Point, d: Point, p: Point) {
    Dot(Minus(q, p), d) <= 0.0
  }

  /** Step `k` of the schedule stays before the destination and finds no state. */
  ghost predicate Gap(atlas: Atlas, exit: Point, q: Point, d: Point, mag: real, k: int)
    requires mag != 0.0 && 0 <= k < |StepSchedule()|
  {
    var p := Beyond(exit, d, mag, StepSchedule()[k]);
    !Past(q, d, p) && StateIs(atlas, p, None)
  }

  /** The search after a border ends at `k`: before it only gaps, and there the schedule is
      exhausted, the destination passed, or a state found. */
  ghost predicate SearchEnds(atlas: Atlas, exit: Point, q: Point, d: Point, mag: real, k: int, next: Option<Point>)
    requires mag != 0.0
  {
    && 0 <= k <= |StepSchedule()|
    && (forall j :: 0 <= j < k ==> Gap(atlas, exit, q, d, mag, j))
    && match next
       case None => k == |StepSchedule()| || Past(q, d, Beyond(exit, d, mag, StepSchedule()[k]))
       case Some(p) =>
         && k < |StepSchedule()| && p == Beyond(exit, d, mag, StepSchedule()[k])
         && !Past(q, d, p) && exists s :: StateIs(atlas, p, Some(s))
  }

  /** The search for the next state: the first step that lands in one. */
  method NextState(atlas: Atlas, exit: Point, q: Point, d: Point, mag: real) returns (next: Option<Point>)
    requires mag > 0.0
    ensures exists k :: SearchEnds(atlas, exit, q, d, mag, k, next)
  {
    hide Beyond, Past, StateIs, StepSchedule;
    var steps := StepSchedule();
    for k := 0 to |steps|
      invariant forall j :: 0 <= j < k ==> Gap(atlas, exit, q, d, mag, j)
    {
      var p := Beyond(exit, d, mag, steps[k]);
      if Past(q, d, p) {
        assert SearchEnds(atlas, exit, q, d, mag, k, None);
        return None;
      }
      var s := StateForCoord(atlas, p);
      if s.Some? {
        assert SearchEnds(atlas, exit, q, d, mag, k, Some(p));
        return Some(p);
      }
    }
    assert SearchEnds(atlas, exit, q, d, mag, |steps|, None);
    return None;
  }

  /** Where a point of the path stands, as a fraction of the way from `p` to `q`. */
  function Position(p: Point, q: Point, x: Point): real
    requires p != q
  {
    if q.lat != p.lat then Reaches(p.lat, q.lat, x.lat) else Reaches(p.lon, q.lon, x.lon)
  }

  ghost predicate OnSegment(p: Point, q: Point, x: Point)
    requires p != q
  {
    0.0 <= Position(p, q, x) <= 1.0 && x == At(p, q, Position(p, q, x))
  }

  /** All leg ends lie on the segment, at strictly increasing positions. */
  ghost predicate Straight(p: Point, q: Point, legs: seq<Leg>)
    requires p != q
  {
    && (forall i :: 0 <= i < |legs| ==>
          && OnSegment(p, q, legs[i].start) && OnSegment(p, q, legs[i].end)
          && Position(p, q, legs[i].start) < Position(p, q, legs[i].end))
    && (forall i :: 0 < i < |legs| ==> Position(p, q, legs[i - 1].end) < Position(p, q, legs[i].start))
  }

  predicate DistinctStates(legs: seq<Leg>) {
    forall i, j :: 0 <= i < j < |legs| ==> legs[i].state != legs[j].state
  }

  lemma PositionOfAt(p: Point, q: Point, t: real)
    requires p != q
    ensures Position(p, q, At(p, q, t)) == t
  {
    if q.lat != p.lat {
      var d := q.lat - p.lat;
      assert p.lat + t * d - p.lat == t * d;
      assert (t * d) / d == t;
    } else {
      var d := q.lon - p.lon;
      assert p.lon + t * d - p.lon == t * d;
      assert (t * d) / d == t;
    }
  }

  lemma AtCompose(p: Point, q: Point, a: real, u: real, b: real)
    requires b == a + u * (1.0 - a)
    ensures At(At(p, q, a), q, u) == At(p, q, b)
  {
  }

  lemma BeyondIsAt(p: Point, q: Point, b: real, mag: real, step: real)
    requires mag != 0.0
    ensures Beyond(At(p, q, b), Minus(q, p), mag, step) == At(p, q, b + step / mag)
  {
    ScaledStep(step, q.lat - p.lat, mag);
    ScaledStep(step, q.lon - p.lon, mag);
  }

  lemma ScaledStep(step: real, d: real, mag: real)
    requires mag != 0.0
    ensures step * d / mag == (step / mag) * d
  {
  }

  lemma PastIsBeyondOne(p: Point, q: Point, c: real)
    requires p != q
    ensures Past(q, Minus(q, p), At(p, q, c)) <==> c >= 1.0
  {
    hide At, Norm, Dot;
    var d := Minus(q, p);
    var n := Norm(d);
    if q.lat == p.lat { assert q.lon != p.lon; }
    NormPositive(d);
    RestIsScaled(p, q, c);
    MulSign(1.0 - c, n);
  }

  /** The squared length of a direction. */
  function Norm(d: Point): real {
    Sq(d.lat) + Sq(d.lon)
  }

  lemma RestIsScaled(p: Point, q: Point, c: real)
    ensures Dot(Minus(q, At(p, q, c)), Minus(q, p)) == (1.0 - c) * Norm(Minus(q, p))
  {
    RestOfAxis(p.lat, q.lat, c);
    RestOfAxis(p.lon, q.lon, c);
    hide Lerp;
    var x, y := (q.lat - p.lat) * (q.lat - p.lat), (q.lon - p.lon) * (q.lon - p.lon);
    assert (1.0 - c) * x + (1.0 - c) * y == (1.0 - c) * (x + y);
  }

  lemma RestOfAxis(p: real, q: real, c: real)
    ensures (q - Lerp(p, q, c)) * (q - p) == (1.0 - c) * ((q - p) * (q - p))
  {
  }

  lemma NormPositive(d: Point)
    requires d.lat != 0.0 || d.lon != 0.0
    ensures Norm(d) > 0.0
  {
    hide Sq;
    SquarePos(d.lat);
    SquarePos(d.lon);
  }

  /** The leg ends where the path first leaves the box of its state. */
  ghost predicate LeavesBox(atlas: Atlas, q: Point, leg: Leg) {
    BoxOf(atlas.table, leg.state).Some? && FirstHit(BoxOf(atlas.table, leg.state).value, leg.start, q, leg.end)
  }

  /** The straight path never leaves the box of the leg's state, or the state has none. */
  ghost predicate NoExit(atlas: Atlas, q: Point, leg: Leg) {
    BoxOf(atlas.table, leg.state).None? || forall t :: !HitsEdge(BoxOf(atlas.table, leg.state).value, leg.start, q, t)
  }

  /** The leg's state is the destination's, or there is no way out of it. */
  ghost predicate Arrives(atlas: Atlas, q: Point, leg: Leg) {
    StateIs(atlas, q, Some(leg.state)) || NoExit(atlas, q, leg)
  }

  /** Where a leg must end. */
  ghost predicate LegEnds(atlas: Atlas, q: Point, leg: Leg) {
    if Arrives(atlas, q, leg) then leg.end == q else LeavesBox(atlas, q, leg)
  }

  /** `start` is where the search after the border at `exit` found the next state. */
  ghost predicate FoundAfter(atlas: Atlas, q: Point, d: Point, mag: real, exit: Point, start: Point) {
    mag > 0.0 && exists k :: SearchEnds(atlas, exit, q, d, mag, k, Some(start))
  }

  /** A leg that follows `prev`: it starts where the search after that border ended, in the
      state found there. */
  ghost predicate Follows(atlas: Atlas, q: Point, d: Point, mag: real, prev: Leg, leg: Leg) {
    && !Arrives(atlas, q, prev) && mag >= 0.000000001
    && FoundAfter(atlas, q, d, mag, prev.end, leg.start) && StateIs(atlas, leg.start, Some(leg.state))
  }

  /** The search after the border at `exit` finds no state, or one the plan has been through. */
  ghost predicate DeadEnd(atlas: Atlas, q: Point, d: Point, mag: real, legs: seq<Leg>, exit: Point) {
    && mag > 0.0
    && ((exists k :: SearchEnds(atlas, exit, q, d, mag, k, None))
        || exists start, l :: l in legs && FoundAfter(atlas, q, d, mag, exit, start)
                              && StateIs(atlas, start, Some(l.state)))
  }

  /** Why a plan may stop: no state at the origin, arrival, 25 legs, a path of no length, or a dead end. */
  ghost predicate Stops(atlas: Atlas, p: Point, q: Point, mag: real, startState: Option<Name>, legs: seq<Leg>) {
    if legs == [] then startState.None? && StateIs(atlas, p, None)
    else
      var last := legs[|legs| - 1];
      || Arrives(atlas, q, last) || |legs| == 25 || mag < 0.000000001
      || DeadEnd(atlas, q, Minus(q, p), mag, legs, last.end)
  }

  ghost predicate Planned(atlas: Atlas, p: Point, q: Point, mag: real, legs: seq<Leg>) {
    && (legs != [] ==> legs[0].start == p)
    && (forall i, j :: 0 <= i < |legs| && j == i + 1 && j < |legs| ==>
          Follows(atlas, q, Minus(q, p), mag, legs[i], legs[j]))
    && (forall i :: 0 <= i < |legs| ==> LegEnds(atlas, q, legs[i]))
  }

  /** What the planner carries from one leg to the next: the point it stands at follows the
      last leg, and on a real path its fraction `a` lies beyond that leg and before the end. */
  ghost predicate Standing(atlas: Atlas, p: Point, q: Point, mag: real, legs: seq<Leg>, cur: Point, a: real) {
    && DistinctStates(legs) && Planned(atlas, p, q, mag, legs)
    && (if legs == [] then cur == p
        else !Arrives(atlas, q, legs[|legs| - 1]) && mag >= 0.000000001
             && FoundAfter(atlas, q, Minus(q, p), mag, legs[|legs| - 1].end, cur))
    && (p != q ==>
          && Straight(p, q, legs) && cur == At(p, q, a) && 0.0 <= a < 1.0
          && (legs != [] ==> Position(p, q, legs[|legs| - 1].end) < a))
  }

  lemma StartStanding(atlas: Atlas, p: Point, q: Point, mag: real)
    ensures Standing(atlas, p, q, mag, [], p, 0.0)
  {
  }

  lemma StraightGrows(p: Point, q: Point, legs: seq<Leg>, state: Name, a: real, b: real)
    requires p != q && Straight(p, q, legs) && 0.0 <= a < b <= 1.0
    requires legs != [] ==> Position(p, q, legs[|legs| - 1].end) < a
    ensures Straight(p, q, legs + [Leg(state, At(p, q, a), At(p, q, b))])
  {
    PositionOfAt(p, q, a);
    PositionOfAt(p, q, b);
    hide Position, At;
  }

  /** Adding the leg from the current point keeps the plan in order. */
  lemma LegGrows(atlas: Atlas, p: Point, q: Point, mag: real, legs: seq<Leg>, cur: Point, a: real,
                 state: Name, end: Point, b: real)
    requires Standing(atlas, p, q, mag, legs, cur, a)
    requires forall l :: l in legs ==> l.state != state
    requires legs != [] ==> StateIs(atlas, cur, Some(state))
    requires LegEnds(atlas, q, Leg(state, cur, end))
    requires p != q ==> end == At(p, q, b) && a < b <= 1.0
    ensures var all := legs + [Leg(state, cur, end)];
            && DistinctStates(all) && Planned(atlas, p, q, mag, all)
            && (p != q ==> Straight(p, q, all) && Position(p, q, end) == b)
  {
    hide StateIs, Arrives, LegEnds, FoundAfter, Straight, Position, At, Minus;
    if p != q {
      StraightGrows(p, q, legs, state, a, b);
      PositionOfAt(p, q, b);
    }
  }

  /** The first hit on the way from fraction `a` lies strictly between `a` and the end. */
  lemma HitAdvances(p: Point, q: Point, a: real, box: Box, exit: Point) returns (b: real)
    requires a < 1.0 && FirstHit(box, At(p, q, a), q, exit)
    ensures a < b < 1.0 && exit == At(p, q, b)
  {
    var u :| HitsEdge(box, At(p, q, a), q, u) && exit == At(At(p, q, a), q, u);
    assert 0.0 < u < 1.0;
    hide HitsEdge, At;
    b := PartOfRest(a, u);
    AtCompose(p, q, a, u, b);
  }

  lemma PartOfRest(a: real, u: real) returns (b: real)
    requires a < 1.0 && 0.0 < u < 1.0
    ensures b == a + u * (1.0 - a) && a < b < 1.0
  {
    b := a + u * (1.0 - a);
    MulSign(u, 1.0 - a);
    MulSign(1.0 - u, 1.0 - a);
    calc { 1.0 - (a + u * (1.0 - a)); == (1.0 - u) * (1.0 - a); }
  }

  /** The search beyond a border lands further along, still before the destination. */
  lemma SearchAdvances(atlas: Atlas, p: Point, q: Point, b: real, mag: real, start: Point) returns (c: real)
    requires p != q && FoundAfter(atlas, q, Minus(q, p), mag, At(p, q, b), start)
    ensures b < c < 1.0 && start == At(p, q, c)
  {
    hide StateIs, Past, Beyond, At, Minus, Gap;
    var k :| SearchEnds(atlas, At(p, q, b), q, Minus(q, p), mag, k, Some(start));
    var step := StepSchedule()[k];
    c := b + step / mag;
    BeyondIsAt(p, q, b, mag, step);
    PastIsBeyondOne(p, q, c);
    assert step / mag > 0.0;
  }

  /** The first leg is in the state given, or else in the origin's. */
  ghost predicate Begins(atlas: Atlas, p: Point, startState: Option<Name>, legs: seq<Leg>) {
    legs != [] ==>
      if startState.Some? then legs[0].state == startState.value else StateIs(atlas, p, Some(legs[0].state))
  }

  /** What a plan is: legs of different states, each begun and ended as it must be, until one of the
      reasons to stop. */
  ghost predicate IsPlan(atlas: Atlas, p: Point, q: Point, mag: real, startState: Option<Name>, legs: seq<Leg>) {
    && |legs| <= 25 && DistinctStates(legs)
    && Begins(atlas, p, startState, legs) && Planned(atlas, p, q, mag, legs)
    && Stops(atlas, p, q, mag, startState, legs)
  }

  /** `_plan_state_hops`: one leg per state along the straight line from `p` to `q`. */
  method PlanStateHops(atlas: Atlas, p: Point, q: Point, startState: Option<Name>, mag: real) returns (legs: seq<Leg>)
    requires mag >= 0.0 && mag * mag == Norm(Minus(q, p))
    ensures IsPlan(atlas, p, q, mag, startState, legs)
    ensures p != q ==> Straight(p, q, legs)
  {
    hide Straight, Position, At, StateIs, FirstHit, Minus, Dot, HitsEdge, BoxOf, DistinctStates, Planned, FoundAfter;
    hide DeadEnd, NoExit;
    legs := [];
    var cur := p;
    var visited: set<Name> := {};
    var override := startState;
    var d := Minus(q, p);
    ghost var a := 0.0;
    StartStanding(atlas, p, q, mag);
    for n := 0 to 25
      invariant |legs| == n && (forall l :: l in legs ==> l.state in visited)
      invariant forall s :: s in visited ==> exists l :: l in legs && l.state == s
      invariant Standing(atlas, p, q, mag, legs, cur, a)
      invariant if n == 0 then override == startState else override.None?
      invariant Begins(atlas, p, startState, legs)
    {
      var here := override;
      if override.None? { here := StateForCoord(atlas, cur); }
      override := None;
      if here.None? || here.value in visited {
        if legs != [] { Revisits(atlas, q, d, mag, legs, legs[n - 1].end, cur, here); }
        break;
      }
      var dest := StateForCoord(atlas, q);
      if here == dest {
        AtEnd(p, q);
        LegGrows(atlas, p, q, mag, legs, cur, a, here.value, q, 1.0);
        legs := legs + [Leg(here.value, cur, q)];
        break;
      }
      StateIsNot(atlas, q, dest, here);
      visited := visited + {here.value};
      var exit := BorderCrossing(cur, q, BoxOf(atlas.table, here.value));
      ExitDecides(atlas, q, here.value, cur, BoxOf(atlas.table, here.value), exit);
      if exit.None? {
        AtEnd(p, q);
        LegGrows(atlas, p, q, mag, legs, cur, a, here.value, q, 1.0);
        legs := legs + [Leg(here.value, cur, q)];
        break;
      }
      ghost var b := 0.0;
      if p != q { b := HitAdvances(p, q, a, BoxOf(atlas.table, here.value).value, exit.value); }
      LegGrows(atlas, p, q, mag, legs, cur, a, here.value, exit.value, b);
      Visited(legs, visited, here.value, Leg(here.value, cur, exit.value));
      legs := legs + [Leg(here.value, cur, exit.value)];
      if mag < 0.000000001 { break; }
      var next := NextState(atlas, exit.value, q, d, mag);
      if next.None? {
        NoWayOn(atlas, q, d, mag, legs, exit.value);
        break;
      }
      cur := next.value;
      FoundHere(atlas, q, d, mag, exit.value, cur);
      if p != q { a := SearchAdvances(atlas, p, q, b, mag, cur); }
    }
  }

  lemma Visited(legs: seq<Leg>, visited: set<Name>, state: Name, leg: Leg)
    requires leg.state == state
    requires forall s :: s in visited - {state} ==> exists l :: l in legs && l.state == s
    ensures forall s :: s in visited + {state} ==> exists l :: l in legs + [leg] && l.state == s
  {
    var all := legs + [leg];
    forall s | s in visited + {state}
      ensures exists l :: l in all && l.state == s
    {
      if s == state {
        assert all[|legs|] == leg && leg in all;
      } else {
        assert s in visited - {state};
        var l :| l in legs && l.state == s;
        assert l in all;
      }
    }
  }

  lemma StateIsNot(atlas: Atlas, q: Point, dest: Option<Name>, here: Option<Name>)
    requires StateIs(atlas, q, dest) && here != dest
    ensures !StateIs(atlas, q, here)
  {
    if StateIs(atlas, q, here) { StateIsUnique(atlas, q, dest, here); }
  }

  /** What the border search says of a leg that does not end at the destination's state. */
  lemma ExitDecides(atlas: Atlas, q: Point, state: Name, cur: Point, box: Option<Box>, exit: Option<Point>)
    requires !StateIs(atlas, q, Some(state)) && box == BoxOf(atlas.table, state)
    requires exit.None? <==> box.None? || forall t :: !HitsEdge(box.value, cur, q, t)
    requires exit.Some? ==> FirstHit(box.value, cur, q, exit.value)
    ensures var leg := Leg(state, cur, if exit.Some? then exit.value else q);
            LegEnds(atlas, q, leg) && (Arrives(atlas, q, leg) <==> exit.None?)
  {
    hide HitsEdge, FirstHit, BoxOf;
  }

  lemma NoWayOn(atlas: Atlas, q: Point, d: Point, mag: real, legs: seq<Leg>, exit: Point)
    requires mag > 0.0 && exists k :: SearchEnds(atlas, exit, q, d, mag, k, None)
    ensures DeadEnd(atlas, q, d, mag, legs, exit)
  {
    hide SearchEnds;
  }

  /** The search after a border lands in some state; one already visited is a dead end. */
  lemma Revisits(atlas: Atlas, q: Point, d: Point, mag: real, legs: seq<Leg>,
                 exit: Point, cur: Point, here: Option<Name>)
    requires FoundAfter(atlas, q, d, mag, exit, cur) && StateIs(atlas, cur, here)
    requires here.Some? ==> exists l :: l in legs && l.state == here.value
    ensures DeadEnd(atlas, q, d, mag, legs, exit)
  {
    hide StateIs, Gap, Past, Beyond;
    var k :| SearchEnds(atlas, exit, q, d, mag, k, Some(cur));
    var s :| StateIs(atlas, cur, Some(s));
    StateIsUnique(atlas, cur, here, Some(s));
    var l :| l in legs && l.state == here.value;
  }

  lemma AtEnd(p: Point, q: Point)
    ensures At(p, q, 1.0) == q
  {
  }

  lemma FoundHere(atlas: Atlas, q: Point, d: Point, mag: real, exit: Point, start: Point)
    requires mag > 0.0 && exists k :: SearchEnds(atlas, exit, q, d, mag, k, Some(start))
    ensures FoundAfter(atlas, q, d, mag, exit, start)
  {
  }

  // ---------- There is one plan ----------

  lemma FirstHitIsUnique(b: Box, p: Point, q: Point, e: Point, f: Point)
    requires FirstHit(b, p, q, e) && FirstHit(b, p, q, f)
    ensures e == f
  {
    hide HitsEdge;
    var t :| HitsEdge(b, p, q, t) && e == At(p, q, t) && forall u :: HitsEdge(b, p, q, u) ==> t <= u;
    var u :| HitsEdge(b, p, q, u) && f == At(p, q, u) && forall v :: HitsEdge(b, p, q, v) ==> u <= v;
    assert t <= u && u <= t;
  }

  lemma SearchIsUnique(atlas: Atlas, exit: Point, q: Point, d: Point, mag: real, j: int, k: int,
                       a: Option<Point>, b: Option<Point>)
    requires mag != 0.0 && SearchEnds(atlas, exit, q, d, mag, j, a) && SearchEnds(atlas, exit, q, d, mag, k, b)
    ensures a == b
  {
    if j < k {
      SearchIsOver(atlas, exit, q, d, mag, j, a);
    } else if k < j {
      SearchIsOver(atlas, exit, q, d, mag, k, b);
    } else {
      hide StateIs, Beyond;
    }
  }

  /** Where the search ends there is no gap. */
  lemma SearchIsOver(atlas: Atlas, exit: Point, q: Point, d: Point, mag: real, k: int, next: Option<Point>)
    requires mag != 0.0 && SearchEnds(atlas, exit, q, d, mag, k, next)
    ensures k < |StepSchedule()| ==> !Gap(atlas, exit, q, d, mag, k)
  {
    hide Beyond, Past, StepSchedule, StateIs;
    if next.Some? {
      var s :| StateIs(atlas, next.value, Some(s));
      if StateIs(atlas, next.value, None) { StateIsUnique(atlas, next.value, None, Some(s)); }
    }
  }

  lemma NextIsUnique(atlas: Atlas, q: Point, d: Point, mag: real, exit: Point,
                     start: Point, j: int, next: Option<Point>)
    requires FoundAfter(atlas, q, d, mag, exit, start) && SearchEnds(atlas, exit, q, d, mag, j, next)
    ensures next == Some(start)
  {
    hide SearchEnds;
    var k :| SearchEnds(atlas, exit, q, d, mag, k, Some(start));
    SearchIsUnique(atlas, exit, q, d, mag, j, k, next, Some(start));
  }

  lemma StartIsUnique(atlas: Atlas, q: Point, d: Point, mag: real, exit: Point, a: Point, b: Point)
    requires FoundAfter(atlas, q, d, mag, exit, a) && FoundAfter(atlas, q, d, mag, exit, b)
    ensures a == b
  {
    hide SearchEnds;
    var j :| SearchEnds(atlas, exit, q, d, mag, j, Some(a));
    NextIsUnique(atlas, q, d, mag, exit, b, j, Some(a));
  }

  lemma EndIsUnique(atlas: Atlas, q: Point, a: Leg, b: Leg)
    requires LegEnds(atlas, q, a) && LegEnds(atlas, q, b) && a.state == b.state && a.start == b.start
    ensures a == b
  {
    hide StateIs, FirstHit, BoxOf;
    if !Arrives(atlas, q, a) {
      FirstHitIsUnique(BoxOf(atlas.table, a.state).value, a.start, q, a.end, b.end);
    }
  }

  lemma {:induction false} LegIsUnique(atlas: Atlas, p: Point, q: Point, mag: real, startState: Option<Name>,
                                       a: seq<Leg>, b: seq<Leg>, i: nat)
    requires IsPlan(atlas, p, q, mag, startState, a) && IsPlan(atlas, p, q, mag, startState, b)
    requires i < |a| && i < |b|
    ensures a[i] == b[i]
  {
    hide StateIs, FoundAfter, Stops, LegEnds, DistinctStates;
    if i == 0 {
      if startState.None? { StateIsUnique(atlas, p, Some(a[0].state), Some(b[0].state)); }
    } else {
      LegIsUnique(atlas, p, q, mag, startState, a, b, i - 1);
      assert Follows(atlas, q, Minus(q, p), mag, a[i - 1], a[i]) && Follows(atlas, q, Minus(q, p), mag, b[i - 1], b[i]);
      StartIsUnique(atlas, q, Minus(q, p), mag, a[i - 1].end, a[i].start, b[i].start);
      StateIsUnique(atlas, a[i].start, Some(a[i].state), Some(b[i].state));
    }
    EndIsUnique(atlas, q, a[i], b[i]);
  }

  /** A plan that has stopped is not the beginning of a longer one. */
  lemma NoLongerPlan(atlas: Atlas, p: Point, q: Point, mag: real, startState: Option<Name>, a: seq<Leg>, b: seq<Leg>)
    requires IsPlan(atlas, p, q, mag, startState, a) && IsPlan(atlas, p, q, mag, startState, b)
    requires |a| < |b|
    ensures b[..|a|] != a
  {
    hide StateIs, FoundAfter, SearchEnds, LegEnds, Arrives;
    var n := |a|;
    if b[..n] == a {
      if n == 0 {
        StateIsUnique(atlas, p, None, Some(b[0].state));
      } else {
        var d, exit := Minus(q, p), a[n - 1].end;
        assert Follows(atlas, q, d, mag, b[n - 1], b[n]);
        if l, start :| l in a && FoundAfter(atlas, q, d, mag, exit, start) && StateIs(atlas, start, Some(l.state)) {
          StartIsUnique(atlas, q, d, mag, exit, start, b[n].start);
          StateIsUnique(atlas, start, Some(l.state), Some(b[n].state));
        } else {
          var k :| SearchEnds(atlas, exit, q, d, mag, k, None);
          NextIsUnique(atlas, q, d, mag, exit, b[n].start, k, None);
        }
      }
    }
  }

  /** The specification determines the plan. */
  lemma PlanIsUnique(atlas: Atlas, p: Point, q: Point, mag: real, startState: Option<Name>, a: seq<Leg>, b: seq<Leg>)
    requires IsPlan(atlas, p, q, mag, startState, a) && IsPlan(atlas, p, q, mag, startState, b)
    ensures a == b
  {
    forall i | 0 <= i < |a| && i < |b|
      ensures a[i] == b[i]
    {
      LegIsUnique(atlas, p, q, mag, startState, a, b, i);
    }
    hide IsPlan;
    if |a| < |b| {
      NoLongerPlan(atlas, p, q, mag, startState, a, b);
    } else if |b| < |a| {
      NoLongerPlan(atlas, p, q, mag, startState, b, a);
    }
  }
}
