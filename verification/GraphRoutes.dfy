/** Orthogonal edge routes between two boxes. */
module GraphRoutes {
  import opened GraphGeometry

  function Route(sa: Point, ss: Size, da: Point, ds: Size): seq<Point> {
    var sx, dx := sa.x + ss.w / 2.0, da.x + ds.w / 2.0;
    var sy, dy := sa.y + ss.h / 2.0, da.y + ds.h / 2.0;
    if da.y >= sa.y + ss.h then
      var mid := (sa.y + ss.h + da.y) / 2.0;
      [Point(sx, sa.y + ss.h), Point(sx, mid), Point(dx, mid), Point(dx, da.y)]
    else if da.y + ds.h <= sa.y then
      var mid := (sa.y + (da.y + ds.h)) / 2.0;
      [Point(sx, sa.y), Point(sx, mid), Point(dx, mid), Point(dx, da.y + ds.h)]
    else if da.x >= sa.x + ss.w then
      var mid := (sa.x + ss.w + da.x) / 2.0;
      [Point(sa.x + ss.w, sy), Point(mid, sy), Point(mid, dy), Point(da.x, dy)]
    else if da.x + ds.w <= sa.x then
      var mid := (sa.x + (da.x + ds.w)) / 2.0;
      [Point(sa.x, sy), Point(mid, sy), Point(mid, dy), Point(da.x + ds.w, dy)]
    else [Point(sx, sy), Point(sx, dy), Point(dx, dy)]
  }

  /** Every leg is horizontal or vertical. */
  predicate Orthogonal(route: seq<Point>) {
    forall i :: 0 <= i && i + 1 < |route| ==> route[i].x == route[i + 1].x || route[i].y == route[i + 1].y
  }

  predicate OnBorder(p: Point, at: Point, size: Size) {
    (at.x <= p.x <= at.x + size.w && (p.y == at.y || p.y == at.y + size.h)) ||
    (at.y <= p.y <= at.y + size.h && (p.x == at.x || p.x == at.x + size.w))
  }

  /** The leg from `p` to `q` stays on one side of the box, so it never enters its inside. */
  predicate LegAvoids(p: Point, q: Point, at: Point, size: Size) {
    (p.x <= at.x && q.x <= at.x) || (p.x >= at.x + size.w && q.x >= at.x + size.w) ||
    (p.y <= at.y && q.y <= at.y) || (p.y >= at.y + size.h && q.y >= at.y + size.h)
  }

  predicate Avoids(route: seq<Point>, at: Point, size: Size) {
    forall i :: 0 <= i && i + 1 < |route| ==> LegAvoids(route[i], route[i + 1], at, size)
  }

  /** Between boxes that lie apart, a route runs from border to border through neither of them. */
  lemma RouteJoins(sa: Point, ss: Size, da: Point, ds: Size)
    requires ss.w > 0.0 && ss.h > 0.0 && ds.w > 0.0 && ds.h > 0.0
    ensures var route := Route(sa, ss, da, ds);
            Orthogonal(route) && |route| >= 3 &&
            (Apart(sa, ss, da, ds) <==> OnBorder(route[0], sa, ss) && OnBorder(route[|route| - 1], da, ds) &&
                                        Avoids(route, sa, ss) && Avoids(route, da, ds))
  {
  }
}
