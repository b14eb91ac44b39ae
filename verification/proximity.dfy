/** The proximity check run after the camera starts
    (`findNearbyInArray` and `afterCameraStartedCheck20m` in
    check_in/js/app_checkin.js). The great-circle distance and `Math.round`
    are parameters: only their results matter to the scan. */
module Proximity {
  import opened Wrappers
  import opened Text
  import opened SheetCsv

  const NearRadiusM: real := 20.0
  const MaxAccuracyM: real := 60.0
  const DefaultLabel: string := "V\U{1ECB} tr\U{ED}"

  datatype Coord = Coord(lat: real, lng: real)

  /** A single GPS fix; `acc` is the reported accuracy, None when absent. */
  datatype Fix = Fix(lat: real, lng: real, acc: Option<real>)

  /** `{...it, dist: Math.round(d)}`: the matched point and its rounded distance. */
  datatype Hit = Hit(point: Point, dist: int)

  /** The toast shown for a match: its label and rounded distance. */
  datatype Notice = Notice(title: string, dist: int)

  function PointCoord(p: Point): Coord {
    Coord(p.lat, p.lng)
  }

  /** `findNearbyInArray`: a linear scan keeping the closest point within
      the radius (inclusive); a later point replaces the current one only
      when strictly closer, so the first of equally close points wins. */
  method FindNearby(q: Coord, arr: seq<Point>, radiusM: real,
                    dist: (Coord, Coord) -> real, round: real -> int) returns (best: Option<Hit>)
    ensures best.None? <==> forall i :: 0 <= i < |arr| ==> dist(q, PointCoord(arr[i])) > radiusM
    ensures best.Some? ==>
              exists i ::
                && 0 <= i < |arr|
                && best.value == Hit(arr[i], round(dist(q, PointCoord(arr[i]))))
                && dist(q, PointCoord(arr[i])) <= radiusM
                && (forall j :: 0 <= j < |arr| ==> dist(q, PointCoord(arr[j])) >= dist(q, PointCoord(arr[i])))
                && (forall j :: 0 <= j < i ==> dist(q, PointCoord(arr[j])) > dist(q, PointCoord(arr[i])))
  {
    best := None;
    var bestD: real := 0.0;  // stands for Infinity while best is None
    ghost var bi := 0;
    var k := 0;
    while k < |arr|
      invariant 0 <= k <= |arr|
      invariant best.None? <==> forall i :: 0 <= i < k ==> dist(q, PointCoord(arr[i])) > radiusM
      invariant best.Some? ==>
                  && 0 <= bi < k
                  && best.value == Hit(arr[bi], round(dist(q, PointCoord(arr[bi]))))
                  && bestD == dist(q, PointCoord(arr[bi])) && bestD <= radiusM
                  && (forall j :: 0 <= j < k ==> dist(q, PointCoord(arr[j])) >= bestD)
                  && (forall j :: 0 <= j < bi ==> dist(q, PointCoord(arr[j])) > bestD)
    {
      var d := dist(q, PointCoord(arr[k]));
      if d <= radiusM && (best.None? || d < bestD) {
        best := Some(Hit(arr[k], round(d)));
        bestD := d;
        bi := k;
      }
      k := k + 1;
    }
  }

  /** The accuracy gate: a lookup needs a fix whose accuracy is absent or at
      most 60 m. */
  predicate ShouldLookup(g: Option<Fix>) {
    g.Some? && (g.value.acc.None? || g.value.acc.value <= MaxAccuracyM)
  }

  /** `hit.name || hit.ma_kh || hit.ma_hd || 'Vị trí'`. */
  function Label(p: Point): (s: string)
    ensures s != ""
    ensures s == DefaultLabel || Some(s) == p.name || Some(s) == p.maKh || Some(s) == p.maHd
    ensures Truthy(p.name) ==> s == p.name.value
    ensures !Truthy(p.name) && Truthy(p.maKh) ==> s == p.maKh.value
    ensures !Truthy(p.name) && !Truthy(p.maKh) && Truthy(p.maHd) ==> s == p.maHd.value
    ensures !Truthy(p.name) && !Truthy(p.maKh) && !Truthy(p.maHd) ==> s == DefaultLabel
  {
    if Truthy(p.name) then p.name.value
    else if Truthy(p.maKh) then p.maKh.value
    else if Truthy(p.maHd) then p.maHd.value
    else DefaultLabel
  }

  /** The lookup after the camera starts, once the points are loaded and one
      GPS fix was taken: `looked` says whether the scan ran at all, and the
      notice names the nearest point within 20 m. */
  method NearbyNotice(points: seq<Point>, g: Option<Fix>,
                      dist: (Coord, Coord) -> real, round: real -> int) returns (looked: bool, notice: Option<Notice>)
    ensures looked == ShouldLookup(g)
    ensures !looked ==> notice.None?
    ensures looked ==> (notice.None? <==> forall i :: 0 <= i < |points| ==>
                          dist(Coord(g.value.lat, g.value.lng), PointCoord(points[i])) > NearRadiusM)
    ensures notice.Some? ==>
              exists i ::
                && 0 <= i < |points|
                && notice.value == Notice(Label(points[i]), round(dist(Coord(g.value.lat, g.value.lng), PointCoord(points[i]))))
                && dist(Coord(g.value.lat, g.value.lng), PointCoord(points[i])) <= NearRadiusM
                && (forall j :: 0 <= j < |points| ==>
                      dist(Coord(g.value.lat, g.value.lng), PointCoord(points[j]))
                        >= dist(Coord(g.value.lat, g.value.lng), PointCoord(points[i])))
                && (forall j :: 0 <= j < i ==>
                      dist(Coord(g.value.lat, g.value.lng), PointCoord(points[j]))
                        > dist(Coord(g.value.lat, g.value.lng), PointCoord(points[i])))
  {
    looked := ShouldLookup(g);
    notice := None;
    if looked {
      var hit := FindNearby(Coord(g.value.lat, g.value.lng), points, NearRadiusM, dist, round);
      if hit.Some? {
        notice := Some(Notice(Label(hit.value.point), hit.value.dist));
      }
    }
  }
}
