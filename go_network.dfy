/** The per-point distances of the Go server: for every point of one line, the
    distance to the closest point of another line, never more than 1. The distance
    between two points (projection onto the unit sphere, then Euclidean distance)
    is a parameter `dist`. */
module GoNetwork {
  import opened Geo

  type PointDist = (CoordGeo, CoordGeo) -> real

  /** The running minimum of the inner loop over the points of `coords2`, starting
      from 1.0. */
  function MinDist(c1: CoordGeo, coords2: seq<CoordGeo>, dist: PointDist): real {
    if |coords2| == 0 then 1.0
    else
      var m := MinDist(c1, coords2[..|coords2| - 1], dist);
      var d := dist(c1, coords2[|coords2| - 1]);
      if d < m then d else m
  }

  /** The minimum is at most 1.0 and at most the distance to every point of the
      other line, and it is 1.0 or one of those distances. */
  lemma {:induction false} MinDistIsMinimum(c1: CoordGeo, coords2: seq<CoordGeo>, dist: PointDist)
    ensures MinDist(c1, coords2, dist) <= 1.0
    ensures forall k :: 0 <= k < |coords2| ==> MinDist(c1, coords2, dist) <= dist(c1, coords2[k])
    ensures MinDist(c1, coords2, dist) == 1.0 ||
      exists k :: 0 <= k < |coords2| && MinDist(c1, coords2, dist) == dist(c1, coords2[k])
  {
    if |coords2| > 0 {
      var n := |coords2| - 1;
      MinDistIsMinimum(c1, coords2[..n], dist);
      assert forall k :: 0 <= k < n ==> coords2[..n][k] == coords2[k];
    }
  }

  /** What `getDistances` returns: zeros for two lines with the same id, else the
      capped minimum for every point of the first line. */
  function Distances(line1: Line, line2: Line, dist: PointDist): (r: seq<real>)
    ensures |r| == |line1.coords|
  {
    if line1.id == line2.id then seq(|line1.coords|, _ => 0.0)
    else seq(|line1.coords|, i requires 0 <= i < |line1.coords| => MinDist(line1.coords[i], line2.coords, dist))
  }

  /** The inner loop over the points of the second line. */
  method ClosestPoint(coord1: CoordGeo, coords2: seq<CoordGeo>, dist: PointDist) returns (minDist: real)
    ensures minDist == MinDist(coord1, coords2, dist)
  {
    minDist := 1.0;
    for j := 0 to |coords2|
      invariant minDist == MinDist(coord1, coords2[..j], dist)
    {
      assert coords2[..j + 1][..j] == coords2[..j];
      var d := dist(coord1, coords2[j]);
      minDist := if d < minDist then d else minDist;
    }
    assert coords2[..|coords2|] == coords2;
  }

  /** `getDistances`. */
  method GetDistances(line1: Line, line2: Line, dist: PointDist) returns (dists: seq<real>)
    ensures dists == Distances(line1, line2, dist)
  {
    if line1.id == line2.id {
      return seq(|line1.coords|, _ => 0.0);
    }
    dists := [];
    for i := 0 to |line1.coords|
      invariant |dists| == i
      invariant forall k :: 0 <= k < i ==> dists[k] == MinDist(line1.coords[k], line2.coords, dist)
    {
      var minDist := ClosestPoint(line1.coords[i], line2.coords, dist);
      dists := dists + [minDist];
    }
  }

  /** Every entry is at most 1.0 and at most the distance to every point of the
      second line; a line compared with itself, or with any line of the same id,
      gives only zeros; a line with no points and another id gives only 1.0. */
  lemma DistancesFacts(line1: Line, line2: Line, dist: PointDist)
    ensures var r := Distances(line1, line2, dist);
      (line1.id == line2.id ==> forall i :: 0 <= i < |r| ==> r[i] == 0.0) &&
      (line1.id != line2.id ==> forall i :: 0 <= i < |r| ==>
        (r[i] <= 1.0 && forall k :: 0 <= k < |line2.coords| ==> r[i] <= dist(line1.coords[i], line2.coords[k]))) &&
      (line1.id != line2.id && |line2.coords| == 0 ==> forall i :: 0 <= i < |r| ==> r[i] == 1.0)
  {
    forall i | 0 <= i < |line1.coords| {
      MinDistIsMinimum(line1.coords[i], line2.coords, dist);
    }
  }

  /** `getAllDistances`, with the goroutines run one after the other: a buffer with
      one row per line, row `i` holding the distances to `lines[i]`. */
  method GetAllDistances(line1: Line, lines: seq<Line>, dist: PointDist) returns (dists: array<seq<real>>)
    ensures fresh(dists)
    ensures dists.Length == |lines|
    ensures forall i :: 0 <= i < |lines| ==> dists[i] == Distances(line1, lines[i], dist)
  {
    dists := new seq<real>[|lines|];
    for i := 0 to |lines|
      invariant forall k :: 0 <= k < i ==> dists[k] == Distances(line1, lines[k], dist)
    {
      var line2Dists := GetDistances(line1, lines[i], dist);
      dists[i] := line2Dists;
    }
  }
}
