/** The geometry types of the Go server: a line is an id and its points in
    latitude and longitude. Projections onto the unit sphere use trigonometry and
    are not modelled; the distance is the squared Euclidean distance of two 3D
    points over exact reals. */
module Geo {

  datatype CoordGeo = CoordGeo(latitude: real, longitude: real)

  datatype Coord3D = Coord3D(x: real, y: real, z: real)

  datatype Line = Line(id: string, coords: seq<CoordGeo>)

  /** `GetLatitudes`: a fresh buffer of the line's latitudes, point by point. The
      line is passed by value and so stays as it was. */
  method GetLatitudes(l: Line) returns (lats: array<real>)
    ensures fresh(lats)
    ensures lats.Length == |l.coords|
    ensures forall i :: 0 <= i < |l.coords| ==> lats[i] == l.coords[i].latitude
  {
    lats := new real[|l.coords|];
    for i := 0 to |l.coords|
      invariant forall k :: 0 <= k < i ==> lats[k] == l.coords[k].latitude
    {
      lats[i] := l.coords[i].latitude;
    }
  }

  /** `GetLongitudes`: a fresh buffer of the line's longitudes, point by point. */
  method GetLongitudes(l: Line) returns (lons: array<real>)
    ensures fresh(lons)
    ensures lons.Length == |l.coords|
    ensures forall i :: 0 <= i < |l.coords| ==> lons[i] == l.coords[i].longitude
  {
    lons := new real[|l.coords|];
    for i := 0 to |l.coords|
      invariant forall k :: 0 <= k < i ==> lons[k] == l.coords[k].longitude
    {
      lons[i] := l.coords[i].longitude;
    }
  }

  /** The squared Euclidean distance: the source's `Distance` with its square root
      left out, i.e. the sum of the squared differences of the three coordinates. */
  function Distance(c1: Coord3D, c2: Coord3D): real {
    (c1.x - c2.x) * (c1.x - c2.x) + (c1.y - c2.y) * (c1.y - c2.y) + (c1.z - c2.z) * (c1.z - c2.z)
  }

  /** The distance is never negative, is symmetric, and is zero from a point to
      itself. */
  lemma DistanceFacts(c1: Coord3D, c2: Coord3D)
    ensures Distance(c1, c2) >= 0.0
    ensures Distance(c1, c2) == Distance(c2, c1)
    ensures Distance(c1, c1) == 0.0
  {
    SquareNonNegative(c1.x - c2.x);
    SquareNonNegative(c1.y - c2.y);
    SquareNonNegative(c1.z - c2.z);
  }

  lemma SquareNonNegative(d: real)
    ensures d * d >= 0.0
  {
    if d < 0.0 {
      assert (-d) * (-d) >= 0.0 * (-d);
    }
  }
}
