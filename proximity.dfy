/** The proximity tests shared by both network builders: the three-point
    pre-check, the per-point minimum distances, the coarse closeness filter on the
    multiscale sample and the close-point ratio. webview/data.py and data.py carry
    the same code for all four. */
module Proximity {
  import opened LineReader
  import opened Sequences

  /** The distance between two points. The code projects both points onto the unit
      sphere and takes the Euclidean distance of the projections; that composite is
      a parameter here. */
  type Dist = (CoordGeo, CoordGeo) -> real

  const EarthRadius: real := 6371.0

  /** `Connection` / `TypedConnection`: a directed, weighted pair of line ids. */
  datatype Connection = Connection(source: string, target: string, weight: real)

  /** The value `generate_network` returns: the node ids, the edges of each
      cluster, and the cluster of each node. */
  datatype Network = Network(nodes: seq<string>, clusters: map<int, seq<Connection>>, nodeClusters: map<string, int>)

  // ---------------------------------------------------------------- nearby_check

  /** `nearby_check`: the start points, the middle points (index `len // 2`) or the
      end points of the two lines lie within `maxDist` of each other. */
  predicate NearbyCheck(c1: seq<CoordGeo>, c2: seq<CoordGeo>, maxDist: real, dist: Dist)
    requires |c1| > 0 && |c2| > 0
  {
    if dist(c1[0], c2[0]) <= maxDist then true
    else if dist(c1[|c1| / 2], c2[|c2| / 2]) <= maxDist then true
    else dist(c1[|c1| - 1], c2[|c2| - 1]) <= maxDist
  }

  /** A passing pre-check exhibits a pair of points within `maxDist`, one index of
      three in both lines. */
  lemma NearbyCheckWitness(c1: seq<CoordGeo>, c2: seq<CoordGeo>, maxDist: real, dist: Dist)
    requires |c1| > 0 && |c2| > 0
    ensures NearbyCheck(c1, c2, maxDist, dist) <==>
      exists i, j :: 0 <= i < |c1| && 0 <= j < |c2| &&
        (i, j) in {(0, 0), (|c1| / 2, |c2| / 2), (|c1| - 1, |c2| - 1)} &&
        dist(c1[i], c2[j]) <= maxDist
  {
    if NearbyCheck(c1, c2, maxDist, dist) {
      if dist(c1[0], c2[0]) <= maxDist {
        assert (0, 0) in {(0, 0), (|c1| / 2, |c2| / 2), (|c1| - 1, |c2| - 1)};
      } else if dist(c1[|c1| / 2], c2[|c2| / 2]) <= maxDist {
        assert (|c1| / 2, |c2| / 2) in {(0, 0), (|c1| / 2, |c2| / 2), (|c1| - 1, |c2| - 1)};
      } else {
        assert (|c1| - 1, |c2| - 1) in {(0, 0), (|c1| / 2, |c2| / 2), (|c1| - 1, |c2| - 1)};
      }
    }
  }

  /** With a symmetric distance the pre-check does not depend on the order of the
      two lines. */
  lemma NearbyCheckSymmetric(c1: seq<CoordGeo>, c2: seq<CoordGeo>, maxDist: real, dist: Dist)
    requires |c1| > 0 && |c2| > 0
    requires forall p, q :: dist(p, q) == dist(q, p)
    ensures NearbyCheck(c1, c2, maxDist, dist) == NearbyCheck(c2, c1, maxDist, dist)
  {
    assert dist(c1[0], c2[0]) == dist(c2[0], c1[0]);
    assert dist(c1[|c1| / 2], c2[|c2| / 2]) == dist(c2[|c2| / 2], c1[|c1| / 2]);
    assert dist(c1[|c1| - 1], c2[|c2| - 1]) == dist(c2[|c2| - 1], c1[|c1| - 1]);
  }

  /** A pre-check that passes for some bound passes for every larger one. */
  lemma NearbyCheckMonotone(c1: seq<CoordGeo>, c2: seq<CoordGeo>, m1: real, m2: real, dist: Dist)
    requires |c1| > 0 && |c2| > 0 && m1 <= m2
    requires NearbyCheck(c1, c2, m1, dist)
    ensures NearbyCheck(c1, c2, m2, dist)
  {
  }

  /** `get_distances` passes `max_dist * 3` to the pre-check, with `max_dist` in
      kilometres, while the points lie on the unit sphere, two apart at most. From a
      `max_dist` of 2/3 upwards the pre-check therefore never rejects a line. */
  lemma NearbyCheckVacuous(c1: seq<CoordGeo>, c2: seq<CoordGeo>, maxDist: real, dist: Dist)
    requires |c1| > 0 && |c2| > 0
    requires forall p, q :: dist(p, q) <= 2.0
    requires maxDist * 3.0 >= 2.0
    ensures NearbyCheck(c1, c2, maxDist * 3.0, dist)
  {
    assert dist(c1[0], c2[0]) <= 2.0;
  }

  // ---------------------------------------------------------------- minimum distances

  /** The distance from `p` to the nearest point of `cs`. */
  function MinDistTo(p: CoordGeo, cs: seq<CoordGeo>, dist: Dist): (m: real)
    requires |cs| > 0
  {
    if |cs| == 1 then dist(p, cs[0])
    else
      var rest := MinDistTo(p, cs[1..], dist);
      if dist(p, cs[0]) < rest then dist(p, cs[0]) else rest
  }

  /** The minimum is the distance to one of the points and bounds every distance. */
  lemma {:induction false} MinDistToIsMinimum(p: CoordGeo, cs: seq<CoordGeo>, dist: Dist)
    requires |cs| > 0
    ensures exists j :: 0 <= j < |cs| && MinDistTo(p, cs, dist) == dist(p, cs[j])
    ensures forall j :: 0 <= j < |cs| ==> MinDistTo(p, cs, dist) <= dist(p, cs[j])
  {
    if |cs| > 1 {
      MinDistToIsMinimum(p, cs[1..], dist);
      var j :| 0 <= j < |cs[1..]| && MinDistTo(p, cs[1..], dist) == dist(p, cs[1..][j]);
      if dist(p, cs[0]) >= MinDistTo(p, cs[1..], dist) {
        assert cs[1..][j] == cs[j + 1];
        assert MinDistTo(p, cs, dist) == dist(p, cs[j + 1]);
      } else {
        assert MinDistTo(p, cs, dist) == dist(p, cs[0]);
      }
      forall k | 0 <= k < |cs| ensures MinDistTo(p, cs, dist) <= dist(p, cs[k]) {
        if k > 0 {
          assert cs[k] == cs[1..][k - 1];
        }
      }
    } else {
      assert MinDistTo(p, cs, dist) == dist(p, cs[0]);
    }
  }

  /** `np.min(cdist(coords, coords2), axis=1)`: for every point of the first line,
      the distance to the nearest point of the second. */
  function PointMinima(c1: seq<CoordGeo>, c2: seq<CoordGeo>, dist: Dist): (ds: seq<real>)
    requires |c2| > 0
    ensures |ds| == |c1|
  {
    seq(|c1|, i requires 0 <= i < |c1| => MinDistTo(c1[i], c2, dist))
  }

  /** The row `get_distances` produces for one other line: empty when the
      pre-check with three times the bound fails, the point minima otherwise. */
  function DistanceRow(line: Line, other: Line, maxDist: real, dist: Dist): seq<real>
    requires |line.coords| > 0 && |other.coords| > 0
  {
    if !NearbyCheck(line.coords, other.coords, maxDist * 3.0, dist) then []
    else PointMinima(line.coords, other.coords, dist)
  }

  /** A row is empty exactly when the pre-check fails; otherwise it has one entry per
      point of the line, the distance to the nearest point of the other line. */
  lemma DistanceRowShape(line: Line, other: Line, maxDist: real, dist: Dist)
    requires |line.coords| > 0 && |other.coords| > 0
    ensures var row := DistanceRow(line, other, maxDist, dist);
      (row == [] <==> !NearbyCheck(line.coords, other.coords, maxDist * 3.0, dist)) &&
      (row != [] ==> (|row| == |line.coords| &&
        forall i, j :: 0 <= i < |row| && 0 <= j < |other.coords| ==> row[i] <= dist(line.coords[i], other.coords[j])))
  {
    var row := DistanceRow(line, other, maxDist, dist);
    if row != [] {
      forall i | 0 <= i < |row|
        ensures forall j :: 0 <= j < |other.coords| ==> row[i] <= dist(line.coords[i], other.coords[j])
      {
        MinDistToIsMinimum(line.coords[i], other.coords, dist);
      }
    }
  }

  /** Every line has at least one point. */
  predicate NonEmptyLines(lines: seq<Line>) {
    forall k :: 0 <= k < |lines| ==> |lines[k].coords| > 0
  }

  /** `get_distances`: one row per other line, in order. */
  method GetDistances(line: Line, lines: seq<Line>, maxDist: real, dist: Dist) returns (dists: seq<seq<real>>)
    requires |line.coords| > 0 && NonEmptyLines(lines)
    ensures |dists| == |lines|
    ensures forall k :: 0 <= k < |lines| ==> dists[k] == DistanceRow(line, lines[k], maxDist, dist)
  {
    dists := [];
    for k := 0 to |lines|
      invariant |dists| == k
      invariant forall j :: 0 <= j < k ==> dists[j] == DistanceRow(line, lines[j], maxDist, dist)
    {
      var coords2 := lines[k].coords;
      if !NearbyCheck(line.coords, coords2, maxDist * 3.0, dist) {
        dists := dists + [[]];
        continue;
      }
      dists := dists + [PointMinima(line.coords, coords2, dist)];
    }
  }

  // ---------------------------------------------------------------- get_close_lines

  /** The coarse test of `get_close_lines`: some point of the first sample lies
      closer than `threshold` kilometres to its nearest point of the second. */
  predicate IsClose(a: seq<CoordGeo>, b: seq<CoordGeo>, threshold: real, dist: Dist)
    requires |b| > 0
  {
    exists i :: 0 <= i < |a| && PointMinima(a, b, dist)[i] * EarthRadius < threshold
  }

  /** The test holds exactly when some pair of sample points is closer than the
      threshold. */
  lemma IsCloseIff(a: seq<CoordGeo>, b: seq<CoordGeo>, threshold: real, dist: Dist)
    requires |b| > 0
    ensures IsClose(a, b, threshold, dist) <==>
      exists i, j :: 0 <= i < |a| && 0 <= j < |b| && dist(a[i], b[j]) * EarthRadius < threshold
  {
    if IsClose(a, b, threshold, dist) {
      var i :| 0 <= i < |a| && PointMinima(a, b, dist)[i] * EarthRadius < threshold;
      MinDistToIsMinimum(a[i], b, dist);
      var j :| 0 <= j < |b| && MinDistTo(a[i], b, dist) == dist(a[i], b[j]);
      assert dist(a[i], b[j]) * EarthRadius < threshold;
    }
    if exists i, j :: 0 <= i < |a| && 0 <= j < |b| && dist(a[i], b[j]) * EarthRadius < threshold {
      var i, j :| 0 <= i < |a| && 0 <= j < |b| && dist(a[i], b[j]) * EarthRadius < threshold;
      MinDistToIsMinimum(a[i], b, dist);
      assert PointMinima(a, b, dist)[i] * EarthRadius < threshold;
    }
  }

  /** The multiscale level-0 sample of every line is non-empty. */
  predicate Sampled(lines: seq<Line>, sample: string -> seq<CoordGeo>) {
    forall k :: 0 <= k < |lines| ==> |sample(lines[k].id)| > 0
  }

  /** The lines `get_close_lines` keeps, in input order. `sample(id)` is the level-0
      multiscale sample of the line with that id. */
  function CloseLines(line: Line, lines: seq<Line>, sample: string -> seq<CoordGeo>, threshold: real, dist: Dist): seq<Line>
    requires Sampled(lines, sample)
  {
    if |lines| == 0 then []
    else
      var n := |lines| - 1;
      var other := lines[n];
      assert Sampled(lines[..n], sample) by {
        assert forall k :: 0 <= k < n ==> lines[..n][k] == lines[k];
      }
      CloseLines(line, lines[..n], sample, threshold, dist)
      + (if other.id != line.id && IsClose(sample(line.id), sample(other.id), threshold, dist) then [other] else [])
  }

  lemma CloseLinesStep(line: Line, lines: seq<Line>, k: nat, sample: string -> seq<CoordGeo>, threshold: real, dist: Dist)
    requires k < |lines| && Sampled(lines, sample)
    ensures Sampled(lines[..k], sample) && Sampled(lines[..k + 1], sample)
    ensures CloseLines(line, lines[..k + 1], sample, threshold, dist) ==
      CloseLines(line, lines[..k], sample, threshold, dist) +
      (if lines[k].id != line.id && IsClose(sample(line.id), sample(lines[k].id), threshold, dist) then [lines[k]] else [])
  {
    assert lines[..k + 1][..k] == lines[..k];
  }

  /** A line is kept exactly when it is one of the input lines, its id differs from
      the query's, and the coarse test holds; so the query line never comes back. */
  lemma {:induction false} CloseLinesMembers(line: Line, lines: seq<Line>, sample: string -> seq<CoordGeo>, threshold: real, dist: Dist)
    requires Sampled(lines, sample)
    ensures forall l :: l in CloseLines(line, lines, sample, threshold, dist) <==>
      l in lines && l.id != line.id && IsClose(sample(line.id), sample(l.id), threshold, dist)
  {
    if |lines| > 0 {
      var n := |lines| - 1;
      assert Sampled(lines[..n], sample) by {
        assert forall k :: 0 <= k < n ==> lines[..n][k] == lines[k];
      }
      CloseLinesMembers(line, lines[..n], sample, threshold, dist);
      assert lines == lines[..n] + [lines[n]];
    }
  }

  /** `get_close_lines`: the other lines whose level-0 samples come closer than the
      threshold, in input order; a line with the query's id is skipped. */
  method GetCloseLines(line: Line, lines: seq<Line>, sample: string -> seq<CoordGeo>, threshold: real, dist: Dist)
    returns (close: seq<Line>)
    requires Sampled(lines, sample)
    ensures close == CloseLines(line, lines, sample, threshold, dist)
  {
    close := [];
    for k := 0 to |lines|
      invariant Sampled(lines[..k], sample)
      invariant close == CloseLines(line, lines[..k], sample, threshold, dist)
    {
      CloseLinesStep(line, lines, k, sample, threshold, dist);
      var line2 := lines[k];
      if line2.id == line.id {
        continue;
      }
      if IsClose(sample(line.id), sample(line2.id), threshold, dist) {
        close := close + [line2];
      }
    }
    assert lines[..|lines|] == lines;
  }

  // ---------------------------------------------------------------- ratios

  /** The number of entries of `ds` at most `bound`: `np.sum(dist <= bound)`. */
  function CountWithin(ds: seq<real>, bound: real): (c: nat)
    ensures c <= |ds|
  {
    if |ds| == 0 then 0
    else CountWithin(ds[..|ds| - 1], bound) + (if ds[|ds| - 1] <= bound then 1 else 0)
  }

  /** All entries are within the bound exactly when the count is the length, and none
      is exactly when it is zero. */
  lemma {:induction false} CountWithinExtremes(ds: seq<real>, bound: real)
    ensures CountWithin(ds, bound) == |ds| <==> forall i :: 0 <= i < |ds| ==> ds[i] <= bound
    ensures CountWithin(ds, bound) == 0 <==> forall i :: 0 <= i < |ds| ==> ds[i] > bound
  {
    if |ds| > 0 {
      var n := |ds| - 1;
      CountWithinExtremes(ds[..n], bound);
      assert forall i :: 0 <= i < n ==> ds[..n][i] == ds[i];
    }
  }

  /** The fraction of a row's points whose nearest distance is at most `max_dist`
      kilometres, measured on the unit sphere: `max_dist / EARTH_RADIUS`. */
  function Ratio(ds: seq<real>, maxDist: int): (r: real)
    requires |ds| > 0
    ensures 0.0 <= r <= 1.0
  {
    CountWithin(ds, maxDist as real / EarthRadius) as real / |ds| as real
  }

  /** The ratio is 1 exactly when every point is close and 0 exactly when none is. */
  lemma RatioExtremes(ds: seq<real>, maxDist: int)
    requires |ds| > 0
    ensures Ratio(ds, maxDist) == 1.0 <==> forall i :: 0 <= i < |ds| ==> ds[i] <= maxDist as real / EarthRadius
    ensures Ratio(ds, maxDist) == 0.0 <==> forall i :: 0 <= i < |ds| ==> ds[i] > maxDist as real / EarthRadius
  {
    CountWithinExtremes(ds, maxDist as real / EarthRadius);
    var c := CountWithin(ds, maxDist as real / EarthRadius);
    if Ratio(ds, maxDist) == 1.0 {
      assert c as real == |ds| as real;
    }
  }

  /** The ratio loop of `generate_network`: one ratio per distance row, in order. */
  method Ratios(dists: seq<seq<real>>, maxDist: int) returns (ratios: seq<real>)
    requires forall k :: 0 <= k < |dists| ==> |dists[k]| > 0
    ensures |ratios| == |dists|
    ensures forall k :: 0 <= k < |dists| ==> ratios[k] == Ratio(dists[k], maxDist)
  {
    ratios := [];
    for k := 0 to |dists|
      invariant |ratios| == k
      invariant forall j :: 0 <= j < k ==> ratios[j] == Ratio(dists[j], maxDist)
    {
      ratios := ratios + [Ratio(dists[k], maxDist)];
    }
  }

  // ---------------------------------------------------------------- qualifying pairs

  /** The pre-check of `get_distances` passes for every line of `close`, so no
      distance row is empty. The code does not handle an empty row: next to full rows
      it makes a ragged array, and when every row is empty each ratio is 0/0. */
  predicate Prechecked(line: Line, close: seq<Line>, maxDist: int, dist: Dist)
    requires |line.coords| > 0 && NonEmptyLines(close)
  {
    forall k :: 0 <= k < |close| ==> NearbyCheck(line.coords, close[k].coords, maxDist as real * 3.0, dist)
  }

  /** The ratio of each close line, in order: what the distance and ratio loops of
      `generate_network` compute for one line. */
  function LineRatios(line: Line, close: seq<Line>, maxDist: int, dist: Dist): (rs: seq<real>)
    requires |line.coords| > 0 && NonEmptyLines(close) && Prechecked(line, close, maxDist, dist)
    ensures |rs| == |close|
    ensures forall k :: 0 <= k < |rs| ==> 0.0 <= rs[k] <= 1.0
  {
    seq(|close|, k requires 0 <= k < |close| => Ratio(DistanceRow(line, close[k], maxDist as real, dist), maxDist))
  }

  /** The pairs a line forms: one connection from the line to each close line whose
      ratio reaches `required`, weighted by that ratio, in close-line order. */
  function Qualifying(line: Line, close: seq<Line>, ratios: seq<real>, required: real): seq<Connection>
    requires |close| == |ratios|
  {
    if |close| == 0 then []
    else
      var n := |close| - 1;
      Qualifying(line, close[..n], ratios[..n], required)
      + (if ratios[n] < required then [] else [Connection(line.id, close[n].id, ratios[n])])
  }

  lemma QualifyingStep(line: Line, close: seq<Line>, ratios: seq<real>, required: real, k: nat)
    requires |close| == |ratios| && k < |close|
    ensures Qualifying(line, close[..k + 1], ratios[..k + 1], required) ==
      Qualifying(line, close[..k], ratios[..k], required)
      + (if ratios[k] < required then [] else [Connection(line.id, close[k].id, ratios[k])])
  {
    assert close[..k + 1][..k] == close[..k];
    assert ratios[..k + 1][..k] == ratios[..k];
  }

  /** A connection is formed exactly for a close line whose ratio is at least the
      required ratio; it leads from the line to that close line. */
  lemma {:induction false} QualifyingMembers(line: Line, close: seq<Line>, ratios: seq<real>, required: real)
    requires |close| == |ratios|
    ensures forall c :: c in Qualifying(line, close, ratios, required) <==>
      exists k :: 0 <= k < |close| && ratios[k] >= required &&
        c == Connection(line.id, close[k].id, ratios[k])
  {
    if |close| > 0 {
      var n := |close| - 1;
      QualifyingMembers(line, close[..n], ratios[..n], required);
      forall c | c in Qualifying(line, close, ratios, required)
        ensures exists k :: (0 <= k < |close| && ratios[k] >= required &&
          c == Connection(line.id, close[k].id, ratios[k]))
      {
        if c in Qualifying(line, close[..n], ratios[..n], required) {
          var k :| 0 <= k < n && ratios[..n][k] >= required &&
            c == Connection(line.id, close[..n][k].id, ratios[..n][k]);
          assert close[..n][k] == close[k] && ratios[..n][k] == ratios[k];
        }
      }
      forall k | 0 <= k < |close| && ratios[k] >= required
        ensures Connection(line.id, close[k].id, ratios[k]) in Qualifying(line, close, ratios, required)
      {
        if k < n {
          assert close[..n][k] == close[k] && ratios[..n][k] == ratios[k];
        }
      }
    }
  }

  /** The close lines of `line` are lines with points. */
  lemma CloseLinesNonEmpty(line: Line, lines: seq<Line>, sample: string -> seq<CoordGeo>, threshold: real, dist: Dist)
    requires NonEmptyLines(lines) && Sampled(lines, sample)
    ensures NonEmptyLines(CloseLines(line, lines, sample, threshold, dist))
  {
    var close := CloseLines(line, lines, sample, threshold, dist);
    CloseLinesMembers(line, lines, sample, threshold, dist);
    forall k | 0 <= k < |close| ensures |close[k].coords| > 0 {
      assert close[k] in close;
    }
  }

  /** The pre-check of `get_distances` passes for every line `get_close_lines`
      returns for `line` at ten times the bound, so every ratio divides by a
      non-zero row length. */
  predicate ClosePrechecked(line: Line, lines: seq<Line>, sample: string -> seq<CoordGeo>, maxDist: int, dist: Dist)
    requires |line.coords| > 0 && NonEmptyLines(lines) && Sampled(lines, sample)
  {
    var close := CloseLines(line, lines, sample, (maxDist * 10) as real, dist);
    CloseLinesNonEmpty(line, lines, sample, (maxDist * 10) as real, dist);
    Prechecked(line, close, maxDist, dist)
  }

  /** The connections of `line` among `lines`, as both network builders form them:
      close lines by a coarse threshold of ten times `max_dist`, then the ratio test. */
  function ConnectionsOf(line: Line, lines: seq<Line>, sample: string -> seq<CoordGeo>,
                         maxDist: int, required: real, dist: Dist): seq<Connection>
    requires |line.coords| > 0 && NonEmptyLines(lines) && Sampled(lines, sample)
    requires ClosePrechecked(line, lines, sample, maxDist, dist)
  {
    var close := CloseLines(line, lines, sample, (maxDist * 10) as real, dist);
    CloseLinesNonEmpty(line, lines, sample, (maxDist * 10) as real, dist);
    Qualifying(line, close, LineRatios(line, close, maxDist, dist), required)
  }

  /** Every connection of a line leads from it to another input line, and its
      weight lies between the required ratio and 1. */
  lemma ConnectionsOfFacts(line: Line, lines: seq<Line>, sample: string -> seq<CoordGeo>,
                           maxDist: int, required: real, dist: Dist)
    requires |line.coords| > 0 && NonEmptyLines(lines) && Sampled(lines, sample)
    requires ClosePrechecked(line, lines, sample, maxDist, dist)
    ensures forall c :: c in ConnectionsOf(line, lines, sample, maxDist, required, dist) ==>
      c.source == line.id && c.target != line.id &&
      (exists l :: l in lines && l.id == c.target) &&
      required <= c.weight <= 1.0
  {
    var close := CloseLines(line, lines, sample, (maxDist * 10) as real, dist);
    CloseLinesMembers(line, lines, sample, (maxDist * 10) as real, dist);
    var ratios := LineRatios(line, close, maxDist, dist);
    QualifyingMembers(line, close, ratios, required);
    forall c | c in ConnectionsOf(line, lines, sample, maxDist, required, dist)
      ensures c.source == line.id && c.target != line.id &&
        (exists l :: l in lines && l.id == c.target) && required <= c.weight <= 1.0
    {
      var k :| 0 <= k < |close| && ratios[k] >= required && c == Connection(line.id, close[k].id, ratios[k]);
      assert close[k] in close;
    }
  }

  // ---------------------------------------------------------------- the outer loop

  /** Every line has points and a level-0 sample, and passes the pre-check against
      each of its close lines. */
  predicate Prepared(lines: seq<Line>, sample: string -> seq<CoordGeo>, maxDist: int, dist: Dist) {
    NonEmptyLines(lines) && Sampled(lines, sample) &&
    forall k :: 0 <= k < |lines| ==> ClosePrechecked(lines[k], lines, sample, maxDist, dist)
  }

  /** The connections of each line, in line order. */
  function PairsByLine(lines: seq<Line>, sample: string -> seq<CoordGeo>, maxDist: int, required: real, dist: Dist)
    : (r: seq<seq<Connection>>)
    requires Prepared(lines, sample, maxDist, dist)
    ensures |r| == |lines|
    ensures forall k :: 0 <= k < |lines| ==> r[k] == ConnectionsOf(lines[k], lines, sample, maxDist, required, dist)
  {
    seq(|lines|, k requires 0 <= k < |lines| => ConnectionsOf(lines[k], lines, sample, maxDist, required, dist))
  }

  /** Every pair the outer loop meets leads from an input line to another input
      line, with a weight between the required ratio and 1. */
  lemma PairsFacts(lines: seq<Line>, sample: string -> seq<CoordGeo>, maxDist: int, required: real, dist: Dist)
    requires Prepared(lines, sample, maxDist, dist)
    ensures forall c :: c in Concat(PairsByLine(lines, sample, maxDist, required, dist)) ==>
      (exists l :: l in lines && l.id == c.source) &&
      (exists l :: l in lines && l.id == c.target) &&
      c.source != c.target && required <= c.weight <= 1.0
  {
    var ss := PairsByLine(lines, sample, maxDist, required, dist);
    ConcatMembers(ss);
    forall c: Connection | c in Concat(ss)
      ensures (exists l :: l in lines && l.id == c.source) &&
        (exists l :: l in lines && l.id == c.target) &&
        c.source != c.target && required <= c.weight <= 1.0
    {
      var k :| 0 <= k < |ss| && c in ss[k];
      ConnectionsOfFacts(lines[k], lines, sample, maxDist, required, dist);
      assert lines[k] in lines;
    }
  }

  /** The first three steps of the loop body for one line: its close lines and
      their ratios. */
  method LineRatiosOf(line: Line, lines: seq<Line>, sample: string -> seq<CoordGeo>, maxDist: int, dist: Dist)
    returns (close: seq<Line>, ratios: seq<real>)
    requires |line.coords| > 0 && NonEmptyLines(lines) && Sampled(lines, sample)
    requires ClosePrechecked(line, lines, sample, maxDist, dist)
    ensures close == CloseLines(line, lines, sample, (maxDist * 10) as real, dist)
    ensures NonEmptyLines(close) && Prechecked(line, close, maxDist, dist)
    ensures ratios == LineRatios(line, close, maxDist, dist)
  {
    close := GetCloseLines(line, lines, sample, (maxDist * 10) as real, dist);
    CloseLinesNonEmpty(line, lines, sample, (maxDist * 10) as real, dist);
    var dists := GetDistances(line, close, maxDist as real, dist);
    forall k | 0 <= k < |dists| ensures |dists[k]| > 0 {
      DistanceRowShape(line, close[k], maxDist as real, dist);
    }
    ratios := Ratios(dists, maxDist);
  }

  // ---------------------------------------------------------------- ids

  /** The ids of the lines, in order. */
  function Ids(lines: seq<Line>): (r: seq<string>)
    ensures |r| == |lines| && forall k :: 0 <= k < |lines| ==> r[k] == lines[k].id
  {
    seq(|lines|, k requires 0 <= k < |lines| => lines[k].id)
  }

  /** The ids at either end of the edges. */
  function Ends(edges: seq<Connection>): (r: set<string>)
    ensures forall e :: e in edges ==> e.source in r && e.target in r
  {
    if |edges| == 0 then {}
    else
      var n := |edges| - 1;
      Ends(edges[..n]) + {edges[n].source, edges[n].target}
  }

  /** An id at an end of some edge is an end of one particular edge. */
  lemma EndsWitness(edges: seq<Connection>, x: string) returns (e: Connection)
    requires x in Ends(edges)
    ensures e in edges && (e.source == x || e.target == x)
  {
    var n := |edges| - 1;
    if x in Ends(edges[..n]) {
      e := EndsWitness(edges[..n], x);
    } else {
      e := edges[n];
    }
  }
}
