/** The network of the sigma prototype: each line is reduced to the geometric
    center of its points, and two centers are linked when their squared coordinate
    distance is at most the threshold. Coordinates are exact reals. */
module SigmaData {
  import opened Outcomes

  /** A point `[lat, lon]`. */
  datatype Point = Point(lat: real, lon: real)

  /** A node input: a line id and the center of the line. */
  datatype Center = Center(id: string, center: Point)

  /** A link dict: `source`, `target` and `dist_sqrd`. */
  datatype Link = Link(source: string, target: string, distSqrd: real)

  datatype Network = Network(nodes: seq<string>, links: seq<Link>)

  // ---------------------------------------------------------------------------
  // get_geometric_center

  function SumLat(cs: seq<Point>): real {
    if |cs| == 0 then 0.0 else SumLat(cs[..|cs| - 1]) + cs[|cs| - 1].lat
  }

  function SumLon(cs: seq<Point>): real {
    if |cs| == 0 then 0.0 else SumLon(cs[..|cs| - 1]) + cs[|cs| - 1].lon
  }

  /** `get_geometric_center`: the mean of the latitudes and the mean of the
      longitudes. For an empty line the source divides by zero and yields
      `[nan, nan]`; the model yields `None`. */
  function GeometricCenter(cs: seq<Point>): (r: Option<Point>)
    ensures r.Some? <==> |cs| > 0
  {
    if |cs| == 0 then None
    else Some(Point(SumLat(cs) / |cs| as real, SumLon(cs) / |cs| as real))
  }

  lemma {:induction false} SumLatWithin(cs: seq<Point>, lo: real, hi: real)
    requires forall k :: 0 <= k < |cs| ==> lo <= cs[k].lat <= hi
    ensures |cs| as real * lo <= SumLat(cs) <= |cs| as real * hi
  {
    if |cs| > 0 {
      SumLatWithin(cs[..|cs| - 1], lo, hi);
    }
  }

  lemma {:induction false} SumLonWithin(cs: seq<Point>, lo: real, hi: real)
    requires forall k :: 0 <= k < |cs| ==> lo <= cs[k].lon <= hi
    ensures |cs| as real * lo <= SumLon(cs) <= |cs| as real * hi
  {
    if |cs| > 0 {
      SumLonWithin(cs[..|cs| - 1], lo, hi);
    }
  }

  lemma MeanWithin(sum: real, n: real, lo: real, hi: real)
    requires n > 0.0 && n * lo <= sum <= n * hi
    ensures lo <= sum / n <= hi
  {
    var q := sum / n;
    assert q * n == sum;
    assert (q - lo) * n >= 0.0 && (hi - q) * n >= 0.0;
  }

  /** The mean latitude lies between the least and the greatest latitude bound. */
  lemma MeanLatWithin(cs: seq<Point>, lo: real, hi: real)
    requires |cs| > 0
    requires forall k :: 0 <= k < |cs| ==> lo <= cs[k].lat <= hi
    ensures lo <= SumLat(cs) / |cs| as real <= hi
  {
    SumLatWithin(cs, lo, hi);
    MeanWithin(SumLat(cs), |cs| as real, lo, hi);
  }

  /** The mean longitude likewise. */
  lemma MeanLonWithin(cs: seq<Point>, lo: real, hi: real)
    requires |cs| > 0
    requires forall k :: 0 <= k < |cs| ==> lo <= cs[k].lon <= hi
    ensures lo <= SumLon(cs) / |cs| as real <= hi
  {
    SumLonWithin(cs, lo, hi);
    MeanWithin(SumLon(cs), |cs| as real, lo, hi);
  }

  /** The center lies within any box that holds every point of the line; in
      particular a line whose points are all equal has that point as its center. */
  lemma CenterWithin(cs: seq<Point>, latLo: real, latHi: real, lonLo: real, lonHi: real)
    requires |cs| > 0
    requires forall k :: 0 <= k < |cs| ==> latLo <= cs[k].lat <= latHi && lonLo <= cs[k].lon <= lonHi
    ensures var c := GeometricCenter(cs).value;
      latLo <= c.lat <= latHi && lonLo <= c.lon <= lonHi
  {
    MeanLatWithin(cs, latLo, latHi);
    MeanLonWithin(cs, lonLo, lonHi);
  }

  // ---------------------------------------------------------------------------
  // generate_network(centers, max_dist)

  /** `np.sum((coords[i] - coords[j])**2)`. */
  function DistSqrd(p: Point, q: Point): real {
    (p.lat - q.lat) * (p.lat - q.lat) + (p.lon - q.lon) * (p.lon - q.lon)
  }

  /** The squared distance is never negative, is symmetric and is zero between equal
      points. */
  lemma DistSqrdFacts(p: Point, q: Point)
    ensures DistSqrd(p, q) >= 0.0
    ensures DistSqrd(p, q) == DistSqrd(q, p)
    ensures DistSqrd(p, p) == 0.0
  {
  }

  /** The test of the inner loop: centers `i` and `j` are within `max_dist`. */
  function Near(cs: seq<Center>, maxDist: real): (nat, nat) -> bool {
    (i: nat, j: nat) => i < |cs| && j < |cs| && DistSqrd(cs[i].center, cs[j].center) <= maxDist
  }

  /** The index pairs `(i, j)` with `i < j < m` that pass the test, in loop
      order. */
  function RowPairs(near: (nat, nat) -> bool, i: nat, m: nat): seq<(nat, nat)> {
    if m <= i + 1 then []
    else RowPairs(near, i, m - 1) + (if near(i, m - 1) then [(i, m - 1)] else [])
  }

  /** The pairs met by the first `m` rounds of the outer loop over `n` centers. */
  function Pairs(near: (nat, nat) -> bool, n: nat, m: nat): seq<(nat, nat)> {
    if m == 0 then []
    else Pairs(near, n, m - 1) + RowPairs(near, m - 1, n)
  }

  /** Only the pairs `(i, j)` with `i < j < m` that pass the test are in row `i`. */
  lemma {:induction false} RowPairsSound(near: (nat, nat) -> bool, i: nat, m: nat, p: (nat, nat))
    requires p in RowPairs(near, i, m)
    ensures p.0 == i && i < p.1 < m && near(i, p.1)
  {
    if p in RowPairs(near, i, m - 1) {
      RowPairsSound(near, i, m - 1, p);
    }
  }

  /** Every such pair is in row `i`. */
  lemma {:induction false} RowPairsComplete(near: (nat, nat) -> bool, i: nat, m: nat, j: nat)
    requires i < j < m && near(i, j)
    ensures (i, j) in RowPairs(near, i, m)
  {
    if j < m - 1 {
      RowPairsComplete(near, i, m - 1, j);
    }
  }

  /** Only pairs `(i, j)` with `i < m`, `i < j < n` that pass the test are met. */
  lemma {:induction false} PairsSound(near: (nat, nat) -> bool, n: nat, m: nat, p: (nat, nat))
    requires p in Pairs(near, n, m)
    ensures p.0 < m && p.0 < p.1 < n && near(p.0, p.1)
  {
    if p in Pairs(near, n, m - 1) {
      PairsSound(near, n, m - 1, p);
    } else {
      RowPairsSound(near, m - 1, n, p);
    }
  }

  /** Every such pair is met. */
  lemma {:induction false} PairsComplete(near: (nat, nat) -> bool, n: nat, m: nat, i: nat, j: nat)
    requires i < m && i < j < n && near(i, j)
    ensures (i, j) in Pairs(near, n, m)
  {
    if i < m - 1 {
      PairsComplete(near, n, m - 1, i, j);
    } else {
      RowPairsComplete(near, i, n, j);
    }
  }

  predicate PairsIn(ps: seq<(nat, nat)>, n: nat) {
    forall k :: 0 <= k < |ps| ==> ps[k].0 < n && ps[k].1 < n
  }

  lemma RowPairsBounded(near: (nat, nat) -> bool, i: nat, m: nat, n: nat)
    requires i < n && m <= n
    ensures PairsIn(RowPairs(near, i, m), n)
  {
    var r := RowPairs(near, i, m);
    forall k | 0 <= k < |r| ensures r[k].0 < n && r[k].1 < n {
      RowPairsSound(near, i, m, r[k]);
    }
  }

  lemma PairsBounded(near: (nat, nat) -> bool, n: nat, m: nat)
    ensures PairsIn(Pairs(near, n, m), n)
  {
    var r := Pairs(near, n, m);
    forall k | 0 <= k < |r| ensures r[k].0 < n && r[k].1 < n {
      PairsSound(near, n, m, r[k]);
    }
  }

  /** The link dicts of a sequence of index pairs. */
  function LinksOf(cs: seq<Center>, ps: seq<(nat, nat)>): (r: seq<Link>)
    requires PairsIn(ps, |cs|)
    ensures |r| == |ps|
    ensures forall k :: 0 <= k < |ps| ==>
      r[k] == Link(cs[ps[k].0].id, cs[ps[k].1].id, DistSqrd(cs[ps[k].0].center, cs[ps[k].1].center))
  {
    seq(|ps|, k requires 0 <= k < |ps| =>
      Link(cs[ps[k].0].id, cs[ps[k].1].id, DistSqrd(cs[ps[k].0].center, cs[ps[k].1].center)))
  }

  lemma LinksOfAppend(cs: seq<Center>, a: seq<(nat, nat)>, b: seq<(nat, nat)>)
    requires PairsIn(a, |cs|) && PairsIn(b, |cs|)
    ensures PairsIn(a + b, |cs|)
    ensures LinksOf(cs, a + b) == LinksOf(cs, a) + LinksOf(cs, b)
  {
    assert forall k :: 0 <= k < |a + b| ==> (a + b)[k] == if k < |a| then a[k] else b[k - |a|];
  }

  /** The pairs of the whole loop over the centers. */
  function AllPairs(cs: seq<Center>, maxDist: real): seq<(nat, nat)> {
    Pairs(Near(cs, maxDist), |cs|, |cs|)
  }

  /** The network's links: one per entry of `AllPairs`, in the same order. */
  function Links(cs: seq<Center>, maxDist: real): seq<Link> {
    PairsBounded(Near(cs, maxDist), |cs|, |cs|);
    LinksOf(cs, AllPairs(cs, maxDist))
  }

  /** One row of the inner loop. */
  method RowLinks(cs: seq<Center>, maxDist: real, i: nat) returns (row: seq<Link>)
    requires i < |cs|
    ensures PairsIn(RowPairs(Near(cs, maxDist), i, |cs|), |cs|)
    ensures row == LinksOf(cs, RowPairs(Near(cs, maxDist), i, |cs|))
  {
    ghost var near := Near(cs, maxDist);
    row := [];
    RowPairsBounded(near, i, i + 1, |cs|);
    for j := i + 1 to |cs|
      invariant PairsIn(RowPairs(near, i, j), |cs|)
      invariant row == LinksOf(cs, RowPairs(near, i, j))
    {
      var dist := DistSqrd(cs[i].center, cs[j].center);
      ghost var done := RowPairs(near, i, j);
      RowPairsBounded(near, i, j + 1, |cs|);
      assert near(i, j) == (dist <= maxDist);
      assert RowPairs(near, i, j + 1) == done + (if dist <= maxDist then [(i, j)] else []);
      if dist > maxDist {
        assert done + [] == done;
        continue;
      }
      LinksOfAppend(cs, done, [(i, j)]);
      row := row + [Link(cs[i].id, cs[j].id, dist)];
    }
  }

  /** One more round of the outer loop appends the links of its row. */
  lemma LinksStep(cs: seq<Center>, near: (nat, nat) -> bool, i: nat)
    requires i < |cs|
    ensures PairsIn(Pairs(near, |cs|, i), |cs|) && PairsIn(RowPairs(near, i, |cs|), |cs|)
    ensures PairsIn(Pairs(near, |cs|, i + 1), |cs|)
    ensures LinksOf(cs, Pairs(near, |cs|, i + 1)) == LinksOf(cs, Pairs(near, |cs|, i)) + LinksOf(cs, RowPairs(near, i, |cs|))
  {
    PairsBounded(near, |cs|, i);
    RowPairsBounded(near, i, |cs|, |cs|);
    LinksOfAppend(cs, Pairs(near, |cs|, i), RowPairs(near, i, |cs|));
  }

  /** `generate_network`: one node per center in order, and the links of `Links`. */
  method GenerateNetwork(cs: seq<Center>, maxDist: real) returns (net: Network)
    ensures |net.nodes| == |cs| && forall k :: 0 <= k < |cs| ==> net.nodes[k] == cs[k].id
    ensures net.links == Links(cs, maxDist)
  {
    ghost var near := Near(cs, maxDist);
    var nodes: seq<string> := [];
    var links: seq<Link> := [];
    PairsBounded(near, |cs|, 0);
    for i := 0 to |cs|
      invariant |nodes| == i && forall k :: 0 <= k < i ==> nodes[k] == cs[k].id
      invariant PairsIn(Pairs(near, |cs|, i), |cs|)
      invariant links == LinksOf(cs, Pairs(near, |cs|, i))
    {
      nodes := nodes + [cs[i].id];
      var row := RowLinks(cs, maxDist, i);
      LinksStep(cs, near, i);
      links := links + row;
    }
    net := Network(nodes, links);
  }

  // ---------------------------------------------------------------------------
  // What the links satisfy

  /** Row `i` holds exactly the pairs `(i, j)`, `i < j < n`, whose centers are
      within the threshold. */
  lemma RowPairsExactly(cs: seq<Center>, maxDist: real, i: nat, p: (nat, nat))
    requires i < |cs|
    ensures p in RowPairs(Near(cs, maxDist), i, |cs|) <==>
      p.0 == i && i < p.1 < |cs| && DistSqrd(cs[i].center, cs[p.1].center) <= maxDist
  {
    var near := Near(cs, maxDist);
    if p in RowPairs(near, i, |cs|) {
      RowPairsSound(near, i, |cs|, p);
    }
    if p.0 == i && i < p.1 < |cs| && DistSqrd(cs[i].center, cs[p.1].center) <= maxDist {
      assert near(i, p.1);
      RowPairsComplete(near, i, |cs|, p.1);
    }
  }

  /** A pair `(i, j)` is linked exactly when `i < j` and the squared distance of
      their centers is at most the threshold. */
  lemma PairsExactly(cs: seq<Center>, maxDist: real, p: (nat, nat))
    ensures p in AllPairs(cs, maxDist) <==>
      p.0 < p.1 < |cs| && DistSqrd(cs[p.0].center, cs[p.1].center) <= maxDist
  {
    var near := Near(cs, maxDist);
    if p in AllPairs(cs, maxDist) {
      PairsSound(near, |cs|, |cs|, p);
    }
    if p.0 < p.1 < |cs| && DistSqrd(cs[p.0].center, cs[p.1].center) <= maxDist {
      assert near(p.0, p.1);
      PairsComplete(near, |cs|, |cs|, p.0, p.1);
    }
  }

  /** Loop order: by first index, then by second index. */
  predicate Before(p: (nat, nat), q: (nat, nat)) {
    p.0 < q.0 || (p.0 == q.0 && p.1 < q.1)
  }

  predicate Ordered(ps: seq<(nat, nat)>) {
    forall a, b :: 0 <= a < b < |ps| ==> Before(ps[a], ps[b])
  }

  lemma OrderedAppend(a: seq<(nat, nat)>, b: seq<(nat, nat)>)
    requires Ordered(a) && Ordered(b)
    requires |a| == 0 || |b| == 0 || Before(a[|a| - 1], b[0])
    ensures Ordered(a + b)
  {
    var r := a + b;
    forall i, j | 0 <= i < j < |r| ensures Before(r[i], r[j]) {
      if j < |a| {
        assert r[i] == a[i] && r[j] == a[j];
      } else if i < |a| {
        assert r[i] == a[i] && r[j] == b[j - |a|];
        assert i == |a| - 1 || Before(a[i], a[|a| - 1]);
        assert j - |a| == 0 || Before(b[0], b[j - |a|]);
      } else {
        assert r[i] == b[i - |a|] && r[j] == b[j - |a|];
      }
    }
  }

  lemma {:induction false} RowPairsOrdered(near: (nat, nat) -> bool, i: nat, m: nat)
    ensures Ordered(RowPairs(near, i, m))
  {
    if m > i + 1 {
      RowPairsOrdered(near, i, m - 1);
      var front := RowPairs(near, i, m - 1);
      var last: seq<(nat, nat)> := if near(i, m - 1) then [(i, m - 1)] else [];
      if |front| > 0 {
        RowPairsSound(near, i, m - 1, front[|front| - 1]);
      }
      OrderedAppend(front, last);
    }
  }

  /** The pairs are strictly increasing in loop order, so each unordered pair of
      centers is linked at most once, and always from the smaller index. */
  lemma {:induction false} PairsOrdered(near: (nat, nat) -> bool, n: nat, m: nat)
    ensures Ordered(Pairs(near, n, m))
  {
    if m > 0 {
      PairsOrdered(near, n, m - 1);
      RowPairsOrdered(near, m - 1, n);
      RowFollowsPairs(near, n, m - 1, Pairs(near, n, m - 1), RowPairs(near, m - 1, n));
      OrderedAppend(Pairs(near, n, m - 1), RowPairs(near, m - 1, n));
    }
  }

  /** Row `i` starts after every pair of the rows before it. */
  lemma RowFollowsPairs(near: (nat, nat) -> bool, n: nat, i: nat, front: seq<(nat, nat)>, row: seq<(nat, nat)>)
    requires front == Pairs(near, n, i) && row == RowPairs(near, i, n)
    ensures |front| == 0 || |row| == 0 || Before(front[|front| - 1], row[0])
  {
    if |front| > 0 && |row| > 0 {
      PairsSound(near, n, i, front[|front| - 1]);
      RowPairsSound(near, i, n, row[0]);
    }
  }

  lemma {:induction false} RowPairsCount(near: (nat, nat) -> bool, i: nat, m: nat)
    ensures |RowPairs(near, i, m)| <= if m <= i + 1 then 0 else m - i - 1
  {
    if m > i + 1 {
      RowPairsCount(near, i, m - 1);
    }
  }

  lemma CountIdentity(m: int, n: int)
    ensures (m - 1) * (2 * n - (m - 1) - 1) + 2 * (n - m) == m * (2 * n - m - 1)
  {
  }

  /** After `m` rounds of the outer loop over `n` centers there are at most
      `m * (2n - m - 1) / 2` links; after all `n` rounds, at most `n * (n - 1) / 2`. */
  lemma {:induction false} PairsCount(near: (nat, nat) -> bool, n: nat, m: nat)
    requires m <= n
    ensures 2 * |Pairs(near, n, m)| <= m * (2 * n - m - 1)
  {
    if m > 0 {
      PairsCount(near, n, m - 1);
      RowPairsCount(near, m - 1, n);
      CountIdentity(m, n);
    }
  }

  /** Every link of the network joins two different centers `i < j` whose squared
      distance is at most the threshold and is stored as `dist_sqrd`. */
  lemma LinkSound(cs: seq<Center>, maxDist: real, k: nat)
    requires k < |Links(cs, maxDist)|
    ensures var p := AllPairs(cs, maxDist)[k];
      p.0 < p.1 < |cs| && Links(cs, maxDist)[k] == Link(cs[p.0].id, cs[p.1].id, DistSqrd(cs[p.0].center, cs[p.1].center)) &&
      0.0 <= Links(cs, maxDist)[k].distSqrd <= maxDist
  {
    var ps := AllPairs(cs, maxDist);
    PairsBounded(Near(cs, maxDist), |cs|, |cs|);
    PairsSound(Near(cs, maxDist), |cs|, |cs|, ps[k]);
    DistSqrdFacts(cs[ps[k].0].center, cs[ps[k].1].center);
  }

  /** Every link, and there are at most `n * (n - 1) / 2` of them; conversely,
      every pair of centers within the threshold is linked. */
  lemma NetworkFacts(cs: seq<Center>, maxDist: real)
    ensures 2 * |Links(cs, maxDist)| <= |cs| * (|cs| - 1)
    ensures forall k :: 0 <= k < |Links(cs, maxDist)| ==>
      var p := AllPairs(cs, maxDist)[k];
      p.0 < p.1 < |cs| && Links(cs, maxDist)[k] == Link(cs[p.0].id, cs[p.1].id, DistSqrd(cs[p.0].center, cs[p.1].center)) &&
      0.0 <= Links(cs, maxDist)[k].distSqrd <= maxDist
    ensures forall i, j :: 0 <= i < j < |cs| && DistSqrd(cs[i].center, cs[j].center) <= maxDist ==>
      (i, j) in AllPairs(cs, maxDist)
  {
    PairsCount(Near(cs, maxDist), |cs|, |cs|);
    forall k | 0 <= k < |Links(cs, maxDist)|
      ensures var p := AllPairs(cs, maxDist)[k];
        p.0 < p.1 < |cs| && Links(cs, maxDist)[k] == Link(cs[p.0].id, cs[p.1].id, DistSqrd(cs[p.0].center, cs[p.1].center)) &&
        0.0 <= Links(cs, maxDist)[k].distSqrd <= maxDist
    {
      LinkSound(cs, maxDist, k);
    }
    forall i, j | 0 <= i < j < |cs| && DistSqrd(cs[i].center, cs[j].center) <= maxDist
      ensures (i, j) in AllPairs(cs, maxDist)
    {
      PairsExactly(cs, maxDist, (i, j));
    }
  }
}
