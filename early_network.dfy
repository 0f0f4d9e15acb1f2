/** The earlier network builder: every qualifying pair is assigned a cluster as it is
    met. A pair whose source already has a cluster pulls its target into it; else a
    pair whose target has one pulls its source in; else the pair opens a fresh
    cluster. Clusters are never merged and lines without a pair get no entry. */
module EarlyNetwork {
  import opened LineReader
  import opened Proximity
  import opened Sequences

  /** `cluster_amount`, `clusters` and `node_to_cluster`. */
  datatype State = State(amount: nat, clusters: map<int, seq<Connection>>, nodeToCluster: map<string, int>)

  /** The clusters are numbered `0 .. amount - 1` and every line's cluster is one of
      them. */
  predicate Valid(s: State) {
    (forall k :: k in s.clusters ==> 0 <= k < s.amount) &&
    (forall k :: 0 <= k < s.amount ==> k in s.clusters) &&
    (forall x :: x in s.nodeToCluster ==> 0 <= s.nodeToCluster[x] < s.amount)
  }

  /** The state before the first pair. */
  const Initial := State(0, map[], map[])

  /** The edges stored under cluster `k`; no cluster has none. */
  function Edges(s: State, k: int): seq<Connection> {
    if k in s.clusters then s.clusters[k] else []
  }

  /** The assignment of one qualifying pair. Every cluster a line maps to exists in
      a valid state, so `Edges` reads what `clusters[cluster]` reads. */
  function AssignPair(s: State, c: Connection): State {
    if c.source in s.nodeToCluster then
      var k := s.nodeToCluster[c.source];
      State(s.amount, s.clusters[k := Edges(s, k) + [c]], s.nodeToCluster[c.target := k])
    else if c.target in s.nodeToCluster then
      var k := s.nodeToCluster[c.target];
      State(s.amount, s.clusters[k := Edges(s, k) + [c]], s.nodeToCluster[c.source := k])
    else
      var k := s.amount;
      State(s.amount + 1, s.clusters[k := [c]], s.nodeToCluster[c.source := k][c.target := k])
  }

  /** The state after the given pairs, in order. */
  function Run(s: State, pairs: seq<Connection>): State {
    if |pairs| == 0 then s
    else AssignPair(Run(s, pairs[..|pairs| - 1]), pairs[|pairs| - 1])
  }

  /** A pair keeps the clusters numbered `0 .. amount - 1` and every line's cluster
      among them. */
  lemma AssignPairValid(s: State, c: Connection)
    requires Valid(s)
    ensures Valid(AssignPair(s, c))
  {
  }

  lemma {:induction false} RunValid(s: State, pairs: seq<Connection>)
    requires Valid(s)
    ensures Valid(Run(s, pairs))
  {
    if |pairs| > 0 {
      RunValid(s, pairs[..|pairs| - 1]);
      AssignPairValid(Run(s, pairs[..|pairs| - 1]), pairs[|pairs| - 1]);
    }
  }

  lemma RunStep(s: State, pairs: seq<Connection>, k: nat)
    requires k < |pairs|
    ensures Run(s, pairs[..k + 1]) == AssignPair(Run(s, pairs[..k]), pairs[k])
  {
    assert pairs[..k + 1][..k] == pairs[..k];
  }

  /** Running two lists of pairs one after the other is running their concatenation. */
  lemma {:induction false} RunAppend(s: State, a: seq<Connection>, b: seq<Connection>)
    ensures Run(s, a + b) == Run(Run(s, a), b)
  {
    if |b| == 0 {
      assert a + b == a;
    } else {
      AppendDropLast(a, b);
      RunAppend(s, a, b[..|b| - 1]);
    }
  }

  /** After a pair, both its lines belong to the cluster that received it, and that
      cluster ends with the pair. */
  lemma AssignPairJoins(s: State, c: Connection)
    requires Valid(s)
    ensures var r := AssignPair(s, c);
      c.source in r.nodeToCluster && c.target in r.nodeToCluster &&
      r.nodeToCluster[c.source] == r.nodeToCluster[c.target] &&
      var k := r.nodeToCluster[c.source];
      k in r.clusters && |r.clusters[k]| > 0 && r.clusters[k][|r.clusters[k]| - 1] == c
  {
  }

  /** A pair opens a fresh cluster exactly when neither of its lines has one; the
      counter then grows by one and is unchanged otherwise. */
  lemma AssignPairCounter(s: State, c: Connection)
    requires Valid(s)
    ensures var r := AssignPair(s, c);
      (r.amount == s.amount + 1 <==> c.source !in s.nodeToCluster && c.target !in s.nodeToCluster) &&
      (r.amount == s.amount || r.amount == s.amount + 1)
  {
  }

  /** A pair changes the cluster of at most one line that had one: the target, when
      the source already had a cluster. Every other line keeps its cluster, and the
      edges already stored stay where they are. */
  lemma AssignPairKeeps(s: State, c: Connection)
    requires Valid(s)
    ensures var r := AssignPair(s, c);
      (forall x :: x in s.nodeToCluster && x != c.target ==> x in r.nodeToCluster && r.nodeToCluster[x] == s.nodeToCluster[x]) &&
      (c.source !in s.nodeToCluster ==> forall x :: x in s.nodeToCluster ==> r.nodeToCluster[x] == s.nodeToCluster[x]) &&
      (forall k :: k in s.clusters ==> r.clusters[k][..|s.clusters[k]|] == s.clusters[k])
  {
  }

  /** A pair adds itself and nothing else to the stored edges, and removes none. */
  lemma AssignPairStores(s: State, c: Connection)
    requires Valid(s)
    ensures var r := AssignPair(s, c);
      (forall k, e :: k in r.clusters && e in r.clusters[k] ==> e == c || (k in s.clusters && e in s.clusters[k])) &&
      (forall k, e :: k in s.clusters && e in s.clusters[k] ==> k in r.clusters && e in r.clusters[k]) &&
      (exists k :: k in r.clusters && c in r.clusters[k])
  {
    var r := AssignPair(s, c);
    AssignPairJoins(s, c);
    var j := r.nodeToCluster[c.source];
    assert c in r.clusters[j];
  }

  /** From the initial state, the lines with a cluster are exactly the ends of the
      pairs run. */
  lemma {:induction false} RunKeys(pairs: seq<Connection>)
    ensures Run(Initial, pairs).nodeToCluster.Keys == Ends(pairs)
  {
    if |pairs| > 0 {
      RunKeys(pairs[..|pairs| - 1]);
    }
  }

  /** Every edge stored in `r` is one of `pairs`. */
  ghost predicate StoredAmong(r: State, pairs: seq<Connection>) {
    forall k, e :: k in r.clusters && e in r.clusters[k] ==> e in pairs
  }

  /** Every one of `pairs` is stored in some cluster of `r`. */
  ghost predicate AllStored(r: State, pairs: seq<Connection>) {
    forall c :: c in pairs ==> exists k :: k in r.clusters && c in r.clusters[k]
  }

  /** From the initial state, every stored edge is one of the pairs run. */
  lemma {:induction false} RunStoresPairs(pairs: seq<Connection>)
    ensures StoredAmong(Run(Initial, pairs), pairs)
  {
    if |pairs| > 0 {
      var n := |pairs| - 1;
      var prev := Run(Initial, pairs[..n]);
      var r := Run(Initial, pairs);
      RunStoresPairs(pairs[..n]);
      RunValid(Initial, pairs[..n]);
      AssignPairStores(prev, pairs[n]);
      assert r == AssignPair(prev, pairs[n]);
      forall k, e | k in r.clusters && e in r.clusters[k] ensures e in pairs {
        if e != pairs[n] {
          assert k in prev.clusters && e in prev.clusters[k];
          assert e in pairs[..n];
        }
      }
    }
  }

  /** From the initial state, every pair run is stored in some cluster. */
  lemma {:induction false} RunStoresAll(pairs: seq<Connection>)
    ensures AllStored(Run(Initial, pairs), pairs)
  {
    if |pairs| > 0 {
      var n := |pairs| - 1;
      var prev := Run(Initial, pairs[..n]);
      var r := Run(Initial, pairs);
      RunStoresAll(pairs[..n]);
      RunValid(Initial, pairs[..n]);
      AssignPairStores(prev, pairs[n]);
      assert r == AssignPair(prev, pairs[n]);
      forall c | c in pairs ensures exists k :: k in r.clusters && c in r.clusters[k] {
        if c != pairs[n] {
          assert pairs == pairs[..n] + [pairs[n]];
          assert c in pairs[..n];
          var k :| k in prev.clusters && c in prev.clusters[k];
          assert k in r.clusters && c in r.clusters[k];
        }
      }
    }
  }

  lemma RunSingle(s: State, c: Connection)
    ensures Run(s, [c]) == AssignPair(s, c)
  {
    assert [c][..0] == [];
  }

  /** The body of the inner loop for one qualifying pair. */
  method AssignOne(amount: nat, clusters: map<int, seq<Connection>>, nodeToCluster: map<string, int>, edge: Connection)
    returns (amount': nat, clusters': map<int, seq<Connection>>, nodeToCluster': map<string, int>)
    requires Valid(State(amount, clusters, nodeToCluster))
    ensures State(amount', clusters', nodeToCluster') == AssignPair(State(amount, clusters, nodeToCluster), edge)
  {
    amount', clusters', nodeToCluster' := amount, clusters, nodeToCluster;
    var cluster := -1;
    if edge.source in nodeToCluster' {
      cluster := nodeToCluster'[edge.source];
      nodeToCluster' := nodeToCluster'[edge.target := cluster];
    } else if edge.target in nodeToCluster' {
      cluster := nodeToCluster'[edge.target];
      nodeToCluster' := nodeToCluster'[edge.source := cluster];
    } else {
      cluster := amount';
      nodeToCluster' := nodeToCluster'[edge.source := cluster];
      nodeToCluster' := nodeToCluster'[edge.target := cluster];
      clusters' := clusters'[cluster := []];
      amount' := amount' + 1;
      assert clusters'[cluster] + [edge] == [edge];
    }
    clusters' := clusters'[cluster := clusters'[cluster] + [edge]];
  }

  /** The inner loop for one line: each close line whose ratio reaches the required
      ratio forms a pair, and the pair is assigned at once. */
  method AssignQualifying(amount: nat, clusters: map<int, seq<Connection>>, nodeToCluster: map<string, int>,
                          line: Line, close: seq<Line>, ratios: seq<real>, required: real)
    returns (amount': nat, clusters': map<int, seq<Connection>>, nodeToCluster': map<string, int>)
    requires |close| == |ratios| && Valid(State(amount, clusters, nodeToCluster))
    ensures State(amount', clusters', nodeToCluster') ==
      Run(State(amount, clusters, nodeToCluster), Qualifying(line, close, ratios, required))
  {
    ghost var start := State(amount, clusters, nodeToCluster);
    amount', clusters', nodeToCluster' := amount, clusters, nodeToCluster;
    for i := 0 to |ratios|
      invariant State(amount', clusters', nodeToCluster') == Run(start, Qualifying(line, close[..i], ratios[..i], required))
    {
      ghost var done := Qualifying(line, close[..i], ratios[..i], required);
      QualifyingStep(line, close, ratios, required, i);
      if ratios[i] < required {
        assert done + [] == done;
        continue;
      }
      var edge := Connection(line.id, close[i].id, ratios[i]);
      RunValid(start, done);
      RunAppend(start, done, [edge]);
      RunSingle(Run(start, done), edge);
      amount', clusters', nodeToCluster' := AssignOne(amount', clusters', nodeToCluster', edge);
    }
    assert close[..|close|] == close && ratios[..|ratios|] == ratios;
  }

  /** `nodes`: one entry per line, in order. */
  method NodeIds(lines: seq<Line>) returns (nodes: seq<string>)
    ensures nodes == Ids(lines)
  {
    nodes := [];
    for k := 0 to |lines|
      invariant nodes == Ids(lines)[..k]
    {
      nodes := nodes + [lines[k].id];
    }
  }

  /** `generate_network` of the earlier version. */
  method GenerateNetwork(lines: seq<Line>, sample: string -> seq<CoordGeo>, maxDist: int, required: real, dist: Dist)
    returns (net: Network)
    requires Prepared(lines, sample, maxDist, dist)
    ensures var r := Run(Initial, Concat(PairsByLine(lines, sample, maxDist, required, dist)));
      net == Network(Ids(lines), r.clusters, r.nodeToCluster)
  {
    ghost var ss := PairsByLine(lines, sample, maxDist, required, dist);
    var amount: nat, clusters: map<int, seq<Connection>>, nodeToCluster: map<string, int> := 0, map[], map[];
    for n := 0 to |lines|
      invariant State(amount, clusters, nodeToCluster) == Run(Initial, Concat(ss[..n]))
    {
      var close, ratios := LineRatiosOf(lines[n], lines, sample, maxDist, dist);
      ConcatStep(ss, n);
      RunAppend(Initial, Concat(ss[..n]), ss[n]);
      RunValid(Initial, Concat(ss[..n]));
      amount, clusters, nodeToCluster := AssignQualifying(amount, clusters, nodeToCluster, lines[n], close, ratios, required);
    }
    assert ss[..|lines|] == ss;
    var nodes := NodeIds(lines);
    net := Network(nodes, clusters, nodeToCluster);
  }

  /** What the earlier builder promises: the clusters are numbered `0 .. amount - 1`,
      the lines with a cluster are exactly the ends of the qualifying pairs and have
      a cluster in that range, every qualifying pair is stored, and every stored edge leads from an input line to another one with
      a ratio at least the required ratio. */
  lemma NetworkFacts(lines: seq<Line>, sample: string -> seq<CoordGeo>, maxDist: int, required: real, dist: Dist)
    requires Prepared(lines, sample, maxDist, dist)
    ensures var pairs := Concat(PairsByLine(lines, sample, maxDist, required, dist));
      var r := Run(Initial, pairs);
      (forall k :: k in r.clusters <==> 0 <= k < r.amount) &&
      (forall x :: x in r.nodeToCluster ==> 0 <= r.nodeToCluster[x] < r.amount) &&
      r.nodeToCluster.Keys == Ends(pairs) && AllStored(r, pairs) &&
      (forall k, e :: (k in r.clusters && e in r.clusters[k] ==>
        (exists l :: l in lines && l.id == e.source) && (exists l :: l in lines && l.id == e.target) &&
        e.source != e.target && required <= e.weight <= 1.0))
  {
    var pairs := Concat(PairsByLine(lines, sample, maxDist, required, dist));
    RunValid(Initial, pairs);
    RunKeys(pairs);
    RunStoresPairs(pairs);
    RunStoresAll(pairs);
    PairsFacts(lines, sample, maxDist, required, dist);
  }
}
