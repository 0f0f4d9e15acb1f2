/** The current network builder: the set of qualifying connections, the connected
    components numbered by their smallest line id in descending order, the
    per-cluster reservation of one line per ensemble member, and the `-1` default
    for every other line. The graph library is not modelled: the edge list of the
    graph and its components are inputs that satisfy the predicates below. */
module ClusterNetwork {
  import opened Text
  import opened LineIds
  import opened LineReader
  import opened Proximity
  import opened Sequences

  // ---------------------------------------------------------------- components

  /** `min(x)` of a component: its smallest line id in string order. */
  function MinId(c: seq<string>): string
    requires |c| > 0
  {
    if |c| == 1 then c[0]
    else
      var rest := MinId(c[1..]);
      if Below(c[0], rest) then c[0] else rest
  }

  /** The smallest id is a member and no member lies below it. */
  lemma {:induction false} MinIdIsMinimum(c: seq<string>)
    requires |c| > 0
    ensures MinId(c) in c
    ensures forall k :: 0 <= k < |c| ==> !Below(c[k], MinId(c))
  {
    if |c| > 1 {
      var rest := MinId(c[1..]);
      MinIdIsMinimum(c[1..]);
      forall k | 0 <= k < |c| ensures !Below(c[k], MinId(c)) {
        if k == 0 {
          BelowIrreflexive(c[0]);
        } else {
          assert c[k] == c[1..][k - 1];
          if Below(c[0], rest) && Below(c[k], c[0]) {
            BelowTransitive(c[k], c[0], rest);
          }
        }
      }
    } else {
      BelowIrreflexive(c[0]);
    }
  }

  /** Every id of every component is a well-formed line id. */
  predicate IdsWellFormed(comps: seq<seq<string>>) {
    forall i, x :: 0 <= i < |comps| && x in comps[i] ==> WellFormed(x)
  }

  /** The components as the graph library yields them: non-empty, of well-formed ids,
      and pairwise disjoint. */
  predicate Partition(comps: seq<seq<string>>) {
    (forall i :: 0 <= i < |comps| ==> |comps[i]| > 0) &&
    IdsWellFormed(comps) &&
    (forall i, j, x :: 0 <= i < |comps| && 0 <= j < |comps| && i != j && x in comps[i] ==> x !in comps[j])
  }

  /** Distinct components have distinct smallest ids. */
  lemma MinIdsDistinct(comps: seq<seq<string>>, i: nat, j: nat)
    requires Partition(comps) && i < |comps| && j < |comps| && i != j
    ensures MinId(comps[i]) != MinId(comps[j])
  {
    MinIdIsMinimum(comps[i]);
    MinIdIsMinimum(comps[j]);
  }

  /** An ordering of component indices: each index below `n` once. */
  predicate IsOrder(order: seq<nat>, n: nat) {
    |order| == n &&
    (forall i :: 0 <= i < |order| ==> order[i] < n) &&
    (forall m: nat :: m < n ==> m in order) &&
    (forall i, j :: 0 <= i < j < |order| ==> order[i] != order[j])
  }

  /** The indices are in descending order of the components' smallest ids. */
  predicate Descending(order: seq<nat>, comps: seq<seq<string>>)
    requires forall i :: 0 <= i < |order| ==> order[i] < |comps| && |comps[order[i]]| > 0
  {
    forall i, j :: 0 <= i < j < |order| ==> Below(MinId(comps[order[j]]), MinId(comps[order[i]]))
  }

  /** Inserts index `k` in front of the first index whose component has a smaller
      smallest id. */
  function InsertByMin(k: nat, order: seq<nat>, comps: seq<seq<string>>): (r: seq<nat>)
    requires Partition(comps) && k < |comps|
    requires forall i :: 0 <= i < |order| ==> order[i] < |comps|
    ensures |r| == |order| + 1
    ensures forall x: nat :: x in r <==> x == k || x in order
    ensures forall i :: 0 <= i < |r| ==> r[i] < |comps|
  {
    if |order| == 0 then [k]
    else if Below(MinId(comps[order[0]]), MinId(comps[k])) then [k] + order
    else [order[0]] + InsertByMin(k, order[1..], comps)
  }

  /** An index whose component's smallest id lies above all of a descending
      ordering can go in front of it. */
  lemma DescendingCons(x: nat, order: seq<nat>, comps: seq<seq<string>>)
    requires Partition(comps) && x < |comps|
    requires forall i :: 0 <= i < |order| ==> order[i] < |comps|
    requires Descending(order, comps)
    requires forall j :: 0 <= j < |order| ==> Below(MinId(comps[order[j]]), MinId(comps[x]))
    ensures Descending([x] + order, comps)
  {
    var r := [x] + order;
    forall i, j | 0 <= i < j < |r| ensures Below(MinId(comps[r[j]]), MinId(comps[r[i]])) {
      assert r[j] == order[j - 1];
      if i > 0 {
        assert r[i] == order[i - 1];
      }
    }
  }

  /** A descending ordering stays descending without its head. */
  lemma DescendingTail(order: seq<nat>, comps: seq<seq<string>>)
    requires Partition(comps) && |order| > 0
    requires forall i :: 0 <= i < |order| ==> order[i] < |comps|
    requires Descending(order, comps)
    ensures Descending(order[1..], comps)
  {
    var rest := order[1..];
    forall i, j | 0 <= i < j < |rest| ensures Below(MinId(comps[rest[j]]), MinId(comps[rest[i]])) {
      assert rest[i] == order[i + 1] && rest[j] == order[j + 1];
    }
  }

  lemma {:induction false} InsertByMinDescending(k: nat, order: seq<nat>, comps: seq<seq<string>>)
    requires Partition(comps) && k < |comps| && k !in order
    requires forall i :: 0 <= i < |order| ==> order[i] < |comps|
    requires Descending(order, comps)
    ensures Descending(InsertByMin(k, order, comps), comps)
  {
    if |order| > 0 {
      var m := MinId(comps[k]);
      var m0 := MinId(comps[order[0]]);
      if Below(m0, m) {
        forall j | 0 <= j < |order| ensures Below(MinId(comps[order[j]]), m) {
          if j > 0 {
            BelowTransitive(MinId(comps[order[j]]), m0, m);
          }
        }
        DescendingCons(k, order, comps);
      } else {
        MinIdsDistinct(comps, k, order[0]);
        BelowTotal(m, m0);
        var rest := order[1..];
        DescendingTail(order, comps);
        InsertByMinDescending(k, rest, comps);
        var tail := InsertByMin(k, rest, comps);
        forall j | 0 <= j < |tail| ensures Below(MinId(comps[tail[j]]), m0) {
          var x := tail[j];
          assert x in tail;
          if x != k {
            var jj :| 0 <= jj < |rest| && rest[jj] == x;
            assert order[jj + 1] == x;
          }
        }
        DescendingCons(order[0], tail, comps);
      }
    }
  }

  /** `sorted(components, key=min, reverse=True)`, as an ordering of the component
      indices. */
  function SortedOrder(comps: seq<seq<string>>, n: nat): (order: seq<nat>)
    requires Partition(comps) && n <= |comps|
    ensures |order| == n
    ensures forall x: nat :: x in order <==> x < n
    ensures forall i :: 0 <= i < n ==> order[i] < n
  {
    if n == 0 then []
    else
      var r := InsertByMin(n - 1, SortedOrder(comps, n - 1), comps);
      assert forall i :: 0 <= i < n ==> r[i] in r;
      r
  }

  /** The ordering lists every component once, by descending smallest id. */
  lemma {:induction false} SortedOrderSorted(comps: seq<seq<string>>, n: nat)
    requires Partition(comps) && n <= |comps|
    ensures IsOrder(SortedOrder(comps, n), n)
    ensures Descending(SortedOrder(comps, n), comps)
  {
    if n > 0 {
      SortedOrderSorted(comps, n - 1);
      InsertByMinDescending(n - 1, SortedOrder(comps, n - 1), comps);
      DescendingDistinct(SortedOrder(comps, n), comps);
    }
  }

  /** A descending ordering lists no index twice. */
  lemma DescendingDistinct(order: seq<nat>, comps: seq<seq<string>>)
    requires Partition(comps)
    requires forall i :: 0 <= i < |order| ==> order[i] < |comps|
    requires Descending(order, comps)
    ensures forall i, j :: 0 <= i < j < |order| ==> order[i] != order[j]
  {
    forall i, j | 0 <= i < j < |order| ensures order[i] != order[j] {
      if order[i] == order[j] {
        BelowIrreflexive(MinId(comps[order[i]]));
      }
    }
  }

  // ---------------------------------------------------------------- reservation

  /** The state of the reservation loop of one cluster: the retained edges and
      `added_ens_members`, from ensemble prefix to the reserved line number. */
  datatype Pass = Pass(kept: seq<Connection>, reserved: map<string, string>)

  /** Both ends of every edge are well-formed line ids, so `split("|")` yields two
      parts. */
  predicate EdgeIdsWellFormed(edges: seq<Connection>) {
    forall e :: e in edges ==> WellFormed(e.source) && WellFormed(e.target)
  }

  /** An end of an edge does not clash with the reservations: its ensemble member is
      unreserved or reserved for this very line. */
  predicate Free(reserved: map<string, string>, id: string)
    requires WellFormed(id)
  {
    Prefix(id) !in reserved || reserved[Prefix(id)] == Local(id)
  }

  /** The line `id` holds its ensemble member's reservation. */
  predicate Holds(reserved: map<string, string>, id: string)
    requires WellFormed(id)
  {
    Prefix(id) in reserved && reserved[Prefix(id)] == Local(id)
  }

  /** The two dict writes of a retained edge, source first. */
  function Reserve(reserved: map<string, string>, e: Connection): map<string, string>
    requires WellFormed(e.source) && WellFormed(e.target)
  {
    reserved[Prefix(e.source) := Local(e.source)][Prefix(e.target) := Local(e.target)]
  }

  /** The two ends are different lines of the same ensemble member. */
  predicate SelfClash(e: Connection)
    requires WellFormed(e.source) && WellFormed(e.target)
  {
    Prefix(e.source) == Prefix(e.target) && Local(e.source) != Local(e.target)
  }

  /** One edge of the loop as the code has it: retained when both ends are free. */
  function StepAsWritten(p: Pass, e: Connection): Pass
    requires WellFormed(e.source) && WellFormed(e.target)
  {
    if Free(p.reserved, e.source) && Free(p.reserved, e.target) then Pass(p.kept + [e], Reserve(p.reserved, e))
    else p
  }

  /** One edge, corrected: an edge joining two lines of one ensemble member is not
      retained either, since it would reserve that member for both lines. */
  function Step(p: Pass, e: Connection): Pass
    requires WellFormed(e.source) && WellFormed(e.target)
  {
    if Free(p.reserved, e.source) && Free(p.reserved, e.target) && !SelfClash(e) then
      Pass(p.kept + [e], Reserve(p.reserved, e))
    else p
  }

  /** Which retain test the reservation loop uses: the code's, or the corrected one
      that also turns away an edge joining two lines of one ensemble member. */
  datatype Rule = AsWritten | Corrected

  /** The reservation loop over a cluster's edges, as written. */
  function ReservePassAsWritten(edges: seq<Connection>): Pass
    requires EdgeIdsWellFormed(edges)
  {
    if |edges| == 0 then Pass([], map[])
    else
      var n := |edges| - 1;
      assert EdgeIdsWellFormed(edges[..n]) by {
        assert forall e :: e in edges[..n] ==> e in edges;
      }
      StepAsWritten(ReservePassAsWritten(edges[..n]), edges[n])
  }

  /** The reservation loop over a cluster's edges, corrected. */
  function ReservePass(edges: seq<Connection>): Pass
    requires EdgeIdsWellFormed(edges)
  {
    if |edges| == 0 then Pass([], map[])
    else
      var n := |edges| - 1;
      assert EdgeIdsWellFormed(edges[..n]) by {
        assert forall e :: e in edges[..n] ==> e in edges;
      }
      Step(ReservePass(edges[..n]), edges[n])
  }

  /** The reservation loop under the given rule. */
  function RulePass(rule: Rule, edges: seq<Connection>): Pass
    requires EdgeIdsWellFormed(edges)
  {
    if rule.Corrected? then ReservePass(edges) else ReservePassAsWritten(edges)
  }

  lemma ReservePassAsWrittenStep(edges: seq<Connection>, k: nat)
    requires EdgeIdsWellFormed(edges) && k < |edges|
    ensures EdgeIdsWellFormed(edges[..k]) && EdgeIdsWellFormed(edges[..k + 1])
    ensures ReservePassAsWritten(edges[..k + 1]) == StepAsWritten(ReservePassAsWritten(edges[..k]), edges[k])
  {
    assert edges[..k + 1][..k] == edges[..k];
  }

  lemma ReservePassStep(edges: seq<Connection>, k: nat)
    requires EdgeIdsWellFormed(edges) && k < |edges|
    ensures EdgeIdsWellFormed(edges[..k]) && EdgeIdsWellFormed(edges[..k + 1])
    ensures ReservePass(edges[..k + 1]) == Step(ReservePass(edges[..k]), edges[k])
  {
    assert edges[..k + 1][..k] == edges[..k];
  }

  /** A retained edge never changes a reservation already made. */
  lemma StepKeepsReservations(p: Pass, e: Connection, x: string)
    requires WellFormed(e.source) && WellFormed(e.target) && WellFormed(x)
    requires Holds(p.reserved, x)
    ensures Holds(Step(p, e).reserved, x)
  {
  }

  /** The reservation map records retained edges only: retained edges are input
      edges, and a line holds a reservation only as an end of a retained edge. */
  ghost predicate Recorded(p: Pass, edges: seq<Connection>) {
    (forall f :: f in p.kept ==> f in edges) &&
    (forall x :: WellFormed(x) && Holds(p.reserved, x) ==> x in Ends(p.kept))
  }

  /** `Recorded`, and both ends of every retained edge hold their members'
      reservations. */
  ghost predicate Consistent(p: Pass, edges: seq<Connection>) {
    Recorded(p, edges) &&
    (forall f :: f in p.kept ==> (WellFormed(f.source) && WellFormed(f.target) &&
      Holds(p.reserved, f.source) && Holds(p.reserved, f.target)))
  }

  /** One corrected step keeps the reservation map consistent. */
  lemma StepConsistent(p: Pass, e: Connection, edges: seq<Connection>)
    requires WellFormed(e.source) && WellFormed(e.target) && e in edges
    requires Consistent(p, edges)
    ensures Consistent(Step(p, e), edges)
  {
    var q := Step(p, e);
    if q != p {
      assert q.kept == p.kept + [e];
      forall f | f in q.kept
        ensures WellFormed(f.source) && WellFormed(f.target) && Holds(q.reserved, f.source) && Holds(q.reserved, f.target)
      {
        if f in p.kept {
          StepKeepsReservations(p, e, f.source);
          StepKeepsReservations(p, e, f.target);
        }
      }
      assert Ends(q.kept) == Ends(p.kept) + {e.source, e.target} by {
        assert q.kept[..|q.kept| - 1] == p.kept;
      }
      forall x | WellFormed(x) && Holds(q.reserved, x) ensures x in Ends(q.kept) {
        if Prefix(x) == Prefix(e.target) {
          PartsDetermineId(x, e.target);
        } else if Prefix(x) == Prefix(e.source) {
          PartsDetermineId(x, e.source);
        }
      }
    }
  }

  /** The corrected loop leaves a consistent reservation map: in particular both
      ends of every retained edge hold their members' reservations. */
  lemma {:induction false} ReservePassFacts(edges: seq<Connection>)
    requires EdgeIdsWellFormed(edges)
    ensures Consistent(ReservePass(edges), edges)
  {
    if |edges| > 0 {
      var n := |edges| - 1;
      ReservePassStep(edges, n);
      assert edges[..n + 1] == edges;
      ReservePassFacts(edges[..n]);
      var prev := ReservePass(edges[..n]);
      assert Consistent(prev, edges) by {
        forall f | f in prev.kept ensures f in edges {
          assert f in edges[..n];
        }
      }
      StepConsistent(prev, edges[n], edges);
    }
  }

  /** One step as written keeps the reservation map a record of retained edges. */
  lemma StepAsWrittenRecorded(p: Pass, e: Connection, edges: seq<Connection>)
    requires WellFormed(e.source) && WellFormed(e.target) && e in edges
    requires Recorded(p, edges)
    ensures Recorded(StepAsWritten(p, e), edges)
  {
    var q := StepAsWritten(p, e);
    if q != p {
      assert q.kept == p.kept + [e];
      assert Ends(q.kept) == Ends(p.kept) + {e.source, e.target} by {
        assert q.kept[..|q.kept| - 1] == p.kept;
      }
      forall x | WellFormed(x) && Holds(q.reserved, x) ensures x in Ends(q.kept) {
        if Prefix(x) == Prefix(e.target) {
          PartsDetermineId(x, e.target);
        } else if Prefix(x) == Prefix(e.source) {
          PartsDetermineId(x, e.source);
        }
      }
    }
  }

  /** Even as written, the loop retains input edges only, and a line holds a
      reservation only as an end of a retained edge. */
  lemma {:induction false} ReservePassAsWrittenRecorded(edges: seq<Connection>)
    requires EdgeIdsWellFormed(edges)
    ensures Recorded(ReservePassAsWritten(edges), edges)
  {
    if |edges| > 0 {
      var n := |edges| - 1;
      ReservePassAsWrittenStep(edges, n);
      assert edges[..n + 1] == edges;
      ReservePassAsWrittenRecorded(edges[..n]);
      var prev := ReservePassAsWritten(edges[..n]);
      assert Recorded(prev, edges) by {
        forall f | f in prev.kept ensures f in edges {
          assert f in edges[..n];
        }
      }
      StepAsWrittenRecorded(prev, edges[n], edges);
    }
  }

  /** Under either rule the pass is `Recorded`; under the corrected one it is
      `Consistent`. */
  lemma RulePassFacts(rule: Rule, edges: seq<Connection>)
    requires EdgeIdsWellFormed(edges)
    ensures Recorded(RulePass(rule, edges), edges)
    ensures rule.Corrected? ==> Consistent(RulePass(rule, edges), edges)
  {
    if rule.Corrected? {
      ReservePassFacts(edges);
    } else {
      ReservePassAsWrittenRecorded(edges);
    }
  }

  /** With the loop as written, an edge between two lines of one ensemble member is
      retained while only its target keeps the reservation: its source then falls
      to `-1` although it is an end of a retained edge of the cluster. */
  lemma ReservePassAsWrittenDropsSource()
    ensures var e := Connection("0|1", "0|2", 1.0);
      WellFormed(e.source) && WellFormed(e.target) &&
      ReservePassAsWritten([e]).kept == [e] &&
      !Holds(ReservePassAsWritten([e]).reserved, e.source)
  {
    LineIdParts(0, 1);
    LineIdParts(0, 2);
    assert LineId(0, 1) == "0|1" && LineId(0, 2) == "0|2";
    var e := Connection("0|1", "0|2", 1.0);
    assert [e][..0] == [];
    assert ReservePassAsWritten([e]) == StepAsWritten(Pass([], map[]), e);
  }

  /** The corrected loop does not retain that edge. */
  lemma ReservePassRejectsSelfClash()
    ensures var e := Connection("0|1", "0|2", 1.0);
      WellFormed(e.source) && WellFormed(e.target) && ReservePass([e]).kept == []
  {
    LineIdParts(0, 1);
    LineIdParts(0, 2);
    assert LineId(0, 1) == "0|1" && LineId(0, 2) == "0|2";
    var e := Connection("0|1", "0|2", 1.0);
    assert [e][..0] == [];
    assert ReservePass([e]) == Step(Pass([], map[]), e);
  }

  /** The reservation loop of one cluster, over the subgraph's edges in order. Under
      `Corrected` the retain test also turns away an edge joining two lines of one
      ensemble member. */
  method ReserveEdges(rule: Rule, edges: seq<Connection>) returns (kept: seq<Connection>, reserved: map<string, string>)
    requires EdgeIdsWellFormed(edges)
    ensures Pass(kept, reserved) == RulePass(rule, edges)
  {
    kept := [];
    reserved := map[];
    for k := 0 to |edges|
      invariant EdgeIdsWellFormed(edges[..k])
      invariant Pass(kept, reserved) == RulePass(rule, edges[..k])
    {
      ReservePassStep(edges, k);
      ReservePassAsWrittenStep(edges, k);
      var edge := edges[k];
      var ens0, line0 := Prefix(edge.source), Local(edge.source);
      var ens1, line1 := Prefix(edge.target), Local(edge.target);
      if (ens0 !in reserved || reserved[ens0] == line0) && (ens1 !in reserved || reserved[ens1] == line1)
        && (rule.AsWritten? || ens0 != ens1 || line0 == line1)
      {
        kept := kept + [edge];
        reserved := reserved[ens0 := line0];
        reserved := reserved[ens1 := line1];
      }
    }
    assert edges[..|edges|] == edges;
  }

  // ---------------------------------------------------------------- cluster assignment

  /** The ids of a sequence, as a set. */
  function Elements(s: seq<string>): (r: set<string>)
    ensures forall x :: x in r <==> x in s
  {
    set x | x in s
  }

  /** `G.subgraph(cluster).edges`: the edges with both ends in the component, in the
      order of the edge list. */
  function EdgesWithin(edges: seq<Connection>, comp: seq<string>): (r: seq<Connection>)
    ensures forall e :: e in r <==> e in edges && e.source in comp && e.target in comp
  {
    if |edges| == 0 then []
    else
      var n := |edges| - 1;
      var e := edges[n];
      assert edges == edges[..n] + [e];
      EdgesWithin(edges[..n], comp) + (if e.source in comp && e.target in comp then [e] else [])
  }

  /** The reservation pass of one component. */
  function ClusterPass(rule: Rule, edges: seq<Connection>, comp: seq<string>): Pass
    requires EdgeIdsWellFormed(edges)
  {
    RulePass(rule, EdgesWithin(edges, comp))
  }

  /** The value a member of the `i`-th cluster receives: `i` when it holds its
      ensemble member's reservation, `-1` otherwise. */
  function NodeValue(reserved: map<string, string>, i: int, x: string): int
    requires WellFormed(x)
  {
    if Holds(reserved, x) then i else -1
  }

  /** Every line id of every component. */
  function Members(comps: seq<seq<string>>): (r: set<string>)
    ensures forall x :: x in r <==> exists i :: 0 <= i < |comps| && x in comps[i]
  {
    set i, x | 0 <= i < |comps| && x in comps[i] :: x
  }

  /** The first `i` cluster slots hold the edges their components' reservation
      passes retain, and there are no other slots. */
  ghost predicate Slots(rule: Rule, order: seq<nat>, edges: seq<Connection>, comps: seq<seq<string>>, i: nat,
                        clusters: map<int, seq<Connection>>)
    requires Partition(comps) && EdgeIdsWellFormed(edges) && IsOrder(order, |comps|) && i <= |comps|
  {
    (forall j :: j in clusters <==> 0 <= j < i) &&
    (forall j :: 0 <= j < i ==> clusters[j] == ClusterPass(rule, edges, comps[order[j]]).kept)
  }

  /** Each member of the `j`-th component in the order, for `j < i`, has the value
      the `j`-th reservation map gives it. */
  ghost predicate MemberValues(order: seq<nat>, comps: seq<seq<string>>, i: nat,
                               reservations: seq<map<string, string>>, nc: map<string, int>)
    requires IdsWellFormed(comps) && (forall j :: 0 <= j < |order| ==> order[j] < |comps|)
    requires i <= |order| && i <= |reservations|
  {
    forall j, x :: (0 <= j < i && x in comps[order[j]] ==>
      x in nc && nc[x] == NodeValue(reservations[j], j, x))
  }

  /** The reservation maps of the clusters, in order. */
  function Reservations(rule: Rule, order: seq<nat>, edges: seq<Connection>, comps: seq<seq<string>>): (r: seq<map<string, string>>)
    requires EdgeIdsWellFormed(edges) && forall j :: 0 <= j < |order| ==> order[j] < |comps|
    ensures |r| == |order|
    ensures forall j :: 0 <= j < |order| ==> r[j] == ClusterPass(rule, edges, comps[order[j]]).reserved
  {
    seq(|order|, j requires 0 <= j < |order| => ClusterPass(rule, edges, comps[order[j]]).reserved)
  }

  /** The result of the assignment phase of `generate_network`, given the edge list
      of the graph and its components: `nodes` lists the line ids in order, the
      `i`-th cluster (in descending order of smallest id) holds the edges its
      reservation pass retains, each member of it gets `i` or `-1` by its
      reservation, and every other line gets `-1`. */
  ghost predicate Assigned(rule: Rule, lineIds: seq<string>, edges: seq<Connection>, comps: seq<seq<string>>,
                           clusters: map<int, seq<Connection>>, nc: map<string, int>, nodes: seq<string>)
    requires Partition(comps) && EdgeIdsWellFormed(edges)
  {
    SortedOrderSorted(comps, |comps|);
    AssignedBy(rule, SortedOrder(comps, |comps|), lineIds, edges, comps, clusters, nc, nodes)
  }

  /** `Assigned`, for the components taken in the given order. */
  ghost predicate AssignedBy(rule: Rule, order: seq<nat>, lineIds: seq<string>, edges: seq<Connection>, comps: seq<seq<string>>,
                             clusters: map<int, seq<Connection>>, nc: map<string, int>, nodes: seq<string>)
    requires Partition(comps) && EdgeIdsWellFormed(edges) && IsOrder(order, |comps|)
  {
    nodes == lineIds &&
    Slots(rule, order, edges, comps, |comps|, clusters) &&
    MemberValues(order, comps, |comps|, Reservations(rule, order, edges, comps), nc) &&
    nc.Keys == Members(comps) + Elements(lineIds) &&
    (forall x :: x in lineIds && x !in Members(comps) ==> nc[x] == -1)
  }

  /** The loop over a cluster's members: each gets `i` when it holds its ensemble
      member's reservation and `-1` otherwise; other entries are kept. */
  method MarkMembers(nc: map<string, int>, cluster: seq<string>, reserved: map<string, string>, i: int)
    returns (r: map<string, int>)
    requires forall x :: x in cluster ==> WellFormed(x)
    ensures r.Keys == nc.Keys + Elements(cluster)
    ensures forall x :: x in cluster ==> r[x] == NodeValue(reserved, i, x)
    ensures forall x :: x in nc && x !in cluster ==> r[x] == nc[x]
  {
    r := nc;
    for k := 0 to |cluster|
      invariant r.Keys == nc.Keys + Elements(cluster[..k])
      invariant forall x :: x in cluster[..k] ==> r[x] == NodeValue(reserved, i, x)
      invariant forall x :: x in nc && x !in cluster[..k] ==> r[x] == nc[x]
    {
      var node := cluster[k];
      assert cluster[..k + 1] == cluster[..k] + [node];
      var ensId, lineId := Prefix(node), Local(node);
      if ensId in reserved && reserved[ensId] == lineId {
        r := r[node := i];
      } else {
        r := r[node := -1];
      }
    }
    assert cluster[..|cluster|] == cluster;
  }

  /** The final loop over the input lines: a line without an entry gets `-1`, and
      every line id is appended to `nodes`. */
  method DefaultNodes(nc: map<string, int>, lineIds: seq<string>) returns (r: map<string, int>, nodes: seq<string>)
    ensures nodes == lineIds
    ensures r.Keys == nc.Keys + Elements(lineIds)
    ensures forall x :: x in nc ==> r[x] == nc[x]
    ensures forall x :: x in lineIds && x !in nc ==> r[x] == -1
  {
    r := nc;
    nodes := [];
    for k := 0 to |lineIds|
      invariant nodes == lineIds[..k]
      invariant r.Keys == nc.Keys + Elements(lineIds[..k])
      invariant forall x :: x in nc ==> r[x] == nc[x]
      invariant forall x :: x in lineIds[..k] && x !in nc ==> r[x] == -1
    {
      var id := lineIds[k];
      assert lineIds[..k + 1] == lineIds[..k] + [id];
      if id !in r {
        r := r[id := -1];
      }
      nodes := nodes + [id];
    }
    assert lineIds[..|lineIds|] == lineIds;
  }

  /** The members of the components the first `i` clusters take. */
  function MembersUpTo(order: seq<nat>, comps: seq<seq<string>>, i: nat): (r: set<string>)
    requires i <= |order| && forall j :: 0 <= j < |order| ==> order[j] < |comps|
    ensures forall x :: x in r <==> exists j :: 0 <= j < i && x in comps[order[j]]
  {
    set j, x | 0 <= j < i && x in comps[order[j]] :: x
  }

  /** One cluster of the assignment loop fills its slot. */
  lemma SlotStep(rule: Rule, order: seq<nat>, edges: seq<Connection>, comps: seq<seq<string>>, i: nat,
                 clusters: map<int, seq<Connection>>, kept: seq<Connection>)
    requires Partition(comps) && EdgeIdsWellFormed(edges) && IsOrder(order, |comps|) && i < |comps|
    requires Slots(rule, order, edges, comps, i, clusters)
    requires kept == ClusterPass(rule, edges, comps[order[i]]).kept
    ensures Slots(rule, order, edges, comps, i + 1, clusters[i := kept])
  {
  }

  /** The component of the `i`-th cluster shares no member with the earlier ones. */
  lemma FreshComponent(order: seq<nat>, comps: seq<seq<string>>, i: nat)
    requires Partition(comps) && IsOrder(order, |comps|) && i < |comps|
    ensures forall x :: x in comps[order[i]] ==> x !in MembersUpTo(order, comps, i)
  {
  }

  /** One cluster of the assignment loop gives its members their values; the earlier
      clusters' members are untouched, since the component is fresh. */
  lemma ValueStep(order: seq<nat>, comps: seq<seq<string>>, i: nat, reservations: seq<map<string, string>>,
                  nc: map<string, int>, nc': map<string, int>)
    requires IdsWellFormed(comps) && (forall j :: 0 <= j < |order| ==> order[j] < |comps|)
    requires i < |order| && i < |reservations|
    requires forall x :: x in comps[order[i]] ==> x !in MembersUpTo(order, comps, i)
    requires nc.Keys == MembersUpTo(order, comps, i) && MemberValues(order, comps, i, reservations, nc)
    requires nc'.Keys == nc.Keys + Elements(comps[order[i]])
    requires forall x :: x in comps[order[i]] ==> nc'[x] == NodeValue(reservations[i], i, x)
    requires forall x :: x in nc && x !in comps[order[i]] ==> nc'[x] == nc[x]
    ensures nc'.Keys == MembersUpTo(order, comps, i + 1) && MemberValues(order, comps, i + 1, reservations, nc')
  {
    var cluster := comps[order[i]];
    assert MembersUpTo(order, comps, i + 1) == MembersUpTo(order, comps, i) + Elements(cluster);
    forall j, x | 0 <= j < i + 1 && x in comps[order[j]]
      ensures x in nc' && nc'[x] == NodeValue(reservations[j], j, x)
    {
      if j < i {
        assert x in MembersUpTo(order, comps, i);
      }
    }
  }

  /** One round of the assignment loop keeps both of its invariants. */
  lemma AssignStep(rule: Rule, order: seq<nat>, edges: seq<Connection>, comps: seq<seq<string>>, i: nat,
                   clusters: map<int, seq<Connection>>, nc: map<string, int>,
                   kept: seq<Connection>, reserved: map<string, string>, marked: map<string, int>)
    requires Partition(comps) && EdgeIdsWellFormed(edges) && IsOrder(order, |comps|) && i < |comps|
    requires Slots(rule, order, edges, comps, i, clusters)
    requires nc.Keys == MembersUpTo(order, comps, i) && MemberValues(order, comps, i, Reservations(rule, order, edges, comps), nc)
    requires Pass(kept, reserved) == RulePass(rule, EdgesWithin(edges, comps[order[i]]))
    requires marked.Keys == nc.Keys + Elements(comps[order[i]])
    requires forall x :: x in comps[order[i]] ==> marked[x] == NodeValue(reserved, i, x)
    requires forall x :: x in nc && x !in comps[order[i]] ==> marked[x] == nc[x]
    ensures Slots(rule, order, edges, comps, i + 1, clusters[i := kept])
    ensures marked.Keys == MembersUpTo(order, comps, i + 1)
    ensures MemberValues(order, comps, i + 1, Reservations(rule, order, edges, comps), marked)
  {
    var reservations := Reservations(rule, order, edges, comps);
    assert reserved == reservations[i];
    SlotStep(rule, order, edges, comps, i, clusters, kept);
    FreshComponent(order, comps, i);
    ValueStep(order, comps, i, reservations, nc, marked);
  }

  /** The loop over the sorted components: reservation pass, cluster slot and
      member values, one component at a time. */
  method AssignLoop(rule: Rule, order: seq<nat>, edges: seq<Connection>, comps: seq<seq<string>>)
    returns (clusters: map<int, seq<Connection>>, nc: map<string, int>)
    requires Partition(comps) && EdgeIdsWellFormed(edges) && IsOrder(order, |comps|)
    ensures Slots(rule, order, edges, comps, |comps|, clusters)
    ensures nc.Keys == MembersUpTo(order, comps, |comps|)
    ensures MemberValues(order, comps, |comps|, Reservations(rule, order, edges, comps), nc)
  {
    clusters := map[];
    nc := map[];
    ghost var reservations := Reservations(rule, order, edges, comps);
    for i := 0 to |comps|
      invariant Slots(rule, order, edges, comps, i, clusters)
      invariant nc.Keys == MembersUpTo(order, comps, i) && MemberValues(order, comps, i, reservations, nc)
    {
      var cluster := comps[order[i]];
      var kept, reserved := ReserveEdges(rule, EdgesWithin(edges, cluster));
      var marked := MarkMembers(nc, cluster, reserved, i);
      AssignStep(rule, order, edges, comps, i, clusters, nc, kept, reserved, marked);
      clusters := clusters[i := kept];
      nc := marked;
    }
  }

  /** Once every component is done and the lines have their defaults, the result is
      the assignment `Assigned` describes. */
  lemma AssignedFinal(rule: Rule, order: seq<nat>, lineIds: seq<string>, edges: seq<Connection>, comps: seq<seq<string>>,
                      clusters: map<int, seq<Connection>>, members: map<string, int>,
                      nc: map<string, int>, nodes: seq<string>)
    requires Partition(comps) && EdgeIdsWellFormed(edges) && IsOrder(order, |comps|)
    requires Slots(rule, order, edges, comps, |comps|, clusters)
    requires members.Keys == MembersUpTo(order, comps, |comps|)
    requires MemberValues(order, comps, |comps|, Reservations(rule, order, edges, comps), members)
    requires nodes == lineIds
    requires nc.Keys == members.Keys + Elements(lineIds)
    requires forall x :: x in members ==> nc[x] == members[x]
    requires forall x :: x in lineIds && x !in members ==> nc[x] == -1
    ensures AssignedBy(rule, order, lineIds, edges, comps, clusters, nc, nodes)
  {
    assert MembersUpTo(order, comps, |comps|) == Members(comps) by {
      forall x | x in Members(comps) ensures x in MembersUpTo(order, comps, |comps|) {
        var m :| 0 <= m < |comps| && x in comps[m];
        assert m in order;
        var j :| 0 <= j < |order| && order[j] == m;
      }
    }
  }

  /** The assignment phase of `generate_network` over the graph's edge list and its
      components. */
  method AssignClusters(rule: Rule, lineIds: seq<string>, edges: seq<Connection>, comps: seq<seq<string>>)
    returns (clusters: map<int, seq<Connection>>, nc: map<string, int>, nodes: seq<string>)
    requires Partition(comps) && EdgeIdsWellFormed(edges)
    ensures Assigned(rule, lineIds, edges, comps, clusters, nc, nodes)
  {
    var order := SortedOrder(comps, |comps|);
    SortedOrderSorted(comps, |comps|);
    var members;
    clusters, members := AssignLoop(rule, order, edges, comps);
    nc, nodes := DefaultNodes(members, lineIds);
    AssignedFinal(rule, order, lineIds, edges, comps, clusters, members, nc, nodes);
  }

  // ---------------------------------------------------------------- what the assignment guarantees

  /** A line with a non-negative value is a member of the component of that
      cluster and holds its ensemble member's reservation there. */
  lemma ClusterOf(rule: Rule, order: seq<nat>, lineIds: seq<string>, edges: seq<Connection>, comps: seq<seq<string>>,
                  clusters: map<int, seq<Connection>>, nc: map<string, int>, nodes: seq<string>, x: string)
    returns (j: nat)
    requires Partition(comps) && EdgeIdsWellFormed(edges) && IsOrder(order, |comps|)
    requires AssignedBy(rule, order, lineIds, edges, comps, clusters, nc, nodes)
    requires x in nc && nc[x] >= 0
    ensures j == nc[x] && j < |comps| && x in comps[order[j]]
    ensures WellFormed(x) && Holds(ClusterPass(rule, edges, comps[order[j]]).reserved, x)
  {
    var m :| 0 <= m < |comps| && x in comps[m];
    assert m in order;
    j :| 0 <= j < |order| && order[j] == m;
  }

  /** A retained edge is an edge of the graph with both ends in the cluster's
      component; under the corrected rule both ends also hold their reservations. */
  lemma RetainedEdge(rule: Rule, order: seq<nat>, edges: seq<Connection>, comps: seq<seq<string>>, i: nat, e: Connection)
    requires Partition(comps) && EdgeIdsWellFormed(edges) && IsOrder(order, |comps|) && i < |comps|
    requires e in ClusterPass(rule, edges, comps[order[i]]).kept
    ensures e in edges && e.source in comps[order[i]] && e.target in comps[order[i]]
    ensures WellFormed(e.source) && WellFormed(e.target)
    ensures rule.Corrected? ==> Holds(ClusterPass(rule, edges, comps[order[i]]).reserved, e.source)
    ensures rule.Corrected? ==> Holds(ClusterPass(rule, edges, comps[order[i]]).reserved, e.target)
  {
    RulePassFacts(rule, EdgesWithin(edges, comps[order[i]]));
  }

  /** Every value is `-1` or a cluster id below `k`. */
  predicate ValuesInRange(nc: map<string, int>, k: int) {
    forall x :: x in nc ==> -1 <= nc[x] < k
  }

  /** No two lines of one ensemble member share a cluster. */
  predicate EnsembleExclusive(nc: map<string, int>) {
    forall x, y :: x in nc && y in nc && x != y && 0 <= nc[x] == nc[y] ==> Prefix(x) != Prefix(y)
  }

  /** Both ends of every retained edge of a cluster carry that cluster's id. */
  predicate RetainedEndsAssigned(clusters: map<int, seq<Connection>>, nc: map<string, int>) {
    forall i, e :: (i in clusters && e in clusters[i] ==>
      e.source in nc && e.target in nc && nc[e.source] == i && nc[e.target] == i)
  }

  /** A line carries a cluster's id only as an end of one of its retained edges. */
  predicate AssignedViaEdges(clusters: map<int, seq<Connection>>, nc: map<string, int>) {
    forall x :: x in nc && nc[x] >= 0 ==> nc[x] in clusters && x in Ends(clusters[nc[x]])
  }

  /** Every value is `-1` or a cluster id. */
  lemma AssignedInRange(rule: Rule, order: seq<nat>, lineIds: seq<string>, edges: seq<Connection>, comps: seq<seq<string>>,
      clusters: map<int, seq<Connection>>, nc: map<string, int>, nodes: seq<string>)
    requires Partition(comps) && EdgeIdsWellFormed(edges) && IsOrder(order, |comps|)
    requires AssignedBy(rule, order, lineIds, edges, comps, clusters, nc, nodes)
    ensures ValuesInRange(nc, |comps|)
  {
    forall x | x in nc ensures -1 <= nc[x] < |comps| {
      if nc[x] >= 0 {
        var j := ClusterOf(rule, order, lineIds, edges, comps, clusters, nc, nodes, x);
      } else if x in Members(comps) {
        var m :| 0 <= m < |comps| && x in comps[m];
        assert m in order;
        var j :| 0 <= j < |order| && order[j] == m;
      }
    }
  }

  /** Two lines of one ensemble member never share a cluster: both would hold that
      member's one reservation. */
  lemma AssignedExclusive(rule: Rule, order: seq<nat>, lineIds: seq<string>, edges: seq<Connection>, comps: seq<seq<string>>,
      clusters: map<int, seq<Connection>>, nc: map<string, int>, nodes: seq<string>)
    requires Partition(comps) && EdgeIdsWellFormed(edges) && IsOrder(order, |comps|)
    requires AssignedBy(rule, order, lineIds, edges, comps, clusters, nc, nodes)
    ensures EnsembleExclusive(nc)
  {
    forall x, y | x in nc && y in nc && x != y && 0 <= nc[x] == nc[y]
      ensures Prefix(x) != Prefix(y)
    {
      var j := ClusterOf(rule, order, lineIds, edges, comps, clusters, nc, nodes, x);
      var j' := ClusterOf(rule, order, lineIds, edges, comps, clusters, nc, nodes, y);
      if Prefix(x) == Prefix(y) {
        PartsDetermineId(x, y);
      }
    }
  }

  /** The retained edges are graph edges inside the cluster's component; under the
      corrected rule both ends of every retained edge carry the cluster's id (as
      written, `ReservePassAsWrittenDropsSource` shows an end that does not). */
  lemma AssignedRetainedEnds(rule: Rule, order: seq<nat>, lineIds: seq<string>, edges: seq<Connection>, comps: seq<seq<string>>,
      clusters: map<int, seq<Connection>>, nc: map<string, int>, nodes: seq<string>)
    requires Partition(comps) && EdgeIdsWellFormed(edges) && IsOrder(order, |comps|)
    requires AssignedBy(rule, order, lineIds, edges, comps, clusters, nc, nodes)
    ensures rule.Corrected? ==> RetainedEndsAssigned(clusters, nc)
    ensures forall i, e :: (i in clusters && e in clusters[i] ==>
      0 <= i < |comps| && e in edges && e.source in comps[order[i]] && e.target in comps[order[i]])
  {
    forall i, e | i in clusters && e in clusters[i]
      ensures rule.Corrected? ==> e.source in nc && e.target in nc && nc[e.source] == i && nc[e.target] == i
      ensures e in edges && e.source in comps[order[i]] && e.target in comps[order[i]]
    {
      RetainedEdge(rule, order, edges, comps, i, e);
    }
  }

  /** A line carries a cluster's id only as an end of one of its retained edges. */
  lemma AssignedOnlyViaEdges(rule: Rule, order: seq<nat>, lineIds: seq<string>, edges: seq<Connection>, comps: seq<seq<string>>,
      clusters: map<int, seq<Connection>>, nc: map<string, int>, nodes: seq<string>)
    requires Partition(comps) && EdgeIdsWellFormed(edges) && IsOrder(order, |comps|)
    requires AssignedBy(rule, order, lineIds, edges, comps, clusters, nc, nodes)
    ensures AssignedViaEdges(clusters, nc)
  {
    forall x | x in nc && nc[x] >= 0 ensures nc[x] in clusters && x in Ends(clusters[nc[x]]) {
      var j := ClusterOf(rule, order, lineIds, edges, comps, clusters, nc, nodes, x);
      RulePassFacts(rule, EdgesWithin(edges, comps[order[j]]));
    }
  }

  // ---------------------------------------------------------------- the network

  /** The connections of a list, as a set. */
  function ConnectionSet(s: seq<Connection>): (r: set<Connection>)
    ensures forall c :: c in r <==> c in s
  {
    set c | c in s
  }

  /** The inner loop for one line: a connection to each close line whose ratio
      reaches the required ratio is added to the set. */
  method AddQualifying(connections: set<Connection>, line: Line, close: seq<Line>, ratios: seq<real>, required: real)
    returns (r: set<Connection>)
    requires |close| == |ratios|
    ensures r == connections + ConnectionSet(Qualifying(line, close, ratios, required))
  {
    r := connections;
    for i := 0 to |ratios|
      invariant r == connections + ConnectionSet(Qualifying(line, close[..i], ratios[..i], required))
    {
      QualifyingStep(line, close, ratios, required, i);
      if ratios[i] < required {
        continue;
      }
      r := r + {Connection(line.id, close[i].id, ratios[i])};
    }
    assert close[..|close|] == close && ratios[..|ratios|] == ratios;
  }

  /** The loop that fills the set `connections`: the qualifying pairs of every line. */
  method BuildConnections(lines: seq<Line>, sample: string -> seq<CoordGeo>, maxDist: int, required: real, dist: Dist)
    returns (connections: set<Connection>)
    requires Prepared(lines, sample, maxDist, dist)
    ensures connections == ConnectionSet(Concat(PairsByLine(lines, sample, maxDist, required, dist)))
  {
    ghost var ss := PairsByLine(lines, sample, maxDist, required, dist);
    connections := {};
    for n := 0 to |lines|
      invariant connections == ConnectionSet(Concat(ss[..n]))
    {
      var close, ratios := LineRatiosOf(lines[n], lines, sample, maxDist, dist);
      connections := AddQualifying(connections, lines[n], close, ratios, required);
      ConcatStep(ss, n);
    }
    assert ss[..|lines|] == ss;
  }

  /** The same two lines, in either direction: one edge of the undirected graph. */
  predicate SamePair(c: Connection, e: Connection) {
    (c.source == e.source && c.target == e.target) || (c.source == e.target && c.target == e.source)
  }

  /** `edges` is the edge list of the graph built from `connections`: every edge is
      a connection, in one direction or the other, every connection's two lines are
      joined by an edge, and no two edges join the same two lines. */
  ghost predicate GraphOf(edges: seq<Connection>, connections: set<Connection>) {
    (forall e :: e in edges ==>
      Connection(e.source, e.target, e.weight) in connections || Connection(e.target, e.source, e.weight) in connections) &&
    (forall c :: c in connections ==> exists k :: 0 <= k < |edges| && SamePair(c, edges[k])) &&
    (forall i, j :: 0 <= i < j < |edges| ==> !SamePair(edges[i], edges[j]))
  }

  /** `comps` partitions the nodes of the graph and no edge leaves a component:
      every member is an end of an edge, and both ends of every edge lie in one
      component. That each component is connected is not assumed. */
  ghost predicate ComponentsOf(comps: seq<seq<string>>, edges: seq<Connection>) {
    Partition(comps) &&
    Members(comps) <= Ends(edges) &&
    (forall e :: e in edges ==> exists i :: 0 <= i < |comps| && e.source in comps[i] && e.target in comps[i])
  }

  /** Both ends of every edge of the connection graph are input lines. */
  lemma EdgeEndsAreLines(lines: seq<Line>, sample: string -> seq<CoordGeo>, maxDist: int, required: real, dist: Dist,
                         edges: seq<Connection>)
    requires Prepared(lines, sample, maxDist, dist)
    requires GraphOf(edges, ConnectionSet(Concat(PairsByLine(lines, sample, maxDist, required, dist))))
    ensures Ends(edges) <= Elements(Ids(lines))
  {
    PairsFacts(lines, sample, maxDist, required, dist);
    var ids := Ids(lines);
    forall x | x in Ends(edges) ensures x in Elements(ids) {
      var e := EndsWitness(edges, x);
      var c := Connection(e.source, e.target, e.weight);
      var c' := Connection(e.target, e.source, e.weight);
      var l :| l in lines && l.id == x;
      var k :| 0 <= k < |lines| && lines[k] == l;
      assert ids[k] == x;
    }
  }

  /** `generate_network` of the current version. The graph library's edge list and
      connected components of the connection graph come in as `edges` and `comps`;
      `rule` picks the reservation loop's retain test, as written or corrected. */
  method GenerateNetwork(rule: Rule, lines: seq<Line>, sample: string -> seq<CoordGeo>, maxDist: int, required: real, dist: Dist,
                         edges: seq<Connection>, comps: seq<seq<string>>)
    returns (net: Network)
    requires Prepared(lines, sample, maxDist, dist)
    requires forall k :: 0 <= k < |lines| ==> WellFormed(lines[k].id)
    requires GraphOf(edges, ConnectionSet(Concat(PairsByLine(lines, sample, maxDist, required, dist))))
    requires ComponentsOf(comps, edges)
    ensures Assigned(rule, Ids(lines), edges, comps, net.clusters, net.nodeClusters, net.nodes)
    ensures net.nodes == Ids(lines)
    ensures net.nodeClusters.Keys == Elements(Ids(lines))
    ensures forall i :: i in net.clusters <==> 0 <= i < |comps|
    ensures ValuesInRange(net.nodeClusters, |comps|)
    ensures EnsembleExclusive(net.nodeClusters)
    ensures rule.Corrected? ==> RetainedEndsAssigned(net.clusters, net.nodeClusters)
    ensures AssignedViaEdges(net.clusters, net.nodeClusters)
  {
    var connections := BuildConnections(lines, sample, maxDist, required, dist);
    var ids := Ids(lines);
    EdgeEndsAreLines(lines, sample, maxDist, required, dist, edges);
    var clusters, nc, nodes := AssignClusters(rule, ids, edges, comps);
    net := Network(nodes, clusters, nc);
    SortedOrderSorted(comps, |comps|);
    var order := SortedOrder(comps, |comps|);
    AssignedInRange(rule, order, ids, edges, comps, clusters, nc, nodes);
    AssignedExclusive(rule, order, ids, edges, comps, clusters, nc, nodes);
    AssignedRetainedEnds(rule, order, ids, edges, comps, clusters, nc, nodes);
    AssignedOnlyViaEdges(rule, order, ids, edges, comps, clusters, nc, nodes);
  }
}
