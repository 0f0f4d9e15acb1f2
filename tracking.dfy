/** The tabulation that compares the clusters of two networks, one at t0 and one at
    t1: the line matches of all ensemble members are collected, the t1 lines that
    no match reaches are kept apart, and a contingency table counts, for every pair
    of cluster ids, the matches that lead from the first cluster to the second. The
    matching itself is an input: one list of matches per ensemble member. */
module Tracking {
  import opened Outcomes
  import opened Sequences

  /** A match `(old_id, new_id)` of a t0 line with a t1 line. */
  datatype Match = Match(oldId: string, newId: string)

  /** The t1 ids that some match leads to. */
  function Targets(ms: seq<Match>): set<string> {
    set m | m in ms :: m.newId
  }

  lemma TargetsAppend(a: seq<Match>, b: seq<Match>)
    ensures Targets(a + b) == Targets(a) + Targets(b)
  {
    forall x | x in Targets(a + b) ensures x in Targets(a) + Targets(b) {
      var m :| m in a + b && m.newId == x;
      if m in a {
        assert x in Targets(a);
      } else {
        assert x in Targets(b);
      }
    }
    forall x | x in Targets(a) + Targets(b) ensures x in Targets(a + b) {
      if x in Targets(a) {
        var m :| m in a && m.newId == x;
        assert m in a + b;
      } else {
        var m :| m in b && m.newId == x;
        assert m in a + b;
      }
    }
  }

  /** The removal loop for the matches of one ensemble member. */
  method RemoveTargets(unmatched: set<string>, matches: seq<Match>) returns (r: set<string>)
    ensures r == unmatched - Targets(matches)
  {
    r := unmatched;
    for i := 0 to |matches|
      invariant r == unmatched - Targets(matches[..i])
    {
      assert matches[..i + 1] == matches[..i] + [matches[i]];
      TargetsAppend(matches[..i], [matches[i]]);
      assert Targets([matches[i]]) == {matches[i].newId};
      if matches[i].newId in r {
        r := r - {matches[i].newId};
      }
    }
    assert matches[..|matches|] == matches;
  }

  /** The loop over the ensemble members: `all_matches` collects every member's
      matches in member order, and `unmatched_ids` starts as the set of t1 line ids
      and loses every id some match leads to. */
  method Track(t1Ids: set<string>, perMember: seq<seq<Match>>) returns (allMatches: seq<Match>, unmatched: set<string>)
    ensures allMatches == Concat(perMember)
    ensures unmatched == t1Ids - Targets(allMatches)
  {
    allMatches, unmatched := [], t1Ids;
    for i := 0 to |perMember|
      invariant allMatches == Concat(perMember[..i])
      invariant unmatched == t1Ids - Targets(allMatches)
    {
      unmatched := RemoveTargets(unmatched, perMember[i]);
      TargetsAppend(allMatches, perMember[i]);
      ConcatStep(perMember, i);
      allMatches := allMatches + perMember[i];
    }
    assert perMember[..|perMember|] == perMember;
  }

  /** A t1 id stays unmatched exactly when it is a t1 line id and no match of any
      member leads to it. */
  lemma UnmatchedExactly(t1Ids: set<string>, perMember: seq<seq<Match>>, x: string)
    ensures x in t1Ids - Targets(Concat(perMember)) <==>
      x in t1Ids && forall k, m :: 0 <= k < |perMember| && m in perMember[k] ==> m.newId != x
  {
    forall k, m | 0 <= k < |perMember| && m in perMember[k] ensures m in Concat(perMember) {
      ConcatMember(perMember, m);
    }
    if x in Targets(Concat(perMember)) {
      var m :| m in Concat(perMember) && m.newId == x;
      ConcatMember(perMember, m);
    }
  }

  // ---------------------------------------------------------------------------
  // The sorted union of cluster ids

  predicate Increasing(s: seq<int>) {
    forall i, j :: 0 <= i < j < |s| ==> s[i] < s[j]
  }

  /** The smallest element of a non-empty set. */
  method Smallest(s: set<int>) returns (m: int)
    requires s != {}
    ensures m in s && forall x :: x in s ==> m <= x
  {
    m := Pick(s);
    var rest := s - {m};
    while rest != {}
      invariant rest <= s && m in s
      invariant forall x :: x in s && x !in rest ==> m <= x
      decreases |rest|
    {
      var x := Pick(rest);
      if x < m {
        m := x;
      }
      rest := rest - {x};
    }
  }

  /** `sorted(set(...))`: the elements of a set in increasing order. */
  method SortedIds(values: set<int>) returns (ids: seq<int>)
    ensures Increasing(ids)
    ensures forall x :: x in ids <==> x in values
  {
    ids := [];
    var rest := values;
    while rest != {}
      invariant Increasing(ids)
      invariant rest <= values
      invariant forall x :: x in ids <==> x in values && x !in rest
      invariant forall i, y :: 0 <= i < |ids| && y in rest ==> ids[i] < y
      decreases |rest|
    {
      var m := Smallest(rest);
      ids := ids + [m];
      rest := rest - {m};
    }
  }

  /** Two increasing sequences with the same elements are the same sequence, so the
      order of `all_ids` is determined by its elements. */
  lemma {:induction false} IncreasingUnique(a: seq<int>, b: seq<int>)
    requires Increasing(a) && Increasing(b)
    requires forall x :: x in a <==> x in b
    ensures a == b
  {
    assert |a| > 0 ==> a[0] in a;
    assert |b| > 0 ==> b[0] in b;
    if |a| > 0 {
      var j :| 0 <= j < |b| && b[j] == a[0];
      var i :| 0 <= i < |a| && a[i] == b[0];
      assert b[0] <= b[j] && a[0] <= a[i];
      forall x ensures x in a[1..] <==> x in b[1..] {
        if x in a[1..] {
          var i :| 1 <= i < |a| && a[i] == x;
          assert x in b && x != b[0];
        }
        if x in b[1..] {
          var j :| 1 <= j < |b| && b[j] == x;
          assert x in a && x != a[0];
        }
      }
      IncreasingUnique(a[1..], b[1..]);
      assert a == [a[0]] + a[1..] && b == [b[0]] + b[1..];
    }
  }

  /** `all_ids`: every cluster id of either network, in increasing order. */
  method AllIds(clusters0: map<string, int>, clusters1: map<string, int>) returns (ids: seq<int>)
    ensures Increasing(ids)
    ensures forall x :: x in ids <==> x in clusters0.Values || x in clusters1.Values
  {
    ids := SortedIds(clusters0.Values + clusters1.Values);
  }

  // ---------------------------------------------------------------------------
  // The contingency table

  /** The matches whose two ids are known to the respective networks. */
  function Known(ms: seq<Match>, clusters0: map<string, int>, clusters1: map<string, int>): (r: seq<Match>)
    ensures forall m :: m in r <==> m in ms && m.oldId in clusters0 && m.newId in clusters1
  {
    if |ms| == 0 then []
    else
      var m := ms[|ms| - 1];
      Known(ms[..|ms| - 1], clusters0, clusters1) + (if m.oldId in clusters0 && m.newId in clusters1 then [m] else [])
  }

  /** Whether a match is known and leads from cluster `a` at t0 to cluster `b` at t1. */
  predicate Counts(m: Match, clusters0: map<string, int>, clusters1: map<string, int>, a: int, b: int) {
    m.oldId in clusters0 && m.newId in clusters1 && clusters0[m.oldId] == a && clusters1[m.newId] == b
  }

  /** The number of matches that lead from cluster `a` to cluster `b`. */
  function Count(ms: seq<Match>, clusters0: map<string, int>, clusters1: map<string, int>, a: int, b: int): nat {
    if |ms| == 0 then 0
    else
      Count(ms[..|ms| - 1], clusters0, clusters1, a, b) +
      (if Counts(ms[|ms| - 1], clusters0, clusters1, a, b) then 1 else 0)
  }

  lemma CountStep(ms: seq<Match>, clusters0: map<string, int>, clusters1: map<string, int>, k: nat)
    requires k < |ms|
    ensures forall a, b :: (Count(ms[..k + 1], clusters0, clusters1, a, b) ==
      Count(ms[..k], clusters0, clusters1, a, b) + (if Counts(ms[k], clusters0, clusters1, a, b) then 1 else 0))
    ensures Known(ms[..k + 1], clusters0, clusters1) ==
      Known(ms[..k], clusters0, clusters1) + (if ms[k].oldId in clusters0 && ms[k].newId in clusters1 then [ms[k]] else [])
  {
    assert ms[..k + 1][..k] == ms[..k];
  }

  /** The sum of one row. */
  function RowSum(row: seq<nat>): nat {
    if |row| == 0 then 0 else RowSum(row[..|row| - 1]) + row[|row| - 1]
  }

  /** The sum of all cells. */
  function Total(table: seq<seq<nat>>): nat {
    if |table| == 0 then 0 else Total(table[..|table| - 1]) + RowSum(table[|table| - 1])
  }

  /** A table of zeros with one row and one column per id. */
  function Zeros(n: nat): (t: seq<seq<nat>>)
    ensures |t| == n && forall i :: 0 <= i < n ==> |t[i]| == n
    ensures forall i, j :: 0 <= i < n && 0 <= j < n ==> t[i][j] == 0
  {
    seq(n, _ => seq(n, _ => 0))
  }

  lemma {:induction false} RowSumZero(row: seq<nat>)
    requires forall j :: 0 <= j < |row| ==> row[j] == 0
    ensures RowSum(row) == 0
  {
    if |row| > 0 {
      RowSumZero(row[..|row| - 1]);
    }
  }

  lemma {:induction false} TotalZero(table: seq<seq<nat>>)
    requires forall i, j :: 0 <= i < |table| && 0 <= j < |table[i]| ==> table[i][j] == 0
    ensures Total(table) == 0
  {
    if |table| > 0 {
      TotalZero(table[..|table| - 1]);
      RowSumZero(table[|table| - 1]);
    }
  }

  /** Adding one to a cell adds one to its row. */
  lemma {:induction false} RowSumIncrement(row: seq<nat>, j: nat)
    requires j < |row|
    ensures RowSum(row[j := row[j] + 1]) == RowSum(row) + 1
  {
    var n := |row| - 1;
    var r := row[j := row[j] + 1];
    if j < n {
      assert r[..n] == row[..n][j := row[j] + 1];
      RowSumIncrement(row[..n], j);
    } else {
      assert r[..n] == row[..n];
    }
  }

  /** Adding one to a cell adds one to the total. */
  lemma {:induction false} TotalIncrement(table: seq<seq<nat>>, i: nat, j: nat)
    requires i < |table| && j < |table[i]|
    ensures Total(table[i := table[i][j := table[i][j] + 1]]) == Total(table) + 1
  {
    var n := |table| - 1;
    var t := table[i := table[i][j := table[i][j] + 1]];
    if i < n {
      assert t[..n] == table[..n][i := table[i][j := table[i][j] + 1]];
      TotalIncrement(table[..n], i, j);
    } else {
      assert t[..n] == table[..n];
      RowSumIncrement(table[i], j);
    }
  }

  /** The position of a label: a `.loc` lookup on the table. */
  function IndexOf(ids: seq<int>, v: int): (i: nat)
    requires v in ids
    ensures i < |ids| && ids[i] == v
  {
    if ids[0] == v then 0 else 1 + IndexOf(ids[1..], v)
  }

  /** The table holds, for every pair of ids, the count of the first `k` matches. */
  ghost predicate Tabulated(table: seq<seq<nat>>, ids: seq<int>, ms: seq<Match>, clusters0: map<string, int>, clusters1: map<string, int>) {
    |table| == |ids| && (forall i :: 0 <= i < |ids| ==> |table[i]| == |ids|) &&
    (forall i, j :: 0 <= i < |ids| && 0 <= j < |ids| ==> table[i][j] == Count(ms, clusters0, clusters1, ids[i], ids[j])) &&
    Total(table) == |Known(ms, clusters0, clusters1)|
  }

  /** One match is counted: a known match adds one to its cell, an unknown one changes nothing. */
  method CountMatch(table: seq<seq<nat>>, ids: seq<int>, ms: seq<Match>, k: nat, clusters0: map<string, int>, clusters1: map<string, int>)
    returns (table': seq<seq<nat>>)
    requires k < |ms| && Increasing(ids)
    requires forall x :: x in clusters0.Values || x in clusters1.Values ==> x in ids
    requires Tabulated(table, ids, ms[..k], clusters0, clusters1)
    ensures Tabulated(table', ids, ms[..k + 1], clusters0, clusters1)
  {
    CountStep(ms, clusters0, clusters1, k);
    var m := ms[k];
    table' := table;
    if m.oldId !in clusters0 || m.newId !in clusters1 {
      assert Known(ms[..k + 1], clusters0, clusters1) == Known(ms[..k], clusters0, clusters1) + [];
      return;
    }
    var a, b := clusters0[m.oldId], clusters1[m.newId];
    assert a in clusters0.Values && b in clusters1.Values;
    var i, j := IndexOf(ids, a), IndexOf(ids, b);
    TotalIncrement(table, i, j);
    table' := table[i := table[i][j := table[i][j] + 1]];
    forall p, q | 0 <= p < |ids| && 0 <= q < |ids|
      ensures table'[p][q] == Count(ms[..k + 1], clusters0, clusters1, ids[p], ids[q])
    {
      if p != i || q != j {
        assert ids[p] != a || ids[q] != b;
      }
    }
  }

  /** The contingency table: indexed by `all_ids` on both axes, zero at first, with
      one added to cell (cluster at t0 of the old id, cluster at t1 of the new id)
      for every match whose two ids are known. */
  method Contingency(clusters0: map<string, int>, clusters1: map<string, int>, allMatches: seq<Match>)
    returns (ids: seq<int>, table: seq<seq<nat>>)
    ensures Increasing(ids)
    ensures forall x :: x in ids <==> x in clusters0.Values || x in clusters1.Values
    ensures |table| == |ids| && forall i :: 0 <= i < |ids| ==> |table[i]| == |ids|
    ensures forall i, j :: 0 <= i < |ids| && 0 <= j < |ids| ==>
      table[i][j] == Count(allMatches, clusters0, clusters1, ids[i], ids[j])
    ensures Total(table) == |Known(allMatches, clusters0, clusters1)|
  {
    ids := AllIds(clusters0, clusters1);
    table := Zeros(|ids|);
    TotalZero(table);
    for k := 0 to |allMatches|
      invariant Tabulated(table, ids, allMatches[..k], clusters0, clusters1)
    {
      table := CountMatch(table, ids, allMatches, k, clusters0, clusters1);
    }
    assert allMatches[..|allMatches|] == allMatches;
  }
}
