/** Concatenation of a sequence of lists, as Python's `+=` over lists and Go's
    `append(all, part...)` build it. */
module Sequences {

  /** The concatenation of a sequence of lists, in order. */
  function Concat<T>(ss: seq<seq<T>>): seq<T> {
    if |ss| == 0 then []
    else Concat(ss[..|ss| - 1]) + ss[|ss| - 1]
  }

  /** Dropping the last element of `a + b` drops the last element of `b`. */
  lemma AppendDropLast<T>(a: seq<T>, b: seq<T>)
    requires |b| > 0
    ensures (a + b)[..|a + b| - 1] == a + b[..|b| - 1]
    ensures (a + b)[|a + b| - 1] == b[|b| - 1]
  {
    var ab, front := a + b, a + b[..|b| - 1];
    assert forall k :: 0 <= k < |ab| - 1 ==> ab[..|ab| - 1][k] == front[k];
  }

  lemma ConcatStep<T>(ss: seq<seq<T>>, n: nat)
    requires n < |ss|
    ensures Concat(ss[..n + 1]) == Concat(ss[..n]) + ss[n]
  {
    assert ss[..n + 1][..n] == ss[..n];
  }

  /** An element is in the concatenation exactly when it is in one of the lists. */
  lemma {:induction false} ConcatMember<T>(ss: seq<seq<T>>, c: T)
    ensures c in Concat(ss) <==> exists k :: 0 <= k < |ss| && c in ss[k]
  {
    if |ss| > 0 {
      var n := |ss| - 1;
      ConcatMember(ss[..n], c);
      if c in Concat(ss[..n]) {
        var k :| 0 <= k < n && c in ss[..n][k];
        assert ss[..n][k] == ss[k];
      }
      if exists k :: 0 <= k < |ss| && c in ss[k] {
        var k :| 0 <= k < |ss| && c in ss[k];
        if k < n {
          assert ss[..n][k] == ss[k];
        }
      }
    }
  }

  lemma ConcatMembers<T>(ss: seq<seq<T>>)
    ensures forall c :: c in Concat(ss) <==> exists k :: 0 <= k < |ss| && c in ss[k]
  {
    forall c {
      ConcatMember(ss, c);
    }
  }

  /** Lists of one width `w` concatenate to `|ss| * w` elements. */
  lemma {:induction false} ConcatUniformLength<T>(ss: seq<seq<T>>, w: nat)
    requires forall k :: 0 <= k < |ss| ==> |ss[k]| == w
    ensures |Concat(ss)| == |ss| * w
  {
    if |ss| > 0 {
      var n := |ss| - 1;
      ConcatUniformLength(ss[..n], w);
      assert |Concat(ss)| == n * w + w;
    }
  }

  /** In row-major order: element `j` of list `i` sits at `i * w + j`. */
  lemma {:induction false} ConcatUniformAt<T>(ss: seq<seq<T>>, w: nat, i: nat, j: nat)
    requires forall k :: 0 <= k < |ss| ==> |ss[k]| == w
    requires i < |ss| && j < w
    ensures i * w + j < |Concat(ss)| && Concat(ss)[i * w + j] == ss[i][j]
  {
    var n := |ss| - 1;
    var front := ss[..n];
    ConcatUniformLength(front, w);
    ConcatUniformLength(ss, w);
    if i < n {
      ConcatUniformAt(front, w, i, j);
      assert front[i] == ss[i];
    } else {
      assert i * w == n * w;
    }
  }
}
