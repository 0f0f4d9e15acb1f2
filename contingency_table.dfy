/** The data behind the contingency heat map of the web page: the table's rows
    flattened into cells in row-major order, each cell labelled with the cluster
    ids of its row and column, and the two axis label lists. The last row and the
    last column stand for "no cluster" and carry the label "-". Drawing the map is
    not modelled. */
module ContingencyTable {
  import opened Outcomes
  import opened Text
  import opened Sequences

  /** One cell: the label of its row, of its column, and its value. Rows may be
      ragged; a cell beyond the end of its row reads `undefined`, here `None`. */
  datatype Cell = Cell(oldId: string, newId: string, value: Option<int>)

  /** The cells, the labels along the x axis (one per column) and along the y axis
      (one per row). */
  datatype Table = Table(data: seq<Cell>, xDomain: seq<string>, yDomain: seq<string>)

  /** The width of the table: the length of its first row. */
  function Columns(raw: seq<seq<int>>): nat {
    if |raw| == 0 then 0 else |raw[0]|
  }

  /** The label of position `k` out of `n`: its cluster id `k - 1` as text, and
      "-" for the last position. */
  function IdText(k: int, n: int): string {
    if k < n - 1 then IntToString(k - 1) else "-"
  }

  function ValueAt(raw: seq<seq<int>>, i: nat, j: nat): Option<int>
    requires i < |raw|
  {
    if j < |raw[i]| then Some(raw[i][j]) else None
  }

  function CellAt(raw: seq<seq<int>>, i: nat, j: nat): Cell
    requires i < |raw|
  {
    Cell(IdText(i, |raw|), IdText(j, Columns(raw)), ValueAt(raw, i, j))
  }

  /** The cells of row `i`. */
  function Row(raw: seq<seq<int>>, i: nat): (r: seq<Cell>)
    requires i < |raw|
    ensures |r| == Columns(raw)
  {
    seq(Columns(raw), j requires 0 <= j < Columns(raw) => CellAt(raw, i, j))
  }

  function Rows(raw: seq<seq<int>>): seq<seq<Cell>> {
    seq(|raw|, i requires 0 <= i < |raw| => Row(raw, i))
  }

  /** All cells, row after row. */
  function Cells(raw: seq<seq<int>>): seq<Cell> {
    Concat(Rows(raw))
  }

  lemma CellsRowMajor(raw: seq<seq<int>>, i: nat, j: nat)
    requires i < |raw| && j < Columns(raw)
    ensures |Cells(raw)| == |raw| * Columns(raw)
    ensures i * Columns(raw) + j < |Cells(raw)| && Cells(raw)[i * Columns(raw) + j] == CellAt(raw, i, j)
  {
    ConcatUniformLength(Rows(raw), Columns(raw));
    ConcatUniformAt(Rows(raw), Columns(raw), i, j);
  }

  /** The inner loop: the cells of row `i`, pushed one by one. */
  method FlattenRow(raw: seq<seq<int>>, i: nat) returns (cells: seq<Cell>)
    requires i < |raw|
    ensures cells == Row(raw, i)
  {
    cells := [];
    for j := 0 to Columns(raw)
      invariant cells == Row(raw, i)[..j]
    {
      var oldId := if i < |raw| - 1 then IntToString(i - 1) else "-";
      var newId := if j < Columns(raw) - 1 then IntToString(j - 1) else "-";
      assert Row(raw, i)[..j + 1] == Row(raw, i)[..j] + [CellAt(raw, i, j)];
      cells := cells + [Cell(oldId, newId, ValueAt(raw, i, j))];
    }
  }

  /** The nested loops building `data`: the cells in row-major order, cell
      `i * cols + j` being that of row `i` and column `j` (`CellsRowMajor`). */
  method Flatten(raw: seq<seq<int>>) returns (data: seq<Cell>)
    ensures data == Cells(raw)
    ensures |data| == |raw| * Columns(raw)
  {
    data := [];
    ghost var rows := Rows(raw);
    for i := 0 to |raw|
      invariant data == Concat(rows[..i])
    {
      var cells := FlattenRow(raw, i);
      ConcatStep(rows, i);
      data := data + cells;
    }
    assert rows[..|raw|] == rows;
    ConcatUniformLength(rows, Columns(raw));
  }

  /** The labels of an axis of `n` positions: "-1" up to `n - 3`, then "-"; an axis
      of no positions still gets the "-". */
  function Labels(n: nat): (r: seq<string>)
    ensures |r| == if n == 0 then 1 else n
  {
    var m := if n == 0 then 1 else n;
    seq(m, k requires 0 <= k < m => IdText(k, m))
  }

  /** The `t0` and `t1` label loops. */
  method AxisLabels(n: nat) returns (labels: seq<string>)
    ensures labels == Labels(n)
    ensures |labels| > 0 && labels[|labels| - 1] == "-"
    ensures forall k :: 0 <= k < |labels| - 1 ==> labels[k] == IntToString(k - 1)
  {
    labels := [];
    var i := -1;
    while i < n - 2
      invariant -1 <= i <= (if n == 0 then -1 else n - 2)
      invariant |labels| == i + 1
      invariant forall k :: 0 <= k < |labels| ==> labels[k] == IntToString(k - 1)
    {
      labels := labels + [IntToString(i)];
      i := i + 1;
    }
    labels := labels + ["-"];
    var m := |labels|;
    assert m == |Labels(n)|;
    forall k | 0 <= k < m ensures labels[k] == Labels(n)[k] {
      assert Labels(n)[k] == IdText(k, m);
    }
  }

  /** `getContingencyTable` on the rows of the table: reading the width of the
      first row of an empty table fails; otherwise the cells and both axes. */
  method GetContingencyTable(raw: seq<seq<int>>) returns (r: Result<Table>)
    ensures r.Failure? <==> |raw| == 0
    ensures r.Failure? ==> r.error == TypeError
    ensures r.Success? ==> r.value == Table(Cells(raw), Labels(Columns(raw)), Labels(|raw|))
  {
    var data := Flatten(raw);
    if |raw| == 0 {
      return Failure(TypeError);
    }
    var t0 := AxisLabels(|raw[0]|);
    var t1 := AxisLabels(|raw|);
    r := Success(Table(data, t0, t1));
  }

  lemma NatToStringStartsWithDigit(n: nat)
    ensures IsDigit(NatToString(n)[0])
  {
  }

  lemma IntToStringIsNotDash(x: int)
    ensures IntToString(x) != "-"
  {
    if x >= 0 {
      NatToStringStartsWithDigit(x);
    }
  }

  /** A label is "-" exactly at the last position, and no two positions share a
      label. */
  lemma LabelsFacts(n: nat)
    ensures forall k :: 0 <= k < |Labels(n)| ==> (Labels(n)[k] == "-" <==> k == |Labels(n)| - 1)
    ensures forall a, b :: 0 <= a < b < |Labels(n)| ==> Labels(n)[a] != Labels(n)[b]
  {
    var ls := Labels(n);
    var m := |ls|;
    forall k | 0 <= k < m ensures ls[k] == "-" <==> k == m - 1 {
      assert ls[k] == IdText(k, m);
      if k < m - 1 {
        IntToStringIsNotDash(k - 1);
      }
    }
    forall a, b | 0 <= a < b < m ensures ls[a] != ls[b] {
      assert ls[a] == IdText(a, m) && ls[b] == IdText(b, m);
      if b < m - 1 {
        if ls[a] == ls[b] {
          IntToStringInjective(a - 1, b - 1);
        }
      } else {
        IntToStringIsNotDash(a - 1);
      }
    }
  }

  /** Every cell's row label is on the y axis at the position of its row, and its
      column label on the x axis at the position of its column; the last row and
      column are exactly those labelled "-". */
  lemma CellIdsInDomains(raw: seq<seq<int>>, i: nat, j: nat)
    requires i < |raw| && j < Columns(raw)
    ensures CellAt(raw, i, j).oldId == Labels(|raw|)[i]
    ensures CellAt(raw, i, j).newId == Labels(Columns(raw))[j]
    ensures CellAt(raw, i, j).oldId == "-" <==> i == |raw| - 1
    ensures CellAt(raw, i, j).newId == "-" <==> j == Columns(raw) - 1
  {
    LabelsFacts(|raw|);
    LabelsFacts(Columns(raw));
  }
}
