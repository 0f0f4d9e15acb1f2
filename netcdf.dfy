/** Reading lines from the flat per-member netCDF variables of the Go server. A
    member's file holds four parallel arrays (latitude, longitude, line id, date);
    the rows at the requested date are grouped into lines numbered from 1, and the
    scan stops at the first row of a later date. Opening and decoding the files is
    I/O and is a parameter `read` here. */
module NetCdf {
  import opened Outcomes
  import opened Sequences
  import opened LineIds
  import opened Geo

  /** The number of ensemble members read by `GetAllLines`. */
  const Members := 50

  /** The four variables of one member's file. */
  datatype Rows = Rows(lats: seq<real>, lons: seq<real>, ids: seq<int>, dates: seq<int>)

  /** The lines after row `i` has added its point: a fresh line first when the id
      exceeds the number of lines. */
  function Placed(ensId: int, rows: Rows, i: nat, lines: seq<Line>): seq<Line>
    requires i < |rows.ids| && i < |rows.lats| && i < |rows.lons| && 1 <= rows.ids[i] <= |lines| + 1
  {
    var id := rows.ids[i];
    var grown := if |lines| < id then lines + [Line(LineId(ensId, id), [])] else lines;
    grown[id - 1 := grown[id - 1].(coords := grown[id - 1].coords + [CoordGeo(rows.lats[i], rows.lons[i])])]
  }

  /** The row loop of `getLines` from row `i`, with the lines built so far. A row at
      `time` appends a fresh line when its id exceeds the number of lines, and then
      adds its point to line `id - 1`; an index outside a slice is a panic at that
      row. The first row of a later date ends the scan. */
  function Scan(ensId: int, time: int, rows: Rows, i: nat, lines: seq<Line>): Result<seq<Line>>
    decreases |rows.ids| - i
  {
    if i >= |rows.ids| then Success(lines)
    else if i >= |rows.dates| then Failure(IndexPanic(i))
    else if rows.dates[i] == time then
      var id := rows.ids[i];
      if id < 1 || id > |lines| + 1 || i >= |rows.lats| || i >= |rows.lons| then Failure(IndexPanic(i))
      else Scan(ensId, time, rows, i + 1, Placed(ensId, rows, i, lines))
    else if rows.dates[i] > time then Success(lines)
    else Scan(ensId, time, rows, i + 1, lines)
  }

  /** The row loop of `getLines`. */
  method GroupRows(ensId: int, time: int, rows: Rows) returns (r: Result<seq<Line>>)
    ensures r == Scan(ensId, time, rows, 0, [])
  {
    var lines: seq<Line> := [];
    var i := 0;
    while i < |rows.ids|
      invariant i <= |rows.ids|
      invariant Scan(ensId, time, rows, 0, []) == Scan(ensId, time, rows, i, lines)
      decreases |rows.ids| - i
    {
      if i >= |rows.dates| {
        return Failure(IndexPanic(i));
      }
      if rows.dates[i] == time {
        var id := rows.ids[i];
        if |lines| < id {
          lines := lines + [Line(LineId(ensId, id), [])];
        }
        if id < 1 || id > |lines| || i >= |rows.lats| || i >= |rows.lons| {
          return Failure(IndexPanic(i));
        }
        lines := lines[id - 1 := lines[id - 1].(coords := lines[id - 1].coords + [CoordGeo(rows.lats[i], rows.lons[i])])];
      } else if rows.dates[i] > time {
        break;
      }
      i := i + 1;
    }
    r := Success(lines);
  }

  /** The first row the scan from `i` does not pass: the end, a row without a date,
      or the first row of a later date. */
  function Stop(time: int, rows: Rows, i: nat): (s: nat)
    ensures i <= s && (i <= |rows.ids| ==> s <= |rows.ids|)
    decreases |rows.ids| - i
  {
    if i >= |rows.ids| || i >= |rows.dates| || rows.dates[i] > time then i else Stop(time, rows, i + 1)
  }

  /** The points, in row order, of the first `n` rows that are at `time` and carry
      line id `id`. */
  function Picked(time: int, rows: Rows, n: nat, id: int): seq<CoordGeo> {
    if n == 0 then []
    else
      var j := n - 1;
      Picked(time, rows, j, id) +
      (if j < |rows.ids| && j < |rows.dates| && j < |rows.lats| && j < |rows.lons| &&
          rows.dates[j] == time && rows.ids[j] == id
       then [CoordGeo(rows.lats[j], rows.lons[j])] else [])
  }

  /** After the first `i` rows: line `k` is named `"<ensId>|<k + 1>"` and holds the
      points of the rows with id `k + 1`, and no row so far has any other id. */
  ghost predicate Built(ensId: int, time: int, rows: Rows, i: nat, lines: seq<Line>) {
    (forall k :: 0 <= k < |lines| ==> lines[k] == Line(LineId(ensId, k + 1), Picked(time, rows, i, k + 1))) &&
    (forall id :: (id < 1 || id > |lines|) ==> Picked(time, rows, i, id) == [])
  }

  lemma PickedStep(time: int, rows: Rows, n: nat, x: int)
    ensures Picked(time, rows, n + 1, x) == Picked(time, rows, n, x) +
      (if n < |rows.ids| && n < |rows.dates| && n < |rows.lats| && n < |rows.lons| &&
          rows.dates[n] == time && rows.ids[n] == x
       then [CoordGeo(rows.lats[n], rows.lons[n])] else [])
  {
  }

  /** A row at another date than `time` changes nothing. */
  lemma BuiltSkip(ensId: int, time: int, rows: Rows, i: nat, lines: seq<Line>)
    requires i < |rows.ids| && i < |rows.dates| && rows.dates[i] != time
    requires Built(ensId, time, rows, i, lines)
    ensures Built(ensId, time, rows, i + 1, lines)
  {
    var j := i + 1;
    forall x ensures Picked(time, rows, j, x) == Picked(time, rows, i, x) {
      PickedStep(time, rows, i, x);
    }
  }

  /** One row at `time` with an id that does not skip ahead. */
  lemma BuiltStep(ensId: int, time: int, rows: Rows, i: nat, lines: seq<Line>)
    requires i < |rows.ids| && i < |rows.dates| && i < |rows.lats| && i < |rows.lons| && rows.dates[i] == time
    requires Built(ensId, time, rows, i, lines)
    requires 1 <= rows.ids[i] <= |lines| + 1
    ensures Built(ensId, time, rows, i + 1, Placed(ensId, rows, i, lines))
  {
    var id := rows.ids[i];
    var next := Placed(ensId, rows, i, lines);
    var j := i + 1;
    forall k | 0 <= k < |next| ensures next[k] == Line(LineId(ensId, k + 1), Picked(time, rows, j, k + 1)) {
      PickedStep(time, rows, i, k + 1);
      if k == |lines| {
        assert Picked(time, rows, i, k + 1) == [];
      }
    }
    forall x | x < 1 || x > |next| ensures Picked(time, rows, j, x) == [] {
      PickedStep(time, rows, i, x);
    }
  }

  /** A scan that succeeds stops at the end or at the first row of a later date. */
  lemma {:induction false} ScanStops(ensId: int, time: int, rows: Rows, i: nat, lines: seq<Line>)
    requires Scan(ensId, time, rows, i, lines).Success?
    ensures var s := Stop(time, rows, i);
      s >= |rows.ids| || (s < |rows.dates| && rows.dates[s] > time)
    decreases |rows.ids| - i
  {
    if i < |rows.ids| && rows.dates[i] == time {
      ScanStops(ensId, time, rows, i + 1, Placed(ensId, rows, i, lines));
    } else if i < |rows.ids| && rows.dates[i] < time {
      ScanStops(ensId, time, rows, i + 1, lines);
    }
  }

  /** A scan that succeeds yields lines built from exactly the rows before its
      stop. */
  lemma {:induction false} ScanBuilds(ensId: int, time: int, rows: Rows, i: nat, lines: seq<Line>, out: seq<Line>, s: nat)
    requires Built(ensId, time, rows, i, lines)
    requires Scan(ensId, time, rows, i, lines) == Success(out) && s == Stop(time, rows, i)
    ensures Built(ensId, time, rows, s, out)
    decreases |rows.ids| - i
  {
    if i < |rows.ids| && i < |rows.dates| && rows.dates[i] <= time {
      var next := ScanAdvance(ensId, time, rows, i, lines, out, s);
      ScanBuilds(ensId, time, rows, i + 1, next, out, s);
    }
  }

  /** A row the scan passes keeps the lines built. */
  lemma ScanAdvance(ensId: int, time: int, rows: Rows, i: nat, lines: seq<Line>, out: seq<Line>, s: nat)
    returns (next: seq<Line>)
    requires i < |rows.ids| && i < |rows.dates| && rows.dates[i] <= time
    requires Built(ensId, time, rows, i, lines)
    requires Scan(ensId, time, rows, i, lines) == Success(out) && s == Stop(time, rows, i)
    ensures Built(ensId, time, rows, i + 1, next)
    ensures Scan(ensId, time, rows, i + 1, next) == Success(out) && s == Stop(time, rows, i + 1)
  {
    if rows.dates[i] == time {
      BuiltStep(ensId, time, rows, i, lines);
      next := Placed(ensId, rows, i, lines);
    } else {
      BuiltSkip(ensId, time, rows, i, lines);
      next := lines;
    }
  }

  /** A scan that fails panics at a row before its stop that is at `time`, or at the
      first row without a date. */
  lemma {:induction false} ScanPanics(ensId: int, time: int, rows: Rows, i: nat, lines: seq<Line>)
    requires Scan(ensId, time, rows, i, lines).Failure?
    ensures var e := Scan(ensId, time, rows, i, lines).error;
      e.IndexPanic? && i <= e.row <= Stop(time, rows, i) && e.row < |rows.ids| &&
      (e.row >= |rows.dates| || rows.dates[e.row] == time)
    decreases |rows.ids| - i
  {
    if i < |rows.ids| && i < |rows.dates| && rows.dates[i] <= time {
      var id := rows.ids[i];
      if rows.dates[i] < time {
        ScanPanics(ensId, time, rows, i + 1, lines);
      } else if 1 <= id && id <= |lines| + 1 && i < |rows.lats| && i < |rows.lons| {
        ScanPanics(ensId, time, rows, i + 1, Placed(ensId, rows, i, lines));
      }
    }
  }

  /** What `getLines` promises on success: line `k` is `"<ensId>|<k + 1>"` with the
      points, in row order, of the rows at `time` with id `k + 1` before the first row
      of a later date, and no such row has an id outside `1 .. |lines|`. */
  lemma GroupRowsFacts(ensId: int, time: int, rows: Rows)
    requires Scan(ensId, time, rows, 0, []).Success?
    ensures var lines := Scan(ensId, time, rows, 0, []).value;
      var s := Stop(time, rows, 0);
      (forall k :: 0 <= k < |lines| ==> lines[k].id == LineId(ensId, k + 1) && lines[k].coords == Picked(time, rows, s, k + 1)) &&
      (forall id :: (id < 1 || id > |lines|) ==> Picked(time, rows, s, id) == []) &&
      (s == |rows.ids| || (s < |rows.dates| && rows.dates[s] > time))
  {
    ScanBuilds(ensId, time, rows, 0, [], Scan(ensId, time, rows, 0, []).value, Stop(time, rows, 0));
    ScanStops(ensId, time, rows, 0, []);
  }

  // ---------------------------------------------------------------------------
  // GetAllLines

  /** `getLines` of one member: the file is read, then its rows are grouped. */
  function MemberLines(read: int -> Result<Rows>, time: int, i: int): Result<seq<Line>> {
    match read(i)
    case Failure(e) => Failure(e)
    case Success(rows) => Scan(i, time, rows, 0, [])
  }

  /** The members `0 .. n - 1` one after the other, stopping at the first error. */
  function AllLines(read: int -> Result<Rows>, time: int, n: nat): Result<seq<Line>> {
    if n == 0 then Success([])
    else
      match AllLines(read, time, n - 1)
      case Failure(e) => Failure(e)
      case Success(ls) =>
        match MemberLines(read, time, n - 1)
        case Failure(e) => Failure(e)
        case Success(more) => Success(ls + more)
  }

  method GetLines(read: int -> Result<Rows>, ensId: int, time: int) returns (r: Result<seq<Line>>)
    ensures r == MemberLines(read, time, ensId)
  {
    var file := read(ensId);
    if file.Failure? {
      return Failure(file.error);
    }
    r := GroupRows(ensId, time, file.value);
  }

  lemma {:induction false} FailureSticks(read: int -> Result<Rows>, time: int, n: nat, m: nat)
    requires n <= m && AllLines(read, time, n).Failure?
    ensures AllLines(read, time, m) == AllLines(read, time, n)
    decreases m - n
  {
    if n < m {
      FailureSticks(read, time, n, m - 1);
    }
  }

  /** `GetAllLines`: every member's lines in member order, or the first error. */
  method GetAllLines(read: int -> Result<Rows>, time: int) returns (r: Result<seq<Line>>)
    ensures r == AllLines(read, time, Members)
  {
    var allLines: seq<Line> := [];
    for i := 0 to Members
      invariant AllLines(read, time, i) == Success(allLines)
    {
      var lines := GetLines(read, i, time);
      if lines.Failure? {
        FailureSticks(read, time, i + 1, Members);
        return Failure(lines.error);
      }
      allLines := allLines + lines.value;
    }
    r := Success(allLines);
  }

  /** The lines of every member, when all of them succeed. */
  function MemberValues(read: int -> Result<Rows>, time: int, n: nat): (r: seq<seq<Line>>)
    requires forall i :: 0 <= i < n ==> MemberLines(read, time, i).Success?
    ensures |r| == n
  {
    if n == 0 then [] else MemberValues(read, time, n - 1) + [MemberLines(read, time, n - 1).value]
  }

  /** The reading succeeds exactly when every member succeeds. */
  lemma {:induction false} AllLinesSucceeds(read: int -> Result<Rows>, time: int, n: nat)
    ensures AllLines(read, time, n).Success? <==> forall i :: 0 <= i < n ==> MemberLines(read, time, i).Success?
  {
    if n > 0 {
      AllLinesSucceeds(read, time, n - 1);
    }
  }

  /** It then yields the concatenation of the members' lines in member order. */
  lemma {:induction false} AllLinesValue(read: int -> Result<Rows>, time: int, n: nat)
    requires forall i :: 0 <= i < n ==> MemberLines(read, time, i).Success?
    ensures AllLines(read, time, n) == Success(Concat(MemberValues(read, time, n)))
  {
    if n > 0 {
      AllLinesValue(read, time, n - 1);
      var vs := MemberValues(read, time, n);
      assert vs[..n - 1] == MemberValues(read, time, n - 1);
    }
  }

  /** Otherwise it yields the error of the first member that fails. */
  lemma {:induction false} AllLinesFirstFailure(read: int -> Result<Rows>, time: int, n: nat)
    requires AllLines(read, time, n).Failure?
    ensures exists i :: 0 <= i < n && AllLines(read, time, n) == MemberLines(read, time, i) &&
                        forall j :: 0 <= j < i ==> MemberLines(read, time, j).Success?
  {
    if AllLines(read, time, n - 1).Failure? {
      AllLinesFirstFailure(read, time, n - 1);
    } else {
      AllLinesSucceeds(read, time, n - 1);
      assert AllLines(read, time, n) == MemberLines(read, time, n - 1);
    }
  }
}
