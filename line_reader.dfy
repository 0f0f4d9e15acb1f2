/** Building lines from the rows of one ensemble member's file, the dateline fix,
    the per-timestep buckets and their merge across ensemble members. Opening and
    filtering the netCDF files is not modelled: a file arrives as its row groups. */
module LineReader {
  import opened Outcomes
  import opened LineIds

  /** A geographic coordinate, `CoordGeo(lon, lat)`. */
  datatype CoordGeo = CoordGeo(lon: real, lat: real)

  /** A line: its id, its ordered coordinates and its centroid. */
  datatype Line = Line(id: string, coords: seq<CoordGeo>, centroid: CoordGeo)

  /** The rows of one (line id, date) group of a file: the line's local number, the
      hour offset of its date, and its longitude and latitude columns. */
  datatype Group = Group(localId: int, hour: int, lons: seq<real>, lats: seq<real>)

  /** A group as the file grouping yields it: at least one row, both columns of the
      same length. */
  predicate ValidGroup(g: Group) {
    |g.lons| == |g.lats| > 0
  }

  // ---------------------------------------------------------------- dateline fix

  /** One coordinate as the dateline fix leaves it. */
  function Shifted(c: CoordGeo): CoordGeo {
    if c.lon < 0.0 then CoordGeo(c.lon + 360.0, c.lat) else c
  }

  /** The coordinates after the dateline fix, as a value. */
  function DatelineFixed(cs: seq<CoordGeo>): seq<CoordGeo> {
    seq(|cs|, i requires 0 <= i < |cs| => Shifted(cs[i]))
  }

  /** `dateline_fix`: rewrites the list in place and returns that same list. */
  method DatelineFix(coords: array<CoordGeo>) returns (r: array<CoordGeo>)
    modifies coords
    ensures r == coords
    ensures coords[..] == DatelineFixed(old(coords[..]))
  {
    for i := 0 to coords.Length
      invariant forall k :: 0 <= k < i ==> coords[k] == Shifted(old(coords[k]))
      invariant forall k :: i <= k < coords.Length ==> coords[k] == old(coords[k])
    {
      if coords[i].lon < 0.0 {
        coords[i] := CoordGeo(coords[i].lon + 360.0, coords[i].lat);
      }
    }
    r := coords;
  }

  /** Exactly the negative longitudes gain 360; latitudes, the other longitudes and
      the length stay. */
  lemma DatelineFixEffect(cs: seq<CoordGeo>)
    ensures |DatelineFixed(cs)| == |cs|
    ensures forall i :: 0 <= i < |cs| ==>
      DatelineFixed(cs)[i].lat == cs[i].lat &&
      DatelineFixed(cs)[i].lon == (if cs[i].lon < 0.0 then cs[i].lon + 360.0 else cs[i].lon)
  {
  }

  /** With longitudes of at least -360, no negative longitude is left and a second
      fix changes nothing. */
  lemma DatelineFixSettles(cs: seq<CoordGeo>)
    requires forall i :: 0 <= i < |cs| ==> cs[i].lon >= -360.0
    ensures forall i :: 0 <= i < |cs| ==> DatelineFixed(cs)[i].lon >= 0.0
    ensures DatelineFixed(DatelineFixed(cs)) == DatelineFixed(cs)
  {
  }

  function MaxOf(s: seq<real>): real
    requires |s| > 0
  {
    if |s| == 1 then s[0] else var m := MaxOf(s[1..]); if s[0] > m then s[0] else m
  }

  function MinOf(s: seq<real>): real
    requires |s| > 0
  {
    if |s| == 1 then s[0] else var m := MinOf(s[1..]); if s[0] < m then s[0] else m
  }

  /** `max` and `min` are attained and bound every element. */
  lemma {:induction false} MaxMinBounds(s: seq<real>)
    requires |s| > 0
    ensures MaxOf(s) in s && MinOf(s) in s
    ensures forall k :: 0 <= k < |s| ==> MinOf(s) <= s[k] <= MaxOf(s)
  {
    if |s| > 1 {
      MaxMinBounds(s[1..]);
      assert forall k :: 1 <= k < |s| ==> s[k] == s[1..][k - 1];
    }
  }

  /** The readers apply the fix when the longitudes span more than 180 degrees. */
  predicate NeedsDatelineFix(lons: seq<real>)
    requires |lons| > 0
  {
    MaxOf(lons) - MinOf(lons) > 180.0
  }

  /** The span exceeds 180 exactly when two of the longitudes are more than 180 apart. */
  lemma NeedsDatelineFixIff(lons: seq<real>)
    requires |lons| > 0
    ensures NeedsDatelineFix(lons) <==>
      exists i, j :: 0 <= i < |lons| && 0 <= j < |lons| && lons[i] - lons[j] > 180.0
  {
    MaxMinBounds(lons);
    if NeedsDatelineFix(lons) {
      var i :| 0 <= i < |lons| && lons[i] == MaxOf(lons);
      var j :| 0 <= j < |lons| && lons[j] == MinOf(lons);
      assert lons[i] - lons[j] > 180.0;
    }
  }

  // ---------------------------------------------------------------- building lines

  function Zipped(lons: seq<real>, lats: seq<real>): seq<CoordGeo>
    requires |lons| == |lats|
  {
    seq(|lons|, k requires 0 <= k < |lons| => CoordGeo(lons[k], lats[k]))
  }

  /** The coordinates of a group: zipped, then fixed when the span calls for it. */
  function GroupCoords(g: Group): seq<CoordGeo>
    requires ValidGroup(g)
  {
    if NeedsDatelineFix(g.lons) then DatelineFixed(Zipped(g.lons, g.lats))
    else Zipped(g.lons, g.lats)
  }

  /** The line a group becomes; the centroid (a mean of 3D projections) is a parameter. */
  function GroupLine(id: string, g: Group, centroidOf: seq<CoordGeo> -> CoordGeo): Line
    requires ValidGroup(g)
  {
    Line(id, GroupCoords(g), centroidOf(GroupCoords(g)))
  }

  /** The loop body shared by the three readers: zip the columns into a list, apply
      the dateline fix to it in place when the span exceeds 180, attach the centroid. */
  method BuildLine(id: string, g: Group, centroidOf: seq<CoordGeo> -> CoordGeo) returns (line: Line)
    requires ValidGroup(g)
    ensures line == GroupLine(id, g, centroidOf)
  {
    var n := |g.lons|;
    var coords := new CoordGeo[n](k requires 0 <= k < n => CoordGeo(g.lons[k], g.lats[k]));
    assert coords[..] == Zipped(g.lons, g.lats);
    if MaxOf(g.lons) - MinOf(g.lons) > 180.0 {
      coords := DatelineFix(coords);
    }
    line := Line(id, coords[..], centroidOf(coords[..]));
  }

  /** A group's line keeps the id given, one coordinate per row, and each row's
      latitude; a longitude changes only by the dateline shift. */
  lemma GroupLineShape(id: string, g: Group, centroidOf: seq<CoordGeo> -> CoordGeo)
    requires ValidGroup(g)
    ensures GroupLine(id, g, centroidOf).id == id
    ensures |GroupLine(id, g, centroidOf).coords| == |g.lons|
    ensures forall k :: 0 <= k < |g.lons| ==>
      GroupLine(id, g, centroidOf).coords[k].lat == g.lats[k] &&
      GroupLine(id, g, centroidOf).coords[k].lon in {g.lons[k], g.lons[k] + 360.0}
  {
  }

  /** `get_all_lines_in_ens`: every group of the file becomes a line whose id starts
      with the group's hour offset, not with the ensemble number. */
  method GetAllLinesInEns(groups: seq<Group>, centroidOf: seq<CoordGeo> -> CoordGeo)
    returns (lines: seq<Line>)
    requires forall k :: 0 <= k < |groups| ==> ValidGroup(groups[k])
    ensures |lines| == |groups|
    ensures forall k :: 0 <= k < |groups| ==>
      lines[k] == GroupLine(LineId(groups[k].hour, groups[k].localId), groups[k], centroidOf)
  {
    lines := [];
    for k := 0 to |groups|
      invariant |lines| == k
      invariant forall j :: 0 <= j < k ==>
        lines[j] == GroupLine(LineId(groups[j].hour, groups[j].localId), groups[j], centroidOf)
    {
      var line := BuildLine(LineId(groups[k].hour, groups[k].localId), groups[k], centroidOf);
      lines := lines + [line];
    }
  }

  /** The lines of one member's groups, with ids "<member>|<local>", in group order. */
  function MemberLines(ens: int, groups: seq<Group>, centroidOf: seq<CoordGeo> -> CoordGeo): seq<Line>
    requires forall k :: 0 <= k < |groups| ==> ValidGroup(groups[k])
  {
    seq(|groups|, k requires 0 <= k < |groups| => GroupLine(LineId(ens, groups[k].localId), groups[k], centroidOf))
  }

  /** One more group appends its line. */
  lemma MemberLinesStep(ens: int, groups: seq<Group>, k: nat, centroidOf: seq<CoordGeo> -> CoordGeo)
    requires k < |groups|
    requires forall j :: 0 <= j < |groups| ==> ValidGroup(groups[j])
    ensures MemberLines(ens, groups[..k + 1], centroidOf) ==
      MemberLines(ens, groups[..k], centroidOf) + [GroupLine(LineId(ens, groups[k].localId), groups[k], centroidOf)]
  {
    var longer, shorter := MemberLines(ens, groups[..k + 1], centroidOf), MemberLines(ens, groups[..k], centroidOf);
    assert forall j :: 0 <= j < k ==> longer[j] == shorter[j];
  }

  /** The lines of members 0 up to `n`, concatenated in member order. */
  function LinesOfMembers(n: nat, groupsOf: int -> seq<Group>, centroidOf: seq<CoordGeo> -> CoordGeo): seq<Line>
    requires forall i, k :: 0 <= i < n && 0 <= k < |groupsOf(i)| ==> ValidGroup(groupsOf(i)[k])
  {
    if n == 0 then []
    else LinesOfMembers(n - 1, groupsOf, centroidOf) + MemberLines(n - 1, groupsOf(n - 1), centroidOf)
  }

  /** `get_all_lines_at_time`: the groups of members 0..49 at one date (the reading
      and date filtering of file i is `groupsOf(i)`), in member order. */
  method GetAllLinesAtTime(groupsOf: int -> seq<Group>, centroidOf: seq<CoordGeo> -> CoordGeo)
    returns (all: seq<Line>)
    requires forall i, k :: 0 <= i < 50 && 0 <= k < |groupsOf(i)| ==> ValidGroup(groupsOf(i)[k])
    ensures all == LinesOfMembers(50, groupsOf, centroidOf)
  {
    all := [];
    for i := 0 to 50
      invariant all == LinesOfMembers(i, groupsOf, centroidOf)
    {
      var groups := groupsOf(i);
      var done := all;
      for k := 0 to |groups|
        invariant all == done + MemberLines(i, groups[..k], centroidOf)
      {
        var line := BuildLine(LineId(i, groups[k].localId), groups[k], centroidOf);
        MemberLinesStep(i, groups, k, centroidOf);
        all := all + [line];
      }
      assert groups[..|groups|] == groups;
    }
  }

  /** Every line built for member `ens` carries a well-formed id whose prefix is
      that member's number. */
  lemma MemberLinesIds(ens: int, groups: seq<Group>, centroidOf: seq<CoordGeo> -> CoordGeo)
    requires forall k :: 0 <= k < |groups| ==> ValidGroup(groups[k])
    ensures forall k :: 0 <= k < |groups| ==>
      WellFormed(MemberLines(ens, groups, centroidOf)[k].id) &&
      Prefix(MemberLines(ens, groups, centroidOf)[k].id) == Text.IntToString(ens)
  {
    var lines := MemberLines(ens, groups, centroidOf);
    forall k | 0 <= k < |groups|
      ensures WellFormed(lines[k].id) && Prefix(lines[k].id) == Text.IntToString(ens)
    {
      LineIdParts(ens, groups[k].localId);
    }
  }

  // ---------------------------------------------------------------- timesteps

  /** The hour offsets of a forecast: every 3 hours up to 72, then every 6 up to 240. */
  function Times(): seq<int> {
    seq(25, k requires 0 <= k < 25 => 3 * k) + seq(28, k requires 0 <= k < 28 => 78 + 6 * k)
  }

  predicate IsTime(t: int) {
    (0 <= t <= 72 && t % 3 == 0) || (78 <= t <= 240 && t % 6 == 0)
  }

  /** The key list has 53 entries, strictly increasing, and holds exactly the times
      described by `IsTime`. */
  lemma TimesShape()
    ensures |Times()| == 53
    ensures forall i, j :: 0 <= i < j < 53 ==> Times()[i] < Times()[j]
    ensures forall t :: t in Times() <==> IsTime(t)
  {
    var ts := Times();
    forall t | IsTime(t) ensures t in ts {
      if t <= 72 { assert ts[t / 3] == t; } else { assert ts[25 + (t - 78) / 6] == t; }
    }
  }

  /** `{t: [] for t in times}`. */
  function EmptyBuckets(): (m: map<int, seq<Line>>)
    ensures forall t :: t in m ==> m[t] == []
  {
    map t | t in Times() :: []
  }

  /** The buckets are keyed by exactly the forecast's hour offsets. */
  lemma EmptyBucketsKeys()
    ensures forall t :: t in EmptyBuckets() <==> IsTime(t)
  {
    TimesShape();
  }

  /** The lines of a member's groups whose hour is `t`, in group order. */
  function LinesAt(ens: int, groups: seq<Group>, t: int, centroidOf: seq<CoordGeo> -> CoordGeo): seq<Line>
    requires forall k :: 0 <= k < |groups| ==> ValidGroup(groups[k])
  {
    if |groups| == 0 then []
    else
      var g := groups[|groups| - 1];
      LinesAt(ens, groups[..|groups| - 1], t, centroidOf)
      + (if g.hour == t then [GroupLine(LineId(ens, g.localId), g, centroidOf)] else [])
  }

  lemma LinesAtStep(ens: int, groups: seq<Group>, k: nat, centroidOf: seq<CoordGeo> -> CoordGeo)
    requires k < |groups|
    requires forall j :: 0 <= j < |groups| ==> ValidGroup(groups[j])
    ensures forall t :: (LinesAt(ens, groups[..k + 1], t, centroidOf) ==
      LinesAt(ens, groups[..k], t, centroidOf) +
      (if groups[k].hour == t then [GroupLine(LineId(ens, groups[k].localId), groups[k], centroidOf)] else []))
  {
    assert groups[..k + 1][..k] == groups[..k];
  }

  /** Appending group `k`'s line to the bucket of its hour extends every bucket by
      that group. */
  lemma BucketsStep(ens: int, groups: seq<Group>, k: nat, centroidOf: seq<CoordGeo> -> CoordGeo,
                    start: map<int, seq<Line>>, buckets: map<int, seq<Line>>)
    requires k < |groups| && groups[k].hour in buckets && buckets.Keys == start.Keys
    requires forall j :: 0 <= j < |groups| ==> ValidGroup(groups[j])
    requires forall t :: t in buckets ==> buckets[t] == start[t] + LinesAt(ens, groups[..k], t, centroidOf)
    ensures var g := groups[k];
      var next := buckets[g.hour := buckets[g.hour] + [GroupLine(LineId(ens, g.localId), g, centroidOf)]];
      forall t :: t in next ==> next[t] == start[t] + LinesAt(ens, groups[..k + 1], t, centroidOf)
  {
    var g := groups[k];
    var line := GroupLine(LineId(ens, g.localId), g, centroidOf);
    var next := buckets[g.hour := buckets[g.hour] + [line]];
    LinesAtStep(ens, groups, k, centroidOf);
    forall t | t in next ensures next[t] == start[t] + LinesAt(ens, groups[..k + 1], t, centroidOf) {
      if t == g.hour {
        assert next[t] == start[t] + LinesAt(ens, groups[..k], t, centroidOf) + [line];
      } else {
        assert next[t] == buckets[t];
      }
    }
  }

  /** Group `k` is the first whose hour is not a key. */
  predicate FirstMissing(groups: seq<Group>, keys: map<int, seq<Line>>, k: int) {
    0 <= k < |groups| && groups[k].hour !in keys && forall j :: 0 <= j < k ==> groups[j].hour in keys
  }

  /** The loop of `process_single_file`: each group's line is appended to the
      bucket of its hour; a group whose hour is not a key raises a KeyError. */
  method FillBuckets(ens: int, groups: seq<Group>, centroidOf: seq<CoordGeo> -> CoordGeo,
                     start: map<int, seq<Line>>)
    returns (r: Result<map<int, seq<Line>>>)
    requires forall k :: 0 <= k < |groups| ==> ValidGroup(groups[k])
    ensures r.Success? <==> forall k :: 0 <= k < |groups| ==> groups[k].hour in start
    ensures r.Failure? ==> exists k :: FirstMissing(groups, start, k) && r.error == KeyError(groups[k].hour)
    ensures r.Success? ==> r.value.Keys == start.Keys
    ensures r.Success? ==> forall t :: t in start ==>
      r.value[t] == start[t] + LinesAt(ens, groups, t, centroidOf)
  {
    var buckets := start;
    for k := 0 to |groups|
      invariant buckets.Keys == start.Keys
      invariant forall j :: 0 <= j < k ==> groups[j].hour in start
      invariant forall t :: t in buckets ==> buckets[t] == start[t] + LinesAt(ens, groups[..k], t, centroidOf)
    {
      var g := groups[k];
      if g.hour !in buckets {
        assert FirstMissing(groups, start, k);
        return Failure(KeyError(g.hour));
      }
      assert forall j :: 0 <= j < k + 1 ==> groups[j].hour in start by {
        assert g.hour in start;
      }
      var line := BuildLine(LineId(ens, g.localId), g, centroidOf);
      BucketsStep(ens, groups, k, centroidOf, start, buckets);
      buckets := buckets[g.hour := buckets[g.hour] + [line]];
    }
    assert groups[..|groups|] == groups;
    r := Success(buckets);
  }

  /** `process_single_file`: one member's lines bucketed by hour offset. A group whose
      hour is not one of the offsets raises a KeyError. */
  method ProcessSingleFile(ens: int, groups: seq<Group>, centroidOf: seq<CoordGeo> -> CoordGeo)
    returns (r: Result<map<int, seq<Line>>>)
    requires forall k :: 0 <= k < |groups| ==> ValidGroup(groups[k])
    ensures r.Success? <==> forall k :: 0 <= k < |groups| ==> IsTime(groups[k].hour)
    ensures r.Failure? ==> exists k :: (0 <= k < |groups| && !IsTime(groups[k].hour) &&
      r.error == KeyError(groups[k].hour) &&
      forall j :: 0 <= j < k ==> IsTime(groups[j].hour))
    ensures r.Success? ==> (forall t :: t in r.value <==> IsTime(t))
    ensures r.Success? ==> forall t :: t in r.value ==> r.value[t] == LinesAt(ens, groups, t, centroidOf)
  {
    var lines := EmptyBuckets();
    r := FillBuckets(ens, groups, centroidOf, lines);
    EmptyBucketsKeys();
  }

  /** The lines of bucket `t` across the first `n` member maps, in member order. */
  function ConcatAt(dicts: seq<map<int, seq<Line>>>, t: int): seq<Line>
    requires forall k :: 0 <= k < |dicts| ==> t in dicts[k]
  {
    if |dicts| == 0 then [] else ConcatAt(dicts[..|dicts| - 1], t) + dicts[|dicts| - 1][t]
  }

  /** The inner loop of `get_all_lines`: every bucket of `merged` is extended by the
      same bucket of `d`. */
  method AddBuckets(merged: map<int, seq<Line>>, d: map<int, seq<Line>>) returns (out: map<int, seq<Line>>)
    requires merged.Keys <= d.Keys
    ensures out.Keys == merged.Keys
    ensures forall t :: t in out ==> out[t] == merged[t] + d[t]
  {
    out := merged;
    var todo := merged.Keys;
    while todo != {}
      invariant todo <= merged.Keys && out.Keys == merged.Keys
      invariant forall t :: t in todo ==> out[t] == merged[t]
      invariant forall t :: t in out && t !in todo ==> out[t] == merged[t] + d[t]
      decreases todo
    {
      var t := Pick(todo);
      out := out[t := out[t] + d[t]];
      todo := todo - {t};
    }
  }

  /** `get_all_lines`: the 50 per-member maps merged by concatenating bucket by
      bucket onto the first map's buckets. */
  method GetAllLines(dicts: seq<map<int, seq<Line>>>) returns (merged: map<int, seq<Line>>)
    requires |dicts| > 0
    requires forall k :: 0 <= k < |dicts| ==> dicts[0].Keys <= dicts[k].Keys
    ensures merged.Keys == dicts[0].Keys
    ensures forall t :: t in merged ==> merged[t] == ConcatAt(dicts, t)
  {
    merged := dicts[0];
    assert forall t :: t in merged ==> ConcatAt(dicts[..1], t) == dicts[0][t] by {
      forall t | t in merged ensures ConcatAt(dicts[..1], t) == dicts[0][t] {
        assert dicts[..1][..0] == [];
      }
    }
    for k := 1 to |dicts|
      invariant merged.Keys == dicts[0].Keys
      invariant forall t :: t in merged ==> merged[t] == ConcatAt(dicts[..k], t)
    {
      assert dicts[..k + 1][..k] == dicts[..k];
      merged := AddBuckets(merged, dicts[k]);
    }
    assert dicts[..|dicts|] == dicts;
  }

  /** Merging loses and invents no line: a line is in the merged bucket exactly when
      some member's bucket holds it, and the bucket sizes add up. */
  lemma {:induction false} ConcatAtContents(dicts: seq<map<int, seq<Line>>>, t: int)
    requires forall k :: 0 <= k < |dicts| ==> t in dicts[k]
    ensures forall line :: line in ConcatAt(dicts, t) <==>
      exists k :: 0 <= k < |dicts| && line in dicts[k][t]
    ensures |ConcatAt(dicts, t)| == SizeAt(dicts, t)
  {
    if |dicts| > 0 {
      var front := dicts[..|dicts| - 1];
      ConcatAtContents(front, t);
      forall line | line in ConcatAt(dicts, t)
        ensures exists k :: 0 <= k < |dicts| && line in dicts[k][t]
      {
        if line in ConcatAt(front, t) {
          var k :| 0 <= k < |front| && line in front[k][t];
          assert dicts[k] == front[k];
        }
      }
      forall line, k | 0 <= k < |dicts| && line in dicts[k][t]
        ensures line in ConcatAt(dicts, t)
      {
        if k < |dicts| - 1 {
          assert front[k] == dicts[k];
        }
      }
    }
  }

  /** The total number of lines in bucket `t` of the maps. */
  function SizeAt(dicts: seq<map<int, seq<Line>>>, t: int): nat
    requires forall k :: 0 <= k < |dicts| ==> t in dicts[k]
  {
    if |dicts| == 0 then 0 else SizeAt(dicts[..|dicts| - 1], t) + |dicts[|dicts| - 1][t]|
  }

  // ---------------------------------------------------------------- serialisation

  datatype LonLat = LonLat(lon: real, lat: real)

  /** The dictionary `Line.to_dict` builds. */
  datatype LineDict = LineDict(id: string, coords: seq<LonLat>, centroid: LonLat)

  function ToDict(l: Line): LineDict {
    LineDict(l.id,
             seq(|l.coords|, i requires 0 <= i < |l.coords| => LonLat(l.coords[i].lon, l.coords[i].lat)),
             LonLat(l.centroid.lon, l.centroid.lat))
  }

  function FromDict(d: LineDict): Line {
    Line(d.id,
         seq(|d.coords|, i requires 0 <= i < |d.coords| => CoordGeo(d.coords[i].lon, d.coords[i].lat)),
         CoordGeo(d.centroid.lon, d.centroid.lat))
  }

  /** `to_dict` keeps the id and the coordinates, their number and their order: the
      line can be read back from it. */
  lemma ToDictRoundTrip(l: Line)
    ensures ToDict(l).id == l.id && |ToDict(l).coords| == |l.coords|
    ensures forall i :: 0 <= i < |l.coords| ==>
      ToDict(l).coords[i].lon == l.coords[i].lon && ToDict(l).coords[i].lat == l.coords[i].lat
    ensures FromDict(ToDict(l)) == l
  {
    assert FromDict(ToDict(l)).coords == l.coords;
  }
}
