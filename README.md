# INF319-Project in Dafny: line clustering, tracking and navigation

This project models the rule-based core of the INF319 ensemble-forecast viewer.
The viewer reads the jet-axis or mean-tropopause-axis lines of 50 ensemble
members. It links lines that run close to each other, clusters those links into
networks, and compares the clusters of one timestep with those of the next in a
contingency table. A web page steps through the timesteps. The model covers:

- **Reading lines** (`LineReader`, `LineIds`). This covers the dateline fix and the
  rule for when it applies, the `"member|line"` and `"hour|line"` ids, the
  53 forecast hour offsets, the per-timestep buckets of one member's file, and
  their merge across members by concatenation.
- **Proximity** (`Proximity`). This covers the three-point `nearby_check`, the
  per-point minimum distances, the coarse closeness filter (which skips the query
  line itself), the close-point ratio, and the qualifying connections of a line.
  Both network builders share this code.
- **The current network builder** (`ClusterNetwork`, from `webview/data.py`). It
  builds the connection set, numbers the connected components by smallest line
  id in descending order, reserves one line per ensemble member and cluster, and
  sends every other line to `-1`. The reservation loop takes a `Rule`: `AsWritten`
  is the code's retain test, and `Corrected` also turns away an edge joining two
  lines of one ensemble member (see Findings). Every property of the assignment
  holds under both rules, except that both ends of a retained edge get its cluster,
  which holds only under `Corrected`. The graph library is not modelled: its edge
  list and components are inputs that satisfy `GraphOf` and `ComponentsOf`.
- **The earlier network builder** (`EarlyNetwork`, from `data.py`). It is a
  first-touch state machine with a fresh-cluster counter.
- **Tracking** (`Tracking`, from `tracking.py`). This covers the unmatched t1 ids,
  the concatenated matches, the sorted union of cluster ids, and the contingency
  counts.
- **The older sigma prototype** (`SigmaData`, `Geo`, `GoNetwork`, `NetCdf`). This
  covers the centre-distance links and the geometric centre of `sigma/data.py`,
  and the Go server's coordinate buffers, squared distance, capped per-point
  minimum distances, netCDF row grouping and member concatenation.
- **The application** (`App`, from `_app.py`). This covers the settings
  defaults, the storage key, the next-timestep rule, lookup-or-compute, and the
  three JSON stores as maps.
- **The web page** (`Navigation`, from `assets/src/main.ts`, and
  `ContingencyTable`, from both `contingencyTable.ts` files). This covers the
  previous/next state machine with its button flags, the row-major flattening
  of the table into labelled cells, and the axis labels.

Shared pieces:

- `Outcomes` holds the error paths: a Python `KeyError`, an index panic in Go, a
  failed member read, and a JavaScript `TypeError`.
- `Text` holds decimal text for integers and Python's string ordering.
- `Sequences` holds the concatenation of lists.

Some behaviour the proofs bring out, beyond what the source states:

- Under one set of settings, the storage key tells timesteps apart
  (`App.KeyTimestepInjective`). Across settings it does not
  (`App.KeyCollision`): timestep 3 at threshold 35 and timestep 33 at threshold 5
  share a key.
- `nearby_check` is called with `max_dist * 3` against distances between points of
  the unit sphere, which are at most 2. For any threshold of at least 1 it
  therefore passes every pair (`Proximity.NearbyCheckVacuous`). The model keeps
  the code's threshold.
- The axis labels of the contingency table name positions, not cluster ids. They
  read `-1, 0, …` whatever ids the table was built from.
- `get_timestep_data` asked for the last timestep, 240, would look for timestep
  246, which no file holds. The page never asks for it, because its offsets stop
  at 234 (`Navigation.RightPaneIsNextTimestep`).

## Model

| member | source | states |
|---|---|---|
| `Outcomes.Pick` | tracking.py:60 | picks some element of a non-empty set; which element is not modelled |
| `Text.NatToString` | _app.py:168 | the decimal text of a natural number is non-empty and all digits |
| `Text.NatRoundTrip` | _app.py:168 | reading back the decimal text of a natural number gives the number |
| `Text.IntRoundTrip` | _app.py:168 | reading back `str(i)` gives `i`, so `str` of an integer loses nothing |
| `Text.IntToStringInjective` | _app.py:168 | two integers with the same decimal text are equal |
| `Text.IntToStringHasNoBar` | webview/line_reader.py:191 | the decimal text of an integer never contains the `|` separator |
| `Text.BelowTotal` | webview/data.py:212 | Python's string order is total: two strings are equal or one is below the other |
| `Text.BelowTransitive` | webview/data.py:212 | Python's string order is transitive |
| `Text.BelowIrreflexive` | webview/data.py:212 | no string is below itself |
| `Text.BelowAsymmetric` | webview/data.py:212 | no two strings are each below the other |
| `Sequences.ConcatMember` | tracking.py:58 | an element is in the concatenation of lists exactly when it is in one of them |
| `Sequences.ConcatMembers` | webview/line_reader.py:205-208 | the elements of a concatenation are exactly those of its lists |
| `Sequences.ConcatUniformAt` | assets/src/contingencyTable.ts:15-22 | concatenating rows of one width `w` puts element `j` of row `i` at `i * w + j` |
| `Sequences.ConcatUniformLength` | assets/src/contingencyTable.ts:15-22 | rows of one width `w` concatenate to `rows * w` elements |
| `LineIds.LineIdParts` | webview/line_reader.py:191 | `"{ens}\|{line}"` is well formed, and splitting it at `|` gives back the two numbers' texts |
| `LineIds.LineIdInjective` | webview/line_reader.py:107 | two lines get the same id only if both the member and the line number agree |
| `LineIds.Decompose` | webview/data.py:220-221 | a well-formed id is its prefix, `|`, and its local part, as `split("\|")` cuts it |
| `LineIds.PartsDetermineId` | webview/data.py:229-230 | two ids with the same prefix and local part are the same id |
| `LineIds.BarIndexOfJoin` | webview/data.py:220 | in `x + "\|" + y` with no bar in `x`, the first bar is at `\|x\|` |
| `LineIds.BarIndex` | webview/data.py:220 | the position of the first `\|`, or the length when there is none |
| `LineReader.DatelineFix` | webview/line_reader.py:214-224 | rewrites the array in place to the fixed coordinates and returns that same array |
| `LineReader.DatelineFixEffect` | webview/line_reader.py:220-222 | adds 360 to exactly the negative longitudes; latitudes, other longitudes and the length are unchanged |
| `LineReader.DatelineFixSettles` | webview/line_reader.py:220-222 | for longitudes of at least -360, no negative longitude remains, and fixing twice equals fixing once |
| `LineReader.MaxMinBounds` | webview/line_reader.py:97 | `max` and `min` of a non-empty column are elements of it and bound every element |
| `LineReader.NeedsDatelineFixIff` | webview/line_reader.py:97-98 | the fix applies exactly when two longitudes of the line differ by more than 180 |
| `LineReader.BuildLine` | webview/line_reader.py:177-191 | builds the line of one row group: zipped coordinates, fixed when the span exceeds 180 |
| `LineReader.GroupLineShape` | webview/line_reader.py:177-183 | the line keeps its id, has one coordinate per row, keeps each latitude, and each longitude is unchanged or shifted by 360 |
| `LineReader.GetAllLinesInEns` | webview/line_reader.py:137-155 | one line per group, in order, with id `"{hour}\|{line}"` |
| `LineReader.MemberLinesStep` | webview/line_reader.py:91-107 | each further group appends exactly its own line |
| `LineReader.MemberLinesIds` | webview/line_reader.py:107 | every id of a member's lines is well formed and has the member number as prefix |
| `LineReader.GetAllLinesAtTime` | webview/line_reader.py:70-109 | the lines of members 0..49, concatenated in member order |
| `LineReader.TimesShape` | webview/line_reader.py:159 | the keys are 53 strictly increasing offsets, exactly 0,3,…,72 and 78,84,…,240 |
| `LineReader.EmptyBuckets` | webview/line_reader.py:160 | every bucket starts empty |
| `LineReader.EmptyBucketsKeys` | webview/line_reader.py:160 | the buckets are keyed by exactly the forecast's offsets |
| `LineReader.LinesAtStep` | webview/line_reader.py:175-191 | a further group adds its line to the bucket of its own hour only |
| `LineReader.BucketsStep` | webview/line_reader.py:191 | appending one group's line keeps every bucket equal to its start plus the lines of its hour so far |
| `LineReader.FillBuckets` | webview/line_reader.py:175-191 | succeeds iff every hour has a bucket, each bucket then gaining its hour's lines in order; otherwise a `KeyError` for the first hour without one |
| `LineReader.ProcessSingleFile` | webview/line_reader.py:158-193 | succeeds iff every group's hour is a forecast offset; the buckets then hold exactly the offsets, each with that hour's lines in group order |
| `LineReader.AddBuckets` | webview/line_reader.py:207-208 | each bucket gains the member's list at its end; the keys stay those of the first member |
| `LineReader.GetAllLines` | webview/line_reader.py:205-210 | each bucket is the concatenation of the per-member lists, in member order (50 members in the source) |
| `LineReader.ConcatAtContents` | webview/line_reader.py:205-208 | a merged bucket holds exactly the lines of the members' buckets, and its length is the sum of theirs |
| `LineReader.ToDictRoundTrip` | webview/line_reader.py:33-38 | `to_dict` keeps the id and the count, order and values of the coordinates; the dict reads back as the line |
| `Proximity.NearbyCheckWitness` | webview/data.py:75-88 | true iff the start-start, middle-middle (`len // 2`) or end-end distance is at most the bound |
| `Proximity.NearbyCheckSymmetric` | data.py:47-60 | for a symmetric distance, swapping the two lines does not change the answer |
| `Proximity.NearbyCheckMonotone` | data.py:47-60 | a larger bound never turns a pass into a failure |
| `Proximity.NearbyCheckVacuous` | webview/data.py:116 | with distances of at most 2 and `max_dist * 3 >= 2`, every pair passes |
| `Proximity.MinDistToIsMinimum` | webview/data.py:123 | a point's minimum distance is attained at some point of the other line and bounds all of them |
| `Proximity.PointMinima` | webview/data.py:123 | one minimum distance per point of the first line |
| `Proximity.DistanceRowShape` | webview/data.py:111-123 | a row is empty iff the pre-check fails; otherwise one minimum per point, each at most the distance to every point of the other line |
| `Proximity.GetDistances` | webview/data.py:91-125 | one row per other line, each the distance row of that line |
| `Proximity.IsCloseIff` | webview/data.py:149-151 | close iff some sampled point pair is nearer than the threshold once scaled by 6371 |
| `Proximity.CloseLinesStep` | webview/data.py:143-152 | a further line is appended iff it is not the query line's id and is close |
| `Proximity.CloseLinesMembers` | webview/data.py:143-152 | the close lines are exactly the input lines that are close and whose id differs from the query line's |
| `Proximity.GetCloseLines` | webview/data.py:131-154 | the loop returns exactly those close lines, in input order |
| `Proximity.CloseLinesNonEmpty` | webview/data.py:143-152 | the close lines keep every line's points non-empty |
| `Proximity.CountWithin` | webview/data.py:192 | the number of minima within the bound is at most the number of minima |
| `Proximity.CountWithinExtremes` | webview/data.py:192 | the count of minima within the bound is the length iff all are within, and 0 iff none is |
| `Proximity.Ratio` | webview/data.py:192 | the ratio of a non-empty row lies in [0, 1] |
| `Proximity.RatioExtremes` | webview/data.py:192 | the ratio is 1 iff every minimum is within `max_dist / 6371`, and 0 iff none is |
| `Proximity.Ratios` | webview/data.py:190-192 | one ratio per row, in order |
| `Proximity.LineRatios` | webview/data.py:187-192 | one ratio in [0, 1] per close line |
| `Proximity.QualifyingStep` | webview/data.py:195-201 | a further ratio adds its connection iff it is not below the required ratio |
| `Proximity.QualifyingMembers` | webview/data.py:195-201 | the connections are exactly the line's pairs with ratio at least the required ratio, weighted by that ratio |
| `Proximity.ConnectionsOfFacts` | webview/data.py:185-201 | every connection of a line starts at it, ends at another input line, and has weight in [required, 1] |
| `Proximity.PairsByLine` | webview/data.py:185-201 | one list of connections per line, in line order |
| `Proximity.PairsFacts` | webview/data.py:182-201 | every connection joins two different input lines, with weight in [required, 1] |
| `Proximity.LineRatiosOf` | webview/data.py:187-192 | the close lines at threshold `max_dist * 10`, and their ratios |
| `Proximity.Ids` | webview/data.py:235-239 | one id per line, in input order |
| `Proximity.Ends` | data.py:198-212 | both ends of every edge are among the ends |
| `Proximity.EndsWitness` | data.py:198-212 | each end belongs to some edge |
| `ClusterNetwork.MinIdIsMinimum` | webview/data.py:212 | `min(x)` is a member of the component and no member is below it |
| `ClusterNetwork.MinIdsDistinct` | webview/data.py:212 | distinct components of a partition have distinct smallest ids |
| `ClusterNetwork.InsertByMin` | webview/data.py:212 | inserting a component index keeps every other index and adds just that one |
| `ClusterNetwork.InsertByMinDescending` | webview/data.py:212 | inserting keeps the order descending by smallest id |
| `ClusterNetwork.DescendingCons` | webview/data.py:212 | an index whose component's smallest id exceeds all others' may go in front of a descending order |
| `ClusterNetwork.DescendingTail` | webview/data.py:212 | the tail of a descending order is descending |
| `ClusterNetwork.DescendingDistinct` | webview/data.py:212 | a descending order repeats no index, since the order by smallest id is strict |
| `ClusterNetwork.SortedOrder` | webview/data.py:212 | the sort is a permutation of the component indices |
| `ClusterNetwork.SortedOrderSorted` | webview/data.py:212 | the sorted components run in descending order of their smallest id |
| `ClusterNetwork.ReservePassAsWrittenStep` | webview/data.py:219-225 | the pass as written over one more edge is one more step as written |
| `ClusterNetwork.ReservePassStep` | webview/data.py:219-225 | the pass over one more edge is one more corrected step |
| `ClusterNetwork.StepKeepsReservations` | webview/data.py:222-225 | a reservation already made is never changed by a later edge |
| `ClusterNetwork.StepConsistent` | webview/data.py:222-225 | one step keeps the reservations exactly those of the ends of retained edges |
| `ClusterNetwork.ReservePassFacts` | webview/data.py:218-225 | after the pass, retained edges are input edges, both ends of each hold their member's reservation, and only such ends hold one |
| `ClusterNetwork.StepAsWrittenRecorded` | webview/data.py:222-225 | one step as written keeps retained edges among the input edges and the reservation holders among their ends |
| `ClusterNetwork.ReservePassAsWrittenRecorded` | webview/data.py:218-225 | after the pass as written, retained edges are input edges and only their ends hold reservations |
| `ClusterNetwork.RulePassFacts` | webview/data.py:218-225 | under either rule the pass records only retained edges' ends; under the corrected rule both ends of each retained edge hold their reservation |
| `ClusterNetwork.ReservePassAsWrittenDropsSource` | webview/data.py:222-225 | as written, the edge `0\|1`–`0\|2` is retained, yet its source holds no reservation |
| `ClusterNetwork.ReservePassRejectsSelfClash` | webview/data.py:222-225 | the corrected pass does not retain that edge |
| `ClusterNetwork.ReserveEdges` | webview/data.py:218-225 | the loop computes the pass of the given rule, as written or corrected: retained edges and `added_ens_members` |
| `ClusterNetwork.Elements` | webview/data.py:228 | the set of the elements of a list |
| `ClusterNetwork.EdgesWithin` | webview/data.py:215-219 | the subgraph's edges are exactly the input edges with both ends in the component |
| `ClusterNetwork.Members` | webview/data.py:214 | the lines of the components |
| `ClusterNetwork.Reservations` | webview/data.py:214-225 | one reservation map per cluster, each that cluster's pass under the given rule |
| `ClusterNetwork.MarkMembers` | webview/data.py:228-233 | each line of the cluster gets `i` if it holds its member's reservation, else `-1`; other entries unchanged |
| `ClusterNetwork.DefaultNodes` | webview/data.py:235-239 | the nodes are the line ids in input order; lines without an entry get `-1`; other entries unchanged |
| `ClusterNetwork.MembersUpTo` | webview/data.py:214 | the lines of the first `i` clusters |
| `ClusterNetwork.SlotStep` | webview/data.py:216-223 | cluster `i` receives its pass's retained edges |
| `ClusterNetwork.FreshComponent` | webview/data.py:214-231 | no line of a later cluster was assigned before |
| `ClusterNetwork.ValueStep` | webview/data.py:228-233 | after cluster `i`, every line of the first `i + 1` clusters has its value |
| `ClusterNetwork.AssignStep` | webview/data.py:214-233 | one round of the loop extends the cluster slots by its retained edges and gives its members their values |
| `ClusterNetwork.AssignLoop` | webview/data.py:214-233 | under either rule, clusters `0..k-1` hold their retained edges, and every component line holds its value |
| `ClusterNetwork.AssignedFinal` | webview/data.py:235-241 | with the defaults added, the result is the assignment described by `AssignedBy` |
| `ClusterNetwork.AssignClusters` | webview/data.py:203-241 | under either rule, the clusters, `node_clusters` and nodes are those of the sorted component order |
| `ClusterNetwork.ClusterOf` | webview/data.py:228-231 | a line with a non-negative value `j` is in cluster `j` and holds its member's reservation there |
| `ClusterNetwork.RetainedEdge` | webview/data.py:222-225 | under either rule a retained edge is an input edge inside its component; under the corrected rule both ends hold their reservations |
| `ClusterNetwork.AssignedInRange` | webview/data.py:214-233 | under either rule, every value is `-1` or in `[0, k)` for `k` components |
| `ClusterNetwork.AssignedExclusive` | webview/data.py:228-233 | under either rule, no two lines of one ensemble member share a non-negative cluster |
| `ClusterNetwork.AssignedRetainedEnds` | webview/data.py:222-231 | under either rule retained edges are input edges inside their component; under the corrected rule both ends of every edge retained in cluster `i` are assigned `i` |
| `ClusterNetwork.AssignedOnlyViaEdges` | webview/data.py:228-231 | under either rule, a line gets cluster `i` only as an end of an edge retained in cluster `i` |
| `ClusterNetwork.ConnectionSet` | webview/data.py:182 | the set of the listed connections |
| `ClusterNetwork.AddQualifying` | webview/data.py:195-201 | the set gains exactly the line's qualifying connections |
| `ClusterNetwork.BuildConnections` | webview/data.py:182-201 | the connection set is the set of all lines' qualifying connections |
| `ClusterNetwork.EdgeEndsAreLines` | webview/data.py:206-208 | every end of a graph edge is an input line id |
| `ClusterNetwork.GenerateNetwork` | webview/data.py:161-241 | nodes are the ids in order; every line has one entry; clusters are `0..k-1`; values in `{-1} ∪ [0,k)`; member-exclusive; assignment only via retained edges (all under either rule); retained ends assigned (corrected rule only) |
| `EarlyNetwork.AssignPairValid` | data.py:197-212 | one pair keeps the state valid: cluster keys exactly `0..amount-1`, values among them |
| `EarlyNetwork.RunValid` | data.py:193-212 | processing pairs in order keeps the state valid |
| `EarlyNetwork.RunStep` | data.py:193-212 | one more pair is one more `AssignPair` |
| `EarlyNetwork.RunAppend` | data.py:184-212 | processing `a + b` is processing `a`, then `b` |
| `EarlyNetwork.AssignPairJoins` | data.py:198-212 | afterwards both ends map to the same cluster, whose last edge is the pair |
| `EarlyNetwork.AssignPairCounter` | data.py:205-210 | the counter grows by 1 exactly when neither end was assigned, and otherwise stays |
| `EarlyNetwork.AssignPairKeeps` | data.py:199-204 | only the target can be overwritten, and only when the source was assigned; stored edges stay as a prefix |
| `EarlyNetwork.AssignPairStores` | data.py:212 | a pair adds only itself, keeps every stored edge, and is stored in some cluster |
| `EarlyNetwork.RunKeys` | data.py:198-215 | `node_to_cluster` holds exactly the ends of the qualifying pairs; there is no `-1` default |
| `EarlyNetwork.RunStoresPairs` | data.py:212 | every stored edge is one of the qualifying pairs |
| `EarlyNetwork.RunStoresAll` | data.py:212 | every qualifying pair is stored in some cluster |
| `EarlyNetwork.RunSingle` | data.py:197-212 | processing one pair is `AssignPair` |
| `EarlyNetwork.AssignOne` | data.py:197-212 | the loop body computes `AssignPair`: source assigned → target joins it; else target assigned → source joins it; else a fresh cluster |
| `EarlyNetwork.AssignQualifying` | data.py:193-212 | the inner loop processes the line's qualifying pairs in order |
| `EarlyNetwork.NodeIds` | data.py:214 | one node per input line, in order |
| `EarlyNetwork.GenerateNetwork` | data.py:164-215 | the network of processing all lines' qualifying pairs from the empty state |
| `EarlyNetwork.NetworkFacts` | data.py:179-215 | cluster keys are exactly `0..amount-1`; values in range; keys exactly the pair ends; every pair stored; each stored edge joins two input lines with weight in [required, 1] |
| `Tracking.TargetsAppend` | tracking.py:54-58 | the targets of concatenated matches are the union of the targets |
| `Tracking.RemoveTargets` | tracking.py:54-56 | removing each match's target leaves the ids that are no match's target |
| `Tracking.Track` | tracking.py:46-58 | the matches are the per-member lists concatenated in member order, and the unmatched ids are the t1 ids no match targets |
| `Tracking.UnmatchedExactly` | tracking.py:47-56 | an id is unmatched iff it is a t1 id and no match of any member has it as target |
| `Tracking.Smallest` | tracking.py:60 | the smallest element of a non-empty set |
| `Tracking.SortedIds` | tracking.py:60-63 | `sorted(set(...))` is strictly increasing and holds exactly the values |
| `Tracking.IncreasingUnique` | tracking.py:60-63 | two strictly increasing lists with the same elements are equal, so the sorted ids are determined |
| `Tracking.AllIds` | tracking.py:60-63 | the ids are the sorted union of both networks' cluster values |
| `Tracking.Known` | tracking.py:71-75 | the matches whose old id is a key of the t0 network's `node_clusters` and whose new id is a key of the t1 network's; with the networks of `data.py`, those keys are only the ends of qualifying pairs, so a match of a line with no qualifying pair is dropped |
| `Tracking.CountStep` | tracking.py:71-80 | a further match adds 1 to its own cell when both ids are known, and nothing otherwise |
| `Tracking.Zeros` | tracking.py:65-69 | the table starts square and all zero |
| `Tracking.RowSumZero` | tracking.py:65-69 | an all-zero row sums to 0 |
| `Tracking.TotalZero` | tracking.py:65-69 | an all-zero table sums to 0 |
| `Tracking.RowSumIncrement` | tracking.py:80 | incrementing one cell adds 1 to its row's sum |
| `Tracking.TotalIncrement` | tracking.py:80 | incrementing one cell adds 1 to the table's total |
| `Tracking.IndexOf` | tracking.py:80 | `.loc` finds the position of a cluster id |
| `Tracking.CountMatch` | tracking.py:71-80 | one match keeps the table equal to the counts of the matches so far |
| `Tracking.Contingency` | tracking.py:60-80 | the index is the sorted union of ids; the table is square; each cell counts the known matches (both ids keys of their network's `node_clusters`) between its two clusters; the total is the number of known matches |
| `SigmaData.GeometricCenter` | sigma/data.py:18 | a centre exists iff the line has points |
| `SigmaData.SumLatWithin` | sigma/data.py:18 | the latitude column sums to between `n * lo` and `n * hi` |
| `SigmaData.SumLonWithin` | sigma/data.py:18 | the same for the longitude column |
| `SigmaData.CenterWithin` | sigma/data.py:18 | the centre lies within any box holding all the points: it is the mean of each column |
| `SigmaData.MeanWithin` | sigma/data.py:18 | a sum of `n` values in `[lo, hi]`, divided by `n`, lies in `[lo, hi]` |
| `SigmaData.MeanLatWithin` | sigma/data.py:18 | the mean latitude lies between any bounds of the latitudes |
| `SigmaData.MeanLonWithin` | sigma/data.py:18 | the mean longitude lies between any bounds of the longitudes |
| `SigmaData.DistSqrdFacts` | sigma/data.py:85 | the squared distance is non-negative, symmetric, and zero from a point to itself |
| `SigmaData.RowPairsSound` | sigma/data.py:84-87 | a pair of row `i` is `(i, j)` with `i < j < m` and passes the distance test |
| `SigmaData.RowPairsComplete` | sigma/data.py:84-87 | every `(i, j)` with `i < j < m` that passes the test is in row `i` |
| `SigmaData.PairsSound` | sigma/data.py:82-87 | a pair met in the first `m` rounds has first index below `m`, below its second index, and passes the test |
| `SigmaData.PairsComplete` | sigma/data.py:82-87 | every `(i, j)` with `i < m`, `i < j < n` that passes the test is met |
| `SigmaData.RowPairsBounded` | sigma/data.py:84 | both indices of a row's pairs are valid positions of the centres |
| `SigmaData.PairsBounded` | sigma/data.py:82-84 | both indices of every pair are valid positions of the centres |
| `SigmaData.LinksOf` | sigma/data.py:89 | each link carries the two ids and the computed squared distance |
| `SigmaData.LinksOfAppend` | sigma/data.py:89 | the links of appended pairs are the appended links |
| `SigmaData.LinksStep` | sigma/data.py:82-89 | one more round of the outer loop appends exactly the links of its row |
| `SigmaData.RowLinks` | sigma/data.py:84-89 | the inner loop appends the links of row `i` |
| `SigmaData.GenerateNetwork` | sigma/data.py:62-91 | one node per centre, in order, and the links of all close index pairs in row order |
| `SigmaData.RowPairsExactly` | sigma/data.py:84-87 | `(i, j)` is in row `i` iff `i < j` and the squared distance is at most `max_dist` |
| `SigmaData.PairsExactly` | sigma/data.py:82-89 | a pair is linked iff source index < target index and the squared distance is at most `max_dist` |
| `SigmaData.OrderedAppend` | sigma/data.py:82-89 | two ordered pair lists, the first ending before the second begins, append to an ordered list |
| `SigmaData.RowPairsOrdered` | sigma/data.py:84 | a row's pairs are strictly ordered |
| `SigmaData.RowFollowsPairs` | sigma/data.py:82-84 | row `i` begins after the last pair of the rows before it |
| `SigmaData.PairsOrdered` | sigma/data.py:82-84 | all pairs are strictly ordered, so no unordered pair appears twice |
| `SigmaData.RowPairsCount` | sigma/data.py:84 | row `i` holds at most `m - i - 1` pairs |
| `SigmaData.PairsCount` | sigma/data.py:82-84 | the first `m` rows hold at most `m(2n - m - 1)/2` pairs |
| `SigmaData.LinkSound` | sigma/data.py:84-89 | link `k` joins the centres of pair `k`, `i < j`, and stores their squared distance, which lies in `[0, max_dist]` |
| `SigmaData.NetworkFacts` | sigma/data.py:82-89 | at most `n(n-1)/2` links; each from `i < j`, with the stored squared distance non-negative and at most `max_dist`; every close pair linked |
| `Geo.GetLatitudes` | sigma/internal/geo/geo.go:26-34 | a fresh buffer of `len(Coords)` latitudes, `lats[i]` the latitude of point `i` |
| `Geo.GetLongitudes` | sigma/internal/geo/geo.go:36-44 | a fresh buffer of `len(Coords)` longitudes, `lons[i]` the longitude of point `i` |
| `Geo.DistanceFacts` | sigma/internal/geo/geo.go:64-66 | the distance is non-negative, symmetric, and zero from a point to itself |
| `Geo.SquareNonNegative` | sigma/internal/geo/geo.go:65 | a square is non-negative |
| `GoNetwork.MinDistIsMinimum` | sigma/internal/network/network.go:19-23 | the running minimum is at most 1.0 and at most every distance, and is 1.0 or one of them |
| `GoNetwork.Distances` | sigma/internal/network/network.go:12-29 | one entry per point of the first line |
| `GoNetwork.ClosestPoint` | sigma/internal/network/network.go:19-23 | the inner loop computes the running minimum from 1.0 |
| `GoNetwork.GetDistances` | sigma/internal/network/network.go:12-29 | zeros for equal ids, else one capped minimum per point |
| `GoNetwork.DistancesFacts` | sigma/internal/network/network.go:13-25 | equal ids give all zeros; otherwise each entry is at most 1.0 and at most the distance to every point of the second line; no points and another id give all 1.0 |
| `GoNetwork.GetAllDistances` | sigma/internal/network/network.go:35-50 | a fresh buffer of `len(lines)` rows, row `i` the distances to `lines[i]` |
| `NetCdf.GroupRows` | sigma/internal/netcdf/netcdf.go:76-101 | the loop's result is the row scan, panics included |
| `NetCdf.Stop` | sigma/internal/netcdf/netcdf.go:96-98 | the scan stops no earlier than it starts and no later than the last row |
| `NetCdf.PickedStep` | sigma/internal/netcdf/netcdf.go:78-95 | a further row adds its point to a line iff its date is the time and its id is that line |
| `NetCdf.BuiltSkip` | sigma/internal/netcdf/netcdf.go:78 | a row of an earlier date changes nothing |
| `NetCdf.BuiltStep` | sigma/internal/netcdf/netcdf.go:78-95 | a row of the time adds a line `"ens\|len+1"` when `len(lines) < id`, then adds its point to line `id` |
| `NetCdf.ScanBuilds` | sigma/internal/netcdf/netcdf.go:77-99 | a scan without panic leaves line `k` holding the points of rows with date `time` and id `k + 1`, in row order, up to its stop |
| `NetCdf.ScanAdvance` | sigma/internal/netcdf/netcdf.go:78-98 | a row the scan passes, at `time` or earlier, keeps the lines built and the scan's outcome |
| `NetCdf.ScanStops` | sigma/internal/netcdf/netcdf.go:78-98 | a scan without panic stops at the end of the rows or at the first row of a later date |
| `NetCdf.ScanPanics` | sigma/internal/netcdf/netcdf.go:78-95 | a panic comes from a row of the time (or beyond the dates) before the stop |
| `NetCdf.GroupRowsFacts` | sigma/internal/netcdf/netcdf.go:76-101 | without panic, line `k` is `"ens\|k+1"` with exactly the points of the rows with id `k + 1` up to the stop; no row names another id; the stop is the end or the first later date |
| `NetCdf.GetLines` | sigma/internal/netcdf/netcdf.go:28-101 | a member's lines: the read's error, or its grouped rows |
| `NetCdf.FailureSticks` | sigma/internal/netcdf/netcdf.go:17-20 | once a member fails, later members do not change the result |
| `NetCdf.GetAllLines` | sigma/internal/netcdf/netcdf.go:14-26 | the result over members 0..49, returning at the first error |
| `NetCdf.MemberValues` | sigma/internal/netcdf/netcdf.go:22 | one list of lines per member |
| `NetCdf.AllLinesSucceeds` | sigma/internal/netcdf/netcdf.go:14-26 | the reading succeeds iff every member's does |
| `NetCdf.AllLinesValue` | sigma/internal/netcdf/netcdf.go:14-26 | it then yields the members' lines concatenated in member order |
| `NetCdf.AllLinesFirstFailure` | sigma/internal/netcdf/netcdf.go:14-20 | otherwise it yields the error of the first member that fails |
| `App.KeyTimestepInjective` | _app.py:168-176 | under one set of settings, two timesteps share a key only if equal |
| `App.KeyCollision` | _app.py:102 | timestep 3 at threshold 35 and timestep 33 at threshold 5 share a key |
| `App.DefaultsKey` | _app.py:24-28 | the default settings are `"2024101900"`, 50, 0.05 and `"jet"`, and key as such |
| `App.NextTimestep` | _app.py:162 | the next timestep is later |
| `App.NextTimestepIsNextTime` | _app.py:162 | from each forecast offset below 240, the step lands on the next offset, with none in between |
| `App.Cached` | _app.py:169-173 | the stored value when the key is present, the computed one otherwise |
| `App.Fetched` | _app.py:162-191 | each network comes from the cache iff its key is present; the table and tracking come from the caches only when both are under the key of `t0`, else from comparing the two networks |
| `App.SavedStores` | _app.py:197-200 | both networks, the table and the tracking are stored under their keys; every other entry is kept |
| `App.RefetchIsCached` | _app.py:169-200 | after saving, the same timestep read back from the stores computes nothing and yields the same data, with the stores taken as maps (the JSON round trip is not modelled) |
| `App.JsonFiles.constructor` | _app.py:66-85 | the three store files start empty, as on a first run (`init_files` creates only the missing files, each empty) |
| `App.JsonFiles.SaveNetwork` | _app.py:101-109 | sets the key's network and leaves every other key and file untouched |
| `App.JsonFiles.SaveContingencyTable` | _app.py:118-126 | sets the key's table and leaves every other key and file untouched |
| `App.JsonFiles.SaveTracking` | _app.py:136-144 | sets the key's tracking and leaves every other key and file untouched |
| `App.JsonFiles.GetTimestepData` | _app.py:153-200 | the fetched data, what was recomputed, and the stores after the four saves |
| `Navigation.StepsStayOnGrid` | assets/src/main.ts:67-78 | both buttons keep the offset among 0,3,…,72,78,…,234 |
| `Navigation.StepsAreInverse` | assets/src/main.ts:67-78 | on the offsets, previous undoes next and next undoes previous; at the ends the button does nothing |
| `Navigation.RightPaneIsNextTimestep` | assets/src/main.ts:49-54 | the right pane shows the next timestep by the rule of `_app.py`, always a forecast offset |
| `Navigation.ClicksStayOnGrid` | assets/src/main.ts:18 | starting from an offset (such as 0), any run of clicks stays on the offsets |
| `Navigation.Page.constructor` | assets/src/main.ts:18 | offset 0, inputs off, headings loading |
| `Navigation.Page.ToggleInputs` | assets/src/main.ts:106-121 | previous disabled when the offset is ≤ 0, next when it is ≥ 234, otherwise both `!on`; both reset buttons `!on` |
| `Navigation.Page.StartLoading` | assets/src/main.ts:35-39 | inputs off and both headings loading; the state stays valid |
| `Navigation.Page.FinishLoading` | assets/src/main.ts:47-58 | headings name the offset and the next timestep; inputs back on |
| `Navigation.Page.Previous` | assets/src/main.ts:67-73 | the offset steps back by 3 below 78, by 6 from there, and stays at 0; the state stays valid |
| `Navigation.Page.Next` | assets/src/main.ts:75-81 | the offset steps on by 3 below 72, by 6 from there, and stays at 234; the state stays valid |
| `ContingencyTable.Row` | assets/src/contingencyTable.ts:16-21 | one cell per column of the first row |
| `ContingencyTable.CellsRowMajor` | webview/assets/src/contingencyTable.ts:17-25 | the cell of row `i`, column `j` is at `i * cols + j` of `rows * cols` cells, labelled for its row and column, with value `rawData[i][j]` |
| `ContingencyTable.FlattenRow` | webview/assets/src/contingencyTable.ts:19-24 | the inner loop pushes the cells of one row |
| `ContingencyTable.Flatten` | assets/src/contingencyTable.ts:14-22 | the pushed cells are the table's cells in row-major order (placed by `CellsRowMajor`), `rows * cols` of them |
| `ContingencyTable.Labels` | assets/src/contingencyTable.ts:37-47 | one label per position, at least one |
| `ContingencyTable.AxisLabels` | webview/assets/src/contingencyTable.ts:41-51 | `"-1"` up to `n - 3`, then `"-"` |
| `ContingencyTable.GetContingencyTable` | webview/assets/src/contingencyTable.ts:14-51 | an empty table fails with a `TypeError`; otherwise the cells, the x labels from the columns, and the y labels from the rows |
| `ContingencyTable.NatToStringStartsWithDigit` | assets/src/contingencyTable.ts:17 | the text of a natural number starts with a digit |
| `ContingencyTable.IntToStringIsNotDash` | assets/src/contingencyTable.ts:17-18 | no id text is `"-"` |
| `ContingencyTable.LabelsFacts` | assets/src/contingencyTable.ts:37-47 | a label is `"-"` exactly at the last position, and no two positions share a label |
| `ContingencyTable.CellIdsInDomains` | assets/src/contingencyTable.ts:17-18 | a cell's `oldId` is the y label of its row and its `newId` the x label of its column; they are `"-"` exactly for the last row or column |

## Left out

- **File input and output.** Opening and filtering netCDF files is not modelled, and neither are the JSON files and their locks. A member's file arrives as its row groups (`LineReader`), or as its four columns or a read error (`NetCdf`). A store file is the map it holds (`App`).
- **Concurrency.** The `ProcessPoolExecutor` of `get_all_lines` and the goroutines of `getAllDistances` are modelled by their sequential, index-aligned results.
- **Floating point and trigonometry.** Coordinates are exact reals, and the centroid is a parameter. The distance between points is a parameter: `to_xyz`, `To3D`, `ToGeo`, `cdist`, and the projection onto the unit sphere followed by a Euclidean distance. `EARTH_RADIUS` is the constant 6371.
- **External collaborators, as inputs.** These are `multiscale`, whose sample is the `sample` function of `Proximity`; networkx, whose edge list and components are inputs tied to the connection set by `GraphOf` and `ComponentsOf` (`ComponentsOf` asks only that the components partition the edges' ends with no edge between two of them; it does not ask that each component be connected); `track_lines`, whose per-member matches are an input to `Tracking.Track`; and the per-member filtering of the data frames.
- **Iteration order.** The order of the graph's edges and of set iteration is an input. Nothing is claimed about run-to-run determinism. `Connection` equality includes direction and weight, as in the source.
- `Proximity.Ratios` and `Proximity.LineRatios` require every close line to pass the pre-check (`Prechecked`), so no distance row is empty; a failed `nearby_check` appends an empty row (webview/data.py:116-118, data.py:88-89), and the code then behaves in ways the model leaves out. In `webview/data.py`, `np.array(dists)` at line 125 over a mix of empty and full rows is a ragged array, which NumPy rejects with an error. When every row is empty, each ratio is 0/0, which is `nan`; `nan < required_ratio` is false, so lines 195-201 add a connection with weight `nan`. In `data.py`, `dists` stays a list, and `dist <= max_dist / EARTH_RADIUS` at line 191 on the empty list raises a `TypeError`. `Proximity.NearbyCheckVacuous` shows that the pre-check always passes once `max_dist * 3 >= 2`, for a point distance of at most 2 (a chord of the unit sphere).
- **Cluster-id stabilisation across timesteps.** It appears only as a comment in `_app.py`, and the model leaves it out.
- **Read-only lookups of the application and transport code.** This covers `Api.get_network`, `Api.get_contingency_table` and the server wrappers. They are plain map reads behind a transport layer.
- **Drawing.** This covers rendering and the DOM: D3, Sigma, Leaflet, the tooltip, and the loading of the panes that happens between `StartLoading` and `FinishLoading`.
- `App.Key`: Python's `str` of the float ratio is a parameter `show`, because decimal float formatting is not modelled.
- `App.JsonFiles.GetTimestepData`: the Python function returns nothing, and its callers read the stores afterwards. The model also returns the data it saved, together with what was recomputed. The line files the function reads are not modelled.
- `App.JsonFiles.SaveContingencyTable`: the table is stored as the value itself. The `to_json` / `read_json` round trip is taken to be the identity.
- `App.RefetchIsCached`, `App.JsonFiles.SaveNetwork` and `App.JsonFiles.SaveTracking`: the network and tracking stores are maps of values too. In the JSON files the integer keys of `clusters` and `node_clusters` come back as strings and tuples come back as lists, so "the same data" holds only at this map abstraction.
- `SigmaData.GeometricCenter`: for an empty line the source divides a NumPy float by zero and yields the centre `[nan, nan]` with a warning; the model yields `None`. The pandas `groupby` that feeds it never produces an empty group.
- `Geo.DistanceFacts` does not state that a zero distance means equal points. The square-root-free sum of squares is modelled, but that converse was not proved.
- `ClusterNetwork.GenerateNetwork`: both ends of a retained edge get its cluster (`RetainedEndsAssigned`) only under the corrected rule; as written, an edge joining two lines of one ensemble member is retained and one of its ends is sent to `-1` (Findings).
- `Geo.Distance` omits the square root. It is the squared Euclidean distance, which orders distances the same way.
- `GoNetwork.GetDistances`: the point distance `coord1.To3D().Distance(coord2.To3D())` is the parameter `dist`.
- `NetCdf.GroupRows`: the `int64` width of ids and dates is not modelled; they are unbounded integers.
- `ContingencyTable.Flatten`: `value` is `None` where the source would read `undefined` from a row shorter than the first.

## Findings

| source | as written | input that shows it | evidently intended | confidence | as-written member | corrected member |
|---|---|---|---|---|---|---|
| webview/data.py:222-225 | An edge is retained when both ends' ensemble members are unreserved. Its two ends then reserve their member one after the other, so for two lines of one member the second write wins. | The single edge `0\|1` → `0\|2` in one cluster is retained. `added_ens_members["0"]` ends up `"2"`, so `0\|1` is sent to `-1` although it is an end of a retained edge of the cluster. | A retained edge's two ends both hold their member's reservation, so both get the cluster (as the retained-edge bookkeeping and lines 228-231 assume). An edge joining two lines of one member is therefore not retained. | not executed | `ClusterNetwork.ReservePassAsWrittenDropsSource` | `ClusterNetwork.ReservePassFacts` |
