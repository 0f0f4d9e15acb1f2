/** The orchestration of the desktop application: the settings, the storage key of
    a timestep's results, the step to the next timestep, the lookup-or-compute of
    `get_timestep_data` and the three JSON stores it saves into. A store file is
    modelled as the map it holds; reading and writing the file, its locking, and
    the JSON encoding of a table are not modelled. What is computed (lines,
    networks, the cluster map) is a parameter. */
module App {
  import opened Text
  import LineReader

  datatype LineType = Jet | Mta

  function LineTypeText(t: LineType): string {
    match t
    case Jet => "jet"
    case Mta => "mta"
  }

  /** `Settings`. The ratio is a real; its decimal text, as Python's `str` of a
      float writes it, is a parameter `show` wherever a key is built. */
  datatype Settings = Settings(simStart: string, distThreshold: int, requiredRatio: real, lineType: LineType)

  /** The settings a fresh settings file is written with. */
  const Defaults := Settings("2024101900", 50, 0.05, Jet)

  /** The key of one timestep's results: start, timestep, threshold, ratio and line
      type written one after the other, with no separator. */
  function Key(s: Settings, t: int, show: real -> string): string {
    s.simStart + IntToString(t) + IntToString(s.distThreshold) + show(s.requiredRatio) + LineTypeText(s.lineType)
  }

  lemma MiddleSlice(a: string, m: string, b: string)
    ensures (a + m + b)[|a|..|a| + |m|] == m
  {
  }

  /** Under one set of settings, two timesteps have the same key only if they are
      the same timestep. */
  lemma KeyTimestepInjective(s: Settings, t0: int, t1: int, show: real -> string)
    requires Key(s, t0, show) == Key(s, t1, show)
    ensures t0 == t1
  {
    var rest := IntToString(s.distThreshold) + show(s.requiredRatio) + LineTypeText(s.lineType);
    var a := s.simStart;
    var m0, m1 := IntToString(t0), IntToString(t1);
    assert Key(s, t0, show) == a + m0 + rest;
    assert Key(s, t1, show) == a + m1 + rest;
    assert |m0| == |m1|;
    MiddleSlice(a, m0, rest);
    MiddleSlice(a, m1, rest);
    IntToStringInjective(t0, t1);
  }

  /** Across settings the key is ambiguous: timestep 3 at threshold 35 and
      timestep 33 at threshold 5 share a key. */
  lemma KeyCollision(start: string, ratio: real, lineType: LineType, show: real -> string)
    ensures Key(Settings(start, 35, ratio, lineType), 3, show) == Key(Settings(start, 5, ratio, lineType), 33, show)
  {
    assert IntToString(35) == "35" by {
      assert NatToString(3) == "3";
    }
    assert IntToString(33) == "33" by {
      assert NatToString(3) == "3";
    }
    assert IntToString(3) == "3";
    assert IntToString(5) == "5";
  }

  /** The key of the default settings. */
  lemma DefaultsKey(t: int, show: real -> string)
    ensures Key(Defaults, t, show) == "2024101900" + IntToString(t) + "50" + show(0.05) + "jet"
  {
    assert IntToString(50) == "50" by {
      assert NatToString(5) == "5";
    }
  }

  /** The timestep after `t0`: 3 hours on up to 72, 6 hours from there. */
  function NextTimestep(t0: int): (t1: int)
    ensures t0 < t1
  {
    t0 + (if t0 < 72 then 3 else 6)
  }

  /** From every hour offset of a forecast but the last, the next timestep is the
      next hour offset of the forecast: an offset itself, with none in between. */
  lemma NextTimestepIsNextTime(t0: int)
    requires LineReader.IsTime(t0) && t0 < 240
    ensures LineReader.IsTime(NextTimestep(t0))
    ensures forall u :: t0 < u < NextTimestep(t0) ==> !LineReader.IsTime(u)
  {
    if t0 == 72 {
      assert forall u :: 72 < u < 78 ==> !LineReader.IsTime(u);
    }
  }

  /** A value from a cache: the stored one when the key is present, else the
      computed one. */
  function Cached<V>(cache: map<string, V>, key: string, computed: V): (r: V)
    ensures key in cache ==> r == cache[key]
    ensures key !in cache ==> r == computed
  {
    if key in cache then cache[key] else computed
  }

  /** The three stores: networks, contingency tables and trackings, each keyed by
      `Key`. */
  datatype Stores<N, C, T> = Stores(networks: map<string, N>, tables: map<string, C>, trackings: map<string, T>)

  /** What `get_timestep_data` works with: the two networks and the table and
      tracking between them. */
  datatype TimestepData<N, C, T> = TimestepData(network0: N, network1: N, table: C, tracking: T)

  /** Which of the parts were computed rather than taken from the caches. */
  datatype Recomputed = Recomputed(network0: bool, network1: bool, clustermap: bool)

  /** The data of timestep `t0` and the next one, `generate(t)` standing for
      reading the lines at `t` and building their network, and `clustermap` for
      comparing two networks. Each network comes from its cache when its key is
      present, and the table and tracking both come from the caches only when
      both are stored under the key of `t0`. */
  function Fetched<N, C, T>(s: Settings, show: real -> string, caches: Stores<N, C, T>, t0: int,
                            generate: int -> N, clustermap: (N, N) -> (C, T)): (d: TimestepData<N, C, T>)
    ensures var k0, k1 := Key(s, t0, show), Key(s, NextTimestep(t0), show);
      (k0 in caches.networks ==> d.network0 == caches.networks[k0]) &&
      (k0 !in caches.networks ==> d.network0 == generate(t0)) &&
      (k1 in caches.networks ==> d.network1 == caches.networks[k1]) &&
      (k1 !in caches.networks ==> d.network1 == generate(NextTimestep(t0))) &&
      (k0 in caches.tables && k0 in caches.trackings ==>
         d.table == caches.tables[k0] && d.tracking == caches.trackings[k0]) &&
      (!(k0 in caches.tables && k0 in caches.trackings) ==>
         (d.table, d.tracking) == clustermap(d.network0, d.network1))
  {
    var t1 := NextTimestep(t0);
    var k0, k1 := Key(s, t0, show), Key(s, t1, show);
    var n0 := Cached(caches.networks, k0, generate(t0));
    var n1 := Cached(caches.networks, k1, generate(t1));
    var ct := if k0 in caches.tables && k0 in caches.trackings then (caches.tables[k0], caches.trackings[k0])
              else clustermap(n0, n1);
    TimestepData(n0, n1, ct.0, ct.1)
  }

  function Recomputes<N, C, T>(s: Settings, show: real -> string, caches: Stores<N, C, T>, t0: int): Recomputed {
    var k0, k1 := Key(s, t0, show), Key(s, NextTimestep(t0), show);
    Recomputed(k0 !in caches.networks, k1 !in caches.networks, !(k0 in caches.tables && k0 in caches.trackings))
  }

  /** The stores after the four saves of `get_timestep_data`. */
  function Saved<N, C, T>(st: Stores<N, C, T>, s: Settings, show: real -> string, t0: int,
                          d: TimestepData<N, C, T>): Stores<N, C, T> {
    var k0, k1 := Key(s, t0, show), Key(s, NextTimestep(t0), show);
    Stores(st.networks[k0 := d.network0][k1 := d.network1], st.tables[k0 := d.table], st.trackings[k0 := d.tracking])
  }

  /** The saves store the first network, the table and the tracking under the key
      of `t0` and the second network under the key of the next timestep, and keep
      every other entry. */
  lemma SavedStores<N, C, T>(st: Stores<N, C, T>, s: Settings, show: real -> string, t0: int, d: TimestepData<N, C, T>)
    ensures var r, k0, k1 := Saved(st, s, show, t0, d), Key(s, t0, show), Key(s, NextTimestep(t0), show);
      k0 in r.networks && r.networks[k0] == d.network0 &&
      k1 in r.networks && r.networks[k1] == d.network1 &&
      k0 in r.tables && r.tables[k0] == d.table &&
      k0 in r.trackings && r.trackings[k0] == d.tracking &&
      r.networks.Keys == st.networks.Keys + {k0, k1} &&
      r.tables.Keys == st.tables.Keys + {k0} &&
      r.trackings.Keys == st.trackings.Keys + {k0} &&
      (forall k :: k in st.networks && k != k0 && k != k1 ==> r.networks[k] == st.networks[k]) &&
      (forall k :: k in st.tables && k != k0 ==> r.tables[k] == st.tables[k]) &&
      (forall k :: k in st.trackings && k != k0 ==> r.trackings[k] == st.trackings[k])
  {
    var t1 := NextTimestep(t0);
    if Key(s, t0, show) == Key(s, t1, show) {
      KeyTimestepInjective(s, t0, t1, show);
    }
  }

  /** Once the stores have been saved and are read back as the caches, the same
      timestep computes nothing and yields the same data. */
  lemma RefetchIsCached<N, C, T>(s: Settings, show: real -> string, caches: Stores<N, C, T>, t0: int,
                                 generate: int -> N, clustermap: (N, N) -> (C, T))
    ensures var d := Fetched(s, show, caches, t0, generate, clustermap);
      var st := Saved(caches, s, show, t0, d);
      Recomputes(s, show, st, t0) == Recomputed(false, false, false) &&
      Fetched(s, show, st, t0, generate, clustermap) == d
  {
    var d := Fetched(s, show, caches, t0, generate, clustermap);
    SavedStores(caches, s, show, t0, d);
  }

  /** The three JSON files, `init_files` creating them empty. */
  class JsonFiles<N, C, T> {
    var networks: map<string, N>
    var tables: map<string, C>
    var trackings: map<string, T>

    function Contents(): Stores<N, C, T>
      reads this
    {
      Stores(networks, tables, trackings)
    }

    constructor ()
      ensures networks == map[] && tables == map[] && trackings == map[]
    {
      networks, tables, trackings := map[], map[], map[];
    }

    /** `save_network`: the network file with `network` under the key of
        `timestep`; the other files unchanged. */
    method SaveNetwork(network: N, s: Settings, timestep: int, show: real -> string)
      modifies this
      ensures networks == old(networks)[Key(s, timestep, show) := network]
      ensures tables == old(tables) && trackings == old(trackings)
    {
      var key := Key(s, timestep, show);
      var content := networks;
      content := content[key := network];
      networks := content;
    }

    /** `save_contingency_table`. */
    method SaveContingencyTable(table: C, s: Settings, timestep: int, show: real -> string)
      modifies this
      ensures tables == old(tables)[Key(s, timestep, show) := table]
      ensures networks == old(networks) && trackings == old(trackings)
    {
      var key := Key(s, timestep, show);
      var content := tables;
      content := content[key := table];
      tables := content;
    }

    /** `save_tracking`. */
    method SaveTracking(tracking: T, s: Settings, timestep: int, show: real -> string)
      modifies this
      ensures trackings == old(trackings)[Key(s, timestep, show) := tracking]
      ensures networks == old(networks) && tables == old(tables)
    {
      var key := Key(s, timestep, show);
      var content := trackings;
      content := content[key := tracking];
      trackings := content;
    }

    /** `get_timestep_data`: fetch or compute the data of `t0` and the next
        timestep, then save all four parts. The data and which parts were
        computed are returned so that the contract can speak of them. */
    method GetTimestepData(s: Settings, show: real -> string, caches: Stores<N, C, T>, t0: int,
                           generate: int -> N, clustermap: (N, N) -> (C, T))
      returns (d: TimestepData<N, C, T>, computed: Recomputed)
      modifies this
      ensures d == Fetched(s, show, caches, t0, generate, clustermap)
      ensures computed == Recomputes(s, show, caches, t0)
      ensures Contents() == Saved(old(Contents()), s, show, t0, d)
    {
      var t1 := NextTimestep(t0);
      var key0 := Key(s, t0, show);
      var network0: N;
      var fresh0 := key0 !in caches.networks;
      if fresh0 {
        network0 := generate(t0);
      } else {
        network0 := caches.networks[key0];
      }
      var key1 := Key(s, t1, show);
      var network1: N;
      var fresh1 := key1 !in caches.networks;
      if fresh1 {
        network1 := generate(t1);
      } else {
        network1 := caches.networks[key1];
      }
      var table: C;
      var tracking: T;
      var freshMap := key0 !in caches.tables || key0 !in caches.trackings;
      if freshMap {
        table, tracking := clustermap(network0, network1).0, clustermap(network0, network1).1;
      } else {
        table, tracking := caches.tables[key0], caches.trackings[key0];
      }
      d := TimestepData(network0, network1, table, tracking);
      computed := Recomputed(fresh0, fresh1, freshMap);
      SaveNetwork(network0, s, t0, show);
      SaveNetwork(network1, s, t1, show);
      SaveContingencyTable(table, s, t0, show);
      SaveTracking(tracking, s, t0, show);
    }
  }
}
