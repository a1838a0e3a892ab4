/**
 * The DB2 agent: one per configured database. It builds its meta data
 * registry when constructed and, every poll cycle, takes a connection
 * from its connection cache, runs the SQL of each enabled category and
 * reports what came back to the framework.
 *
 * The framework's `reportMetric` is recorded: every call appends a
 * `Report` to `reports`. The database is the `answer` parameter: the
 * query result it gives for an SQL text.
 */
module Agent {

  import opened Wrappers
  import opened Text
  import opened Constants
  import opened Normaliser
  import opened QueryRunner
  import opened Connection
  import MetaData
  import opened AgentSpec

  /** Defaults the factory fills in. */
  const AGENT_DEFAULT_HOST := "localhost:50000"
  const AGENT_DEFAULT_METRICS := "overview"

  class DB2Agent {
    const name: string
    const host: string
    const database: string
    const user: string
    const passwd: string
    /** The connection properties; the configuration may leave them out. */
    const properties: Option<string>
    /** The enabled categories. */
    const metrics: set<string>
    const metricCategories: map<string, Attributes>
    /** The meta data registry, keyed by lowercased metric key. */
    var metricsMeta: map<string, MetaData.MetricMeta>
    const m: DB2
    var firstReport: bool
    /** The calls made to the framework's `reportMetric`. */
    var reports: seq<Report>

    /** No two keys share an epoch counter. */
    predicate Valid()
      reads this
    {
      forall k1, k2 :: k1 in metricsMeta && k2 in metricsMeta && k1 != k2 && metricsMeta[k1].counter != null
        ==> metricsMeta[k1].counter != metricsMeta[k2].counter
    }

    function Counters(): set<MetaData.EpochCounter?>
      reads this
    {
      set k | k in metricsMeta && metricsMeta[k].counter != null :: metricsMeta[k].counter
    }

    /** The registry as values. */
    function Specs(): map<string, MetaData.MetaSpec>
      reads this
    {
      map k | k in metricsMeta :: metricsMeta[k].Spec()
    }

    /** What each counter has been fed, by key. */
    function CounterInputs(): map<string, seq<Num>>
      reads this, Counters()
    {
      map k | k in metricsMeta && metricsMeta[k].counter != null :: metricsMeta[k].counter.inputs
    }

    /** Freshly built counters have been fed nothing. */
    predicate Unfed()
      reads this, Counters()
    {
      forall k :: k in metricsMeta && metricsMeta[k].counter != null ==> metricsMeta[k].counter.inputs == []
    }

    /** The registry is what `createMetaData` files, for some iteration order of the categories. */
    ghost predicate Registered()
      reads this
    {
      exists order :: IsListing(order, metricCategories.Keys) && Specs() == Registry(order, metricCategories)
    }

    constructor(name: string, host: string, database: string, user: string, passwd: string, properties: Option<string>,
                metrics: set<string>, metricCategories: map<string, Attributes>)
      ensures this.name == name && this.host == host && this.database == database && this.user == user
      ensures this.passwd == passwd && this.properties == properties
      ensures this.metrics == metrics && this.metricCategories == metricCategories
      ensures fresh(m) && m.Fields() == Cache(None, false) && m.effects == []
      ensures firstReport && reports == [] && Valid() && Unfed() && fresh(Counters())
      ensures Registered()
    {
      this.name := name;
      this.host := host;
      this.database := database;
      this.user := user;
      this.passwd := passwd;
      this.properties := properties;
      this.metrics := metrics;
      this.metricCategories := metricCategories;
      metricsMeta := map[];
      m := new DB2();
      firstReport := true;
      reports := [];
      new;
      ghost var order := CreateMetaData();
      assert IsListing(order, metricCategories.Keys) && Specs() == Registry(order, metricCategories);
    }

    /** `addMetricMeta`. */
    method AddMetricMeta(key: string, mm: MetaData.MetricMeta)
      requires Valid() && (mm.counter != null ==> mm.counter !in Counters())
      modifies this
      ensures metricsMeta == old(metricsMeta)[Lower(key) := mm]
      ensures Specs() == Add(old(Specs()), key, mm.Spec()) && Valid()
      ensures Counters() <= old(Counters()) + {mm.counter}
      ensures firstReport == old(firstReport) && reports == old(reports)
    {
      metricsMeta := metricsMeta[Lower(key) := mm];
    }

    /** The inner loop of `createMetaData`: files every name of one list attribute. */
    method AddList(category: string, list: Option<string>, isCounter: bool)
      requires Valid() && Unfed()
      modifies this
      ensures Specs() == old(Specs()) + ListMetas(category, list, if isCounter then COUNTER_META else VALUE_META)
      ensures Valid() && Unfed()
      ensures forall c :: c in Counters() ==> c in old(Counters()) || fresh(c)
      ensures firstReport == old(firstReport) && reports == old(reports)
    {
      if list.None? {
        return;
      }
      var names := MetricNames(list.value);
      ghost var base := Specs();
      ghost var spec := if isCounter then COUNTER_META else VALUE_META;
      for i := 0 to |names|
        invariant Specs() == base + NamesMetas(category, names[..i], spec)
        invariant Valid() && Unfed()
        invariant forall c :: c in Counters() ==> c in old(Counters()) || fresh(c)
        invariant firstReport == old(firstReport) && reports == old(reports)
      {
        AddDefault(category + SEPARATOR + names[i], isCounter);
        NamesMetasStep(base, category, names, i, spec);
      }
      assert names[..|names|] == names;
    }

    /** `addMetricMeta(key, new MetricMeta(isCounter))`: a metric of the default unit of its kind. */
    method AddDefault(key: string, isCounter: bool)
      requires Valid() && Unfed()
      modifies this
      ensures Specs() == Add(old(Specs()), key, if isCounter then COUNTER_META else VALUE_META)
      ensures Valid() && Unfed()
      ensures forall c :: c in Counters() ==> c in old(Counters()) || fresh(c)
      ensures firstReport == old(firstReport) && reports == old(reports)
    {
      var mm := new MetaData.MetricMeta(isCounter);
      AddMetricMeta(key, mm);
    }

    /** `createMetaData`: the configured categories in an unspecified order, then the built-ins. */
    method CreateMetaData() returns (ghost order: seq<string>)
      requires metricsMeta == map[]
      modifies this
      ensures IsListing(order, metricCategories.Keys) && Specs() == Registry(order, metricCategories)
      ensures Valid() && Unfed() && fresh(Counters())
      ensures firstReport == old(firstReport) && reports == old(reports)
    {
      order := AddCategories();
      AddBuiltins();
    }

    /** The loop of `createMetaData` over the configured categories, in an unspecified order. */
    method AddCategories() returns (ghost order: seq<string>)
      requires metricsMeta == map[]
      modifies this
      ensures IsListing(order, metricCategories.Keys) && Specs() == Configured(order, metricCategories)
      ensures Valid() && Unfed() && fresh(Counters())
      ensures firstReport == old(firstReport) && reports == old(reports)
    {
      order := [];
      var remaining := metricCategories.Keys;
      while remaining != {}
        invariant remaining <= metricCategories.Keys
        invariant forall c :: c in order ==> c in metricCategories && c !in remaining
        invariant forall c :: c in metricCategories ==> c in order || c in remaining
        invariant forall i, j :: 0 <= i < j < |order| ==> order[i] != order[j]
        invariant Specs() == Configured(order, metricCategories)
        invariant Valid() && Unfed() && fresh(Counters())
        invariant firstReport == old(firstReport) && reports == old(reports)
        decreases |remaining|
      {
        var category :| category in remaining;
        AddCategory(category);
        ConfiguredStep(order, category, metricCategories);
        order := order + [category];
        remaining := remaining - {category};
      }
    }

    /** One pass of the loop of `createMetaData`: the value metrics of a category, then its counter metrics. */
    method AddCategory(category: string)
      requires category in metricCategories && Valid() && Unfed()
      modifies this
      ensures Specs() == old(Specs()) + CategoryMetas(category, metricCategories[category])
      ensures Valid() && Unfed()
      ensures forall c :: c in Counters() ==> c in old(Counters()) || fresh(c)
      ensures firstReport == old(firstReport) && reports == old(reports)
    {
      var attributes := metricCategories[category];
      ghost var before := Specs();
      AddList(category, Attr(attributes, "value_metrics"), false);
      ghost var values := ListMetas(category, Attr(attributes, "value_metrics"), VALUE_META);
      AddList(category, Attr(attributes, "counter_metrics"), true);
      UnionAssociates(before, values, ListMetas(category, Attr(attributes, "counter_metrics"), COUNTER_META));
    }

    /** The built-in meta data of `createMetaData`, filed after the configured one. */
    method AddBuiltins()
      requires Valid() && Unfed()
      modifies this
      ensures Specs() == WithBuiltins(old(Specs())) && Valid() && Unfed() && Counters() <= old(Counters())
      ensures firstReport == old(firstReport) && reports == old(reports)
    {
      AddGauge("overview/TOTAL_APP_COMMITS", STATEMENTS_UNIT);
      AddGauge("overview/TOTAL_APP_ROLLBACKS", STATEMENTS_UNIT);
      AddGauge("overview/ACT_COMPLETED_TOTAL", ACTIVITIES_UNIT);
      AddGauge("overview/APP_RQSTS_COMPLETED_TOTAL", REQUESTS_UNIT);
      AddGauge("overview/AVG_RQST_CPU_TIME", TIME_UNIT);
      AddGauge("overview/ROUTINE_TIME_RQST_PERCENT", PERCENTAGE_UNIT);
      AddGauge("overview/RQST_WAIT_TIME_PERCENT", PERCENTAGE_UNIT);
      AddGauge("overview/ACT_WAIT_TIME_PERCENT", PERCENTAGE_UNIT);
      AddGauge("overview/IO_WAIT_TIME_PERCENT", PERCENTAGE_UNIT);
      AddGauge("overview/LOCK_WAIT_TIME_ PERCENT", PERCENTAGE_UNIT);
      AddGauge("overview/AGENT_WAIT_TIME_PERCENT", PERCENTAGE_UNIT);
      AddGauge("overview/NETWORK_WAIT_TIME_PERCENT", PERCENTAGE_UNIT);
      AddGauge("overview/SECTION_PROC_TIME_PERCENT", PERCENTAGE_UNIT);
      AddGauge("overview/SECTION_SORT_PROC_TIME_PERCENT", PERCENTAGE_UNIT);
      AddGauge("overview/COMPILE_PROC_TIME_PERCENT", PERCENTAGE_UNIT);
      AddGauge("overview/TRANSACT_END_PROC_TIME_PERCENT", PERCENTAGE_UNIT);
      AddGauge("overview/UTILS_PROC_TIME_PERCENT", PERCENTAGE_UNIT);
      AddGauge("overview/AVG_LOCK_WAITS_PER_ACT", TIMES_UNIT);
      AddGauge("overview/AVG_LOCK_TIMEOUTS_PER_ACT", TIMES_UNIT);
      AddGauge("overview/AVG_DEADLOCKS_PER_ACT", DEFAULT_UNIT);
      AddGauge("overview/AVG_LOCK_ESCALS_PER_ACT", TIMES_UNIT);
      AddGauge("overview/ROWS_READ_PER_ROWS_RETURNED", DEFAULT_UNIT);
      AddGauge("overview/TOTAL_BP_HIT_RATIO_PERCENT", PERCENTAGE_UNIT);
      AddGauge("connection_overview/connections", DEFAULT_UNIT);
      AddGauge("sql_overview/SQL_statements", DEFAULT_UNIT);
    }

    /** `addMetricMeta(key, new MetricMeta(false, unit))`. */
    method AddGauge(key: string, unit: string)
      requires Valid() && Unfed()
      modifies this
      ensures Specs() == Add(old(Specs()), key, MetaData.MetaSpec(false, unit)) && Valid() && Unfed() && Counters() <= old(Counters())
      ensures firstReport == old(firstReport) && reports == old(reports)
    {
      var mm := new MetaData.MetricMeta.WithUnit(false, unit);
      AddMetricMeta(key, mm);
    }

    /** `getMetricMeta`: finds what `addMetricMeta` filed under any spelling of the key. */
    function GetMetricMeta(key: string): (md: Option<MetaData.MetricMeta>)
      reads this
      ensures md.Some? <==> Lookup(Specs(), key).Some?
      ensures md.Some? ==> Lookup(Specs(), key) == Some(md.value.Spec()) && md.value == metricsMeta[Lower(key)]
    {
      if Lower(key) in metricsMeta then Some(metricsMeta[Lower(key)]) else None
    }

    predicate IsReportingForCategory(metricCategory: string) {
      metricCategory in metrics
    }

    /** `newRelicMetrics`: derives nothing, whether or not the overview category is enabled. */
    function NewRelicMetrics(existing: map<string, Num>): (derived: map<string, Num>)
      ensures derived == map[]
      ensures existing + derived == existing
    {
      if !IsReportingForCategory(OVERVIEW_CATEGORY) then map[] else map[]
    }

    /** `gatherMetrics`: the results of every enabled category, merged in an unspecified order. */
    method GatherMetrics(answer: string -> Query) returns (results: map<string, Num>, ghost order: seq<string>)
      ensures IsListing(order, metricCategories.Keys)
      ensures results == Merged(order, metricCategories, metrics, answer)
    {
      results := map[];
      order := [];
      var remaining := metricCategories.Keys;
      while remaining != {}
        invariant remaining <= metricCategories.Keys
        invariant forall c :: c in order ==> c in metricCategories && c !in remaining
        invariant forall c :: c in metricCategories ==> c in order || c in remaining
        invariant forall i, j :: 0 <= i < j < |order| ==> order[i] != order[j]
        invariant results == Merged(order, metricCategories, metrics, answer)
        decreases |remaining|
      {
        var category :| category in remaining;
        var attributes := metricCategories[category];
        if IsReportingForCategory(category) {
          var r := RunSQL(category, Attr(attributes, RESULT), QueryFor(Attr(attributes, SQL), answer));
          results := results + r;
        }
        assert (order + [category])[..|order|] == order;
        order := order + [category];
        remaining := remaining - {category};
      }
      var derived := NewRelicMetrics(results);
      results := results + derived;
    }

    /** `reportMetrics`: reports every key once, in an unspecified order; returns the number of keys with meta data. */
    method ReportMetrics(results: map<string, Num>) returns (count: nat, ghost order: seq<string>)
      requires Valid()
      modifies this, Counters()
      ensures metricsMeta == old(metricsMeta) && firstReport == old(firstReport) && Valid()
      ensures IsListing(order, results.Keys)
      ensures var o := ReportAll(order, results, old(Specs()), old(CounterInputs()));
        reports == old(reports) + o.reports && CounterInputs() == o.inputs && count == o.count
    {
      count := 0;
      order := [];
      ghost var specs := Specs();
      ghost var inputs := CounterInputs();
      ghost var before := reports;
      var remaining := results.Keys;
      while remaining != {}
        invariant metricsMeta == old(metricsMeta) && firstReport == old(firstReport) && Valid()
        invariant remaining <= results.Keys
        invariant forall k :: k in order ==> k in results && k !in remaining
        invariant forall k :: k in results ==> k in order || k in remaining
        invariant forall i, j :: 0 <= i < j < |order| ==> order[i] != order[j]
        invariant var o := ReportAll(order, results, specs, inputs);
          reports == before + o.reports && CounterInputs() == o.inputs && count == o.count
        decreases |remaining|
      {
        var key :| key in remaining;
        ghost var o := ReportAll(order, results, specs, inputs);
        var counted, rep := ReportKey(key, results[key], o);
        if counted {
          count := count + 1;
        }
        ReportAllStep(order, key, results, specs, inputs);
        order := order + [key];
        remaining := remaining - {key};
      }
    }

    /** The body of the loop of `reportMetrics`: one call of `reportMetric`, through the epoch counter for a counter metric. */
    method ReportKey(key: string, val: Num, ghost o: ReportOutcome) returns (counted: bool, rep: Report)
      requires Valid() && CounterInputs() == o.inputs
      modifies this, Counters()
      ensures metricsMeta == old(metricsMeta) && firstReport == old(firstReport) && Valid()
      ensures var n := ReportOne(o, key, val, Specs());
        n.reports == o.reports + [rep] && reports == old(reports) + [rep]
        && CounterInputs() == n.inputs && n.count == o.count + (if counted then 1 else 0)
    {
      var md := GetMetricMeta(key);
      counted := md.Some?;
      if md.None? {
        rep := Report(key, DEFAULT_UNIT, Gauge(val));
      } else if md.value.IsCounter() {
        var c := md.value.counter;
        ghost var mk := Lower(key);
        ghost var fedBefore := CounterInputs();
        var rate := c.Process(val);
        assert CounterInputs() == fedBefore[mk := fedBefore[mk] + [val]] by {
          forall k | k in metricsMeta && metricsMeta[k].counter != null && k != mk
            ensures metricsMeta[k].counter.inputs == fedBefore[k]
          {
            assert metricsMeta[k].counter != c;
          }
        }
        rep := Report(key, md.value.unit, CounterRate(rate));
      } else {
        rep := Report(key, md.value.unit, Gauge(val));
      }
      reports := reports + [rep];
    }

    /**
     * `pollCycle`: `o` is what the connection cache did; without a connection nothing else happens,
     * otherwise the gathered results are reported and `firstReport` is cleared.
     */
    method PollCycle(d: Driver, answer: string -> Query)
      returns (ghost o: Outcome, ghost catOrder: seq<string>, ghost keyOrder: seq<string>)
      requires Valid()
      modifies this, m, Counters()
      ensures o == Connect(old(m.Fields()), host, database, user, passwd, d)
      ensures m.Fields() == o.cache && m.effects == old(m.effects) + o.effects
      ensures metricsMeta == old(metricsMeta) && Valid()
      ensures o.conn.None? ==> firstReport == old(firstReport) && reports == old(reports) && CounterInputs() == old(CounterInputs())
      ensures o.conn.Some? ==> !firstReport && IsListing(catOrder, metricCategories.Keys)
      ensures o.conn.Some? && IsListing(catOrder, metricCategories.Keys) ==>
        var results := Merged(catOrder, metricCategories, metrics, answer);
        IsListing(keyOrder, results.Keys) && Reported(keyOrder, results, old(Specs()), old(CounterInputs()), old(reports))
    {
      o := Connect(m.Fields(), host, database, user, passwd, d);
      catOrder, keyOrder := [], [];
      ghost var specs, inputs, before := Specs(), CounterInputs(), reports;
      var c := m.GetConnection(host, database, user, passwd, properties, d);
      assert Specs() == specs && CounterInputs() == inputs;
      if c.None? {
        return;
      }
      catOrder, keyOrder := GatherAndReport(answer);
    }

    /** What `pollCycle` does once it has a connection: gathers, reports and clears `firstReport`. */
    method GatherAndReport(answer: string -> Query) returns (ghost catOrder: seq<string>, ghost keyOrder: seq<string>)
      requires Valid()
      modifies this, Counters()
      ensures metricsMeta == old(metricsMeta) && Valid() && !firstReport
      ensures IsListing(catOrder, metricCategories.Keys)
      ensures IsListing(catOrder, metricCategories.Keys) ==>
        var results := Merged(catOrder, metricCategories, metrics, answer);
        IsListing(keyOrder, results.Keys) && Reported(keyOrder, results, old(Specs()), old(CounterInputs()), old(reports))
    {
      ghost var specs, inputs, before := Specs(), CounterInputs(), reports;
      var results;
      results, catOrder := GatherMetrics(answer);
      var count;
      count, keyOrder := ReportMetrics(results);
      assert Reported(keyOrder, results, specs, inputs, before);
      firstReport := false;
    }

    /** The reports and counter inputs are those of reporting `results` in `order`, starting from `specs`, `inputs` and `before`. */
    ghost predicate Reported(order: seq<string>, results: map<string, Num>, specs: map<string, MetaData.MetaSpec>,
                             inputs: map<string, seq<Num>>, before: seq<Report>)
      reads this, Counters()
    {
      IsListing(order, results.Keys) &&
      var r := ReportAll(order, results, specs, inputs);
      reports == before + r.reports && CounterInputs() == r.inputs
    }

    /** `areRequiredMetricsPresent`: whether every key is present; otherwise the first missing one is the one logged. */
    method AreRequiredMetricsPresent(category: string, results: map<string, Num>, keys: seq<string>) returns (present: bool)
      ensures present <==> forall i :: 0 <= i < |keys| ==> keys[i] in results
      ensures !present ==> exists i :: 0 <= i < |keys| && keys[i] !in results && forall j :: 0 <= j < i ==> keys[j] in results
    {
      for i := 0 to |keys|
        invariant forall j :: 0 <= j < i ==> keys[j] in results
      {
        if keys[i] !in results {
          return false;
        }
      }
      return true;
    }
  }
}
