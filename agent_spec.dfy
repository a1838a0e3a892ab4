/**
 * Reference definitions for the agent: the meta data registry built from
 * the category configuration, the merge of the category results in one
 * poll, and the reporting of a poll's results. Each is defined over the
 * order in which a hash map is iterated, which the model leaves open:
 * the lemmas state what holds for every order.
 */
module AgentSpec {

  import opened Wrappers
  import opened Text
  import opened Constants
  import opened Normaliser
  import opened QueryRunner
  import MetaData

  /** A category record: its attributes by name; a missing name reads as null. */
  type Attributes = map<string, string>

  function Attr(a: Attributes, name: string): Option<string> {
    if name in a then Some(a[name]) else None
  }

  /** `order` lists every element of `keys` once: one iteration over a hash map's keys. */
  ghost predicate IsListing(order: seq<string>, keys: set<string>) {
    (forall i, j :: 0 <= i < j < |order| ==> order[i] != order[j])
    && (forall k :: k in order <==> k in keys)
  }

  // ---------------------------------------------------------------------
  // The meta data registry (`createMetaData`, `addMetricMeta`, `getMetricMeta`)

  /** `addMetricMeta`: meta data is filed under the lowercased key. */
  function Add(reg: map<string, MetaData.MetaSpec>, key: string, spec: MetaData.MetaSpec): map<string, MetaData.MetaSpec> {
    reg[Lower(key) := spec]
  }

  /** `getMetricMeta`: meta data is looked up under the lowercased key; null when absent. */
  function Lookup(reg: map<string, MetaData.MetaSpec>, key: string): Option<MetaData.MetaSpec> {
    if Lower(key) in reg then Some(reg[Lower(key)]) else None
  }

  /** Filing then looking up ignores case: a probe finds what was filed under any spelling of its key. */
  lemma AddThenLookup(reg: map<string, MetaData.MetaSpec>, key: string, spec: MetaData.MetaSpec, probe: string)
    ensures Lookup(Add(reg, key, spec), probe) ==
      if EqualsIgnoreCase(key, Some(probe)) then Some(spec) else Lookup(reg, probe)
  {
  }

  /** A lookup lowercases its argument, so a key and its lowercase spelling find the same meta data. */
  lemma LookupIgnoresCase(reg: map<string, MetaData.MetaSpec>, key: string)
    ensures Lookup(reg, key) == Lookup(reg, Lower(key))
  {
    LowerIdempotent(key);
  }

  /** The names of a metric list attribute: lowercased, spaces removed, split at commas. */
  function MetricNames(list: string): seq<string> {
    JavaSplit(RemoveSpaces(Lower(list)))
  }

  /** The keys a list of names files under in a category. */
  function ListKeys(category: string, names: seq<string>): set<string> {
    set s | s in names :: Lower(category + SEPARATOR + s)
  }

  /** The meta data a list of names files in a category. */
  function NamesMetas(category: string, names: seq<string>, spec: MetaData.MetaSpec): map<string, MetaData.MetaSpec> {
    map k | k in ListKeys(category, names) :: spec
  }

  /** Filing one more name. */
  lemma NamesMetasStep(base: map<string, MetaData.MetaSpec>, category: string, names: seq<string>, i: nat, spec: MetaData.MetaSpec)
    requires i < |names|
    ensures base + NamesMetas(category, names[..i + 1], spec)
      == Add(base + NamesMetas(category, names[..i], spec), category + SEPARATOR + names[i], spec)
  {
    assert names[..i + 1] == names[..i] + [names[i]];
    assert ListKeys(category, names[..i + 1]) == ListKeys(category, names[..i]) + {Lower(category + SEPARATOR + names[i])};
  }

  /** The meta data one list attribute contributes; none when the attribute is absent. */
  function ListMetas(category: string, list: Option<string>, spec: MetaData.MetaSpec): map<string, MetaData.MetaSpec> {
    if list.None? then map[] else NamesMetas(category, MetricNames(list.value), spec)
  }

  const VALUE_META := MetaData.MetaSpec(false, MetaData.DEFAULT_UNIT)
  const COUNTER_META := MetaData.MetaSpec(true, MetaData.DEFAULT_COUNTER_UNIT)

  /** The meta data of one category: its value metrics, then its counter metrics. */
  function CategoryMetas(category: string, a: Attributes): map<string, MetaData.MetaSpec> {
    ListMetas(category, Attr(a, "value_metrics"), VALUE_META) + ListMetas(category, Attr(a, "counter_metrics"), COUNTER_META)
  }

  /** The configured meta data, the categories taken in `order`. */
  function Configured(order: seq<string>, cats: map<string, Attributes>): map<string, MetaData.MetaSpec>
    requires forall c :: c in order ==> c in cats
    decreases |order|
  {
    if order == [] then map[]
    else Configured(order[..|order| - 1], cats) + CategoryMetas(order[|order| - 1], cats[order[|order| - 1]])
  }

  /** Filing one map after another and then a third is filing the second and third together. */
  lemma UnionAssociates(a: map<string, MetaData.MetaSpec>, b: map<string, MetaData.MetaSpec>, c: map<string, MetaData.MetaSpec>)
    ensures (a + b) + c == a + (b + c)
  {
  }

  /** Configuring one more category. */
  lemma ConfiguredStep(order: seq<string>, c: string, cats: map<string, Attributes>)
    requires (forall x :: x in order ==> x in cats) && c in cats
    ensures Configured(order + [c], cats) == Configured(order, cats) + CategoryMetas(c, cats[c])
  {
    assert (order + [c])[..|order|] == order;
  }

  /** The built-in meta data, filed after the configured one, in five groups of five. */
  function WithBuiltins(reg: map<string, MetaData.MetaSpec>): map<string, MetaData.MetaSpec> {
    BuiltinGroup5(BuiltinGroup4(BuiltinGroup3(BuiltinGroup2(BuiltinGroup1(reg)))))
  }

  function BuiltinGroup1(reg: map<string, MetaData.MetaSpec>): map<string, MetaData.MetaSpec> {
    var r := reg;
    var r := Add(r, "overview/TOTAL_APP_COMMITS", MetaData.MetaSpec(false, STATEMENTS_UNIT));
    var r := Add(r, "overview/TOTAL_APP_ROLLBACKS", MetaData.MetaSpec(false, STATEMENTS_UNIT));
    var r := Add(r, "overview/ACT_COMPLETED_TOTAL", MetaData.MetaSpec(false, ACTIVITIES_UNIT));
    var r := Add(r, "overview/APP_RQSTS_COMPLETED_TOTAL", MetaData.MetaSpec(false, REQUESTS_UNIT));
    var r := Add(r, "overview/AVG_RQST_CPU_TIME", MetaData.MetaSpec(false, TIME_UNIT));
    r
  }

  function BuiltinGroup2(reg: map<string, MetaData.MetaSpec>): map<string, MetaData.MetaSpec> {
    var r := reg;
    var r := Add(r, "overview/ROUTINE_TIME_RQST_PERCENT", MetaData.MetaSpec(false, PERCENTAGE_UNIT));
    var r := Add(r, "overview/RQST_WAIT_TIME_PERCENT", MetaData.MetaSpec(false, PERCENTAGE_UNIT));
    var r := Add(r, "overview/ACT_WAIT_TIME_PERCENT", MetaData.MetaSpec(false, PERCENTAGE_UNIT));
    var r := Add(r, "overview/IO_WAIT_TIME_PERCENT", MetaData.MetaSpec(false, PERCENTAGE_UNIT));
    var r := Add(r, "overview/LOCK_WAIT_TIME_ PERCENT", MetaData.MetaSpec(false, PERCENTAGE_UNIT));
    r
  }

  function BuiltinGroup3(reg: map<string, MetaData.MetaSpec>): map<string, MetaData.MetaSpec> {
    var r := reg;
    var r := Add(r, "overview/AGENT_WAIT_TIME_PERCENT", MetaData.MetaSpec(false, PERCENTAGE_UNIT));
    var r := Add(r, "overview/NETWORK_WAIT_TIME_PERCENT", MetaData.MetaSpec(false, PERCENTAGE_UNIT));
    var r := Add(r, "overview/SECTION_PROC_TIME_PERCENT", MetaData.MetaSpec(false, PERCENTAGE_UNIT));
    var r := Add(r, "overview/SECTION_SORT_PROC_TIME_PERCENT", MetaData.MetaSpec(false, PERCENTAGE_UNIT));
    var r := Add(r, "overview/COMPILE_PROC_TIME_PERCENT", MetaData.MetaSpec(false, PERCENTAGE_UNIT));
    r
  }

  function BuiltinGroup4(reg: map<string, MetaData.MetaSpec>): map<string, MetaData.MetaSpec> {
    var r := reg;
    var r := Add(r, "overview/TRANSACT_END_PROC_TIME_PERCENT", MetaData.MetaSpec(false, PERCENTAGE_UNIT));
    var r := Add(r, "overview/UTILS_PROC_TIME_PERCENT", MetaData.MetaSpec(false, PERCENTAGE_UNIT));
    var r := Add(r, "overview/AVG_LOCK_WAITS_PER_ACT", MetaData.MetaSpec(false, TIMES_UNIT));
    var r := Add(r, "overview/AVG_LOCK_TIMEOUTS_PER_ACT", MetaData.MetaSpec(false, TIMES_UNIT));
    var r := Add(r, "overview/AVG_DEADLOCKS_PER_ACT", MetaData.MetaSpec(false, DEFAULT_UNIT));
    r
  }

  function BuiltinGroup5(reg: map<string, MetaData.MetaSpec>): map<string, MetaData.MetaSpec> {
    var r := reg;
    var r := Add(r, "overview/AVG_LOCK_ESCALS_PER_ACT", MetaData.MetaSpec(false, TIMES_UNIT));
    var r := Add(r, "overview/ROWS_READ_PER_ROWS_RETURNED", MetaData.MetaSpec(false, DEFAULT_UNIT));
    var r := Add(r, "overview/TOTAL_BP_HIT_RATIO_PERCENT", MetaData.MetaSpec(false, PERCENTAGE_UNIT));
    var r := Add(r, "connection_overview/connections", MetaData.MetaSpec(false, DEFAULT_UNIT));
    var r := Add(r, "sql_overview/SQL_statements", MetaData.MetaSpec(false, DEFAULT_UNIT));
    r
  }

  /** `createMetaData`: the registry the constructor leaves behind. */
  function Registry(order: seq<string>, cats: map<string, Attributes>): map<string, MetaData.MetaSpec>
    requires forall c :: c in order ==> c in cats
  {
    WithBuiltins(Configured(order, cats))
  }

  /** The characters of a configured metric name: lowercase, no space, no comma. */
  lemma NameChars(list: string, s: string, c: char)
    requires s in MetricNames(list) && c in s
    ensures c != ' ' && c != ',' && LowerChar(c) == c
  {
    var t := RemoveSpaces(Lower(list));
    JavaSplitChars(t, s, c);
    assert c in Lower(list);
    var i :| 0 <= i < |Lower(list)| && Lower(list)[i] == c;
    assert c == LowerChar(list[i]);
  }

  /** The keys under which the built-ins are filed. */
  function BuiltinKeys(): set<string> {
    WithBuiltins(map[]).Keys
  }

  /** Five updates in a row are a union with the five updates on their own. */
  lemma FiveOver(reg: map<string, MetaData.MetaSpec>,
                 k1: string, s1: MetaData.MetaSpec, k2: string, s2: MetaData.MetaSpec, k3: string, s3: MetaData.MetaSpec,
                 k4: string, s4: MetaData.MetaSpec, k5: string, s5: MetaData.MetaSpec)
    ensures reg[k1 := s1][k2 := s2][k3 := s3][k4 := s4][k5 := s5]
         == reg + map[k1 := s1][k2 := s2][k3 := s3][k4 := s4][k5 := s5]
  {
  }

  /** Each group of built-ins overrides what was filed before. */
  lemma Group1Over(reg: map<string, MetaData.MetaSpec>)
    ensures BuiltinGroup1(reg) == reg + BuiltinGroup1(map[])
  {
    FiveOver(reg, Lower("overview/TOTAL_APP_COMMITS"), MetaData.MetaSpec(false, STATEMENTS_UNIT), Lower("overview/TOTAL_APP_ROLLBACKS"), MetaData.MetaSpec(false, STATEMENTS_UNIT), Lower("overview/ACT_COMPLETED_TOTAL"), MetaData.MetaSpec(false, ACTIVITIES_UNIT), Lower("overview/APP_RQSTS_COMPLETED_TOTAL"), MetaData.MetaSpec(false, REQUESTS_UNIT), Lower("overview/AVG_RQST_CPU_TIME"), MetaData.MetaSpec(false, TIME_UNIT));
  }

  lemma Group2Over(reg: map<string, MetaData.MetaSpec>)
    ensures BuiltinGroup2(reg) == reg + BuiltinGroup2(map[])
  {
    FiveOver(reg, Lower("overview/ROUTINE_TIME_RQST_PERCENT"), MetaData.MetaSpec(false, PERCENTAGE_UNIT), Lower("overview/RQST_WAIT_TIME_PERCENT"), MetaData.MetaSpec(false, PERCENTAGE_UNIT), Lower("overview/ACT_WAIT_TIME_PERCENT"), MetaData.MetaSpec(false, PERCENTAGE_UNIT), Lower("overview/IO_WAIT_TIME_PERCENT"), MetaData.MetaSpec(false, PERCENTAGE_UNIT), Lower("overview/LOCK_WAIT_TIME_ PERCENT"), MetaData.MetaSpec(false, PERCENTAGE_UNIT));
  }

  lemma Group3Over(reg: map<string, MetaData.MetaSpec>)
    ensures BuiltinGroup3(reg) == reg + BuiltinGroup3(map[])
  {
    FiveOver(reg, Lower("overview/AGENT_WAIT_TIME_PERCENT"), MetaData.MetaSpec(false, PERCENTAGE_UNIT), Lower("overview/NETWORK_WAIT_TIME_PERCENT"), MetaData.MetaSpec(false, PERCENTAGE_UNIT), Lower("overview/SECTION_PROC_TIME_PERCENT"), MetaData.MetaSpec(false, PERCENTAGE_UNIT), Lower("overview/SECTION_SORT_PROC_TIME_PERCENT"), MetaData.MetaSpec(false, PERCENTAGE_UNIT), Lower("overview/COMPILE_PROC_TIME_PERCENT"), MetaData.MetaSpec(false, PERCENTAGE_UNIT));
  }

  lemma Group4Over(reg: map<string, MetaData.MetaSpec>)
    ensures BuiltinGroup4(reg) == reg + BuiltinGroup4(map[])
  {
    FiveOver(reg, Lower("overview/TRANSACT_END_PROC_TIME_PERCENT"), MetaData.MetaSpec(false, PERCENTAGE_UNIT), Lower("overview/UTILS_PROC_TIME_PERCENT"), MetaData.MetaSpec(false, PERCENTAGE_UNIT), Lower("overview/AVG_LOCK_WAITS_PER_ACT"), MetaData.MetaSpec(false, TIMES_UNIT), Lower("overview/AVG_LOCK_TIMEOUTS_PER_ACT"), MetaData.MetaSpec(false, TIMES_UNIT), Lower("overview/AVG_DEADLOCKS_PER_ACT"), MetaData.MetaSpec(false, DEFAULT_UNIT));
  }

  lemma Group5Over(reg: map<string, MetaData.MetaSpec>)
    ensures BuiltinGroup5(reg) == reg + BuiltinGroup5(map[])
  {
    FiveOver(reg, Lower("overview/AVG_LOCK_ESCALS_PER_ACT"), MetaData.MetaSpec(false, TIMES_UNIT), Lower("overview/ROWS_READ_PER_ROWS_RETURNED"), MetaData.MetaSpec(false, DEFAULT_UNIT), Lower("overview/TOTAL_BP_HIT_RATIO_PERCENT"), MetaData.MetaSpec(false, PERCENTAGE_UNIT), Lower("connection_overview/connections"), MetaData.MetaSpec(false, DEFAULT_UNIT), Lower("sql_overview/SQL_statements"), MetaData.MetaSpec(false, DEFAULT_UNIT));
  }

  /** The keys of five updates on their own. */
  lemma FiveKeys(k1: string, s1: MetaData.MetaSpec, k2: string, s2: MetaData.MetaSpec, k3: string, s3: MetaData.MetaSpec,
                 k4: string, s4: MetaData.MetaSpec, k5: string, s5: MetaData.MetaSpec, k: string)
    ensures k in map[k1 := s1][k2 := s2][k3 := s3][k4 := s4][k5 := s5] <==> k == k1 || k == k2 || k == k3 || k == k4 || k == k5
  {
  }

  /** Five gauges filed on their own give only gauges. */
  lemma FiveGauges(k1: string, s1: MetaData.MetaSpec, k2: string, s2: MetaData.MetaSpec, k3: string, s3: MetaData.MetaSpec,
                   k4: string, s4: MetaData.MetaSpec, k5: string, s5: MetaData.MetaSpec)
    requires !s1.isCounter && !s2.isCounter && !s3.isCounter && !s4.isCounter && !s5.isCounter
    ensures var m := map[k1 := s1][k2 := s2][k3 := s3][k4 := s4][k5 := s5];
      forall k :: k in m ==> !m[k].isCounter
  {
  }

  /** The built-ins are all gauges, group by group. */
  lemma Group1Gauges()
    ensures forall k :: k in BuiltinGroup1(map[]) ==> !BuiltinGroup1(map[])[k].isCounter
  {
    FiveGauges(Lower("overview/TOTAL_APP_COMMITS"), MetaData.MetaSpec(false, STATEMENTS_UNIT), Lower("overview/TOTAL_APP_ROLLBACKS"), MetaData.MetaSpec(false, STATEMENTS_UNIT), Lower("overview/ACT_COMPLETED_TOTAL"), MetaData.MetaSpec(false, ACTIVITIES_UNIT), Lower("overview/APP_RQSTS_COMPLETED_TOTAL"), MetaData.MetaSpec(false, REQUESTS_UNIT), Lower("overview/AVG_RQST_CPU_TIME"), MetaData.MetaSpec(false, TIME_UNIT));
  }

  lemma Group2Gauges()
    ensures forall k :: k in BuiltinGroup2(map[]) ==> !BuiltinGroup2(map[])[k].isCounter
  {
    FiveGauges(Lower("overview/ROUTINE_TIME_RQST_PERCENT"), MetaData.MetaSpec(false, PERCENTAGE_UNIT), Lower("overview/RQST_WAIT_TIME_PERCENT"), MetaData.MetaSpec(false, PERCENTAGE_UNIT), Lower("overview/ACT_WAIT_TIME_PERCENT"), MetaData.MetaSpec(false, PERCENTAGE_UNIT), Lower("overview/IO_WAIT_TIME_PERCENT"), MetaData.MetaSpec(false, PERCENTAGE_UNIT), Lower("overview/LOCK_WAIT_TIME_ PERCENT"), MetaData.MetaSpec(false, PERCENTAGE_UNIT));
  }

  lemma Group3Gauges()
    ensures forall k :: k in BuiltinGroup3(map[]) ==> !BuiltinGroup3(map[])[k].isCounter
  {
    FiveGauges(Lower("overview/AGENT_WAIT_TIME_PERCENT"), MetaData.MetaSpec(false, PERCENTAGE_UNIT), Lower("overview/NETWORK_WAIT_TIME_PERCENT"), MetaData.MetaSpec(false, PERCENTAGE_UNIT), Lower("overview/SECTION_PROC_TIME_PERCENT"), MetaData.MetaSpec(false, PERCENTAGE_UNIT), Lower("overview/SECTION_SORT_PROC_TIME_PERCENT"), MetaData.MetaSpec(false, PERCENTAGE_UNIT), Lower("overview/COMPILE_PROC_TIME_PERCENT"), MetaData.MetaSpec(false, PERCENTAGE_UNIT));
  }

  lemma Group4Gauges()
    ensures forall k :: k in BuiltinGroup4(map[]) ==> !BuiltinGroup4(map[])[k].isCounter
  {
    FiveGauges(Lower("overview/TRANSACT_END_PROC_TIME_PERCENT"), MetaData.MetaSpec(false, PERCENTAGE_UNIT), Lower("overview/UTILS_PROC_TIME_PERCENT"), MetaData.MetaSpec(false, PERCENTAGE_UNIT), Lower("overview/AVG_LOCK_WAITS_PER_ACT"), MetaData.MetaSpec(false, TIMES_UNIT), Lower("overview/AVG_LOCK_TIMEOUTS_PER_ACT"), MetaData.MetaSpec(false, TIMES_UNIT), Lower("overview/AVG_DEADLOCKS_PER_ACT"), MetaData.MetaSpec(false, DEFAULT_UNIT));
  }

  lemma Group5Gauges()
    ensures forall k :: k in BuiltinGroup5(map[]) ==> !BuiltinGroup5(map[])[k].isCounter
  {
    FiveGauges(Lower("overview/AVG_LOCK_ESCALS_PER_ACT"), MetaData.MetaSpec(false, TIMES_UNIT), Lower("overview/ROWS_READ_PER_ROWS_RETURNED"), MetaData.MetaSpec(false, DEFAULT_UNIT), Lower("overview/TOTAL_BP_HIT_RATIO_PERCENT"), MetaData.MetaSpec(false, PERCENTAGE_UNIT), Lower("connection_overview/connections"), MetaData.MetaSpec(false, DEFAULT_UNIT), Lower("sql_overview/SQL_statements"), MetaData.MetaSpec(false, DEFAULT_UNIT));
  }

  /** The built-ins on their own are the union of their groups. */
  lemma BuiltinGroups()
    ensures WithBuiltins(map[]) == BuiltinGroup1(map[]) + BuiltinGroup2(map[]) + BuiltinGroup3(map[]) + BuiltinGroup4(map[]) + BuiltinGroup5(map[])
  {
    var l1, l2, l3 := BuiltinGroup1(map[]), BuiltinGroup2(map[]), BuiltinGroup3(map[]);
    var l4 := BuiltinGroup4(map[]);
    Group2Over(l1);
    Group3Over(l1 + l2);
    Group4Over(l1 + l2 + l3);
    Group5Over(l1 + l2 + l3 + l4);
  }

  /** The built-ins are filed over the registry: filing them is a union with their own map. */
  lemma BuiltinsUnion(reg: map<string, MetaData.MetaSpec>)
    ensures WithBuiltins(reg) == reg + WithBuiltins(map[])
  {
    var l1, l2, l3 := BuiltinGroup1(map[]), BuiltinGroup2(map[]), BuiltinGroup3(map[]);
    var l4, l5 := BuiltinGroup4(map[]), BuiltinGroup5(map[]);
    Group1Over(reg);
    Group2Over(reg + l1);
    Group3Over(reg + l1 + l2);
    Group4Over(reg + l1 + l2 + l3);
    Group5Over(reg + l1 + l2 + l3 + l4);
    assert WithBuiltins(reg) == reg + l1 + l2 + l3 + l4 + l5;
    BuiltinGroups();
    UnionAssociates(reg, l1, l2);
    UnionAssociates(reg, l1 + l2, l3);
    UnionAssociates(reg, l1 + l2 + l3, l4);
    UnionAssociates(reg, l1 + l2 + l3 + l4, l5);
  }

  /** A key of a union of gauge maps is a gauge. */
  lemma UnionGauges(l1: map<string, MetaData.MetaSpec>, l2: map<string, MetaData.MetaSpec>, l3: map<string, MetaData.MetaSpec>,
                    l4: map<string, MetaData.MetaSpec>, l5: map<string, MetaData.MetaSpec>, k: string)
    requires forall x :: x in l1 ==> !l1[x].isCounter
    requires forall x :: x in l2 ==> !l2[x].isCounter
    requires forall x :: x in l3 ==> !l3[x].isCounter
    requires forall x :: x in l4 ==> !l4[x].isCounter
    requires forall x :: x in l5 ==> !l5[x].isCounter
    requires k in l1 + l2 + l3 + l4 + l5
    ensures !(l1 + l2 + l3 + l4 + l5)[k].isCounter
  {
  }

  lemma BuiltinsAreGauges(k: string)
    requires k in BuiltinKeys()
    ensures !WithBuiltins(map[])[k].isCounter
  {
    BuiltinGroups();
    Group1Gauges();
    Group2Gauges();
    Group3Gauges();
    Group4Gauges();
    Group5Gauges();
    UnionGauges(BuiltinGroup1(map[]), BuiltinGroup2(map[]), BuiltinGroup3(map[]), BuiltinGroup4(map[]), BuiltinGroup5(map[]), k);
  }

  /** Filing the built-ins: they override what was filed before and leave everything else alone. */
  lemma WithBuiltinsOver(reg: map<string, MetaData.MetaSpec>, k: string)
    ensures k in WithBuiltins(reg) <==> k in reg || k in BuiltinKeys()
    ensures k in BuiltinKeys() ==>
      k in WithBuiltins(reg) && WithBuiltins(reg)[k] == WithBuiltins(map[])[k] && !WithBuiltins(reg)[k].isCounter
    ensures k !in BuiltinKeys() && k in reg ==> k in WithBuiltins(reg) && WithBuiltins(reg)[k] == reg[k]
  {
    BuiltinsUnion(reg);
    if k in BuiltinKeys() {
      BuiltinsAreGauges(k);
    }
  }

  /** A configured key comes from one of the categories listed. */
  lemma {:induction false} ConfiguredSource(order: seq<string>, cats: map<string, Attributes>, k: string) returns (c: string)
    requires forall c :: c in order ==> c in cats
    requires k in Configured(order, cats)
    ensures c in order && k in CategoryMetas(c, cats[c])
    decreases |order|
  {
    var init := order[..|order| - 1];
    var last := order[|order| - 1];
    assert Configured(order, cats) == Configured(init, cats) + CategoryMetas(last, cats[last]);
    if k in CategoryMetas(last, cats[last]) {
      c := last;
    } else {
      c := ConfiguredSource(init, cats, k);
      assert c in order;
    }
  }

  /** Every key of a category listed is configured. */
  lemma {:induction false} ConfiguredHas(order: seq<string>, cats: map<string, Attributes>, c: string, k: string)
    requires forall c :: c in order ==> c in cats
    requires c in order && k in CategoryMetas(c, cats[c])
    ensures k in Configured(order, cats)
    decreases |order|
  {
    var init := order[..|order| - 1];
    var last := order[|order| - 1];
    assert Configured(order, cats) == Configured(init, cats) + CategoryMetas(last, cats[last]);
    if c != last {
      assert c in init;
      ConfiguredHas(init, cats, c, k);
    }
  }

  /** The configured keys are those of the categories listed. */
  lemma ConfiguredKeys(order: seq<string>, cats: map<string, Attributes>, k: string)
    requires forall c :: c in order ==> c in cats
    ensures k in Configured(order, cats) <==> exists c :: c in order && k in CategoryMetas(c, cats[c])
  {
    if k in Configured(order, cats) {
      var c := ConfiguredSource(order, cats, k);
    }
    if exists c :: c in order && k in CategoryMetas(c, cats[c]) {
      var c :| c in order && k in CategoryMetas(c, cats[c]);
      ConfiguredHas(order, cats, c, k);
    }
  }

  /** A key filed by one category only gets that category's meta data, in every order. */
  lemma {:induction false} ConfiguredValue(order: seq<string>, cats: map<string, Attributes>, c: string, k: string)
    requires forall c' :: c' in order ==> c' in cats
    requires c in order && k in CategoryMetas(c, cats[c])
    requires forall c' :: c' in order && c' != c ==> k !in CategoryMetas(c', cats[c'])
    ensures k in Configured(order, cats) && Configured(order, cats)[k] == CategoryMetas(c, cats[c])[k]
    decreases |order|
  {
    var init := order[..|order| - 1];
    var last := order[|order| - 1];
    assert forall c' :: c' in order <==> c' in init || c' == last;
    if last != c {
      ConfiguredValue(init, cats, c, k);
    }
  }

  /** Within a category a counter metric wins over a value metric of the same name; both get the default units. */
  lemma CategoryMetaKinds(c: string, a: Attributes, k: string)
    ensures var values := if Attr(a, "value_metrics").Some? then ListKeys(c, MetricNames(a["value_metrics"])) else {};
      var counters := if Attr(a, "counter_metrics").Some? then ListKeys(c, MetricNames(a["counter_metrics"])) else {};
      (k in CategoryMetas(c, a) <==> k in values || k in counters)
      && (k in counters ==> CategoryMetas(c, a)[k] == MetaData.MetaSpec(true, "Operations/Second"))
      && (k in values && k !in counters ==> CategoryMetas(c, a)[k] == MetaData.MetaSpec(false, "Operations"))
  {
  }

  /** Category `c` is the only one that files key `k`. */
  predicate OnlyFiledBy(cats: map<string, Attributes>, c: string, k: string) {
    c in cats && k in CategoryMetas(c, cats[c])
    && forall c' :: c' in cats && c' != c ==> k !in CategoryMetas(c', cats[c'])
  }

  /** The registry: the built-ins, and the keys of every configured category, each filed once. */
  lemma RegistryMeta(order: seq<string>, cats: map<string, Attributes>, k: string)
    requires IsListing(order, cats.Keys)
    ensures k in Registry(order, cats) <==> k in BuiltinKeys() || exists c :: c in cats && k in CategoryMetas(c, cats[c])
    ensures k in BuiltinKeys() ==> Registry(order, cats)[k] == WithBuiltins(map[])[k]
    ensures forall c :: k !in BuiltinKeys() && OnlyFiledBy(cats, c, k) ==> Registry(order, cats)[k] == CategoryMetas(c, cats[c])[k]
  {
    ConfiguredKeys(order, cats, k);
    WithBuiltinsOver(Configured(order, cats), k);
    forall c | k !in BuiltinKeys() && OnlyFiledBy(cats, c, k)
      ensures Registry(order, cats)[k] == CategoryMetas(c, cats[c])[k]
    {
      ConfiguredValue(order, cats, c, k);
    }
  }

  /** The keys of the built-ins, as filed. */
  lemma BuiltinKeysAre(k: string)
    ensures k in BuiltinKeys() <==>
      k == Lower("overview/TOTAL_APP_COMMITS") ||
      k == Lower("overview/TOTAL_APP_ROLLBACKS") ||
      k == Lower("overview/ACT_COMPLETED_TOTAL") ||
      k == Lower("overview/APP_RQSTS_COMPLETED_TOTAL") ||
      k == Lower("overview/AVG_RQST_CPU_TIME") ||
      k == Lower("overview/ROUTINE_TIME_RQST_PERCENT") ||
      k == Lower("overview/RQST_WAIT_TIME_PERCENT") ||
      k == Lower("overview/ACT_WAIT_TIME_PERCENT") ||
      k == Lower("overview/IO_WAIT_TIME_PERCENT") ||
      k == Lower("overview/LOCK_WAIT_TIME_ PERCENT") ||
      k == Lower("overview/AGENT_WAIT_TIME_PERCENT") ||
      k == Lower("overview/NETWORK_WAIT_TIME_PERCENT") ||
      k == Lower("overview/SECTION_PROC_TIME_PERCENT") ||
      k == Lower("overview/SECTION_SORT_PROC_TIME_PERCENT") ||
      k == Lower("overview/COMPILE_PROC_TIME_PERCENT") ||
      k == Lower("overview/TRANSACT_END_PROC_TIME_PERCENT") ||
      k == Lower("overview/UTILS_PROC_TIME_PERCENT") ||
      k == Lower("overview/AVG_LOCK_WAITS_PER_ACT") ||
      k == Lower("overview/AVG_LOCK_TIMEOUTS_PER_ACT") ||
      k == Lower("overview/AVG_DEADLOCKS_PER_ACT") ||
      k == Lower("overview/AVG_LOCK_ESCALS_PER_ACT") ||
      k == Lower("overview/ROWS_READ_PER_ROWS_RETURNED") ||
      k == Lower("overview/TOTAL_BP_HIT_RATIO_PERCENT") ||
      k == Lower("connection_overview/connections") ||
      k == Lower("sql_overview/SQL_statements")
  {
    BuiltinGroups();
    FiveKeys(Lower("overview/TOTAL_APP_COMMITS"), MetaData.MetaSpec(false, STATEMENTS_UNIT), Lower("overview/TOTAL_APP_ROLLBACKS"), MetaData.MetaSpec(false, STATEMENTS_UNIT), Lower("overview/ACT_COMPLETED_TOTAL"), MetaData.MetaSpec(false, ACTIVITIES_UNIT), Lower("overview/APP_RQSTS_COMPLETED_TOTAL"), MetaData.MetaSpec(false, REQUESTS_UNIT), Lower("overview/AVG_RQST_CPU_TIME"), MetaData.MetaSpec(false, TIME_UNIT), k);
    FiveKeys(Lower("overview/ROUTINE_TIME_RQST_PERCENT"), MetaData.MetaSpec(false, PERCENTAGE_UNIT), Lower("overview/RQST_WAIT_TIME_PERCENT"), MetaData.MetaSpec(false, PERCENTAGE_UNIT), Lower("overview/ACT_WAIT_TIME_PERCENT"), MetaData.MetaSpec(false, PERCENTAGE_UNIT), Lower("overview/IO_WAIT_TIME_PERCENT"), MetaData.MetaSpec(false, PERCENTAGE_UNIT), Lower("overview/LOCK_WAIT_TIME_ PERCENT"), MetaData.MetaSpec(false, PERCENTAGE_UNIT), k);
    FiveKeys(Lower("overview/AGENT_WAIT_TIME_PERCENT"), MetaData.MetaSpec(false, PERCENTAGE_UNIT), Lower("overview/NETWORK_WAIT_TIME_PERCENT"), MetaData.MetaSpec(false, PERCENTAGE_UNIT), Lower("overview/SECTION_PROC_TIME_PERCENT"), MetaData.MetaSpec(false, PERCENTAGE_UNIT), Lower("overview/SECTION_SORT_PROC_TIME_PERCENT"), MetaData.MetaSpec(false, PERCENTAGE_UNIT), Lower("overview/COMPILE_PROC_TIME_PERCENT"), MetaData.MetaSpec(false, PERCENTAGE_UNIT), k);
    FiveKeys(Lower("overview/TRANSACT_END_PROC_TIME_PERCENT"), MetaData.MetaSpec(false, PERCENTAGE_UNIT), Lower("overview/UTILS_PROC_TIME_PERCENT"), MetaData.MetaSpec(false, PERCENTAGE_UNIT), Lower("overview/AVG_LOCK_WAITS_PER_ACT"), MetaData.MetaSpec(false, TIMES_UNIT), Lower("overview/AVG_LOCK_TIMEOUTS_PER_ACT"), MetaData.MetaSpec(false, TIMES_UNIT), Lower("overview/AVG_DEADLOCKS_PER_ACT"), MetaData.MetaSpec(false, DEFAULT_UNIT), k);
    FiveKeys(Lower("overview/AVG_LOCK_ESCALS_PER_ACT"), MetaData.MetaSpec(false, TIMES_UNIT), Lower("overview/ROWS_READ_PER_ROWS_RETURNED"), MetaData.MetaSpec(false, DEFAULT_UNIT), Lower("overview/TOTAL_BP_HIT_RATIO_PERCENT"), MetaData.MetaSpec(false, PERCENTAGE_UNIT), Lower("connection_overview/connections"), MetaData.MetaSpec(false, DEFAULT_UNIT), Lower("sql_overview/SQL_statements"), MetaData.MetaSpec(false, DEFAULT_UNIT), k);
  }

  // ---------------------------------------------------------------------
  // Gathering (`gatherMetrics`)

  /** The query result the database gives for a category's SQL; a missing SQL makes the query fail. */
  function QueryFor(sql: Option<string>, answer: string -> Query): Query {
    if sql.None? then QueryFailed else answer(sql.value)
  }

  /** What `runSQL` returns for one category record. */
  function CategoryResults(c: string, a: Attributes, answer: string -> Query): map<string, Num> {
    Shaped(c, Attr(a, RESULT), QueryFor(Attr(a, SQL), answer))
  }

  /** The results of the enabled categories, merged in `order`: a later category wins a shared key. */
  function Merged(order: seq<string>, cats: map<string, Attributes>, metrics: set<string>, answer: string -> Query): map<string, Num>
    requires forall c :: c in order ==> c in cats
    decreases |order|
  {
    if order == [] then map[]
    else
      var c := order[|order| - 1];
      var m := Merged(order[..|order| - 1], cats, metrics, answer);
      if c in metrics then m + CategoryResults(c, cats[c], answer) else m
  }

  /** Every merged entry comes from an enabled category's results, and every such key is merged. */
  lemma {:induction false} MergedEntries(order: seq<string>, cats: map<string, Attributes>, metrics: set<string>, answer: string -> Query, k: string)
    requires forall c :: c in order ==> c in cats
    ensures k in Merged(order, cats, metrics, answer) <==>
      exists c :: c in order && c in metrics && k in CategoryResults(c, cats[c], answer)
    ensures k in Merged(order, cats, metrics, answer) ==>
      exists c :: c in order && c in metrics && k in CategoryResults(c, cats[c], answer)
        && Merged(order, cats, metrics, answer)[k] == CategoryResults(c, cats[c], answer)[k]
    decreases |order|
  {
    if order != [] {
      var init := order[..|order| - 1];
      var c := order[|order| - 1];
      MergedEntries(init, cats, metrics, answer, k);
      assert forall c' :: c' in order <==> c' in init || c' == c;
      if c in metrics && k in CategoryResults(c, cats[c], answer) {
        assert Merged(order, cats, metrics, answer)[k] == CategoryResults(c, cats[c], answer)[k];
      }
    }
  }

  /** Only the queries of enabled categories matter: two databases that answer them alike give the same merge. */
  lemma {:induction false} MergedReadsEnabledOnly(order: seq<string>, cats: map<string, Attributes>, metrics: set<string>,
                                                  a1: string -> Query, a2: string -> Query)
    requires forall c :: c in order ==> c in cats
    requires forall c :: c in order && c in metrics ==> QueryFor(Attr(cats[c], SQL), a1) == QueryFor(Attr(cats[c], SQL), a2)
    ensures Merged(order, cats, metrics, a1) == Merged(order, cats, metrics, a2)
    decreases |order|
  {
    if order != [] {
      MergedReadsEnabledOnly(order[..|order| - 1], cats, metrics, a1, a2);
    }
  }

  // ---------------------------------------------------------------------
  // Reporting (`reportMetrics`)

  /** The value handed to the framework: the number itself, or the rate of a counter. */
  datatype Value = Gauge(v: Num) | CounterRate(rate: MetaData.Rate)

  /** One call of the framework's `reportMetric`. */
  datatype Report = Report(key: string, unit: string, value: Value)

  /** The calls made, the values each counter has been fed, and how many keys had meta data. */
  datatype ReportOutcome = ReportOutcome(reports: seq<Report>, inputs: map<string, seq<Num>>, count: nat)

  /** What the counter filed under `mk` has been fed. */
  function Fed(inputs: map<string, seq<Num>>, mk: string): seq<Num> {
    if mk in inputs then inputs[mk] else []
  }

  /** A key whose meta data is a counter. */
  predicate IsCounterKey(specs: map<string, MetaData.MetaSpec>, key: string) {
    Lower(key) in specs && specs[Lower(key)].isCounter
  }

  /** The unit a key is reported with: its meta data's, or the empty default. */
  function UnitFor(specs: map<string, MetaData.MetaSpec>, key: string): string {
    if Lower(key) in specs then specs[Lower(key)].unit else DEFAULT_UNIT
  }

  /** Reporting one key. */
  function ReportOne(o: ReportOutcome, key: string, val: Num, specs: map<string, MetaData.MetaSpec>): ReportOutcome {
    var mk := Lower(key);
    if mk !in specs then ReportOutcome(o.reports + [Report(key, DEFAULT_UNIT, Gauge(val))], o.inputs, o.count)
    else if specs[mk].isCounter then
      var fed := Fed(o.inputs, mk) + [val];
      ReportOutcome(o.reports + [Report(key, specs[mk].unit, CounterRate(MetaData.Rate(fed)))], o.inputs[mk := fed], o.count + 1)
    else ReportOutcome(o.reports + [Report(key, specs[mk].unit, Gauge(val))], o.inputs, o.count + 1)
  }

  /** Reporting the keys of `results` in `order`. */
  function ReportAll(order: seq<string>, results: map<string, Num>, specs: map<string, MetaData.MetaSpec>,
                     inputs: map<string, seq<Num>>): ReportOutcome
    requires forall k :: k in order ==> k in results
    decreases |order|
  {
    if order == [] then ReportOutcome([], inputs, 0)
    else
      var key := order[|order| - 1];
      ReportOne(ReportAll(order[..|order| - 1], results, specs, inputs), key, results[key], specs)
  }

  /** Reporting one more key. */
  lemma ReportAllStep(order: seq<string>, key: string, results: map<string, Num>, specs: map<string, MetaData.MetaSpec>,
                      inputs: map<string, seq<Num>>)
    requires key in results && forall k :: k in order ==> k in results
    ensures forall k :: k in order + [key] ==> k in results
    ensures ReportAll(order + [key], results, specs, inputs) == ReportOne(ReportAll(order, results, specs, inputs), key, results[key], specs)
  {
    assert (order + [key])[..|order|] == order;
  }

  /** The values of the keys in `order` that are filed under `mk`, in that order. */
  function ValuesFor(order: seq<string>, results: map<string, Num>, mk: string): seq<Num>
    requires forall k :: k in order ==> k in results
    decreases |order|
  {
    if order == [] then []
    else
      var key := order[|order| - 1];
      ValuesFor(order[..|order| - 1], results, mk) + (if Lower(key) == mk then [results[key]] else [])
  }

  /** A counter is fed the values of the keys filed under it; no other counter is touched. */
  lemma {:induction false} CountersFed(order: seq<string>, results: map<string, Num>, specs: map<string, MetaData.MetaSpec>,
                                       inputs: map<string, seq<Num>>, mk: string)
    requires forall k :: k in order ==> k in results
    ensures var o := ReportAll(order, results, specs, inputs);
      Fed(o.inputs, mk) == Fed(inputs, mk) + (if mk in specs && specs[mk].isCounter then ValuesFor(order, results, mk) else [])
    decreases |order|
  {
    if order != [] {
      var init := order[..|order| - 1];
      var key := order[|order| - 1];
      CountersFed(init, results, specs, inputs, mk);
      var o := ReportAll(init, results, specs, inputs);
      assert ReportAll(order, results, specs, inputs) == ReportOne(o, key, results[key], specs);
      assert ValuesFor(order, results, mk) == ValuesFor(init, results, mk) + (if Lower(key) == mk then [results[key]] else []);
    }
  }

  /** When every counter already has an entry, reporting adds no entry. */
  lemma {:induction false} CounterEntriesKept(order: seq<string>, results: map<string, Num>, specs: map<string, MetaData.MetaSpec>,
                                              inputs: map<string, seq<Num>>)
    requires forall k :: k in order ==> k in results
    requires forall m :: m in specs && specs[m].isCounter ==> m in inputs
    ensures ReportAll(order, results, specs, inputs).inputs.Keys == inputs.Keys
    decreases |order|
  {
    if order != [] {
      var init := order[..|order| - 1];
      var key := order[|order| - 1];
      CounterEntriesKept(init, results, specs, inputs);
      var o := ReportAll(init, results, specs, inputs);
      assert ReportAll(order, results, specs, inputs) == ReportOne(o, key, results[key], specs);
    }
  }

  /** The value reported for the i-th key: the number itself, or the rate of everything its counter has been fed so far. */
  function ValueAt(order: seq<string>, results: map<string, Num>, specs: map<string, MetaData.MetaSpec>,
                   inputs: map<string, seq<Num>>, i: nat): Value
    requires i < |order| && forall k :: k in order ==> k in results
  {
    var key := order[i];
    if IsCounterKey(specs, key) then
      CounterRate(MetaData.Rate(Fed(inputs, Lower(key)) + ValuesFor(order[..i + 1], results, Lower(key))))
    else Gauge(results[key])
  }

  /** One report per key, in iteration order, with the unit and value its meta data calls for. */
  lemma {:induction false} ReportsInOrder(order: seq<string>, results: map<string, Num>, specs: map<string, MetaData.MetaSpec>,
                                          inputs: map<string, seq<Num>>)
    requires forall k :: k in order ==> k in results
    ensures var rs := ReportAll(order, results, specs, inputs).reports;
      |rs| == |order|
      && forall i :: 0 <= i < |order| ==> rs[i] == Report(order[i], UnitFor(specs, order[i]), ValueAt(order, results, specs, inputs, i))
    decreases |order|
  {
    if order != [] {
      var init := order[..|order| - 1];
      var key := order[|order| - 1];
      ReportsInOrder(init, results, specs, inputs);
      CountersFed(init, results, specs, inputs, Lower(key));
      var o := ReportAll(init, results, specs, inputs);
      var rs := ReportAll(order, results, specs, inputs).reports;
      assert rs == ReportOne(o, key, results[key], specs).reports;
      forall i | 0 <= i < |init|
        ensures rs[i] == Report(order[i], UnitFor(specs, order[i]), ValueAt(order, results, specs, inputs, i))
      {
        assert init[..i + 1] == order[..i + 1];
        assert rs[i] == o.reports[i];
      }
      assert order[..|order|] == order;
      assert ValuesFor(order, results, Lower(key)) == ValuesFor(init, results, Lower(key)) + [results[key]];
      assert order[..|init| + 1] == order;
      if IsCounterKey(specs, key) {
        var mk := Lower(key);
        assert Fed(o.inputs, mk) + [results[key]] == Fed(inputs, mk) + ValuesFor(order, results, mk);
      }
      assert rs[|init|] == Report(key, UnitFor(specs, key), ValueAt(order, results, specs, inputs, |init|));
    }
  }

  /** Every key of the results is reported exactly once, and nothing else is reported. */
  lemma EachKeyReportedOnce(order: seq<string>, results: map<string, Num>, specs: map<string, MetaData.MetaSpec>,
                            inputs: map<string, seq<Num>>, k: string)
    requires IsListing(order, results.Keys)
    ensures var rs := ReportAll(order, results, specs, inputs).reports;
      (forall i :: 0 <= i < |rs| ==> rs[i].key in results)
      && (k in results ==> exists i :: 0 <= i < |rs| && rs[i].key == k && forall j :: 0 <= j < |rs| && rs[j].key == k ==> j == i)
  {
    ReportsInOrder(order, results, specs, inputs);
    if k in results {
      var i :| 0 <= i < |order| && order[i] == k;
      assert ReportAll(order, results, specs, inputs).reports[i].key == k;
    }
  }

  /** The keys in `order` that have meta data. */
  function KeysWithMeta(order: seq<string>, specs: map<string, MetaData.MetaSpec>): set<string> {
    set k | k in order && Lower(k) in specs
  }

  /** Reporting one more key counts it when it has meta data. */
  lemma CountStep(order: seq<string>, results: map<string, Num>, specs: map<string, MetaData.MetaSpec>,
                  inputs: map<string, seq<Num>>)
    requires order != [] && forall k :: k in order ==> k in results
    ensures ReportAll(order, results, specs, inputs).count
         == ReportAll(order[..|order| - 1], results, specs, inputs).count + (if Lower(order[|order| - 1]) in specs then 1 else 0)
  {
  }

  /** The keys with meta data of one more key. */
  lemma KeysWithMetaStep(init: seq<string>, key: string, specs: map<string, MetaData.MetaSpec>)
    ensures KeysWithMeta(init + [key], specs) == KeysWithMeta(init, specs) + (if Lower(key) in specs then {key} else {})
  {
    assert forall x :: x in init + [key] <==> x in init || x == key;
  }

  /** The last key of a listing without repetitions is not among the others, which repeat nothing either. */
  lemma DistinctInit(order: seq<string>)
    requires order != [] && forall i, j :: 0 <= i < j < |order| ==> order[i] != order[j]
    ensures var init := order[..|order| - 1];
      order == init + [order[|order| - 1]] && order[|order| - 1] !in init
      && forall i, j :: 0 <= i < j < |init| ==> init[i] != init[j]
  {
    var init := order[..|order| - 1];
    forall i | 0 <= i < |init|
      ensures init[i] != order[|order| - 1]
    {
      assert init[i] == order[i];
    }
  }

  /** The count is the number of distinct keys that have meta data. */
  lemma {:induction false} CountOfOrder(order: seq<string>, results: map<string, Num>, specs: map<string, MetaData.MetaSpec>,
                                        inputs: map<string, seq<Num>>)
    requires forall k :: k in order ==> k in results
    requires forall i, j :: 0 <= i < j < |order| ==> order[i] != order[j]
    ensures ReportAll(order, results, specs, inputs).count == |KeysWithMeta(order, specs)|
    decreases |order|
  {
    if order == [] {
      assert KeysWithMeta(order, specs) == {};
    } else {
      var init := order[..|order| - 1];
      var key := order[|order| - 1];
      DistinctInit(order);
      CountOfOrder(init, results, specs, inputs);
      CountStep(order, results, specs, inputs);
      KeysWithMetaStep(init, key, specs);
      assert key !in KeysWithMeta(init, specs);
    }
  }

  lemma ReportCount(order: seq<string>, results: map<string, Num>, specs: map<string, MetaData.MetaSpec>,
                    inputs: map<string, seq<Num>>)
    requires IsListing(order, results.Keys)
    ensures ReportAll(order, results, specs, inputs).count == |set k | k in results && Lower(k) in specs|
  {
    CountOfOrder(order, results, specs, inputs);
    assert KeysWithMeta(order, specs) == (set k | k in results && Lower(k) in specs);
  }

  /** A counter filed under the key of one result only is fed exactly that result once. */
  lemma {:induction false} ValuesForSingle(order: seq<string>, results: map<string, Num>, k: string)
    requires forall x :: x in order ==> x in results
    requires forall i, j :: 0 <= i < j < |order| ==> order[i] != order[j]
    requires forall x :: x in order && Lower(x) == Lower(k) ==> x == k
    ensures ValuesFor(order, results, Lower(k)) == if k in order then [results[k]] else []
    decreases |order|
  {
    if order != [] {
      var init := order[..|order| - 1];
      ValuesForSingle(init, results, k);
      assert forall x :: x in order <==> x in init || x == order[|order| - 1];
      if order[|order| - 1] == k {
        assert k !in init;
      }
    }
  }

  lemma SingleKeyFed(order: seq<string>, results: map<string, Num>, specs: map<string, MetaData.MetaSpec>,
                     inputs: map<string, seq<Num>>, k: string)
    requires IsListing(order, results.Keys) && k in results && IsCounterKey(specs, k)
    requires forall x :: x in results && Lower(x) == Lower(k) ==> x == k
    ensures Fed(ReportAll(order, results, specs, inputs).inputs, Lower(k)) == Fed(inputs, Lower(k)) + [results[k]]
  {
    CountersFed(order, results, specs, inputs, Lower(k));
    ValuesForSingle(order, results, k);
  }
}
