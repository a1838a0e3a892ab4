# A verified model of the New Relic DB2 plugin

The plugin polls DB2 databases and reports what it finds to New Relic, one agent per
configured database. On every poll cycle an agent does four things:

- it takes a JDBC connection from its connection cache, which pings the cached connection
  and reconnects when the ping fails;
- it runs the SQL of every enabled metric category;
- it shapes each result into metric keys and numbers;
- it reports every key to the framework. The unit comes from the agent's meta data
  registry, and a counter metric's value is first fed through its epoch counter.

This project models that core in Dafny and proves what it promises.

It is organised as one module per part of the program.

| module | file | models |
|---|---|---|
| `Wrappers` | `wrappers.dfy` | `Option` for Java's `null`, `Result` for a thrown exception |
| `Constants` | `constants.dfy` | the `static final` strings of `Constants.java` |
| `Text` | `text.dfy` | `toLowerCase`, `equalsIgnoreCase`, `replaceAll(" ", "")` and `split(",")`, with the exact behaviour of `split` (trailing empty pieces dropped) |
| `Normaliser` | `normaliser.dfy` | `transformStringMetric`, `validMetricValue` (a hand-written recogniser of `(-)?(\.)?\d+(\.\d+)?`, proved equal to the pattern), `translateStringToNumber` and `buildString` |
| `MetaData` | `metric_meta.dfy` | `MetricMeta` as a class with constant `unit` and `counter` fields; the framework's `EpochCounter` as a class that records what it is fed |
| `QueryRunner` | `query_runner.dfy` | `runSQL` over an abstract result set: column names, rows of nullable strings, and the cell at which reading raises |
| `Connection` | `connection.dfy` | the connection cache (`getConnection`, `getNewConnection`, `isConnectionValid`, `closeConnection`) as a class over the fields `conn` and `connectionInitialized`; the `Driver` parameter decides what the driver and server answer |
| `AgentSpec` | `agent_spec.dfy` | reference definitions of the registry, the merge of one poll's results and the reporting, each over an iteration order |
| `Agent` | `agent.dfy` | `DB2Agent`: the constructor and `createMetaData`, `getMetricMeta`, `gatherMetrics`, `newRelicMetrics`, `reportMetrics`, `pollCycle`, `areRequiredMetricsPresent` |
| `Factory` | `factory.dfy` | `createConfiguredAgent`, `processMetricCategories` and `readCategoryConfiguration` |
| `WorkedExamples` | `worked_examples.dfy` | concrete results shaped by `runSQL`, and the built-in lock-wait key |

How Java constructs are modelled:

- Null is `None`. A thrown `ConfigurationException` is a `Failure`.
- An `SQLException` inside `runSQL` is caught, as in the source. The result is then the
  entries gathered before the failing cell.
- A JDBC connection is a `Handle`. Every call into the driver or server is recorded as an
  `Effect` in the ghost field `effects`.
- The database is a function `answer` from an SQL text to a query result.
- Every call of the framework's `reportMetric` appends a `Report` (key, unit, value) to the
  agent's `reports` field.
- Java's `HashMap` iterates in an unspecified order. The loops over categories and result
  keys therefore pick any remaining element. Each returns the order it took as a ghost
  out-parameter, and every property is proved for every such order.
- A float produced by `Float.parseFloat` is known only by the text it was parsed from
  (`Num = Parsed(text)`).
- An epoch counter's rate is known only by the values the counter was fed (`Rate(inputs)`).
  Because each counter is an object whose `inputs` field persists across poll cycles,
  rate state carries over from one cycle to the next, as in the source. `Valid()` says that
  no two registry keys share one counter.

Two details of the source are kept as written:

- The built-in key `"overview/LOCK_WAIT_TIME_ PERCENT"` has a space before `PERCENT`
  (DB2Agent.java line 258). A column `LOCK_WAIT_TIME_PERCENT` of the `overview` query
  therefore produces a key that does not match this built-in. The worked examples
  `LockWaitKeyKeepsSpace`, `LockWaitFiled` and `LockWaitColumnMissesBuiltin` state this.
- Two `DEFAULT_UNIT` constants exist. Unregistered metrics are reported with
  `Constants.DEFAULT_UNIT`, the empty string. `MetricMeta`'s own `DEFAULT_UNIT` is
  `"Operations"`, with `"Operations/Second"` for counters.

## Model

| member | source | states |
|---|---|---|
| Text.Lower | newrelic_db2_java_plugin/src/com/newrelic/plugins/db2/instance/DB2Agent.java:288 | lowercasing keeps the length and lowercases each ASCII letter, leaving every other character alone |
| Text.LowerIdempotent | newrelic_db2_java_plugin/src/com/newrelic/plugins/db2/instance/DB2Agent.java:287-301 | lowercasing a lowercased key changes nothing, so filing and looking up under `toLowerCase` agree |
| Text.RemoveSpaces | newrelic_db2_java_plugin/src/com/newrelic/plugins/db2/DB2.java:215-216 | the result has no space, every character of it comes from the input, and an input without spaces comes back unchanged |
| Text.RemoveSpacesSingle | newrelic_db2_java_plugin/src/com/newrelic/plugins/db2/DB2.java:216 | a lone space is removed and any other lone character is kept |
| Text.RemoveSpacesConcat | newrelic_db2_java_plugin/src/com/newrelic/plugins/db2/DB2.java:216 | stripping spaces from a concatenation is the concatenation of the stripped parts, so with the single-character case every non-space character is kept in its order |
| Text.RemoveSpacesCounts | newrelic_db2_java_plugin/src/com/newrelic/plugins/db2/DB2.java:216 | every character other than the space is kept exactly as often as it occurs; spaces occur zero times |
| Text.JoinPieces | newrelic_db2_java_plugin/src/com/newrelic/plugins/db2/instance/DB2AgentFactory.java:96 | joining the comma-separated pieces with commas gives back the input |
| Text.DropTrailingEmpty | newrelic_db2_java_plugin/src/com/newrelic/plugins/db2/instance/DB2AgentFactory.java:96 | dropping trailing empty pieces leaves a prefix of the pieces and removes only empty pieces; the result does not end with an empty piece |
| Text.JavaSplit | newrelic_db2_java_plugin/src/com/newrelic/plugins/db2/instance/DB2AgentFactory.java:96 | `split(",")` gives `[s]` when `s` has no comma (so `""` gives `[""]`); otherwise it gives the pieces with trailing empty ones dropped |
| Text.JavaSplitNonEmpty | newrelic_db2_java_plugin/src/com/newrelic/plugins/db2/instance/DB2AgentFactory.java:96-98 | `split` keeps every non-empty piece between commas |
| Text.JavaSplitChars | newrelic_db2_java_plugin/src/com/newrelic/plugins/db2/instance/DB2Agent.java:233 | no piece of `split(",")` contains a comma, and every character of a piece occurs in the input |
| Normaliser.TransformIsTableLookup | newrelic_db2_java_plugin/src/com/newrelic/plugins/db2/DB2.java:231-247 | the chain of case-insensitive tests is a lookup of the lowercased value in the token table: ON, TRUE, YES, LOCAL_CATCHUP and CONNECTED give "1"; OFF, NONE, NO and DISCONNECTED give "0"; NULL gives "-1"; CONGESTED, REMOTE_CATCHUP_PENDING, REMOTE_CATCHUP and PEER give "2" to "5"; anything else, null included, comes back unchanged |
| Normaliser.TransformPassesThrough | newrelic_db2_java_plugin/src/com/newrelic/plugins/db2/DB2.java:246 | a string that is no token, DISCONNECTED_PEER, and null all come back unchanged |
| Normaliser.NumericTextPasses | newrelic_db2_java_plugin/src/com/newrelic/plugins/db2/DB2.java:231-247 | a string of digits, signs and points is never translated |
| Normaliser.TransformIdempotent | newrelic_db2_java_plugin/src/com/newrelic/plugins/db2/DB2.java:231-247 | transforming twice gives the same result as transforming once |
| Normaliser.CodesAreValid | newrelic_db2_java_plugin/src/com/newrelic/plugins/db2/util/Constants.java:51-57 | each numeric encoding passes `validMetricValue` |
| Normaliser.TransformedTokensAreValid | newrelic_db2_java_plugin/src/com/newrelic/plugins/db2/DB2.java:232-245 | whatever the transformation changes, it changes into a value `validMetricValue` accepts |
| Normaliser.RecogniserIsPattern | newrelic_db2_java_plugin/src/com/newrelic/plugins/db2/util/Constants.java:24 | the hand-written recogniser accepts a string exactly when it splits into an optional "-", an optional ".", a non-empty digit run and an optional "." followed by a non-empty digit run |
| Normaliser.ValidMetricValue | newrelic_db2_java_plugin/src/com/newrelic/plugins/db2/DB2.java:255-263 | true exactly when the value is non-null, non-empty and matches the pattern as a whole |
| Normaliser.ValidCharacters | newrelic_db2_java_plugin/src/com/newrelic/plugins/db2/util/Constants.java:24 | an accepted string contains only digits, "-" and ".", and in particular no space |
| Normaliser.PatternAccepts | newrelic_db2_java_plugin/src/com/newrelic/plugins/db2/util/Constants.java:24 | "-1", "3.14", ".5", "-.5" and ".5.5" are accepted |
| Normaliser.PatternRejects | newrelic_db2_java_plugin/src/com/newrelic/plugins/db2/DB2.java:255-263 | "1.", "+1", "1e5", " 1", "abc", "" and null are rejected |
| Normaliser.TranslateStringToNumber | newrelic_db2_java_plugin/src/com/newrelic/plugins/db2/DB2.java:213-223 | the parsed text is the input with all its spaces removed; a value without spaces is parsed as it stands |
| Normaliser.TranslateValid | newrelic_db2_java_plugin/src/com/newrelic/plugins/db2/DB2.java:213-218 | a valid metric value is parsed unchanged |
| Normaliser.BuildString | newrelic_db2_java_plugin/src/com/newrelic/plugins/db2/DB2.java:265-274 | the result is the concatenation of the arguments, with null and empty arguments skipped |
| Normaliser.ConcatOfThree | newrelic_db2_java_plugin/src/com/newrelic/plugins/db2/DB2.java:163 | for three non-null parts, skipping empty ones is plain concatenation, so a key is prefix + "/" + column |
| MetaData.EpochCounter.constructor | newrelic_db2_java_plugin/src/com/newrelic/plugins/db2/MetricMeta.java:28 | a new epoch counter has been fed nothing |
| MetaData.EpochCounter.Process | newrelic_db2_java_plugin/src/com/newrelic/plugins/db2/instance/DB2Agent.java:186 | the value is appended to what the counter has been fed, and the rate returned is that of everything fed so far |
| MetaData.MetricMeta.WithUnit | newrelic_db2_java_plugin/src/com/newrelic/plugins/db2/MetricMeta.java:25-30 | the given unit is kept verbatim; a counter object exists exactly when `isCounter` is true, and it is fresh and unfed |
| MetaData.MetricMeta.constructor | newrelic_db2_java_plugin/src/com/newrelic/plugins/db2/MetricMeta.java:32-37 | the unit is "Operations/Second" for a counter and "Operations" otherwise; a counter object exists exactly when `isCounter` is true |
| MetaData.DefaultMetricMeta | newrelic_db2_java_plugin/src/com/newrelic/plugins/db2/MetricMeta.java:39-41 | a fresh counter with unit "Operations/Second" |
| MetaData.MetricMeta.ToString | newrelic_db2_java_plugin/src/com/newrelic/plugins/db2/MetricMeta.java:55-63 | the text reads back as this meta data's kind and unit, and it starts with "[counter]" exactly when the meta data is a counter |
| MetaData.ParseDescribe | newrelic_db2_java_plugin/src/com/newrelic/plugins/db2/MetricMeta.java:55-63 | "[counter]" (for counters only) + "(" + unit + ")" can be read back into the kind and unit |
| QueryRunner.RowValues | newrelic_db2_java_plugin/src/com/newrelic/plugins/db2/DB2.java:159-167 | a row contributes one value per column |
| QueryRunner.RowValuesAt | newrelic_db2_java_plugin/src/com/newrelic/plugins/db2/DB2.java:160-164 | a cell contributes a value exactly when it is read before the failing cell and its transformed value is valid; the value is the parsed transformed text |
| QueryRunner.PutCell | newrelic_db2_java_plugin/src/com/newrelic/plugins/db2/DB2.java:160-165 | one pass of the column loop stores the cell's number under prefix/lower(column) when the cell's value is valid, and changes nothing otherwise |
| QueryRunner.PutColumns | newrelic_db2_java_plugin/src/com/newrelic/plugins/db2/DB2.java:159-167 | the column loop adds the row's entries from the given column on; when it stops early, the failing cell is in this row or an earlier one |
| QueryRunner.PutRows | newrelic_db2_java_plugin/src/com/newrelic/plugins/db2/DB2.java:174-185 | the row loop of a `set` result files every row under its own namespace, stopping at the failing cell |
| QueryRunner.RunSQL | newrelic_db2_java_plugin/src/com/newrelic/plugins/db2/DB2.java:146-206 | `runSQL` returns the shaped map of the result; every SQLException is caught, and the entries gathered before it are kept |
| QueryRunner.StopsAtFault | newrelic_db2_java_plugin/src/com/newrelic/plugins/db2/DB2.java:189-190 | no cell at or after the failing cell contributes anything |
| QueryRunner.ColumnEntriesKeys | newrelic_db2_java_plugin/src/com/newrelic/plugins/db2/DB2.java:159-167 | the keys a row gives are exactly prefix/lower(column) for its columns that have a value |
| QueryRunner.KeyInjective | newrelic_db2_java_plugin/src/com/newrelic/plugins/db2/DB2.java:163 | under one prefix, different lowercased column names give different keys |
| QueryRunner.ColumnEntriesValue | newrelic_db2_java_plugin/src/com/newrelic/plugins/db2/DB2.java:164 | a key holds the value of the last column that produces it |
| QueryRunner.RowShapeKeys | newrelic_db2_java_plugin/src/com/newrelic/plugins/db2/DB2.java:157-168 | shape `row`: the keys are exactly category/lower(column) for the columns of the first row whose value is read and valid; no row gives no key |
| QueryRunner.RowShapeValue | newrelic_db2_java_plugin/src/com/newrelic/plugins/db2/DB2.java:157-168 | shape `row`: each such key holds its cell's number, unless a later valid column has the same lowercased name |
| QueryRunner.RowShapeFirstRowOnly | newrelic_db2_java_plugin/src/com/newrelic/plugins/db2/DB2.java:158 | shape `row`: rows after the first do not matter |
| QueryRunner.ShapedEmpty | newrelic_db2_java_plugin/src/com/newrelic/plugins/db2/DB2.java:146-206 | the map is empty when the query fails, when the type is neither "row" nor "set", when a `row` result has no row, or when a `set` result has no identity first column |
| QueryRunner.ShapeTagIsCaseSensitive | newrelic_db2_java_plugin/src/com/newrelic/plugins/db2/DB2.java:157 | the type is compared exactly: "ROW" and null give an empty map |
| QueryRunner.SetEntriesKeys | newrelic_db2_java_plugin/src/com/newrelic/plugins/db2/DB2.java:174-185 | the keys of the rows gathered are exactly those that their cells with a value produce, from the second column on |
| QueryRunner.SetShapeKeys | newrelic_db2_java_plugin/src/com/newrelic/plugins/db2/DB2.java:169-187 | shape `set`: keys exist only when the first column is TBSP_NAME, BP_NAME or STANDBY_ID in any case; each row r then yields exactly category_<first cell>/lower(column) for its read, valid columns from the second on |
| QueryRunner.FaultOnlyDropsKeys | newrelic_db2_java_plugin/src/com/newrelic/plugins/db2/DB2.java:189-190 | a failing cell only loses keys: each key returned is also returned for the same result read without a failure |
| QueryRunner.IdentityColumns | newrelic_db2_java_plugin/src/com/newrelic/plugins/db2/DB2.java:171-173 | the identity columns are exactly those whose lowercase name is tbsp_name, bp_name or standby_id |
| Connection.DB2.constructor | newrelic_db2_java_plugin/src/com/newrelic/plugins/db2/DB2.java:27-28 | nothing is cached and the driver is not loaded |
| Connection.DB2.GetNewConnection | newrelic_db2_java_plugin/src/com/newrelic/plugins/db2/DB2.java:42-64 | the driver is loaded unless it loaded before, and a failed load gives null; then one connection is asked for with the URL jdbc:db2://host/database |
| Connection.DB2.IsConnectionValid | newrelic_db2_java_plugin/src/com/newrelic/plugins/db2/DB2.java:92-121 | false when nothing is cached, otherwise whether the ping succeeds; the fields are unchanged |
| Connection.DB2.CloseConnection | newrelic_db2_java_plugin/src/com/newrelic/plugins/db2/DB2.java:126-135 | the cached connection is cleared only when closing succeeds |
| Connection.DB2.GetConnection | newrelic_db2_java_plugin/src/com/newrelic/plugins/db2/DB2.java:75-85 | `getConnection` acts as the reference `Connect` describes, on the fields and on the driver calls |
| Connection.ConnectCaches | newrelic_db2_java_plugin/src/com/newrelic/plugins/db2/DB2.java:75-85 | the connection returned is always the one left in the cache |
| Connection.HealthyConnectionReused | newrelic_db2_java_plugin/src/com/newrelic/plugins/db2/DB2.java:80 | a cached connection that answers the ping is returned as it is, after the ping alone; nothing is opened |
| Connection.BrokenConnectionReplaced | newrelic_db2_java_plugin/src/com/newrelic/plugins/db2/DB2.java:80-83 | a failed ping is followed by a close and exactly one new attempt (when the driver is available); the old connection leaves the cache even when closing it fails |
| Connection.EmptyCacheOpensOnce | newrelic_db2_java_plugin/src/com/newrelic/plugins/db2/DB2.java:76-77 | with nothing cached there is no ping and no close, and exactly one connection is asked for (when the driver is available) |
| Connection.OpensOfNew | newrelic_db2_java_plugin/src/com/newrelic/plugins/db2/DB2.java:50-56 | `getNewConnection` makes at most one load and one request, and never a ping or a close |
| Connection.OpensWithConfiguredUrl | newrelic_db2_java_plugin/src/com/newrelic/plugins/db2/DB2.java:45 | every request uses jdbc:db2://host/database and the configured user and password; the properties are not used |
| Connection.DriverLoadedUntilSuccess | newrelic_db2_java_plugin/src/com/newrelic/plugins/db2/DB2.java:51-55 | the driver load is attempted exactly when a connection is needed and the driver never loaded; once loaded it stays loaded; a failed load asks for no connection |
| Connection.DriverLoadsOnce | newrelic_db2_java_plugin/src/com/newrelic/plugins/db2/DB2.java:51-55 | once the driver has loaded, no later call of a run loads it again |
| AgentSpec.AddThenLookup | newrelic_db2_java_plugin/src/com/newrelic/plugins/db2/instance/DB2Agent.java:287-301 | after filing under a key, a lookup finds the new meta data under any spelling of that key that is equal ignoring case, and finds the old entries otherwise |
| AgentSpec.LookupIgnoresCase | newrelic_db2_java_plugin/src/com/newrelic/plugins/db2/instance/DB2Agent.java:299-301 | `getMetricMeta(k)` equals `getMetricMeta(lower(k))` |
| AgentSpec.NamesMetasStep | newrelic_db2_java_plugin/src/com/newrelic/plugins/db2/instance/DB2Agent.java:234-236 | filing one more name of a list adds its lowercased key category/name |
| AgentSpec.NameChars | newrelic_db2_java_plugin/src/com/newrelic/plugins/db2/instance/DB2Agent.java:233 | a configured metric name is lowercase and has no space and no comma |
| AgentSpec.ConfiguredStep | newrelic_db2_java_plugin/src/com/newrelic/plugins/db2/instance/DB2Agent.java:227-246 | configuring one more category files its value metrics and its counter metrics over what was filed before |
| AgentSpec.ConfiguredKeys | newrelic_db2_java_plugin/src/com/newrelic/plugins/db2/instance/DB2Agent.java:225-246 | the configured keys are exactly those of the configured categories, whatever the order |
| AgentSpec.ConfiguredValue | newrelic_db2_java_plugin/src/com/newrelic/plugins/db2/instance/DB2Agent.java:225-246 | a key that only one category files gets that category's meta data, in every order |
| AgentSpec.CategoryMetaKinds | newrelic_db2_java_plugin/src/com/newrelic/plugins/db2/instance/DB2Agent.java:231-245 | within a category, the keys are those of both lists; a counter name is a counter in "Operations/Second", even when it is also a value name; a value name only is a gauge in "Operations" |
| AgentSpec.BuiltinsUnion | newrelic_db2_java_plugin/src/com/newrelic/plugins/db2/instance/DB2Agent.java:249-277 | filing the 25 built-ins overrides the registry with the built-ins' own map |
| AgentSpec.BuiltinsAreGauges | newrelic_db2_java_plugin/src/com/newrelic/plugins/db2/instance/DB2Agent.java:249-277 | every built-in is a gauge |
| AgentSpec.WithBuiltinsOver | newrelic_db2_java_plugin/src/com/newrelic/plugins/db2/instance/DB2Agent.java:248-277 | after the built-ins, a key is registered exactly when it was configured or is built in; a built-in key has the built-in's gauge meta data, overriding a configured entry; any other key keeps its configured meta data |
| AgentSpec.BuiltinKeysAre | newrelic_db2_java_plugin/src/com/newrelic/plugins/db2/instance/DB2Agent.java:249-277 | the built-in keys are exactly the 25 lowercased keys of the source, the lock-wait key with its space |
| AgentSpec.RegistryMeta | newrelic_db2_java_plugin/src/com/newrelic/plugins/db2/instance/DB2Agent.java:223-279 | the registry holds the built-ins and the keys of every configured category, in every iteration order; a built-in wins, and a key only one category files has that category's meta data |
| AgentSpec.MergedEntries | newrelic_db2_java_plugin/src/com/newrelic/plugins/db2/instance/DB2Agent.java:130-145 | a merged key comes from the results of an enabled category and holds that category's value, and every key of an enabled category's results is merged |
| AgentSpec.MergedReadsEnabledOnly | newrelic_db2_java_plugin/src/com/newrelic/plugins/db2/instance/DB2Agent.java:139-140 | only the queries of enabled categories are run: databases that agree on those give the same merge |
| AgentSpec.ReportAllStep | newrelic_db2_java_plugin/src/com/newrelic/plugins/db2/instance/DB2Agent.java:176-199 | reporting one more key is reporting the keys before it, then that key |
| AgentSpec.CountersFed | newrelic_db2_java_plugin/src/com/newrelic/plugins/db2/instance/DB2Agent.java:185-186 | a registered counter is fed the values of the result keys filed under it, in iteration order; no other counter changes |
| AgentSpec.CounterEntriesKept | newrelic_db2_java_plugin/src/com/newrelic/plugins/db2/instance/DB2Agent.java:185-186 | when every counter already has an entry, reporting adds no entry |
| AgentSpec.ReportsInOrder | newrelic_db2_java_plugin/src/com/newrelic/plugins/db2/instance/DB2Agent.java:176-199 | one report per key, in iteration order; a registered counter is reported with its unit and its rate, a registered gauge with its unit and the value, and an unregistered key with unit "" and the value, never dropped |
| AgentSpec.EachKeyReportedOnce | newrelic_db2_java_plugin/src/com/newrelic/plugins/db2/instance/DB2Agent.java:176-199 | every result key is reported exactly once, and nothing else is reported |
| AgentSpec.CountOfOrder | newrelic_db2_java_plugin/src/com/newrelic/plugins/db2/instance/DB2Agent.java:181-183 | the count is the number of distinct keys in the order that have meta data |
| AgentSpec.ReportCount | newrelic_db2_java_plugin/src/com/newrelic/plugins/db2/instance/DB2Agent.java:172-200 | the count is the number of result keys that have registered meta data |
| AgentSpec.SingleKeyFed | newrelic_db2_java_plugin/src/com/newrelic/plugins/db2/instance/DB2Agent.java:185-186 | a counter filed under only one result key is fed exactly that key's value once |
| Agent.DB2Agent.constructor | newrelic_db2_java_plugin/src/com/newrelic/plugins/db2/instance/DB2Agent.java:65-83 | the new agent keeps its parameters, starts with an empty connection cache, `firstReport` set and no reports, and holds the registry `createMetaData` files for some iteration order of the categories, with fresh, unfed counters |
| Agent.DB2Agent.AddMetricMeta | newrelic_db2_java_plugin/src/com/newrelic/plugins/db2/instance/DB2Agent.java:287-289 | the meta data is filed under the lowercased key, replacing what was there |
| Agent.DB2Agent.AddDefault | newrelic_db2_java_plugin/src/com/newrelic/plugins/db2/instance/DB2Agent.java:235 | a name of a list is filed with the default meta data of its kind |
| Agent.DB2Agent.AddList | newrelic_db2_java_plugin/src/com/newrelic/plugins/db2/instance/DB2Agent.java:231-237 | every name of a list attribute is filed with the default meta data of its kind; an absent attribute files nothing |
| Agent.DB2Agent.AddCategory | newrelic_db2_java_plugin/src/com/newrelic/plugins/db2/instance/DB2Agent.java:228-245 | a category's value metrics are filed, then its counter metrics |
| Agent.DB2Agent.AddCategories | newrelic_db2_java_plugin/src/com/newrelic/plugins/db2/instance/DB2Agent.java:225-246 | the loop over the categories, in an unspecified order, leaves the configured registry for the order it took |
| Agent.DB2Agent.AddGauge | newrelic_db2_java_plugin/src/com/newrelic/plugins/db2/instance/DB2Agent.java:249 | a built-in is filed as a gauge with its unit |
| Agent.DB2Agent.AddBuiltins | newrelic_db2_java_plugin/src/com/newrelic/plugins/db2/instance/DB2Agent.java:248-277 | the 25 built-ins are filed over the configured registry |
| Agent.DB2Agent.CreateMetaData | newrelic_db2_java_plugin/src/com/newrelic/plugins/db2/instance/DB2Agent.java:223-279 | the registry is the configured metrics of every category, in the order taken, followed by the built-ins |
| Agent.DB2Agent.GetMetricMeta | newrelic_db2_java_plugin/src/com/newrelic/plugins/db2/instance/DB2Agent.java:299-301 | finds meta data exactly when the registry has the lowercased key, and returns the object filed there |
| Agent.DB2Agent.NewRelicMetrics | newrelic_db2_java_plugin/src/com/newrelic/plugins/db2/instance/DB2Agent.java:154-164 | the derived map is always empty, so the final merge changes nothing |
| Agent.DB2Agent.GatherMetrics | newrelic_db2_java_plugin/src/com/newrelic/plugins/db2/instance/DB2Agent.java:130-145 | the results are the merge of `runSQL` over the enabled categories, in the order the loop took |
| Agent.DB2Agent.ReportKey | newrelic_db2_java_plugin/src/com/newrelic/plugins/db2/instance/DB2Agent.java:178-198 | one key appends exactly one report, goes through its epoch counter when it is a counter, and is counted when it has meta data |
| Agent.DB2Agent.ReportMetrics | newrelic_db2_java_plugin/src/com/newrelic/plugins/db2/instance/DB2Agent.java:171-201 | the reports appended, the counters' inputs and the count are those of reporting every key in the order the loop took; the registry is unchanged |
| Agent.DB2Agent.PollCycle | newrelic_db2_java_plugin/src/com/newrelic/plugins/db2/instance/DB2Agent.java:110-121 | the connection cache does what `getConnection` does; without a connection nothing is reported and `firstReport` is unchanged; otherwise the merged results are reported and `firstReport` becomes false |
| Agent.DB2Agent.GatherAndReport | newrelic_db2_java_plugin/src/com/newrelic/plugins/db2/instance/DB2Agent.java:116-120 | gathers, reports every gathered key and clears `firstReport` |
| Agent.DB2Agent.AreRequiredMetricsPresent | newrelic_db2_java_plugin/src/com/newrelic/plugins/db2/instance/DB2Agent.java:311-323 | true exactly when every key is in the map; when false, the first missing key is the one the source logs |
| Factory.OrDefault | newrelic_db2_java_plugin/src/com/newrelic/plugins/db2/instance/DB2AgentFactory.java:62-67 | a given, non-empty value passes through unchanged; an absent or empty one becomes the default |
| Factory.FirstMissing | newrelic_db2_java_plugin/src/com/newrelic/plugins/db2/instance/DB2AgentFactory.java:46-57 | finds the first attribute, in checking order, that is absent or empty; none exactly when every attribute is given |
| Factory.FirstMissingOfRequired | newrelic_db2_java_plugin/src/com/newrelic/plugins/db2/instance/DB2AgentFactory.java:46-57 | the checks are of name, database, user and passwd, in that order |
| Factory.MissingNameFirst | newrelic_db2_java_plugin/src/com/newrelic/plugins/db2/instance/DB2AgentFactory.java:46-48 | a missing name is reported first, whatever else is missing |
| Factory.ValidEntryNeedsOnlyCategories | newrelic_db2_java_plugin/src/com/newrelic/plugins/db2/instance/DB2AgentFactory.java:46-57 | an entry giving all four required attributes, non-empty, passes every check |
| Factory.DefaultsFillGaps | newrelic_db2_java_plugin/src/com/newrelic/plugins/db2/instance/DB2AgentFactory.java:62-67 | an absent or empty host becomes "localhost:50000", and absent or empty metrics enable just "overview" |
| Factory.CategoriesArePieces | newrelic_db2_java_plugin/src/com/newrelic/plugins/db2/instance/DB2AgentFactory.java:95-101 | the enabled categories are exactly the non-empty, untrimmed comma-separated pieces of the lowercased list |
| Factory.CategoryChars | newrelic_db2_java_plugin/src/com/newrelic/plugins/db2/instance/DB2AgentFactory.java:96 | every enabled category is non-empty, lowercase and free of commas |
| Factory.SingleCategory | newrelic_db2_java_plugin/src/com/newrelic/plugins/db2/instance/DB2AgentFactory.java:96-98 | a non-empty list without commas enables just itself, lowercased |
| Factory.KeyedFails | newrelic_db2_java_plugin/src/com/newrelic/plugins/db2/instance/DB2AgentFactory.java:84-90 | keying the records fails exactly when some record has no name, and it fails at the first such record |
| Factory.KeyedKeys | newrelic_db2_java_plugin/src/com/newrelic/plugins/db2/instance/DB2AgentFactory.java:84-88 | the keys are the lowercased names of the records |
| Factory.LastRecordWins | newrelic_db2_java_plugin/src/com/newrelic/plugins/db2/instance/DB2AgentFactory.java:87 | a name is filed with the last record that carries it |
| Factory.ReadCategoryConfiguration | newrelic_db2_java_plugin/src/com/newrelic/plugins/db2/instance/DB2AgentFactory.java:80-93 | an unreadable category file is a failure; otherwise the records are keyed by lowercased name |
| Factory.CreateConfiguredAgent | newrelic_db2_java_plugin/src/com/newrelic/plugins/db2/instance/DB2AgentFactory.java:37-71 | the first required attribute missing is the error; otherwise a category-file failure is the error; otherwise a fresh agent is built from the entry, with the defaults, the enabled categories and the keyed records |
| Factory.NewConfiguredAgent | newrelic_db2_java_plugin/src/com/newrelic/plugins/db2/instance/DB2AgentFactory.java:69-70 | once the required attributes are given, the category file is read, and an agent is built from it and the entry |
| Factory.NewAgent | newrelic_db2_java_plugin/src/com/newrelic/plugins/db2/instance/DB2AgentFactory.java:62-70 | the agent gets the required attributes, the host or its default, the properties as given (null included), the enabled categories of the list or of its default, and the records |
| WorkedExamples.NumberCell | newrelic_db2_java_plugin/src/com/newrelic/plugins/db2/DB2.java:160-164 | a cell whose text the normaliser leaves alone and accepts contributes the number of exactly that text |
| WorkedExamples.CellValues | newrelic_db2_java_plugin/src/com/newrelic/plugins/db2/DB2.java:160-164 | the cells "42", "80.5" and "10" give their numbers, and "n/a" gives nothing |
| WorkedExamples.RowExample | newrelic_db2_java_plugin/src/com/newrelic/plugins/db2/DB2.java:157-168 | a `row` result with columns TOTAL_APP_COMMITS = "42" and BOGUS_TEXT = "n/a" gives exactly overview/total_app_commits = 42 |
| WorkedExamples.SetExample | newrelic_db2_java_plugin/src/com/newrelic/plugins/db2/DB2.java:169-187 | a TBSP_NAME result with rows DATA1 and DATA2 gives tbsp_DATA1/used_pct and tbsp_DATA2/used_pct |
| WorkedExamples.UnknownIdentityExample | newrelic_db2_java_plugin/src/com/newrelic/plugins/db2/DB2.java:171-173 | the same rows under an unknown first column give nothing |
| WorkedExamples.LockWaitKeyKeepsSpace | newrelic_db2_java_plugin/src/com/newrelic/plugins/db2/instance/DB2Agent.java:258 | the built-in lock-wait key is filed as "overview/lock_wait_time_ percent", with its space |
| WorkedExamples.LockWaitFiled | newrelic_db2_java_plugin/src/com/newrelic/plugins/db2/instance/DB2Agent.java:258 | that key is a built-in key |
| WorkedExamples.LockWaitColumnMissesBuiltin | newrelic_db2_java_plugin/src/com/newrelic/plugins/db2/instance/DB2Agent.java:258 | the key of a column LOCK_WAIT_TIME_PERCENT is not the built-in lock-wait key |

## Left out

- JDBC plumbing is not modelled: statements, cursors, result-set meta data and closing them. A query result is a value, and the cell at which reading raises an SQLException stands for every failure while reading.
- `Float.parseFloat` is not modelled. It is floating-point parsing: a number is known by its text, so the 0.0 returned for a text `parseFloat` rejects (".5.5", which the pattern accepts) is not distinguished.
- MetaData.EpochCounter.Process does not model the rate arithmetic or the clock. The framework computes them; the model records only the values fed.
- Connection.DB2.GetNewConnection: the null check and the caught exception of `DriverManager.getConnection` are one answer of the `Driver` parameter (`handedOut = None`). The model does not tell them apart, because both only log.
- Logging is not modelled: the log calls, `formatAgentParams`, `getAgentInfo` and the `firstReport` test in `areRequiredMetricsPresent`, which only decides whether to log.
- `readJSONFile`, the framework's `Agent`, `AgentFactory` and `Runner`, `reportMetric` itself, `getComponentHumanLabel`, `getMetricCategories` and Main.java are not modelled, because they are I/O or framework wiring. The category file is a parameter, and `reportMetric` is recorded as a `Report`.
- Case folding is ASCII only: Java's `toLowerCase` and `equalsIgnoreCase` also fold non-ASCII letters.
- Agent.DB2Agent.ReportMetrics returns the count as an out-parameter, because the source only logs it.
- Factory.ReadCategoryConfiguration: a record without a `category` attribute makes `toLowerCase` throw a NullPointerException in the source, which no one catches. The model returns it as the error `UnnamedCategory(i)`.
- Casts of configuration values to `String` always succeed in the model, because entries are string maps.
- Concurrency is not modelled: each call of `pollCycle` is taken to run on its own.
- The database is one function per poll cycle from SQL text to result: two enabled categories with the same SQL text get the same result within a cycle, although a real database may answer each execution differently.
- A category without an `SQL` attribute is taken to fail in `executeQuery`, so it yields no metrics; what a given JDBC driver does with a null SQL text is not modelled.
