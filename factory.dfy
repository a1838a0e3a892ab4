/**
 * The agent factory: builds one DB2 agent from one agent entry of the
 * plugin configuration, after checking the required attributes and
 * filling in the defaults, and reads the metric category file.
 *
 * An agent entry is a map from attribute name to text; an attribute that
 * is absent is Java's null. The category file is the list of its records,
 * or `None` when it cannot be read.
 */
module Factory {

  import opened Wrappers
  import opened Text
  import opened Constants
  import MetaData
  import opened AgentSpec
  import opened Agent

  type Properties = map<string, string>

  /** Why no agent was built. */
  datatype ConfigError =
    | MissingAttribute(attr: string) // a required attribute is absent or empty
    | CategoriesNotFound             // the category file cannot be read
    | UnnamedCategory(index: nat)    // a category record has no `category` attribute

  /** The attributes an agent entry must give, in the order they are checked. */
  const REQUIRED := ["name", "database", "user", "passwd"]

  /** Whether an attribute is given and non-empty. */
  predicate Given(v: Option<string>) {
    v.Some? && v.value != EMPTY_STRING
  }

  /** The given value, or the default for an absent or empty one. */
  function OrDefault(v: Option<string>, default: string): (r: string)
    ensures Given(v) ==> r == v.value
    ensures !Given(v) ==> r == default
  {
    if Given(v) then v.value else default
  }

  /** The first required attribute, in checking order, that is not given. */
  function FirstMissing(p: Properties, attrs: seq<string>): (r: Option<nat>)
    ensures r.Some? ==> (r.value < |attrs| && !Given(Attr(p, attrs[r.value]))
                         && forall j :: 0 <= j < r.value ==> Given(Attr(p, attrs[j])))
    ensures r.None? <==> forall j :: 0 <= j < |attrs| ==> Given(Attr(p, attrs[j]))
    decreases |attrs|
  {
    if attrs == [] then None
    else if !Given(Attr(p, attrs[0])) then Some(0)
    else
      var rest := FirstMissing(p, attrs[1..]);
      assert forall j :: 1 <= j < |attrs| ==> attrs[j] == attrs[1..][j - 1];
      if rest.None? then None else Some(rest.value + 1)
  }

  /** The checks of the required attributes, one after the other. */
  lemma FirstMissingOfRequired(p: Properties)
    ensures FirstMissing(p, REQUIRED) ==
      if !Given(Attr(p, "name")) then Some(0)
      else if !Given(Attr(p, "database")) then Some(1)
      else if !Given(Attr(p, "user")) then Some(2)
      else if !Given(Attr(p, "passwd")) then Some(3)
      else None
  {
    var r := FirstMissing(p, REQUIRED);
    assert REQUIRED[0] == "name" && REQUIRED[1] == "database" && REQUIRED[2] == "user" && REQUIRED[3] == "passwd";
  }

  // ---------------------------------------------------------------------
  // processMetricCategories

  /** `processMetricCategories`: the comma-separated pieces of the lowercased list, without the empty one. */
  function ProcessMetricCategories(metrics: string): set<string> {
    (set p | p in JavaSplit(Lower(metrics))) - {EMPTY_STRING}
  }

  /** The enabled categories are exactly the non-empty pieces between commas, untrimmed. */
  lemma CategoriesArePieces(metrics: string, s: string)
    ensures s in ProcessMetricCategories(metrics) <==> s != "" && s in Pieces(Lower(metrics))
  {
    JavaSplitNonEmpty(Lower(metrics));
  }

  /** Every enabled category is lowercase and free of commas. */
  lemma CategoryChars(metrics: string, s: string)
    requires s in ProcessMetricCategories(metrics)
    ensures IsLowerCase(s) && ',' !in s && s != ""
  {
    forall i | 0 <= i < |s|
      ensures LowerChar(s[i]) == s[i] && s[i] != ','
    {
      JavaSplitChars(Lower(metrics), s, s[i]);
      var k :| 0 <= k < |Lower(metrics)| && Lower(metrics)[k] == s[i];
      assert s[i] == LowerChar(metrics[k]);
    }
  }

  /** A list without commas enables just itself, lowercased (the default "overview" among them). */
  lemma SingleCategory(metrics: string)
    requires ',' !in metrics && metrics != ""
    ensures ProcessMetricCategories(metrics) == {Lower(metrics)}
  {
    assert ',' !in Lower(metrics);
    assert Lower(metrics) != "";
    assert JavaSplit(Lower(metrics)) == [Lower(metrics)];
  }

  // ---------------------------------------------------------------------
  // readCategoryConfiguration

  /** The category records keyed by their lowercased name, a later record replacing an earlier one. */
  function Keyed(records: seq<Attributes>): Result<map<string, Attributes>, ConfigError>
    decreases |records|
  {
    if records == [] then Success(map[])
    else
      var rest := Keyed(records[..|records| - 1]);
      var last := records[|records| - 1];
      if rest.Failure? then rest
      else if "category" !in last then Failure(UnnamedCategory(|records| - 1))
      else Success(rest.value[Lower(last["category"]) := last])
  }

  /** The lowercased name of a named record. */
  function NameOf(record: Attributes): string
    requires "category" in record
  {
    Lower(record["category"])
  }

  /** `e` names the first record without a name. */
  predicate FailsAtFirstUnnamed(records: seq<Attributes>, e: ConfigError) {
    e.UnnamedCategory? && e.index < |records| && "category" !in records[e.index]
    && forall j :: 0 <= j < e.index ==> "category" in records[j]
  }

  /** Once a prefix of the records fails to key, all of them fail the same way. */
  lemma {:induction false} KeyedFailureSticks(records: seq<Attributes>, n: nat)
    requires n <= |records| && Keyed(records[..n]).Failure?
    ensures Keyed(records) == Keyed(records[..n])
    decreases |records| - n
  {
    if n < |records| {
      assert records[..n + 1][..n] == records[..n];
      KeyedFailureSticks(records, n + 1);
    } else {
      assert records[..n] == records;
    }
  }

  /** Keying fails exactly at the first record without a name. */
  lemma {:induction false} KeyedFails(records: seq<Attributes>)
    ensures Keyed(records).Failure? <==> exists i :: 0 <= i < |records| && "category" !in records[i]
    ensures Keyed(records).Failure? ==> FailsAtFirstUnnamed(records, Keyed(records).error)
    decreases |records|
  {
    if records != [] {
      var init := records[..|records| - 1];
      KeyedFails(init);
      assert forall j :: 0 <= j < |init| ==> init[j] == records[j];
    }
  }

  /** The keys are the lowercased names of the records. */
  lemma {:induction false} KeyedKeys(records: seq<Attributes>, k: string)
    requires Keyed(records).Success?
    ensures k in Keyed(records).value <==> exists i :: 0 <= i < |records| && "category" in records[i] && NameOf(records[i]) == k
    decreases |records|
  {
    if records != [] {
      var init := records[..|records| - 1];
      KeyedKeys(init, k);
      assert forall j :: 0 <= j < |init| ==> init[j] == records[j];
    }
  }

  /** A name is filed with the last record that carries it. */
  lemma {:induction false} LastRecordWins(records: seq<Attributes>, i: nat)
    requires Keyed(records).Success? && i < |records| && "category" in records[i]
    requires forall j :: i < j < |records| && "category" in records[j] ==> NameOf(records[j]) != NameOf(records[i])
    ensures NameOf(records[i]) in Keyed(records).value && Keyed(records).value[NameOf(records[i])] == records[i]
    decreases |records|
  {
    var init := records[..|records| - 1];
    if i < |records| - 1 {
      assert forall j :: 0 <= j < |init| ==> init[j] == records[j];
      LastRecordWins(init, i);
    }
  }

  /** `readCategoryConfiguration`: the records of the category file keyed by lowercased name. */
  method ReadCategoryConfiguration(json: Option<seq<Attributes>>) returns (r: Result<map<string, Attributes>, ConfigError>)
    ensures json.None? ==> r == Failure(CategoriesNotFound)
    ensures json.Some? ==> r == Keyed(json.value)
  {
    if json.None? {
      return Failure(CategoriesNotFound);
    }
    var records := json.value;
    var metricCategories: map<string, Attributes> := map[];
    for i := 0 to |records|
      invariant Keyed(records[..i]) == Success(metricCategories)
    {
      var obj := records[i];
      assert records[..i + 1][..i] == records[..i];
      if "category" !in obj {
        KeyedFailureSticks(records, i + 1);
        return Failure(UnnamedCategory(i));
      }
      metricCategories := metricCategories[Lower(obj["category"]) := obj];
    }
    assert records[..|records|] == records;
    return Success(metricCategories);
  }

  // ---------------------------------------------------------------------
  // createConfiguredAgent

  /** The agent a valid entry builds: its attributes, the defaults, the enabled categories and the category records. */
  predicate BuiltFrom(a: DB2Agent, p: Properties, categories: map<string, Attributes>) {
    Attr(p, "name") == Some(a.name) && Attr(p, "database") == Some(a.database)
    && Attr(p, "user") == Some(a.user) && Attr(p, "passwd") == Some(a.passwd)
    && a.host == OrDefault(Attr(p, "host"), AGENT_DEFAULT_HOST)
    && a.properties == Attr(p, "properties")
    && a.metrics == ProcessMetricCategories(OrDefault(Attr(p, "metrics"), AGENT_DEFAULT_METRICS))
    && a.metricCategories == categories
  }

  /** A freshly constructed agent for the entry: built from it, its registry filed, nothing reported yet. */
  ghost predicate NewAgentFor(a: DB2Agent, p: Properties, categories: map<string, Attributes>)
    reads a
  {
    BuiltFrom(a, p, categories) && a.Valid() && a.firstReport && a.reports == []
    && a.Registered()
  }

  /**
   * `createConfiguredAgent`: the first required attribute missing is the error; otherwise a failure
   * to read the category file is; otherwise a new agent built from the entry and the categories.
   */
  method CreateConfiguredAgent(p: Properties, json: Option<seq<Attributes>>) returns (r: Result<DB2Agent, ConfigError>)
    ensures FirstMissing(p, REQUIRED).Some? ==> r == Failure(MissingAttribute(REQUIRED[FirstMissing(p, REQUIRED).value]))
    ensures FirstMissing(p, REQUIRED).None? ==> Configured(p, json, r)
  {
    var name := Attr(p, "name");
    var database := Attr(p, "database");
    var user := Attr(p, "user");
    var passwd := Attr(p, "passwd");
    FirstMissingOfRequired(p);

    if !Given(name) {
      return Failure(MissingAttribute("name"));
    }
    if !Given(database) {
      return Failure(MissingAttribute("database"));
    }
    if !Given(user) {
      return Failure(MissingAttribute("user"));
    }
    if !Given(passwd) {
      return Failure(MissingAttribute("passwd"));
    }
    r := NewConfiguredAgent(p, json);
  }

  /**
   * What `createConfiguredAgent` does with an entry that gives every required attribute: a failure to
   * read or key the category file is the error; otherwise a new agent built from the entry.
   */
  twostate predicate Configured(p: Properties, json: Option<seq<Attributes>>, new r: Result<DB2Agent, ConfigError>)
    reads if r.Success? then {r.value} else {}
  {
    (json.None? ==> r == Failure(CategoriesNotFound))
    && (json.Some? && Keyed(json.value).Failure? ==> r == Failure(Keyed(json.value).error))
    && (json.Some? && Keyed(json.value).Success? ==>
          r.Success? && fresh(r.value) && fresh(r.value.m) && NewAgentFor(r.value, p, Keyed(json.value).value))
  }

  /** Reading the category file, then building the agent, once the required attributes are given. */
  method NewConfiguredAgent(p: Properties, json: Option<seq<Attributes>>) returns (r: Result<DB2Agent, ConfigError>)
    requires FirstMissing(p, REQUIRED).None?
    ensures Configured(p, json, r)
  {
    var categories := ReadCategoryConfiguration(json);
    if categories.Failure? {
      return Failure(categories.error);
    }
    var agent := NewAgent(p, categories.value);
    return Success(agent);
  }

  /** The defaults and the construction of `createConfiguredAgent`. */
  method NewAgent(p: Properties, categories: map<string, Attributes>) returns (agent: DB2Agent)
    requires FirstMissing(p, REQUIRED).None?
    ensures fresh(agent) && fresh(agent.m) && NewAgentFor(agent, p, categories)
  {
    FirstMissingOfRequired(p);
    var host := Attr(p, "host");
    var connProperties := Attr(p, "properties");
    var metrics := Attr(p, "metrics");
    var hostText := if Given(host) then host.value else AGENT_DEFAULT_HOST;
    var metricsText := if Given(metrics) then metrics.value else AGENT_DEFAULT_METRICS;
    assert Attr(p, "name") == Some(p["name"]) && Attr(p, "database") == Some(p["database"]);
    assert Attr(p, "user") == Some(p["user"]) && Attr(p, "passwd") == Some(p["passwd"]);
    assert hostText == OrDefault(host, AGENT_DEFAULT_HOST) && metricsText == OrDefault(metrics, AGENT_DEFAULT_METRICS);

    var enabled := ProcessMetricCategories(metricsText);
    agent := new DB2Agent(p["name"], hostText, p["database"], p["user"], p["passwd"], connProperties,
                          enabled, categories);
    assert BuiltFrom(agent, p, categories);
  }

  /** An entry giving every required attribute, non-empty, passes all four checks. */
  lemma ValidEntryNeedsOnlyCategories(p: Properties)
    requires forall a :: a in REQUIRED ==> a in p && p[a] != ""
    ensures FirstMissing(p, REQUIRED).None?
  {
    assert forall j :: 0 <= j < |REQUIRED| ==> REQUIRED[j] in REQUIRED;
  }

  /** An absent or empty name is reported first, whatever else is missing. */
  lemma MissingNameFirst(p: Properties)
    requires !Given(Attr(p, "name"))
    ensures FirstMissing(p, REQUIRED) == Some(0) && REQUIRED[0] == "name"
  {
  }

  /** The defaults fill in exactly the absent or empty host and category list. */
  lemma DefaultsFillGaps(p: Properties)
    ensures OrDefault(Attr(p, "host"), AGENT_DEFAULT_HOST) == (if "host" in p && p["host"] != "" then p["host"] else "localhost:50000")
    ensures !Given(Attr(p, "metrics")) ==> ProcessMetricCategories(OrDefault(Attr(p, "metrics"), AGENT_DEFAULT_METRICS)) == {"overview"}
  {
    if !Given(Attr(p, "metrics")) {
      SingleCategory(AGENT_DEFAULT_METRICS);
      LowerOfLowerCase(AGENT_DEFAULT_METRICS);
    }
  }
}
