/**
 * The meta data kept per metric: whether it is a counter, and its unit.
 * A counter metric owns the framework's epoch counter, which turns the
 * values it is fed into a rate.
 */
module MetaData {

  import opened Wrappers
  import Constants
  import opened Normaliser

  /** The units of a metric created without one. */
  const DEFAULT_UNIT := "Operations"
  const DEFAULT_COUNTER_UNIT := DEFAULT_UNIT + "/Second"

  /**
   * What an epoch counter reports after it has been fed `inputs`: the framework
   * derives a rate from them and the time between them; that arithmetic is not
   * part of this model, so the rate is known only by the values it comes from.
   */
  datatype Rate = Rate(inputs: seq<Num>)

  /** The framework's epoch counter: the values it has been fed so far. */
  class EpochCounter {
    var inputs: seq<Num>

    constructor()
      ensures inputs == []
    {
      inputs := [];
    }

    method Process(val: Num) returns (r: Rate)
      modifies this
      ensures inputs == old(inputs) + [val] && r == Rate(inputs)
    {
      inputs := inputs + [val];
      r := Rate(inputs);
    }
  }

  /** The value view of one meta data object. */
  datatype MetaSpec = MetaSpec(isCounter: bool, unit: string)

  class MetricMeta {
    const unit: string
    const counter: EpochCounter?

    /** A metric with the given unit; a counter metric gets a fresh epoch counter. */
    constructor WithUnit(isCounter: bool, unit: string)
      ensures this.unit == unit && (counter != null <==> isCounter)
      ensures counter != null ==> fresh(counter) && counter.inputs == []
    {
      this.unit := unit;
      if isCounter {
        counter := new EpochCounter();
      } else {
        counter := null;
      }
    }

    /** A metric with the default unit of its kind. */
    constructor(isCounter: bool)
      ensures unit == (if isCounter then DEFAULT_COUNTER_UNIT else DEFAULT_UNIT)
      ensures (counter != null <==> isCounter)
      ensures counter != null ==> fresh(counter) && counter.inputs == []
    {
      unit := if isCounter then DEFAULT_COUNTER_UNIT else DEFAULT_UNIT;
      if isCounter {
        counter := new EpochCounter();
      } else {
        counter := null;
      }
    }

    /** A metric is a counter exactly when it owns an epoch counter. */
    predicate IsCounter() {
      counter != null
    }

    function Spec(): MetaSpec {
      MetaSpec(IsCounter(), unit)
    }

    /** `toString`: the counter marker, if any, then the unit in parentheses; it can be read back. */
    function ToString(): (s: string)
      ensures Parse(s) == Some(Spec())
      ensures IsCounter() <==> |s| >= |Constants.COUNTER| && s[..|Constants.COUNTER|] == Constants.COUNTER
    {
      ParseDescribe(Spec());
      Describe(Spec())
    }
  }

  /** The default meta data: a counter in operations per second. */
  method DefaultMetricMeta() returns (mm: MetricMeta)
    ensures fresh(mm) && fresh(mm.counter)
    ensures mm.Spec() == MetaSpec(true, "Operations/Second") && mm.counter.inputs == []
  {
    mm := new MetricMeta(true);
  }

  /** The text `toString` builds from a meta data value. */
  function Describe(m: MetaSpec): string {
    (if m.isCounter then Constants.COUNTER else Constants.EMPTY_STRING) + Constants.LEFT_PAREN + m.unit + Constants.RIGHT_PAREN
  }

  /** Reads such a text back. */
  function Parse(s: string): Option<MetaSpec> {
    if |s| >= |Constants.COUNTER| + 2 && s[..|Constants.COUNTER| + 1] == Constants.COUNTER + Constants.LEFT_PAREN && s[|s| - 1] == ')' then
      Some(MetaSpec(true, s[|Constants.COUNTER| + 1..|s| - 1]))
    else if |s| >= 2 && s[0] == '(' && s[|s| - 1] == ')' then
      Some(MetaSpec(false, s[1..|s| - 1]))
    else None
  }

  /** Reading the text back gives the meta data it describes. */
  lemma ParseDescribe(m: MetaSpec)
    ensures Parse(Describe(m)) == Some(m)
  {
    var s := Describe(m);
    if m.isCounter {
      assert s == Constants.COUNTER + Constants.LEFT_PAREN + m.unit + Constants.RIGHT_PAREN;
      assert s[..|Constants.COUNTER| + 1] == Constants.COUNTER + Constants.LEFT_PAREN;
      assert s[|Constants.COUNTER| + 1..|s| - 1] == m.unit;
    } else {
      assert s == Constants.LEFT_PAREN + m.unit + Constants.RIGHT_PAREN;
      assert s[0] == '(' && s[1..|s| - 1] == m.unit;
    }
  }
}
