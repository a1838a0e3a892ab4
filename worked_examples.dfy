/** Worked examples of the value normaliser and of the result shaping. */
module WorkedExamples {

  import opened Wrappers
  import opened Text
  import opened Constants
  import opened Normaliser
  import opened QueryRunner
  import opened AgentSpec


  /** The keys of the examples. */
  lemma CommitsKey()
    ensures Key("overview", "TOTAL_APP_COMMITS") == "overview/total_app_commits"
  {
    LowerEq("TOTAL_APP_COMMITS", "total_app_commits");
  }

  lemma UsedKeys()
    ensures Key("tbsp_DATA1", "USED_PCT") == "tbsp_DATA1/used_pct"
    ensures Key("tbsp_DATA2", "USED_PCT") == "tbsp_DATA2/used_pct"
  {
    LowerEq("USED_PCT", "used_pct");
  }

  /** The numbers of the examples pass through unchanged, are valid and are parsed as they stand. */
  lemma FortyTwoIsNumber()
    ensures TransformStringMetric(Some("42")) == Some("42") && ValidMetricValue(Some("42"))
  {
    NumericTextPasses("42");
    assert MatchesMetricPattern("42");
  }

  lemma EightyPointFiveIsNumber()
    ensures TransformStringMetric(Some("80.5")) == Some("80.5") && ValidMetricValue(Some("80.5"))
  {
    NumericTextPasses("80.5");
    assert MatchesMetricPattern("80.5");
  }

  lemma TenIsNumber()
    ensures TransformStringMetric(Some("10")) == Some("10") && ValidMetricValue(Some("10"))
  {
    NumericTextPasses("10");
    assert MatchesMetricPattern("10");
  }

  lemma TextIsDropped()
    ensures !ValidMetricValue(TransformStringMetric(Some("n/a")))
  {
    TransformPassesThrough("n/a");
    LowerEq("n/a", "n/a");
    assert !MatchesMetricPattern("n/a");
  }

  /** A cell whose text is left alone and valid contributes the number of that text. */
  lemma NumberCell(s: string)
    requires TransformStringMetric(Some(s)) == Some(s) && ValidMetricValue(Some(s))
    ensures CellValue(Some(s)) == Some(Parsed(s))
  {
    TranslateValid(s);
  }

  /** What the cells of the examples contribute. */
  lemma CellValues()
    ensures CellValue(Some("42")) == Some(Parsed("42"))
    ensures CellValue(Some("80.5")) == Some(Parsed("80.5"))
    ensures CellValue(Some("10")) == Some(Parsed("10"))
    ensures CellValue(Some("n/a")) == None
  {
    FortyTwoIsNumber();
    NumberCell("42");
    EightyPointFiveIsNumber();
    NumberCell("80.5");
    TenIsNumber();
    NumberCell("10");
    TextIsDropped();
  }

  /** A row with a number and a text column: the text column is dropped, the number kept. */
  const RowResult: Query := Executed(["TOTAL_APP_COMMITS", "BOGUS_TEXT"], [[Some("42"), Some("n/a")]], None)

  lemma RowValuesOfRow()
    ensures RowValues(RowResult, 0) == [Some(Parsed("42")), None]
  {
    CellValues();
    RowValuesAt(RowResult, 0, 0);
    RowValuesAt(RowResult, 0, 1);
  }

  lemma RowExample()
    ensures Shaped("overview", Some("row"), RowResult) == map["overview/total_app_commits" := Parsed("42")]
  {
    var vs := RowValues(RowResult, 0);
    RowValuesOfRow();
    CommitsKey();
    assert ColumnEntries(RowResult.columns, vs, "overview", 0, 1) == map["overview/total_app_commits" := Parsed("42")];
    assert ColumnEntries(RowResult.columns, vs, "overview", 0, 2) == ColumnEntries(RowResult.columns, vs, "overview", 0, 1);
  }

  /** A tablespace result, and the same result under an unknown first column. */
  const TbspResult: Query :=
    Executed(["TBSP_NAME", "USED_PCT"], [[Some("DATA1"), Some("80.5")], [Some("DATA2"), Some("10")]], None)
  const UnknownResult: Query :=
    Executed(["OTHER", "USED_PCT"], [[Some("DATA1"), Some("80.5")], [Some("DATA2"), Some("10")]], None)

  lemma FirstTbspRow()
    ensures RowEntries(TbspResult, "tbsp_DATA1", 0, 1) == map["tbsp_DATA1/used_pct" := Parsed("80.5")]
  {
    EightyPointFiveIsNumber();
    RowValuesAt(TbspResult, 0, 1);
    UsedKeys();
  }

  lemma SecondTbspRow()
    ensures RowEntries(TbspResult, "tbsp_DATA2", 1, 1) == map["tbsp_DATA2/used_pct" := Parsed("10")]
  {
    TenIsNumber();
    RowValuesAt(TbspResult, 1, 1);
    UsedKeys();
  }

  /** The namespaces of the tablespace rows. */
  lemma TbspPrefixes()
    ensures Prefixes(TbspResult, "tbsp") == ["tbsp_DATA1", "tbsp_DATA2"]
  {
    var ps := Prefixes(TbspResult, "tbsp");
    assert ps[0] == "tbsp" + "_" + "DATA1";
    assert ps[1] == "tbsp" + "_" + "DATA2";
    assert "tbsp" + "_" + "DATA1" == "tbsp_DATA1";
    assert "tbsp" + "_" + "DATA2" == "tbsp_DATA2";
  }

  /** `TBSP_NAME` makes the result expandable. */
  lemma TbspIsSet()
    ensures Shaped("tbsp", Some("set"), TbspResult)
      == SetEntries(TbspResult.columns, Table(TbspResult), Prefixes(TbspResult, "tbsp"), 2)
  {
    IdentityColumns("TBSP_NAME");
    LowerEq("TBSP_NAME", "tbsp_name");
  }

  /** The two rows, each under its own namespace. */
  lemma TbspEntries()
    ensures SetEntries(TbspResult.columns, Table(TbspResult), Prefixes(TbspResult, "tbsp"), 2)
      == map["tbsp_DATA1/used_pct" := Parsed("80.5")] + map["tbsp_DATA2/used_pct" := Parsed("10")]
  {
    TbspPrefixes();
    FirstTbspRow();
    SecondTbspRow();
    var t, ps := Table(TbspResult), Prefixes(TbspResult, "tbsp");
    assert SetEntries(TbspResult.columns, t, ps, 1) == map["tbsp_DATA1/used_pct" := Parsed("80.5")] by {
      assert ColumnEntries(TbspResult.columns, t[0], ps[0], 1, 2) == map["tbsp_DATA1/used_pct" := Parsed("80.5")];
    }
    assert ColumnEntries(TbspResult.columns, t[1], ps[1], 1, 2) == map["tbsp_DATA2/used_pct" := Parsed("10")];
  }

  /** A tablespace result expands into one namespace per tablespace. */
  lemma SetExample()
    ensures Shaped("tbsp", Some("set"), TbspResult)
      == map["tbsp_DATA1/used_pct" := Parsed("80.5")] + map["tbsp_DATA2/used_pct" := Parsed("10")]
  {
    TbspIsSet();
    TbspEntries();
  }

  /** A `set` result whose first column is no identity column gives nothing. */
  lemma UnknownIdentityExample()
    ensures Shaped("tbsp", Some("set"), UnknownResult) == map[]
  {
    IdentityColumns("OTHER");
    LowerEq("OTHER", "other");
  }

  // ---------------------------------------------------------------------
  // The built-in lock wait key

  /**
   * The built-in lock wait key is written with a space before `PERCENT`; the key
   * `runSQL` makes for the column `LOCK_WAIT_TIME_PERCENT` differs from it.
   */
  lemma LockWaitKeyKeepsSpace()
    ensures Lower("overview/LOCK_WAIT_TIME_ PERCENT") == "overview/lock_wait_time_ percent"
  {
    LowerEq("overview/LOCK_WAIT_TIME_ PERCENT", "overview/lock_wait_time_ percent");
  }

  lemma LockWaitFiled()
    ensures Lower("overview/LOCK_WAIT_TIME_ PERCENT") in BuiltinKeys()
  {
  }

  /** The key of the column is one character shorter than the built-in lock wait key. */
  lemma LockWaitColumnMissesBuiltin()
    ensures Key("overview", "LOCK_WAIT_TIME_PERCENT") != Lower("overview/LOCK_WAIT_TIME_ PERCENT")
  {
    assert |Key("overview", "LOCK_WAIT_TIME_PERCENT")| == 31;
  }
}
