/**
 * `runSQL`: one category's query result shaped into a map from metric key
 * to number. The JDBC statement and cursor are replaced by an abstract
 * result: the column names, the rows of nullable cell strings and the cell
 * (if any) at which reading raises an SQLException.
 */
module QueryRunner {

  import opened Wrappers
  import opened Text
  import opened Constants
  import opened Normaliser

  /** A cell of the result, by zero-based row and column. */
  datatype Cell = Cell(row: nat, column: nat)

  /**
   * What executing the SQL produced: an SQLException from `executeQuery`,
   * or the columns and rows of the cursor. `fault` is the first cell whose
   * reading raises an SQLException; cells are read row by row, left to right.
   */
  datatype RawQuery =
    | QueryFailed
    | Executed(columns: seq<string>, rows: seq<seq<Option<string>>>, fault: Option<Cell>)

  /** Every row has one cell per column. */
  predicate WellFormed(q: RawQuery) {
    q.Executed? ==> forall r :: 0 <= r < |q.rows| ==> |q.rows[r]| == |q.columns|
  }

  type Query = q: RawQuery | WellFormed(q) witness QueryFailed

  /** Cell (r, i) comes before the fault in reading order, so reading it succeeds. */
  predicate Readable(q: Query, r: nat, i: nat)
    requires q.Executed?
  {
    match q.fault
    case None => true
    case Some(f) => r < f.row || (r == f.row && i < f.column)
  }

  /** The metric key of a column: the prefix, "/", the lowercased column name. */
  function Key(prefix: string, column: string): string {
    prefix + SEPARATOR + Lower(column)
  }

  /** Java's `+` on a nullable string: null is written "null". */
  function JavaString(v: Option<string>): string {
    if v.None? then "null" else v.value
  }

  /** What a cell contributes once it is read: the number of its transformed value, if that value is valid. */
  function CellValue(v: Option<string>): Option<Num> {
    var t := TransformStringMetric(v);
    if ValidMetricValue(t) then Some(TranslateStringToNumber(t.value)) else None
  }

  /** What the cells of row r contribute, column by column; a cell at or after the fault contributes nothing. */
  function RowValues(q: Query, r: nat): (vs: seq<Option<Num>>)
    requires q.Executed? && r < |q.rows|
    ensures |vs| == |q.columns|
  {
    seq(|q.columns|, i requires 0 <= i < |q.columns| => if Readable(q, r, i) then CellValue(q.rows[r][i]) else None)
  }

  /** Cell (r, i) is read and its transformed value is a valid metric value. */
  predicate Reports(q: Query, r: nat, i: nat)
    requires q.Executed? && r < |q.rows| && i < |q.columns|
  {
    Readable(q, r, i) && ValidMetricValue(TransformStringMetric(q.rows[r][i]))
  }

  /** The number stored for a readable, valid cell. */
  function CellNumber(q: Query, r: nat, i: nat): Num
    requires q.Executed? && r < |q.rows| && i < |q.columns|
    requires Reports(q, r, i)
  {
    TranslateStringToNumber(TransformStringMetric(q.rows[r][i]).value)
  }

  /** The entries that columns lo..hi-1 contribute under `prefix`, put in that order. */
  function ColumnEntries(columns: seq<string>, vs: seq<Option<Num>>, prefix: string, lo: nat, hi: nat): map<string, Num>
    requires |vs| == |columns| && lo <= hi <= |columns|
    decreases hi
  {
    if hi == lo then map[]
    else
      var m := ColumnEntries(columns, vs, prefix, lo, hi - 1);
      if vs[hi - 1].Some? then m[Key(prefix, columns[hi - 1]) := vs[hi - 1].value] else m
  }

  /** The entries of row r from column lo on. */
  function RowEntries(q: Query, prefix: string, r: nat, lo: nat): map<string, Num>
    requires q.Executed? && r < |q.rows| && lo <= |q.columns|
  {
    ColumnEntries(q.columns, RowValues(q, r), prefix, lo, |q.columns|)
  }

  /** What every row contributes. */
  function Table(q: Query): (t: seq<seq<Option<Num>>>)
    requires q.Executed?
    ensures |t| == |q.rows| && forall r :: 0 <= r < |t| ==> t[r] == RowValues(q, r)
  {
    seq(|q.rows|, r requires 0 <= r < |q.rows| => RowValues(q, r))
  }

  /** The namespace of row r of a `set` result: category, "_", the first cell. */
  function EntityPrefix(q: Query, category: string, r: nat): string
    requires q.Executed? && r < |q.rows| && 0 < |q.columns|
  {
    category + UNDERSCORE + JavaString(q.rows[r][0])
  }

  /** The namespaces of all rows of a `set` result. */
  function Prefixes(q: Query, category: string): (ps: seq<string>)
    requires q.Executed? && 0 < |q.columns|
    ensures |ps| == |q.rows| && forall r :: 0 <= r < |ps| ==> ps[r] == EntityPrefix(q, category, r)
  {
    seq(|q.rows|, r requires 0 <= r < |q.rows| => EntityPrefix(q, category, r))
  }

  /** A table of row values, one per row, each with one value per column. */
  predicate Rectangular(columns: seq<string>, table: seq<seq<Option<Num>>>) {
    forall r :: 0 <= r < |table| ==> |table[r]| == |columns|
  }

  /** The entries of rows 0..k-1 of a `set` result, each under its namespace, from the second column on. */
  function SetEntries(columns: seq<string>, table: seq<seq<Option<Num>>>, prefixes: seq<string>, k: nat): map<string, Num>
    requires Rectangular(columns, table) && k <= |table| == |prefixes| && 0 < |columns|
  {
    if k == 0 then map[]
    else SetEntries(columns, table, prefixes, k - 1) + ColumnEntries(columns, table[k - 1], prefixes[k - 1], 1, |columns|)
  }

  /** The first column names that make a `set` result expandable, ignoring case. */
  predicate IsIdentityColumn(name: string) {
    EqualsIgnoreCase(TBSP_COLUMN_NAME, Some(name))
    || EqualsIgnoreCase(BP_COLUMN_NAME, Some(name))
    || EqualsIgnoreCase(HADR_COLUMN_NAME, Some(name))
  }

  /** Reference definition of what `runSQL` returns. */
  function Shaped(category: string, shape: Option<string>, q: Query): map<string, Num> {
    if q.QueryFailed? then map[]
    else if shape == Some(ROW) then
      if 0 < |q.rows| then RowEntries(q, category, 0, 0) else map[]
    else if shape == Some(SET) then
      if 0 < |q.columns| && IsIdentityColumn(q.columns[0]) then
        SetEntries(q.columns, Table(q), Prefixes(q, category), |q.rows|)
      else map[]
    else map[]
  }

  // ---------------------------------------------------------------------
  // Lemmas the method needs

  /** Columns that contribute nothing leave the entries as they are. */
  lemma {:induction false} NothingFrom(columns: seq<string>, vs: seq<Option<Num>>, prefix: string, lo: nat, i: nat, hi: nat)
    requires |vs| == |columns| && lo <= i <= hi <= |columns|
    requires forall j :: i <= j < hi ==> vs[j].None?
    ensures ColumnEntries(columns, vs, prefix, lo, hi) == ColumnEntries(columns, vs, prefix, lo, i)
    decreases hi
  {
    if hi > i {
      NothingFrom(columns, vs, prefix, lo, i, hi - 1);
    }
  }

  /** No cell at or after the fault contributes anything. */
  lemma StopsAtFault(q: Query, prefix: string, r: nat, lo: nat, i: nat)
    requires q.Executed? && r < |q.rows| && lo <= i <= |q.columns|
    requires !Readable(q, r, i)
    ensures RowEntries(q, prefix, r, lo) == ColumnEntries(q.columns, RowValues(q, r), prefix, lo, i)
  {
    var vs := RowValues(q, r);
    forall j | i <= j < |q.columns|
      ensures vs[j].None?
    {
      assert !Readable(q, r, j);
    }
    NothingFrom(q.columns, vs, prefix, lo, i, |q.columns|);
  }

  /** Rows whose values are all empty from the second column on add nothing. */
  lemma {:induction false} NothingBelow(columns: seq<string>, table: seq<seq<Option<Num>>>, prefixes: seq<string>, r: nat, k: nat)
    requires Rectangular(columns, table) && r <= k <= |table| == |prefixes| && 0 < |columns|
    requires forall r', j :: r <= r' < k && 1 <= j < |columns| ==> table[r'][j].None?
    ensures SetEntries(columns, table, prefixes, k) == SetEntries(columns, table, prefixes, r)
    decreases k
  {
    if k > r {
      NothingBelow(columns, table, prefixes, r, k - 1);
      NothingFrom(columns, table[k - 1], prefixes[k - 1], 1, 1, |columns|);
    }
  }

  /** Rows after the fault's row contribute nothing. */
  lemma SetStopsAtFault(q: Query, category: string, r: nat)
    requires q.Executed? && r <= |q.rows| && 0 < |q.columns|
    requires q.fault.Some? && q.fault.value.row < r
    ensures SetEntries(q.columns, Table(q), Prefixes(q, category), |q.rows|)
         == SetEntries(q.columns, Table(q), Prefixes(q, category), r)
  {
    var t: seq<seq<Option<Num>>> := Table(q);
    forall r': nat, j: nat | r <= r' < |q.rows| && 1 <= j < |q.columns|
      ensures t[r'][j].None?
    {
      assert t[r'] == RowValues(q, r');
      assert !Readable(q, r', j);
    }
    NothingBelow(q.columns, t, Prefixes(q, category), r, |q.rows|);
  }

  /** Updating the right operand of a union updates the union. */
  lemma UnionUpdate(acc: map<string, Num>, m: map<string, Num>, k: string, v: Num)
    ensures acc + m[k := v] == (acc + m)[k := v]
  {
  }

  /** One pass of the column loop of `runSQL`: a readable cell is put under its key when its value is valid. */
  method PutCell(q: Query, prefix: string, r: nat, i: nat, acc: map<string, Num>) returns (results: map<string, Num>)
    requires q.Executed? && r < |q.rows| && i < |q.columns| && Readable(q, r, i)
    ensures var v := RowValues(q, r)[i];
      results == if v.Some? then acc[Key(prefix, q.columns[i]) := v.value] else acc
  {
    var value := TransformStringMetric(q.rows[r][i]);
    var columnName := Lower(q.columns[i]);
    results := acc;
    if ValidMetricValue(value) {
      var key := BuildString([Some(prefix), Some(SEPARATOR), Some(columnName)]);
      ConcatOfThree(prefix, SEPARATOR, columnName);
      results := results[key := TranslateStringToNumber(value.value)];
    }
  }

  /**
   * The column loop of `runSQL`: puts the valid cells of columns lo.. of row r
   * into `acc`, under the prefix; stops when reading a cell raises.
   */
  method PutColumns(q: Query, prefix: string, r: nat, lo: nat, acc: map<string, Num>)
    returns (results: map<string, Num>, raised: bool)
    requires q.Executed? && r < |q.rows| && lo <= |q.columns|
    ensures results == acc + RowEntries(q, prefix, r, lo)
    ensures raised ==> q.fault.Some? && q.fault.value.row <= r
  {
    results, raised := acc, false;
    ghost var vs := RowValues(q, r);
    var n := |q.columns|;
    var i := lo;
    while i < n
      invariant lo <= i <= n
      invariant results == acc + ColumnEntries(q.columns, vs, prefix, lo, i)
    {
      if !Readable(q, r, i) {
        StopsAtFault(q, prefix, r, lo, i);
        raised := true;
        return;   // getString raised
      }
      ghost var before := ColumnEntries(q.columns, vs, prefix, lo, i);
      results := PutCell(q, prefix, r, i, results);
      if vs[i].Some? {
        UnionUpdate(acc, before, Key(prefix, q.columns[i]), vs[i].value);
      }
      i := i + 1;
    }
  }

  /** The row loop of `runSQL` for a `set` result: each row under its own namespace, until a cell raises. */
  method PutRows(q: Query, category: string) returns (results: map<string, Num>)
    requires q.Executed? && 0 < |q.columns|
    ensures results == SetEntries(q.columns, Table(q), Prefixes(q, category), |q.rows|)
  {
    results := map[];
    ghost var t, ps := Table(q), Prefixes(q, category);
    var r := 0;
    while r < |q.rows|
      invariant 0 <= r <= |q.rows|
      invariant results == SetEntries(q.columns, t, ps, r)
    {
      if !Readable(q, r, 0) {
        StopsAtFault(q, EntityPrefix(q, category, r), r, 1, 1);
        assert SetEntries(q.columns, t, ps, r + 1) == results;
        SetStopsAtFault(q, category, r + 1);
        return;   // getString(1) raised
      }
      var newCategory := category + UNDERSCORE + JavaString(q.rows[r][0]);
      var raised;
      results, raised := PutColumns(q, newCategory, r, 1, results);
      assert results == SetEntries(q.columns, t, ps, r + 1);
      if raised {
        SetStopsAtFault(q, category, r + 1);
        return;
      }
      r := r + 1;
    }
  }

  /** `runSQL`. Every SQLException is caught; what was gathered before it is returned. */
  method RunSQL(category: string, shape: Option<string>, q: Query) returns (results: map<string, Num>)
    ensures results == Shaped(category, shape, q)
  {
    results := map[];
    if q.QueryFailed? {
      return;   // executeQuery raised
    }
    if shape == Some(ROW) {
      if 0 < |q.rows| {   // rs.next(): only the first row is read
        var raised;
        results, raised := PutColumns(q, category, 0, 0, results);
      }
    } else if shape == Some(SET) {
      if |q.columns| == 0 {
        return;   // getColumnName(1) raised: there is no first column
      }
      if IsIdentityColumn(q.columns[0]) {
        results := PutRows(q, category);
      }
    }
  }

  // ---------------------------------------------------------------------
  // What the shaped map holds

  /** What row r contributes at column i: the number of cell (r, i) exactly when that cell is read and valid. */
  lemma RowValuesAt(q: Query, r: nat, i: nat)
    requires q.Executed? && r < |q.rows| && i < |q.columns|
    ensures RowValues(q, r)[i].Some? <==> Reports(q, r, i)
    ensures Reports(q, r, i) ==> RowValues(q, r)[i].value == CellNumber(q, r, i)
  {
  }

  /** The keys a column range contributes: one per column with a value. */
  lemma {:induction false} ColumnEntriesKeys(columns: seq<string>, vs: seq<Option<Num>>, prefix: string, lo: nat, hi: nat, k: string)
    requires |vs| == |columns| && lo <= hi <= |columns|
    ensures k in ColumnEntries(columns, vs, prefix, lo, hi) <==>
      exists i :: lo <= i < hi && vs[i].Some? && k == Key(prefix, columns[i])
    decreases hi
  {
    if hi > lo {
      ColumnEntriesKeys(columns, vs, prefix, lo, hi - 1, k);
    }
  }

  /** Distinct lowercased column names give distinct keys under one prefix. */
  lemma KeyInjective(prefix: string, a: string, b: string)
    requires Key(prefix, a) == Key(prefix, b)
    ensures Lower(a) == Lower(b)
  {
    var p := |prefix + SEPARATOR|;
    assert Lower(a) == Key(prefix, a)[p..];
    assert Lower(b) == Key(prefix, b)[p..];
  }

  /** A key holds the value of the last column with a value that produces it. */
  lemma {:induction false} ColumnEntriesValue(columns: seq<string>, vs: seq<Option<Num>>, prefix: string, lo: nat, hi: nat, i: nat)
    requires |vs| == |columns| && lo <= i < hi <= |columns| && vs[i].Some?
    requires forall j :: i < j < hi && vs[j].Some? ==> Lower(columns[j]) != Lower(columns[i])
    ensures Key(prefix, columns[i]) in ColumnEntries(columns, vs, prefix, lo, hi)
    ensures ColumnEntries(columns, vs, prefix, lo, hi)[Key(prefix, columns[i])] == vs[i].value
    decreases hi
  {
    if hi - 1 > i {
      ColumnEntriesValue(columns, vs, prefix, lo, hi - 1, i);
      if vs[hi - 1].Some? && Key(prefix, columns[hi - 1]) == Key(prefix, columns[i]) {
        KeyInjective(prefix, columns[hi - 1], columns[i]);
        assert false;
      }
    }
  }

  /**
   * Shape `row`: the keys are exactly category/lower(column) for the columns
   * of the first row whose transformed value is valid (and read before any
   * fault); no row gives no key.
   */
  lemma RowShapeKeys(category: string, q: Query, k: string)
    requires q.Executed?
    ensures k in Shaped(category, Some(ROW), q) <==>
      0 < |q.rows| && exists i :: 0 <= i < |q.columns| && Reports(q, 0, i) && k == category + "/" + Lower(q.columns[i])
  {
    if 0 < |q.rows| {
      var vs := RowValues(q, 0);
      ColumnEntriesKeys(q.columns, vs, category, 0, |q.columns|, k);
      if k in Shaped(category, Some(ROW), q) {
        var i :| 0 <= i < |q.columns| && vs[i].Some? && k == Key(category, q.columns[i]);
        RowValuesAt(q, 0, i);
      }
      if exists i :: 0 <= i < |q.columns| && Reports(q, 0, i) && k == category + "/" + Lower(q.columns[i]) {
        var i :| 0 <= i < |q.columns| && Reports(q, 0, i) && k == category + "/" + Lower(q.columns[i]);
        RowValuesAt(q, 0, i);
      }
    }
  }

  /** Shape `row`: the key of a valid column holds that column's number, unless a later valid column has the same name. */
  lemma RowShapeValue(category: string, q: Query, i: nat)
    requires q.Executed? && 0 < |q.rows| && i < |q.columns| && Reports(q, 0, i)
    requires forall j :: i < j < |q.columns| && Reports(q, 0, j) ==> Lower(q.columns[j]) != Lower(q.columns[i])
    ensures category + "/" + Lower(q.columns[i]) in Shaped(category, Some(ROW), q)
    ensures Shaped(category, Some(ROW), q)[category + "/" + Lower(q.columns[i])] == CellNumber(q, 0, i)
  {
    var vs := RowValues(q, 0);
    RowValuesAt(q, 0, i);
    forall j | i < j < |q.columns| && vs[j].Some?
      ensures Lower(q.columns[j]) != Lower(q.columns[i])
    {
      RowValuesAt(q, 0, j);
    }
    ColumnEntriesValue(q.columns, vs, category, 0, |q.columns|, i);
  }

  /** Shape `row` looks at the first row only. */
  lemma RowShapeFirstRowOnly(category: string, q: Query, q': Query)
    requires q.Executed? && q'.Executed? && q.columns == q'.columns && q.fault == q'.fault
    requires 0 < |q.rows| && 0 < |q'.rows| && q.rows[0] == q'.rows[0]
    ensures Shaped(category, Some(ROW), q) == Shaped(category, Some(ROW), q')
  {
    assert RowValues(q, 0) == RowValues(q', 0);
  }

  /** The cases that give an empty map. */
  lemma ShapedEmpty(category: string, shape: Option<string>, q: Query)
    ensures q.QueryFailed? ==> Shaped(category, shape, q) == map[]
    ensures shape != Some(ROW) && shape != Some(SET) ==> Shaped(category, shape, q) == map[]
    ensures q.Executed? && shape == Some(ROW) && |q.rows| == 0 ==> Shaped(category, shape, q) == map[]
    ensures q.Executed? && shape == Some(SET) && (|q.columns| == 0 || !IsIdentityColumn(q.columns[0]))
      ==> Shaped(category, shape, q) == map[]
  {
  }

  /** The shape tag is compared exactly: "ROW" and null are not `row`. */
  lemma ShapeTagIsCaseSensitive(category: string, q: Query)
    ensures Shaped(category, Some("ROW"), q) == map[] && Shaped(category, None, q) == map[]
  {
  }

  /** Column i of row r yields `key`. */
  predicate SetKeyFrom(columns: seq<string>, table: seq<seq<Option<Num>>>, prefixes: seq<string>, r: nat, i: nat, key: string)
    requires Rectangular(columns, table) && r < |table| == |prefixes|
  {
    1 <= i < |columns| && table[r][i].Some? && key == Key(prefixes[r], columns[i])
  }

  /** Every key a cell with a value in rows 0..k-1 yields is filed. */
  lemma {:induction false} SetEntriesHas(columns: seq<string>, table: seq<seq<Option<Num>>>, prefixes: seq<string>,
                                         k: nat, r: nat, i: nat, key: string)
    requires Rectangular(columns, table) && k <= |table| == |prefixes| && 0 < |columns| && r < k
    requires SetKeyFrom(columns, table, prefixes, r, i, key)
    ensures key in SetEntries(columns, table, prefixes, k)
    decreases k
  {
    if r == k - 1 {
      ColumnEntriesKeys(columns, table[r], prefixes[r], 1, |columns|, key);
    } else {
      SetEntriesHas(columns, table, prefixes, k - 1, r, i, key);
    }
  }

  /** Every key filed for rows 0..k-1 comes from a cell with a value in one of them. */
  lemma {:induction false} SetEntriesFrom(columns: seq<string>, table: seq<seq<Option<Num>>>, prefixes: seq<string>,
                                          k: nat, key: string)
    requires Rectangular(columns, table) && k <= |table| == |prefixes| && 0 < |columns|
    requires key in SetEntries(columns, table, prefixes, k)
    ensures exists r, i :: 0 <= r < k && SetKeyFrom(columns, table, prefixes, r, i, key)
    decreases k
  {
    var row := ColumnEntries(columns, table[k - 1], prefixes[k - 1], 1, |columns|);
    if key in row {
      ColumnEntriesKeys(columns, table[k - 1], prefixes[k - 1], 1, |columns|, key);
      var i :| 1 <= i < |columns| && table[k - 1][i].Some? && key == Key(prefixes[k - 1], columns[i]);
      assert SetKeyFrom(columns, table, prefixes, k - 1, i, key);
    } else {
      SetEntriesFrom(columns, table, prefixes, k - 1, key);
      var r, i :| 0 <= r < k - 1 && SetKeyFrom(columns, table, prefixes, r, i, key);
      assert 0 <= r < k;
    }
  }

  /** The keys rows 0..k-1 contribute. */
  lemma SetEntriesKeys(columns: seq<string>, table: seq<seq<Option<Num>>>, prefixes: seq<string>, k: nat, key: string)
    requires Rectangular(columns, table) && k <= |table| == |prefixes| && 0 < |columns|
    ensures key in SetEntries(columns, table, prefixes, k) <==>
      exists r, i :: 0 <= r < k && SetKeyFrom(columns, table, prefixes, r, i, key)
  {
    if key in SetEntries(columns, table, prefixes, k) {
      SetEntriesFrom(columns, table, prefixes, k, key);
    }
    if exists r, i :: 0 <= r < k && SetKeyFrom(columns, table, prefixes, r, i, key) {
      var r, i :| 0 <= r < k && SetKeyFrom(columns, table, prefixes, r, i, key);
      SetEntriesHas(columns, table, prefixes, k, r, i, key);
    }
  }

  /** Row r's namespace under the category: category, "_", the first cell. */
  predicate SetKeyOfCell(category: string, q: Query, r: nat, i: nat, key: string)
    requires q.Executed?
  {
    r < |q.rows| && 1 <= i < |q.columns| && Reports(q, r, i)
    && key == Key(category + UNDERSCORE + JavaString(q.rows[r][0]), q.columns[i])
  }

  /** A key the set shape files comes from a read, valid cell from the second column on. */
  lemma SetShapeKeyFrom(category: string, q: Query, key: string) returns (r: nat, i: nat)
    requires q.Executed? && 0 < |q.columns|
    requires key in SetEntries(q.columns, Table(q), Prefixes(q, category), |q.rows|)
    ensures SetKeyOfCell(category, q, r, i, key)
  {
    var t, ps := Table(q), Prefixes(q, category);
    SetEntriesKeys(q.columns, t, ps, |q.rows|, key);
    r, i :| 0 <= r < |q.rows| && SetKeyFrom(q.columns, t, ps, r, i, key);
    RowValuesAt(q, r, i);
  }

  /** Every read, valid cell from the second column on files its key. */
  lemma SetShapeKeyHas(category: string, q: Query, r: nat, i: nat, key: string)
    requires q.Executed? && 0 < |q.columns| && SetKeyOfCell(category, q, r, i, key)
    ensures key in SetEntries(q.columns, Table(q), Prefixes(q, category), |q.rows|)
  {
    var t, ps := Table(q), Prefixes(q, category);
    RowValuesAt(q, r, i);
    assert SetKeyFrom(q.columns, t, ps, r, i, key);
    SetEntriesHas(q.columns, t, ps, |q.rows|, r, i, key);
  }

  /**
   * Shape `set`: only when the first column is TBSP_NAME, BP_NAME or
   * STANDBY_ID (any case); then each row r yields
   * category_<first cell>/lower(column) for its valid columns from the second on.
   */
  lemma SetShapeKeys(category: string, q: Query, key: string)
    requires q.Executed?
    ensures key in Shaped(category, Some(SET), q) <==>
      0 < |q.columns| && IsIdentityColumn(q.columns[0]) &&
      exists r, i :: 0 <= r < |q.rows| && 1 <= i < |q.columns| && Reports(q, r, i)
        && key == Key(category + UNDERSCORE + JavaString(q.rows[r][0]), q.columns[i])
  {
    if 0 < |q.columns| && IsIdentityColumn(q.columns[0]) {
      if key in Shaped(category, Some(SET), q) {
        var r, i := SetShapeKeyFrom(category, q, key);
        assert SetKeyOfCell(category, q, r, i, key);
      }
      if (exists r, i :: 0 <= r < |q.rows| && 1 <= i < |q.columns| && Reports(q, r, i)
            && key == Key(category + UNDERSCORE + JavaString(q.rows[r][0]), q.columns[i])) {
        var r, i :| 0 <= r < |q.rows| && 1 <= i < |q.columns| && Reports(q, r, i)
          && key == Key(category + UNDERSCORE + JavaString(q.rows[r][0]), q.columns[i]);
        SetShapeKeyHas(category, q, r, i, key);
      }
    }
  }

  /** A fault can only lose keys: every key reported was also reported by the same result read without a fault. */
  lemma FaultOnlyDropsKeys(category: string, shape: Option<string>, q: Query, key: string)
    requires q.Executed?
    requires key in Shaped(category, shape, q)
    ensures key in Shaped(category, shape, q.(fault := None))
  {
    var q0: Query := q.(fault := None);
    if shape == Some(ROW) {
      RowShapeKeys(category, q, key);
      RowShapeKeys(category, q0, key);
      var i :| 0 <= i < |q.columns| && Reports(q, 0, i) && key == category + "/" + Lower(q.columns[i]);
      assert Reports(q0, 0, i);
    } else if shape == Some(SET) {
      SetShapeKeys(category, q, key);
      SetShapeKeys(category, q0, key);
      var r, i :| 0 <= r < |q.rows| && 1 <= i < |q.columns| && Reports(q, r, i)
        && key == Key(category + UNDERSCORE + JavaString(q.rows[r][0]), q.columns[i]);
      assert Reports(q0, r, i);
    }
  }

  /** The recognised identity columns, exactly. */
  lemma IdentityColumns(name: string)
    ensures IsIdentityColumn(name) <==> Lower(name) in {"tbsp_name", "bp_name", "standby_id"}
  {
    LowerEq(TBSP_COLUMN_NAME, "tbsp_name");
    LowerEq(BP_COLUMN_NAME, "bp_name");
    LowerEq(HADR_COLUMN_NAME, "standby_id");
  }
}
