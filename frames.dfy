/** The data-frame layer of app.py: turning the loaded records into a frame, picking
    the numeric feature columns (assemble_dataframe), and keeping the rows the outlier
    model flags (detect_anomalies). */
module Frames {
  import opened Values

  predicate Distinct<T(==)>(s: seq<T>) {
    forall i, j :: 0 <= i < j < |s| ==> s[i] != s[j]
  }

  lemma FirstIsMember<T>(s: seq<T>)
    ensures |s| > 0 ==> s[0] in s
  {
  }

  /** a is b with some elements left out, the rest in their order. */
  predicate Subsequence<T(==)>(a: seq<T>, b: seq<T>)
    decreases |b|
  {
    a == [] || (b != [] && ((a[0] == b[0] && Subsequence(a[1..], b[1..])) || Subsequence(a, b[1..])))
  }

  lemma {:induction false} SubsequenceMembers<T>(a: seq<T>, b: seq<T>)
    requires Subsequence(a, b)
    ensures forall x :: x in a ==> x in b
    decreases |b|
  {
    if a != [] {
      if a[0] == b[0] && Subsequence(a[1..], b[1..]) {
        SubsequenceMembers(a[1..], b[1..]);
        assert a == [a[0]] + a[1..] && b == [b[0]] + b[1..];
      } else {
        SubsequenceMembers(a, b[1..]);
        assert b == [b[0]] + b[1..];
      }
    }
  }

  /** Of a list without duplicates, an ordered selection is fixed by what it selects. */
  lemma {:induction false} SubsequenceUnique<T>(a: seq<T>, a': seq<T>, b: seq<T>)
    requires Distinct(b) && Subsequence(a, b) && Subsequence(a', b)
    requires forall x :: x in a <==> x in a'
    ensures a == a'
    decreases |b|
  {
    if a == [] || a' == [] {
      FirstIsMember(a);
      FirstIsMember(a');
    } else {
      var x, rest := b[0], b[1..];
      assert b == [x] + rest;
      assert x !in rest by {
        forall j | 0 <= j < |rest| ensures rest[j] != x {
          assert rest[j] == b[j + 1];
        }
      }
      assert Distinct(rest) by {
        forall i, j | 0 <= i < j < |rest| ensures rest[i] != rest[j] {
          assert rest[i] == b[i + 1] && rest[j] == b[j + 1];
        }
      }
      if x in a {
        HeadOfSubsequence(a, x, rest);
        HeadOfSubsequence(a', x, rest);
        SubsequenceMembers(a[1..], rest);
        SubsequenceMembers(a'[1..], rest);
        assert a == [x] + a[1..] && a' == [x] + a'[1..];
        forall y
          ensures y in a[1..] <==> y in a'[1..]
        {
          assert y in a <==> y == x || y in a[1..];
          assert y in a' <==> y == x || y in a'[1..];
        }
        SubsequenceUnique(a[1..], a'[1..], rest);
      } else {
        assert a[0] != x && a'[0] != x;
        SubsequenceUnique(a, a', rest);
      }
    }
  }

  /** A selection from [x] + rest that selects x starts with it, x being new to rest. */
  lemma HeadOfSubsequence<T>(a: seq<T>, x: T, rest: seq<T>)
    requires Subsequence(a, [x] + rest) && x in a && x !in rest
    ensures a[0] == x && Subsequence(a[1..], rest)
  {
    var b := [x] + rest;
    assert b[1..] == rest;
    if !(a[0] == x && Subsequence(a[1..], rest)) {
      SubsequenceMembers(a, rest);
    }
  }

  // ---------------------------------------------------------------------------
  // Columns of pd.DataFrame(rows)

  /** Appends, in order, those of `names` that are not yet in `cols`. */
  function AddNew(cols: seq<string>, names: seq<string>): (r: seq<string>)
    ensures cols <= r
    ensures forall c :: c in r <==> c in cols || c in names
    ensures Distinct(cols) ==> Distinct(r)
    decreases |names|
  {
    if names == [] then cols
    else if names[0] in cols then AddNew(cols, names[1..])
    else AddNew(cols + [names[0]], names[1..])
  }

  /** Adding the new names of x, then those of y, adds the new names of x + y. */
  lemma {:induction false} AddNewConcat(cols: seq<string>, x: seq<string>, y: seq<string>)
    ensures AddNew(AddNew(cols, x), y) == AddNew(cols, x + y)
    decreases |x|
  {
    if x == [] {
      assert x + y == y;
    } else {
      assert (x + y)[0] == x[0] && (x + y)[1..] == x[1..] + y;
      if x[0] in cols {
        AddNewConcat(cols, x[1..], y);
      } else {
        AddNewConcat(cols + [x[0]], x[1..], y);
      }
    }
  }

  /** Every field name of the records, record after record, each record's in its
      own order. */
  function AllNames(records: seq<Record>): (ns: seq<string>)
    ensures forall c :: c in ns <==> exists i :: 0 <= i < |records| && c in Names(records[i])
  {
    if records == [] then []
    else
      var init := records[..|records| - 1];
      assert forall i :: 0 <= i < |records| - 1 ==> records[i] == init[i];
      AllNames(init) + Names(records[|records| - 1])
  }

  /** The columns pandas builds from a list of dicts: every field name of every
      record, each once, in the order it is first seen. */
  function ColumnsOf(records: seq<Record>): (cols: seq<string>)
    ensures Distinct(cols)
    ensures forall c :: c in cols <==> exists i :: 0 <= i < |records| && c in Names(records[i])
  {
    if records == [] then []
    else
      var init := records[..|records| - 1];
      var cols := AddNew(ColumnsOf(init), Names(records[|records| - 1]));
      assert forall i :: 0 <= i < |records| - 1 ==> records[i] == init[i];
      cols
  }

  /** Column order is order of first appearance: the columns of a leading block a of
      records come first, followed by the names of the later records b that are new,
      in the order b holds them. */
  lemma {:induction false} ColumnsPrefix(a: seq<Record>, b: seq<Record>)
    ensures ColumnsOf(a) <= ColumnsOf(a + b)
    ensures ColumnsOf(a + b) == AddNew(ColumnsOf(a), AllNames(b))
    decreases |b|
  {
    if b == [] {
      assert a + b == a;
    } else {
      var b' := b[..|b| - 1];
      var last := Names(b[|b| - 1]);
      ColumnsPrefix(a, b');
      assert (a + b)[..|a + b| - 1] == a + b';
      assert (a + b)[|a + b| - 1] == b[|b| - 1];
      AddNewConcat(ColumnsOf(a), AllNames(b'), last);
    }
  }

  /** c precedes d in s by first occurrence. */
  predicate SeenBefore(s: seq<string>, c: string, d: string)
    requires c in s && d in s
  {
    IndexOf(s, c) < IndexOf(s, d)
  }

  /** Column order stated on its own: the columns are the field names of all the
      records, and column c comes before column d exactly when c's first occurrence
      (by record, then by field) comes before d's. */
  lemma ColumnsFirstSeen(records: seq<Record>)
    ensures var cols, flat := ColumnsOf(records), AllNames(records);
      && (forall c :: c in cols <==> c in flat)
      && forall k, l :: 0 <= k < |cols| && 0 <= l < |cols| ==>
           (k < l <==> SeenBefore(flat, cols[k], cols[l]))
  {
    ColumnsPrefix([], records);
    assert [] + records == records;
    AddNewOrder([], [], AllNames(records));
    assert [] + AllNames(records) == AllNames(records);
    assert InSeenOrder(ColumnsOf(records), AllNames(records));
    var cols, flat := ColumnsOf(records), AllNames(records);
    forall k, l | 0 <= k < |cols| && 0 <= l < |cols|
      ensures k < l <==> SeenBefore(flat, cols[k], cols[l])
    {
      if l < k {
        assert SeenBefore(flat, cols[l], cols[k]);
      }
    }
  }

  /** AddNew keeps columns in first-seen order. */
  lemma {:induction false} AddNewOrder(cols: seq<string>, seen: seq<string>, names: seq<string>)
    requires forall c :: c in cols <==> c in seen
    requires InSeenOrder(cols, seen)
    ensures InSeenOrder(AddNew(cols, names), seen + names)
    decreases |names|
  {
    if names == [] {
      assert seen + names == seen;
    } else {
      var x := names[0];
      var seen' := seen + [x];
      assert seen + names == seen' + names[1..];
      if x in cols {
        OrderKeptByAppend(cols, seen, [x]);
        AddNewOrder(cols, seen', names[1..]);
      } else {
        OrderExtended(cols, seen, x);
        AddNewOrder(cols + [x], seen', names[1..]);
      }
    }
  }

  /** The elements of cols in the order of their first occurrence in seen. */
  predicate InSeenOrder(cols: seq<string>, seen: seq<string>) {
    forall k, l :: 0 <= k < l < |cols| ==> cols[k] in seen && cols[l] in seen && SeenBefore(seen, cols[k], cols[l])
  }

  lemma OrderKeptByAppend(cols: seq<string>, seen: seq<string>, t: seq<string>)
    requires InSeenOrder(cols, seen) && forall c :: c in cols ==> c in seen
    ensures InSeenOrder(cols, seen + t)
  {
    forall c | c in seen
      ensures IndexOf(seen + t, c) == IndexOf(seen, c)
    {
      IndexOfAppend(seen, t, c);
    }
  }

  lemma OrderExtended(cols: seq<string>, seen: seq<string>, x: string)
    requires InSeenOrder(cols, seen) && (forall c :: c in cols <==> c in seen) && x !in seen
    ensures InSeenOrder(cols + [x], seen + [x])
  {
    var cols', seen' := cols + [x], seen + [x];
    OrderKeptByAppend(cols, seen, [x]);
    IndexOfAppend(seen, [x], x);
    forall k, l | 0 <= k < l < |cols'|
      ensures cols'[k] in seen' && cols'[l] in seen' && SeenBefore(seen', cols'[k], cols'[l])
    {
      assert cols'[k] == cols[k] && cols[k] in seen;
      IndexOfAppend(seen, [x], cols[k]);
      if l < |cols| {
        assert cols'[l] == cols[l];
      }
    }
  }

  /** First occurrences in s + t: those of s where s has the element, else past s. */
  lemma {:induction false} IndexOfAppend(s: seq<string>, t: seq<string>, c: string)
    requires c in s + t
    ensures c in s ==> IndexOf(s + t, c) == IndexOf(s, c)
    ensures c !in s ==> IndexOf(s + t, c) == |s| + IndexOf(t, c)
  {
    var i := IndexOf(s + t, c);
    if c in s {
      var j := IndexOf(s, c);
      assert (s + t)[j] == c;
    } else {
      var j := IndexOf(t, c);
      assert (s + t)[|s| + j] == c;
      assert t[i - |s|] == c;
    }
  }

  /** A single record's columns are its own field names when they are distinct. */
  lemma ColumnsOfOne(r: Record)
    requires Distinct(Names(r))
    ensures ColumnsOf([r]) == Names(r)
  {
    assert [r][..0] == [];
    AddNewFresh([], Names(r));
  }

  lemma {:induction false} AddNewFresh(cols: seq<string>, names: seq<string>)
    requires Distinct(cols + names)
    ensures AddNew(cols, names) == cols + names
    decreases |names|
  {
    if names != [] {
      assert (cols + [names[0]]) + names[1..] == cols + names;
      forall i | 0 <= i < |cols| ensures cols[i] != names[0] {
        assert (cols + names)[i] == cols[i] && (cols + names)[|cols|] == names[0];
      }
      AddNewFresh(cols + [names[0]], names[1..]);
    }
  }

  // ---------------------------------------------------------------------------
  // df.select_dtypes(include=["int64", "float64", "float"])

  /** The cell holds a number. */
  predicate IsNumber(v: Option<Scalar>) {
    v.Some? && (v.value.Int? || v.value.Float?)
  }

  /** The cell does not stop a column from being numeric: a number, a JSON null or an
      absent field (both of which pandas stores as NaN in a float column). */
  predicate NumberOrMissing(v: Option<Scalar>) {
    v.None? || v.value.Int? || v.value.Float? || v.value.Null?
  }

  /** pandas infers int64 or float64 for column c: every record holds a number, null
      or nothing there, and some record holds a number or nothing (pandas fills a
      missing field with the float NaN). A bool or a string makes the column `object`
      (or `bool`), and so does a null in every record; select_dtypes skips those. */
  predicate IsNumericColumn(records: seq<Record>, c: string) {
    (exists i :: 0 <= i < |records| && (IsNumber(Lookup(records[i], c)) || Lookup(records[i], c).None?))
    && forall i :: 0 <= i < |records| ==> NumberOrMissing(Lookup(records[i], c))
  }

  /** The numeric columns, in column order. */
  function SelectNumeric(cols: seq<string>, records: seq<Record>): (r: seq<string>)
    ensures forall c :: c in r <==> c in cols && IsNumericColumn(records, c)
    ensures Subsequence(r, cols)
    ensures Distinct(cols) ==> Distinct(r)
  {
    if cols == [] then []
    else
      var rest := SelectNumeric(cols[1..], records);
      if IsNumericColumn(records, cols[0]) then
        assert ([cols[0]] + rest)[1..] == rest;
        [cols[0]] + rest
      else rest
  }

  /** select_dtypes keeps the frame's column order: any ordered selection of exactly
      the numeric columns is SelectNumeric. */
  lemma SelectNumericUnique(cols: seq<string>, records: seq<Record>, s: seq<string>)
    requires Distinct(cols) && Subsequence(s, cols)
    requires forall c :: c in s <==> c in cols && IsNumericColumn(records, c)
    ensures s == SelectNumeric(cols, records)
  {
    SubsequenceUnique(s, SelectNumeric(cols, records), cols);
  }

  const VALUE_COLUMN := "value"

  /** The feature columns of assemble_dataframe: the numeric columns, plus "value"
      appended last when it is a column but not a numeric one. */
  function NumericColumns(records: seq<Record>, cols: seq<string>): (nc: seq<string>)
    ensures forall c :: c in nc <==> c in cols && (IsNumericColumn(records, c) || c == VALUE_COLUMN)
    ensures Distinct(cols) ==> Distinct(nc)
    ensures SelectNumeric(cols, records) <= nc
    ensures VALUE_COLUMN in cols && !IsNumericColumn(records, VALUE_COLUMN) ==>
              |nc| > 0 && nc[|nc| - 1] == VALUE_COLUMN
    ensures !(VALUE_COLUMN in cols && !IsNumericColumn(records, VALUE_COLUMN)) ==>
              nc == SelectNumeric(cols, records)
  {
    var sel := SelectNumeric(cols, records);
    if VALUE_COLUMN in cols && VALUE_COLUMN !in sel then sel + [VALUE_COLUMN] else sel
  }

  // ---------------------------------------------------------------------------
  // The frame itself

  /** A pandas DataFrame built from a list of dicts: the records as rows, with the
      frame's own column list. */
  class DataFrame {
    var columns: seq<string>
    var rows: seq<Record>

    /** pd.DataFrame(records) */
    constructor (records: seq<Record>)
      ensures columns == ColumnsOf(records) && rows == records
    {
      columns := ColumnsOf(records);
      rows := records;
    }

    /** df.empty: no rows or no columns. */
    predicate Empty()
      reads this
    {
      |rows| == 0 || |columns| == 0
    }

    /** df[name] = values: pandas raises (ok is false, nothing changes) unless there
        is one value per row; otherwise every row gets its value under name, and name
        joins the columns when it is new. */
    method SetColumn(name: string, values: seq<Scalar>) returns (ok: bool)
      modifies this
      ensures ok == (|values| == |old(rows)|)
      ensures ok ==> rows == WithColumn(old(rows), name, values)
      ensures ok ==> columns == if name in old(columns) then old(columns) else old(columns) + [name]
      ensures !ok ==> rows == old(rows) && columns == old(columns)
    {
      ok := |values| == |rows|;
      if ok {
        rows := WithColumn(rows, name, values);
        if name !in columns {
          columns := columns + [name];
        }
      }
    }
  }

  /** Every row with its own value stored under name. */
  function WithColumn(rows: seq<Record>, name: string, values: seq<Scalar>): (r: seq<Record>)
    requires |values| == |rows|
    ensures |r| == |rows|
  {
    seq(|rows|, i requires 0 <= i < |rows| => Put(rows[i], name, values[i]))
  }

  /** The loop of assemble_dataframe: copy the loaded records into a fresh list. */
  method CollectRows(logs: seq<Record>) returns (rows: seq<Record>)
    ensures rows == logs
  {
    rows := [];
    var i := 0;
    while i < |logs|
      invariant 0 <= i <= |logs|
      invariant rows == logs[..i]
    {
      rows := rows + [logs[i]];
      i := i + 1;
    }
  }

  /** assemble_dataframe(None, logs). For no records the source returns a bare empty
      DataFrame although its caller unpacks two values (app.py:36 against app.py:89);
      this model returns the pair the caller expects, an empty frame with no feature
      columns. */
  method AssembleDataFrame(logs: seq<Record>) returns (df: DataFrame, numcols: seq<string>)
    ensures fresh(df)
    ensures df.rows == logs && df.columns == ColumnsOf(logs)
    ensures numcols == NumericColumns(logs, ColumnsOf(logs))
  {
    var rows := CollectRows(logs);
    if rows == [] {
      df := new DataFrame([]);
      numcols := [];
      return;
    }
    df := new DataFrame(rows);
    numcols := NumericColumns(rows, df.columns);
  }

  // ---------------------------------------------------------------------------
  // detect_anomalies

  type Matrix = seq<seq<Scalar>>

  /** IsolationForest.fit_predict's answer for one row: 1 inlier, -1 outlier. */
  type Flag = f: int | f == 1 || f == -1 witness 1

  /** IsolationForest(contamination, random_state=42).fit_predict, seen from outside:
      a deterministic function of the contamination and the feature matrix, giving
      one flag per matrix row, or None when scikit-learn raises (a non-numeric
      "value" entry, say). It is a parameter because the forest itself is not
      modelled. */
  type Flagger = f: (real, Matrix) -> Option<seq<Flag>>
    | forall c: real, x: Matrix :: f(c, x).Some? ==> |f(c, x).value| == |x|
    witness (c: real, x: Matrix) => None

  datatype Error =
    | FitFailed       // IsolationForest raised
    | UnpackFailed    // a bare DataFrame unpacked into two names

  /** fillna(0) on one cell. */
  function FillNa(v: Option<Scalar>): (c: Scalar)
    ensures c != Null
    ensures v.Some? && v.value != Null ==> c == v.value
    ensures v.None? || v.value == Null ==> c == Int(0)
  {
    if v.None? || v.value.Null? then Int(0) else v.value
  }

  /** df[numcols].fillna(0): one row per record, one cell per feature column. */
  function FeatureMatrix(rows: seq<Record>, numcols: seq<string>): (x: Matrix)
    ensures |x| == |rows|
    ensures forall i :: 0 <= i < |x| ==> |x[i]| == |numcols|
  {
    seq(|rows|, i requires 0 <= i < |rows| =>
      seq(|numcols|, j requires 0 <= j < |numcols| => FillNa(Lookup(rows[i], numcols[j]))))
  }

  /** Missing features read as 0, present ones are kept, and no cell is null. */
  lemma FeatureMatrixCells(rows: seq<Record>, numcols: seq<string>, i: int, j: int)
    requires 0 <= i < |rows| && 0 <= j < |numcols|
    ensures FeatureMatrix(rows, numcols)[i][j] != Null
    ensures var v := Lookup(rows[i], numcols[j]);
      FeatureMatrix(rows, numcols)[i][j] == if v.Some? && v.value != Null then v.value else Int(0)
  {
  }

  const FLAG_COLUMN := "_anomaly_flag"

  function FlagValues(flags: seq<Flag>): (vs: seq<Scalar>)
    ensures |vs| == |flags|
  {
    seq(|flags|, i requires 0 <= i < |flags| => Int(flags[i]))
  }

  /** The row filter df["_anomaly_flag"] == -1. */
  predicate IsFlagged(r: Record) {
    Lookup(r, FLAG_COLUMN) == Some(Int(-1))
  }

  /** The boolean Series df["_anomaly_flag"] == -1. */
  function Mask(rows: seq<Record>): (m: seq<bool>)
    ensures |m| == |rows| && forall i :: 0 <= i < |rows| ==> m[i] == IsFlagged(rows[i])
  {
    seq(|rows|, i requires 0 <= i < |rows| => IsFlagged(rows[i]))
  }

  /** The positions where the mask holds, ascending. */
  function TruePositions(m: seq<bool>): (idx: seq<nat>)
    ensures |idx| <= |m|
    ensures forall k :: 0 <= k < |idx| ==> idx[k] < |m| && m[idx[k]]
    ensures forall i :: 0 <= i < |m| && m[i] ==> i in idx
    ensures forall k, l :: 0 <= k < l < |idx| ==> idx[k] < idx[l]
  {
    if m == [] then []
    else
      var n := |m| - 1;
      var idx := TruePositions(m[..n]);
      if m[n] then idx + [n] else idx
  }

  /** The positions of the flagged rows, ascending. */
  function FlaggedPositions(rows: seq<Record>): (idx: seq<nat>)
    ensures |idx| <= |rows|
    ensures forall k :: 0 <= k < |idx| ==> idx[k] < |rows| && IsFlagged(rows[idx[k]])
    ensures forall i :: 0 <= i < |rows| && IsFlagged(rows[i]) ==> i in idx
    ensures forall k, l :: 0 <= k < l < |idx| ==> idx[k] < idx[l]
  {
    TruePositions(Mask(rows))
  }

  /** df[df["_anomaly_flag"] == -1]: the flagged rows, in their original order. */
  function FlaggedRows(rows: seq<Record>): (r: seq<Record>)
    ensures var idx := FlaggedPositions(rows);
      |r| == |idx| && forall k :: 0 <= k < |r| ==> r[k] == rows[idx[k]]
  {
    var idx := FlaggedPositions(rows);
    seq(|idx|, k requires 0 <= k < |idx| => rows[idx[k]])
  }

  /** The guard of detect_anomalies: an empty frame or no feature columns. */
  predicate NothingToScore(rows: seq<Record>, columns: seq<string>, numcols: seq<string>) {
    |rows| == 0 || |columns| == 0 || |numcols| == 0
  }

  /** detect_anomalies on values: the result, and (when the flags were stored) the
      rows of the frame with the flag column. */
  function Detect(rows: seq<Record>, columns: seq<string>, numcols: seq<string>,
                  contamination: real, flagger: Flagger): (r: Result<seq<Record>, Error>)
    ensures r.Err? <==>
              !NothingToScore(rows, columns, numcols) && flagger(contamination, FeatureMatrix(rows, numcols)).None?
    ensures r.Err? ==> r.error == FitFailed
    ensures r.Ok? ==> |r.value| <= |rows|
  {
    if NothingToScore(rows, columns, numcols) then Ok([])
    else
      var out := flagger(contamination, FeatureMatrix(rows, numcols));
      if out.None? then Err(FitFailed)
      else Ok(FlaggedRows(WithColumn(rows, FLAG_COLUMN, FlagValues(out.value))))
  }

  /** The flagger ran and its flags were stored in the frame. */
  predicate FlagsStored(rows: seq<Record>, columns: seq<string>, numcols: seq<string>,
                        contamination: real, flagger: Flagger)
  {
    && !NothingToScore(rows, columns, numcols)
    && flagger(contamination, FeatureMatrix(rows, numcols)).Some?
  }

  /** detect_anomalies(df, numcols), which also adds the flag column to the caller's
      frame. */
  method DetectAnomalies(df: DataFrame, numcols: seq<string>, contamination: real,
                         flagger: Flagger) returns (r: Result<seq<Record>, Error>)
    modifies df
    ensures r == Detect(old(df.rows), old(df.columns), numcols, contamination, flagger)
    ensures if FlagsStored(old(df.rows), old(df.columns), numcols, contamination, flagger) then
              var flags := flagger(contamination, FeatureMatrix(old(df.rows), numcols)).value;
              && df.rows == WithColumn(old(df.rows), FLAG_COLUMN, FlagValues(flags))
              && df.columns == if FLAG_COLUMN in old(df.columns) then old(df.columns)
                               else old(df.columns) + [FLAG_COLUMN]
            else df.rows == old(df.rows) && df.columns == old(df.columns)
  {
    if df.Empty() || |numcols| == 0 {
      return Ok([]);
    }
    var out := flagger(contamination, FeatureMatrix(df.rows, numcols));
    if out.None? {
      return Err(FitFailed);
    }
    // fit_predict gives one flag per row, so pandas accepts the column
    var ok := df.SetColumn(FLAG_COLUMN, FlagValues(out.value));
    r := Ok(FlaggedRows(df.rows));
  }

  /** Detection finds nothing when the frame is empty or has no feature columns;
      otherwise, unless the model fails, it returns exactly the
      rows flagged -1, in their original order, each carrying its flag. */
  lemma DetectKeepsFlaggedRows(rows: seq<Record>, columns: seq<string>, numcols: seq<string>,
                               contamination: real, flagger: Flagger)
    ensures NothingToScore(rows, columns, numcols) ==>
              Detect(rows, columns, numcols, contamination, flagger) == Ok([])
    ensures FlagsStored(rows, columns, numcols, contamination, flagger) ==>
      var flags := flagger(contamination, FeatureMatrix(rows, numcols)).value;
      var res := Detect(rows, columns, numcols, contamination, flagger);
      var idx := FlaggedPositions(WithColumn(rows, FLAG_COLUMN, FlagValues(flags)));
      && res.Ok? && |res.value| == |idx|
      && (forall i :: 0 <= i < |rows| ==> (i in idx <==> flags[i] == -1))
      && (forall k, l :: 0 <= k < l < |idx| ==> idx[k] < idx[l])
      && (forall k :: 0 <= k < |idx| ==> res.value[k] == Put(rows[idx[k]], FLAG_COLUMN, Int(-1)))
  {
    if FlagsStored(rows, columns, numcols, contamination, flagger) {
      var flags := flagger(contamination, FeatureMatrix(rows, numcols)).value;
      var tagged := WithColumn(rows, FLAG_COLUMN, FlagValues(flags));
      var idx := FlaggedPositions(tagged);
      forall i | 0 <= i < |rows| ensures IsFlagged(tagged[i]) <==> flags[i] == -1 {
        PutLookupSame(rows[i], FLAG_COLUMN, Int(flags[i]));
      }
      forall k | 0 <= k < |idx| ensures tagged[idx[k]] == Put(rows[idx[k]], FLAG_COLUMN, Int(-1)) {
        assert flags[idx[k]] == -1;
      }
    }
  }
}
