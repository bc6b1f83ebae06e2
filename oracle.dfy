/** The result-table equivalence oracle of the PPL benchmark: building a
    typed table from a PPL response (`simple_parse`) and deciding whether a
    predicted table holds the same data as the gold table up to row order,
    column order, column names and type casts (`eval_execution_accuracy`). */
module Oracle {
  import opened Wrappers
  import opened Frames

  /** One entry of a PPL response schema. */
  datatype Field = Field(name: string, typ: string)

  /** `INDEX_TYPES`: the pandas dtype each index field type is cast to. */
  const IndexTypes: map<string, Dtype> := map[
    "float" := Float64, "double" := Float64, "boolean" := Boolean,
    "keyword" := Object, "long" := NullableInt64, "bigint" := NullableInt64,
    "text" := Object, "object" := Object, "struct" := Object,
    "integer" := NullableInt32, "timestamp" := Object, "time" := Object,
    "datetime" := Object, "date" := Object, "string" := Object,
    "array" := Object, "ip" := Object, "geo_point" := Object,
    "demo" := Object, "int" := Int64]

  function FieldNames(schema: seq<Field>): (r: seq<string>)
    ensures |r| == |schema| && forall k :: 0 <= k < |schema| ==> r[k] == schema[k].name
  {
    seq(|schema|, k requires 0 <= k < |schema| => schema[k].name)
  }

  // ---------------------------------------------------------------------------
  // simple_parse
  // ---------------------------------------------------------------------------

  /** The length of the widest row. */
  function Width(rows: seq<seq<Cell>>): (w: nat)
    ensures forall r :: 0 <= r < |rows| ==> |rows[r]| <= w
    ensures rows != [] ==> exists r :: 0 <= r < |rows| && |rows[r]| == w
  {
    if rows == [] then 0
    else
      var w' := Width(rows[1..]);
      if |rows[0]| >= w' then |rows[0]|
      else
        assert forall r :: 1 <= r < |rows| ==> rows[r] == rows[1..][r - 1];
        w'
  }

  /** Column `j` of a list of rows; a row too short for it holds a missing value there. */
  function ColumnCells(rows: seq<seq<Cell>>, j: nat): (vals: seq<Cell>)
    ensures |vals| == |rows|
  {
    seq(|rows|, r requires 0 <= r < |rows| => if j < |rows[r]| then rows[r][j] else Null)
  }

  /** `pd.DataFrame(datarows, columns=names)`: short rows are padded with missing
      values, and a ValueError is raised unless the widest row has exactly one
      cell per name. */
  function Construct(sem: Semantics, rows: seq<seq<Cell>>, names: seq<string>): (r: Result<Frame>)
    ensures r.Success? <==> rows == [] || Width(rows) == |names|
    ensures r.Success? ==> Names(r.value) == names && r.value.nrows == |rows|
    ensures r.Success? ==> forall k :: 0 <= k < |names| ==> r.value.cols[k].values == ColumnCells(rows, k)
  {
    if rows != [] && Width(rows) != |names| then Failure(ValueError)
    else
      var cols := seq(|names|, k requires 0 <= k < |names| =>
        Column(names[k], sem.infer(ColumnCells(rows, k)), ColumnCells(rows, k)));
      var f := Frame(|rows|, cols);
      assert Names(f) == names;
      Success(f)
  }

  /** `pd.to_numeric(series, errors="coerce")` */
  function NumericValues(sem: Semantics, vals: seq<Cell>): (r: seq<Cell>)
    ensures |r| == |vals| && forall i :: 0 <= i < |vals| ==> r[i] == sem.toNumeric(vals[i])
  {
    seq(|vals|, i requires 0 <= i < |vals| => sem.toNumeric(vals[i]))
  }

  predicate NoNulls(vals: seq<Cell>)
  {
    forall i :: 0 <= i < |vals| ==> vals[i] != Null
  }

  /** What one pass of the loop of `simple_parse` does to one column whose
      declared field type is `typ`. */
  function NormalizeColumn(sem: Semantics, c: Column, typ: string): (r: Result<Column>)
    ensures r.Success? ==> r.value.name == c.name && |r.value.values| == |c.values|
  {
    if typ == "int" then
      match CastValues(sem, NumericValues(sem, c.values), NullableInt64)
      case None => Failure(ValueError)
      case Some(vals) => Success(Column(c.name, NullableInt64, vals))
    else if c.name in IndexTypes && NoNulls(c.values) then
      if typ !in IndexTypes then Failure(KeyError)
      else
        match CastValues(sem, c.values, IndexTypes[typ])
        case None => Failure(ValueError)
        case Some(vals) => Success(Column(c.name, IndexTypes[typ], vals))
    else Success(c)
  }

  /** A field declared `int` is always coerced to nullable Int64, whatever
      its values: each value goes through `to_numeric` and then the cast. */
  lemma IntFieldAlwaysCoerced(sem: Semantics, c: Column)
    ensures var r := NormalizeColumn(sem, c, "int");
      && (r.Success? <==> forall i :: 0 <= i < |c.values| ==> sem.cast(sem.toNumeric(c.values[i]), NullableInt64).Some?)
      && (r.Success? ==>
            && r.value.dtype == NullableInt64
            && forall i :: 0 <= i < |c.values| ==> Some(r.value.values[i]) == sem.cast(sem.toNumeric(c.values[i]), NullableInt64))
  {
  }

  /** Any other column is changed only when its NAME is a key of `INDEX_TYPES`
      and it holds no missing value; it is then cast to the dtype of its
      declared TYPE, and an unknown type raises KeyError. */
  lemma OtherFieldCastRule(sem: Semantics, c: Column, typ: string)
    requires typ != "int"
    ensures var r := NormalizeColumn(sem, c, typ);
      && (!(c.name in IndexTypes && NoNulls(c.values)) ==> r == Success(c))
      && (c.name in IndexTypes && NoNulls(c.values) && typ !in IndexTypes ==> r == Failure(KeyError))
      && (r.Success? && r.value != c ==>
            && c.name in IndexTypes && NoNulls(c.values) && typ in IndexTypes
            && r.value.dtype == IndexTypes[typ]
            && forall i :: 0 <= i < |c.values| ==> sem.cast(c.values[i], IndexTypes[typ]) == Some(r.value.values[i]))
  {
  }

  /** `simple_parse(datarows, schema)`: builds the frame and normalises its
      columns one by one, in schema order. An exception raised while building
      or normalising a column ends the call. */
  method SimpleParse(sem: Semantics, datarows: seq<seq<Cell>>, schema: seq<Field>) returns (r: Result<Frame>)
    requires Distinct(FieldNames(schema))
    ensures match Construct(sem, datarows, FieldNames(schema))
      case Failure(e) => r == Failure(e)
      case Success(df) =>
        && (r.Success? <==> forall k :: 0 <= k < |schema| ==> NormalizeColumn(sem, df.cols[k], schema[k].typ).Success?)
        && (r.Success? ==>
              && r.value.nrows == |datarows|
              && Names(r.value) == FieldNames(schema)
              && forall k :: 0 <= k < |schema| ==> NormalizeColumn(sem, df.cols[k], schema[k].typ) == Success(r.value.cols[k]))
  {
    var names := FieldNames(schema);
    var built := Construct(sem, datarows, names);
    if built.Failure? {
      return Failure(built.error);
    }
    var df := built.value;
    var i := 0;
    while i < |schema|
      invariant 0 <= i <= |schema|
      invariant df.nrows == |datarows| && |df.cols| == |schema|
      invariant forall k :: 0 <= k < i ==> NormalizeColumn(sem, built.value.cols[k], schema[k].typ) == Success(df.cols[k])
      invariant forall k :: i <= k < |schema| ==> df.cols[k] == built.value.cols[k]
    {
      // names are distinct, so `df[col_name]` is the column at position i
      var col := df.cols[i];
      var colType := schema[i].typ;
      if colType == "int" {
        var cast := CastValues(sem, NumericValues(sem, col.values), NullableInt64);
        if cast.None? {
          return Failure(ValueError);
        }
        df := SetColumn(df, i, Column(col.name, NullableInt64, cast.value));
      } else if col.name in IndexTypes && NoNulls(col.values) {
        if colType !in IndexTypes {
          return Failure(KeyError);
        }
        var cast := CastValues(sem, col.values, IndexTypes[colType]);
        if cast.None? {
          return Failure(ValueError);
        }
        df := SetColumn(df, i, Column(col.name, IndexTypes[colType], cast.value));
      }
      i := i + 1;
    }
    assert forall k :: 0 <= k < |schema| ==> df.cols[k].name == built.value.cols[k].name;
    return Success(df);
  }

  // ---------------------------------------------------------------------------
  // eval_execution_accuracy
  // ---------------------------------------------------------------------------

  /** The state after one gold column has been tried against the candidate
      pool: both frames as rebound so far and the candidate taken, if any. */
  datatype Attempt = Attempt(gold: Frame, pred: Frame, found: Option<string>)

  /** The inner loop (lines 80-101) for the gold column `col`: candidates are
      tried in pool order. A candidate whose cast raises is skipped. A cast that
      succeeds is kept in `gold` even when the value sets then differ. The first
      candidate whose value set equals the gold column's is renamed to `col`.
      `target` is the predicted frame as it was on entry (`target_dtypes`). */
  function TryCandidates(sem: Semantics, target: Frame, col: string, gold: Frame, pred: Frame, cands: seq<string>): (a: Attempt)
    ensures Names(a.gold) == Names(gold) && a.gold.nrows == gold.nrows
    ensures a.pred.nrows == pred.nrows && |a.pred.cols| == |pred.cols|
    ensures a.found.Some? ==> a.found.value in cands
    decreases cands
  {
    if cands == [] then Attempt(gold, pred, None)
    else
      var pcol := cands[0];
      match DtypeOf(pred, pcol)
      case None => TryCandidates(sem, target, col, gold, pred, cands[1..])
      case Some(t) =>
        match AsType(sem, gold, col, t)
        case None => TryCandidates(sem, target, col, gold, pred, cands[1..])
        case Some(g1) =>
          match DtypeOf(target, pcol)
          case None => TryCandidates(sem, target, col, g1, pred, cands[1..])
          case Some(tt) =>
            var g2 := if tt == Float64 then RoundColumn(sem, g1, col) else g1;
            var p2 := if tt == Float64 then RoundColumn(sem, pred, pcol) else pred;
            if ValueSet(g2, col) == ValueSet(p2, pcol) then Attempt(g2, Rename(p2, pcol, col), Some(pcol))
            else TryCandidates(sem, target, col, g2, p2, cands[1..])
  }

  /** The outer loop (lines 78-104): every remaining gold column in order
      takes one candidate out of the pool; `None` is the early `return False`.
      Each step removes exactly one pool member, so the alignment is injective. */
  function AlignColumns(sem: Semantics, target: Frame, goldCols: seq<string>, gold: Frame, pred: Frame, pool: seq<string>)
    : (r: Option<(Frame, Frame, seq<string>)>)
    ensures r.Some? ==> |r.value.2| + |goldCols| == |pool| && multiset(r.value.2) <= multiset(pool)
    ensures r.Some? ==> Names(r.value.0) == Names(gold) && r.value.0.nrows == gold.nrows
    decreases goldCols
  {
    if goldCols == [] then Some((gold, pred, pool))
    else
      var a := TryCandidates(sem, target, goldCols[0], gold, pred, pool);
      match a.found
      case None => None
      case Some(pcol) => AlignColumns(sem, target, goldCols[1..], a.gold, a.pred, RemoveFirst(pool, pcol))
  }

  /** `{col: dtype for (col, dtype) in zip(pred_df.columns, pred_df.dtypes)}`:
      a later column of the same name overrides an earlier one. */
  function DtypeMap(cols: seq<Column>): (m: map<string, Dtype>)
    ensures m.Keys == set k | 0 <= k < |cols| :: cols[k].name
  {
    if cols == [] then map[]
    else
      var front := DtypeMap(cols[..|cols| - 1]);
      assert forall k :: 0 <= k < |cols| - 1 ==> cols[..|cols| - 1][k] == cols[k];
      front[cols[|cols| - 1].name := cols[|cols| - 1].dtype]
  }

  /** In a frame without duplicate names, the map gives each column its own dtype. */
  lemma {:induction false} DtypeMapOwn(cols: seq<Column>)
    requires forall j, k :: 0 <= j < k < |cols| ==> cols[j].name != cols[k].name
    ensures forall k :: 0 <= k < |cols| ==> DtypeMap(cols)[cols[k].name] == cols[k].dtype
  {
    if cols != [] {
      var front := cols[..|cols| - 1];
      DtypeMapOwn(front);
      forall k | 0 <= k < |cols|
        ensures DtypeMap(cols)[cols[k].name] == cols[k].dtype
      {
        if k < |cols| - 1 {
          assert front[k] == cols[k];
        }
      }
    }
  }

  /** The columns cast one by one, as `astype` with a dict does: a column
      named in the map is cast to its dtype, the others are kept. */
  function CastColumns(sem: Semantics, cols: seq<Column>, m: map<string, Dtype>): (r: Option<seq<Column>>)
    ensures r.Some? <==> forall k :: 0 <= k < |cols| && cols[k].name in m ==>
      CastValues(sem, cols[k].values, m[cols[k].name]).Some?
    ensures r.Some? ==> |r.value| == |cols| && forall k :: 0 <= k < |cols| ==>
      && r.value[k].name == cols[k].name
      && |r.value[k].values| == |cols[k].values|
      && r.value[k].dtype == (if cols[k].name in m then m[cols[k].name] else cols[k].dtype)
      && r.value[k].values == (if cols[k].name in m then CastValues(sem, cols[k].values, m[cols[k].name]).value else cols[k].values)
  {
    if cols == [] then Some([])
    else
      var c := cols[0];
      var head := if c.name in m then CastValues(sem, c.values, m[c.name]).Some? else true;
      var rest := CastColumns(sem, cols[1..], m);
      assert forall k :: 1 <= k < |cols| ==> cols[k] == cols[1..][k - 1];
      if !head || rest.None? then None
      else
        var c' := if c.name in m then Column(c.name, m[c.name], CastValues(sem, c.values, m[c.name]).value) else c;
        Some([c'] + rest.value)
  }

  /** `gold_df.astype(mapping)`: raises (`None`) when a key names no column
      or a cast fails. */
  function CastAll(sem: Semantics, gold: Frame, m: map<string, Dtype>): (r: Option<Frame>)
    ensures r.Some? <==> m.Keys <= NameSet(gold) && CastColumns(sem, gold.cols, m).Some?
    ensures r.Some? ==> Names(r.value) == Names(gold) && r.value.nrows == gold.nrows
  {
    if !(m.Keys <= NameSet(gold)) then None
    else match CastColumns(sem, gold.cols, m)
      case None => None
      case Some(cols) =>
        var f := Frame(gold.nrows, cols);
        assert Names(f) == Names(gold);
        Some(f)
  }

  /** The rounding loop of lines 115-118: every column that is float in the
      predicted frame is rounded in both frames. */
  function RoundFloats(sem: Semantics, names: seq<string>, gold: Frame, pred: Frame): (r: (Frame, Frame))
    ensures Names(r.0) == Names(gold) && r.0.nrows == gold.nrows
    ensures Names(r.1) == Names(pred) && r.1.nrows == pred.nrows
    ensures forall k :: 0 <= k < |gold.cols| ==> r.0.cols[k].dtype == gold.cols[k].dtype
    ensures forall k :: 0 <= k < |pred.cols| ==> r.1.cols[k].dtype == pred.cols[k].dtype
    decreases names
  {
    if names == [] then (gold, pred)
    else if DtypeOf(pred, names[0]) == Some(Float64) then
      RoundFloats(sem, names[1..], RoundColumn(sem, gold, names[0]), RoundColumn(sem, pred, names[0]))
    else RoundFloats(sem, names[1..], gold, pred)
  }

  /** `merge` accepts two key columns when they have the same dtype or pandas
      can reconcile the two; an absent key raises. */
  predicate Joinable(sem: Semantics, a: Option<Dtype>, b: Option<Dtype>)
  {
    a.Some? && b.Some? && (a.value == b.value || sem.mergeable(a.value, b.value))
  }

  /** Lines 122-131: the outer merge on all gold columns tags every row
      "both" exactly when the two frames have the same set of key rows. A
      merge that raises (no key, a missing key, unmergeable dtypes) is False. */
  predicate RowsMatch(sem: Semantics, gold: Frame, pred: Frame)
  {
    var keys := Names(gold);
    && keys != []
    && (forall k :: 0 <= k < |keys| ==> Joinable(sem, DtypeOf(gold, keys[k]), DtypeOf(pred, keys[k])))
    && KeyRowSet(gold, keys) == KeyRowSet(pred, keys)
  }

  /** `eval_execution_accuracy(pred_df, gold_df)` */
  predicate ExecutionAccuracy(sem: Semantics, pred: Frame, gold: Frame)
  {
    if NameSet(gold) != NameSet(pred) then
      var common := NameSet(gold) * NameSet(pred);
      match AlignColumns(sem, pred, Without(Names(gold), common), gold, pred, Without(Names(pred), common))
      case None => false
      case Some((g, p, pool)) => pool == [] && RowsMatch(sem, g, p)
    else
      match CastAll(sem, gold, DtypeMap(pred.cols))
      case None => false
      case Some(g) =>
        var (g2, p2) := RoundFloats(sem, Names(pred), g, pred);
        RowsMatch(sem, g2, p2)
  }

  /** `eval_execution_accuracy`, with the source's loops, `unmatched` flag,
      `remove` on the candidate pool and rebinding of both frames. */
  method EvalExecutionAccuracy(sem: Semantics, predIn: Frame, goldIn: Frame) returns (ok: bool)
    ensures ok == ExecutionAccuracy(sem, predIn, goldIn)
  {
    var target := predIn;
    var pred := predIn;
    var gold := goldIn;
    if NameSet(gold) != NameSet(pred) {
      var common := NameSet(gold) * NameSet(pred);
      var goldCols := Without(Names(gold), common);
      var pool := Without(Names(pred), common);
      ghost var spec := AlignColumns(sem, target, goldCols, gold, pred, pool);
      var i := 0;
      while i < |goldCols|
        invariant 0 <= i <= |goldCols|
        invariant AlignColumns(sem, target, goldCols[i..], gold, pred, pool) == spec
      {
        var col := goldCols[i];
        ghost var step := TryCandidates(sem, target, col, gold, pred, pool);
        var cands := pool;
        var unmatched := true;
        var j := 0;
        while j < |cands|
          invariant 0 <= j <= |cands| && unmatched && pool == cands
          invariant TryCandidates(sem, target, col, gold, pred, cands[j..]) == step
        {
          var pcol := cands[j];
          assert cands[j..][0] == pcol && cands[j..][1..] == cands[j + 1..];
          var t := DtypeOf(pred, pcol);
          if t.None? {
            j := j + 1;
            continue;
          }
          var cast := AsType(sem, gold, col, t.value);
          if cast.None? {
            j := j + 1;
            continue;
          }
          gold := cast.value;
          var tt := DtypeOf(target, pcol);
          if tt.None? {
            j := j + 1;
            continue;
          }
          if tt.value == Float64 {
            gold := RoundColumn(sem, gold, col);
            pred := RoundColumn(sem, pred, pcol);
          }
          if ValueSet(gold, col) == ValueSet(pred, pcol) {
            pool := RemoveFirst(pool, pcol);
            pred := Rename(pred, pcol, col);
            unmatched := false;
            assert step == Attempt(gold, pred, Some(pcol));
            break;
          }
          j := j + 1;
        }
        if unmatched {
          assert step.found.None?;
          assert goldCols[i..][0] == col;
          return false;
        }
        assert goldCols[i..][0] == col && goldCols[i..][1..] == goldCols[i + 1..];
        i := i + 1;
      }
      if |pool| > 0 {
        return false;
      }
      ok := RowsMatch(sem, gold, pred);
    } else {
      var cast := CastAll(sem, gold, DtypeMap(pred.cols));
      if cast.None? {
        return false;
      }
      gold := cast.value;
      var names := Names(pred);
      ghost var spec := RoundFloats(sem, names, gold, pred);
      var k := 0;
      while k < |names|
        invariant 0 <= k <= |names|
        invariant Names(pred) == names
        invariant RoundFloats(sem, names[k..], gold, pred) == spec
      {
        var col := names[k];
        assert names[k..][0] == col && names[k..][1..] == names[k + 1..];
        if DtypeOf(pred, col) == Some(Float64) {
          gold := RoundColumn(sem, gold, col);
          pred := RoundColumn(sem, pred, col);
        }
        k := k + 1;
      }
      ok := RowsMatch(sem, gold, pred);
    }
  }

  // ---------------------------------------------------------------------------
  // Properties of eval_execution_accuracy
  // ---------------------------------------------------------------------------

  /** A candidate that is taken has the gold column's value set, and after
      the rename the predicted frame holds it under the gold name. */
  lemma {:induction false} TryCandidatesRenames(sem: Semantics, target: Frame, col: string, gold: Frame, pred: Frame, cands: seq<string>)
    requires col !in Names(pred)
    ensures var a := TryCandidates(sem, target, col, gold, pred, cands);
      a.found.Some? ==> Has(a.pred, col) && ValueSet(a.gold, col) == ValueSet(a.pred, col)
    decreases cands
  {
    if cands != [] {
      var pcol := cands[0];
      match DtypeOf(pred, pcol)
      case None => TryCandidatesRenames(sem, target, col, gold, pred, cands[1..]);
      case Some(t) =>
        match AsType(sem, gold, col, t)
        case None => TryCandidatesRenames(sem, target, col, gold, pred, cands[1..]);
        case Some(g1) =>
          match DtypeOf(target, pcol)
          case None => TryCandidatesRenames(sem, target, col, g1, pred, cands[1..]);
          case Some(tt) =>
            var g2 := if tt == Float64 then RoundColumn(sem, g1, col) else g1;
            var p2 := if tt == Float64 then RoundColumn(sem, pred, pcol) else pred;
            assert Names(p2) == Names(pred);
            if ValueSet(g2, col) == ValueSet(p2, pcol) {
              RenameIndexOf(p2, pcol, col);
              assert IndexOf(p2.cols, pcol).Some?;
            } else {
              TryCandidatesRenames(sem, target, col, g2, p2, cands[1..]);
            }
    }
  }

  /** A gold column with no value-set-equal candidate makes the verdict
      False, and so does a candidate left over at the end. */
  lemma UnmatchedIsFalse(sem: Semantics, pred: Frame, gold: Frame)
    requires NameSet(gold) != NameSet(pred)
    ensures var common := NameSet(gold) * NameSet(pred);
      match AlignColumns(sem, pred, Without(Names(gold), common), gold, pred, Without(Names(pred), common))
      case None => !ExecutionAccuracy(sem, pred, gold)
      case Some((_, _, pool)) => pool != [] ==> !ExecutionAccuracy(sem, pred, gold)
  {
  }

  /** Tables judged equal have the same number of columns: the alignment
      consumes one distinct predicted column per unmatched gold column. */
  lemma ExecutionAccuracyWidth(sem: Semantics, pred: Frame, gold: Frame)
    requires Valid(pred) && Valid(gold)
    requires ExecutionAccuracy(sem, pred, gold)
    ensures |gold.cols| == |pred.cols|
  {
    ValidNames(gold);
    ValidNames(pred);
    if NameSet(gold) != NameSet(pred) {
      var common := NameSet(gold) * NameSet(pred);
      WithoutCard(Names(gold), common);
      WithoutCard(Names(pred), common);
    }
  }

  /** In a frame without duplicate names, `df.dtypes[key]` is what the
      dtype mapping built from it says. */
  lemma DtypeMapDtypeOf(pred: Frame, key: string)
    requires Valid(pred) && key in NameSet(pred)
    ensures DtypeOf(pred, key) == Some(DtypeMap(pred.cols)[key])
  {
    DtypeMapOwn(pred.cols);
    var j :| 0 <= j < |pred.cols| && pred.cols[j].name == key;
    IndexOfAt(pred.cols, key, j);
  }

  /** After a successful cast with a mapping, a mapped column has the mapped dtype. */
  lemma CastAllDtypeOf(sem: Semantics, gold: Frame, m: map<string, Dtype>, key: string)
    requires CastAll(sem, gold, m).Some? && key in NameSet(gold) && key in m
    ensures DtypeOf(CastAll(sem, gold, m).value, key) == Some(m[key])
  {
    var g := CastAll(sem, gold, m).value;
    IndexOfSameNames(g.cols, gold.cols, key);
    var j :| 0 <= j < |gold.cols| && gold.cols[j].name == key;
  }

  /** Two frames with the same names and the same dtypes column by column
      report the same dtype for every name. */
  lemma SameDtypes(a: Frame, b: Frame, key: string)
    requires Names(a) == Names(b)
    requires forall k :: 0 <= k < |a.cols| ==> a.cols[k].dtype == b.cols[k].dtype
    ensures DtypeOf(a, key) == DtypeOf(b, key)
  {
    IndexOfSameNames(a.cols, b.cols, key);
  }

  /** With equal name sets every gold column is cast to the dtype of the
      predicted column of that name, so the merge can never fail on dtypes:
      the verdict is exactly "some column, and the same set of rows". */
  lemma EqualNamesRowCheck(sem: Semantics, pred: Frame, gold: Frame)
    requires Valid(pred)
    requires NameSet(gold) == NameSet(pred)
    requires CastAll(sem, gold, DtypeMap(pred.cols)).Some?
    ensures var r := RoundFloats(sem, Names(pred), CastAll(sem, gold, DtypeMap(pred.cols)).value, pred);
      ExecutionAccuracy(sem, pred, gold) <==>
        gold.cols != [] && KeyRowSet(r.0, Names(gold)) == KeyRowSet(r.1, Names(gold))
  {
    var m := DtypeMap(pred.cols);
    var g := CastAll(sem, gold, m).value;
    var r := RoundFloats(sem, Names(pred), g, pred);
    forall k | 0 <= k < |gold.cols|
      ensures Joinable(sem, DtypeOf(r.0, Names(r.0)[k]), DtypeOf(r.1, Names(r.0)[k]))
    {
      var key := gold.cols[k].name;
      assert key in NameSet(gold);
      DtypeMapDtypeOf(pred, key);
      CastAllDtypeOf(sem, gold, m, key);
      SameDtypes(r.0, g, key);
      SameDtypes(r.1, pred, key);
    }
  }

  /** Every row of `a`, restricted to `keys`, equals some row of `b`. */
  predicate Covers(a: Frame, b: Frame, keys: seq<string>)
  {
    forall r: nat :: r < a.nrows ==> Covered(a, b, keys, r)
  }

  /** Row `r` of `a`, restricted to `keys`, equals some row of `b`. */
  predicate Covered(a: Frame, b: Frame, keys: seq<string>, r: nat)
  {
    exists s: nat :: s < b.nrows && KeyRow(a, keys, r) == KeyRow(b, keys, s)
  }

  lemma CoversSubset(a: Frame, b: Frame, keys: seq<string>)
    ensures Covers(a, b, keys) <==> KeyRowSet(a, keys) <= KeyRowSet(b, keys)
  {
    if Covers(a, b, keys) {
      CoversIsSubset(a, b, keys);
    }
    if KeyRowSet(a, keys) <= KeyRowSet(b, keys) {
      SubsetCovers(a, b, keys);
    }
  }

  lemma CoversIsSubset(a: Frame, b: Frame, keys: seq<string>)
    requires Covers(a, b, keys)
    ensures KeyRowSet(a, keys) <= KeyRowSet(b, keys)
  {
    forall row | row in KeyRowSet(a, keys) ensures row in KeyRowSet(b, keys) {
      var r: nat :| r < a.nrows && row == KeyRow(a, keys, r);
      assert Covered(a, b, keys, r);
      var s: nat :| s < b.nrows && KeyRow(a, keys, r) == KeyRow(b, keys, s);
    }
  }

  lemma SubsetCovers(a: Frame, b: Frame, keys: seq<string>)
    requires KeyRowSet(a, keys) <= KeyRowSet(b, keys)
    ensures Covers(a, b, keys)
  {
    forall r: nat | r < a.nrows
      ensures Covered(a, b, keys, r)
    {
      var row := KeyRow(a, keys, r);
      assert row in KeyRowSet(a, keys);
      assert row in KeyRowSet(b, keys);
      var s: nat :| s < b.nrows && KeyRow(b, keys, s) == row;
      assert s < b.nrows && KeyRow(a, keys, r) == KeyRow(b, keys, s);
    }
  }

  /** The row check in terms of rows: every gold row, restricted to the gold
      columns, equals some predicted row, and the other way round; how often
      a row occurs does not matter. */
  lemma RowsMatchMeaning(sem: Semantics, gold: Frame, pred: Frame)
    ensures var keys := Names(gold);
      RowsMatch(sem, gold, pred) <==>
        && keys != []
        && (forall k :: 0 <= k < |keys| ==> Joinable(sem, DtypeOf(gold, keys[k]), DtypeOf(pred, keys[k])))
        && Covers(gold, pred, keys) && Covers(pred, gold, keys)
  {
    CoversSubset(gold, pred, Names(gold));
    CoversSubset(pred, gold, Names(gold));
  }

  /** Both frames of a pair that starts equal are rounded alike. */
  lemma {:induction false} RoundFloatsSame(sem: Semantics, names: seq<string>, f: Frame)
    ensures RoundFloats(sem, names, f, f).0 == RoundFloats(sem, names, f, f).1
    decreases names
  {
    if names != [] {
      if DtypeOf(f, names[0]) == Some(Float64) {
        RoundFloatsSame(sem, names[1..], RoundColumn(sem, f, names[0]));
      } else {
        RoundFloatsSame(sem, names[1..], f);
      }
    }
  }

  /** A table with at least one column whose values survive a cast to their
      own dtype is judged equal to itself. */
  lemma ExecutionAccuracySelf(sem: Semantics, f: Frame)
    requires Valid(f) && f.cols != [] && CastStable(sem, f)
    ensures ExecutionAccuracy(sem, f, f)
  {
    var m := DtypeMap(f.cols);
    DtypeMapOwn(f.cols);
    var cols := CastColumns(sem, f.cols, m).value;
    forall k | 0 <= k < |f.cols| ensures cols[k] == f.cols[k] {
      var vals := CastValues(sem, f.cols[k].values, f.cols[k].dtype).value;
      assert vals == f.cols[k].values;
    }
    assert cols == f.cols;
    assert CastAll(sem, f, m) == Some(f);
    RoundFloatsSame(sem, Names(f), f);
    var x := RoundFloats(sem, Names(f), f, f).0;
    forall k | 0 <= k < |x.cols| ensures Joinable(sem, DtypeOf(x, Names(x)[k]), DtypeOf(x, Names(x)[k])) {
      assert IndexOf(x.cols, Names(x)[k]).Some?;
    }
  }

  // ---------------------------------------------------------------------------
  // Row order does not matter
  // ---------------------------------------------------------------------------

  lemma RowsMatchPermuted(sem: Semantics, g1: Frame, g2: Frame, pg: seq<nat>, p1: Frame, p2: Frame, pp: seq<nat>)
    requires RowsPermuted(g1, g2, pg) && RowsPermuted(p1, p2, pp)
    ensures RowsMatch(sem, g1, p1) == RowsMatch(sem, g2, p2)
  {
    var keys := Names(g1);
    forall k | 0 <= k < |keys|
      ensures DtypeOf(g1, keys[k]) == DtypeOf(g2, keys[k]) && DtypeOf(p1, keys[k]) == DtypeOf(p2, keys[k])
    {
      PermutedDtypes(g1, g2, pg, keys[k]);
      PermutedDtypes(p1, p2, pp, keys[k]);
    }
    PermutedDtypes(g1, g2, pg, "");
    PermutedKeyRowSet(g1, g2, pg, keys);
    PermutedKeyRowSet(p1, p2, pp, keys);
  }

  lemma {:induction false} TryCandidatesPermuted(sem: Semantics, t1: Frame, t2: Frame, pt: seq<nat>, col: string,
                                                 g1: Frame, g2: Frame, pg: seq<nat>, p1: Frame, p2: Frame, pp: seq<nat>, cands: seq<string>)
    requires RowsPermuted(t1, t2, pt) && RowsPermuted(g1, g2, pg) && RowsPermuted(p1, p2, pp)
    ensures var a1 := TryCandidates(sem, t1, col, g1, p1, cands);
      var a2 := TryCandidates(sem, t2, col, g2, p2, cands);
      a1.found == a2.found && RowsPermuted(a1.gold, a2.gold, pg) && RowsPermuted(a1.pred, a2.pred, pp)
    decreases cands
  {
    if cands != [] {
      var pcol := cands[0];
      PermutedDtypes(p1, p2, pp, pcol);
      PermutedDtypes(t1, t2, pt, pcol);
      match DtypeOf(p1, pcol)
      case None => TryCandidatesPermuted(sem, t1, t2, pt, col, g1, g2, pg, p1, p2, pp, cands[1..]);
      case Some(t) =>
        AsTypePermuted(sem, g1, g2, pg, col, t);
        match AsType(sem, g1, col, t)
        case None => TryCandidatesPermuted(sem, t1, t2, pt, col, g1, g2, pg, p1, p2, pp, cands[1..]);
        case Some(h1) =>
          var h2 := AsType(sem, g2, col, t).value;
          match DtypeOf(t1, pcol)
          case None => TryCandidatesPermuted(sem, t1, t2, pt, col, h1, h2, pg, p1, p2, pp, cands[1..]);
          case Some(tt) =>
            RoundColumnPermuted(sem, h1, h2, pg, col);
            RoundColumnPermuted(sem, p1, p2, pp, pcol);
            var k1 := if tt == Float64 then RoundColumn(sem, h1, col) else h1;
            var k2 := if tt == Float64 then RoundColumn(sem, h2, col) else h2;
            var q1 := if tt == Float64 then RoundColumn(sem, p1, pcol) else p1;
            var q2 := if tt == Float64 then RoundColumn(sem, p2, pcol) else p2;
            PermutedValueSet(k1, k2, pg, col);
            PermutedValueSet(q1, q2, pp, pcol);
            RenamePermuted(q1, q2, pp, pcol, col);
            TryCandidatesPermuted(sem, t1, t2, pt, col, k1, k2, pg, q1, q2, pp, cands[1..]);
    }
  }

  lemma {:induction false} AlignColumnsPermuted(sem: Semantics, t1: Frame, t2: Frame, pt: seq<nat>, goldCols: seq<string>,
                                                g1: Frame, g2: Frame, pg: seq<nat>, p1: Frame, p2: Frame, pp: seq<nat>, pool: seq<string>)
    requires RowsPermuted(t1, t2, pt) && RowsPermuted(g1, g2, pg) && RowsPermuted(p1, p2, pp)
    ensures var r1 := AlignColumns(sem, t1, goldCols, g1, p1, pool);
      var r2 := AlignColumns(sem, t2, goldCols, g2, p2, pool);
      && r1.Some? == r2.Some?
      && (r1.Some? ==> r1.value.2 == r2.value.2 && RowsPermuted(r1.value.0, r2.value.0, pg) && RowsPermuted(r1.value.1, r2.value.1, pp))
    decreases goldCols
  {
    if goldCols != [] {
      TryCandidatesPermuted(sem, t1, t2, pt, goldCols[0], g1, g2, pg, p1, p2, pp, pool);
      var a1 := TryCandidates(sem, t1, goldCols[0], g1, p1, pool);
      var a2 := TryCandidates(sem, t2, goldCols[0], g2, p2, pool);
      if a1.found.Some? {
        AlignColumnsPermuted(sem, t1, t2, pt, goldCols[1..], a1.gold, a2.gold, pg, a1.pred, a2.pred, pp, RemoveFirst(pool, a1.found.value));
      }
    }
  }

  lemma {:induction false} RoundFloatsPermuted(sem: Semantics, names: seq<string>, g1: Frame, g2: Frame, pg: seq<nat>, p1: Frame, p2: Frame, pp: seq<nat>)
    requires RowsPermuted(g1, g2, pg) && RowsPermuted(p1, p2, pp)
    ensures var r1 := RoundFloats(sem, names, g1, p1);
      var r2 := RoundFloats(sem, names, g2, p2);
      RowsPermuted(r1.0, r2.0, pg) && RowsPermuted(r1.1, r2.1, pp)
    decreases names
  {
    if names != [] {
      PermutedDtypes(p1, p2, pp, names[0]);
      RoundColumnPermuted(sem, g1, g2, pg, names[0]);
      RoundColumnPermuted(sem, p1, p2, pp, names[0]);
      if DtypeOf(p1, names[0]) == Some(Float64) {
        RoundFloatsPermuted(sem, names[1..], RoundColumn(sem, g1, names[0]), RoundColumn(sem, g2, names[0]), pg,
                            RoundColumn(sem, p1, names[0]), RoundColumn(sem, p2, names[0]), pp);
      } else {
        RoundFloatsPermuted(sem, names[1..], g1, g2, pg, p1, p2, pp);
      }
    }
  }

  lemma {:induction false} DtypeMapSame(a: seq<Column>, b: seq<Column>)
    requires |a| == |b| && forall k :: 0 <= k < |a| ==> a[k].name == b[k].name && a[k].dtype == b[k].dtype
    ensures DtypeMap(a) == DtypeMap(b)
  {
    if a != [] {
      DtypeMapSame(a[..|a| - 1], b[..|b| - 1]);
    }
  }

  lemma CastColumnPermuted(sem: Semantics, g1: Frame, g2: Frame, pg: seq<nat>, t: Dtype, k: nat)
    requires RowsPermuted(g1, g2, pg) && k < |g1.cols|
    ensures CastValues(sem, g1.cols[k].values, t).Some? <==> CastValues(sem, g2.cols[k].values, t).Some?
    ensures CastValues(sem, g1.cols[k].values, t).Some? ==>
      ValuesPermuted(CastValues(sem, g1.cols[k].values, t).value, CastValues(sem, g2.cols[k].values, t).value, pg)
  {
    PermutedColumn(g1, g2, pg, k);
    CastValuesPermuted(sem, g1.cols[k].values, g2.cols[k].values, pg, t);
  }

  lemma CastColumnsSomePermuted(sem: Semantics, g1: Frame, g2: Frame, pg: seq<nat>, m: map<string, Dtype>)
    requires RowsPermuted(g1, g2, pg)
    ensures CastColumns(sem, g1.cols, m).Some? <==> CastColumns(sem, g2.cols, m).Some?
  {
    forall k | 0 <= k < |g1.cols| && g1.cols[k].name in m
      ensures CastValues(sem, g1.cols[k].values, m[g1.cols[k].name]).Some? <==> CastValues(sem, g2.cols[k].values, m[g2.cols[k].name]).Some?
    {
      CastColumnPermuted(sem, g1, g2, pg, m[g1.cols[k].name], k);
    }
  }

  lemma CastColumnsPermuted(sem: Semantics, g1: Frame, g2: Frame, pg: seq<nat>, m: map<string, Dtype>)
    requires RowsPermuted(g1, g2, pg)
    requires CastColumns(sem, g1.cols, m).Some? && CastColumns(sem, g2.cols, m).Some?
    ensures RowsPermuted(Frame(g1.nrows, CastColumns(sem, g1.cols, m).value), Frame(g2.nrows, CastColumns(sem, g2.cols, m).value), pg)
  {
    var c1, c2 := CastColumns(sem, g1.cols, m).value, CastColumns(sem, g2.cols, m).value;
    forall k | 0 <= k < |g1.cols|
      ensures ValuesPermuted(c1[k].values, c2[k].values, pg)
    {
      PermutedColumn(g1, g2, pg, k);
      if g1.cols[k].name in m {
        CastColumnPermuted(sem, g1, g2, pg, m[g1.cols[k].name], k);
      }
    }
  }

  lemma CastAllPermuted(sem: Semantics, g1: Frame, g2: Frame, pg: seq<nat>, m: map<string, Dtype>)
    requires RowsPermuted(g1, g2, pg)
    ensures CastAll(sem, g1, m).Some? <==> CastAll(sem, g2, m).Some?
    ensures CastAll(sem, g1, m).Some? ==> RowsPermuted(CastAll(sem, g1, m).value, CastAll(sem, g2, m).value, pg)
  {
    PermutedDtypes(g1, g2, pg, "");
    assert NameSet(g1) == NameSet(g2);
    CastColumnsSomePermuted(sem, g1, g2, pg, m);
    if CastAll(sem, g1, m).Some? {
      CastColumnsPermuted(sem, g1, g2, pg, m);
    }
  }

  /** `eval_execution_accuracy` compares tables up to row order: reordering
      the rows of either table does not change the verdict. */
  lemma ExecutionAccuracyRowOrder(sem: Semantics, pred: Frame, gold: Frame, pp: seq<nat>, pg: seq<nat>)
    requires Valid(pred) && Valid(gold)
    requires IsPermutation(pp, pred.nrows) && IsPermutation(pg, gold.nrows)
    ensures ExecutionAccuracy(sem, PermuteRows(pred, pp), PermuteRows(gold, pg)) == ExecutionAccuracy(sem, pred, gold)
  {
    var p2, g2 := PermuteRows(pred, pp), PermuteRows(gold, pg);
    PermutedDtypes(pred, p2, pp, "");
    PermutedDtypes(gold, g2, pg, "");
    assert NameSet(pred) == NameSet(p2) && NameSet(gold) == NameSet(g2);
    if NameSet(gold) != NameSet(pred) {
      var common := NameSet(gold) * NameSet(pred);
      AlignColumnsPermuted(sem, pred, p2, pp, Without(Names(gold), common), gold, g2, pg, pred, p2, pp, Without(Names(pred), common));
      var r1 := AlignColumns(sem, pred, Without(Names(gold), common), gold, pred, Without(Names(pred), common));
      var r2 := AlignColumns(sem, p2, Without(Names(gold), common), g2, p2, Without(Names(pred), common));
      if r1.Some? {
        RowsMatchPermuted(sem, r1.value.0, r2.value.0, pg, r1.value.1, r2.value.1, pp);
      }
    } else {
      DtypeMapSame(pred.cols, p2.cols);
      var m := DtypeMap(pred.cols);
      CastAllPermuted(sem, gold, g2, pg, m);
      if CastAll(sem, gold, m).Some? {
        var c1, c2 := CastAll(sem, gold, m).value, CastAll(sem, g2, m).value;
        RoundFloatsPermuted(sem, Names(pred), c1, c2, pg, pred, p2, pp);
        var r1, r2 := RoundFloats(sem, Names(pred), c1, pred), RoundFloats(sem, Names(pred), c2, p2);
        RowsMatchPermuted(sem, r1.0, r2.0, pg, r1.1, r2.1, pp);
      }
    }
  }

  // ---------------------------------------------------------------------------
  // Column order does not matter when the names agree
  // ---------------------------------------------------------------------------

  /** A column as the rounding loop leaves it: rounded when its name is one
      of the names looped over and a float column of the prediction. */
  function RoundedIf(sem: Semantics, c: Column, names: seq<string>, pred: Frame): Column
  {
    if c.name in names && DtypeOf(pred, c.name) == Some(Float64) then Rounded(sem, c) else c
  }

  /** One column across one turn of the rounding loop on `x`. */
  lemma RoundedIfStep(sem: Semantics, c: Column, c1: Column, names: seq<string>, pred: Frame, p1: Frame)
    requires Distinct(names) && names != []
    requires forall y :: DtypeOf(p1, y) == DtypeOf(pred, y)
    requires c1 == if DtypeOf(pred, names[0]) == Some(Float64) && c.name == names[0] then Rounded(sem, c) else c
    ensures RoundedIf(sem, c1, names[1..], p1) == RoundedIf(sem, c, names, pred)
  {
    DistinctTail(names);
    assert c.name in names <==> c.name == names[0] || c.name in names[1..];
  }

  /** In frames without duplicate names, the rounding loop rounds exactly
      the columns, of either frame, whose name is a float column of the
      prediction and one of the names looped over; every other column is kept. */
  lemma {:induction false} RoundFloatsCols(sem: Semantics, names: seq<string>, gold: Frame, pred: Frame)
    requires Distinct(names) && Distinct(Names(gold)) && Distinct(Names(pred))
    ensures var r := RoundFloats(sem, names, gold, pred);
      && (forall k :: 0 <= k < |gold.cols| ==> r.0.cols[k] == RoundedIf(sem, gold.cols[k], names, pred))
      && (forall k :: 0 <= k < |pred.cols| ==> r.1.cols[k] == RoundedIf(sem, pred.cols[k], names, pred))
    decreases names
  {
    if names != [] {
      var x := names[0];
      var float := DtypeOf(pred, x) == Some(Float64);
      var g1 := if float then RoundColumn(sem, gold, x) else gold;
      var p1 := if float then RoundColumn(sem, pred, x) else pred;
      assert RoundFloats(sem, names, gold, pred) == RoundFloats(sem, names[1..], g1, p1);
      DistinctTail(names);
      RoundFloatsCols(sem, names[1..], g1, p1);
      forall y ensures DtypeOf(p1, y) == DtypeOf(pred, y) {
        SameDtypes(p1, pred, y);
      }
      forall k | 0 <= k < |gold.cols|
        ensures RoundedIf(sem, g1.cols[k], names[1..], p1) == RoundedIf(sem, gold.cols[k], names, pred)
      {
        if float {
          RoundColumnAt(sem, gold, x, k);
        }
        RoundedIfStep(sem, gold.cols[k], g1.cols[k], names, pred, p1);
      }
      forall k | 0 <= k < |pred.cols|
        ensures RoundedIf(sem, p1.cols[k], names[1..], p1) == RoundedIf(sem, pred.cols[k], names, pred)
      {
        if float {
          RoundColumnAt(sem, pred, x, k);
        }
        RoundedIfStep(sem, pred.cols[k], p1.cols[k], names, pred, p1);
      }
    }
  }

  /** The dtype mapping of a frame has its names as keys, and without
      duplicate names gives each column its own dtype. */
  lemma DtypeMapNames(f: Frame)
    requires Distinct(Names(f))
    ensures DtypeMap(f.cols).Keys == NameSet(f)
    ensures forall k :: 0 <= k < |f.cols| ==> DtypeMap(f.cols)[f.cols[k].name] == f.cols[k].dtype
  {
    forall j, k | 0 <= j < k < |f.cols| ensures f.cols[j].name != f.cols[k].name {
      assert Names(f)[j] != Names(f)[k];
    }
    DtypeMapOwn(f.cols);
  }

  /** The dtype mapping of a frame without duplicate names does not depend
      on its column order. */
  lemma DtypeMapColumnsPermuted(a: Frame, b: Frame, perm: seq<nat>)
    requires ColumnsPermuted(a, b, perm) && Distinct(Names(a))
    ensures DtypeMap(b.cols) == DtypeMap(a.cols)
  {
    ColumnsPermutedNames(a, b, perm);
    DtypeMapNames(a);
    DtypeMapNames(b);
    var ma, mb := DtypeMap(a.cols), DtypeMap(b.cols);
    forall x | x in mb.Keys ensures mb[x] == ma[x] {
      var t :| 0 <= t < |b.cols| && b.cols[t].name == x;
      assert a.cols[perm[t]] == b.cols[t];
    }
  }

  /** The row check looks the prediction's columns up by name. */
  lemma RowsMatchColumnsPermuted(sem: Semantics, gold: Frame, p1: Frame, p2: Frame, perm: seq<nat>)
    requires ColumnsPermuted(p1, p2, perm) && Distinct(Names(p1))
    ensures RowsMatch(sem, gold, p2) == RowsMatch(sem, gold, p1)
  {
    ColumnsPermutedLookup(p1, p2, perm, Names(gold));
  }

  /** Frames agreeing column by column are equal. */
  lemma SameColumns(a: Frame, b: Frame)
    requires a.nrows == b.nrows && |a.cols| == |b.cols|
    requires forall k :: 0 <= k < |a.cols| ==> b.cols[k] == a.cols[k]
    ensures b == a
  {
    assert b.cols == a.cols;
  }

  /** Whether a column is rounded does not depend on the prediction's column order. */
  lemma RoundedIfColumnsPermuted(sem: Semantics, c: Column, p1: Frame, p2: Frame, perm: seq<nat>)
    requires ColumnsPermuted(p1, p2, perm) && Distinct(Names(p1))
    ensures RoundedIf(sem, c, Names(p2), p2) == RoundedIf(sem, c, Names(p1), p1)
  {
    ColumnsPermutedNames(p1, p2, perm);
    ColumnsPermutedLookup(p1, p2, perm, []);
  }

  /** Reordering the prediction's columns leaves the gold table after the
      rounding loop as it was. */
  lemma RoundFloatsGoldSame(sem: Semantics, gold: Frame, p1: Frame, p2: Frame, perm: seq<nat>)
    requires ColumnsPermuted(p1, p2, perm) && Distinct(Names(p1)) && Distinct(Names(gold))
    ensures RoundFloats(sem, Names(p2), gold, p2).0 == RoundFloats(sem, Names(p1), gold, p1).0
  {
    ColumnsPermutedNames(p1, p2, perm);
    var r1 := RoundFloats(sem, Names(p1), gold, p1).0;
    var r2 := RoundFloats(sem, Names(p2), gold, p2).0;
    RoundFloatsCols(sem, Names(p1), gold, p1);
    RoundFloatsCols(sem, Names(p2), gold, p2);
    forall k | 0 <= k < |gold.cols| ensures r2.cols[k] == r1.cols[k] {
      RoundedIfColumnsPermuted(sem, gold.cols[k], p1, p2, perm);
    }
    SameColumns(r1, r2);
  }

  /** ... and reorders the prediction after the rounding loop the same way. */
  lemma RoundFloatsPredPermuted(sem: Semantics, gold: Frame, p1: Frame, p2: Frame, perm: seq<nat>)
    requires ColumnsPermuted(p1, p2, perm) && Distinct(Names(p1)) && Distinct(Names(gold))
    ensures ColumnsPermuted(RoundFloats(sem, Names(p1), gold, p1).1, RoundFloats(sem, Names(p2), gold, p2).1, perm)
  {
    ColumnsPermutedNames(p1, p2, perm);
    var r1 := RoundFloats(sem, Names(p1), gold, p1).1;
    var r2 := RoundFloats(sem, Names(p2), gold, p2).1;
    RoundFloatsCols(sem, Names(p1), gold, p1);
    RoundFloatsCols(sem, Names(p2), gold, p2);
    forall k | 0 <= k < |p1.cols| ensures r2.cols[k] == r1.cols[perm[k]] {
      assert p2.cols[k] == p1.cols[perm[k]];
      RoundedIfColumnsPermuted(sem, p2.cols[k], p1, p2, perm);
    }
  }

  /** `eval_execution_accuracy` compares tables up to column order when the
      two tables have the same column names: every step looks columns up by
      name, so reordering the predicted table's columns does not change the
      verdict. */
  lemma ExecutionAccuracyColumnOrder(sem: Semantics, pred: Frame, gold: Frame, perm: seq<nat>)
    requires Distinct(Names(pred)) && Distinct(Names(gold))
    requires NameSet(gold) == NameSet(pred)
    requires IsPermutation(perm, |pred.cols|)
    ensures ExecutionAccuracy(sem, PermuteColumns(pred, perm), gold) == ExecutionAccuracy(sem, pred, gold)
  {
    var p2 := PermuteColumns(pred, perm);
    ColumnsPermutedNames(pred, p2, perm);
    DtypeMapColumnsPermuted(pred, p2, perm);
    var m := DtypeMap(pred.cols);
    if CastAll(sem, gold, m).Some? {
      var g := CastAll(sem, gold, m).value;
      RoundFloatsGoldSame(sem, g, pred, p2, perm);
      RoundFloatsPredPermuted(sem, g, pred, p2, perm);
      var r1 := RoundFloats(sem, Names(pred), g, pred);
      var r2 := RoundFloats(sem, Names(p2), g, p2);
      assert Names(r1.1) == Names(pred);
      RowsMatchColumnsPermuted(sem, r1.0, r1.1, r2.1, perm);
    }
  }
}
