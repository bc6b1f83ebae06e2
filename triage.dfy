/** The shape-based triage of a wrong answer: the directional containment
    probes `match_columns` and `match_rows`, and `categorize_exec_inacc`,
    which picks a probe by comparing the two table shapes. */
module Triage {
  import opened Wrappers
  import opened Frames

  /** The strings the probes return. */
  datatype Verdict = ColumnTypeMismatch | ColumnValueMismatch | UnmatchedColInA | BContainsA | Other

  /** The frames after the common-column loop, and the verdict it returned early, if any. */
  datatype Probe = Probe(a: Frame, b: Frame, verdict: Option<Verdict>)

  /** The frames after one A column has been tried against the pool, and the
      pool column it took, if any. */
  datatype Step = Step(a: Frame, b: Frame, found: Option<string>)

  /** `list(set(df_A.columns).intersection(set(df_B.columns)))`. Python leaves
      the order of a set unspecified; the model takes A's column order. */
  function CommonColumns(a: Frame, b: Frame): (r: seq<string>)
    ensures forall x :: x in r <==> x in NameSet(a) * NameSet(b)
  {
    var r := Without(Names(a), NameSet(a) - NameSet(b));
    assert forall x :: x in Names(a) <==> x in NameSet(a) by {
      forall x | x in NameSet(a) ensures x in Names(a) {
        var k :| 0 <= k < |a.cols| && a.cols[k].name == x;
        assert Names(a)[k] == x;
      }
    }
    r
  }

  /** One pass of the loop over common columns (lines 142-155 and 191-198):
      the B column is cast to the dtype of the A column of the same name, a
      float column is rounded in both frames, and a cast that raises ends the
      probe with "Column type mismatch". `match_columns` also compares the
      value sets (`compareValues`), `match_rows` does not. `dtypes` is A as it
      was on entry. */
  function CommonStep(sem: Semantics, dtypes: Frame, col: string, a: Frame, b: Frame, compareValues: bool): (p: Probe)
    ensures Names(p.a) == Names(a) && p.a.nrows == a.nrows
    ensures Names(p.b) == Names(b) && p.b.nrows == b.nrows
  {
    match DtypeOf(a, col)
    case None => Probe(a, b, Some(ColumnTypeMismatch))
    case Some(t) =>
      match AsType(sem, b, col, t)
      case None => Probe(a, b, Some(ColumnTypeMismatch))
      case Some(b1) =>
        match DtypeOf(dtypes, col)
        case None => Probe(a, b1, Some(ColumnTypeMismatch))
        case Some(d) =>
          var a2 := if d == Float64 then RoundColumn(sem, a, col) else a;
          var b2 := if d == Float64 then RoundColumn(sem, b1, col) else b1;
          if compareValues && ValueSet(b2, col) != ValueSet(a2, col) then Probe(a2, b2, Some(ColumnValueMismatch))
          else Probe(a2, b2, None)
  }

  /** The whole loop over common columns: it stops at the first column that
      returns a verdict. */
  function CheckCommon(sem: Semantics, dtypes: Frame, cols: seq<string>, a: Frame, b: Frame, compareValues: bool): (p: Probe)
    ensures Names(p.a) == Names(a) && p.a.nrows == a.nrows
    ensures Names(p.b) == Names(b) && p.b.nrows == b.nrows
    decreases cols
  {
    if cols == [] then Probe(a, b, None)
    else
      var p := CommonStep(sem, dtypes, cols[0], a, b, compareValues);
      if p.verdict.Some? then p
      else CheckCommon(sem, dtypes, cols[1..], p.a, p.b, compareValues)
  }

  /** The inner loop over the remaining B columns (lines 163-175 and
      207-222): a pool column whose cast to the A column's dtype raises is
      skipped, and a cast that succeeds is kept. Rounding is applied to `col`
      in both frames, which in B is usually no column at all, so B's candidate
      stays unrounded. The first candidate with A's value set is taken, and
      `match_rows` also renames it to `col`. */
  function ProbeCandidates(sem: Semantics, dtypes: Frame, col: string, a: Frame, b: Frame, cands: seq<string>, rename: bool): (s: Step)
    ensures Names(s.a) == Names(a) && s.a.nrows == a.nrows
    ensures s.b.nrows == b.nrows && |s.b.cols| == |b.cols|
    ensures !rename ==> Names(s.b) == Names(b)
    ensures s.found.Some? ==> s.found.value in cands
    ensures s.found.Some? && !rename ==> ValueSet(s.b, s.found.value) == ValueSet(s.a, col)
    decreases cands
  {
    if cands == [] then Step(a, b, None)
    else
      var pcol := cands[0];
      match DtypeOf(a, col)
      case None => ProbeCandidates(sem, dtypes, col, a, b, cands[1..], rename)
      case Some(t) =>
        match AsType(sem, b, pcol, t)
        case None => ProbeCandidates(sem, dtypes, col, a, b, cands[1..], rename)
        case Some(b1) =>
          match DtypeOf(dtypes, col)
          case None => ProbeCandidates(sem, dtypes, col, a, b1, cands[1..], rename)
          case Some(d) =>
            var a2 := if d == Float64 then RoundColumn(sem, a, col) else a;
            var b2 := if d == Float64 then RoundColumn(sem, b1, col) else b1;
            if ValueSet(b2, pcol) == ValueSet(a2, col) then
              Step(a2, if rename then Rename(b2, pcol, col) else b2, Some(pcol))
            else ProbeCandidates(sem, dtypes, col, a2, b2, cands[1..], rename)
  }

  /** The outer loop over A's remaining columns: `None` is the early return
      for an A column that found no partner. Each A column consumes exactly
      one pool column. */
  function MatchRemaining(sem: Semantics, dtypes: Frame, cols: seq<string>, a: Frame, b: Frame, pool: seq<string>, rename: bool)
    : (r: Option<(Frame, Frame, seq<string>)>)
    ensures r.Some? ==> |r.value.2| + |cols| == |pool|
    ensures r.Some? ==> r.value.0.nrows == a.nrows && |r.value.0.cols| == |a.cols|
    ensures r.Some? ==> r.value.1.nrows == b.nrows && |r.value.1.cols| == |b.cols|
    ensures r.Some? ==> Names(r.value.0) == Names(a)
    ensures r.Some? && !rename ==> Names(r.value.1) == Names(b)
    decreases cols
  {
    if cols == [] then Some((a, b, pool))
    else
      var s := ProbeCandidates(sem, dtypes, cols[0], a, b, pool, rename);
      match s.found
      case None => None
      case Some(pcol) => MatchRemaining(sem, dtypes, cols[1..], s.a, s.b, RemoveFirst(pool, pcol), rename)
  }

  /** The pool column each of A's remaining columns took, in order, up to
      the first column that found none. */
  function Partners(sem: Semantics, dtypes: Frame, cols: seq<string>, a: Frame, b: Frame, pool: seq<string>, rename: bool)
    : seq<string>
    decreases cols
  {
    if cols == [] then []
    else
      var s := ProbeCandidates(sem, dtypes, cols[0], a, b, pool, rename);
      match s.found
      case None => []
      case Some(pcol) => [pcol] + Partners(sem, dtypes, cols[1..], s.a, s.b, RemoveFirst(pool, pcol), rename)
  }

  /** `match_columns(df_A, df_B)`: does every column of A correspond to a column of B? */
  function MatchColumnsSpec(sem: Semantics, a: Frame, b: Frame): Verdict
  {
    var common := CommonColumns(a, b);
    var shared := NameSet(a) * NameSet(b);
    var c := CheckCommon(sem, a, common, a, b, true);
    if c.verdict.Some? then c.verdict.value
    else
      match MatchRemaining(sem, a, Without(Names(a), shared), c.a, c.b, Without(Names(c.b), shared), false)
      case None => UnmatchedColInA
      case Some(_) => BContainsA
  }

  /** Row `s` of B equals the tuple `row` cell by cell, position by position
      (`(df_B == row).all(axis=1)`). */
  predicate RowEquals(sem: Semantics, b: Frame, s: nat, row: seq<Cell>)
    requires |row| == |b.cols|
  {
    forall k :: 0 <= k < |b.cols| ==> sem.cellEq(CellAt(b, k, s), row[k])
  }

  /** `sum(tst.all(axis=1)) != 0`: some row of B equals the tuple. */
  predicate HasEqualRow(sem: Semantics, b: Frame, row: seq<Cell>)
    requires |row| == |b.cols|
  {
    exists s | 0 <= s < b.nrows :: RowEquals(sem, b, s, row)
  }

  /** The row loop of lines 228-233. Comparing a frame with a tuple of another
      length raises ValueError, which `match_rows` does not catch. */
  function RowsCovered(sem: Semantics, a: Frame, b: Frame): (r: Result<Verdict>)
    ensures r.Failure? <==> a.nrows > 0 && |a.cols| != |b.cols|
    ensures r.Success? ==> r.value == BContainsA || r.value == Other
    ensures r == Success(BContainsA) <==>
      (a.nrows == 0 || |a.cols| == |b.cols|) && forall q | 0 <= q < a.nrows :: HasEqualRow(sem, b, PosRow(a, q))
    ensures r == Success(Other) <==>
      (a.nrows == 0 || |a.cols| == |b.cols|) && exists q | 0 <= q < a.nrows :: !HasEqualRow(sem, b, PosRow(a, q))
  {
    if a.nrows > 0 && |a.cols| != |b.cols| then Failure(ValueError)
    else if forall r | 0 <= r < a.nrows :: HasEqualRow(sem, b, PosRow(a, r)) then Success(BContainsA)
    else Success(Other)
  }

  /** `match_rows(df_A, df_B)`: does every row of A correspond to a row of B? */
  function MatchRowsSpec(sem: Semantics, a: Frame, b: Frame): Result<Verdict>
  {
    var common := CommonColumns(a, b);
    var shared := NameSet(a) * NameSet(b);
    var c := CheckCommon(sem, a, common, a, b, false);
    if c.verdict.Some? then Success(c.verdict.value)
    else if |common| == |a.cols| then RowsCovered(sem, c.a, c.b)
    else
      match MatchRemaining(sem, a, Without(Names(a), shared), c.a, c.b, Without(Names(c.b), shared), true)
      case None => Success(ColumnValueMismatch)
      case Some((a2, b2, _)) => RowsCovered(sem, a2, b2)
  }

  // ---------------------------------------------------------------------------
  // The probes as the source writes them
  // ---------------------------------------------------------------------------

  /** One pass of the common-column loop. */
  method CommonColumn(sem: Semantics, dtypes: Frame, col: string, a: Frame, b: Frame, compareValues: bool) returns (p: Probe)
    ensures p == CommonStep(sem, dtypes, col, a, b, compareValues)
  {
    var t := DtypeOf(a, col);
    if t.None? {
      return Probe(a, b, Some(ColumnTypeMismatch));
    }
    var cast := AsType(sem, b, col, t.value);
    if cast.None? {
      return Probe(a, b, Some(ColumnTypeMismatch));
    }
    var b2 := cast.value;
    var d := DtypeOf(dtypes, col);
    if d.None? {
      return Probe(a, b2, Some(ColumnTypeMismatch));
    }
    var a2 := a;
    if d.value == Float64 {
      a2 := RoundColumn(sem, a2, col);
      b2 := RoundColumn(sem, b2, col);
    }
    if compareValues && ValueSet(b2, col) != ValueSet(a2, col) {
      return Probe(a2, b2, Some(ColumnValueMismatch));
    }
    return Probe(a2, b2, None);
  }

  /** The common-column loop. */
  method CommonLoop(sem: Semantics, dtypes: Frame, common: seq<string>, aIn: Frame, bIn: Frame, compareValues: bool) returns (p: Probe)
    ensures p == CheckCommon(sem, dtypes, common, aIn, bIn, compareValues)
  {
    var a, b := aIn, bIn;
    ghost var spec := CheckCommon(sem, dtypes, common, a, b, compareValues);
    var i := 0;
    while i < |common|
      invariant 0 <= i <= |common|
      invariant CheckCommon(sem, dtypes, common[i..], a, b, compareValues) == spec
    {
      var col := common[i];
      assert common[i..][0] == col && common[i..][1..] == common[i + 1..];
      CommonStepNext(sem, dtypes, common[i..], a, b, compareValues);
      var step := CommonColumn(sem, dtypes, col, a, b, compareValues);
      if step.verdict.Some? {
        return step;
      }
      a, b := step.a, step.b;
      i := i + 1;
    }
    return Probe(a, b, None);
  }

  /** One turn of the common-column loop: a verdict ends it, otherwise the
      rebound frames go on to the rest. */
  lemma CommonStepNext(sem: Semantics, dtypes: Frame, cols: seq<string>, a: Frame, b: Frame, compareValues: bool)
    requires cols != []
    ensures
      var p := CommonStep(sem, dtypes, cols[0], a, b, compareValues);
      CheckCommon(sem, dtypes, cols, a, b, compareValues)
        == if p.verdict.Some? then p else CheckCommon(sem, dtypes, cols[1..], p.a, p.b, compareValues)
  {
  }

  /** The candidate loop for one A column. */
  method CandidateLoop(sem: Semantics, dtypes: Frame, col: string, aIn: Frame, bIn: Frame, cands: seq<string>, rename: bool)
    returns (s: Step)
    ensures s == ProbeCandidates(sem, dtypes, col, aIn, bIn, cands, rename)
  {
    var a, b := aIn, bIn;
    var k := 0;
    while k < |cands|
      invariant 0 <= k <= |cands|
      invariant ProbeCandidates(sem, dtypes, col, a, b, cands[k..], rename) == ProbeCandidates(sem, dtypes, col, aIn, bIn, cands, rename)
    {
      var pcol := cands[k];
      assert cands[k..][0] == pcol && cands[k..][1..] == cands[k + 1..];
      var t := DtypeOf(a, col);
      if t.None? {
        k := k + 1;
        continue;
      }
      var cast := AsType(sem, b, pcol, t.value);
      if cast.None? {
        k := k + 1;
        continue;
      }
      b := cast.value;
      var d := DtypeOf(dtypes, col);
      if d.None? {
        k := k + 1;
        continue;
      }
      if d.value == Float64 {
        a := RoundColumn(sem, a, col);
        b := RoundColumn(sem, b, col);
      }
      if ValueSet(b, pcol) == ValueSet(a, col) {
        if rename {
          b := Rename(b, pcol, col);
        }
        return Step(a, b, Some(pcol));
      }
      k := k + 1;
    }
    return Step(a, b, None);
  }

  /** The loop over A's remaining columns, with the `unmatched` flag and `remove` on the pool. */
  method RemainingLoop(sem: Semantics, dtypes: Frame, remaining: seq<string>, aIn: Frame, bIn: Frame, poolIn: seq<string>, rename: bool)
    returns (r: Option<(Frame, Frame, seq<string>)>)
    ensures r == MatchRemaining(sem, dtypes, remaining, aIn, bIn, poolIn, rename)
  {
    var a, b, pool := aIn, bIn, poolIn;
    var j := 0;
    while j < |remaining|
      invariant 0 <= j <= |remaining|
      invariant MatchRemaining(sem, dtypes, remaining[j..], a, b, pool, rename) == MatchRemaining(sem, dtypes, remaining, aIn, bIn, poolIn, rename)
    {
      var col := remaining[j];
      assert remaining[j..][0] == col && remaining[j..][1..] == remaining[j + 1..];
      RemainingStep(sem, dtypes, remaining[j..], a, b, pool, rename);
      var unmatched := true;
      var step := CandidateLoop(sem, dtypes, col, a, b, pool, rename);
      a, b := step.a, step.b;
      if step.found.Some? {
        unmatched := false;
        pool := RemoveFirst(pool, step.found.value);
      }
      if unmatched {
        return None;
      }
      j := j + 1;
    }
    return Some((a, b, pool));
  }

  /** One turn of the outer loop: the first column either finds no partner
      or hands its rebound frames and smaller pool on to the rest. */
  lemma RemainingStep(sem: Semantics, dtypes: Frame, cols: seq<string>, a: Frame, b: Frame, pool: seq<string>, rename: bool)
    requires cols != []
    ensures
      var s := ProbeCandidates(sem, dtypes, cols[0], a, b, pool, rename);
      MatchRemaining(sem, dtypes, cols, a, b, pool, rename)
        == if s.found.None? then None
           else MatchRemaining(sem, dtypes, cols[1..], s.a, s.b, RemoveFirst(pool, s.found.value), rename)
  {
  }

  /** `match_columns` */
  method MatchColumns(sem: Semantics, a: Frame, b: Frame) returns (v: Verdict)
    ensures v == MatchColumnsSpec(sem, a, b)
  {
    var common := CommonColumns(a, b);
    var shared := NameSet(a) * NameSet(b);
    var c := CommonLoop(sem, a, common, a, b, true);
    if c.verdict.Some? {
      return c.verdict.value;
    }
    var poolB := Without(Names(c.b), shared);
    var remaining := Without(Names(c.a), shared);
    assert Names(c.a) == Names(a);
    var m := RemainingLoop(sem, a, remaining, c.a, c.b, poolB, false);
    if m.None? {
      return UnmatchedColInA;
    }
    return BContainsA;
  }

  /** The row loop of `match_rows`. */
  method RowLoop(sem: Semantics, a: Frame, b: Frame) returns (r: Result<Verdict>)
    ensures r == RowsCovered(sem, a, b)
  {
    var row := 0;
    while row < a.nrows
      invariant 0 <= row <= a.nrows
      invariant forall q :: 0 <= q < row ==> |a.cols| == |b.cols| && HasEqualRow(sem, b, PosRow(a, q))
    {
      var tuple := PosRow(a, row);
      if |tuple| != |b.cols| {
        return Failure(ValueError);
      }
      if !HasEqualRow(sem, b, tuple) {
        return Success(Other);
      }
      row := row + 1;
    }
    assert a.nrows > 0 ==> |PosRow(a, 0)| == |b.cols|;
    return Success(BContainsA);
  }

  /** `match_rows` */
  method MatchRows(sem: Semantics, a: Frame, b: Frame) returns (r: Result<Verdict>)
    ensures r == MatchRowsSpec(sem, a, b)
  {
    var common := CommonColumns(a, b);
    var shared := NameSet(a) * NameSet(b);
    var c := CommonLoop(sem, a, common, a, b, false);
    if c.verdict.Some? {
      return Success(c.verdict.value);
    }
    var a2, b2 := c.a, c.b;
    if |common| != |a2.cols| {
      var remainingA := Without(Names(a2), shared);
      var poolB := Without(Names(b2), shared);
      assert Names(c.a) == Names(a);
      var m := RemainingLoop(sem, a, remainingA, a2, b2, poolB, true);
      if m.None? {
        return Success(ColumnValueMismatch);
      }
      a2, b2 := m.value.0, m.value.1;
    }
    r := RowLoop(sem, a2, b2);
  }

  // ---------------------------------------------------------------------------
  // categorize_exec_inacc
  // ---------------------------------------------------------------------------

  /** The shape status strings. */
  datatype Status = SameShape | SameRowCount | SameColCount | RowAndColMismatch

  /** The detail strings; `OtherCause` is the string "Other". */
  datatype Detail =
    | NAsInResult | NoneInPred | OtherCause
    | PredContainsAllGoldCols | GoldContainsAllPredCols
    | PredContainsAllGoldRows | GoldContainsAllPredRows

  /** `(df == v).any().any()` */
  predicate AnyEqual(sem: Semantics, f: Frame, v: Cell)
  {
    exists k, r :: 0 <= k < |f.cols| && 0 <= r < |f.cols[k].values| && sem.cellEq(f.cols[k].values[r], v)
  }

  /** Equal widths are all `match_rows` needs to return a verdict rather than raise. */
  lemma MatchRowsSameWidth(sem: Semantics, a: Frame, b: Frame)
    requires |a.cols| == |b.cols|
    ensures MatchRowsSpec(sem, a, b).Success?
  {
    var c := CheckCommon(sem, a, CommonColumns(a, b), a, b, false);
    assert |c.a.cols| == |Names(c.a)| == |Names(a)|;
    assert |c.b.cols| == |Names(c.b)| == |Names(b)|;
  }

  /** `categorize_exec_inacc(pred_df, gold_df)`: the shape status and its
      details. It never raises: `match_rows` is only called on tables of
      equal width. */
  function Categorize(sem: Semantics, pred: Frame, gold: Frame): (r: Result<(Status, Option<Detail>)>)
    ensures r.Success?
  {
    var rp, cp, rg, cg := pred.nrows, |pred.cols|, gold.nrows, |gold.cols|;
    if rp == rg && cp == cg then
      var d :=
        if AnyNull(pred) || AnyNull(gold) then NAsInResult
        else if AnyEqual(sem, pred, Str("None")) then NoneInPred
        else OtherCause;
      Success((SameShape, Some(d)))
    else if rp == rg then
      // here cp != cg, so the branch that sets the details to None is dead
      if cp > cg then
        Success((SameRowCount, Some(if MatchColumnsSpec(sem, gold, pred) == BContainsA then PredContainsAllGoldCols else OtherCause)))
      else
        Success((SameRowCount, Some(if MatchColumnsSpec(sem, pred, gold) == BContainsA then GoldContainsAllPredCols else OtherCause)))
    else if cp == cg then
      if rp > rg then
        MatchRowsSameWidth(sem, gold, pred);
        match MatchRowsSpec(sem, gold, pred)
        case Failure(e) => Failure(e)
        case Success(v) => Success((SameColCount, Some(if v == BContainsA then PredContainsAllGoldRows else OtherCause)))
      else
        MatchRowsSameWidth(sem, pred, gold);
        match MatchRowsSpec(sem, pred, gold)
        case Failure(e) => Failure(e)
        case Success(v) => Success((SameColCount, Some(if v == BContainsA then GoldContainsAllPredRows else OtherCause)))
    else Success((RowAndColMismatch, None))
  }

  /** The status is decided by which of the row and column counts agree, and
      only a table that differs in both has no details. */
  lemma CategorizeStatus(sem: Semantics, pred: Frame, gold: Frame)
    ensures var r := Categorize(sem, pred, gold).value;
      && (r.0 == SameShape <==> pred.nrows == gold.nrows && |pred.cols| == |gold.cols|)
      && (r.0 == SameRowCount <==> pred.nrows == gold.nrows && |pred.cols| != |gold.cols|)
      && (r.0 == SameColCount <==> pred.nrows != gold.nrows && |pred.cols| == |gold.cols|)
      && (r.0 == RowAndColMismatch <==> pred.nrows != gold.nrows && |pred.cols| != |gold.cols|)
      && (r.1.None? <==> r.0 == RowAndColMismatch)
  {
  }

  /** For tables of the same shape, missing values take precedence over the
      string "None" in the prediction. */
  lemma CategorizeSameShape(sem: Semantics, pred: Frame, gold: Frame)
    requires pred.nrows == gold.nrows && |pred.cols| == |gold.cols|
    ensures var d := Categorize(sem, pred, gold).value.1;
      && (AnyNull(pred) || AnyNull(gold) ==> d == Some(NAsInResult))
      && (!AnyNull(pred) && !AnyNull(gold) && AnyEqual(sem, pred, Str("None")) ==> d == Some(NoneInPred))
      && (!AnyNull(pred) && !AnyNull(gold) && !AnyEqual(sem, pred, Str("None")) ==> d == Some(OtherCause))
  {
  }

  /** With equal row counts the wider table is probed for the narrower one's
      columns, and the label names the wider side. */
  lemma CategorizeColumnsDirection(sem: Semantics, pred: Frame, gold: Frame)
    requires pred.nrows == gold.nrows && |pred.cols| != |gold.cols|
    ensures var d := Categorize(sem, pred, gold).value.1;
      && (|pred.cols| > |gold.cols| ==>
            (d == Some(PredContainsAllGoldCols) <==> MatchColumnsSpec(sem, gold, pred) == BContainsA)
            && (d == Some(PredContainsAllGoldCols) || d == Some(OtherCause)))
      && (|gold.cols| > |pred.cols| ==>
            (d == Some(GoldContainsAllPredCols) <==> MatchColumnsSpec(sem, pred, gold) == BContainsA)
            && (d == Some(GoldContainsAllPredCols) || d == Some(OtherCause)))
  {
  }

  /** With equal column counts the longer table is probed for the shorter
      one's rows, and the label names the longer side. */
  lemma CategorizeRowsDirection(sem: Semantics, pred: Frame, gold: Frame)
    requires pred.nrows != gold.nrows && |pred.cols| == |gold.cols|
    ensures var d := Categorize(sem, pred, gold).value.1;
      && (pred.nrows > gold.nrows ==>
            (d == Some(PredContainsAllGoldRows) <==> MatchRowsSpec(sem, gold, pred) == Success(BContainsA))
            && (d == Some(PredContainsAllGoldRows) || d == Some(OtherCause)))
      && (gold.nrows > pred.nrows ==>
            (d == Some(GoldContainsAllPredRows) <==> MatchRowsSpec(sem, pred, gold) == Success(BContainsA))
            && (d == Some(GoldContainsAllPredRows) || d == Some(OtherCause)))
  {
  }

  // ---------------------------------------------------------------------------
  // What "B contains A" guarantees
  // ---------------------------------------------------------------------------

  lemma SharedCounts(a: Frame, b: Frame)
    requires Valid(a) && Valid(b)
    ensures var shared := NameSet(a) * NameSet(b);
      && |Without(Names(a), shared)| + |shared| == |a.cols|
      && |Without(Names(b), shared)| + |shared| == |b.cols|
  {
    ValidNames(a);
    ValidNames(b);
    var shared := NameSet(a) * NameSet(b);
    WithoutCard(Names(a), shared);
    WithoutCard(Names(b), shared);
  }

  /** The common-column loop only ever ends a probe with a mismatch. */
  lemma {:induction false} CheckCommonVerdicts(sem: Semantics, dtypes: Frame, cols: seq<string>, a: Frame, b: Frame, compareValues: bool)
    ensures var p := CheckCommon(sem, dtypes, cols, a, b, compareValues);
      p.verdict.Some? ==> p.verdict.value == ColumnTypeMismatch || (compareValues && p.verdict.value == ColumnValueMismatch)
    decreases cols
  {
    if cols != [] {
      var p := CommonStep(sem, dtypes, cols[0], a, b, compareValues);
      if p.verdict.None? {
        CheckCommonVerdicts(sem, dtypes, cols[1..], p.a, p.b, compareValues);
      }
    }
  }

  /** One common column touches only that column of each frame. */
  lemma CommonStepLocal(sem: Semantics, dtypes: Frame, col: string, a: Frame, b: Frame, compareValues: bool, y: string)
    requires y != col
    ensures var p := CommonStep(sem, dtypes, col, a, b, compareValues);
      ValuesOf(p.a, y) == ValuesOf(a, y) && ValuesOf(p.b, y) == ValuesOf(b, y)
  {
    match DtypeOf(a, col)
    case None =>
    case Some(t) =>
      match AsType(sem, b, col, t)
      case None =>
      case Some(b1) =>
        AsTypeOther(sem, b, col, t, y);
        match DtypeOf(dtypes, col)
        case None =>
        case Some(d) =>
          var p := CommonStep(sem, dtypes, col, a, b, compareValues);
          if d == Float64 {
            RoundColumnOther(sem, a, col, y);
            RoundColumnOther(sem, b1, col, y);
            assert p.a == RoundColumn(sem, a, col) && p.b == RoundColumn(sem, b1, col);
          } else {
            assert p.a == a && p.b == b1;
          }
  }

  /** When `match_columns` passes the common columns, each of them has the
      same value set in both frames afterwards, and no other column was touched. */
  lemma {:induction false} CheckCommonPairs(sem: Semantics, dtypes: Frame, cols: seq<string>, a: Frame, b: Frame)
    requires Distinct(cols)
    requires CheckCommon(sem, dtypes, cols, a, b, true).verdict.None?
    ensures var p := CheckCommon(sem, dtypes, cols, a, b, true);
      && (forall x :: x in cols ==> ValueSet(p.b, x) == ValueSet(p.a, x))
      && (forall y :: y !in cols ==> ValuesOf(p.a, y) == ValuesOf(a, y) && ValuesOf(p.b, y) == ValuesOf(b, y))
    decreases cols
  {
    if cols != [] {
      var col := cols[0];
      var p1 := CommonStep(sem, dtypes, col, a, b, true);
      DistinctTail(cols);
      CheckCommonPairs(sem, dtypes, cols[1..], p1.a, p1.b);
      var p := CheckCommon(sem, dtypes, cols[1..], p1.a, p1.b, true);
      assert ValueSet(p.b, col) == ValueSet(p.a, col) by {
        assert ValueSet(p1.b, col) == ValueSet(p1.a, col);
        assert ValuesOf(p.a, col) == ValuesOf(p1.a, col) && ValuesOf(p.b, col) == ValuesOf(p1.b, col);
      }
      forall y | y !in cols
        ensures ValuesOf(p.a, y) == ValuesOf(a, y) && ValuesOf(p.b, y) == ValuesOf(b, y)
      {
        CommonStepLocal(sem, dtypes, col, a, b, true, y);
        assert y !in cols[1..];
      }
    }
  }

  /** Trying one A column against the pool touches only that column of A,
      and in B only that column and the pool's. */
  lemma {:induction false} ProbeLocal(sem: Semantics, dtypes: Frame, col: string, a: Frame, b: Frame, cands: seq<string>, y: string)
    ensures var s := ProbeCandidates(sem, dtypes, col, a, b, cands, false);
      && (y != col ==> ValuesOf(s.a, y) == ValuesOf(a, y))
      && (y != col && y !in cands ==> ValuesOf(s.b, y) == ValuesOf(b, y))
    decreases cands
  {
    if cands != [] {
      var pcol := cands[0];
      var rest := cands[1..];
      assert y !in cands ==> y != pcol && y !in rest;
      match DtypeOf(a, col)
      case None => ProbeLocal(sem, dtypes, col, a, b, rest, y);
      case Some(t) =>
        match AsType(sem, b, pcol, t)
        case None => ProbeLocal(sem, dtypes, col, a, b, rest, y);
        case Some(b1) =>
          if y != pcol {
            AsTypeOther(sem, b, pcol, t, y);
          }
          match DtypeOf(dtypes, col)
          case None => ProbeLocal(sem, dtypes, col, a, b1, rest, y);
          case Some(d) =>
            var a2 := if d == Float64 then RoundColumn(sem, a, col) else a;
            var b2 := if d == Float64 then RoundColumn(sem, b1, col) else b1;
            if y != col {
              RoundColumnOther(sem, a, col, y);
              RoundColumnOther(sem, b1, col, y);
            }
            if ValueSet(b2, pcol) != ValueSet(a2, col) {
              ProbeLocal(sem, dtypes, col, a2, b2, rest, y);
            }
    }
  }

  /** A successful outer loop: the first column found a partner, and the
      rest of the loop runs on the rebound frames and the smaller pool. */
  lemma RemainingFirst(sem: Semantics, dtypes: Frame, cols: seq<string>, a: Frame, b: Frame, pool: seq<string>, rename: bool)
    requires cols != [] && MatchRemaining(sem, dtypes, cols, a, b, pool, rename).Some?
    ensures var s := ProbeCandidates(sem, dtypes, cols[0], a, b, pool, rename);
      && s.found.Some?
      && MatchRemaining(sem, dtypes, cols, a, b, pool, rename)
         == MatchRemaining(sem, dtypes, cols[1..], s.a, s.b, RemoveFirst(pool, s.found.value), rename)
      && Partners(sem, dtypes, cols, a, b, pool, rename)
         == [s.found.value] + Partners(sem, dtypes, cols[1..], s.a, s.b, RemoveFirst(pool, s.found.value), rename)
  {
  }

  /** Putting a name that the rest lacks in front keeps a list free of repetitions. */
  lemma DistinctCons(x: string, xs: seq<string>)
    requires Distinct(xs) && x !in xs
    ensures Distinct([x] + xs)
  {
    var ys := [x] + xs;
    forall i, j | 0 <= i < j < |ys| ensures ys[i] != ys[j] {
      assert ys[j] == xs[j - 1];
      if i > 0 {
        assert ys[i] == xs[i - 1];
      }
    }
  }

  /** The outer loop of `match_columns` touches only the remaining columns
      of A, and in B only the pool's columns and those. */
  lemma {:induction false} RemainingLocal(sem: Semantics, dtypes: Frame, cols: seq<string>, a: Frame, b: Frame, pool: seq<string>, y: string)
    requires MatchRemaining(sem, dtypes, cols, a, b, pool, false).Some?
    ensures var r := MatchRemaining(sem, dtypes, cols, a, b, pool, false).value;
      && (y !in cols ==> ValuesOf(r.0, y) == ValuesOf(a, y))
      && (y !in cols && y !in pool ==> ValuesOf(r.1, y) == ValuesOf(b, y))
    decreases cols
  {
    if cols != [] {
      RemainingFirst(sem, dtypes, cols, a, b, pool, false);
      var s := ProbeCandidates(sem, dtypes, cols[0], a, b, pool, false);
      ProbeLocal(sem, dtypes, cols[0], a, b, pool, y);
      RemainingLocal(sem, dtypes, cols[1..], s.a, s.b, RemoveFirst(pool, s.found.value), y);
      assert y !in cols ==> y !in cols[1..];
    }
  }

  /** When every remaining A column finds a partner in `match_columns`, the
      partners are distinct pool columns, each with its A column's value set
      in the final frames. */
  lemma {:induction false} RemainingPairs(sem: Semantics, dtypes: Frame, cols: seq<string>, a: Frame, b: Frame, pool: seq<string>)
    requires Distinct(cols) && Distinct(pool)
    requires forall x :: x in cols ==> x !in pool
    requires MatchRemaining(sem, dtypes, cols, a, b, pool, false).Some?
    ensures var r := MatchRemaining(sem, dtypes, cols, a, b, pool, false).value;
      var partners := Partners(sem, dtypes, cols, a, b, pool, false);
      && |partners| == |cols| && Distinct(partners)
      && (forall k :: 0 <= k < |cols| ==> partners[k] in pool)
      && (forall k :: 0 <= k < |cols| ==> ValueSet(r.1, partners[k]) == ValueSet(r.0, cols[k]))
    decreases cols
  {
    if cols != [] {
      var col := cols[0];
      RemainingFirst(sem, dtypes, cols, a, b, pool, false);
      var s := ProbeCandidates(sem, dtypes, col, a, b, pool, false);
      var pcol := s.found.value;
      var pool2 := RemoveFirst(pool, pcol);
      var cols2 := cols[1..];
      DistinctTail(cols);
      RemoveFirstDistinct(pool, pcol);
      assert forall x :: x in cols2 ==> x in cols;
      RemainingPairs(sem, dtypes, cols2, s.a, s.b, pool2);
      var r := MatchRemaining(sem, dtypes, cols2, s.a, s.b, pool2, false).value;
      var rest := Partners(sem, dtypes, cols2, s.a, s.b, pool2, false);
      var partners := [pcol] + rest;
      assert pcol in pool && pcol !in cols2;
      assert ValueSet(r.1, pcol) == ValueSet(r.0, col) by {
        RemainingLocal(sem, dtypes, cols2, s.a, s.b, pool2, pcol);
        RemainingLocal(sem, dtypes, cols2, s.a, s.b, pool2, col);
      }
      assert pcol !in rest;
      DistinctCons(pcol, rest);
      forall k | 0 <= k < |cols|
        ensures partners[k] in pool && ValueSet(r.1, partners[k]) == ValueSet(r.0, cols[k])
      {
        if k > 0 {
          assert partners[k] == rest[k - 1] && cols[k] == cols2[k - 1];
        }
      }
    }
  }

  /** The names of A that B lacks and the names of B that A lacks are
      distinct lists with no name in common. */
  lemma SideNames(a: Frame, b: Frame)
    requires Valid(a) && Valid(b)
    ensures var shared := NameSet(a) * NameSet(b);
      && Distinct(Without(Names(a), shared)) && Distinct(Without(Names(b), shared))
      && (forall x :: x in Without(Names(a), shared) ==> x !in Without(Names(b), shared))
      && (forall x :: x in Without(Names(b), shared) ==> x in NameSet(b))
  {
    ValidNames(a);
    ValidNames(b);
    var shared := NameSet(a) * NameSet(b);
    WithoutDistinct(Names(a), shared);
    WithoutDistinct(Names(b), shared);
  }

  /** "B contains A" from `match_columns`: after the casts and the rounding,
      every common column has the same value set in both frames, and every
      other column of A took its own column of B, one that A lacks, with the
      same value set. So B is at least as wide as A. */
  lemma MatchColumnsContains(sem: Semantics, a: Frame, b: Frame)
    requires Valid(a) && Valid(b)
    requires MatchColumnsSpec(sem, a, b) == BContainsA
    ensures var shared := NameSet(a) * NameSet(b);
      var c := CheckCommon(sem, a, CommonColumns(a, b), a, b, true);
      var rest := Without(Names(a), shared);
      var pool := Without(Names(b), shared);
      var m := MatchRemaining(sem, a, rest, c.a, c.b, pool, false);
      var partners := Partners(sem, a, rest, c.a, c.b, pool, false);
      && c.verdict.None? && m.Some?
      && Names(m.value.0) == Names(a) && Names(m.value.1) == Names(b)
      && (forall x :: x in shared ==> ValueSet(m.value.1, x) == ValueSet(m.value.0, x))
      && |partners| == |rest| && Distinct(partners)
      && (forall k :: 0 <= k < |rest| ==> partners[k] in NameSet(b) && partners[k] !in shared)
      && (forall k :: 0 <= k < |rest| ==> ValueSet(m.value.1, partners[k]) == ValueSet(m.value.0, rest[k]))
      && |a.cols| <= |b.cols|
  {
    var shared := NameSet(a) * NameSet(b);
    var common := CommonColumns(a, b);
    var c := CheckCommon(sem, a, common, a, b, true);
    CheckCommonVerdicts(sem, a, common, a, b, true);
    assert c.verdict.None?;
    assert Names(c.b) == Names(b);
    var rest := Without(Names(a), shared);
    var pool := Without(Names(b), shared);
    var m := MatchRemaining(sem, a, rest, c.a, c.b, pool, false);
    assert m.Some?;
    ValidNames(a);
    WithoutDistinct(Names(a), NameSet(a) - NameSet(b));
    CheckCommonPairs(sem, a, common, a, b);
    SideNames(a, b);
    RemainingPairs(sem, a, rest, c.a, c.b, pool);
    forall x | x in shared
      ensures ValueSet(m.value.1, x) == ValueSet(m.value.0, x)
    {
      assert x in common && x !in rest && x !in pool;
      RemainingLocal(sem, a, rest, c.a, c.b, pool, x);
    }
    SharedCounts(a, b);
  }

  /** A `match_rows` run that never reaches the remaining-column loop had
      every name of A in B. */
  lemma AllCommon(a: Frame, b: Frame)
    requires Valid(a) && Valid(b)
    requires |CommonColumns(a, b)| == |a.cols|
    ensures |a.cols| <= |b.cols|
  {
    ValidNames(a);
    ValidNames(b);
    WithoutCard(Names(a), NameSet(a) - NameSet(b));
    assert NameSet(a) - NameSet(b) == {};
    assert NameSet(a) <= NameSet(b);
  }

  /** "B contains A" from `match_rows`: the frames that reach the row loop,
      A with its names and B with its partner columns renamed, are no
      narrower on B's side, have the same width when A has a row, and every
      row of A equals some row of B position by position. */
  lemma MatchRowsContains(sem: Semantics, a: Frame, b: Frame)
    requires Valid(a) && Valid(b)
    requires MatchRowsSpec(sem, a, b) == Success(BContainsA)
    ensures var common := CommonColumns(a, b);
      var shared := NameSet(a) * NameSet(b);
      var c := CheckCommon(sem, a, common, a, b, false);
      var m := MatchRemaining(sem, a, Without(Names(a), shared), c.a, c.b, Without(Names(b), shared), true);
      && c.verdict.None?
      && (|common| != |a.cols| ==> m.Some?)
      && var (fa, fb) := if |common| == |a.cols| then (c.a, c.b) else (m.value.0, m.value.1);
      && Names(fa) == Names(a) && fa.nrows == a.nrows
      && |fb.cols| == |b.cols| && fb.nrows == b.nrows
      && |a.cols| <= |b.cols|
      && (a.nrows > 0 ==> |a.cols| == |b.cols|)
      && forall q | 0 <= q < a.nrows :: HasEqualRow(sem, fb, PosRow(fa, q))
  {
    var common := CommonColumns(a, b);
    var shared := NameSet(a) * NameSet(b);
    var c := CheckCommon(sem, a, common, a, b, false);
    CheckCommonVerdicts(sem, a, common, a, b, false);
    assert c.verdict.None?;
    assert Names(c.b) == Names(b) && Names(c.a) == Names(a);
    if |common| == |a.cols| {
      AllCommon(a, b);
      assert RowsCovered(sem, c.a, c.b) == Success(BContainsA);
    } else {
      var m := MatchRemaining(sem, a, Without(Names(a), shared), c.a, c.b, Without(Names(c.b), shared), true);
      assert m.Some?;
      assert RowsCovered(sem, m.value.0, m.value.1) == Success(BContainsA);
      SharedCounts(a, b);
    }
  }
}
