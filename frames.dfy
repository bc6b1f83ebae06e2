/** A value model of the small part of pandas that the result-table oracle
    uses: data frames as named, typed columns of cells, and the operations
    `astype`, `round`, `rename`, `to_numeric`, column value sets and row tuples.

    Every pandas operation the oracle calls returns a new frame (the oracle
    rebinds its variables to it), so frames are values here. What pandas does
    inside a cast, a rounding or an elementwise comparison is not modelled: a
    `Semantics` value supplies those as plain functions, and every result of
    the model holds for every choice of them. */
module Frames {
  import opened Wrappers

  /** One cell of a result table. `Null` is pandas' missing value (None/NaN/NA). */
  datatype Cell = Null | Int(i: int) | Float(x: real) | Bool(b: bool) | Str(s: string)

  /** The column dtypes the oracle produces: `float64` (Python `float` and
      `np.double`), numpy `int64` (Python `int`), the nullable `Int64` and
      `Int32`, `bool`, and `object` (Python `str` and anything inferred as mixed). */
  datatype Dtype = Float64 | Int64 | NullableInt64 | NullableInt32 | Boolean | Object

  datatype Column = Column(name: string, dtype: Dtype, values: seq<Cell>)

  /** A data frame: its row count and its columns in order. */
  datatype Frame = Frame(nrows: nat, cols: seq<Column>)

  /** The library behaviour the oracle relies on but that is not modelled. */
  datatype Semantics = Semantics(
    /** The dtype pandas infers for a freshly constructed column. */
    infer: seq<Cell> -> Dtype,
    /** `astype` of one element; `None` when pandas raises for it. */
    cast: (Cell, Dtype) -> Option<Cell>,
    /** `pd.to_numeric(errors="coerce")` of one element (unparseable values become `Null`). */
    toNumeric: Cell -> Cell,
    /** `round(4)` of one element. */
    round4: Cell -> Cell,
    /** Whether `merge` accepts two key columns of these (different) dtypes. */
    mergeable: (Dtype, Dtype) -> bool,
    /** The elementwise `==` of a frame against a value. */
    cellEq: (Cell, Cell) -> bool)

  /** Every column has one value per row and no two columns share a name. */
  ghost predicate Valid(f: Frame)
  {
    && (forall k :: 0 <= k < |f.cols| ==> |f.cols[k].values| == f.nrows)
    && (forall j, k :: 0 <= j < k < |f.cols| ==> f.cols[j].name != f.cols[k].name)
  }

  /** `list(df.columns)` */
  function Names(f: Frame): (r: seq<string>)
    ensures |r| == |f.cols|
    ensures forall k :: 0 <= k < |f.cols| ==> r[k] == f.cols[k].name
  {
    seq(|f.cols|, k requires 0 <= k < |f.cols| => f.cols[k].name)
  }

  /** `set(df.columns)` */
  function NameSet(f: Frame): set<string>
  {
    set k | 0 <= k < |f.cols| :: f.cols[k].name
  }

  /** The position of the first column with that name. */
  function IndexOf(cols: seq<Column>, name: string): (r: Option<nat>)
    ensures r.Some? ==> r.value < |cols| && cols[r.value].name == name
    ensures r.Some? ==> forall k :: 0 <= k < r.value ==> cols[k].name != name
    ensures r.None? ==> forall k :: 0 <= k < |cols| ==> cols[k].name != name
  {
    if cols == [] then None
    else if cols[0].name == name then Some(0)
    else match IndexOf(cols[1..], name)
      case None => None
      case Some(k) => Some(k + 1)
  }

  /** The first column with a name is found by its position alone. */
  lemma IndexOfAt(cols: seq<Column>, name: string, k: nat)
    requires k < |cols| && cols[k].name == name
    requires forall j :: 0 <= j < k ==> cols[j].name != name
    ensures IndexOf(cols, name) == Some(k)
  {
  }

  /** Column lookup depends on the column names only. */
  lemma IndexOfSameNames(a: seq<Column>, b: seq<Column>, name: string)
    requires |a| == |b| && forall k :: 0 <= k < |a| ==> a[k].name == b[k].name
    ensures IndexOf(a, name) == IndexOf(b, name)
  {
    match IndexOf(a, name)
    case None =>
    case Some(k) => IndexOfAt(b, name, k);
  }

  /** Casting any value of the frame to its own column's dtype gives it back. */
  ghost predicate CastStable(sem: Semantics, f: Frame)
  {
    forall k, i :: 0 <= k < |f.cols| && 0 <= i < |f.cols[k].values| ==>
      sem.cast(f.cols[k].values[i], f.cols[k].dtype) == Some(f.cols[k].values[i])
  }

  /** `name in df.columns` */
  predicate Has(f: Frame, name: string)
  {
    IndexOf(f.cols, name).Some?
  }

  /** `df.dtypes[name]`; `None` stands for the KeyError of an absent column. */
  function DtypeOf(f: Frame, name: string): Option<Dtype>
  {
    match IndexOf(f.cols, name)
    case None => None
    case Some(k) => Some(f.cols[k].dtype)
  }

  /** `df[name].values`. The oracle only asks for columns that exist; the
      empty sequence stands in for the KeyError of an absent one. */
  function ValuesOf(f: Frame, name: string): seq<Cell>
  {
    match IndexOf(f.cols, name)
    case None => []
    case Some(k) => f.cols[k].values
  }

  /** `set(df[name].values)`: the distinct values of a column. */
  function ValueSet(f: Frame, name: string): set<Cell>
  {
    set v | v in ValuesOf(f, name)
  }

  /** `series.astype(t)`: every element is cast or the whole cast fails. */
  function CastValues(sem: Semantics, vals: seq<Cell>, t: Dtype): (r: Option<seq<Cell>>)
    ensures r.Some? <==> forall i :: 0 <= i < |vals| ==> sem.cast(vals[i], t).Some?
    ensures r.Some? ==> |r.value| == |vals|
    ensures r.Some? ==> forall i :: 0 <= i < |vals| ==> sem.cast(vals[i], t) == Some(r.value[i])
  {
    if forall i | 0 <= i < |vals| :: sem.cast(vals[i], t).Some? then
      Some(seq(|vals|, i requires 0 <= i < |vals| =>
        match sem.cast(vals[i], t) case Some(v) => v case None => Null))
    else None
  }

  /** `series.round(4)` */
  function RoundValues(sem: Semantics, vals: seq<Cell>): (r: seq<Cell>)
    ensures |r| == |vals|
    ensures forall i :: 0 <= i < |vals| ==> r[i] == sem.round4(vals[i])
  {
    seq(|vals|, i requires 0 <= i < |vals| => sem.round4(vals[i]))
  }

  /** Replaces the column at position `k`. */
  function SetColumn(f: Frame, k: nat, c: Column): (r: Frame)
    requires k < |f.cols|
    ensures r.nrows == f.nrows && |r.cols| == |f.cols| && r.cols[k] == c
    ensures forall j :: 0 <= j < |f.cols| && j != k ==> r.cols[j] == f.cols[j]
  {
    Frame(f.nrows, f.cols[k := c])
  }

  /** `df.astype({name: t})`: `None` when the column is absent or the cast raises. */
  function AsType(sem: Semantics, f: Frame, name: string, t: Dtype): (r: Option<Frame>)
    ensures r.Some? ==> Names(r.value) == Names(f) && r.value.nrows == f.nrows
  {
    match IndexOf(f.cols, name)
    case None => None
    case Some(k) =>
      match CastValues(sem, f.cols[k].values, t)
      case None => None
      case Some(vals) => Some(SetColumn(f, k, Column(name, t, vals)))
  }

  /** `df.round({name: 4})`: a name that is not a column is ignored, as pandas does. */
  function RoundColumn(sem: Semantics, f: Frame, name: string): (r: Frame)
    ensures Names(r) == Names(f) && r.nrows == f.nrows
    ensures forall k :: 0 <= k < |f.cols| ==> r.cols[k].dtype == f.cols[k].dtype
  {
    match IndexOf(f.cols, name)
    case None => f
    case Some(k) =>
      var c := f.cols[k];
      SetColumn(f, k, Column(c.name, c.dtype, RoundValues(sem, c.values)))
  }

  /** `df.rename(columns={from: to})`: every column labelled `from` gets `to`. */
  function Rename(f: Frame, from: string, to: string): (r: Frame)
    ensures r.nrows == f.nrows && |r.cols| == |f.cols|
    ensures forall k :: 0 <= k < |f.cols| ==>
      r.cols[k].values == f.cols[k].values && r.cols[k].dtype == f.cols[k].dtype
      && r.cols[k].name == (if f.cols[k].name == from then to else f.cols[k].name)
  {
    Frame(f.nrows, seq(|f.cols|, k requires 0 <= k < |f.cols| =>
      var c := f.cols[k];
      if c.name == from then Column(to, c.dtype, c.values) else c))
  }

  /** The cell in row `r` of column `k` (`Null` outside the frame). */
  function CellAt(f: Frame, k: nat, r: nat): Cell
  {
    if k < |f.cols| && r < |f.cols[k].values| then f.cols[k].values[r] else Null
  }

  /** Row `r` restricted to the key columns `keys`, in that order. */
  function KeyRow(f: Frame, keys: seq<string>, r: nat): (row: seq<Cell>)
    ensures |row| == |keys|
  {
    seq(|keys|, j requires 0 <= j < |keys| =>
      match IndexOf(f.cols, keys[j]) case None => Null case Some(k) => CellAt(f, k, r))
  }

  /** The distinct row tuples of a frame over the key columns. */
  function KeyRowSet(f: Frame, keys: seq<string>): set<seq<Cell>>
  {
    set r | 0 <= r < f.nrows :: KeyRow(f, keys, r)
  }

  /** Row `r` as `itertuples` yields it: all columns, in frame order. */
  function PosRow(f: Frame, r: nat): (row: seq<Cell>)
    ensures |row| == |f.cols|
  {
    seq(|f.cols|, k requires 0 <= k < |f.cols| => CellAt(f, k, r))
  }

  /** `df.isna().any().any()` */
  predicate AnyNull(f: Frame)
  {
    exists k, r :: 0 <= k < |f.cols| && 0 <= r < |f.cols[k].values| && f.cols[k].values[r] == Null
  }

  /** `[x for x in xs if x not in drop]` */
  function Without(xs: seq<string>, drop: set<string>): (r: seq<string>)
    ensures forall x :: x in r <==> x in xs && x !in drop
    ensures |r| <= |xs|
  {
    if xs == [] then []
    else if xs[0] in drop then Without(xs[1..], drop)
    else [xs[0]] + Without(xs[1..], drop)
  }

  /** `xs.remove(x)`: drops the first occurrence (the callers only remove members). */
  function RemoveFirst(xs: seq<string>, x: string): (r: seq<string>)
    ensures x in xs ==> |r| == |xs| - 1
    ensures x !in xs ==> r == xs
    ensures forall y :: y in r ==> y in xs
    ensures forall y :: y in xs && y != x ==> y in r
    ensures multiset(r) == multiset(xs) - multiset{x}
  {
    if xs == [] then []
    else if xs[0] == x then
      assert xs == [x] + xs[1..];
      xs[1..]
    else
      assert xs == [xs[0]] + xs[1..];
      [xs[0]] + RemoveFirst(xs[1..], x)
  }

  predicate Distinct(xs: seq<string>)
  {
    forall i, j :: 0 <= i < j < |xs| ==> xs[i] != xs[j]
  }

  /** A list without repetitions has as many members as elements. */
  lemma {:induction false} DistinctCard(xs: seq<string>)
    requires Distinct(xs)
    ensures |set x | x in xs| == |xs|
  {
    if xs != [] {
      var tail := xs[1..];
      assert Distinct(tail) by {
        forall i, j | 0 <= i < j < |tail| ensures tail[i] != tail[j] {
          assert tail[i] == xs[i + 1] && tail[j] == xs[j + 1];
        }
      }
      DistinctCard(tail);
      assert xs[0] !in tail by {
        forall j | 0 <= j < |tail| ensures tail[j] != xs[0] {
          assert tail[j] == xs[j + 1];
        }
      }
      assert (set x | x in xs) == {xs[0]} + (set x | x in tail) by {
        assert xs == [xs[0]] + tail;
      }
    }
  }

  /** Dropping a set of members from a list without repetitions shortens it
      by the size of that set. */
  lemma {:induction false} WithoutCard(xs: seq<string>, drop: set<string>)
    requires Distinct(xs) && drop <= set x | x in xs
    ensures |Without(xs, drop)| + |drop| == |xs|
  {
    if xs == [] {
      assert drop == {};
    } else {
      var tail := xs[1..];
      assert Distinct(tail) by {
        forall i, j | 0 <= i < j < |tail| ensures tail[i] != tail[j] {
          assert tail[i] == xs[i + 1] && tail[j] == xs[j + 1];
        }
      }
      assert xs[0] !in tail by {
        forall j | 0 <= j < |tail| ensures tail[j] != xs[0] {
          assert tail[j] == xs[j + 1];
        }
      }
      assert xs == [xs[0]] + tail;
      var rest := drop - {xs[0]};
      assert rest <= set x | x in tail;
      WithoutCard(tail, rest);
      if xs[0] in drop {
        assert |drop| == |rest| + 1;
        assert Without(tail, drop) == Without(tail, rest) by {
          WithoutSame(tail, drop, rest);
        }
      } else {
        assert rest == drop;
      }
    }
  }

  lemma {:induction false} WithoutSame(xs: seq<string>, d1: set<string>, d2: set<string>)
    requires forall x :: x in xs ==> (x in d1 <==> x in d2)
    ensures Without(xs, d1) == Without(xs, d2)
  {
    if xs != [] {
      WithoutSame(xs[1..], d1, d2);
    }
  }

  /** The names of a valid frame are distinct and are its name set. */
  lemma ValidNames(f: Frame)
    requires Valid(f)
    ensures Distinct(Names(f))
    ensures NameSet(f) == set x | x in Names(f)
    ensures |NameSet(f)| == |f.cols|
  {
    assert NameSet(f) == set x | x in Names(f) by {
      forall x | x in Names(f) ensures x in NameSet(f) {
        var k :| 0 <= k < |f.cols| && Names(f)[k] == x;
      }
    }
    DistinctCard(Names(f));
  }

  /** After a rename whose new name was not taken, the new name finds the
      column that the old name found. */
  lemma RenameIndexOf(f: Frame, from: string, to: string)
    requires to !in Names(f)
    ensures IndexOf(Rename(f, from, to).cols, to) == IndexOf(f.cols, from)
  {
    var r := Rename(f, from, to);
    forall k | 0 <= k < |f.cols| ensures f.cols[k].name != to {
      assert Names(f)[k] == f.cols[k].name;
    }
    match IndexOf(f.cols, from)
    case Some(k) => IndexOfAt(r.cols, to, k);
    case None =>
  }

  /** A cast of one column leaves the values of every other name as they were. */
  lemma AsTypeOther(sem: Semantics, f: Frame, x: string, t: Dtype, y: string)
    requires AsType(sem, f, x, t).Some? && y != x
    ensures ValuesOf(AsType(sem, f, x, t).value, y) == ValuesOf(f, y)
  {
    var g := AsType(sem, f, x, t).value;
    IndexOfSameNames(f.cols, g.cols, y);
  }

  /** So does rounding one column. */
  lemma RoundColumnOther(sem: Semantics, f: Frame, x: string, y: string)
    requires y != x
    ensures ValuesOf(RoundColumn(sem, f, x), y) == ValuesOf(f, y)
  {
    IndexOfSameNames(f.cols, RoundColumn(sem, f, x).cols, y);
  }

  /** The tail of a list without repetitions has none either, and lacks the head. */
  lemma DistinctTail(xs: seq<string>)
    requires Distinct(xs) && xs != []
    ensures Distinct(xs[1..]) && xs[0] !in xs[1..]
  {
    var tail := xs[1..];
    forall i, j | 0 <= i < j < |tail| ensures tail[i] != tail[j] {
      assert tail[i] == xs[i + 1] && tail[j] == xs[j + 1];
    }
    forall j | 0 <= j < |tail| ensures tail[j] != xs[0] {
      assert tail[j] == xs[j + 1];
    }
  }

  /** Dropping members keeps a list free of repetitions. */
  lemma {:induction false} WithoutDistinct(xs: seq<string>, drop: set<string>)
    requires Distinct(xs)
    ensures Distinct(Without(xs, drop))
  {
    if xs != [] {
      DistinctTail(xs);
      WithoutDistinct(xs[1..], drop);
    }
  }

  /** Removing a member from a list without repetitions removes it entirely. */
  lemma {:induction false} RemoveFirstDistinct(xs: seq<string>, x: string)
    requires Distinct(xs)
    ensures Distinct(RemoveFirst(xs, x)) && x !in RemoveFirst(xs, x)
  {
    if xs != [] {
      DistinctTail(xs);
      if xs[0] != x {
        RemoveFirstDistinct(xs[1..], x);
      }
    }
  }

  // ---------------------------------------------------------------------------
  // Row order
  // ---------------------------------------------------------------------------

  /** `perm` lists every row index below `n` once. */
  predicate IsPermutation(perm: seq<nat>, n: nat)
  {
    && |perm| == n
    && (forall s :: 0 <= s < n ==> perm[s] < n)
    && (forall r :: 0 <= r < n ==> r in perm)
  }

  /** `b` is `a` with its rows reordered: row `s` of `b` is row `perm[s]` of `a`. */
  ghost predicate RowsPermuted(a: Frame, b: Frame, perm: seq<nat>)
  {
    && IsPermutation(perm, a.nrows)
    && b.nrows == a.nrows
    && |b.cols| == |a.cols|
    && (forall k :: 0 <= k < |a.cols| ==>
          && b.cols[k].name == a.cols[k].name
          && b.cols[k].dtype == a.cols[k].dtype
          && |a.cols[k].values| == a.nrows
          && |b.cols[k].values| == a.nrows)
    && (forall k, s :: 0 <= k < |a.cols| && 0 <= s < a.nrows ==> b.cols[k].values[s] == a.cols[k].values[perm[s]])
  }

  /** `df.iloc[perm]`: the rows of a valid frame in the order `perm`. */
  function PermuteRows(f: Frame, perm: seq<nat>): (g: Frame)
    requires Valid(f) && IsPermutation(perm, f.nrows)
    ensures RowsPermuted(f, g, perm)
  {
    Frame(f.nrows, seq(|f.cols|, k requires 0 <= k < |f.cols| =>
      var c := f.cols[k];
      Column(c.name, c.dtype, seq(f.nrows, s requires 0 <= s < f.nrows => c.values[perm[s]]))))
  }

  /** Reordering rows changes neither names nor dtypes. */
  lemma PermutedDtypes(a: Frame, b: Frame, perm: seq<nat>, name: string)
    requires RowsPermuted(a, b, perm)
    ensures Names(a) == Names(b)
    ensures IndexOf(a.cols, name) == IndexOf(b.cols, name)
    ensures DtypeOf(a, name) == DtypeOf(b, name)
  {
    IndexOfSameNames(a.cols, b.cols, name);
  }

  /** Two value lists that are reorderings of each other. */
  predicate ValuesPermuted(x: seq<Cell>, y: seq<Cell>, perm: seq<nat>)
  {
    && IsPermutation(perm, |x|)
    && |y| == |x|
    && (forall s :: 0 <= s < |y| ==> y[s] == x[perm[s]])
  }

  lemma PermutedColumn(a: Frame, b: Frame, perm: seq<nat>, k: nat)
    requires RowsPermuted(a, b, perm) && k < |a.cols|
    ensures ValuesPermuted(a.cols[k].values, b.cols[k].values, perm)
  {
  }

  lemma ValuesPermutedSet(x: seq<Cell>, y: seq<Cell>, perm: seq<nat>)
    requires ValuesPermuted(x, y, perm)
    ensures (set v | v in x) == (set v | v in y)
  {
    forall v | v in x ensures v in y {
      var r :| 0 <= r < |x| && x[r] == v;
      assert r in perm;
      var s :| 0 <= s < |perm| && perm[s] == r;
      assert y[s] == v;
    }
  }

  /** The distinct values of a column do not depend on row order. */
  lemma PermutedValueSet(a: Frame, b: Frame, perm: seq<nat>, name: string)
    requires RowsPermuted(a, b, perm)
    ensures ValueSet(a, name) == ValueSet(b, name)
  {
    PermutedDtypes(a, b, perm, name);
    match IndexOf(a.cols, name)
    case None =>
    case Some(k) =>
      PermutedColumn(a, b, perm, k);
      ValuesPermutedSet(a.cols[k].values, b.cols[k].values, perm);
  }

  /** An elementwise cast succeeds on both orders or on neither, and keeps the order. */
  lemma CastValuesPermuted(sem: Semantics, x: seq<Cell>, y: seq<Cell>, perm: seq<nat>, t: Dtype)
    requires ValuesPermuted(x, y, perm)
    ensures CastValues(sem, x, t).Some? <==> CastValues(sem, y, t).Some?
    ensures CastValues(sem, x, t).Some? ==> ValuesPermuted(CastValues(sem, x, t).value, CastValues(sem, y, t).value, perm)
  {
    if CastValues(sem, y, t).Some? {
      forall r | 0 <= r < |x| ensures sem.cast(x[r], t).Some? {
        assert r in perm;
      var s :| 0 <= s < |perm| && perm[s] == r;
        assert y[s] == x[r];
      }
    }
  }

  lemma RoundValuesPermuted(sem: Semantics, x: seq<Cell>, y: seq<Cell>, perm: seq<nat>)
    requires ValuesPermuted(x, y, perm)
    ensures ValuesPermuted(RoundValues(sem, x), RoundValues(sem, y), perm)
  {
  }

  /** Replacing one column by a reordering of a new column keeps the frames reorderings. */
  lemma SetColumnPermuted(a: Frame, b: Frame, perm: seq<nat>, k: nat, ca: Column, cb: Column)
    requires RowsPermuted(a, b, perm) && k < |a.cols|
    requires ca.name == cb.name && ca.dtype == cb.dtype && ValuesPermuted(ca.values, cb.values, perm)
    requires |ca.values| == a.nrows
    ensures RowsPermuted(SetColumn(a, k, ca), SetColumn(b, k, cb), perm)
  {
  }

  lemma AsTypePermuted(sem: Semantics, a: Frame, b: Frame, perm: seq<nat>, name: string, t: Dtype)
    requires RowsPermuted(a, b, perm)
    ensures AsType(sem, a, name, t).Some? <==> AsType(sem, b, name, t).Some?
    ensures AsType(sem, a, name, t).Some? ==> RowsPermuted(AsType(sem, a, name, t).value, AsType(sem, b, name, t).value, perm)
  {
    PermutedDtypes(a, b, perm, name);
    match IndexOf(a.cols, name)
    case None =>
    case Some(k) =>
      PermutedColumn(a, b, perm, k);
      CastValuesPermuted(sem, a.cols[k].values, b.cols[k].values, perm, t);
      if CastValues(sem, a.cols[k].values, t).Some? {
        SetColumnPermuted(a, b, perm, k,
          Column(name, t, CastValues(sem, a.cols[k].values, t).value),
          Column(name, t, CastValues(sem, b.cols[k].values, t).value));
      }
  }

  lemma RoundColumnPermuted(sem: Semantics, a: Frame, b: Frame, perm: seq<nat>, name: string)
    requires RowsPermuted(a, b, perm)
    ensures RowsPermuted(RoundColumn(sem, a, name), RoundColumn(sem, b, name), perm)
  {
    PermutedDtypes(a, b, perm, name);
    match IndexOf(a.cols, name)
    case None =>
    case Some(k) =>
      PermutedColumn(a, b, perm, k);
      RoundValuesPermuted(sem, a.cols[k].values, b.cols[k].values, perm);
      var ca, cb := a.cols[k], b.cols[k];
      SetColumnPermuted(a, b, perm, k,
        Column(ca.name, ca.dtype, RoundValues(sem, ca.values)),
        Column(cb.name, cb.dtype, RoundValues(sem, cb.values)));
  }

  lemma RenamePermuted(a: Frame, b: Frame, perm: seq<nat>, from: string, to: string)
    requires RowsPermuted(a, b, perm)
    ensures RowsPermuted(Rename(a, from, to), Rename(b, from, to), perm)
  {
  }

  /** The row tuples over any key list do not depend on row order. */
  lemma PermutedKeyRowSet(a: Frame, b: Frame, perm: seq<nat>, keys: seq<string>)
    requires RowsPermuted(a, b, perm)
    ensures KeyRowSet(a, keys) == KeyRowSet(b, keys)
  {
    forall s | 0 <= s < a.nrows ensures KeyRow(b, keys, s) == KeyRow(a, keys, perm[s]) {
      forall j | 0 <= j < |keys| ensures KeyRow(b, keys, s)[j] == KeyRow(a, keys, perm[s])[j] {
        PermutedDtypes(a, b, perm, keys[j]);
      }
    }
    forall row | row in KeyRowSet(a, keys) ensures row in KeyRowSet(b, keys) {
      var r :| 0 <= r < a.nrows && row == KeyRow(a, keys, r);
      assert r in perm;
      var s :| 0 <= s < |perm| && perm[s] == r;
      assert KeyRow(b, keys, s) == row;
    }
  }

  // ---------------------------------------------------------------------------
  // Column order
  // ---------------------------------------------------------------------------

  /** The positions below `n`. */
  function Below(n: nat): (s: set<nat>)
    ensures forall r: nat :: r in s <==> r < n
    ensures |s| == n
  {
    if n == 0 then {}
    else
      var p := Below(n - 1);
      assert n - 1 !in p;
      p + {n - 1}
  }

  /** The members of a list, no more of them than it has elements. */
  function Members(xs: seq<nat>): (s: set<nat>)
    ensures forall x :: x in s <==> x in xs
    ensures |s| <= |xs|
  {
    if xs == [] then {}
    else
      var t := Members(xs[1..]);
      assert forall x :: x in xs <==> x == xs[0] || x in xs[1..];
      if xs[0] in t then t else t + {xs[0]}
  }

  lemma SubsetCard(a: set<nat>, b: set<nat>)
    requires a <= b
    ensures |a| <= |b|
  {
    assert b == a + (b - a);
  }

  /** A permutation never lists a position twice. */
  lemma PermutationInjective(perm: seq<nat>, n: nat)
    requires IsPermutation(perm, n)
    ensures forall i, j :: 0 <= i < j < n ==> perm[i] != perm[j]
  {
    forall i, j | 0 <= i < j < n
      ensures perm[i] != perm[j]
    {
      if perm[i] == perm[j] {
        var rest := perm[..j] + perm[j + 1..];
        // a list of n - 1 elements would hold all n positions
        assert Below(n) <= Members(rest) by {
          forall r: nat | r < n ensures r in rest {
            assert r in perm;
            var t :| 0 <= t < |perm| && perm[t] == r;
            if t < j {
              assert rest[t] == r;
            } else if t == j {
              assert rest[i] == r;
            } else {
              assert rest[t - 1] == r;
            }
          }
        }
        assert |rest| == n - 1;
        SubsetCard(Below(n), Members(rest));
      }
    }
  }

  /** `b` is `a` with its columns reordered: column `k` of `b` is column
      `perm[k]` of `a`, name, dtype and values. */
  ghost predicate ColumnsPermuted(a: Frame, b: Frame, perm: seq<nat>)
  {
    && IsPermutation(perm, |a.cols|)
    && b.nrows == a.nrows
    && |b.cols| == |a.cols|
    && (forall k :: 0 <= k < |a.cols| ==> b.cols[k] == a.cols[perm[k]])
  }

  /** `df[[df.columns[i] for i in perm]]`: the columns in the order `perm`. */
  function PermuteColumns(f: Frame, perm: seq<nat>): (g: Frame)
    requires IsPermutation(perm, |f.cols|)
    ensures ColumnsPermuted(f, g, perm)
  {
    Frame(f.nrows, seq(|f.cols|, k requires 0 <= k < |f.cols| => f.cols[perm[k]]))
  }

  /** Reordering the columns of a frame without duplicate names keeps its
      names distinct and its name set. */
  lemma ColumnsPermutedNames(a: Frame, b: Frame, perm: seq<nat>)
    requires ColumnsPermuted(a, b, perm) && Distinct(Names(a))
    ensures Distinct(Names(b))
    ensures forall x :: x in Names(b) <==> x in Names(a)
    ensures NameSet(b) == NameSet(a)
  {
    PermutationInjective(perm, |a.cols|);
    forall i, j | 0 <= i < j < |b.cols| ensures Names(b)[i] != Names(b)[j] {
      if perm[i] < perm[j] {
        assert Names(a)[perm[i]] != Names(a)[perm[j]];
      } else {
        assert Names(a)[perm[j]] != Names(a)[perm[i]];
      }
    }
    forall x | x in Names(a) ensures x in Names(b) && x in NameSet(b) {
      var i :| 0 <= i < |a.cols| && Names(a)[i] == x;
      assert i in perm;
      var t :| 0 <= t < |perm| && perm[t] == i;
      assert Names(b)[t] == x;
    }
    forall x | x in NameSet(a) ensures x in Names(a) {
      var i :| 0 <= i < |a.cols| && a.cols[i].name == x;
      assert Names(a)[i] == x;
    }
    forall x | x in Names(b) ensures x in Names(a) && x in NameSet(a) {
      var t :| 0 <= t < |b.cols| && Names(b)[t] == x;
      assert Names(a)[perm[t]] == x;
    }
  }

  /** Under a reordering of columns with distinct names, a name finds the
      column it found before, at its new position. */
  lemma ColumnsPermutedIndexOf(a: Frame, b: Frame, perm: seq<nat>, x: string)
    requires ColumnsPermuted(a, b, perm) && Distinct(Names(a))
    ensures match IndexOf(b.cols, x)
      case None => IndexOf(a.cols, x).None?
      case Some(j) => IndexOf(a.cols, x) == Some(perm[j])
  {
    match IndexOf(b.cols, x)
    case Some(j) =>
      forall i | 0 <= i < perm[j] ensures a.cols[i].name != x {
        assert Names(a)[i] != Names(a)[perm[j]];
      }
      IndexOfAt(a.cols, x, perm[j]);
    case None =>
      forall i | 0 <= i < |a.cols| ensures a.cols[i].name != x {
        assert i in perm;
        var t :| 0 <= t < |perm| && perm[t] == i;
        assert b.cols[t] == a.cols[i];
      }
  }

  /** Lookups by name do not see the column order: dtypes and key rows agree. */
  lemma ColumnsPermutedLookup(a: Frame, b: Frame, perm: seq<nat>, keys: seq<string>)
    requires ColumnsPermuted(a, b, perm) && Distinct(Names(a))
    ensures forall x :: DtypeOf(b, x) == DtypeOf(a, x)
    ensures forall r :: KeyRow(b, keys, r) == KeyRow(a, keys, r)
    ensures KeyRowSet(b, keys) == KeyRowSet(a, keys)
  {
    forall x ensures DtypeOf(b, x) == DtypeOf(a, x) {
      ColumnsPermutedIndexOf(a, b, perm, x);
    }
    forall r ensures KeyRow(b, keys, r) == KeyRow(a, keys, r) {
      forall j | 0 <= j < |keys| ensures KeyRow(b, keys, r)[j] == KeyRow(a, keys, r)[j] {
        ColumnsPermutedIndexOf(a, b, perm, keys[j]);
      }
    }
  }

  /** `series.round(4)` of one whole column. */
  function Rounded(sem: Semantics, c: Column): (r: Column)
    ensures r.name == c.name && r.dtype == c.dtype && |r.values| == |c.values|
  {
    Column(c.name, c.dtype, RoundValues(sem, c.values))
  }

  /** In a frame without duplicate names, rounding by name rounds exactly
      the column of that name. */
  lemma RoundColumnAt(sem: Semantics, f: Frame, x: string, k: nat)
    requires Distinct(Names(f)) && k < |f.cols|
    ensures RoundColumn(sem, f, x).cols[k] == if f.cols[k].name == x then Rounded(sem, f.cols[k]) else f.cols[k]
  {
    match IndexOf(f.cols, x)
    case None =>
    case Some(j) =>
      if j != k {
        assert Names(f)[j] != Names(f)[k];
      }
  }
}
