/** Concrete tables on which `eval_execution_accuracy` shows two behaviours
    of the code as written: a cast tried on a rejected candidate stays in
    the gold frame, and the first-fit alignment never revisits a choice. */
module OracleExamples {
  import opened Wrappers
  import opened Frames
  import opened Oracle

  /** Casting a float to an integer dtype truncates it toward zero; an
      integer cast to float becomes that float; every other cast keeps the value. */
  function TruncatingCast(c: Cell, t: Dtype): Option<Cell>
  {
    match (c, t)
    case (Float(x), Int64) => Some(Int(if x >= 0.0 then x.Floor else -((-x).Floor)))
    case (Int(i), Float64) => Some(Float(i as real))
    case _ => Some(c)
  }

  /** Library behaviour for the examples: rounding and `to_numeric` are the
      identity and different dtypes never merge. */
  const Lossy: Semantics := Semantics(
    (vals: seq<Cell>) => Object,
    (c: Cell, t: Dtype) => TruncatingCast(c, t),
    (c: Cell) => c,
    (c: Cell) => c,
    (a: Dtype, b: Dtype) => false,
    (a: Cell, b: Cell) => a == b)

  lemma CastSingle(sem: Semantics, c: Cell, t: Dtype, d: Cell)
    requires sem.cast(c, t) == Some(d)
    ensures CastValues(sem, [c], t) == Some([d])
  {
    assert [c][0] == c;
    var r := CastValues(sem, [c], t);
    assert r.Some? && |r.value| == 1 && sem.cast([c][0], t) == Some(r.value[0]);
    assert r.value == [d];
  }

  lemma NameSetTwo(f: Frame)
    requires |f.cols| == 2
    ensures NameSet(f) == {f.cols[0].name, f.cols[1].name}
  {
    assert f.cols[0].name in NameSet(f);
    assert f.cols[1].name in NameSet(f);
  }

  /** A one-row gold table: "g1" holds the float 1.5 and "g2" the integer 7. */
  const MixedGold: Frame := Frame(1, [Column("g1", Float64, [Float(1.5)]), Column("g2", Int64, [Int(7)])])

  /** The prediction holds the same two values under other names, "a"
      (integer 7) before "b" (float 1.5). */
  const IntThenFloat: Frame := Frame(1, [Column("a", Int64, [Int(7)]), Column("b", Float64, [Float(1.5)])])

  /** The same prediction with its two columns in the other order. */
  const FloatThenInt: Frame := Frame(1, [Column("b", Float64, [Float(1.5)]), Column("a", Int64, [Int(7)])])

  /** The gold table once "g1" has been cast to the integer dtype of "a". */
  const AfterA: Frame := Frame(1, [Column("g1", Int64, [Int(1)]), Column("g2", Int64, [Int(7)])])
  /** ... and then back to the float dtype of "b". */
  const AfterB: Frame := Frame(1, [Column("g1", Float64, [Float(1.0)]), Column("g2", Int64, [Int(7)])])

  /** A candidate of a non-float dtype whose cast succeeds but whose values
      differ is passed over, and the cast gold frame is carried on. */
  lemma CastKeptOnRejection(sem: Semantics, target: Frame, col: string, gold: Frame, pred: Frame,
                            cands: seq<string>, t: Dtype, g1: Frame)
    requires cands != [] && DtypeOf(pred, cands[0]) == Some(t) && DtypeOf(target, cands[0]) == Some(t)
    requires t != Float64 && AsType(sem, gold, col, t) == Some(g1)
    requires ValueSet(g1, col) != ValueSet(pred, cands[0])
    ensures TryCandidates(sem, target, col, gold, pred, cands) == TryCandidates(sem, target, col, g1, pred, cands[1..])
  {
  }

  /** The cast of "g1" to the integer dtype of "a" truncates 1.5 to 1. */
  lemma CastA()
    ensures AsType(Lossy, MixedGold, "g1", Int64) == Some(AfterA)
  {
    assert Lossy.cast(Float(1.5), Int64) == Some(Int(1));
    CastSingle(Lossy, Float(1.5), Int64, Int(1));
    assert IndexOf(MixedGold.cols, "g1") == Some(0);
    assert MixedGold.cols[0 := Column("g1", Int64, [Int(1)])] == AfterA.cols;
  }

  /** After the cast, "g1" holds 1 and "a" holds 7. */
  lemma DifferA()
    ensures ValueSet(AfterA, "g1") != ValueSet(IntThenFloat, "a")
  {
    assert IndexOf(AfterA.cols, "g1") == Some(0);
    assert IndexOf(IntThenFloat.cols, "a") == Some(0);
    assert ValueSet(AfterA, "g1") == {Int(1)};
    assert ValueSet(IntThenFloat, "a") == {Int(7)};
  }

  /** Candidate "a" for "g1" is rejected, and the truncating cast stays. */
  lemma TryA()
    ensures TryCandidates(Lossy, IntThenFloat, "g1", MixedGold, IntThenFloat, ["a", "b"])
         == TryCandidates(Lossy, IntThenFloat, "g1", AfterA, IntThenFloat, ["b"])
  {
    assert IndexOf(IntThenFloat.cols, "a") == Some(0);
    assert DtypeOf(IntThenFloat, "a") == Some(Int64);
    CastA();
    DifferA();
    assert ["a", "b"][0] == "a" && ["a", "b"][1..] == ["b"];
    CastKeptOnRejection(Lossy, IntThenFloat, "g1", MixedGold, IntThenFloat, ["a", "b"], Int64, AfterA);
  }

  /** Candidate "b": "g1" now holds 1.0, which is not 1.5. */
  lemma TryB()
    ensures TryCandidates(Lossy, IntThenFloat, "g1", AfterA, IntThenFloat, ["b"]).found == None
  {
    assert Lossy.cast(Int(1), Float64) == Some(Float(1.0));
    CastSingle(Lossy, Int(1), Float64, Float(1.0));
    assert IndexOf(AfterA.cols, "g1") == Some(0);
    assert IndexOf(AfterB.cols, "g1") == Some(0);
    assert IndexOf(IntThenFloat.cols, "b") == Some(1);
    assert AfterA.cols[0 := Column("g1", Float64, [Float(1.0)])] == AfterB.cols;
    assert AsType(Lossy, AfterA, "g1", Float64) == Some(AfterB);
    RoundingKeepsB();
    assert ValueSet(AfterB, "g1") == {Float(1.0)};
    assert ValueSet(IntThenFloat, "b") == {Float(1.5)};
    assert Float(1.0) !in {Float(1.5)};
    assert ["b"][1..] == [];
  }

  /** Rounding to four places changes neither float column. */
  lemma RoundingKeepsB()
    ensures RoundColumn(Lossy, AfterB, "g1") == AfterB
    ensures RoundColumn(Lossy, IntThenFloat, "b") == IntThenFloat
  {
    assert IndexOf(AfterB.cols, "g1") == Some(0);
    assert IndexOf(IntThenFloat.cols, "b") == Some(1);
    assert RoundValues(Lossy, [Float(1.0)]) == [Float(1.0)];
    assert RoundValues(Lossy, [Float(1.5)]) == [Float(1.5)];
    assert AfterB.cols[0 := Column("g1", Float64, [Float(1.0)])] == AfterB.cols;
    assert IntThenFloat.cols[1 := Column("b", Float64, [Float(1.5)])] == IntThenFloat.cols;
  }

  /** "g1" finds no candidate, so the alignment gives up. */
  lemma AlignRejects()
    ensures AlignColumns(Lossy, IntThenFloat, ["g1", "g2"], MixedGold, IntThenFloat, ["a", "b"]) == None
  {
    TryA();
    TryB();
  }

  /** Casting "g1" to the float dtype and rounding it leaves the gold table as it is. */
  lemma FloatCastKeepsGold()
    ensures AsType(Lossy, MixedGold, "g1", Float64) == Some(MixedGold)
    ensures RoundColumn(Lossy, MixedGold, "g1") == MixedGold
  {
    assert IndexOf(MixedGold.cols, "g1") == Some(0);
    assert Lossy.cast(Float(1.5), Float64) == Some(Float(1.5));
    CastSingle(Lossy, Float(1.5), Float64, Float(1.5));
    assert RoundValues(Lossy, [Float(1.5)]) == [Float(1.5)];
    assert MixedGold.cols[0 := Column("g1", Float64, [Float(1.5)])] == MixedGold.cols;
  }

  /** Against the gold table as it was on entry, "b" is accepted for "g1". */
  lemma FloatAloneAccepted()
    ensures TryCandidates(Lossy, IntThenFloat, "g1", MixedGold, IntThenFloat, ["b"]).found == Some("b")
  {
    FloatCastKeepsGold();
    assert IndexOf(IntThenFloat.cols, "b") == Some(1);
    assert IntThenFloat.cols[1 := Column("b", Float64, [Float(1.5)])] == IntThenFloat.cols;
    assert RoundColumn(Lossy, IntThenFloat, "b") == IntThenFloat;
    assert ValueSet(MixedGold, "g1") == {Float(1.5)};
    assert ValueSet(IntThenFloat, "b") == {Float(1.5)};
  }

  /** With the pool in the order ("b", "a"), "g1" takes "b" at once. */
  const FloatRenamed: Frame := Frame(1, [Column("g1", Float64, [Float(1.5)]), Column("a", Int64, [Int(7)])])

  lemma FloatFirstStep()
    ensures TryCandidates(Lossy, FloatThenInt, "g1", MixedGold, FloatThenInt, ["b", "a"])
         == Attempt(MixedGold, FloatRenamed, Some("b"))
  {
    FloatCastKeepsGold();
    assert IndexOf(FloatThenInt.cols, "b") == Some(0);
    assert FloatThenInt.cols[0 := Column("b", Float64, [Float(1.5)])] == FloatThenInt.cols;
    assert RoundColumn(Lossy, FloatThenInt, "b") == FloatThenInt;
    assert ValueSet(MixedGold, "g1") == {Float(1.5)};
    assert ValueSet(FloatThenInt, "b") == {Float(1.5)};
    assert Rename(FloatThenInt, "b", "g1") == FloatRenamed;
  }

  /** Casting "g2" to the integer dtype leaves the gold table as it is. */
  lemma IntCastKeepsGold()
    ensures AsType(Lossy, MixedGold, "g2", Int64) == Some(MixedGold)
    ensures IndexOf(MixedGold.cols, "g2") == Some(1)
  {
    assert IndexOf(MixedGold.cols, "g2") == Some(1);
    assert Lossy.cast(Int(7), Int64) == Some(Int(7));
    CastSingle(Lossy, Int(7), Int64, Int(7));
    assert MixedGold.cols[1 := Column("g2", Int64, [Int(7)])] == MixedGold.cols;
  }

  /** "g2" then takes "a", and the renamed prediction is the gold table. */
  lemma FloatSecondStep()
    ensures TryCandidates(Lossy, FloatThenInt, "g2", MixedGold, FloatRenamed, ["a"])
         == Attempt(MixedGold, MixedGold, Some("a"))
  {
    assert IndexOf(FloatRenamed.cols, "a") == Some(1);
    assert IndexOf(FloatThenInt.cols, "a") == Some(1);
    IntCastKeepsGold();
    assert ValueSet(MixedGold, "g2") == {Int(7)};
    assert ValueSet(FloatRenamed, "a") == {Int(7)};
    assert Rename(FloatRenamed, "a", "g2") == MixedGold;
  }

  lemma FloatFirstAlign()
    ensures AlignColumns(Lossy, FloatThenInt, ["g1", "g2"], MixedGold, FloatThenInt, ["b", "a"]) == Some((MixedGold, MixedGold, []))
  {
    FloatFirstStep();
    FloatSecondStep();
    assert RemoveFirst(["b", "a"], "b") == ["a"];
    assert RemoveFirst(["a"], "a") == [];
    assert ["g1", "g2"][1..] == ["g2"];
    assert ["g2"][1..] == [];
  }

  lemma WithoutNothing(xs: seq<string>)
    ensures Without(xs, {}) == xs
  {
    if xs != [] {
      WithoutNothing(xs[1..]);
      assert [xs[0]] + xs[1..] == xs;
    }
  }

  /** With no name in common, the verdict is the alignment's alone. */
  lemma DisjointVerdict(sem: Semantics, pred: Frame, gold: Frame)
    requires NameSet(gold) * NameSet(pred) == {} && NameSet(gold) != NameSet(pred)
    ensures var r := AlignColumns(sem, pred, Names(gold), gold, pred, Names(pred));
      ExecutionAccuracy(sem, pred, gold) == (r.Some? && r.value.2 == [] && RowsMatch(sem, r.value.0, r.value.1))
  {
    WithoutNothing(Names(gold));
    WithoutNothing(Names(pred));
  }

  /** The gold table and every table with the names "a" and "b" share no name. */
  lemma MixedNamesApart(pred: Frame)
    requires |pred.cols| == 2 && pred.cols[0].name in ["a", "b"] && pred.cols[1].name in ["a", "b"]
    ensures NameSet(MixedGold) * NameSet(pred) == {} && NameSet(MixedGold) != NameSet(pred)
    ensures Names(MixedGold) == ["g1", "g2"]
  {
    NameSetTwo(MixedGold);
    NameSetTwo(pred);
    assert "g1" in NameSet(MixedGold) && "g1" !in NameSet(pred);
  }

  lemma MixedRowsMatchItself()
    ensures RowsMatch(Lossy, MixedGold, MixedGold)
  {
    assert Names(MixedGold) == ["g1", "g2"];
    assert IndexOf(MixedGold.cols, "g1") == Some(0);
    assert IndexOf(MixedGold.cols, "g2") == Some(1);
  }

  /** Trying "b" first, the prediction is judged equal. */
  lemma FloatFirstMatches()
    ensures ExecutionAccuracy(Lossy, FloatThenInt, MixedGold)
  {
    MixedNamesApart(FloatThenInt);
    assert Names(FloatThenInt) == ["b", "a"];
    DisjointVerdict(Lossy, FloatThenInt, MixedGold);
    FloatFirstAlign();
    MixedRowsMatchItself();
  }

  /** Trying "a" first, the prediction is judged different. */
  lemma IntFirstRejected()
    ensures !ExecutionAccuracy(Lossy, IntThenFloat, MixedGold)
  {
    MixedNamesApart(IntThenFloat);
    assert Names(IntThenFloat) == ["a", "b"];
    DisjointVerdict(Lossy, IntThenFloat, MixedGold);
    AlignRejects();
  }

  lemma FloatFirstIsPermuted()
    ensures IsPermutation([1, 0], |IntThenFloat.cols|)
    ensures FloatThenInt == PermuteColumns(IntThenFloat, [1, 0])
  {
    assert forall r :: 0 <= r < 2 ==> r in [1, 0];
    var q := PermuteColumns(IntThenFloat, [1, 0]);
    assert q.cols[0] == IntThenFloat.cols[1] && q.cols[1] == IntThenFloat.cols[0];
    assert q.cols == FloatThenInt.cols;
  }

  /** Two tables of the same width and the same values. "b" alone is accepted
      for "g1", but trying "a" first casts the gold 1.5 to the integer 1, that
      cast is kept when "a" is rejected, and "b" then sees 1.0: the tables
      are judged different. With the prediction's columns in the other order
      "a" is never tried for "g1", and the tables are judged equal. */
  lemma CastPersistsAfterRejection()
    ensures |IntThenFloat.cols| == |MixedGold.cols|
    ensures TryCandidates(Lossy, IntThenFloat, "g1", MixedGold, IntThenFloat, ["b"]).found == Some("b")
    ensures TryCandidates(Lossy, IntThenFloat, "g1", MixedGold, IntThenFloat, ["a", "b"]).found == None
    ensures !ExecutionAccuracy(Lossy, IntThenFloat, MixedGold)
    ensures IsPermutation([1, 0], |IntThenFloat.cols|)
    ensures ExecutionAccuracy(Lossy, PermuteColumns(IntThenFloat, [1, 0]), MixedGold)
  {
    FloatAloneAccepted();
    TryA();
    TryB();
    IntFirstRejected();
    FloatFirstIsPermuted();
    FloatFirstMatches();
  }

  function Ints(xs: seq<int>): seq<Cell>
  {
    seq(|xs|, i requires 0 <= i < |xs| => Int(xs[i]))
  }

  /** Gold: g1 = 1,2,1 and g2 = 1,2,2. */
  const TwoGold: Frame := Frame(3, [Column("g1", Int64, Ints([1, 2, 1])), Column("g2", Int64, Ints([1, 2, 2]))])

  /** Prediction: the same table with the columns swapped and renamed. */
  const TwoPred: Frame := Frame(3, [Column("p1", Int64, Ints([1, 2, 2])), Column("p2", Int64, Ints([1, 2, 1]))])

  /** The greedy alignment: "p1" goes to "g1" and "p2" to "g2". */
  const GreedyPred: Frame := Frame(3, [Column("g1", Int64, Ints([1, 2, 2])), Column("g2", Int64, Ints([1, 2, 1]))])

  /** The renaming that does hold: "p1" is "g2" and "p2" is "g1". */
  const SwappedPred: Frame := Frame(3, [Column("g2", Int64, Ints([1, 2, 2])), Column("g1", Int64, Ints([1, 2, 1]))])

  lemma KeyRowSetThree(f: Frame, keys: seq<string>)
    requires f.nrows == 3
    ensures KeyRowSet(f, keys) == {KeyRow(f, keys, 0), KeyRow(f, keys, 1), KeyRow(f, keys, 2)}
  {
  }

  lemma CastKeepsInts(xs: seq<int>)
    ensures CastValues(Lossy, Ints(xs), Int64) == Some(Ints(xs))
  {
    var r := CastValues(Lossy, Ints(xs), Int64);
    assert forall i :: 0 <= i < |xs| ==> Lossy.cast(Ints(xs)[i], Int64) == Some(Ints(xs)[i]);
    assert r.value == Ints(xs);
  }

  lemma ValueSetOneTwo(f: Frame, name: string, k: nat, xs: seq<int>)
    requires k < |f.cols| && IndexOf(f.cols, name) == Some(k) && f.cols[k].values == Ints(xs)
    requires |xs| == 3 && xs[0] == 1 && xs[1] == 2 && (xs[2] == 1 || xs[2] == 2)
    ensures ValueSet(f, name) == {Int(1), Int(2)}
  {
    assert Ints(xs)[0] == Int(1) && Ints(xs)[1] == Int(2);
  }

  /** "g1" takes the first candidate with its value set, "p1". */
  lemma GreedyFirstStep()
    ensures TryCandidates(Lossy, TwoPred, "g1", TwoGold, TwoPred, ["p1", "p2"])
         == Attempt(TwoGold, Rename(TwoPred, "p1", "g1"), Some("p1"))
  {
    assert IndexOf(TwoGold.cols, "g1") == Some(0);
    assert IndexOf(TwoPred.cols, "p1") == Some(0);
    CastKeepsInts([1, 2, 1]);
    assert TwoGold.cols[0 := Column("g1", Int64, Ints([1, 2, 1]))] == TwoGold.cols;
    assert AsType(Lossy, TwoGold, "g1", Int64) == Some(TwoGold);
    ValueSetOneTwo(TwoGold, "g1", 0, [1, 2, 1]);
    ValueSetOneTwo(TwoPred, "p1", 0, [1, 2, 2]);
  }

  /** "g2" then takes the only candidate left, "p2". */
  lemma GreedySecondStep()
    ensures TryCandidates(Lossy, TwoPred, "g2", TwoGold, Rename(TwoPred, "p1", "g1"), ["p2"])
         == Attempt(TwoGold, GreedyPred, Some("p2"))
  {
    var p1 := Rename(TwoPred, "p1", "g1");
    assert p1 == Frame(3, [Column("g1", Int64, Ints([1, 2, 2])), Column("p2", Int64, Ints([1, 2, 1]))]);
    assert IndexOf(TwoGold.cols, "g2") == Some(1);
    assert IndexOf(p1.cols, "p2") == Some(1);
    assert IndexOf(TwoPred.cols, "p2") == Some(1);
    CastKeepsInts([1, 2, 2]);
    assert TwoGold.cols[1 := Column("g2", Int64, Ints([1, 2, 2]))] == TwoGold.cols;
    assert AsType(Lossy, TwoGold, "g2", Int64) == Some(TwoGold);
    ValueSetOneTwo(TwoGold, "g2", 1, [1, 2, 2]);
    ValueSetOneTwo(p1, "p2", 1, [1, 2, 1]);
    assert Rename(p1, "p2", "g2") == GreedyPred;
  }

  /** After the greedy alignment the row (1, 2) of the gold table has no
      partner: the prediction has (2, 1) instead. */
  lemma GreedyRowsDiffer()
    ensures !RowsMatch(Lossy, TwoGold, GreedyPred)
  {
    var keys := ["g1", "g2"];
    assert Names(TwoGold) == keys;
    KeyRowSetThree(TwoGold, keys);
    KeyRowSetThree(GreedyPred, keys);
    assert IndexOf(GreedyPred.cols, "g1") == Some(0);
    assert IndexOf(GreedyPred.cols, "g2") == Some(1);
    assert IndexOf(TwoGold.cols, "g1") == Some(0);
    assert IndexOf(TwoGold.cols, "g2") == Some(1);
    var missing := [Int(1), Int(2)];
    assert KeyRow(TwoGold, keys, 2) == missing;
    assert KeyRow(GreedyPred, keys, 0) == [Int(1), Int(1)];
    assert KeyRow(GreedyPred, keys, 1) == [Int(2), Int(2)];
    assert KeyRow(GreedyPred, keys, 2) == [Int(2), Int(1)];
    assert missing !in KeyRowSet(GreedyPred, keys);
  }

  /** First-fit never revisits a choice: the prediction is the gold table
      with its columns swapped and renamed, yet it is judged different. */
  lemma GreedyAlignmentMissesSwap()
    ensures !ExecutionAccuracy(Lossy, TwoPred, TwoGold)
    ensures ExecutionAccuracy(Lossy, SwappedPred, TwoGold)
  {
    NameSetTwo(TwoGold);
    NameSetTwo(TwoPred);
    assert NameSet(TwoGold) * NameSet(TwoPred) == {};
    assert Names(TwoGold) == ["g1", "g2"];
    assert Names(TwoPred) == ["p1", "p2"];
    DisjointVerdict(Lossy, TwoPred, TwoGold);
    GreedyAlign();
    GreedyRowsDiffer();
    SwappedMatches();
  }

  /** The alignment pairs "p1" with "g1" and "p2" with "g2". */
  lemma GreedyAlign()
    ensures AlignColumns(Lossy, TwoPred, ["g1", "g2"], TwoGold, TwoPred, ["p1", "p2"]) == Some((TwoGold, GreedyPred, []))
  {
    GreedyFirstStep();
    GreedySecondStep();
    assert RemoveFirst(["p1", "p2"], "p1") == ["p2"];
    assert RemoveFirst(["p2"], "p2") == [];
    assert ["g1", "g2"][1..] == ["g2"];
    assert ["g2"][1..] == [];
  }

  lemma SwappedCast()
    ensures CastAll(Lossy, TwoGold, DtypeMap(SwappedPred.cols)) == Some(TwoGold)
  {
    NameSetTwo(TwoGold);
    var m := DtypeMap(SwappedPred.cols);
    assert m == map["g2" := Int64, "g1" := Int64] by {
      assert SwappedPred.cols[..1] == [SwappedPred.cols[0]];
      assert SwappedPred.cols[..1][..0] == [];
    }
    CastKeepsInts([1, 2, 1]);
    CastKeepsInts([1, 2, 2]);
    assert TwoGold.cols[0] == Column("g1", Int64, Ints([1, 2, 1]));
    assert TwoGold.cols[1] == Column("g2", Int64, Ints([1, 2, 2]));
    var c := CastColumns(Lossy, TwoGold.cols, m).value;
    assert c == TwoGold.cols;
  }

  lemma SwappedRound()
    ensures RoundFloats(Lossy, Names(SwappedPred), TwoGold, SwappedPred) == (TwoGold, SwappedPred)
  {
    assert IndexOf(SwappedPred.cols, "g2") == Some(0);
    assert IndexOf(SwappedPred.cols, "g1") == Some(1);
    assert Names(SwappedPred) == ["g2", "g1"];
    assert ["g2", "g1"][1..] == ["g1"];
  }

  lemma SwappedRows()
    ensures RowsMatch(Lossy, TwoGold, SwappedPred)
  {
    var keys := ["g1", "g2"];
    assert Names(TwoGold) == keys;
    assert IndexOf(SwappedPred.cols, "g2") == Some(0);
    assert IndexOf(SwappedPred.cols, "g1") == Some(1);
    assert IndexOf(TwoGold.cols, "g1") == Some(0);
    assert IndexOf(TwoGold.cols, "g2") == Some(1);
    KeyRowSetThree(TwoGold, keys);
    KeyRowSetThree(SwappedPred, keys);
    assert KeyRow(TwoGold, keys, 0) == KeyRow(SwappedPred, keys, 0);
    assert KeyRow(TwoGold, keys, 1) == KeyRow(SwappedPred, keys, 1);
    assert KeyRow(TwoGold, keys, 2) == KeyRow(SwappedPred, keys, 2);
  }

  /** With the same names, the verdict is the merge after the casts and the rounding. */
  lemma SameNamesVerdict(sem: Semantics, pred: Frame, gold: Frame, g: Frame)
    requires NameSet(gold) == NameSet(pred) && CastAll(sem, gold, DtypeMap(pred.cols)) == Some(g)
    ensures var (g2, p2) := RoundFloats(sem, Names(pred), g, pred);
      ExecutionAccuracy(sem, pred, gold) == RowsMatch(sem, g2, p2)
  {
  }

  lemma SwappedMatches()
    ensures ExecutionAccuracy(Lossy, SwappedPred, TwoGold)
  {
    NameSetTwo(TwoGold);
    NameSetTwo(SwappedPred);
    SwappedCast();
    SameNamesVerdict(Lossy, SwappedPred, TwoGold, TwoGold);
    SwappedRound();
    SwappedRows();
  }

  /** The prediction of `GreedyAlignmentMissesSwap` with its two columns
      swapped and its names kept. */
  const ReorderedPred: Frame := Frame(3, [Column("p2", Int64, Ints([1, 2, 1])), Column("p1", Int64, Ints([1, 2, 2]))])

  /** "g1" now meets "p2" first, and takes it. */
  lemma ReorderedFirstStep()
    ensures TryCandidates(Lossy, ReorderedPred, "g1", TwoGold, ReorderedPred, ["p2", "p1"])
         == Attempt(TwoGold, Rename(ReorderedPred, "p2", "g1"), Some("p2"))
  {
    assert IndexOf(TwoGold.cols, "g1") == Some(0);
    assert IndexOf(ReorderedPred.cols, "p2") == Some(0);
    CastKeepsInts([1, 2, 1]);
    assert TwoGold.cols[0 := Column("g1", Int64, Ints([1, 2, 1]))] == TwoGold.cols;
    assert AsType(Lossy, TwoGold, "g1", Int64) == Some(TwoGold);
    ValueSetOneTwo(TwoGold, "g1", 0, [1, 2, 1]);
    ValueSetOneTwo(ReorderedPred, "p2", 0, [1, 2, 1]);
  }

  /** "g2" takes "p1", and the renamed prediction is the gold table. */
  lemma ReorderedSecondStep()
    ensures TryCandidates(Lossy, ReorderedPred, "g2", TwoGold, Rename(ReorderedPred, "p2", "g1"), ["p1"])
         == Attempt(TwoGold, TwoGold, Some("p1"))
  {
    var p1 := Rename(ReorderedPred, "p2", "g1");
    assert p1 == Frame(3, [Column("g1", Int64, Ints([1, 2, 1])), Column("p1", Int64, Ints([1, 2, 2]))]);
    assert IndexOf(TwoGold.cols, "g2") == Some(1);
    assert IndexOf(p1.cols, "p1") == Some(1);
    assert IndexOf(ReorderedPred.cols, "p1") == Some(1);
    CastKeepsInts([1, 2, 2]);
    assert TwoGold.cols[1 := Column("g2", Int64, Ints([1, 2, 2]))] == TwoGold.cols;
    assert AsType(Lossy, TwoGold, "g2", Int64) == Some(TwoGold);
    ValueSetOneTwo(TwoGold, "g2", 1, [1, 2, 2]);
    ValueSetOneTwo(p1, "p1", 1, [1, 2, 2]);
    assert Rename(p1, "p1", "g2") == TwoGold;
  }

  lemma GoldRowsMatchItself()
    ensures RowsMatch(Lossy, TwoGold, TwoGold)
  {
    var keys := ["g1", "g2"];
    assert Names(TwoGold) == keys;
    assert IndexOf(TwoGold.cols, "g1") == Some(0);
    assert IndexOf(TwoGold.cols, "g2") == Some(1);
  }

  lemma ReorderedAlignSecond()
    ensures AlignColumns(Lossy, ReorderedPred, ["g2"], TwoGold, Rename(ReorderedPred, "p2", "g1"), ["p1"]) == Some((TwoGold, TwoGold, []))
  {
    ReorderedSecondStep();
    assert RemoveFirst(["p1"], "p1") == [];
    assert ["g2"][1..] == [];
  }

  /** The alignment pairs "p2" with "g1" and "p1" with "g2". */
  lemma ReorderedAlign()
    ensures AlignColumns(Lossy, ReorderedPred, ["g1", "g2"], TwoGold, ReorderedPred, ["p2", "p1"]) == Some((TwoGold, TwoGold, []))
  {
    ReorderedFirstStep();
    ReorderedAlignSecond();
    assert RemoveFirst(["p2", "p1"], "p2") == ["p1"];
    assert ["g1", "g2"][1..] == ["g2"];
  }

  /** The reordered prediction is judged equal. */
  lemma ReorderedMatches()
    ensures ExecutionAccuracy(Lossy, ReorderedPred, TwoGold)
  {
    NameSetTwo(TwoGold);
    NameSetTwo(ReorderedPred);
    assert NameSet(TwoGold) * NameSet(ReorderedPred) == {};
    assert Names(TwoGold) == ["g1", "g2"];
    assert Names(ReorderedPred) == ["p2", "p1"];
    assert Without(["g1", "g2"], {}) == ["g1", "g2"];
    assert Without(["p2", "p1"], {}) == ["p2", "p1"];
    ReorderedAlign();
    GoldRowsMatchItself();
  }

  lemma ReorderedIsPermuted()
    ensures IsPermutation([1, 0], |TwoPred.cols|)
    ensures ReorderedPred == PermuteColumns(TwoPred, [1, 0])
  {
    assert forall r :: 0 <= r < 2 ==> r in [1, 0];
    var q := PermuteColumns(TwoPred, [1, 0]);
    assert q.cols[0] == TwoPred.cols[1] && q.cols[1] == TwoPred.cols[0];
    assert q.cols == ReorderedPred.cols;
  }

  /** When the names differ, the first-fit alignment makes the verdict depend
      on column order: the mis-judged prediction of `GreedyAlignmentMissesSwap`
      is judged equal once its two columns trade places. */
  lemma ColumnOrderMattersWhenRenamed()
    ensures IsPermutation([1, 0], |TwoPred.cols|)
    ensures ExecutionAccuracy(Lossy, PermuteColumns(TwoPred, [1, 0]), TwoGold)
    ensures !ExecutionAccuracy(Lossy, TwoPred, TwoGold)
  {
    ReorderedIsPermuted();
    ReorderedMatches();
    GreedyAlignmentMissesSwap();
  }
}
