/** The aggregate comparison of executed benchmark results
    (ppl/eval_ppl/compare_results.py): every ground-truth sample is zipped with
    the evaluated sample at the same position, each pair is classified as a
    match or as one kind of mismatch, and the counts and rates are gathered. */
module CompareResults {
  import opened Wrappers
  import opened Json
  import RunPpl

  /** The "error" kind of a mismatched query. */
  datatype Label = SyntaxError | DataMismatch | LengthMismatch

  /** The extra fields of a data or length mismatch entry. */
  datatype Detail = Detail(question: Json, targetIndex: Json, results: Json)

  /** One entry of `mismatched_queries`. */
  datatype Mismatch = Mismatch(error: Label, now: Json, groundTruthQuery: Json, evalQuery: Json, detail: Option<Detail>)

  /** What one zipped pair contributes. */
  datatype Outcome = Matched | Mismatched(m: Mismatch)

  predicate IsErrorSample(ev: Record)
  {
    "data_rows" in ev && ev["data_rows"] == RunPpl.ErrorSentinel
  }

  /** The guard `len(gt_rows) < 10 and len(gt_rows[0]) < 5`, with the
      exceptions its two `len` calls and the index raise; the second
      conjunct is only evaluated when the first holds. */
  function ExactRule(g: Json): (r: Result<bool>)
    ensures g == JArr([]) ==> r == Failure(IndexError)
    ensures g.JArr? && |g.items| >= 10 ==> r == Success(false)
    ensures g.JArr? && 0 < |g.items| < 10 ==> r == (match Len(g.items[0]) case Success(w) => Success(w < 5) case Failure(e) => Failure(e))
    ensures r == Success(true) ==> Len(g).Success? && Len(g).value < 10
  {
    match Len(g)
    case Failure(e) => Failure(e)
    case Success(n) =>
      if n < 10 then
        match First(g)
        case Failure(e) => Failure(e)
        case Success(row) =>
          match Len(row)
          case Failure(e) => Failure(e)
          case Success(w) => Success(w < 5)
      else Success(false)
  }

  /** The keys a syntax-error entry reads (otherwise building it raises KeyError). */
  predicate HasEntryKeys(gt: Record, ev: Record)
  {
    "now" in gt && "query" in gt && "query" in ev
  }

  /** The keys a data or length mismatch entry reads. */
  predicate HasDetailKeys(gt: Record, ev: Record)
  {
    HasEntryKeys(gt, ev) && "question" in gt && "target_index" in gt
  }

  function DetailedEntry(kind: Label, gt: Record, ev: Record, results: Json): Result<Outcome>
  {
    if HasDetailKeys(gt, ev) then
      Success(Mismatched(Mismatch(kind, gt["now"], gt["query"], ev["query"], Some(Detail(gt["question"], gt["target_index"], results)))))
    else Failure(KeyError)
  }

  /** The classification of one zipped pair (the body of the first loop). */
  function Classify(gt: Record, ev: Record): (r: Result<Outcome>)
    // a sample without `data_rows` on the evaluated side raises
    ensures "data_rows" !in ev ==> r == Failure(KeyError)
    // the sentinel is a syntax error, whatever the ground truth holds
    ensures IsErrorSample(ev) ==>
      r == (if HasEntryKeys(gt, ev)
            then Success(Mismatched(Mismatch(SyntaxError, gt["now"], gt["query"], ev["query"], None)))
            else Failure(KeyError))
    // an empty ground-truth row list is indexed and raises
    ensures "data_rows" in ev && !IsErrorSample(ev) && "data_rows" in gt && gt["data_rows"] == JArr([]) ==>
      r == Failure(IndexError)
    // a small ground-truth table requires exact equality
    ensures "data_rows" in ev && !IsErrorSample(ev) && "data_rows" in gt && ExactRule(gt["data_rows"]) == Success(true) ==>
      r == (if gt["data_rows"] == ev["data_rows"] then Success(Matched)
            else DetailedEntry(DataMismatch, gt, ev, JArr([gt["data_rows"], ev["data_rows"]])))
    // any other ground-truth table only needs the same number of rows
    ensures "data_rows" in ev && !IsErrorSample(ev) && "data_rows" in gt && ExactRule(gt["data_rows"]) == Success(false) ==>
      r == (match Len(ev["data_rows"])
            case Failure(e) => Failure(e)
            case Success(m) =>
              var n := Len(gt["data_rows"]).value;
              if n == m then Success(Matched)
              else DetailedEntry(LengthMismatch, gt, ev, JArr([JNum(n as real), JNum(m as real)])))
    // what each kind means
    ensures r.Success? && r.value.Mismatched? ==> (r.value.m.error == SyntaxError <==> IsErrorSample(ev))
    ensures r.Success? && r.value.Mismatched? && r.value.m.error == DataMismatch ==>
      && "data_rows" in gt && ExactRule(gt["data_rows"]) == Success(true)
      && gt["data_rows"] != ev["data_rows"]
    ensures r.Success? && r.value.Mismatched? && r.value.m.error == LengthMismatch ==>
      && "data_rows" in gt && ExactRule(gt["data_rows"]) == Success(false)
      && Len(ev["data_rows"]).Success? && Len(gt["data_rows"]).value != Len(ev["data_rows"]).value
  {
    if "data_rows" !in ev then Failure(KeyError)
    else if ev["data_rows"] == RunPpl.ErrorSentinel then
      if HasEntryKeys(gt, ev)
      then Success(Mismatched(Mismatch(SyntaxError, gt["now"], gt["query"], ev["query"], None)))
      else Failure(KeyError)
    else if "data_rows" !in gt then Failure(KeyError)
    else
      var g := gt["data_rows"];
      var e := ev["data_rows"];
      match ExactRule(g)
      case Failure(x) => Failure(x)
      case Success(exact) =>
        if exact then
          if g == e then Success(Matched)
          else DetailedEntry(DataMismatch, gt, ev, JArr([g, e]))
        else
          match Len(e)
          case Failure(x) => Failure(x)
          case Success(m) =>
            var n := Len(g).value;
            if n == m then Success(Matched)
            else DetailedEntry(LengthMismatch, gt, ev, JArr([JNum(n as real), JNum(m as real)]))
  }

  /** The counters of the first loop. */
  datatype Tally = Tally(syntaxErrors: nat, matches: nat, mismatched: seq<Mismatch>)

  function Record1(t: Tally, o: Outcome): Tally
  {
    match o
    case Matched => t.(matches := t.matches + 1)
    case Mismatched(m) =>
      if m.error == SyntaxError then t.(syntaxErrors := t.syntaxErrors + 1, mismatched := t.mismatched + [m])
      else t.(mismatched := t.mismatched + [m])
  }

  /** The first loop over `zip(ground_truth, to_eval)`: it stops at the
      shorter list, and an exception in any pair ends the whole run. */
  function Scan(t: Tally, gts: seq<Record>, evs: seq<Record>): Result<Tally>
    decreases |gts|
  {
    if gts == [] || evs == [] then Success(t)
    else
      match Classify(gts[0], evs[0])
      case Failure(e) => Failure(e)
      case Success(o) => Scan(Record1(t, o), gts[1..], evs[1..])
  }

  /** The number of entries with `kind` (the second loop). */
  function CountLabel(ms: seq<Mismatch>, kind: Label): (n: nat)
    ensures n <= |ms|
  {
    if ms == [] then 0
    else CountLabel(ms[..|ms| - 1], kind) + (if ms[|ms| - 1].error == kind then 1 else 0)
  }

  /** The results dictionary. The rates are exact quotients. */
  datatype Summary = Summary(
    totalSamples: nat,
    syntaxErrorRate: real, matchRate: real, dataMismatchRate: real, lengthMismatchRate: real,
    syntaxErrors: nat, dataMismatches: nat, lengthMismatches: nat, matches: nat,
    mismatchedQueries: seq<Mismatch>)

  function Summarize(total: nat, t: Tally): Result<Summary>
  {
    if total == 0 then Failure(ZeroDivisionError)
    else
      var d := CountLabel(t.mismatched, DataMismatch);
      var l := CountLabel(t.mismatched, LengthMismatch);
      Success(Summary(total,
        t.syntaxErrors as real / total as real, t.matches as real / total as real,
        d as real / total as real, l as real / total as real,
        t.syntaxErrors, d, l, t.matches, t.mismatched))
  }

  /** What `compare_results` computes from the two loaded sample lists. */
  function CompareSpec(gts: seq<Record>, evs: seq<Record>): Result<Summary>
  {
    match Scan(Tally(0, 0, []), gts, evs)
    case Failure(e) => Failure(e)
    case Success(t) => Summarize(|gts|, t)
  }

  /** The second loop: counts the data and length mismatches among the entries. */
  method CountMismatches(ms: seq<Mismatch>) returns (dataMismatches: nat, lengthMismatches: nat)
    ensures dataMismatches == CountLabel(ms, DataMismatch)
    ensures lengthMismatches == CountLabel(ms, LengthMismatch)
  {
    dataMismatches, lengthMismatches := 0, 0;
    for i := 0 to |ms|
      invariant dataMismatches == CountLabel(ms[..i], DataMismatch)
      invariant lengthMismatches == CountLabel(ms[..i], LengthMismatch)
    {
      assert ms[..i + 1][..i] == ms[..i];
      if ms[i].error == DataMismatch {
        dataMismatches := dataMismatches + 1;
      } else if ms[i].error == LengthMismatch {
        lengthMismatches := lengthMismatches + 1;
      }
    }
    assert ms[..|ms|] == ms;
  }

  /** `compare_results` without the file I/O. */
  method Compare(groundTruth: seq<Record>, toEval: seq<Record>) returns (r: Result<Summary>)
    ensures r == CompareSpec(groundTruth, toEval)
  {
    var total := |groundTruth|;
    var syntaxErrors, matches := 0, 0;
    var mismatched: seq<Mismatch> := [];
    ghost var spec := Scan(Tally(0, 0, []), groundTruth, toEval);
    var n := if |groundTruth| < |toEval| then |groundTruth| else |toEval|;
    for i := 0 to n
      invariant Scan(Tally(syntaxErrors, matches, mismatched), groundTruth[i..], toEval[i..]) == spec
    {
      var outcome := Classify(groundTruth[i], toEval[i]);
      assert groundTruth[i..][0] == groundTruth[i] && groundTruth[i..][1..] == groundTruth[i + 1..];
      assert toEval[i..][0] == toEval[i] && toEval[i..][1..] == toEval[i + 1..];
      if outcome.Failure? {
        return Failure(outcome.error);
      }
      match outcome.value
      case Matched =>
        matches := matches + 1;
      case Mismatched(m) =>
        if m.error == SyntaxError {
          syntaxErrors := syntaxErrors + 1;
        }
        mismatched := mismatched + [m];
    }
    assert groundTruth[n..] == [] || toEval[n..] == [];
    var dataMismatches, lengthMismatches := CountMismatches(mismatched);
    if total == 0 {
      return Failure(ZeroDivisionError);
    }
    r := Success(Summary(total,
      syntaxErrors as real / total as real, matches as real / total as real,
      dataMismatches as real / total as real, lengthMismatches as real / total as real,
      syntaxErrors, dataMismatches, lengthMismatches, matches, mismatched));
  }

  // ---------------------------------------------------------------------------
  // The summary against an independent per-pair reference
  // ---------------------------------------------------------------------------

  /** The outcome of every zipped pair, in order, or the first exception. */
  function Outcomes(gts: seq<Record>, evs: seq<Record>): (r: Result<seq<Outcome>>)
    decreases |gts|
    ensures r.Success? ==> |r.value| == (if |gts| < |evs| then |gts| else |evs|)
    ensures r.Success? ==> forall k :: 0 <= k < |r.value| ==> Classify(gts[k], evs[k]) == Success(r.value[k])
  {
    if gts == [] || evs == [] then Success([])
    else
      match Classify(gts[0], evs[0])
      case Failure(e) => Failure(e)
      case Success(o) =>
        match Outcomes(gts[1..], evs[1..])
        case Failure(e) => Failure(e)
        case Success(os) => Success([o] + os)
  }

  /** The mismatch entries among the outcomes, in order. */
  function MismatchesOf(os: seq<Outcome>): (ms: seq<Mismatch>)
    ensures |ms| <= |os|
  {
    if os == [] then []
    else (match os[0] case Matched => [] case Mismatched(m) => [m]) + MismatchesOf(os[1..])
  }

  function CountMatched(os: seq<Outcome>): (n: nat)
    ensures n + |MismatchesOf(os)| == |os|
  {
    if os == [] then 0 else (if os[0].Matched? then 1 else 0) + CountMatched(os[1..])
  }

  /** The number of outcomes that are mismatches with `kind`. */
  function CountOutcome(os: seq<Outcome>, kind: Label): nat
  {
    if os == [] then 0
    else (if os[0].Mismatched? && os[0].m.error == kind then 1 else 0) + CountOutcome(os[1..], kind)
  }

  lemma CountLabelAppend(ms: seq<Mismatch>, more: seq<Mismatch>, kind: Label)
    ensures CountLabel(ms + more, kind) == CountLabel(ms, kind) + CountLabel(more, kind)
    decreases |more|
  {
    if more == [] {
      assert ms + more == ms;
    } else {
      var init := more[..|more| - 1];
      assert (ms + more)[..|ms + more| - 1] == ms + init;
      CountLabelAppend(ms, init, kind);
    }
  }

  lemma {:induction false} CountLabelOutcomes(os: seq<Outcome>, kind: Label)
    ensures CountLabel(MismatchesOf(os), kind) == CountOutcome(os, kind)
  {
    if os != [] {
      var head: seq<Mismatch> := match os[0] case Matched => [] case Mismatched(m) => [m];
      CountLabelOutcomes(os[1..], kind);
      CountLabelAppend(head, MismatchesOf(os[1..]), kind);
      if head != [] {
        assert head[..0] == [];
      }
    }
  }

  /** The first loop adds to its counters exactly what the per-pair outcomes say. */
  lemma {:induction false} ScanOutcomes(t: Tally, gts: seq<Record>, evs: seq<Record>)
    ensures Scan(t, gts, evs).Success? <==> Outcomes(gts, evs).Success?
    ensures Scan(t, gts, evs).Success? ==>
      var os := Outcomes(gts, evs).value;
      var u := Scan(t, gts, evs).value;
      && u.matches == t.matches + CountMatched(os)
      && u.syntaxErrors == t.syntaxErrors + CountOutcome(os, SyntaxError)
      && u.mismatched == t.mismatched + MismatchesOf(os)
    decreases |gts|
  {
    if gts != [] && evs != [] {
      var c := Classify(gts[0], evs[0]);
      if c.Success? {
        var o, t1 := c.value, Record1(t, c.value);
        assert Scan(t, gts, evs) == Scan(t1, gts[1..], evs[1..]);
        ScanOutcomes(t1, gts[1..], evs[1..]);
        var rest := Outcomes(gts[1..], evs[1..]);
        if rest.Success? {
          assert Outcomes(gts, evs) == Success([o] + rest.value);
          OutcomeCons(o, rest.value);
          Record1Counts(t, o, MismatchesOf(rest.value));
        }
      }
    }
  }

  /** What recording one outcome adds to the counters. */
  lemma Record1Counts(t: Tally, o: Outcome, ms: seq<Mismatch>)
    ensures Record1(t, o).matches == t.matches + (if o.Matched? then 1 else 0)
    ensures Record1(t, o).syntaxErrors == t.syntaxErrors + (if o.Mismatched? && o.m.error == SyntaxError then 1 else 0)
    ensures Record1(t, o).mismatched + ms == t.mismatched + ((match o case Matched => [] case Mismatched(m) => [m]) + ms)
  {
    if o.Mismatched? {
      assert t.mismatched + [o.m] + ms == t.mismatched + ([o.m] + ms);
    }
  }

  /** The counts of one outcome in front of others. */
  lemma OutcomeCons(o: Outcome, os: seq<Outcome>)
    ensures CountMatched([o] + os) == (if o.Matched? then 1 else 0) + CountMatched(os)
    ensures CountOutcome([o] + os, SyntaxError)
         == (if o.Mismatched? && o.m.error == SyntaxError then 1 else 0) + CountOutcome(os, SyntaxError)
    ensures MismatchesOf([o] + os) == (match o case Matched => [] case Mismatched(m) => [m]) + MismatchesOf(os)
  {
    var l := [o] + os;
    assert l[0] == o && l[1..] == os;
  }

  /** Each entry has one of the three labels. */
  lemma {:induction false} LabelsPartition(ms: seq<Mismatch>)
    ensures CountLabel(ms, SyntaxError) + CountLabel(ms, DataMismatch) + CountLabel(ms, LengthMismatch) == |ms|
  {
    if ms != [] {
      LabelsPartition(ms[..|ms| - 1]);
    }
  }

  /** On success, the summary agrees with the per-pair outcomes: every zipped
      pair gets exactly one outcome, so the four counts add up to the length of
      the shorter list; each count is the number of pairs with that outcome;
      and `mismatched_queries` lists the mismatch entries in input order. */
  lemma CompareCounts(gts: seq<Record>, evs: seq<Record>)
    requires CompareSpec(gts, evs).Success?
    ensures Outcomes(gts, evs).Success?
    ensures
      var s := CompareSpec(gts, evs).value;
      var os := Outcomes(gts, evs).value;
      && s.totalSamples == |gts| > 0
      && s.syntaxErrors + s.matches + s.dataMismatches + s.lengthMismatches == (if |gts| < |evs| then |gts| else |evs|)
      && s.matches == CountMatched(os)
      && s.syntaxErrors == CountOutcome(os, SyntaxError)
      && s.dataMismatches == CountOutcome(os, DataMismatch)
      && s.lengthMismatches == CountOutcome(os, LengthMismatch)
      && s.mismatchedQueries == MismatchesOf(os)
  {
    var t0 := Tally(0, 0, []);
    ScanOutcomes(t0, gts, evs);
    var os := Outcomes(gts, evs).value;
    var ms := MismatchesOf(os);
    assert Scan(t0, gts, evs).value.mismatched == ms;
    CountLabelOutcomes(os, SyntaxError);
    CountLabelOutcomes(os, DataMismatch);
    CountLabelOutcomes(os, LengthMismatch);
    LabelsPartition(ms);
  }

  /** The run fails exactly when some zipped pair raises or the ground truth is
      empty (the rates divide by its length). */
  lemma CompareFails(gts: seq<Record>, evs: seq<Record>)
    ensures CompareSpec(gts, evs).Failure? <==> Outcomes(gts, evs).Failure? || |gts| == 0
    ensures |gts| == 0 ==> CompareSpec(gts, evs) == Failure(ZeroDivisionError)
  {
    ScanOutcomes(Tally(0, 0, []), gts, evs);
  }

  /** The rates are the counts over the number of ground-truth samples. */
  lemma CompareRates(total: nat, t: Tally)
    requires Summarize(total, t).Success?
    ensures
      var s := Summarize(total, t).value;
      && s.matchRate * s.totalSamples as real == s.matches as real
      && s.syntaxErrorRate * s.totalSamples as real == s.syntaxErrors as real
      && s.dataMismatchRate * s.totalSamples as real == s.dataMismatches as real
      && s.lengthMismatchRate * s.totalSamples as real == s.lengthMismatches as real
  {
    var s := Summarize(total, t).value;
    var n := total as real;
    DivMul(s.matches as real, n);
    DivMul(s.syntaxErrors as real, n);
    DivMul(s.dataMismatches as real, n);
    DivMul(s.lengthMismatches as real, n);
  }

  lemma DivMul(x: real, t: real)
    requires t > 0.0
    ensures (x / t) * t == x
  {
  }

  /** A sample whose execution failed is counted as a syntax error, whatever
      its ground truth holds. */
  lemma FailedRunIsSyntaxError(str: Json -> string, respond: Json -> Option<Record>, sample: Record, gt: Record)
    requires RunPpl.Run(str, respond, sample).Success?
    requires respond(RunPpl.Rewrite(str, sample).value).None?
    requires "now" in gt && "query" in gt
    ensures
      var ev := RunPpl.Run(str, respond, sample).value;
      Classify(gt, ev) == Success(Mismatched(Mismatch(SyntaxError, gt["now"], gt["query"], ev["query"], None)))
  {
  }
}
