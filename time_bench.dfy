/** The time-range benchmark helpers (ppl/time_bench/utils.py): the parser of
    a model's `<tag>value</tag>` answer and the scorer that compares predicted
    time ranges with the benchmark's. */
module TimeBench {
  import opened Wrappers
  import opened Json
  import opened Text

  // ---------------------------------------------------------------------------
  // parse_tagged_string
  // ---------------------------------------------------------------------------

  /** A character of the regular-expression class `\w`, restricted to ASCII. */
  predicate IsWordChar(c: char)
  {
    ('a' <= c <= 'z') || ('A' <= c <= 'Z') || ('0' <= c <= '9') || c == '_'
  }

  /** A tag name `\w+`. */
  predicate IsTagName(t: string)
  {
    t != [] && forall k :: 0 <= k < |t| ==> IsWordChar(t[k])
  }

  /** The text `<tag>value</tag>`. */
  function Tagged(tag: string, value: string): string
  {
    "<" + tag + ">" + value + "</" + tag + ">"
  }

  /** The length of the run of word characters starting at `i`. */
  function WordRun(s: string, i: nat): (n: nat)
    requires i <= |s|
    decreases |s| - i
    ensures i + n <= |s|
    ensures forall k :: i <= k < i + n ==> IsWordChar(s[k])
    ensures i + n < |s| ==> !IsWordChar(s[i + n])
  {
    if i == |s| || !IsWordChar(s[i]) then 0 else 1 + WordRun(s, i + 1)
  }

  /** The match of `<(\w+)>(.*?)</\1>` starting exactly at `p`, with the
      position just after it. `\w+` can only end right before the `>`, so the
      tag is the whole word run; the lazy value ends at the first closing tag
      with the same name (the back-reference). */
  function TagAt(text: string, p: nat): (r: Option<(string, string, nat)>)
    requires p <= |text|
    ensures r.Some? ==>
      var (tag, value, end) := r.value;
      && IsTagName(tag)
      && p < end <= |text|
      && text[p..end] == Tagged(tag, value)
      && forall q :: p + |tag| + 2 <= q < end - |tag| - 3 ==> !OccursAt(text, "</" + tag + ">", q)
  {
    if p == |text| || text[p] != '<' then None
    else
      var n := WordRun(text, p + 1);
      if n == 0 || p + 1 + n == |text| || text[p + 1 + n] != '>' then None
      else
        var tag := text[p + 1..p + 1 + n];
        var close := "</" + tag + ">";
        match Find(text, close, p + 2 + n)
        case None => None
        case Some(j) =>
          var value := text[p + 2 + n..j];
          TaggedSlice(text, p, n, j);
          Some((tag, value, j + |close|))
  }

  lemma TaggedSlice(text: string, p: nat, n: nat, j: nat)
    requires 0 < n && p + 2 + n <= j && p + 1 + n < |text|
    requires text[p] == '<' && text[p + 1 + n] == '>'
    requires forall k :: p + 1 <= k < p + 1 + n ==> IsWordChar(text[k])
    requires OccursAt(text, "</" + text[p + 1..p + 1 + n] + ">", j)
    ensures IsTagName(text[p + 1..p + 1 + n])
    ensures text[p..j + n + 3] == Tagged(text[p + 1..p + 1 + n], text[p + 2 + n..j])
  {
    var tag := text[p + 1..p + 1 + n];
    var close := "</" + tag + ">";
    var open := "<" + tag + ">";
    var value := text[p + 2 + n..j];
    assert Tagged(tag, value) == open + value + close;
    assert text[p..p + 2 + n] == open by {
      assert text[p..p + 2 + n] == text[p..p + 1] + tag + text[p + 1 + n..p + 2 + n];
    }
    assert text[j..j + |close|] == close;
    assert text[p..j + |close|] == text[p..p + 2 + n] + value + text[j..j + |close|];
    forall k | 0 <= k < |tag| ensures IsWordChar(tag[k]) {
      assert tag[k] == text[p + 1 + k];
    }
  }

  /** `\w+` matched at `i` covers exactly a run of `n` word characters that
      a non-word character ends. */
  lemma {:induction false} WordRunExact(s: string, i: nat, n: nat)
    requires i + n < |s| && !IsWordChar(s[i + n])
    requires forall k :: i <= k < i + n ==> IsWordChar(s[k])
    ensures WordRun(s, i) == n
    decreases n
  {
    if n > 0 {
      WordRunExact(s, i + 1, n - 1);
    }
  }

  /** The pieces of `<tag>value</tag>`. */
  lemma TaggedShape(tag: string, value: string)
    ensures var t := Tagged(tag, value); var n := |tag|;
      && |t| == 2 * n + 5 + |value| && t[0] == '<' && t[1..1 + n] == tag && t[1 + n] == '>'
      && t[2 + n + |value|..] == "</" + tag + ">"
  {
    var t := Tagged(tag, value);
    assert t == "<" + tag + ">" + value + ("</" + tag + ">");
  }

  /** What `<tag>value</tag>` at `p` puts into the text: the opening tag as
      a maximal word run between `<` and `>`, and the closing tag after the
      value. */
  lemma TaggedAt(text: string, p: nat, tag: string, value: string)
    requires IsTagName(tag) && OccursAt(text, Tagged(tag, value), p)
    ensures p + 1 + |tag| < |text| && text[p] == '<' && text[p + 1 + |tag|] == '>'
    ensures WordRun(text, p + 1) == |tag| && text[p + 1..p + 1 + |tag|] == tag
    ensures OccursAt(text, "</" + tag + ">", p + 2 + |tag| + |value|)
  {
    var n := |tag|;
    var t := Tagged(tag, value);
    TaggedShape(tag, value);
    var w := text[p..p + |t|];
    assert text[p] == w[0];
    assert text[p + 1..p + 1 + n] == w[1..1 + n];
    forall k | p + 1 <= k < p + 1 + n ensures IsWordChar(text[k]) {
      assert text[k] == tag[k - p - 1];
    }
    assert text[p + 1 + n] == w[1 + n];
    WordRunExact(text, p + 1, n);
    var j0 := p + 2 + n + |value|;
    assert text[j0..p + |t|] == w[2 + n + |value|..];
  }

  /** Whenever `<tag>value</tag>` starts at `p`, the pattern matches there,
      with that tag and a value no longer than `value` (the lazy `.*?` stops
      at the first closing tag). */
  lemma TagAtFinds(text: string, p: nat, tag: string, value: string)
    requires IsTagName(tag) && OccursAt(text, Tagged(tag, value), p)
    ensures TagAt(text, p).Some?
    ensures TagAt(text, p).value.0 == tag && |TagAt(text, p).value.1| <= |value|
  {
    TaggedAt(text, p, tag, value);
    var n := |tag|;
    var close := "</" + tag + ">";
    var f := Find(text, close, p + 2 + n);
    assert f.Some? && f.value <= p + 2 + n + |value|;
  }

  /** No match at `p` means that no `<tag>value</tag>` starts there. */
  lemma TagAtComplete(text: string, p: nat)
    requires p <= |text|
    ensures TagAt(text, p).None? ==> forall tag, value :: IsTagName(tag) ==> !OccursAt(text, Tagged(tag, value), p)
  {
    forall tag, value | IsTagName(tag) && OccursAt(text, Tagged(tag, value), p)
      ensures TagAt(text, p).Some?
    {
      TagAtFinds(text, p, tag, value);
    }
  }

  /** `re.findall` of the pattern from position `p`: scanning left to right,
      each match resumes the scan after its end. */
  function FindAll(text: string, p: nat): (r: seq<(string, string)>)
    requires p <= |text|
    decreases |text| - p
    ensures forall k :: 0 <= k < |r| ==> IsTagName(r[k].0) && Contains(text, Tagged(r[k].0, r[k].1))
  {
    if p == |text| then []
    else
      match TagAt(text, p)
      case None => FindAll(text, p + 1)
      case Some((tag, value, end)) =>
        assert OccursAt(text, Tagged(tag, value), p);
        [(tag, value)] + FindAll(text, end)
  }

  /** `findall` finds something whenever `<tag>value</tag>` occurs at or
      after the position it starts from. */
  lemma {:induction false} FindAllNonEmpty(text: string, p: nat, q: nat, tag: string, value: string)
    requires p <= q && IsTagName(tag) && OccursAt(text, Tagged(tag, value), q)
    ensures FindAll(text, p) != []
    decreases |text| - p
  {
    if TagAt(text, p).None? {
      TagAtComplete(text, p);
      FindAllNonEmpty(text, p + 1, q, tag, value);
    }
  }

  /** The first match is the leftmost tagged occurrence, with its tag. */
  lemma {:induction false} FindAllLeftmost(text: string, p: nat, q: nat, tag: string, value: string)
    requires p <= q && IsTagName(tag) && OccursAt(text, Tagged(tag, value), q)
    requires forall i, t, v :: p <= i < q && IsTagName(t) ==> !OccursAt(text, Tagged(t, v), i)
    ensures FindAll(text, p) != [] && FindAll(text, p)[0].0 == tag
    decreases |text| - p
  {
    if p == q {
      TagAtFinds(text, p, tag, value);
    } else {
      match TagAt(text, p)
      case None =>
        FindAllLeftmost(text, p + 1, q, tag, value);
      case Some((t, v, end)) =>
        assert OccursAt(text, Tagged(t, v), p);
        assert false;
    }
  }

  /** The tag of the leftmost tagged occurrence is a key of the parsed answer. */
  lemma LeftmostCollected(text: string, q: nat, tag: string, value: string)
    requires IsTagName(tag) && OccursAt(text, Tagged(tag, value), q)
    requires forall i, t, v :: 0 <= i < q && IsTagName(t) ==> !OccursAt(text, Tagged(t, v), i)
    ensures tag in Collect(FindAll(text, 0))
  {
    FindAllLeftmost(text, 0, q, tag, value);
    CollectLast(FindAll(text, 0), tag);
  }

  /** A stripped "null" is None; any other value is kept stripped. */
  function Normalize(value: string): Option<string>
  {
    if Strip(value) == "null" then None else Some(Strip(value))
  }

  /** The dictionary the loop fills: each match, in order, overwrites its tag. */
  function Collect(ms: seq<(string, string)>): map<string, Option<string>>
  {
    if ms == [] then map[]
    else Collect(ms[..|ms| - 1])[ms[|ms| - 1].0 := Normalize(ms[|ms| - 1].1)]
  }

  /** `parse_tagged_string`. */
  method ParseTaggedString(text: string) returns (result: map<string, Option<string>>)
    ensures result == Collect(FindAll(text, 0))
  {
    var matches := FindAll(text, 0);
    result := map[];
    for i := 0 to |matches|
      invariant result == Collect(matches[..i])
    {
      CollectSnoc(matches, i);
      var (tag, value) := matches[i];
      if Strip(value) == "null" {
        result := result[tag := None];
      } else {
        result := result[tag := Some(Strip(value))];
      }
    }
    assert matches[..|matches|] == matches;
  }

  lemma CollectSnoc(ms: seq<(string, string)>, i: nat)
    requires i < |ms|
    ensures Collect(ms[..i + 1]) == Collect(ms[..i])[ms[i].0 := Normalize(ms[i].1)]
  {
    assert ms[..i + 1][..i] == ms[..i];
  }

  /** The index of the last pair with `tag`, if any. */
  function LastWith(ms: seq<(string, string)>, tag: string): (r: Option<nat>)
    ensures r.Some? ==> r.value < |ms| && ms[r.value].0 == tag && forall l :: r.value < l < |ms| ==> ms[l].0 != tag
    ensures r.None? ==> forall k :: 0 <= k < |ms| ==> ms[k].0 != tag
  {
    if ms == [] then None
    else if ms[|ms| - 1].0 == tag then Some(|ms| - 1)
    else
      var r := LastWith(ms[..|ms| - 1], tag);
      assert forall k :: 0 <= k < |ms| - 1 ==> ms[..|ms| - 1][k] == ms[k];
      r
  }

  /** A tag is a key exactly when some match has it, and its value is that of
      the last such match. */
  lemma {:induction false} CollectLast(ms: seq<(string, string)>, tag: string)
    ensures tag in Collect(ms) <==> LastWith(ms, tag).Some?
    ensures tag in Collect(ms) ==> Collect(ms)[tag] == Normalize(ms[LastWith(ms, tag).value].1)
  {
    if ms != [] && ms[|ms| - 1].0 != tag {
      var init := ms[..|ms| - 1];
      CollectLast(init, tag);
      assert LastWith(ms, tag) == LastWith(init, tag);
      if LastWith(init, tag).Some? {
        assert init[LastWith(init, tag).value] == ms[LastWith(init, tag).value];
      }
    }
  }

  /** Every key of the result is a tag name written as `<tag>v</tag>` in the
      text, with the normalized `v` as its value. */
  lemma CollectedTags(text: string)
    ensures forall tag :: tag in Collect(FindAll(text, 0)) ==>
      IsTagName(tag) && exists v :: Contains(text, Tagged(tag, v)) && Collect(FindAll(text, 0))[tag] == Normalize(v)
  {
    var ms := FindAll(text, 0);
    forall tag | tag in Collect(ms)
      ensures IsTagName(tag) && exists v :: Contains(text, Tagged(tag, v)) && Collect(ms)[tag] == Normalize(v)
    {
      CollectLast(ms, tag);
      var k := LastWith(ms, tag).value;
      assert Contains(text, Tagged(tag, ms[k].1));
    }
  }

  /** A value that strips to "null" is None; anything else is the stripped text. */
  lemma NormalizeMeaning(value: string)
    ensures Normalize(value).None? <==> Strip(value) == "null"
    ensures Normalize(value).Some? ==> Normalize(value).value == Strip(value) && Normalize(value).value != "null"
  {
  }

  // ---------------------------------------------------------------------------
  // evaluate_time_predictions
  // ---------------------------------------------------------------------------

  /** How one benchmark item was judged. */
  datatype Judgement = Judgement(timeSeries: bool, correct: bool)

  /** The judgement of item `truth` against `pred`, with the KeyErrors of the
      subscripts it evaluates (`and` stops at the first false operand). */
  function Judge(truth: Record, pred: Record): (r: Result<Judgement>)
    ensures r.Success? ==> "start" in truth && "start" in pred
    ensures r.Success? ==>
      (r.value.timeSeries <==> truth["start"] != JNull && "end" in truth && truth["end"] != JNull)
    ensures r.Success? && r.value.timeSeries ==>
      (r.value.correct <==> pred["start"] == truth["start"] && "end" in pred && pred["end"] == truth["end"])
    ensures r.Success? && !r.value.timeSeries ==>
      (r.value.correct <==> pred["start"] == JNull && "end" in pred && pred["end"] == JNull)
  {
    if "start" !in truth then Failure(KeyError)
    else if truth["start"] != JNull && "end" !in truth then Failure(KeyError)
    else
      var timeSeries := truth["start"] != JNull && truth["end"] != JNull;
      if "start" !in pred then Failure(KeyError)
      else if timeSeries then
        if pred["start"] != truth["start"] then Success(Judgement(true, false))
        else if "end" !in pred then Failure(KeyError)
        else Success(Judgement(true, pred["end"] == truth["end"]))
      else
        if pred["start"] != JNull then Success(Judgement(false, false))
        else if "end" !in pred then Failure(KeyError)
        else Success(Judgement(false, pred["end"] == JNull))
  }

  /** The judgements of the first `n` items, or the first exception; reading
      `predictions[i]` past its end raises IndexError. */
  function JudgeAll(bench: seq<Record>, preds: seq<Record>, n: nat): (r: Result<seq<Judgement>>)
    requires n <= |bench|
    ensures r.Success? ==> |r.value| == n && n <= |preds|
    ensures r.Success? ==> forall k :: 0 <= k < n ==> Judge(bench[k], preds[k]) == Success(r.value[k])
  {
    if n == 0 then Success([])
    else
      match JudgeAll(bench, preds, n - 1)
      case Failure(e) => Failure(e)
      case Success(js) =>
        if n - 1 >= |preds| then Failure(IndexError)
        else
          match Judge(bench[n - 1], preds[n - 1])
          case Failure(e) => Failure(e)
          case Success(j) => Success(js + [j])
  }

  function CountWhere(js: seq<Judgement>, timeSeries: bool, correctOnly: bool): (c: nat)
    ensures c <= |js|
  {
    if js == [] then 0
    else
      var j := js[|js| - 1];
      CountWhere(js[..|js| - 1], timeSeries, correctOnly)
        + (if j.timeSeries == timeSeries && (j.correct || !correctOnly) then 1 else 0)
  }

  /** One entry of `errors`: `[i, truth, pred]`. */
  datatype ErrorEntry = ErrorEntry(index: nat, truth: Record, pred: Record)

  /** The wrong items of the first `|js|` ones, in order. */
  function ErrorsOf(bench: seq<Record>, preds: seq<Record>, js: seq<Judgement>): seq<ErrorEntry>
    requires |js| <= |bench| && |js| <= |preds|
  {
    if js == [] then []
    else
      var k := |js| - 1;
      ErrorsOf(bench, preds, js[..k]) + (if js[k].correct then [] else [ErrorEntry(k, bench[k], preds[k])])
  }

  /** The returned dictionary. The accuracies are exact quotients. */
  datatype Scores = Scores(
    timeSeriesAccuracy: real, timeSeriesCorrect: nat, timeSeriesTotal: nat,
    nonTimeSeriesAccuracy: real, nonTimeSeriesCorrect: nat, nonTimeSeriesTotal: nat,
    overallAccuracy: real, overallCorrect: nat, overallTotal: nat,
    errors: seq<ErrorEntry>)

  /** `x / y if y > 0 else 0`. */
  function Ratio(x: nat, y: nat): real
  {
    if y > 0 then x as real / y as real else 0.0
  }

  function MakeScores(tsCorrect: nat, tsTotal: nat, nonCorrect: nat, nonTotal: nat, errors: seq<ErrorEntry>): Scores
  {
    Scores(
      Ratio(tsCorrect, tsTotal), tsCorrect, tsTotal,
      Ratio(nonCorrect, nonTotal), nonCorrect, nonTotal,
      Ratio(tsCorrect + nonCorrect, tsTotal + nonTotal), tsCorrect + nonCorrect, tsTotal + nonTotal,
      errors)
  }

  /** What `evaluate_time_predictions` returns. */
  function EvaluateSpec(bench: seq<Record>, preds: seq<Record>, printErrors: bool): Result<Scores>
  {
    match JudgeAll(bench, preds, |bench|)
    case Failure(e) => Failure(e)
    case Success(js) =>
      Success(MakeScores(
        CountWhere(js, true, true), CountWhere(js, true, false),
        CountWhere(js, false, true), CountWhere(js, false, false),
        if printErrors then ErrorsOf(bench, preds, js) else []))
  }

  /** `evaluate_time_predictions`. */
  method EvaluateTimePredictions(bench: seq<Record>, preds: seq<Record>, printErrors: bool) returns (r: Result<Scores>)
    ensures r == EvaluateSpec(bench, preds, printErrors)
  {
    var tsTotal, tsCorrect, nonTotal, nonCorrect := 0, 0, 0, 0;
    var errors: seq<ErrorEntry> := [];
    ghost var js: seq<Judgement> := [];
    for i := 0 to |bench|
      invariant JudgeAll(bench, preds, i) == Success(js)
      invariant tsTotal == CountWhere(js, true, false) && tsCorrect == CountWhere(js, true, true)
      invariant nonTotal == CountWhere(js, false, false) && nonCorrect == CountWhere(js, false, true)
      invariant errors == if printErrors then ErrorsOf(bench, preds, js) else []
    {
      if i >= |preds| {
        JudgeAllFails(bench, preds, i + 1, |bench|);
        return Failure(IndexError);
      }
      var truth, pred := bench[i], preds[i];
      var j := Judge(truth, pred);
      if j.Failure? {
        JudgeAllFails(bench, preds, i + 1, |bench|);
        return Failure(j.error);
      }
      assert (js + [j.value])[..i] == js;
      js := js + [j.value];
      if j.value.timeSeries {
        tsTotal := tsTotal + 1;
        if j.value.correct {
          tsCorrect := tsCorrect + 1;
        } else if printErrors {
          errors := errors + [ErrorEntry(i, truth, pred)];
        }
      } else {
        nonTotal := nonTotal + 1;
        if j.value.correct {
          nonCorrect := nonCorrect + 1;
        } else if printErrors {
          errors := errors + [ErrorEntry(i, truth, pred)];
        }
      }
    }
    r := Success(MakeScores(tsCorrect, tsTotal, nonCorrect, nonTotal, errors));
  }

  /** Once an item raises, the whole run has raised. */
  lemma {:induction false} JudgeAllFails(bench: seq<Record>, preds: seq<Record>, n: nat, m: nat)
    requires n <= m <= |bench|
    requires JudgeAll(bench, preds, n).Failure?
    ensures JudgeAll(bench, preds, m) == JudgeAll(bench, preds, n)
    decreases m
  {
    if n < m {
      JudgeAllFails(bench, preds, n, m - 1);
    }
  }

  lemma {:induction false} CountsPartition(js: seq<Judgement>)
    ensures CountWhere(js, true, false) + CountWhere(js, false, false) == |js|
    ensures CountWhere(js, true, true) <= CountWhere(js, true, false)
    ensures CountWhere(js, false, true) <= CountWhere(js, false, false)
  {
    if js != [] {
      CountsPartition(js[..|js| - 1]);
    }
  }

  /** Every item is either a time-series one or not, so the two totals add up
      to the benchmark's length; no correct count exceeds its total; each
      accuracy is 0 when its total is 0 and the quotient otherwise. */
  lemma ScoresBounds(bench: seq<Record>, preds: seq<Record>, printErrors: bool)
    requires EvaluateSpec(bench, preds, printErrors).Success?
    ensures
      var s := EvaluateSpec(bench, preds, printErrors).value;
      && s.timeSeriesTotal + s.nonTimeSeriesTotal == s.overallTotal == |bench| <= |preds|
      && s.timeSeriesCorrect <= s.timeSeriesTotal
      && s.nonTimeSeriesCorrect <= s.nonTimeSeriesTotal
      && s.overallCorrect == s.timeSeriesCorrect + s.nonTimeSeriesCorrect <= s.overallTotal
      && (s.timeSeriesTotal == 0 ==> s.timeSeriesAccuracy == 0.0)
      && (s.nonTimeSeriesTotal == 0 ==> s.nonTimeSeriesAccuracy == 0.0)
      && (s.overallTotal == 0 ==> s.overallAccuracy == 0.0)
      && (!printErrors ==> s.errors == [])
  {
    CountsPartition(JudgeAll(bench, preds, |bench|).value);
  }

  /** The accuracies are in [0, 1] and are the counts over the totals. */
  lemma RatioMeaning(x: nat, y: nat)
    requires x <= y
    ensures 0.0 <= Ratio(x, y) <= 1.0
    ensures y > 0 ==> Ratio(x, y) * y as real == x as real
  {
    if y > 0 {
      var q := x as real / y as real;
      assert q * y as real == x as real;
    }
  }

  /** With `print_errors`, `errors` lists exactly the wrong items, each with
      its index, in increasing index order. */
  lemma {:induction false} ErrorsExact(bench: seq<Record>, preds: seq<Record>, js: seq<Judgement>)
    requires |js| <= |bench| && |js| <= |preds|
    ensures var es := ErrorsOf(bench, preds, js);
      && (forall e :: e in es ==> e.index < |js| && !js[e.index].correct && e.truth == bench[e.index] && e.pred == preds[e.index])
      && (forall k :: 0 <= k < |js| && !js[k].correct ==> exists e :: e in es && e.index == k)
      && (forall a, b :: 0 <= a < b < |es| ==> es[a].index < es[b].index)
  {
    if js != [] {
      var k := |js| - 1;
      var init := js[..k];
      ErrorsExact(bench, preds, init);
      var es := ErrorsOf(bench, preds, js);
      var front := ErrorsOf(bench, preds, init);
      assert forall i :: 0 <= i < |init| ==> init[i] == js[i];
      forall j | 0 <= j < |js| && !js[j].correct ensures exists e :: e in es && e.index == j {
        if j < k {
          assert !init[j].correct;
          var e :| e in front && e.index == j;
          assert e in es;
        } else {
          assert es[|es| - 1] == ErrorEntry(k, bench[k], preds[k]);
        }
      }
    }
  }
}
