/** PPL query rewriting before execution (ppl/eval_ppl/run_ppl.py): time
    filters are spliced in right after the first pipe, `NOW()` is replaced by
    the sample's fixed "now", and the execution outcome is stored back into
    the sample, with the sentinel "ERROR" when execution fails. */
module RunPpl {
  import opened Wrappers
  import opened Json
  import opened Text

  /** The first `|` of `q`, as `q.split("|", 1)` finds it. */
  function FirstPipe(q: string): (r: Option<nat>)
    ensures r.Some? ==> r.value < |q| && q[r.value] == '|' && forall k :: 0 <= k < r.value ==> q[k] != '|'
    ensures r.None? ==> forall k :: 0 <= k < |q| ==> q[k] != '|'
  {
    if q == [] then None
    else if q[0] == '|' then Some(0)
    else
      match FirstPipe(q[1..])
      case None => None
      case Some(i) => Some(i + 1)
  }

  /** `insert_after_first_pipe`: the query unchanged when it has no pipe;
      otherwise the text before the first pipe, the pipe, the insertion, a new
      pipe, and the rest. */
  function InsertAfterFirstPipe(query: string, insertText: string): (r: string)
    ensures |r| == |query| + (if FirstPipe(query).Some? then |insertText| + 1 else 0)
  {
    match FirstPipe(query)
    case None => query
    case Some(i) => query[..i] + "|" + insertText + "|" + query[i + 1..]
  }

  /** A query without a pipe is returned unchanged; otherwise the result is a
      pipe-free prefix of the query, a pipe, the insertion, a pipe and the rest
      of the query. */
  lemma InsertAfterFirstPipeShape(query: string, insertText: string)
    ensures (forall k :: 0 <= k < |query| ==> query[k] != '|') ==> InsertAfterFirstPipe(query, insertText) == query
    ensures (exists k :: 0 <= k < |query| && query[k] == '|') ==>
      exists i :: 0 <= i < |query| && query[i] == '|' && (forall k :: 0 <= k < i ==> query[k] != '|')
        && InsertAfterFirstPipe(query, insertText) == query[..i] + "|" + insertText + "|" + query[i + 1..]
  {
    match FirstPipe(query)
    case None =>
    case Some(i) =>
      assert query[i] == '|';
  }

  /** Deleting the insertion and the pipe after it gives back the query. */
  lemma InsertionRemovable(query: string, insertText: string)
    requires FirstPipe(query).Some?
    ensures
      var i := FirstPipe(query).value;
      var r := InsertAfterFirstPipe(query, insertText);
      r[..i + 1] + r[i + 1 + |insertText| + 1..] == query
  {
    var i := FirstPipe(query).value;
    var front, back := query[..i] + "|", query[i + 1..];
    assert InsertAfterFirstPipe(query, insertText) == front + (insertText + "|" + back);
    CutMiddle(front, insertText + "|", back);
    assert query == front + back by {
      assert query == query[..i] + [query[i]] + query[i + 1..];
    }
  }

  /** Cutting the middle part out of a three-part string. */
  lemma CutMiddle(x: string, m: string, y: string)
    ensures (x + (m + y))[..|x|] + (x + (m + y))[|x| + |m|..] == x + y
  {
    var r := x + (m + y);
    assert r[..|x|] == x;
    assert r[|x| + |m|..] == y;
  }

  /** A second insertion lands before the first: both go right after the
      original first pipe, whatever the inserted texts contain. */
  lemma InsertTwice(query: string, first: string, second: string)
    requires FirstPipe(query).Some?
    ensures
      var i := FirstPipe(query).value;
      && FirstPipe(InsertAfterFirstPipe(query, first)) == Some(i)
      && InsertAfterFirstPipe(InsertAfterFirstPipe(query, first), second)
         == query[..i] + "|" + second + "|" + first + "|" + query[i + 1..]
  {
    var i := FirstPipe(query).value;
    InsertTwiceFirst(query, first);
    ShapeKeepsPipe(query, i, first + "|");
    SpliceAgain(query, i, first + "|", second);
    RegroupTwice(query[..i], second, first, query[i + 1..]);
  }

  lemma RegroupTwice(front: string, second: string, first: string, back: string)
    ensures front + "|" + (second + "|" + (first + "|")) + back == front + "|" + second + "|" + first + "|" + back
  {
  }

  /** The first pipe is the one with no pipe before it. */
  lemma FirstPipeAt(q: string, i: nat)
    requires i < |q| && q[i] == '|' && forall k :: 0 <= k < i ==> q[k] != '|'
    ensures FirstPipe(q) == Some(i)
  {
  }

  // ---------------------------------------------------------------------------
  // run_ppl
  // ---------------------------------------------------------------------------

  /** `query = insert_after_first_pipe(query, text)`: the call needs a string
      (`split` on anything else raises AttributeError). */
  function InsertInto(query: Json, insertText: string): (r: Result<Json>)
    ensures r.Success? <==> query.JStr?
    ensures r.Success? ==> r == Success(JStr(InsertAfterFirstPipe(query.s, insertText)))
  {
    match query
    case JStr(q) => Success(JStr(InsertAfterFirstPipe(q, insertText)))
    case _ => Failure(AttributeError)
  }

  /** A sample key that is present and not None. */
  predicate Given(sample: Record, key: string)
  {
    key in sample && sample[key] != JNull
  }

  /** The three filters; `str` stands for Python's `str()` of a value as an
      f-string formats it. */
  function StartFilter(str: Json -> string, dateField: Json, start: Json): string
  {
    "where " + str(dateField) + " >= TIMESTAMP('" + str(start) + "') "
  }

  function EndFilter(str: Json -> string, dateField: Json, end: Json): string
  {
    "where " + str(dateField) + " <= TIMESTAMP('" + str(end) + "') "
  }

  function NowFilter(str: Json -> string, dateField: Json): string
  {
    "where " + str(dateField) + " < NOW() "
  }

  /** One optional filter step: the f-string reads `date_field` first
      (KeyError when missing), then the query is split. */
  function StartStep(str: Json -> string, sample: Record, query: Json): Result<Json>
  {
    if !Given(sample, "start") then Success(query)
    else if "date_field" !in sample then Failure(KeyError)
    else InsertInto(query, StartFilter(str, sample["date_field"], sample["start"]))
  }

  function EndStep(str: Json -> string, sample: Record, query: Json): Result<Json>
  {
    if !Given(sample, "end") then Success(query)
    else if "date_field" !in sample then Failure(KeyError)
    else InsertInto(query, EndFilter(str, sample["date_field"], sample["end"]))
  }

  function NowStep(str: Json -> string, sample: Record, query: Json): Result<Json>
  {
    if "date_field" !in sample then Success(query)
    else InsertInto(query, NowFilter(str, sample["date_field"]))
  }

  /** `query.replace("NOW()", sample["now"])`: the method exists only on
      strings (AttributeError) and its argument must be a string (TypeError). */
  function ReplaceStep(sample: Record, query: Json): Result<Json>
  {
    if "now" !in sample then Success(query)
    else if !query.JStr? then Failure(AttributeError)
    else if !sample["now"].JStr? then Failure(TypeError)
    else Success(JStr(ReplaceAll(query.s, "NOW()", sample["now"].s)))
  }

  /** The filters of lines 42-51, in order: start, end, then `< NOW()`. */
  function Insertions(str: Json -> string, sample: Record): Result<Json>
  {
    if "query" !in sample then Failure(KeyError)
    else
      match StartStep(str, sample, sample["query"])
      case Failure(e) => Failure(e)
      case Success(q1) =>
        match EndStep(str, sample, q1)
        case Failure(e) => Failure(e)
        case Success(q2) => NowStep(str, sample, q2)
  }

  /** The rewritten query, lines 41-53: the filters, then the replacement of
      `NOW()`. */
  function Rewrite(str: Json -> string, sample: Record): Result<Json>
  {
    match Insertions(str, sample)
    case Failure(e) => Failure(e)
    case Success(q3) => ReplaceStep(sample, q3)
  }

  /** The filter text a step adds after the first pipe, with its pipe, or
      nothing when the step does not apply. */
  function StartPart(str: Json -> string, sample: Record): string
    requires "date_field" in sample
  {
    if Given(sample, "start") then StartFilter(str, sample["date_field"], sample["start"]) + "|" else ""
  }

  function EndPart(str: Json -> string, sample: Record): string
    requires "date_field" in sample
  {
    if Given(sample, "end") then EndFilter(str, sample["date_field"], sample["end"]) + "|" else ""
  }

  /** For a string query with a pipe and a sample naming its date field, the
      rewritten query is the text up to the first pipe, then the `< NOW()`
      filter, then the end filter, then the start filter (later insertions sit
      before earlier ones), then the rest; when "now" is given, every `NOW()`
      of that text, the inserted one included, is replaced. */
  lemma RewriteShape(str: Json -> string, sample: Record)
    requires "query" in sample && sample["query"].JStr? && FirstPipe(sample["query"].s).Some?
    requires "date_field" in sample
    ensures
      var q := sample["query"].s;
      var i := FirstPipe(q).value;
      var spliced := q[..i] + "|" + NowFilter(str, sample["date_field"]) + "|"
                     + EndPart(str, sample) + StartPart(str, sample) + q[i + 1..];
      && Insertions(str, sample) == Success(JStr(spliced))
      && Rewrite(str, sample) ==
           if "now" !in sample then Success(JStr(spliced))
           else if sample["now"].JStr? then Success(JStr(ReplaceAll(spliced, "NOW()", sample["now"].s)))
           else Failure(TypeError)
  {
    var q := sample["query"].s;
    var i := FirstPipe(q).value;
    var s := StartPart(str, sample);
    var e := EndPart(str, sample);
    var n := NowFilter(str, sample["date_field"]);
    StartStepShape(str, sample, q, i);
    EndStepShape(str, sample, q, i, s);
    NowStepShape(str, sample, q, i, e + s);
    RegroupParts(q[..i], n, e, s, q[i + 1..]);
  }

  lemma RegroupParts(front: string, n: string, e: string, s: string, back: string)
    ensures front + "|" + e + s + back == front + "|" + (e + s) + back
    ensures front + "|" + n + "|" + (e + s) + back == front + "|" + n + "|" + e + s + back
  {
  }

  lemma StartStepShape(str: Json -> string, sample: Record, q: string, i: nat)
    requires "query" in sample && sample["query"] == JStr(q) && FirstPipe(q) == Some(i)
    requires "date_field" in sample
    ensures StartStep(str, sample, sample["query"]) == Success(JStr(q[..i] + "|" + StartPart(str, sample) + q[i + 1..]))
  {
    var s := StartPart(str, sample);
    if Given(sample, "start") {
      var t := StartFilter(str, sample["date_field"], sample["start"]);
      assert s == t + "|";
      InsertTwiceFirst(q, t);
    } else {
      assert s == [];
      assert q[..i] + "|" + s + q[i + 1..] == q by {
        assert q[..i + 1] == q[..i] + "|";
        assert q == q[..i + 1] + q[i + 1..];
      }
    }
  }

  lemma EndStepShape(str: Json -> string, sample: Record, q: string, i: nat, mid: string)
    requires FirstPipe(q) == Some(i) && "date_field" in sample
    ensures EndStep(str, sample, JStr(q[..i] + "|" + mid + q[i + 1..]))
         == Success(JStr(q[..i] + "|" + EndPart(str, sample) + mid + q[i + 1..]))
  {
    var e := EndPart(str, sample);
    if Given(sample, "end") {
      var t := EndFilter(str, sample["date_field"], sample["end"]);
      assert e == t + "|";
      var x := q[..i] + "|" + mid + q[i + 1..];
      assert EndStep(str, sample, JStr(x)) == Success(JStr(InsertAfterFirstPipe(x, t)));
      SpliceAgain(q, i, mid, t);
      Regroup(q[..i], t, mid, q[i + 1..]);
    } else {
      assert e == [];
      assert q[..i] + "|" + e + mid + q[i + 1..] == q[..i] + "|" + mid + q[i + 1..];
    }
  }

  lemma NowStepShape(str: Json -> string, sample: Record, q: string, i: nat, mid: string)
    requires FirstPipe(q) == Some(i) && "date_field" in sample
    ensures NowStep(str, sample, JStr(q[..i] + "|" + mid + q[i + 1..]))
         == Success(JStr(q[..i] + "|" + NowFilter(str, sample["date_field"]) + "|" + mid + q[i + 1..]))
  {
    var n := NowFilter(str, sample["date_field"]);
    var x := q[..i] + "|" + mid + q[i + 1..];
    assert NowStep(str, sample, JStr(x)) == Success(JStr(InsertAfterFirstPipe(x, n)));
    SpliceAgain(q, i, mid, n);
    Regroup(q[..i], n, mid, q[i + 1..]);
  }

  lemma Regroup(front: string, text: string, mid: string, back: string)
    ensures front + "|" + (text + "|" + mid) + back == front + "|" + text + "|" + mid + back
    ensures front + "|" + (text + "|" + mid) + back == front + "|" + (text + "|") + mid + back
  {
  }

  lemma InsertTwiceFirst(q: string, text: string)
    requires FirstPipe(q).Some?
    ensures
      var i := FirstPipe(q).value;
      InsertAfterFirstPipe(q, text) == q[..i] + "|" + (text + "|") + q[i + 1..]
  {
  }

  /** A query of the spliced shape still has its first pipe at `i`. */
  lemma ShapeKeepsPipe(q: string, i: nat, mid: string)
    requires FirstPipe(q) == Some(i)
    ensures FirstPipe(q[..i] + "|" + mid + q[i + 1..]) == Some(i)
  {
    var r := q[..i] + "|" + mid + q[i + 1..];
    assert r[i] == '|';
    assert forall k :: 0 <= k < i ==> r[k] == q[k];
    FirstPipeAt(r, i);
  }

  /** Inserting into a spliced query puts the new text in front of `mid`. */
  lemma SpliceAgain(q: string, i: nat, mid: string, text: string)
    requires FirstPipe(q) == Some(i)
    ensures InsertAfterFirstPipe(q[..i] + "|" + mid + q[i + 1..], text)
         == q[..i] + "|" + (text + "|" + mid) + q[i + 1..]
  {
    var front, back := q[..i], q[i + 1..];
    var r := front + "|" + mid + back;
    ShapeKeepsPipe(q, i, mid);
    assert InsertAfterFirstPipe(r, text) == r[..i] + "|" + text + "|" + r[i + 1..];
    SpliceParts(front, mid, back, text);
  }

  lemma SpliceParts(front: string, mid: string, back: string, text: string)
    ensures var r := front + "|" + mid + back;
      r[..|front|] + "|" + text + "|" + r[|front| + 1..] == front + "|" + (text + "|" + mid) + back
  {
    var r := front + "|" + mid + back;
    assert r[..|front|] == front;
    assert r[|front| + 1..] == mid + back;
  }

  /** A query without a pipe gets no filter; only `NOW()` is replaced. */
  lemma RewriteWithoutPipe(str: Json -> string, sample: Record)
    requires "query" in sample && sample["query"].JStr? && FirstPipe(sample["query"].s).None?
    requires "date_field" in sample
    ensures Rewrite(str, sample) == ReplaceStep(sample, sample["query"])
  {
  }

  // ---------------------------------------------------------------------------
  // Storing the outcome
  // ---------------------------------------------------------------------------

  /** `run_ppl(sample)`. `respond` stands for the search engine: the response
      object for the query, or None when the request raises. Exceptions of the
      rewriting escape; any exception of the request or of reading the
      response is caught and leaves the sentinel. */
  function Run(str: Json -> string, respond: Json -> Option<Record>, sample: Record): (r: Result<Record>)
    ensures r.Success? <==> Rewrite(str, sample).Success?
    ensures r.Success? ==>
      var query := Rewrite(str, sample).value;
      var resp := respond(query);
      var answered := resp.Some? && "datarows" in resp.value && "schema" in resp.value;
      && r.value.Keys == sample.Keys + {"query", "data_rows"} + (if answered then {"schema"} else {})
      && r.value["query"] == query
      && r.value["data_rows"] == (if answered then resp.value["datarows"] else ErrorSentinel)
      && (answered ==> r.value["schema"] == resp.value["schema"])
      && forall k :: k in sample && k != "query" && k != "data_rows" && (answered ==> k != "schema") ==> r.value[k] == sample[k]
  {
    match Rewrite(str, sample)
    case Failure(e) => Failure(e)
    case Success(query) =>
      var stored := sample["query" := query];
      var resp := respond(query);
      if resp.Some? && "datarows" in resp.value && "schema" in resp.value then
        Success(stored["data_rows" := resp.value["datarows"]]["schema" := resp.value["schema"]])
      else
        Success(stored["data_rows" := ErrorSentinel])
  }

  /** The sentinel a failed execution leaves in `data_rows`. */
  const ErrorSentinel: Json := JStr("ERROR")
}
