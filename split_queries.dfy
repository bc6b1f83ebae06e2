/** The partition of the benchmark into time-related and other questions
    (`split_queries` in ppl/eval_ppl/split_queries.py): each sample loses
    its `table_info` and goes to the first list when its lower-cased query
    mentions a time keyword, to the second otherwise. */
module SplitQueries {
  import opened Wrappers
  import opened Json
  import opened Text

  /** The keywords searched for, in the order `any` tries them. */
  const TimeKeywords: seq<string> := ["date", "time"]

  /** `any(keyword in query.lower() for keyword in time_keywords)`. */
  predicate IsTimeRelated(query: string)
  {
    exists k :: 0 <= k < |TimeKeywords| && Contains(Lower(query), TimeKeywords[k])
  }

  lemma TimeRelatedMeaning(query: string)
    ensures IsTimeRelated(query) <==> Contains(Lower(query), "date") || Contains(Lower(query), "time")
  {
    if Contains(Lower(query), "date") {
      assert TimeKeywords[0] == "date";
    }
    if Contains(Lower(query), "time") {
      assert TimeKeywords[1] == "time";
    }
  }

  /** A sample whose query is a time-related string. */
  predicate TimeRelated(sample: Record)
  {
    "query" in sample && sample["query"].JStr? && IsTimeRelated(sample["query"].s)
  }

  /** One iteration: `del sample["table_info"]` (KeyError when absent), then
      `sample["query"]` (KeyError) and `.lower()` (AttributeError on a
      non-string); the sample without `table_info` and its verdict. */
  function Classify(sample: Record): (r: Result<(Record, bool)>)
    ensures r.Success? <==> "table_info" in sample && "query" in sample && sample["query"].JStr?
    ensures r.Failure? && "table_info" !in sample ==> r.error == KeyError
    ensures r.Success? ==> r.value.0 == sample - {"table_info"} && (r.value.1 <==> TimeRelated(sample))
  {
    if "table_info" !in sample then Failure(KeyError)
    else
      var s := sample - {"table_info"};
      if "query" !in s then Failure(KeyError)
      else if !s["query"].JStr? then Failure(AttributeError)
      else Success((s, IsTimeRelated(s["query"].s)))
  }

  /** The two lists the loop builds. */
  datatype Partition = Partition(timeRelated: seq<Record>, nonTimeRelated: seq<Record>)

  /** The list a verdict sends a sample to. */
  function Pick(p: Partition, timeRelated: bool): seq<Record>
  {
    if timeRelated then p.timeRelated else p.nonTimeRelated
  }

  /** The lists after the samples of `data`, in order; the first sample
      that raises ends the loop with its exception. */
  function SplitSpec(data: seq<Record>): Result<Partition>
  {
    if data == [] then Success(Partition([], []))
    else
      match SplitSpec(data[..|data| - 1])
      case Failure(e) => Failure(e)
      case Success(p) =>
        match Classify(data[|data| - 1])
        case Failure(e) => Failure(e)
        case Success((s, isTime)) =>
          if isTime then Success(Partition(p.timeRelated + [s], p.nonTimeRelated))
          else Success(Partition(p.timeRelated, p.nonTimeRelated + [s]))
  }

  /** Once a prefix has raised, so has the whole loop, with the same exception. */
  lemma {:induction false} SplitFails(data: seq<Record>, i: nat)
    requires i <= |data| && SplitSpec(data[..i]).Failure?
    ensures SplitSpec(data) == SplitSpec(data[..i])
    decreases |data|
  {
    if i == |data| {
      assert data[..i] == data;
    } else {
      var init := data[..|data| - 1];
      assert init[..i] == data[..i];
      SplitFails(init, i);
    }
  }

  /** The loop of `split_queries` over the loaded samples. */
  method SplitQueries(data: seq<Record>) returns (r: Result<Partition>)
    ensures r == SplitSpec(data)
  {
    var timeRelated: seq<Record> := [];
    var nonTimeRelated: seq<Record> := [];
    for i := 0 to |data|
      invariant SplitSpec(data[..i]) == Success(Partition(timeRelated, nonTimeRelated))
    {
      assert data[..i + 1][..i] == data[..i];
      var sample := data[i];
      if "table_info" !in sample {
        SplitFails(data, i + 1);
        return Failure(KeyError);
      }
      sample := sample - {"table_info"};
      if "query" !in sample {
        SplitFails(data, i + 1);
        return Failure(KeyError);
      }
      var query := sample["query"];
      if !query.JStr? {
        SplitFails(data, i + 1);
        return Failure(AttributeError);
      }
      var isTimeRelated := IsTimeRelated(query.s);
      if isTimeRelated {
        timeRelated := timeRelated + [sample];
      } else {
        nonTimeRelated := nonTimeRelated + [sample];
      }
    }
    assert data[..|data|] == data;
    r := Success(Partition(timeRelated, nonTimeRelated));
  }

  /** The loop completes exactly when every sample has a `table_info` and a
      string query. */
  lemma {:induction false} SplitSucceeds(data: seq<Record>)
    ensures SplitSpec(data).Success? <==> forall k :: 0 <= k < |data| ==> Classify(data[k]).Success?
  {
    if data != [] {
      var init := data[..|data| - 1];
      SplitSucceeds(init);
      assert forall k :: 0 <= k < |init| ==> init[k] == data[k];
    }
  }

  /** Every sample lands in exactly one of the two lists. */
  lemma {:induction false} SplitCounts(data: seq<Record>)
    requires SplitSpec(data).Success?
    ensures |SplitSpec(data).value.timeRelated| + |SplitSpec(data).value.nonTimeRelated| == |data|
  {
    if data != [] {
      SplitCounts(data[..|data| - 1]);
    }
  }

  /** Each list holds, in input order, exactly the samples of its verdict,
      each without its `table_info`: a strictly increasing choice of input
      positions, one per list entry, that takes every sample of the verdict. */
  lemma {:induction false} SplitOrder(data: seq<Record>, timeRelated: bool) returns (idx: seq<nat>)
    requires SplitSpec(data).Success?
    ensures |idx| == |Pick(SplitSpec(data).value, timeRelated)|
    ensures forall k :: 0 <= k < |idx| ==>
      && idx[k] < |data|
      && Pick(SplitSpec(data).value, timeRelated)[k] == data[idx[k]] - {"table_info"}
      && (TimeRelated(data[idx[k]]) <==> timeRelated)
    ensures forall a, b :: 0 <= a < b < |idx| ==> idx[a] < idx[b]
    ensures forall j :: 0 <= j < |data| && (TimeRelated(data[j]) <==> timeRelated) ==> j in idx
  {
    if data == [] {
      idx := [];
    } else {
      var n := |data| - 1;
      var init := data[..n];
      var front := SplitOrder(init, timeRelated);
      var p := SplitSpec(init).value;
      var c := Classify(data[n]).value;
      var picked := c.1 == timeRelated;
      SplitSnoc(data, timeRelated);
      idx := front + (if picked then [n] else []);
      forall k | 0 <= k < |idx|
        ensures && idx[k] < |data|
                && Pick(SplitSpec(data).value, timeRelated)[k] == data[idx[k]] - {"table_info"}
                && (TimeRelated(data[idx[k]]) <==> timeRelated)
      {
        if k < |front| {
          assert idx[k] == front[k] && init[front[k]] == data[front[k]];
        }
      }
      forall j | 0 <= j < |data| && (TimeRelated(data[j]) <==> timeRelated) ensures j in idx {
        if j < n {
          assert init[j] == data[j];
          assert j in front;
        } else {
          assert idx[|idx| - 1] == n;
        }
      }
    }
  }

  /** The last sample extends the list of its verdict by itself without
      `table_info`, and leaves the other list alone. */
  lemma SplitSnoc(data: seq<Record>, timeRelated: bool)
    requires data != [] && SplitSpec(data).Success?
    ensures SplitSpec(data[..|data| - 1]).Success? && Classify(data[|data| - 1]).Success?
    ensures var c := Classify(data[|data| - 1]).value;
      Pick(SplitSpec(data).value, timeRelated)
        == Pick(SplitSpec(data[..|data| - 1]).value, timeRelated) + (if c.1 == timeRelated then [c.0] else [])
  {
  }

  /** No sample in either list keeps a `table_info`. */
  lemma {:induction false} TableInfoRemoved(data: seq<Record>)
    requires SplitSpec(data).Success?
    ensures forall s :: s in SplitSpec(data).value.timeRelated ==> "table_info" !in s
    ensures forall s :: s in SplitSpec(data).value.nonTimeRelated ==> "table_info" !in s
  {
    if data != [] {
      TableInfoRemoved(data[..|data| - 1]);
    }
  }
}
