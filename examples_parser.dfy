/** The parser of few-shot examples (`parse_examples` in ppl/utils.py): the
    text is cut into blank-line separated blocks, and each block that holds all
    four of `<request>`, `<ppl>`, `<python>` and `<full_desc>` becomes one
    example. */
module ExamplesParser {
  import opened Wrappers
  import opened Text

  /** One parsed example; the four fields are exactly the dictionary's keys. */
  datatype Example = Example(request: string, ppl: string, python: string, fullDesc: string)

  function Open(tag: string): string { "<" + tag + ">" }
  function Close(tag: string): string { "</" + tag + ">" }

  /** `re.search(r"<tag>(.*?)</tag>", s, re.DOTALL).group(1)`: the text after
      the first opening tag up to the first closing tag after it. A later
      opening tag cannot help when the first has no closing tag after it,
      since it leaves even less text to search. */
  function SearchTag(s: string, tag: string): Option<string>
  {
    var open, close := Open(tag), Close(tag);
    match Find(s, open, 0)
    case None => None
    case Some(i) =>
      match Find(s, close, i + |open|)
      case None => None
      case Some(j) => Some(s[i + |open|..j])
  }

  /** The search succeeds exactly when some opening tag is followed by a
      closing tag. */
  lemma SearchTagFound(s: string, tag: string)
    ensures SearchTag(s, tag).Some? <==>
      exists i, j :: OccursAt(s, Open(tag), i) && i + |Open(tag)| <= j && OccursAt(s, Close(tag), j)
  {
    var open, close := Open(tag), Close(tag);
    match Find(s, open, 0)
    case None =>
    case Some(i) =>
      match Find(s, close, i + |open|)
      case None =>
        forall a, b | OccursAt(s, open, a) && a + |open| <= b ensures !OccursAt(s, close, b) {
          assert i <= a;
        }
      case Some(j) =>
        assert OccursAt(s, open, i) && i + |open| <= j && OccursAt(s, close, j);
  }

  /** The capture sits between the first opening tag and the first closing
      tag after it. */
  lemma SearchTagCapture(s: string, tag: string)
    requires SearchTag(s, tag).Some?
    ensures
      exists i ::
        && OccursAt(s, Open(tag) + SearchTag(s, tag).value + Close(tag), i)
        && (forall k :: 0 <= k < i ==> !OccursAt(s, Open(tag), k))
        && (forall k :: i + |Open(tag)| <= k < i + |Open(tag)| + |SearchTag(s, tag).value| ==> !OccursAt(s, Close(tag), k))
  {
    var open, close := Open(tag), Close(tag);
    var i := Find(s, open, 0).value;
    var j := Find(s, close, i + |open|).value;
    assert SearchTag(s, tag).value == s[i + |open|..j];
    OccursAround(s, open, close, i, j);
  }

  /** An opening tag at `i` and a closing tag at `j` after it frame the text
      between them. */
  lemma OccursAround(s: string, open: string, close: string, i: nat, j: nat)
    requires OccursAt(s, open, i) && i + |open| <= j && OccursAt(s, close, j)
    ensures OccursAt(s, open + s[i + |open|..j] + close, i)
  {
    var v := s[i + |open|..j];
    assert |open + v + close| == j + |close| - i;
    assert s[i..j + |close|] == s[i..i + |open|] + s[i + |open|..j] + s[j..j + |close|];
  }

  /** The blocks of the input: the stripped text split on blank lines, each
      piece stripped. */
  function Blocks(input: string): (bs: seq<string>)
    ensures |bs| == |Split(Strip(input), "\n\n")|
    ensures forall k :: 0 <= k < |bs| ==> bs[k] == Strip(Split(Strip(input), "\n\n")[k])
  {
    var pieces := Split(Strip(input), "\n\n");
    seq(|pieces|, k requires 0 <= k < |pieces| => Strip(pieces[k]))
  }

  /** The example a block yields: none for an empty block or one missing any
      of the four tags. */
  function ParseBlock(b: string): (r: Option<Example>)
    ensures r.Some? <==> b != [] && SearchTag(b, "request").Some? && SearchTag(b, "ppl").Some?
                         && SearchTag(b, "python").Some? && SearchTag(b, "full_desc").Some?
    ensures r.Some? ==> r.value == Example(SearchTag(b, "request").value, SearchTag(b, "ppl").value,
                                           SearchTag(b, "python").value, SearchTag(b, "full_desc").value)
  {
    if b == [] then None
    else
      match (SearchTag(b, "request"), SearchTag(b, "ppl"), SearchTag(b, "python"), SearchTag(b, "full_desc"))
      case (Some(req), Some(ppl), Some(py), Some(desc)) => Some(Example(req, ppl, py, desc))
      case _ => None
  }

  /** What each block yields, block by block. */
  function Parsed(bs: seq<string>): (os: seq<Option<Example>>)
    ensures |os| == |bs| && forall k :: 0 <= k < |bs| ==> os[k] == ParseBlock(bs[k])
  {
    seq(|bs|, k requires 0 <= k < |bs| => ParseBlock(bs[k]))
  }

  /** The examples among the per-block outcomes, in block order. */
  function Keep(os: seq<Option<Example>>): (r: seq<Example>)
    ensures |r| <= |os|
  {
    if os == [] then []
    else Keep(os[..|os| - 1]) + (match os[|os| - 1] case Some(e) => [e] case None => [])
  }

  /** `parse_examples`. */
  method ParseExamples(input: string) returns (result: seq<Example>)
    ensures result == Keep(Parsed(Blocks(input)))
  {
    var examples := Blocks(input);
    ghost var os := Parsed(examples);
    result := [];
    for i := 0 to |examples|
      invariant result == Keep(os[..i])
    {
      KeepSnoc(os, i);
      var parsed := ParseOne(examples[i]);
      if parsed.Some? {
        result := result + [parsed.value];
      }
    }
    assert os[..|os|] == os;
  }

  /** The body of the loop of `parse_examples` for one block. */
  method ParseOne(example: string) returns (r: Option<Example>)
    ensures r == ParseBlock(example)
  {
    if example == [] {
      return None;
    }
    var request := SearchTag(example, "request");
    var ppl := SearchTag(example, "ppl");
    var python := SearchTag(example, "python");
    var fullDesc := SearchTag(example, "full_desc");
    if request.Some? && ppl.Some? && python.Some? && fullDesc.Some? {
      r := Some(Example(request.value, ppl.value, python.value, fullDesc.value));
    } else {
      r := None;
    }
  }

  lemma KeepSnoc(os: seq<Option<Example>>, i: nat)
    requires i < |os|
    ensures Keep(os[..i + 1]) == Keep(os[..i]) + (match os[i] case Some(e) => [e] case None => [])
  {
    assert os[..i + 1][..i] == os[..i];
  }

  /** The examples come from the blocks in order: there is a strictly
      increasing choice of blocks, one per example, each yielding it, and
      every block that yields an example is chosen. */
  lemma {:induction false} KeepOrder(os: seq<Option<Example>>) returns (idx: seq<nat>)
    ensures |idx| == |Keep(os)|
    ensures forall k :: 0 <= k < |idx| ==> idx[k] < |os| && os[idx[k]] == Some(Keep(os)[k])
    ensures forall a, b :: 0 <= a < b < |idx| ==> idx[a] < idx[b]
    ensures forall j :: 0 <= j < |os| && os[j].Some? ==> j in idx
  {
    if os == [] {
      idx := [];
    } else {
      var n := |os| - 1;
      var init := os[..n];
      var front := KeepOrder(init);
      var tail: seq<Example> := match os[n] case Some(e) => [e] case None => [];
      assert os[..n + 1] == os;
      KeepSnoc(os, n);
      idx := front + (if tail == [] then [] else [n]);
      forall k | 0 <= k < |idx|
        ensures idx[k] < |os| && os[idx[k]] == Some(Keep(os)[k])
      {
        if k < |front| {
          assert idx[k] == front[k] && init[front[k]] == os[front[k]];
          assert Keep(os)[k] == Keep(init)[k];
        }
      }
      forall j | 0 <= j < |os| && os[j].Some? ensures j in idx {
        if j < n {
          assert init[j] == os[j];
          assert j in front;
        } else {
          assert idx[|idx| - 1] == n;
        }
      }
    }
  }

  /** Every block is stripped; the pieces between the blank-line separators
      contain no separator, and joining them with blank lines gives back the
      stripped input. */
  lemma BlocksMeaning(input: string)
    ensures forall k :: 0 <= k < |Blocks(input)| ==> Blocks(input)[k] == Strip(Blocks(input)[k])
    ensures forall p :: p in Split(Strip(input), "\n\n") ==> !Contains(p, "\n\n")
    ensures Join(Split(Strip(input), "\n\n"), "\n\n") == Strip(input)
  {
    SplitJoin(Strip(input), "\n\n");
    SplitPiecesFree(Strip(input), "\n\n");
    forall k | 0 <= k < |Blocks(input)| ensures Blocks(input)[k] == Strip(Blocks(input)[k]) {
      StripIdempotent(Split(Strip(input), "\n\n")[k]);
    }
  }

  /** Stripping twice is stripping once. */
  lemma StripIdempotent(s: string)
    ensures Strip(Strip(s)) == Strip(s)
  {
    var r := Strip(s);
    if r != [] {
      var i := LeadingSpace(r);
      assert i == 0;
      var t := TrailingSpace(r);
      assert r[0..] == r;
      assert t == 0;
    } else {
      assert AllSpace(r);
    }
  }
}
