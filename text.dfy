/** The few operations on Python `str` values that the modelled code uses:
    `isspace`/`strip`, `find`, `in` (substring test), `split`, `replace` and
    an ASCII `lower`. */
module Text {
  import opened Wrappers

  /** Python's `str.isspace` for one character: the characters of bidirectional
      class WS, B or S and those of category Zs. */
  predicate IsSpace(c: char)
  {
    || c == ' ' || ('\t' <= c <= '\r') || ('\U{1c}' <= c <= '\U{1f}')
    || c == '\U{85}' || c == '\U{a0}' || c == '\U{1680}'
    || ('\U{2000}' <= c <= '\U{200a}') || c == '\U{2028}' || c == '\U{2029}'
    || c == '\U{202f}' || c == '\U{205f}' || c == '\U{3000}'
  }

  predicate AllSpace(s: string)
  {
    forall k :: 0 <= k < |s| ==> IsSpace(s[k])
  }

  /** Number of leading whitespace characters. */
  function LeadingSpace(s: string): (n: nat)
    ensures n <= |s|
    ensures forall k :: 0 <= k < n ==> IsSpace(s[k])
    ensures n < |s| ==> !IsSpace(s[n])
  {
    if s == [] || !IsSpace(s[0]) then 0
    else 1 + LeadingSpace(s[1..])
  }

  /** Number of trailing whitespace characters. */
  function TrailingSpace(s: string): (n: nat)
    ensures n <= |s|
    ensures forall k :: |s| - n <= k < |s| ==> IsSpace(s[k])
    ensures n < |s| ==> !IsSpace(s[|s| - n - 1])
  {
    if s == [] || !IsSpace(s[|s| - 1]) then 0
    else
      var front := s[..|s| - 1];
      var m := TrailingSpace(front);
      assert forall k :: |s| - 1 - m <= k < |s| - 1 ==> s[k] == front[k];
      m + 1
  }

  /** Python's `s.strip()`: a slice of `s` that neither starts nor ends with
      whitespace, with only whitespace cut off on either side. */
  function Strip(s: string): (r: string)
    ensures |r| <= |s|
    ensures exists i, j :: 0 <= i <= j <= |s| && r == s[i..j] && AllSpace(s[..i]) && AllSpace(s[j..])
    ensures r != [] ==> !IsSpace(r[0]) && !IsSpace(r[|r| - 1])
    ensures AllSpace(s) <==> r == []
  {
    var i := LeadingSpace(s);
    var t := TrailingSpace(s[i..]);
    StripBounds(s, i, t);
    s[i..|s| - t]
  }

  lemma StripBounds(s: string, i: nat, t: nat)
    requires i == LeadingSpace(s) && t == TrailingSpace(s[i..])
    ensures i <= |s| - t
    ensures AllSpace(s[..i]) && AllSpace(s[|s| - t..])
    ensures i < |s| - t ==> !IsSpace(s[i]) && !IsSpace(s[|s| - t - 1])
    ensures AllSpace(s) <==> i == |s| - t
  {
    StripEdges(s, i, t);
    if i < |s| {
      StripInner(s, i, t);
    } else {
      forall k | 0 <= k < |s| ensures IsSpace(s[k]) {
        assert s[..i][k] == s[k];
      }
    }
  }

  lemma StripEdges(s: string, i: nat, t: nat)
    requires i == LeadingSpace(s) && t == TrailingSpace(s[i..])
    ensures i <= |s| - t
    ensures AllSpace(s[..i]) && AllSpace(s[|s| - t..])
  {
    var rest, head, tail := s[i..], s[..i], s[|s| - t..];
    assert |tail| == t <= |rest|;
    forall k | 0 <= k < |tail| ensures IsSpace(tail[k]) {
      var m := |rest| - t + k;
      assert IsSpace(rest[m]);
      assert tail[k] == rest[m];
    }
    forall k | 0 <= k < |head| ensures IsSpace(head[k]) {
      assert IsSpace(s[k]);
      assert head[k] == s[k];
    }
  }

  lemma StripInner(s: string, i: nat, t: nat)
    requires i == LeadingSpace(s) && t == TrailingSpace(s[i..])
    requires i < |s|
    ensures i < |s| - t && !IsSpace(s[i]) && !IsSpace(s[|s| - t - 1]) && !AllSpace(s)
  {
    var rest := s[i..];
    assert !IsSpace(s[i]);
    assert !IsSpace(rest[0]);
    assert t < |rest|;
    var m := |rest| - t - 1;
    assert !IsSpace(rest[m]);
    assert rest[m] == s[i + m];
  }

  /** `pat` occurs in `s` starting at index `i`. */
  predicate OccursAt(s: string, pat: string, i: int)
  {
    0 <= i && i + |pat| <= |s| && s[i..i + |pat|] == pat
  }

  /** Python's `pat in s` for strings. */
  predicate Contains(s: string, pat: string)
  {
    exists i | 0 <= i <= |s| :: OccursAt(s, pat, i)
  }

  /** Python's `s.find(pat, from)`: the first occurrence of `pat` at or after `from`. */
  function Find(s: string, pat: string, from: nat): (r: Option<nat>)
    decreases |s| - from
    ensures r.Some? ==> from <= r.value && OccursAt(s, pat, r.value)
    ensures r.Some? ==> forall k :: from <= k < r.value ==> !OccursAt(s, pat, k)
    ensures r.None? ==> forall k :: from <= k ==> !OccursAt(s, pat, k)
  {
    if from + |pat| > |s| then None
    else if s[from..from + |pat|] == pat then Some(from)
    else Find(s, pat, from + 1)
  }

  lemma FindIffContains(s: string, pat: string)
    ensures Find(s, pat, 0).Some? <==> Contains(s, pat)
  {
    if Contains(s, pat) {
      var i :| OccursAt(s, pat, i);
    }
  }

  /** Python's `s.split(sep)` for a non-empty separator: the pieces between
      non-overlapping occurrences of `sep`, scanned from the left. */
  function Split(s: string, sep: string): (r: seq<string>)
    requires sep != []
    decreases |s|
    ensures |r| >= 1
  {
    match Find(s, sep, 0)
    case None => [s]
    case Some(i) => [s[..i]] + Split(s[i + |sep|..], sep)
  }

  /** Python's `sep.join(parts)`. */
  function Join(parts: seq<string>, sep: string): string
  {
    if parts == [] then []
    else if |parts| == 1 then parts[0]
    else parts[0] + sep + Join(parts[1..], sep)
  }

  lemma JoinCons(head: string, tail: seq<string>, sep: string)
    requires tail != []
    ensures Join([head] + tail, sep) == head + sep + Join(tail, sep)
  {
    assert ([head] + tail)[1..] == tail;
  }

  /** Splitting and joining again gives back the original text. */
  lemma {:induction false} SplitJoin(s: string, sep: string)
    requires sep != []
    ensures Join(Split(s, sep), sep) == s
    decreases |s|
  {
    var f := Find(s, sep, 0);
    if f.Some? {
      var i := f.value;
      var rest := s[i + |sep|..];
      var tail := Split(rest, sep);
      SplitJoin(rest, sep);
      assert Split(s, sep) == [s[..i]] + tail;
      JoinCons(s[..i], tail, sep);
      assert s == s[..i] + s[i..i + |sep|] + rest;
    }
  }

  /** No piece of a split contains the separator. */
  lemma {:induction false} SplitPiecesFree(s: string, sep: string)
    requires sep != []
    ensures forall p :: p in Split(s, sep) ==> !Contains(p, sep)
    decreases |s|
  {
    match Find(s, sep, 0)
    case None =>
      forall k | OccursAt(s, sep, k) ensures false { }
    case Some(i) =>
      SplitPiecesFree(s[i + |sep|..], sep);
      forall k | OccursAt(s[..i], sep, k) ensures false {
        assert s[k..k + |sep|] == s[..i][k..k + |sep|];
        assert OccursAt(s, sep, k);
      }
  }

  /** Python's `s.replace(old, new)` for a non-empty `old`: every non-overlapping
      occurrence, scanned from the left, is replaced. */
  function ReplaceAll(s: string, target: string, replacement: string): string
    requires target != []
    decreases |s|
  {
    match Find(s, target, 0)
    case None => s
    case Some(i) => s[..i] + replacement + ReplaceAll(s[i + |target|..], target, replacement)
  }

  /** A text without an occurrence of `target` is left unchanged. */
  lemma ReplaceAllAbsent(s: string, target: string, replacement: string)
    requires target != []
    requires !Contains(s, target)
    ensures ReplaceAll(s, target, replacement) == s
  {
    FindIffContains(s, target);
  }

  /** Replacing is splitting on `target` and joining with `replacement`: every
      piece between two occurrences is kept and each occurrence is replaced. */
  lemma {:induction false} ReplaceAllSplit(s: string, target: string, replacement: string)
    requires target != []
    ensures ReplaceAll(s, target, replacement) == Join(Split(s, target), replacement)
    decreases |s|
  {
    var f := Find(s, target, 0);
    if f.Some? {
      var i := f.value;
      var rest := s[i + |target|..];
      ReplaceAllSplit(rest, target, replacement);
      JoinCons(s[..i], Split(rest, target), replacement);
    }
  }

  /** Lower-cases one ASCII letter; every other character is kept. */
  function LowerChar(c: char): char
  {
    if 'A' <= c <= 'Z' then (c as int - 'A' as int + 'a' as int) as char else c
  }

  /** Python's `s.lower()`, restricted to ASCII letters. */
  function Lower(s: string): string
  {
    seq(|s|, k requires 0 <= k < |s| => LowerChar(s[k]))
  }
}
