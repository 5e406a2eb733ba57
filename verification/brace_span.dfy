/** The payload cut out of a summary message by `re.search(r"\{.*\}", text, re.DOTALL)`
    (neurality_voice_agent.py, `handle_conversation_item`). */
module BraceSpan {
  import opened Wrappers

  const Open := '{'
  const Close := '}'

  /** Reference meaning of the pattern: `\{.*\}` with DOTALL matches `s[i..j]` exactly when
      that slice starts with `{`, ends with `}` and is at least two characters long. */
  ghost predicate PatternMatches(s: string, i: nat, j: nat)
  {
    i + 2 <= j <= |s| && s[i] == Open && s[j - 1] == Close
  }

  /** A half-open slice `[start, stop)` of the text. */
  datatype Span = Span(start: nat, stop: nat)

  /** Reference meaning of `re.search` with a greedy `.*`: the leftmost start at which the
      pattern matches and, from that start, the longest match. */
  ghost predicate IsSearchResult(s: string, sp: Span)
  {
    && PatternMatches(s, sp.start, sp.stop)
    && (forall i: nat, j: nat :: PatternMatches(s, i, j) ==> sp.start <= i)
    && (forall j: nat :: PatternMatches(s, sp.start, j) ==> j <= sp.stop)
  }

  /** Index of the first `c` in `s`. */
  function FirstIndex(s: string, c: char): (r: Option<nat>)
    ensures r.Some? ==> r.value < |s| && s[r.value] == c
    ensures r.Some? ==> forall k :: 0 <= k < r.value ==> s[k] != c
    ensures r.None? ==> forall k :: 0 <= k < |s| ==> s[k] != c
  {
    if |s| == 0 then None
    else if s[0] == c then Some(0)
    else
      match FirstIndex(s[1..], c)
      case None => None
      case Some(k) => Some(k + 1)
  }

  /** Index of the last `c` in `s`. */
  function LastIndex(s: string, c: char): (r: Option<nat>)
    ensures r.Some? ==> r.value < |s| && s[r.value] == c
    ensures r.Some? ==> forall k :: r.value < k < |s| ==> s[k] != c
    ensures r.None? ==> forall k :: 0 <= k < |s| ==> s[k] != c
  {
    if |s| == 0 then None
    else if s[|s| - 1] == c then Some(|s| - 1)
    else LastIndex(s[..|s| - 1], c)
  }

  /** The scan the regex search amounts to: from the first `{` to the last `}`, provided that
      `}` lies after the `{`. It finds exactly what the regex search finds, and nothing when the
      regex search finds nothing. */
  function FindSpan(s: string): (r: Option<Span>)
    ensures r.Some? ==> IsSearchResult(s, r.value)
    ensures r.None? ==> forall i: nat, j: nat :: !PatternMatches(s, i, j)
  {
    match (FirstIndex(s, Open), LastIndex(s, Close))
    case (Some(a), Some(b)) =>
      if a < b then Some(Span(a, b + 1)) else None
    case _ => None
  }

  /** `match.group(0)`, or `None` when `re.search` returns no match. */
  function Extract(s: string): (r: Option<string>)
    ensures r.Some? ==> |r.value| >= 2 && r.value[0] == Open && r.value[|r.value| - 1] == Close
  {
    match FindSpan(s)
    case None => None
    case Some(sp) => Some(s[sp.start..sp.stop])
  }

  /** A span exists exactly when some `{` comes before some `}`. */
  lemma SpanExistsIff(s: string)
    ensures FindSpan(s).Some? <==> exists i, j :: 0 <= i < j < |s| && s[i] == Open && s[j] == Close
  {
    if exists i, j :: 0 <= i < j < |s| && s[i] == Open && s[j] == Close {
      var i, j :| 0 <= i < j < |s| && s[i] == Open && s[j] == Close;
      assert PatternMatches(s, i, j + 1);
    }
  }

  /** The extracted text is the slice of the input from its first `{` to its last `}`, both
      included; `a` and `b` are the indices of those two braces. */
  lemma ExtractIsFirstOpenToLastClose(s: string) returns (a: nat, b: nat)
    requires Extract(s).Some?
    ensures a < b < |s| && s[a] == Open && s[b] == Close
    ensures Extract(s) == Some(s[a..b + 1])
    ensures forall k :: 0 <= k < a ==> s[k] != Open
    ensures forall k :: b < k < |s| ==> s[k] != Close
  {
    var sp := FindSpan(s).value;
    a, b := sp.start, sp.stop - 1;
  }

  /** Over-capture: with a brace-delimited region `x`, then `middle`, then a second region `y`,
      and no `{` before `x` nor `}` after `y`, the extracted text is `x + middle + y`: both
      regions and everything between them. */
  lemma {:induction false} OverCapture(prefix: string, x: string, middle: string, y: string, suffix: string)
    requires |x| >= 1 && x[0] == Open
    requires |y| >= 1 && y[|y| - 1] == Close
    requires forall k :: 0 <= k < |prefix| ==> prefix[k] != Open
    requires forall k :: 0 <= k < |suffix| ==> suffix[k] != Close
    ensures Extract(prefix + x + middle + y + suffix) == Some(x + middle + y)
  {
    var s := prefix + x + middle + y + suffix;
    var a := |prefix|;
    var b := |prefix| + |x| + |middle| + |y| - 1;
    assert s[a] == Open;
    assert s[b] == Close;
    assert PatternMatches(s, a, b + 1);
    var sp := FindSpan(s).value;
    forall k | 0 <= k < a
      ensures s[k] != Open
    {
      assert s[k] == prefix[k];
    }
    forall k | b < k < |s|
      ensures s[k] != Close
    {
      assert s[k] == suffix[k - b - 1];
    }
    assert sp == Span(a, b + 1);
    assert s[a..b + 1] == x + middle + y;
  }

  /** Extracting again from the extracted text gives it back unchanged. */
  lemma ExtractIdempotent(s: string)
    requires Extract(s).Some?
    ensures Extract(Extract(s).value) == Extract(s)
  {
    var t := Extract(s).value;
    OverCapture("", [Open], t[1..|t| - 1], [Close], "");
    assert [Open] + t[1..|t| - 1] + [Close] == t;
    assert "" + [Open] + t[1..|t| - 1] + [Close] + "" == t;
  }
}
