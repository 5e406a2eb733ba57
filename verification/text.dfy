/** The few Python string operations the core relies on: `in`, `str.join` and `str.split`. */
module Text {
  import opened Wrappers

  /** `sub` occurs in `s` starting at index `i`. */
  predicate OccursAt(s: string, sub: string, i: nat)
  {
    i + |sub| <= |s| && s[i..i + |sub|] == sub
  }

  /** Reference meaning of Python's `sub in s`: some index where `sub` starts. */
  ghost predicate Occurs(s: string, sub: string)
  {
    exists i: nat :: OccursAt(s, sub, i)
  }

  /** Dropping the first character of `s` moves every occurrence one place left. */
  lemma OccursAtTail(s: string, sub: string)
    requires |s| > 0
    ensures forall j: nat :: OccursAt(s[1..], sub, j) <==> OccursAt(s, sub, j + 1)
  {
    forall j: nat
      ensures OccursAt(s[1..], sub, j) <==> OccursAt(s, sub, j + 1)
    {
      if j + 1 + |sub| <= |s| {
        assert s[1..][j..j + |sub|] == s[j + 1..j + 1 + |sub|];
      }
    }
  }

  /** When `sub` is not at the front of `s`, its occurrences in `s` are those of `s[1..]`, shifted. */
  lemma IndexOfStep(s: string, sub: string)
    requires |s| >= |sub| && s[..|sub|] != sub
    ensures forall j: nat :: OccursAt(s, sub, j) <==> j > 0 && OccursAt(s[1..], sub, j - 1)
  {
    OccursAtTail(s, sub);
  }

  /** The leftmost index where `sub` occurs in `s`: the scan behind `in` and `split`. */
  function IndexOf(s: string, sub: string): (r: Option<nat>)
    ensures r.Some? ==> OccursAt(s, sub, r.value)
    ensures r.Some? ==> forall j: nat :: j < r.value ==> !OccursAt(s, sub, j)
    ensures r.None? ==> forall j: nat :: !OccursAt(s, sub, j)
    decreases |s|
  {
    if |s| < |sub| then None
    else if s[..|sub|] == sub then Some(0)
    else
      IndexOfStep(s, sub);
      match IndexOf(s[1..], sub)
      case None => None
      case Some(k) => Some(k + 1)
  }

  /** Python's `sub in s`. */
  predicate Contains(s: string, sub: string)
  {
    IndexOf(s, sub).Some?
  }

  /** The scan agrees with the reference meaning of substring containment, in both directions. */
  lemma ContainsMeansOccurs(s: string, sub: string)
    ensures Contains(s, sub) <==> Occurs(s, sub)
  {
    var r := IndexOf(s, sub);
    if r.Some? {
      assert OccursAt(s, sub, r.value);
    }
  }

  /** Python's `sep.join(parts)`. */
  function Join(parts: seq<string>, sep: string): string
  {
    if |parts| == 0 then ""
    else if |parts| == 1 then parts[0]
    else parts[0] + sep + Join(parts[1..], sep)
  }

  /** Python's `s.split(sep)` for a non-empty separator: cut `s` at each leftmost,
      non-overlapping occurrence of `sep`. Python raises `ValueError` on an empty separator. */
  function Split(s: string, sep: string): (r: seq<string>)
    requires |sep| > 0
    ensures |r| >= 1
    ensures forall k :: 0 <= k < |r| ==> !Contains(r[k], sep)
    decreases |s|
  {
    match IndexOf(s, sep)
    case None => [s]
    case Some(i) =>
      PrefixBeforeFirstHasNone(s, sep, i);
      [s[..i]] + Split(s[i + |sep|..], sep)
  }

  /** The text before the leftmost occurrence of `sep` contains no `sep`. */
  lemma PrefixBeforeFirstHasNone(s: string, sep: string, i: nat)
    requires |sep| > 0
    requires IndexOf(s, sep) == Some(i)
    ensures !Contains(s[..i], sep)
  {
    if Contains(s[..i], sep) {
      var j := IndexOf(s[..i], sep).value;
      assert s[..i][j..j + |sep|] == s[j..j + |sep|];
      assert OccursAt(s, sep, j);
    }
  }

  /** Joining a piece in front of a non-empty list puts one separator between them. */
  lemma JoinCons(x: string, tail: seq<string>, sep: string)
    requires |tail| > 0
    ensures Join([x] + tail, sep) == x + sep + Join(tail, sep)
  {
    assert ([x] + tail)[1..] == tail;
  }

  /** Splitting and re-joining with the same separator gives back the text. */
  lemma {:induction false} JoinSplit(s: string, sep: string)
    requires |sep| > 0
    ensures Join(Split(s, sep), sep) == s
    decreases |s|
  {
    var r := IndexOf(s, sep);
    if r.None? {
      assert Split(s, sep) == [s];
    } else {
      var i := r.value;
      var rest := s[i + |sep|..];
      var tail := Split(rest, sep);
      assert Split(s, sep) == [s[..i]] + tail;
      JoinSplit(rest, sep);
      JoinCons(s[..i], tail, sep);
      assert s[i..i + |sep|] == sep;
      assert s == s[..i] + sep + rest;
    }
  }

  /** The separator used for the e-mail recipient header. */
  const CommaSpace := ", "

  /** When `x` holds no ", ", the first ", " in `x + ", " + rest` is the one right after `x`. */
  lemma FirstSeparatorAfterPiece(x: string, rest: string)
    requires !Contains(x, CommaSpace)
    ensures IndexOf(x + CommaSpace + rest, CommaSpace) == Some(|x|)
  {
    var s := x + CommaSpace + rest;
    assert s[|x|..|x| + 2] == CommaSpace;
    assert OccursAt(s, CommaSpace, |x|);
    forall j: nat | j < |x|
      ensures !OccursAt(s, CommaSpace, j)
    {
      if j + 1 < |x| {
        assert x[j..j + 2] == s[j..j + 2];
        assert !OccursAt(x, CommaSpace, j);
      } else {
        assert s[j..j + 2][1] == s[|x|] == ',';
      }
    }
  }

  /** `str.split(", ")` undoes `", ".join(parts)` when no part contains ", ".
      An empty list does not come back: `", ".join([])` is "" and "".split(", ") is [""]. */
  lemma {:induction false} SplitJoin(parts: seq<string>)
    requires |parts| > 0
    requires forall k :: 0 <= k < |parts| ==> !Contains(parts[k], CommaSpace)
    ensures Split(Join(parts, CommaSpace), CommaSpace) == parts
    decreases |parts|
  {
    if |parts| == 1 {
      assert Join(parts, CommaSpace) == parts[0];
    } else {
      var rest := Join(parts[1..], CommaSpace);
      FirstSeparatorAfterPiece(parts[0], rest);
      SplitJoin(parts[1..]);
      var s := parts[0] + CommaSpace + rest;
      assert s[..|parts[0]|] == parts[0];
      assert s[|parts[0]| + 2..] == rest;
      assert parts == [parts[0]] + parts[1..];
    }
  }

  /** A text without a comma has no ", " in it. */
  lemma NoCommaNoSeparator(x: string)
    requires forall i :: 0 <= i < |x| ==> x[i] != ','
    ensures !Contains(x, CommaSpace)
  {
    forall j: nat | j + 2 <= |x|
      ensures !OccursAt(x, CommaSpace, j)
    {
      assert x[j..j + 2][0] == x[j];
    }
    ContainsMeansOccurs(x, CommaSpace);
  }
}
