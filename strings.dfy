/**
 * The Python `str` builtins the application relies on: `isspace`, `lower`,
 * `strip`, `splitlines`, `" ".join`, slicing `s[:n]` and `count`.
 *
 * Characters are modelled over ASCII: `IsSpace` and `IsLineBreak` are the
 * ASCII members of the sets Python uses for `str.isspace` and
 * `str.splitlines`, and `Lower` folds only 'A'..'Z'.
 */
module Strings {

  /** Python's `str.isspace` on ASCII: space, \t \n \v \f \r and \x1c..\x1f. */
  predicate IsSpace(c: char) {
    c == ' ' || 9 <= c as int <= 13 || 28 <= c as int <= 31
  }

  /** The ASCII line boundaries of `str.splitlines`: \n \v \f \r \x1c \x1d \x1e. */
  predicate IsLineBreak(c: char) {
    10 <= c as int <= 13 || 28 <= c as int <= 30
  }

  ghost predicate AllSpace(s: string) {
    forall k :: 0 <= k < |s| ==> IsSpace(s[k])
  }

  /** `sub` occurs in `s` at index `i`. */
  ghost predicate OccursAt(s: string, sub: string, i: int) {
    0 <= i && i + |sub| <= |s| && s[i..i + |sub|] == sub
  }

  /** Python's `sub in s`. */
  ghost predicate IsInfix(sub: string, s: string) {
    exists i :: OccursAt(s, sub, i)
  }

  lemma InfixOfConcat(a: string, b: string, c: string)
    ensures IsInfix(b, a + b + c)
  {
    assert (a + b + c)[|a|..|a| + |b|] == b;
    assert OccursAt(a + b + c, b, |a|);
  }

  lemma InfixTransitive(a: string, b: string, c: string)
    requires IsInfix(a, b) && IsInfix(b, c)
    ensures IsInfix(a, c)
  {
    var i :| OccursAt(b, a, i);
    var j :| OccursAt(c, b, j);
    forall t | 0 <= t < |a| ensures c[j + i + t] == a[t] {
      assert c[j + i + t] == c[j..j + |b|][i + t] == b[i + t] == b[i..i + |a|][t];
    }
    assert c[j + i..j + i + |a|] == a;
    assert OccursAt(c, a, j + i);
  }

  /** The parts written one after another. */
  function Concat(parts: seq<string>): string {
    if parts == [] then "" else parts[0] + Concat(parts[1..])
  }

  /** Every part occurs in the concatenation. */
  lemma {:induction false} ConcatHasEach(parts: seq<string>, k: nat)
    requires k < |parts|
    ensures IsInfix(parts[k], Concat(parts))
  {
    InfixOfConcat([], parts[0], Concat(parts[1..]));
    if k > 0 {
      ConcatHasEach(parts[1..], k - 1);
      InfixOfConcat(parts[0], Concat(parts[1..]), []);
      assert parts[0] + Concat(parts[1..]) + [] == Concat(parts);
      InfixTransitive(parts[k], Concat(parts[1..]), Concat(parts));
    } else {
      assert [] + parts[0] + Concat(parts[1..]) == Concat(parts);
    }
  }

  // ---------------------------------------------------------------- lower

  function LowerChar(c: char): char {
    if 'A' <= c <= 'Z' then (c as int + 32) as char else c
  }

  /** `str.lower()`: the same length, every character folded. */
  function Lower(s: string): (r: string)
    ensures |r| == |s|
    ensures forall k :: 0 <= k < |s| ==> r[k] == LowerChar(s[k])
  {
    seq(|s|, k requires 0 <= k < |s| => LowerChar(s[k]))
  }

  /**
   * After `lower()` no character is an upper-case letter, every other
   * character is kept where it was, and lowering again changes nothing.
   */
  lemma LowerFolds(s: string)
    ensures forall k :: 0 <= k < |s| ==> !('A' <= Lower(s)[k] <= 'Z')
    ensures forall k :: 0 <= k < |s| && !('A' <= s[k] <= 'Z') ==> Lower(s)[k] == s[k]
    ensures Lower(Lower(s)) == Lower(s)
  {
  }

  // ---------------------------------------------------------------- strip

  /** `r` sits at index `i` of `s` with only whitespace around it. */
  ghost predicate StrippedAt(s: string, r: string, i: int) {
    OccursAt(s, r, i) && AllSpace(s[..i]) && AllSpace(s[i + |r|..])
  }

  /**
   * `str.strip()`: `s` with its leading and trailing whitespace removed.
   * [[StripSpec]] states what the result is.
   */
  function Strip(s: string): (r: string)
    ensures |r| <= |s|
    decreases |s|
  {
    if |s| > 0 && IsSpace(s[0]) then Strip(s[1..])
    else if |s| > 0 && IsSpace(s[|s| - 1]) then Strip(s[..|s| - 1])
    else s
  }

  /**
   * The stripped text sits inside `s` with only whitespace around it, neither
   * of its ends is whitespace, and it is empty exactly when `s` is all
   * whitespace.
   */
  lemma {:induction false} StripSpec(s: string)
    ensures exists i :: StrippedAt(s, Strip(s), i)
    ensures Strip(s) == [] || (!IsSpace(Strip(s)[0]) && !IsSpace(Strip(s)[|Strip(s)| - 1]))
    ensures Strip(s) == [] <==> AllSpace(s)
    decreases |s|
  {
    if |s| > 0 && IsSpace(s[0]) {
      StripSpec(s[1..]);
      StripAfterFirst(s, s[1..], Strip(s));
    } else if |s| > 0 && IsSpace(s[|s| - 1]) {
      StripSpec(s[..|s| - 1]);
      StripBeforeLast(s, s[..|s| - 1], Strip(s));
    } else {
      assert Strip(s) == s;
      assert StrippedAt(s, s, 0) by { assert s[..0] == [] && s[0..|s|] == s && s[|s|..] == []; }
    }
  }

  /** Whitespace in front of `t` does not change what it strips to. */
  lemma StripAfterFirst(s: string, t: string, r: string)
    requires |s| > 0 && IsSpace(s[0]) && t == s[1..]
    requires exists i :: StrippedAt(t, r, i)
    requires r == [] <==> AllSpace(t)
    ensures exists i :: StrippedAt(s, r, i)
    ensures r == [] <==> AllSpace(s)
  {
    var i :| StrippedAt(t, r, i);
    assert s[i + 1..i + 1 + |r|] == t[i..i + |r|];
    assert s[..i + 1] == s[..1] + t[..i];
    assert s[i + 1 + |r|..] == t[i + |r|..];
    AllSpaceSplit(s[..1], t[..i]);
    assert StrippedAt(s, r, i + 1);
    assert s == s[..1] + t;
    AllSpaceSplit(s[..1], t);
  }

  /** Whitespace after `t` does not change what it strips to. */
  lemma StripBeforeLast(s: string, t: string, r: string)
    requires |s| > 0 && IsSpace(s[|s| - 1]) && t == s[..|s| - 1]
    requires exists i :: StrippedAt(t, r, i)
    requires r == [] <==> AllSpace(t)
    ensures exists i :: StrippedAt(s, r, i)
    ensures r == [] <==> AllSpace(s)
  {
    var i :| StrippedAt(t, r, i);
    assert s[i..i + |r|] == t[i..i + |r|];
    assert s[..i] == t[..i];
    assert s[i + |r|..] == t[i + |r|..] + s[|s| - 1..];
    AllSpaceSplit(t[i + |r|..], s[|s| - 1..]);
    assert StrippedAt(s, r, i);
    assert s == t + s[|s| - 1..];
    AllSpaceSplit(t, s[|s| - 1..]);
  }

  lemma AllSpaceSplit(x: string, y: string)
    ensures AllSpace(x + y) <==> AllSpace(x) && AllSpace(y)
  {
    if AllSpace(x + y) {
      forall k | 0 <= k < |y| ensures IsSpace(y[k]) { assert y[k] == (x + y)[|x| + k]; }
      forall k | 0 <= k < |x| ensures IsSpace(x[k]) { assert x[k] == (x + y)[k]; }
    }
    if AllSpace(x) && AllSpace(y) {
      AllSpaceConcat(x, y);
    }
  }

  lemma AllSpaceConcat(a: string, b: string)
    requires AllSpace(a) && AllSpace(b)
    ensures AllSpace(a + b)
  {
    forall k | 0 <= k < |a + b| ensures IsSpace((a + b)[k]) {
      if k < |a| { assert (a + b)[k] == a[k]; } else { assert (a + b)[k] == b[k - |a|]; }
    }
  }

  // ----------------------------------------------------------- splitlines

  /** Index of the first line boundary in `s`, or `|s|` if it has none. */
  function FirstBreak(s: string): (i: nat)
    ensures i <= |s|
    ensures forall k :: 0 <= k < i ==> !IsLineBreak(s[k])
    ensures i < |s| ==> IsLineBreak(s[i])
  {
    if s == [] || IsLineBreak(s[0]) then 0 else 1 + FirstBreak(s[1..])
  }

  /**
   * `str.splitlines()`: the lines of `s` without their boundaries; "\r\n"
   * is one boundary, and a boundary at the very end opens no further line.
   */
  function SplitLines(s: string): (lines: seq<string>)
    ensures forall k :: 0 <= k < |lines| ==> FirstBreak(lines[k]) == |lines[k]|
    decreases |s|
  {
    if s == [] then []
    else
      var i := FirstBreak(s);
      if i == |s| then [s]
      else
        NoBreakBefore(s, i);
        [s[..i]] + SplitLines(s[NextLine(s, i)..])
  }

  /** A position with no boundary before it and a boundary at it, or at the end, is the first boundary. */
  lemma FirstBreakIs(s: string, i: nat)
    requires i <= |s|
    requires forall k :: 0 <= k < i ==> !IsLineBreak(s[k])
    requires i < |s| ==> IsLineBreak(s[i])
    ensures FirstBreak(s) == i
  {
  }

  /** Where the line after the boundary at `i` starts; "\r\n" is a single boundary. */
  function NextLine(s: string, i: nat): (next: nat)
    requires i < |s|
    ensures i < next <= |s|
  {
    if s[i] == '\r' && i + 1 < |s| && s[i + 1] == '\n' then i + 2 else i + 1
  }

  lemma NoBreakBefore(s: string, i: nat)
    requires i <= |s|
    requires forall k :: 0 <= k < i ==> !IsLineBreak(s[k])
    ensures FirstBreak(s[..i]) == i
  {
    if i > 0 {
      assert s[..i][1..] == s[1..][..i - 1];
      NoBreakBefore(s[1..], i - 1);
    }
  }

  // ----------------------------------------------------------------- join

  /** `sep.join(parts)`. */
  function Join(sep: string, parts: seq<string>): string
  {
    if parts == [] then ""
    else if |parts| == 1 then parts[0]
    else parts[0] + sep + Join(sep, parts[1..])
  }

  /**
   * Lines without boundaries, joined with "\n", split back into the same
   * lines; the last line must be non-empty, as a final boundary opens no
   * further line.
   */
  lemma {:induction false} SplitJoinedLines(lines: seq<string>)
    requires lines != [] && lines[|lines| - 1] != []
    requires forall k :: 0 <= k < |lines| ==> FirstBreak(lines[k]) == |lines[k]|
    ensures SplitLines(Join("\n", lines)) == lines
  {
    var s := Join("\n", lines);
    var first := lines[0];
    if |lines| == 1 {
      assert s == first;
    } else {
      var rest := Join("\n", lines[1..]);
      assert s == first + "\n" + rest;
      FirstBreakIs(s, |first|);
      assert s[..|first|] == first && s[|first| + 1..] == rest;
      SplitJoinedLines(lines[1..]);
    }
  }

  /**
   * A text whose only line boundaries are "\n", and which does not end in
   * one, is its lines joined with "\n".
   */
  lemma {:induction false} JoinSplitLines(s: string)
    requires forall k :: 0 <= k < |s| && IsLineBreak(s[k]) ==> s[k] == '\n'
    requires s == [] || s[|s| - 1] != '\n'
    ensures Join("\n", SplitLines(s)) == s
    decreases |s|
  {
    if s != [] {
      var i := FirstBreak(s);
      if i < |s| {
        var rest := s[i + 1..];
        assert NextLine(s, i) == i + 1;
        assert rest != [];
        JoinSplitLines(rest);
        var lines := SplitLines(rest);
        assert SplitLines(s) == [s[..i]] + lines;
        assert lines != [];
        assert ([s[..i]] + lines)[1..] == lines;
        assert s == s[..i] + "\n" + rest;
      }
    }
  }


  function TotalLength(parts: seq<string>): nat {
    if parts == [] then 0 else |parts[0]| + TotalLength(parts[1..])
  }

  /** The joined text is the parts plus one separator between each neighbouring pair. */
  lemma {:induction false} JoinLength(sep: string, parts: seq<string>)
    requires parts != []
    ensures |Join(sep, parts)| == TotalLength(parts) + (|parts| - 1) * |sep|
  {
    if |parts| > 1 {
      JoinLength(sep, parts[1..]);
    }
  }

  /** The joined text starts with the first part, followed by a separator when more follow. */
  lemma JoinStartsWithFirst(sep: string, parts: seq<string>)
    requires parts != []
    ensures Join(sep, parts)[..|parts[0]|] == parts[0]
  {
  }

  // ---------------------------------------------------------------- slice

  /** Python's `s[:n]` for `n >= 0`. */
  function Prefix(s: string, n: nat): (r: string)
    ensures |r| == if |s| <= n then |s| else n
    ensures r == s[..|r|]
  {
    if |s| <= n then s else s[..n]
  }

  // ---------------------------------------------------------------- count

  /**
   * `s.count(sub)`: scanning left to right, every occurrence of `sub` is
   * counted and the scan resumes after it, so counted occurrences never
   * overlap. An empty `sub` occurs at each of the `|s| + 1` positions.
   */
  function Count(s: string, sub: string): nat
    decreases |s|
  {
    if |sub| == 0 then |s| + 1
    else if |s| < |sub| then 0
    else if s[..|sub|] == sub then 1 + Count(s[|sub|..], sub)
    else Count(s[1..], sub)
  }

  /** Counted occurrences fit in the text side by side. */
  lemma {:induction false} CountBound(s: string, sub: string)
    requires |sub| > 0
    ensures Count(s, sub) * |sub| <= |s|
    decreases |s|
  {
    if |s| >= |sub| {
      if s[..|sub|] == sub {
        var rest := s[|sub|..];
        CountBound(rest, sub);
        var c := Count(rest, sub);
        assert Count(s, sub) == c + 1;
        OneMoreFits(c, |sub|, |rest|);
      } else {
        CountBound(s[1..], sub);
        assert Count(s, sub) == Count(s[1..], sub);
      }
    }
  }

  lemma OneMoreFits(c: nat, width: nat, room: nat)
    requires c * width <= room
    ensures (c + 1) * width <= room + width
  {
  }

  /** The count is positive exactly when `sub in s`. */
  lemma {:induction false} CountPositiveIff(s: string, sub: string)
    requires |sub| > 0
    ensures Count(s, sub) > 0 <==> IsInfix(sub, s)
    decreases |s|
  {
    if |s| < |sub| {
      assert forall i :: !OccursAt(s, sub, i);
    } else if s[..|sub|] == sub {
      assert OccursAt(s, sub, 0);
    } else {
      CountPositiveIff(s[1..], sub);
      if IsInfix(sub, s[1..]) {
        var i :| OccursAt(s[1..], sub, i);
        OccursBeforeDrop(s, sub, i, 1);
      }
      if IsInfix(sub, s) {
        var i :| OccursAt(s, sub, i);
        assert i != 0;
        OccursAfterDrop(s, sub, i, 1);
      }
    }
  }

  /** `ps` lists occurrences of `sub` in `s`, in increasing order and non-overlapping. */
  ghost predicate NonOverlapping(s: string, sub: string, ps: seq<int>) {
    && (forall k :: 0 <= k < |ps| ==> OccursAt(s, sub, ps[k]))
    && (forall j, k :: 0 <= j < k < |ps| ==> ps[j] + |sub| <= ps[k])
  }

  function Shift(ps: seq<int>, d: int): (qs: seq<int>)
    ensures |qs| == |ps|
    ensures forall k :: 0 <= k < |ps| ==> qs[k] == ps[k] - d
  {
    seq(|ps|, k requires 0 <= k < |ps| => ps[k] - d)
  }

  lemma OccursAfterDrop(s: string, sub: string, i: int, d: nat)
    requires OccursAt(s, sub, i) && d <= i
    ensures OccursAt(s[d..], sub, i - d)
  {
    assert s[d..][i - d..i - d + |sub|] == s[i..i + |sub|];
  }

  lemma OccursBeforeDrop(s: string, sub: string, i: int, d: nat)
    requires d <= |s| && OccursAt(s[d..], sub, i)
    ensures OccursAt(s, sub, i + d)
  {
    assert s[d..][i..i + |sub|] == s[i + d..i + d + |sub|];
  }

  /**
   * The occurrences `Count` counts: the greedy leftmost non-overlapping ones.
   */
  function Matches(s: string, sub: string): seq<int>
    requires |sub| > 0
    decreases |s|
  {
    if |s| < |sub| then []
    else if s[..|sub|] == sub then [0] + Shift(Matches(s[|sub|..], sub), -|sub|)
    else Shift(Matches(s[1..], sub), -1)
  }

  /** Occurrences found after dropping `d` characters are occurrences of the whole text. */
  lemma ShiftBack(s: string, sub: string, ps: seq<int>, d: nat)
    requires d <= |s| && NonOverlapping(s[d..], sub, ps)
    ensures NonOverlapping(s, sub, Shift(ps, -(d as int)))
  {
    var qs := Shift(ps, -(d as int));
    forall k | 0 <= k < |qs| ensures OccursAt(s, sub, qs[k]) {
      OccursBeforeDrop(s, sub, ps[k], d);
    }
  }

  /** An occurrence at 0 extends occurrences that all start at `|sub|` or later. */
  lemma PrependAtStart(s: string, sub: string, qs: seq<int>)
    requires OccursAt(s, sub, 0) && NonOverlapping(s, sub, qs)
    requires forall k :: 0 <= k < |qs| ==> qs[k] >= |sub|
    ensures NonOverlapping(s, sub, [0] + qs)
  {
    var ps := [0] + qs;
    forall k | 0 <= k < |ps| ensures OccursAt(s, sub, ps[k]) {
      if k > 0 { assert ps[k] == qs[k - 1]; }
    }
    forall j, k | 0 <= j < k < |ps| ensures ps[j] + |sub| <= ps[k] {
      assert ps[k] == qs[k - 1];
      if j > 0 { assert ps[j] == qs[j - 1]; }
    }
  }

  /** `Count` counts actual, non-overlapping occurrences. */
  lemma {:induction false} MatchesAreOccurrences(s: string, sub: string)
    requires |sub| > 0
    ensures NonOverlapping(s, sub, Matches(s, sub))
    ensures |Matches(s, sub)| == Count(s, sub)
    decreases |s|
  {
    if |s| < |sub| {
    } else if s[..|sub|] == sub {
      var rest := Matches(s[|sub|..], sub);
      MatchesAreOccurrences(s[|sub|..], sub);
      ShiftBack(s, sub, rest, |sub|);
      assert OccursAt(s, sub, 0);
      PrependAtStart(s, sub, Shift(rest, -|sub|));
    } else {
      MatchesAreOccurrences(s[1..], sub);
      ShiftBack(s, sub, Matches(s[1..], sub), 1);
    }
  }

  /** No family of non-overlapping occurrences is larger than `Count`. */
  lemma {:induction false} CountIsMaximal(s: string, sub: string, ps: seq<int>)
    requires |sub| > 0 && NonOverlapping(s, sub, ps)
    ensures |ps| <= Count(s, sub)
    decreases |s|
  {
    if ps != [] {
      assert OccursAt(s, sub, ps[0]);
      if s[..|sub|] == sub {
        var qs := Shift(ps[1..], |sub|);
        DropMatched(s, sub, ps);
        CountIsMaximal(s[|sub|..], sub, qs);
      } else {
        var qs := Shift(ps, 1);
        DropUnmatched(s, sub, ps);
        CountIsMaximal(s[1..], sub, qs);
      }
    }
  }

  /** Occurrences after the first one are occurrences in the text past it. */
  lemma DropMatched(s: string, sub: string, ps: seq<int>)
    requires |sub| > 0 && ps != [] && NonOverlapping(s, sub, ps)
    requires |s| >= |sub| && s[..|sub|] == sub
    ensures NonOverlapping(s[|sub|..], sub, Shift(ps[1..], |sub|))
  {
    var qs := Shift(ps[1..], |sub|);
    forall k | 0 <= k < |qs| ensures OccursAt(s[|sub|..], sub, qs[k]) {
      assert OccursAt(s, sub, ps[k + 1]);
      assert ps[0] + |sub| <= ps[k + 1];
      OccursAfterDrop(s, sub, ps[k + 1], |sub|);
    }
  }

  /** With no occurrence at the start, every occurrence is one in the text past the first character. */
  lemma DropUnmatched(s: string, sub: string, ps: seq<int>)
    requires |sub| > 0 && ps != [] && NonOverlapping(s, sub, ps)
    requires |s| >= |sub| && s[..|sub|] != sub
    ensures NonOverlapping(s[1..], sub, Shift(ps, 1))
  {
    assert ps[0] != 0;
    var qs := Shift(ps, 1);
    forall k | 0 <= k < |qs| ensures OccursAt(s[1..], sub, qs[k]) {
      assert OccursAt(s, sub, ps[k]);
      assert k > 0 ==> ps[0] + |sub| <= ps[k];
      OccursAfterDrop(s, sub, ps[k], 1);
    }
  }
}
