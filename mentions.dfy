/**
 * The competitor mention counts behind the bar chart: the competitors text
 * area is split into stripped, non-blank lines, and for each competitor the
 * case-insensitive occurrences of its name in the "Competitor Mentions"
 * result are counted with `str.count` and stored in a dict keyed by name.
 */
module Mentions {
  import opened Wrappers
  import opened Strings
  import opened OrderedMaps

  /** `[c.strip()]` if that is non-empty, otherwise nothing. */
  function Entry(line: string): seq<string> {
    if Strip(line) == [] then [] else [Strip(line)]
  }

  function NonBlankStripped(lines: seq<string>): seq<string> {
    if lines == [] then [] else Entry(lines[0]) + NonBlankStripped(lines[1..])
  }

  /**
   * `[c.strip() for c in competitors.splitlines() if c.strip()]`, read line
   * by line: the first line's entry, then the competitors of the text after
   * its boundary. [[CompetitorListIsComprehension]] shows this is the
   * comprehension over `splitlines()`.
   */
  function CompetitorList(competitors: string): seq<string>
    decreases |competitors|
  {
    if competitors == [] then []
    else
      var i := FirstBreak(competitors);
      if i == |competitors| then Entry(competitors)
      else Entry(competitors[..i]) + CompetitorList(competitors[NextLine(competitors, i)..])
  }

  lemma {:induction false} CompetitorListIsComprehension(competitors: string)
    ensures CompetitorList(competitors) == NonBlankStripped(SplitLines(competitors))
    decreases |competitors|
  {
    var s := competitors;
    if s != [] {
      var i := FirstBreak(s);
      if i == |s| {
        assert SplitLines(s) == [s];
        assert NonBlankStripped([s]) == Entry(s) + NonBlankStripped([]);
      } else {
        var next := NextLine(s, i);
        var rest := SplitLines(s[next..]);
        assert SplitLines(s) == [s[..i]] + rest;
        NonBlankStrippedAppend([s[..i]], rest);
        assert NonBlankStripped([s[..i]]) == Entry(s[..i]) + NonBlankStripped([]);
        CompetitorListIsComprehension(s[next..]);
      }
    }
  }

  /** Every competitor name is non-empty and neither starts nor ends with whitespace. */
  lemma CompetitorNamesStripped(competitors: string)
    ensures forall name | name in CompetitorList(competitors) ::
      name != [] && !IsSpace(name[0]) && !IsSpace(name[|name| - 1])
  {
    CompetitorListIsComprehension(competitors);
    NonBlankStrippedNames(SplitLines(competitors));
  }

  lemma {:induction false} NonBlankStrippedNames(lines: seq<string>)
    ensures forall name | name in NonBlankStripped(lines) ::
      name != [] && !IsSpace(name[0]) && !IsSpace(name[|name| - 1])
  {
    if lines != [] {
      StripSpec(lines[0]);
      NonBlankStrippedNames(lines[1..]);
    }
  }

  lemma {:induction false} NonBlankStrippedAppend(xs: seq<string>, ys: seq<string>)
    ensures NonBlankStripped(xs + ys) == NonBlankStripped(xs) + NonBlankStripped(ys)
  {
    if xs == [] {
      assert xs + ys == ys;
    } else {
      assert (xs + ys)[0] == xs[0];
      assert (xs + ys)[1..] == xs[1..] + ys;
      NonBlankStrippedAppend(xs[1..], ys);
      var e := Entry(xs[0]);
      assert e + (NonBlankStripped(xs[1..]) + NonBlankStripped(ys))
        == (e + NonBlankStripped(xs[1..])) + NonBlankStripped(ys);
    }
  }

  /** The competitors after the first line, with its boundary and the next line's start named. */
  lemma CompetitorListStepAt(s: string, i: nat, next: nat)
    requires i == FirstBreak(s) < |s| && next == NextLine(s, i)
    ensures CompetitorList(s) == Entry(s[..i]) + CompetitorList(s[next..])
  {
  }

  /** A text without line breaks is one competitor, or none when it is blank. */
  lemma CompetitorListOfLine(line: string)
    requires forall k :: 0 <= k < |line| ==> !IsLineBreak(line[k])
    ensures CompetitorList(line) == if AllSpace(line) then [] else [Strip(line)]
  {
    if line != [] {
      FirstBreakIs(line, |line|);
    }
    StripSpec(line);
  }

  /**
   * Lines are read independently and in order: the competitors of two texts
   * joined by a newline are those of the first followed by those of the
   * second.
   */
  lemma {:induction false} CompetitorListAppend(a: string, b: string)
    ensures CompetitorList(a + "\n" + b) == CompetitorList(a) + CompetitorList(b)
    decreases |a|, 2
  {
    if FirstBreak(a) == |a| {
      AppendToLastLine(a, b);
    } else {
      AppendAfterBreak(a, b);
    }
  }

  /** `a` has no line break: it becomes the first line of the joined text. */
  lemma AppendToLastLine(a: string, b: string)
    requires FirstBreak(a) == |a|
    ensures CompetitorList(a + "\n" + b) == CompetitorList(a) + CompetitorList(b)
  {
    var s := a + "\n" + b;
    FirstBreakIs(s, |a|);
    assert s[..|a|] == a && s[NextLine(s, |a|)..] == b;
    assert CompetitorList(s) == Entry(a) + CompetitorList(b);
    if a == [] {
      assert Entry(a) == [];
    } else {
    }
  }

  /** `a`'s first line ends inside `a`: the rest of `a` is joined to `b` the same way. */
  lemma {:induction false} AppendAfterBreak(a: string, b: string)
    requires FirstBreak(a) < |a|
    ensures CompetitorList(a + "\n" + b) == CompetitorList(a) + CompetitorList(b)
    decreases |a|, 1
  {
    var i := FirstBreak(a);
    if NextLine(a + "\n" + b, i) == NextLine(a, i) {
      AppendAfterSharedBreak(a, b);
    } else {
      AppendAfterCr(a, b);
    }
  }

  /** The boundary ending `a`'s first line is the same in the joined text. */
  lemma {:induction false} AppendAfterSharedBreak(a: string, b: string)
    requires FirstBreak(a) < |a|
    requires NextLine(a + "\n" + b, FirstBreak(a)) == NextLine(a, FirstBreak(a))
    ensures CompetitorList(a + "\n" + b) == CompetitorList(a) + CompetitorList(b)
    decreases |a|, 0
  {
    var i := FirstBreak(a);
    var rest := a[NextLine(a, i)..];
    JoinedStep(a, b);
    CompetitorListAppend(rest, b);
    SeqAssoc(Entry(a[..i]), CompetitorList(rest), CompetitorList(b));
  }

  /** The joined text's first line is `a`'s, and after it come the rest of `a` joined to `b`. */
  lemma JoinedStep(a: string, b: string)
    requires FirstBreak(a) < |a|
    requires NextLine(a + "\n" + b, FirstBreak(a)) == NextLine(a, FirstBreak(a))
    ensures CompetitorList(a + "\n" + b)
      == Entry(a[..FirstBreak(a)]) + CompetitorList(a[NextLine(a, FirstBreak(a))..] + "\n" + b)
  {
    var s := a + "\n" + b;
    var i := FirstBreak(a);
    var next := NextLine(a, i);
    assert FirstBreak(s) == i by { BreakInPrefix(a, b); }
    assert s[..i] == a[..i];
    assert s[next..] == a[next..] + "\n" + b by { RestJoined(a, b, i); }
    CompetitorListStepAt(s, i, next);
    assert CompetitorList(s) == Entry(a[..i]) + CompetitorList(a[next..] + "\n" + b);
  }

  lemma SeqAssoc<T>(x: seq<T>, y: seq<T>, z: seq<T>)
    ensures x + (y + z) == (x + y) + z
  {
  }

  /** `a` ends in the "\r" that is its first boundary: with the added "\n" it forms one "\r\n". */
  lemma AppendAfterCr(a: string, b: string)
    requires FirstBreak(a) < |a|
    requires NextLine(a + "\n" + b, FirstBreak(a)) != NextLine(a, FirstBreak(a))
    ensures CompetitorList(a + "\n" + b) == CompetitorList(a) + CompetitorList(b)
  {
    var i := FirstBreak(a);
    assert CompetitorList(a + "\n" + b) == Entry(a[..i]) + CompetitorList(b) by {
      CrJoinedStep(a, b);
    }
    assert CompetitorList(a) == Entry(a[..i]) by {
      var next := NextLine(a, i);
      assert a[next..] == [] by { CrLfCompleted(a, b, i); }
      CompetitorListStepAt(a, i, next);
      assert Entry(a[..i]) + [] == Entry(a[..i]);
    }
  }

  /** The joined text's first line is `a`'s, and after the "\r\n" comes `b`. */
  lemma CrJoinedStep(a: string, b: string)
    requires FirstBreak(a) < |a|
    requires NextLine(a + "\n" + b, FirstBreak(a)) != NextLine(a, FirstBreak(a))
    ensures CompetitorList(a + "\n" + b) == Entry(a[..FirstBreak(a)]) + CompetitorList(b)
  {
    var s := a + "\n" + b;
    var i := FirstBreak(a);
    var next := NextLine(s, i);
    assert FirstBreak(s) == i by { BreakInPrefix(a, b); }
    assert s[..i] == a[..i];
    assert s[next..] == b by { CrLfCompleted(a, b, i); }
    CompetitorListStepAt(s, i, next);
    assert CompetitorList(s) == Entry(a[..i]) + CompetitorList(b);
  }

  /** The first boundary of `a` is that of `a` joined to anything. */
  lemma BreakInPrefix(a: string, b: string)
    requires FirstBreak(a) < |a|
    ensures FirstBreak(a + "\n" + b) == FirstBreak(a)
  {
    FirstBreakIs(a + "\n" + b, FirstBreak(a));
  }

  /** After a boundary that lies in `a`, the joined text goes on as the rest of `a` joined to `b`. */
  lemma RestJoined(a: string, b: string, i: nat)
    requires i < |a|
    requires NextLine(a + "\n" + b, i) == NextLine(a, i)
    ensures (a + "\n" + b)[NextLine(a, i)..] == a[NextLine(a, i)..] + "\n" + b
  {
  }

  /** A "\r" that ends `a` and the added "\n" form one "\r\n" boundary, after which `b` follows. */
  lemma CrLfCompleted(a: string, b: string, i: nat)
    requires i < |a|
    requires NextLine(a + "\n" + b, i) != NextLine(a, i)
    ensures (a + "\n" + b)[NextLine(a + "\n" + b, i)..] == b && a[NextLine(a, i)..] == []
  {
  }

  /** The text lists no competitor exactly when it is blank: `competitors.strip()` is empty. */
  lemma {:induction false} CompetitorListEmptyIff(competitors: string)
    ensures CompetitorList(competitors) == [] <==> AllSpace(competitors)
    decreases |competitors|
  {
    var s := competitors;
    if s != [] {
      var i := FirstBreak(s);
      if i < |s| {
        var next := NextLine(s, i);
        StripSpec(s[..i]);
        CompetitorListEmptyIff(s[next..]);
        BlankAroundBreak(s, i);
      } else {
        StripSpec(s);
      }
    }
  }

  /** A text with a boundary at `i` is blank exactly when the lines on both sides of it are. */
  lemma BlankAroundBreak(s: string, i: nat)
    requires i < |s| && IsLineBreak(s[i])
    ensures AllSpace(s) <==> AllSpace(s[..i]) && AllSpace(s[NextLine(s, i)..])
  {
    var next := NextLine(s, i);
    assert AllSpace(s[i..next]);
    assert s == (s[..i] + s[i..next]) + s[next..];
    AllSpaceSplit(s[..i] + s[i..next], s[next..]);
    AllSpaceSplit(s[..i], s[i..next]);
  }

  /**
   * The `competitor_counts` loop over the competitor list: one dict entry per
   * distinct name, in the order of first listing, each the number of
   * non-overlapping occurrences of the lower-cased name in the lower-cased
   * result text.
   */
  method CountMentions(competitorList: seq<string>, resultText: string) returns (counts: OrderedMap<string, nat>)
    ensures counts.Valid()
    ensures counts.keys == Dedup(competitorList)
    ensures forall c :: c in counts.entries <==> c in competitorList
    ensures forall c :: c in counts.entries ==> counts.entries[c] == Count(Lower(resultText), Lower(c))
  {
    var competitorText := Lower(resultText);
    counts := Empty();
    for i := 0 to |competitorList|
      invariant counts.Valid()
      invariant counts.keys == Dedup(competitorList[..i])
      invariant forall c :: c in counts.entries ==> counts.entries[c] == Count(competitorText, Lower(c))
    {
      var comp := competitorList[i];
      var count := Count(competitorText, Lower(comp));
      assert competitorList[..i + 1] == competitorList[..i] + [comp];
      DedupSnoc(competitorList[..i], comp);
      counts := counts.Put(comp, count);
    }
    assert competitorList[..|competitorList|] == competitorList;
  }

  /**
   * A competitor's mentions fit in the result text side by side: the count
   * times the name's length is at most the text's length.
   */
  lemma MentionCountBound(resultText: string, name: string)
    requires name != []
    ensures Count(Lower(resultText), Lower(name)) * |name| <= |resultText|
  {
    CountBound(Lower(resultText), Lower(name));
  }
}
