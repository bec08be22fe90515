/** Searching and splitting text, as the Go standard library does. */
module Strings {
  import opened Common

  /** The first position of `c`, or -1. */
  function IndexOf(s: string, c: char): (i: int)
    ensures -1 <= i < |s|
    ensures i >= 0 ==> s[i] == c && c !in s[..i]
    ensures i < 0 ==> c !in s
  {
    if s == [] then -1
    else if s[0] == c then 0
    else
      var i := IndexOf(s[1..], c);
      assert s == [s[0]] + s[1..];
      if i < 0 then -1
      else
        assert s[..i + 1] == [s[0]] + s[1..][..i];
        i + 1
  }

  datatype Halves = Halves(before: string, after: string, found: bool)

  /** A text cut around the first `c`. */
  function Cut(s: string, c: char): (h: Halves)
    ensures h.found ==> s == h.before + [c] + h.after && c !in h.before
    ensures !h.found ==> c !in s && h.before == s && h.after == ""
  {
    var i := IndexOf(s, c);
    if i < 0 then Halves(s, "", false)
    else
      assert s == s[..i] + [c] + s[i + 1..];
      Halves(s[..i], s[i + 1..], true)
  }

  /** A text whose first `c` stands after `before` is cut there. */
  lemma CutAt(before: string, c: char, after: string)
    requires c !in before
    ensures Cut(before + [c] + after, c) == Halves(before, after, true)
  {
    hide IndexOf;
    var s := before + [c] + after;
    var i := IndexOf(s, c);
    assert s[|before|] == c;
    assert s[..|before|] == before;
    FirstIs(s, c, i, |before|);
    assert i == |before|;
    assert s[i + 1..] == after;
  }

  lemma FirstIs(s: string, c: char, i: int, j: nat)
    requires -1 <= i < |s| && j < |s| && s[j] == c && c !in s[..j]
    requires i >= 0 ==> s[i] == c && c !in s[..i]
    requires i < 0 ==> c !in s
    ensures i == j
  {
    assert forall k :: 0 <= k < j ==> s[..j][k] == s[k];
    assert i > 0 ==> forall k :: 0 <= k < i ==> s[..i][k] == s[k];
  }

  // ---- the short name of a Schema Salad identifier ----

  function LastSegment(s: string): string {
    var i := IndexOf(s, '/');
    if i < 0 then s else LastSegment(s[i + 1..])
  }

  /** The last segment of the fragment, or of the whole identifier if it has none. */
  function ShortName(id: string): string {
    var i := IndexOf(id, '#');
    if i < 0 then LastSegment(id)
    else if i + 1 < |id| then LastSegment(id[i + 1..])
    else LastSegment(id[..i])
  }

  /** The text after the last slash, or all of it if there is none. */
  ghost predicate IsSegment(s: string, segment: string) {
    '/' !in segment && (s == segment || exists before :: s == before + "/" + segment)
  }

  lemma {:induction false} LastSegmentIs(s: string)
    ensures IsSegment(s, LastSegment(s))
    decreases |s|
  {
    hide IndexOf, IsSegment;
    var i := IndexOf(s, '/');
    if i >= 0 {
      LastSegmentIs(s[i + 1..]);
      SegmentAfter(s[..i], s[i + 1..], LastSegment(s[i + 1..]));
      assert s == s[..i] + "/" + s[i + 1..];
    } else {
      SegmentItself(s);
    }
  }

  lemma SegmentItself(s: string)
    requires '/' !in s
    ensures IsSegment(s, s)
  {}

  /** The last segment of a text is the last segment of whatever ends in a slash and that text. */
  lemma SegmentAfter(front: string, rest: string, segment: string)
    requires IsSegment(rest, segment)
    ensures IsSegment(front + "/" + rest, segment)
  {
    if rest != segment {
      var before :| rest == before + "/" + segment;
      assert front + "/" + rest == (front + "/" + before) + "/" + segment;
    }
  }

  /** Cut at its first hash, an identifier is named by what follows, or by what precedes if nothing follows. */
  lemma ShortNameIs(id: string)
    ensures '#' !in id ==> IsSegment(id, ShortName(id))
    ensures forall before, after :: id == before + "#" + after && '#' !in before ==>
        IsSegment(if after != "" then after else before, ShortName(id))
  {
    hide LastSegment, IsSegment;
    LastSegmentIs(id);
    var i := IndexOf(id, '#');
    forall before, after | id == before + "#" + after && '#' !in before
      ensures IsSegment(if after != "" then after else before, ShortName(id))
    {
      CutAt(before, '#', after);
      assert before + ['#'] + after == id && i == |before|;
      assert id[..i] == before && id[i + 1..] == after;
      LastSegmentIs(before);
      LastSegmentIs(after);
    }
  }
}
