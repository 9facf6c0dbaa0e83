/** `pkg/service/chain.go`: `GenContext`, the search snippets of a document. The content is
    a byte string; the case-insensitive matches of the search text are given as a list of
    byte ranges (what the regular expression finds), and highlighting is an abstract
    function on byte strings. */
module Chain {

  newtype byte = x: int | 0 <= x < 256

  type Bytes = seq<byte>

  /** A match [start, end) of the search text in the content. */
  datatype Match = Match(start: int, end: int)

  /** The document fields GenContext reads and writes. */
  datatype Document = Document(pureContent: Bytes, searchContext: seq<Bytes>)

  const SearchContextCount := 400

  /** utf8.RuneStart: the byte is not a continuation byte 10xxxxxx. */
  predicate RuneStart(b: byte) { b < 0x80 || b >= 0xC0 }

  /** What the regular expression promises of its matches: non-empty, in range, starting
      on a rune, in order and not overlapping. */
  predicate WellFormed(c: Bytes, ms: seq<Match>)
  {
    && (forall k :: 0 <= k < |ms| ==>
          0 <= ms[k].start < ms[k].end <= |c| && RuneStart(c[ms[k].start]))
    && (forall k :: 0 < k < |ms| ==> ms[k - 1].end <= ms[k].start)
  }

  /** The index getSafeIndex settles on: the first position at or after `i` that is 0, the
      last byte, or the start of a rune. */
  function SafeIndex(c: Bytes, i: int): (r: int)
    requires 0 <= i < |c|
    ensures i <= r < |c|
    ensures r == 0 || r == |c| - 1 || RuneStart(c[r])
    ensures forall k :: i <= k < r ==> k != 0 && !RuneStart(c[k])
    decreases |c| - i
  {
    if i == 0 || i == |c| - 1 || RuneStart(c[i]) then i else SafeIndex(c, i + 1)
  }

  /** getSafeIndex: the loop that steps forward to that index. */
  method GetSafeIndex(c: Bytes, index0: int) returns (index: int)
    requires 0 <= index0 < |c|
    ensures index == SafeIndex(c, index0)
  {
    index := index0;
    while !(index == 0 || index == |c| - 1 || RuneStart(c[index]))
      invariant index0 <= index < |c|
      invariant SafeIndex(c, index) == SafeIndex(c, index0)
      decreases |c| - index
    {
      index := index + 1;
    }
  }

  function Max(a: int, b: int): int { if a >= b then a else b }
  function Min(a: int, b: int): int { if a <= b then a else b }

  /** The start of the text shown before a match. */
  function BeforeIndex(c: Bytes, m: Match): int
    requires 0 <= m.start < |c|
  {
    SafeIndex(c, Max(0, m.start - SearchContextCount))
  }

  /** The end of the text shown after a match. */
  function AfterIndex(c: Bytes, m: Match): int
    requires 0 <= m.end && |c| > 0
  {
    SafeIndex(c, Min(|c| - 1, m.end + SearchContextCount))
  }

  /** The text before a match starts at most 400 bytes back, on a rune, and never past
      the match. */
  lemma BeforeIndexBounds(c: Bytes, m: Match)
    requires 0 <= m.start < |c| && RuneStart(c[m.start])
    ensures var b := BeforeIndex(c, m);
      Max(0, m.start - SearchContextCount) <= b <= m.start
  {
  }

  const Dots: Bytes := [0x2E, 0x2E]
  const OpenBold: Bytes := [0x3C, 0x62, 0x3E]
  const CloseBold: Bytes := [0x3C, 0x2F, 0x62, 0x3E]

  /** addfix. */
  function Fix(added: bool): Bytes { if added then Dots else [] }

  /** One snippet as written: the highlighted text before, the bold match, the highlighted
      text after. The slice of the text after needs the end of the match before AfterIndex. */
  function Snippet(c: Bytes, m: Match, highlight: Bytes -> Bytes): (r: Bytes)
    requires 0 <= m.start < m.end <= |c| && RuneStart(c[m.start])
    requires m.end <= AfterIndex(c, m)
    ensures var h := highlight(Fix(BeforeIndex(c, m) > 0) + c[BeforeIndex(c, m)..m.start]);
      var tail := |h| + |OpenBold| + (m.end - m.start) + |CloseBold|;
      && tail <= |r| && r[..|h|] == h
      && r[|h|..tail] == OpenBold + c[m.start..m.end] + CloseBold
      && r[tail..] == highlight(c[m.end..AfterIndex(c, m)] + Fix(AfterIndex(c, m) < |c| - 1))
  {
    var b, a := BeforeIndex(c, m), AfterIndex(c, m);
    var before := highlight(Fix(b > 0) + c[b..m.start]);
    var after := highlight(c[m.end..a] + Fix(a < |c| - 1));
    var r := before + OpenBold + c[m.start..m.end] + CloseBold + after;
    var tail := |before| + |OpenBold| + (m.end - m.start) + |CloseBold|;
    assert r[..|before|] == before;
    assert r[|before|..tail] == OpenBold + c[m.start..m.end] + CloseBold;
    assert r[tail..] == after;
    r
  }

  /** A match that ends at the last byte has AfterIndex before its end: the content "ab"
      with a match on "b". */
  lemma MatchAtEndHasNoAfterSlice()
    ensures var c: Bytes, m := [0x61, 0x62], Match(1, 2);
      0 <= m.start < m.end <= |c| && RuneStart(c[m.start]) && AfterIndex(c, m) < m.end
  {
    var c: Bytes := [0x61, 0x62];
    assert SafeIndex(c, 1) == 1;
  }

  /** A match keeps the slice after it in range exactly when it ends before the last byte. */
  lemma AfterSliceInRangeIff(c: Bytes, m: Match)
    requires 0 <= m.start < m.end <= |c|
    ensures m.end <= AfterIndex(c, m) <==> m.end < |c|
  {
  }

  /** The snippet with the slice after the match clamped to be empty when the match ends
      at the last byte: defined for every match, and the same as Snippet wherever that is. */
  function SnippetClamped(c: Bytes, m: Match, highlight: Bytes -> Bytes): Bytes
    requires 0 <= m.start < m.end <= |c| && RuneStart(c[m.start])
  {
    var b, a := BeforeIndex(c, m), AfterIndex(c, m);
    var before := highlight(Fix(b > 0) + c[b..m.start]);
    var after := highlight(c[m.end..Max(m.end, a)] + Fix(a < |c| - 1));
    before + OpenBold + c[m.start..m.end] + CloseBold + after
  }

  /** The clamped snippet agrees with Snippet wherever that is defined, and shows nothing
      after a match at the end of the content. */
  lemma SnippetClampedAgrees(c: Bytes, m: Match, highlight: Bytes -> Bytes)
    requires 0 <= m.start < m.end <= |c| && RuneStart(c[m.start])
    ensures m.end <= AfterIndex(c, m) ==> SnippetClamped(c, m, highlight) == Snippet(c, m, highlight)
    ensures m.end == |c| ==>
      SnippetClamped(c, m, highlight) == highlight(Fix(BeforeIndex(c, m) > 0) + c[BeforeIndex(c, m)..m.start]) + OpenBold
           + c[m.start..m.end] + CloseBold + highlight([])
  {
    if m.end == |c| {
      assert c[m.end..Max(m.end, AfterIndex(c, m))] == [];
      assert Fix(AfterIndex(c, m) < |c| - 1) == [];
    }
  }

  /** The overlap skip: a match is skipped when a kept match ended before it, closer than
      400 bytes. `previousEnd` starts at -1. */
  predicate Skip(previousEnd: int, m: Match)
  {
    previousEnd > 0 && m.start - previousEnd < SearchContextCount
  }

  /** The kept matches, given the end of the last kept one. */
  function Kept(ms: seq<Match>, previousEnd: int): (r: seq<Match>)
    ensures |r| <= |ms|
    ensures forall k :: 0 <= k < |r| ==> r[k] in ms
  {
    if ms == [] then []
    else if Skip(previousEnd, ms[0]) then Kept(ms[1..], previousEnd)
    else [ms[0]] + Kept(ms[1..], ms[0].end)
  }

  /** The snippets of the remaining matches. */
  function Contexts(c: Bytes, ms: seq<Match>, previousEnd: int, highlight: Bytes -> Bytes): seq<Bytes>
    requires WellFormed(c, ms)
  {
    if ms == [] then []
    else if Skip(previousEnd, ms[0]) then Contexts(c, ms[1..], previousEnd, highlight)
    else [SnippetClamped(c, ms[0], highlight)] + Contexts(c, ms[1..], ms[0].end, highlight)
  }

  /** GenContext: nothing for an empty search; otherwise one snippet per kept match is
      appended to SearchContext, and no other field changes. */
  method GenContext(search: Bytes, d: Document, matches: seq<Match>, highlight: Bytes -> Bytes)
    returns (r: Document)
    requires search != [] ==> WellFormed(d.pureContent, matches)
    ensures search == [] ==> r == d
    ensures search != [] ==>
      r == d.(searchContext := d.searchContext + Contexts(d.pureContent, matches, -1, highlight))
  {
    if search == [] {
      return d;
    }
    var c := d.pureContent;
    ghost var total := d.searchContext + Contexts(c, matches, -1, highlight);
    var out := d.searchContext;
    var previousEnd := -1;
    var i := 0;
    assert matches[i..] == matches;
    while i < |matches|
      invariant 0 <= i <= |matches|
      invariant WellFormed(c, matches[i..])
      invariant out + Contexts(c, matches[i..], previousEnd, highlight) == total
    {
      var m := matches[i];
      LoopStep(c, matches, i, previousEnd, out, total, highlight);
      if previousEnd > 0 && m.start - previousEnd < SearchContextCount {
        i := i + 1;
        continue;
      }
      var s := MakeSnippet(c, m, highlight);
      out := out + [s];
      previousEnd := m.end;
      i := i + 1;
    }
    assert Contexts(c, matches[i..], previousEnd, highlight) == [];
    r := d.(searchContext := out);
  }

  /** One iteration of the GenContext loop keeps its invariant: the match is in range, and
      skipping it or appending its snippet leaves the same total. */
  lemma LoopStep(c: Bytes, ms: seq<Match>, i: nat, previousEnd: int, out: seq<Bytes>, total: seq<Bytes>,
                 highlight: Bytes -> Bytes)
    requires i < |ms| && WellFormed(c, ms[i..])
    requires out + Contexts(c, ms[i..], previousEnd, highlight) == total
    ensures WellFormed(c, ms[i + 1..])
    ensures 0 <= ms[i].start < ms[i].end <= |c| && RuneStart(c[ms[i].start])
    ensures Skip(previousEnd, ms[i]) ==> out + Contexts(c, ms[i + 1..], previousEnd, highlight) == total
    ensures !Skip(previousEnd, ms[i]) ==>
      (out + [SnippetClamped(c, ms[i], highlight)]) + Contexts(c, ms[i + 1..], ms[i].end, highlight) == total
  {
    ContextsStep(c, ms, i, previousEnd, highlight);
    assert ms[i..][0] == ms[i];
  }

  /** The body of the loop for a kept match. */
  method MakeSnippet(c: Bytes, m: Match, highlight: Bytes -> Bytes) returns (s: Bytes)
    requires 0 <= m.start < m.end <= |c| && RuneStart(c[m.start])
    ensures s == SnippetClamped(c, m, highlight)
  {
    var beforeIndex := GetSafeIndex(c, Max(0, m.start - SearchContextCount));
    var afterIndex := GetSafeIndex(c, Min(|c| - 1, m.end + SearchContextCount));
    assert beforeIndex == BeforeIndex(c, m) && afterIndex == AfterIndex(c, m);
    BeforeIndexBounds(c, m);
    var before := c[beforeIndex..m.start];
    var after := c[m.end..Max(m.end, afterIndex)];
    before := highlight(Fix(beforeIndex > 0) + before);
    after := highlight(after + Fix(afterIndex < |c| - 1));
    s := before + OpenBold + c[m.start..m.end] + CloseBold + after;
  }

  /** One match of the loop: skipped, or its snippet first. */
  lemma ContextsStep(c: Bytes, ms: seq<Match>, i: nat, previousEnd: int, highlight: Bytes -> Bytes)
    requires i < |ms| && WellFormed(c, ms[i..])
    ensures WellFormed(c, ms[i + 1..])
    ensures Contexts(c, ms[i..], previousEnd, highlight) ==
      if Skip(previousEnd, ms[i]) then Contexts(c, ms[i + 1..], previousEnd, highlight)
      else [SnippetClamped(c, ms[i], highlight)] + Contexts(c, ms[i + 1..], ms[i].end, highlight)
  {
    assert ms[i..][1..] == ms[i + 1..];
    assert WellFormed(c, ms[i..][1..]);
  }

  /** `cs` holds the snippet of each match of `ks`, in order, and every match of `ks` is in range. */
  predicate SnippetsOf(c: Bytes, ks: seq<Match>, cs: seq<Bytes>, highlight: Bytes -> Bytes)
  {
    |cs| == |ks| && forall k :: 0 <= k < |ks| ==>
      0 <= ks[k].start < ks[k].end <= |c| && RuneStart(c[ks[k].start]) && cs[k] == SnippetClamped(c, ks[k], highlight)
  }

  /** The snippets are those of the kept matches, one each, in order. */
  lemma {:induction false} ContextsOfKept(c: Bytes, ms: seq<Match>, previousEnd: int, highlight: Bytes -> Bytes)
    requires WellFormed(c, ms)
    ensures SnippetsOf(c, Kept(ms, previousEnd), Contexts(c, ms, previousEnd, highlight), highlight)
    decreases |ms|
  {
    if ms != [] {
      assert WellFormed(c, ms[1..]);
      if Skip(previousEnd, ms[0]) {
        ContextsOfKept(c, ms[1..], previousEnd, highlight);
      } else {
        ContextsOfKept(c, ms[1..], ms[0].end, highlight);
        SnippetsCons(c, ms[0], Kept(ms[1..], ms[0].end), Contexts(c, ms[1..], ms[0].end, highlight), highlight);
      }
    }
  }

  /** A kept match in range puts its snippet in front. */
  lemma SnippetsCons(c: Bytes, m: Match, ks: seq<Match>, cs: seq<Bytes>, highlight: Bytes -> Bytes)
    requires 0 <= m.start < m.end <= |c| && RuneStart(c[m.start])
    requires SnippetsOf(c, ks, cs, highlight)
    ensures SnippetsOf(c, [m] + ks, [SnippetClamped(c, m, highlight)] + cs, highlight)
  {
    var ks', cs' := [m] + ks, [SnippetClamped(c, m, highlight)] + cs;
    forall k | 0 < k < |ks'|
      ensures 0 <= ks'[k].start < ks'[k].end <= |c| && RuneStart(c[ks'[k].start]) && cs'[k] == SnippetClamped(c, ks'[k], highlight)
    {
      assert ks'[k] == ks[k - 1] && cs'[k] == cs[k - 1];
    }
  }

  /** The first match is always kept, and kept matches are at least 400 bytes apart. */
  lemma {:induction false} KeptSpaced(c: Bytes, ms: seq<Match>, previousEnd: int)
    requires WellFormed(c, ms)
    ensures var ks := Kept(ms, previousEnd);
      && (ms != [] && !Skip(previousEnd, ms[0]) ==> ks != [] && ks[0] == ms[0])
      && (forall k :: 0 < k < |ks| ==> ks[k].start - ks[k - 1].end >= SearchContextCount)
    decreases |ms|
  {
    if ms != [] {
      assert WellFormed(c, ms[1..]);
      if Skip(previousEnd, ms[0]) {
        KeptSpaced(c, ms[1..], previousEnd);
        assert Kept(ms, previousEnd) == Kept(ms[1..], previousEnd);
      } else {
        var rest := Kept(ms[1..], ms[0].end);
        KeptSpaced(c, ms[1..], ms[0].end);
        KeptAfter(c, ms[1..], ms[0].end);
        var ks := Kept(ms, previousEnd);
        assert ks == [ms[0]] + rest;
        assert forall k :: 0 < k < |ks| ==> ks[k] == rest[k - 1];
      }
    }
  }

  /** A match kept after a predecessor ended at `previousEnd > 0` starts 400 or more bytes later. */
  lemma {:induction false} KeptAfter(c: Bytes, ms: seq<Match>, previousEnd: int)
    requires WellFormed(c, ms) && previousEnd > 0
    ensures var ks := Kept(ms, previousEnd);
      ks != [] ==> ks[0].start - previousEnd >= SearchContextCount
    decreases |ms|
  {
    if ms != [] {
      assert WellFormed(c, ms[1..]);
      if Skip(previousEnd, ms[0]) {
        KeptAfter(c, ms[1..], previousEnd);
      }
    }
  }

  /** The first match of a search is always kept. */
  lemma FirstMatchKept(c: Bytes, ms: seq<Match>)
    requires WellFormed(c, ms) && ms != []
    ensures Kept(ms, -1) != [] && Kept(ms, -1)[0] == ms[0]
  {
  }
}
