/** `pkg/dispatch/plugin/subcontent.go`: the sub content plugin, a short plain-text
    excerpt of a document. The HTML parser is abstract: the slow path is given the texts of
    the document's `<p>` elements in document order, or `None` when the content does not
    parse. `ContentTrim("html", ·)` is abstract too, a parameter `contentTrim`. */
module SubContent {
  import opened Wrappers
  import GoStrings
  import DocModel

  type Trim = string -> string

  /** The longest prefix of at most `n` parts. */
  function FirstN<T>(s: seq<T>, n: nat): (r: seq<T>)
  {
    if |s| <= n then s else s[..n]
  }

  /** The non-empty trimmed texts, in order. */
  function NonEmptyTrimmed(texts: seq<string>): (r: seq<string>)
    ensures |r| <= |texts|
  {
    if texts == [] then []
    else
      var t := GoStrings.TrimSpace(texts[|texts| - 1]);
      NonEmptyTrimmed(texts[..|texts| - 1]) + (if t != "" then [t] else [])
  }

  /** Each text with its newlines turned into spaces. */
  function Spaced(texts: seq<string>): (r: seq<string>)
  {
    seq(|texts|, k requires 0 <= k < |texts| => GoStrings.NewlinesToSpaces(texts[k]))
  }

  /** Keeping the non-empty texts of two parts is keeping those of each part. */
  lemma {:induction false} NonEmptyTrimmedConcat(a: seq<string>, b: seq<string>)
    ensures NonEmptyTrimmed(a + b) == NonEmptyTrimmed(a) + NonEmptyTrimmed(b)
    decreases |b|
  {
    if b != [] {
      var b', last := b[..|b| - 1], b[|b| - 1];
      var t := GoStrings.TrimSpace(last);
      var tail := if t != "" then [t] else [];
      assert (a + b)[..|a + b| - 1] == a + b';
      assert (a + b)[|a + b| - 1] == last;
      assert NonEmptyTrimmed(a + b) == NonEmptyTrimmed(a + b') + tail;
      NonEmptyTrimmedConcat(a, b');
      assert NonEmptyTrimmed(b) == NonEmptyTrimmed(b') + tail;
      assert (NonEmptyTrimmed(a) + NonEmptyTrimmed(b')) + tail == NonEmptyTrimmed(a) + (NonEmptyTrimmed(b') + tail);
    } else {
      assert a + b == a;
    }
  }

  /** Spacing the first `n` texts is taking the first `n` spaced texts. */
  lemma SpacedPrefix(texts: seq<string>, n: nat)
    ensures FirstN(Spaced(texts), n) == Spaced(FirstN(texts, n))
  {
  }

  /** Once `n` texts are kept from the first `k`, the first `n` kept texts of all are those. */
  lemma StopAfter(texts: seq<string>, k: nat, n: nat)
    requires k <= |texts| && |NonEmptyTrimmed(texts[..k])| == n
    ensures FirstN(NonEmptyTrimmed(texts), n) == NonEmptyTrimmed(texts[..k])
  {
    var a, b := texts[..k], texts[k..];
    NonEmptyTrimmedConcat(a, b);
    assert a + b == texts;
    assert (NonEmptyTrimmed(a) + NonEmptyTrimmed(b))[..n] == NonEmptyTrimmed(a);
  }

  /** The texts kept are non-empty, carry no white space at either end, and each is the
      trimmed form of one of the given texts. */
  lemma {:induction false} NonEmptyTrimmedMembers(texts: seq<string>)
    ensures forall k :: 0 <= k < |NonEmptyTrimmed(texts)| ==>
      NonEmptyTrimmed(texts)[k] != "" && GoStrings.TrimSpace(NonEmptyTrimmed(texts)[k]) == NonEmptyTrimmed(texts)[k]
    ensures forall k :: 0 <= k < |NonEmptyTrimmed(texts)| ==>
      exists j :: 0 <= j < |texts| && NonEmptyTrimmed(texts)[k] == GoStrings.TrimSpace(texts[j])
  {
    if texts != [] {
      var front := texts[..|texts| - 1];
      NonEmptyTrimmedMembers(front);
      var t := GoStrings.TrimSpace(texts[|texts| - 1]);
      TrimSpaceIdempotent(texts[|texts| - 1]);
      var r := NonEmptyTrimmed(texts);
      forall k | 0 <= k < |r|
        ensures r[k] != "" && GoStrings.TrimSpace(r[k]) == r[k]
        ensures exists j :: 0 <= j < |texts| && r[k] == GoStrings.TrimSpace(texts[j])
      {
        if k < |NonEmptyTrimmed(front)| {
          assert r[k] == NonEmptyTrimmed(front)[k];
          var j :| 0 <= j < |front| && NonEmptyTrimmed(front)[k] == GoStrings.TrimSpace(front[j]);
          assert texts[j] == front[j];
          assert r[k] == GoStrings.TrimSpace(texts[j]);
        } else {
          var j := |texts| - 1;
          assert r[k] == GoStrings.TrimSpace(texts[j]);
        }
      }
    } else {
      assert NonEmptyTrimmed(texts) == [];
    }
  }

  /** Trimming a trimmed text changes nothing. */
  lemma TrimSpaceIdempotent(s: string)
    ensures GoStrings.TrimSpace(GoStrings.TrimSpace(s)) == GoStrings.TrimSpace(s)
  {
    var r := GoStrings.TrimSpace(s);
    GoStrings.TrimSpaceIsInfix(s);
    if r != [] {
      assert GoStrings.TrimLeft(r) == r;
      assert GoStrings.TrimRight(r) == r;
    }
  }

  // ---------------------------------------------------------------------------------------
  // trimDocumentContent

  /** trimDocumentContent: the trimmed text when it has at most `m` runes, else its first `m`
      runes. */
  function TrimDocumentContent(contentTrim: Trim, str: string, m: nat): (r: string)
    ensures |r| <= m && |r| <= |contentTrim(str)|
    ensures r == contentTrim(str)[..|r|]
    ensures |contentTrim(str)| <= m ==> r == contentTrim(str)
    ensures |contentTrim(str)| > m ==> |r| == m
  {
    var s := contentTrim(str);
    if |s| > m then s[..m] else s
  }

  // ---------------------------------------------------------------------------------------
  // The two paths of GenerateContentSubContent

  /** What the fallback path answers: the first three non-empty trimmed lines of the trimmed
      content, joined with single spaces. */
  function FallbackSpec(contentTrim: Trim, content: string): string
  {
    GoStrings.Join(FirstN(NonEmptyTrimmed(GoStrings.Split(contentTrim(content), "\n")), 3), " ")
  }

  /** The fallback loop of GenerateContentSubContent: it trims each line, keeps the non-empty
      ones and stops after the third. */
  method Fallback(contentTrim: Trim, content: string) returns (r: string)
    ensures r == FallbackSpec(contentTrim, content)
  {
    var trimmed := contentTrim(content);
    var subContents := GoStrings.Split(trimmed, "\n");
    var contents: seq<string> := [];
    var i := 0;
    var k := 0;
    while k < |subContents|
      invariant 0 <= k <= |subContents|
      invariant contents == NonEmptyTrimmed(subContents[..k])
      invariant i == |contents| < 3
      decreases |subContents| - k
    {
      var subContent := GoStrings.TrimSpace(subContents[k]);
      assert subContents[..k + 1][..k] == subContents[..k];
      if subContent != "" {
        contents := contents + [subContent];
        i := i + 1;
        if i >= 3 {
          StopAfter(subContents, k + 1, 3);
          return GoStrings.Join(contents, " ");
        }
      }
      k := k + 1;
    }
    assert subContents[..k] == subContents;
    r := GoStrings.Join(contents, " ");
  }

  /** What the slow path answers: the first eleven non-empty paragraph texts, trimmed and
      with newlines turned into spaces, joined with single spaces and cut to 400 runes. */
  function SlowPathSpec(contentTrim: Trim, paragraphs: seq<string>): string
  {
    TrimDocumentContent(contentTrim, GoStrings.Join(FirstN(Spaced(NonEmptyTrimmed(paragraphs)), 11), " "), 400)
  }

  /** slowPathContentSubContent: the paragraph callback stops the walk once more than ten
      texts are collected, so it collects at most eleven. */
  method SlowPath(contentTrim: Trim, paragraphs: seq<string>) returns (r: string)
    ensures r == SlowPathSpec(contentTrim, paragraphs)
  {
    var contents: seq<string> := [];
    var k := 0;
    while k < |paragraphs|
      invariant 0 <= k <= |paragraphs|
      invariant contents == Spaced(NonEmptyTrimmed(paragraphs[..k]))
      invariant |contents| <= 11
      decreases |paragraphs| - k
    {
      if |contents| > 10 {
        StopAfter(paragraphs, k, 11);
        SpacedPrefix(NonEmptyTrimmed(paragraphs), 11);
        break;
      }
      var t := GoStrings.TrimSpace(paragraphs[k]);
      assert paragraphs[..k + 1][..k] == paragraphs[..k];
      if t != "" {
        contents := contents + [GoStrings.NewlinesToSpaces(t)];
      }
      k := k + 1;
    }
    if k == |paragraphs| {
      assert paragraphs[..k] == paragraphs;
    }
    r := TrimDocumentContent(contentTrim, GoStrings.Join(contents, " "), 400);
  }

  /** What GenerateContentSubContent answers: the slow path when the content parses, else
      the fallback. */
  function SubContentSpec(contentTrim: Trim, content: string, paragraphs: Option<seq<string>>): string
  {
    match paragraphs
    case Some(p) => SlowPathSpec(contentTrim, p)
    case None => FallbackSpec(contentTrim, content)
  }

  /** GenerateContentSubContent. */
  method GenerateContentSubContent(contentTrim: Trim, content: string, paragraphs: Option<seq<string>>)
    returns (r: string)
    ensures r == SubContentSpec(contentTrim, content, paragraphs)
  {
    if paragraphs.Some? {
      r := SlowPath(contentTrim, paragraphs.value);
      return;
    }
    r := Fallback(contentTrim, content);
  }

  /** SubContentPlugin.Run: the document with only its sub content replaced. */
  method Run(contentTrim: Trim, doc: DocModel.Document, paragraphs: Option<seq<string>>)
    returns (doc': DocModel.Document)
    ensures doc' == doc.(subContent := SubContentSpec(contentTrim, doc.content, paragraphs))
  {
    var s := GenerateContentSubContent(contentTrim, doc.content, paragraphs);
    doc' := doc.(subContent := s);
  }

  // ---------------------------------------------------------------------------------------
  // Properties of the excerpt

  predicate NoNewline(s: string)
  {
    forall k :: 0 <= k < |s| ==> s[k] != '\n'
  }

  /** Parts without newlines joined by spaces give a text without newlines. */
  lemma {:induction false} JoinNoNewline(parts: seq<string>)
    requires forall k :: 0 <= k < |parts| ==> NoNewline(parts[k])
    ensures NoNewline(GoStrings.Join(parts, " "))
    decreases |parts|
  {
    if |parts| > 1 {
      JoinNoNewline(parts[1..]);
      assert forall k :: 0 <= k < |parts| - 1 ==> parts[1..][k] == parts[k + 1];
    }
  }

  /** A trimmed text keeps no character its argument lacks. */
  lemma TrimSpaceNoNewline(s: string)
    requires NoNewline(s)
    ensures NoNewline(GoStrings.TrimSpace(s))
  {
    GoStrings.TrimSpaceIsInfix(s);
    var r, i := GoStrings.TrimSpace(s), GoStrings.TrimStart(s);
    assert forall k :: 0 <= k < |r| ==> r[k] == s[i + k];
  }

  /** The texts kept from newline-free texts have no newlines. */
  lemma {:induction false} NonEmptyTrimmedNoNewline(texts: seq<string>)
    requires forall k :: 0 <= k < |texts| ==> NoNewline(texts[k])
    ensures forall k :: 0 <= k < |NonEmptyTrimmed(texts)| ==> NoNewline(NonEmptyTrimmed(texts)[k])
  {
    if texts != [] {
      NonEmptyTrimmedNoNewline(texts[..|texts| - 1]);
      TrimSpaceNoNewline(texts[|texts| - 1]);
    }
  }

  /** The pieces of a split at newlines hold no newline. */
  lemma SplitLinesNoNewline(s: string)
    ensures forall k :: 0 <= k < |GoStrings.Split(s, "\n")| ==> NoNewline(GoStrings.Split(s, "\n")[k])
  {
    GoStrings.SplitPiecesFree(s, "\n");
    forall k, j | 0 <= k < |GoStrings.Split(s, "\n")| && 0 <= j < |GoStrings.Split(s, "\n")[k]|
      ensures GoStrings.Split(s, "\n")[k][j] != '\n'
    {
      var piece := GoStrings.Split(s, "\n")[k];
      assert !GoStrings.OccursAt(piece, "\n", j);
    }
  }

  /** The fallback excerpt is one line of at most three non-empty trimmed lines of the
      trimmed content, in their order there. */
  lemma FallbackShape(contentTrim: Trim, content: string)
    ensures NoNewline(FallbackSpec(contentTrim, content))
    ensures var lines := NonEmptyTrimmed(GoStrings.Split(contentTrim(content), "\n"));
      FallbackSpec(contentTrim, content) == GoStrings.Join(lines[..if |lines| <= 3 then |lines| else 3], " ")
  {
    var split := GoStrings.Split(contentTrim(content), "\n");
    SplitLinesNoNewline(contentTrim(content));
    NonEmptyTrimmedNoNewline(split);
    var lines := NonEmptyTrimmed(split);
    var kept := FirstN(lines, 3);
    assert kept == lines[..if |lines| <= 3 then |lines| else 3];
    assert forall k :: 0 <= k < |kept| ==> kept[k] == lines[k];
    JoinNoNewline(kept);
  }

  /** The slow path excerpt has at most 400 runes, and the text it cuts has no newlines. */
  lemma SlowPathShape(contentTrim: Trim, paragraphs: seq<string>)
    ensures |SlowPathSpec(contentTrim, paragraphs)| <= 400
    ensures NoNewline(GoStrings.Join(FirstN(Spaced(NonEmptyTrimmed(paragraphs)), 11), " "))
  {
    var kept := FirstN(Spaced(NonEmptyTrimmed(paragraphs)), 11);
    forall k | 0 <= k < |kept| ensures NoNewline(kept[k]) {
      assert kept[k] == GoStrings.NewlinesToSpaces(NonEmptyTrimmed(paragraphs)[k]);
    }
    JoinNoNewline(kept);
  }
}
