/** `pkg/friday/summary/map-reduce.go`: the greedy partition of documents into groups whose
    rendered prompt stays within the length limit. The prompt template is an abstract
    rendering function that may fail; the measured length is the byte length of its output. */
module MapReduce {
  import opened Wrappers
  import GoStrings

  /** The number of bytes of the UTF-8 encoding of a code point. */
  function Utf8Width(c: char): nat
  {
    var n := c as int;
    if n < 0x80 then 1 else if n < 0x800 then 2 else if n < 0x10000 then 3 else 4
  }

  /** Go's len on a string: its UTF-8 byte count. */
  function ByteLen(s: string): (n: nat)
    ensures n >= |s|
  {
    if s == [] then 0 else Utf8Width(s[0]) + ByteLen(s[1..])
  }

  /** The template renderer: the rendered text for a context, or the template's error. */
  type Render = string -> Result<string, string>

  /** getLength: the byte length of the prompt rendered over the documents joined by "\n". */
  function GetLength(render: Render, docs: seq<string>): Result<nat, string>
  {
    match render(GoStrings.Join(docs, "\n"))
    case Ok(res) => Ok(ByteLen(res))
    case Err(e) => Err(e)
  }

  const TooLong := "a single part was longer than the context length, can not handle it"

  /** The loop state after some documents: the closed groups and the open group. */
  datatype Partition = Partition(collapse: seq<seq<string>>, sub: seq<string>)

  /** One iteration: the document joins the open group; if that is over the limit, the
      open group is closed without it and restarts with it, unless it was alone. */
  function Step(render: Render, limit: int, p: Partition, d: string): Result<Partition, string>
  {
    var sub := p.sub + [d];
    match GetLength(render, sub)
    case Err(e) => Err(e)
    case Ok(n) =>
      if n > limit then
        if |sub| == 1 then Err(TooLong)
        else Ok(Partition(p.collapse + [sub[..|sub| - 1]], sub[|sub| - 1..]))
      else Ok(Partition(p.collapse, sub))
  }

  /** The loop of splitDocs over the first documents. */
  function SplitLoop(render: Render, limit: int, docs: seq<string>): Result<Partition, string>
  {
    if docs == [] then Ok(Partition([], []))
    else
      match SplitLoop(render, limit, docs[..|docs| - 1])
      case Err(e) => Err(e)
      case Ok(p) => Step(render, limit, p, docs[|docs| - 1])
  }

  /** splitDocs: the loop, then the open group closed. */
  function SplitDocsSpec(render: Render, limit: int, docs: seq<string>): Result<seq<seq<string>>, string>
  {
    match SplitLoop(render, limit, docs)
    case Err(e) => Err(e)
    case Ok(p) => Ok(p.collapse + [p.sub])
  }

  method SplitDocs(render: Render, limit: int, docs: seq<string>) returns (r: Result<seq<seq<string>>, string>)
    ensures r == SplitDocsSpec(render, limit, docs)
  {
    var collapseDocs: seq<seq<string>> := [];
    var subDocs: seq<string> := [];
    var i := 0;
    while i < |docs|
      invariant 0 <= i <= |docs|
      invariant SplitLoop(render, limit, docs[..i]) == Ok(Partition(collapseDocs, subDocs))
    {
      assert docs[..i + 1][..i] == docs[..i];
      subDocs := subDocs + [docs[i]];
      var subLength := GetLength(render, subDocs);
      if subLength.Err? {
        SplitLoopErrorPersists(render, limit, docs, i + 1);
        return Err(subLength.error);
      }
      if subLength.value > limit {
        if |subDocs| == 1 {
          SplitLoopErrorPersists(render, limit, docs, i + 1);
          return Err(TooLong);
        }
        collapseDocs := collapseDocs + [subDocs[0..|subDocs| - 1]];
        subDocs := subDocs[|subDocs| - 1..];
      }
      i := i + 1;
    }
    assert docs[..i] == docs;
    r := Ok(collapseDocs + [subDocs]);
  }

  /** Once the loop fails it stays failed with the same error. */
  lemma {:induction false} SplitLoopErrorPersists(render: Render, limit: int, docs: seq<string>, i: nat)
    requires i <= |docs| && SplitLoop(render, limit, docs[..i]).Err?
    ensures SplitLoop(render, limit, docs) == SplitLoop(render, limit, docs[..i])
    decreases |docs| - i
  {
    if i < |docs| {
      assert docs[..i + 1][..i] == docs[..i];
      SplitLoopErrorPersists(render, limit, docs, i + 1);
    } else {
      assert docs[..i] == docs;
    }
  }

  /** The groups, concatenated. */
  function Concat(groups: seq<seq<string>>): seq<string>
  {
    if groups == [] then [] else Concat(groups[..|groups| - 1]) + groups[|groups| - 1]
  }

  lemma ConcatSnoc(groups: seq<seq<string>>, g: seq<string>)
    ensures Concat(groups + [g]) == Concat(groups) + g
  {
    assert (groups + [g])[..|groups|] == groups;
  }

  /** A group of two or more documents was measured and fits; a single document need not. */
  predicate Fits(render: Render, limit: int, g: seq<string>)
  {
    |g| >= 2 ==> GetLength(render, g).Ok? && GetLength(render, g).value <= limit
  }

  /** What the loop keeps between documents: the groups and the open group are the
      documents read so far in order, no closed group is empty, the open group is empty only
      before the first document, and every group of two or more fits. */
  predicate PartitionInv(render: Render, limit: int, docs: seq<string>, p: Partition)
  {
    && Concat(p.collapse) + p.sub == docs
    && (forall k :: 0 <= k < |p.collapse| ==> p.collapse[k] != [])
    && (p.sub == [] <==> docs == [])
    && (forall k :: 0 <= k < |p.collapse| ==> Fits(render, limit, p.collapse[k]))
    && Fits(render, limit, p.sub)
  }

  lemma {:induction false} SplitLoopInv(render: Render, limit: int, docs: seq<string>)
    ensures SplitLoop(render, limit, docs).Ok? ==> PartitionInv(render, limit, docs, SplitLoop(render, limit, docs).value)
    decreases |docs|
  {
    if docs != [] {
      var front := docs[..|docs| - 1];
      SplitLoopInv(render, limit, front);
      var r := SplitLoop(render, limit, front);
      if r.Ok? {
        assert docs == front + [docs[|docs| - 1]];
        StepInv(render, limit, front, r.value, docs[|docs| - 1]);
      }
    }
  }

  /** One iteration keeps the loop's invariant. */
  lemma StepInv(render: Render, limit: int, front: seq<string>, p: Partition, d: string)
    requires PartitionInv(render, limit, front, p)
    ensures Step(render, limit, p, d).Ok? ==> PartitionInv(render, limit, front + [d], Step(render, limit, p, d).value)
  {
    var sub := p.sub + [d];
    var n := GetLength(render, sub);
    if n.Ok? && n.value > limit && |sub| > 1 {
      assert sub[..|sub| - 1] == p.sub;
      ConcatSnoc(p.collapse, p.sub);
      assert sub[|sub| - 1..] == [d];
      var q := Step(render, limit, p, d).value;
      assert q == Partition(p.collapse + [p.sub], [d]);
      assert Concat(q.collapse) + q.sub == front + [d];
    }
  }

  /** On success the groups concatenate back to the documents, in order. */
  lemma SplitDocsConcat(render: Render, limit: int, docs: seq<string>)
    requires SplitDocsSpec(render, limit, docs).Ok?
    ensures Concat(SplitDocsSpec(render, limit, docs).value) == docs
  {
    SplitLoopInv(render, limit, docs);
    var p := SplitLoop(render, limit, docs).value;
    ConcatSnoc(p.collapse, p.sub);
  }

  /** On success every group of two or more documents fits the limit, and the only empty
      group is the single group of an empty input. */
  lemma SplitDocsGroups(render: Render, limit: int, docs: seq<string>)
    requires SplitDocsSpec(render, limit, docs).Ok?
    ensures var gs := SplitDocsSpec(render, limit, docs).value;
      && (forall k :: 0 <= k < |gs| ==> Fits(render, limit, gs[k]))
      && (docs == [] ==> gs == [[]])
      && (docs != [] ==> forall k :: 0 <= k < |gs| ==> gs[k] != [])
  {
    SplitLoopInv(render, limit, docs);
    var p := SplitLoop(render, limit, docs).value;
    var gs := p.collapse + [p.sub];
    assert forall k :: 0 <= k < |p.collapse| ==> gs[k] == p.collapse[k];
    assert gs[|p.collapse|] == p.sub;
    if docs == [] {
      assert p == Partition([], []);
    }
  }

  /** With a template that never fails, splitDocs fails exactly when the first document
      alone is over the limit; `OversizeAlone` says where a later oversize document ends up. */
  lemma {:induction false} SplitDocsFailsOnFirst(render: Render, limit: int, docs: seq<string>)
    requires forall s :: render(s).Ok?
    ensures SplitLoop(render, limit, docs).Err? <==>
      (docs != [] && GetLength(render, [docs[0]]).value > limit)
    ensures SplitLoop(render, limit, docs).Err? ==> SplitLoop(render, limit, docs).error == TooLong
    decreases |docs|
  {
    if docs != [] {
      var front := docs[..|docs| - 1];
      SplitDocsFailsOnFirst(render, limit, front);
      if front != [] {
        assert front[0] == docs[0];
        var r := SplitLoop(render, limit, front);
        if r.Ok? {
          SplitLoopInv(render, limit, front);
        }
      } else {
        assert docs == [docs[0]];
      }
    }
  }

  /** A document of the concatenation lies in one of the groups. */
  lemma {:induction false} InConcat(groups: seq<seq<string>>, d: string)
    requires d in Concat(groups)
    ensures exists k :: 0 <= k < |groups| && d in groups[k]
  {
    var front := groups[..|groups| - 1];
    if d !in groups[|groups| - 1] {
      InConcat(front, d);
      var k :| 0 <= k < |front| && d in front[k];
      assert groups[k] == front[k];
    }
  }

  /** When a longer prompt is never measured shorter than the prompt of any one of its
      documents, a document that is over the limit on its own ends up alone: it is not
      the first, it forms a group by itself, and it shares no group with another. */
  lemma OversizeAlone(render: Render, limit: int, docs: seq<string>, i: nat)
    requires forall s :: render(s).Ok?
    requires forall g: seq<string>, k :: 0 <= k < |g| ==>
      GetLength(render, [g[k]]).value <= GetLength(render, g).value
    requires SplitDocsSpec(render, limit, docs).Ok?
    requires i < |docs| && GetLength(render, [docs[i]]).value > limit
    ensures i > 0
    ensures [docs[i]] in SplitDocsSpec(render, limit, docs).value
    ensures var gs := SplitDocsSpec(render, limit, docs).value;
      forall k :: 0 <= k < |gs| && docs[i] in gs[k] ==> gs[k] == [docs[i]]
  {
    var gs := SplitDocsSpec(render, limit, docs).value;
    SplitDocsFailsOnFirst(render, limit, docs);
    SplitDocsGroups(render, limit, docs);
    SplitDocsConcat(render, limit, docs);
    forall k | 0 <= k < |gs| && docs[i] in gs[k] ensures gs[k] == [docs[i]] {
      var j :| 0 <= j < |gs[k]| && gs[k][j] == docs[i];
      assert GetLength(render, [gs[k][j]]).value <= GetLength(render, gs[k]).value;
      assert Fits(render, limit, gs[k]);
      assert |gs[k]| == 1;
      assert gs[k] == [gs[k][0]];
    }
    assert docs[i] in Concat(gs);
    InConcat(gs, docs[i]);
  }
}
