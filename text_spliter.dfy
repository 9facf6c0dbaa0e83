/** The text chunker: pieces of a text are packed into chunks of at most `chunkSize`
    (as measured by an abstract length function), consecutive chunks sharing up to
    `chunkOverlap` of trailing pieces. Elements are merged per source name. */
module TextSpliter {
  import GoStrings
  import VectorModels

  /** The chunker's settings. */
  datatype Config = Config(separator: string, chunkSize: int, chunkOverlap: int)

  /** The eviction loop cannot run dry: an emptied window has total `-length(separator)`,
      which must not exceed the overlap. */
  predicate Configured(t: Config, len: string -> nat)
  {
    t.chunkOverlap + len(t.separator) >= 0
  }

  /** `join`: the pieces joined with the separator, white space trimmed. */
  function Chunk(t: Config, pieces: seq<string>): string
  {
    GoStrings.TrimSpace(GoStrings.Join(pieces, t.separator))
  }

  function SumLen(len: string -> nat, c: seq<string>): nat
  {
    if c == [] then 0 else len(c[0]) + SumLen(len, c[1..])
  }

  /** The length of the pieces with a separator between consecutive ones; for the empty
      window this is `-length(separator)`, the value the eviction loop leaves behind. */
  function Weight(t: Config, len: string -> nat, c: seq<string>): int
  {
    if c == [] then -(len(t.separator) as int)
    else Weight(t, len, c[..|c| - 1]) + len(t.separator) + len(c[|c| - 1])
  }

  lemma {:induction false} SumLenSnoc(len: string -> nat, c: seq<string>, d: string)
    ensures SumLen(len, c + [d]) == SumLen(len, c) + len(d)
  {
    if c != [] {
      assert (c + [d])[1..] == c[1..] + [d];
      SumLenSnoc(len, c[1..], d);
    }
  }

  /** One more piece adds its length and one separator. */
  lemma WeightSnoc(t: Config, len: string -> nat, c: seq<string>, d: string)
    ensures Weight(t, len, c + [d]) == Weight(t, len, c) + len(t.separator) + len(d)
  {
    assert (c + [d])[..|c|] == c;
  }

  /** Dropping the first piece takes off its length and one separator. */
  lemma {:induction false} WeightPop(t: Config, len: string -> nat, c: seq<string>)
    requires c != []
    ensures Weight(t, len, c[1..]) == Weight(t, len, c) - (len(c[0]) + len(t.separator))
    decreases |c|
  {
    var front := c[..|c| - 1];
    if front == [] {
      assert c[1..] == [];
    } else {
      WeightPop(t, len, front);
      assert c[1..] == front[1..] + [c[|c| - 1]];
      WeightSnoc(t, len, front[1..], c[|c| - 1]);
    }
  }

  /** The weight is the pieces' lengths plus a separator between neighbours. */
  lemma {:induction false} WeightFormula(t: Config, len: string -> nat, c: seq<string>)
    ensures Weight(t, len, c) == SumLen(len, c) + len(t.separator) * (|c| - 1)
    decreases |c|
  {
    if c != [] {
      var front := c[..|c| - 1];
      WeightFormula(t, len, front);
      assert c == front + [c[|c| - 1]];
      SumLenSnoc(len, front, c[|c| - 1]);
      var sep, n := len(t.separator), |front|;
      assert sep * n == sep * (n - 1) + sep;
    }
  }

  /** A window whose pieces all have positive length weighs at least its first piece. */
  lemma {:induction false} WeightAtLeastFirst(t: Config, len: string -> nat, c: seq<string>)
    requires c != [] && forall k :: 0 <= k < |c| ==> len(c[k]) > 0
    ensures Weight(t, len, c) >= len(c[0])
    decreases |c|
  {
    var front := c[..|c| - 1];
    if front != [] {
      assert forall k :: 0 <= k < |front| ==> front[k] == c[k];
      WeightAtLeastFirst(t, len, front);
    }
  }

  /** The window of the packing loop between pieces: the retained pieces and their
      running total. */
  datatype Window = Window(current: seq<string>, total: int)

  /** The running total is the weight of the window, or 0 for the empty window. */
  predicate WindowInv(t: Config, len: string -> nat, w: Window)
  {
    w.total == if w.current == [] then 0 else Weight(t, len, w.current)
  }

  /** The eviction loop: drop pieces from the front while the total exceeds the overlap,
      or while the next piece would not fit and the total is positive. What remains is a
      suffix of the window. The loop never runs on an empty window while the running total
      is the window's weight (`EvictWeight`); that case keeps the window as it is. */
  function Evict(t: Config, len: string -> nat, current: seq<string>, total: int, l: nat, sLen: nat)
    : (r: (seq<string>, int))
    requires Configured(t, len)
    decreases |current|
  {
    if current != [] && (total > t.chunkOverlap || (total + l + sLen > t.chunkSize && total > 0)) then
      Evict(t, len, current[1..], total - (len(current[0]) + len(t.separator)), l, sLen)
    else (current, total)
  }

  /** What eviction keeps is a suffix of the window. */
  lemma {:induction false} EvictSuffix(t: Config, len: string -> nat, current: seq<string>, total: int, l: nat, sLen: nat)
    requires Configured(t, len)
    ensures var r := Evict(t, len, current, total, l, sLen);
      |r.0| <= |current| && r.0 == current[|current| - |r.0|..]
    decreases |current|
  {
    if current != [] && (total > t.chunkOverlap || (total + l + sLen > t.chunkSize && total > 0)) {
      EvictSuffix(t, len, current[1..], total - (len(current[0]) + len(t.separator)), l, sLen);
      var r := Evict(t, len, current, total, l, sLen);
      assert current[1..][|current| - 1 - |r.0|..] == current[|current| - |r.0|..];
    }
  }

  /** From a running total that is the window's weight, eviction keeps the total the weight
      of what remains, within the overlap, and either leaves room for the next piece or
      a total of at most 0; in particular it never finds the window empty with the loop
      condition still true. */
  lemma {:induction false} EvictWeight(t: Config, len: string -> nat, current: seq<string>, total: int, l: nat, sLen: nat)
    requires Configured(t, len)
    requires total == Weight(t, len, current)
    ensures var r := Evict(t, len, current, total, l, sLen);
      && r.1 == Weight(t, len, r.0)
      && r.1 <= t.chunkOverlap
      && (r.1 + l + sLen <= t.chunkSize || r.1 <= 0)
    decreases |current|
  {
    if current != [] && (total > t.chunkOverlap || (total + l + sLen > t.chunkSize && total > 0)) {
      WeightPop(t, len, current);
      EvictWeight(t, len, current[1..], total - (len(current[0]) + len(t.separator)), l, sLen);
    }
  }

  /** An eviction that drops every piece of the window leaves the running total at
      `-length(separator)`, not 0; the append that follows brings it back to the new
      piece's length. */
  lemma EvictEmptied(t: Config, len: string -> nat, current: seq<string>, total: int, l: nat, sLen: nat)
    requires Configured(t, len)
    requires total == Weight(t, len, current)
    ensures var r := Evict(t, len, current, total, l, sLen);
      r.0 == [] ==> r.1 == -(len(t.separator) as int)
                    && r.1 + l + len(t.separator) == l
  {
    EvictWeight(t, len, current, total, l, sLen);
  }

  /** A retained window whose pieces all have positive length has room for the next
      piece unless it is empty. */
  lemma EvictFitsOrEmpties(t: Config, len: string -> nat, current: seq<string>, total: int, l: nat, sLen: nat)
    requires Configured(t, len)
    requires total == Weight(t, len, current)
    requires forall k :: 0 <= k < |current| ==> len(current[k]) > 0
    ensures var r := Evict(t, len, current, total, l, sLen);
      r.0 == [] || r.1 + l + sLen <= t.chunkSize
  {
    var r := Evict(t, len, current, total, l, sLen);
    EvictWeight(t, len, current, total, l, sLen);
    EvictSuffix(t, len, current, total, l, sLen);
    if r.0 != [] {
      assert forall k :: 0 <= k < |r.0| ==> r.0[k] == current[|current| - |r.0| + k];
      WeightAtLeastFirst(t, len, r.0);
    }
  }

  /** A non-empty piece that does not fit closes a non-empty window. */
  predicate Closes(t: Config, len: string -> nat, w: Window, d: string)
  {
    |d| > 0 && |w.current| > 0 && w.total + len(t.separator) + len(d) > t.chunkSize
  }

  /** What closing a window emits: its trimmed join, unless that is empty. */
  function Emitted(t: Config, c: seq<string>): (r: seq<string>)
    ensures |r| <= 1 && forall k :: 0 <= k < |r| ==> r[k] != ""
  {
    var doc := Chunk(t, c);
    if doc != "" then [doc] else []
  }

  /** One iteration of the packing loop on the window. An empty piece is skipped. A piece
      that closes the window first shrinks it by the eviction loop. Then the piece joins
      the window. */
  function Step(t: Config, len: string -> nat, w: Window, d: string): (r: Window)
    requires Configured(t, len)
  {
    if |d| == 0 then w
    else
      var l := len(d);
      var sLen := if |w.current| == 0 then 0 else len(t.separator);
      if w.total + sLen + l > t.chunkSize && |w.current| > 0 then
        var e := Evict(t, len, w.current, w.total, l, sLen);
        Window(e.0 + [d], e.1 + l + sLen)
      else Window(w.current + [d], w.total + l + sLen)
  }

  /** A step keeps the running total the window's weight. */
  lemma StepInv(t: Config, len: string -> nat, w: Window, d: string)
    requires Configured(t, len) && WindowInv(t, len, w)
    ensures WindowInv(t, len, Step(t, len, w, d))
  {
    if |d| > 0 {
      var l := len(d);
      var sLen := if |w.current| == 0 then 0 else len(t.separator);
      WeightSnoc(t, len, w.current, d);
      if w.total + sLen + l > t.chunkSize && |w.current| > 0 {
        EvictWeight(t, len, w.current, w.total, l, sLen);
        var e := Evict(t, len, w.current, w.total, l, sLen);
        WeightSnoc(t, len, e.0, d);
      }
    }
  }

  /** The window after the first pieces. */
  function Fold(t: Config, len: string -> nat, splits: seq<string>): (w: Window)
    requires Configured(t, len)
  {
    if splits == [] then Window([], 0)
    else Step(t, len, Fold(t, len, splits[..|splits| - 1]), splits[|splits| - 1])
  }

  /** Between pieces the running total is the window's weight. */
  lemma {:induction false} FoldInv(t: Config, len: string -> nat, splits: seq<string>)
    requires Configured(t, len)
    ensures WindowInv(t, len, Fold(t, len, splits))
  {
    if splits != [] {
      FoldInv(t, len, splits[..|splits| - 1]);
      StepInv(t, len, Fold(t, len, splits[..|splits| - 1]), splits[|splits| - 1]);
    }
  }

  /** The chunks emitted while packing the first pieces. */
  function Docs(t: Config, len: string -> nat, splits: seq<string>): seq<string>
    requires Configured(t, len)
  {
    if splits == [] then []
    else
      var front := splits[..|splits| - 1];
      var w := Fold(t, len, front);
      Docs(t, len, front) + (if Closes(t, len, w, splits[|splits| - 1]) then Emitted(t, w.current) else [])
  }

  /** `merge`: the emitted chunks, then the trimmed join of the last window unless empty. */
  function MergeFn(t: Config, len: string -> nat, splits: seq<string>): seq<string>
    requires Configured(t, len)
  {
    Docs(t, len, splits) + Emitted(t, Fold(t, len, splits).current)
  }

  /** `merge`, as the loop the chunker runs. */
  method MergeSplits(t: Config, len: string -> nat, splits: seq<string>) returns (docs: seq<string>)
    requires Configured(t, len)
    ensures docs == MergeFn(t, len, splits)
  {
    var separatorLen := len(t.separator);
    docs := [];
    var current: seq<string> := [];
    var total := 0;
    var i := 0;
    while i < |splits|
      invariant 0 <= i <= |splits|
      invariant docs == Docs(t, len, splits[..i])
      invariant Window(current, total) == Fold(t, len, splits[..i])
    {
      assert splits[..i + 1][..i] == splits[..i];
      FoldInv(t, len, splits[..i]);
      var emitted;
      emitted, current, total := PackPiece(t, len, separatorLen, current, total, splits[i]);
      docs := docs + emitted;
      i := i + 1;
    }
    assert splits[..i] == splits;
    var doc := Chunk(t, current);
    if doc != "" {
      docs := docs + [doc];
    }
  }

  /** One iteration of `merge`'s loop: the chunk it emits, and the new window. */
  method PackPiece(t: Config, len: string -> nat, separatorLen: nat, current0: seq<string>, total0: int, d: string)
    returns (emitted: seq<string>, current: seq<string>, total: int)
    requires Configured(t, len) && separatorLen == len(t.separator)
    requires WindowInv(t, len, Window(current0, total0))
    ensures Window(current, total) == Step(t, len, Window(current0, total0), d)
    ensures emitted == if Closes(t, len, Window(current0, total0), d) then Emitted(t, current0) else []
  {
    current, total, emitted := current0, total0, [];
    if |d| == 0 {
      return;
    }
    var l := len(d);
    var sLen := separatorLen;
    if |current| == 0 {
      sLen := 0;
    }
    if total + sLen + l > t.chunkSize {
      if |current| > 0 {
        var doc := Chunk(t, current);
        if doc != "" {
          emitted := [doc];
        }
        current, total := EvictLoop(t, len, current, total, l, sLen);
      }
    }
    current := current + [d];
    total := total + l + sLen;
  }

  /** The eviction loop of `merge`. */
  method EvictLoop(t: Config, len: string -> nat, current0: seq<string>, total0: int, l: nat, sLen: nat)
    returns (current: seq<string>, total: int)
    requires Configured(t, len)
    requires total0 == Weight(t, len, current0)
    ensures (current, total) == Evict(t, len, current0, total0, l, sLen)
  {
    current, total := current0, total0;
    assert Weight(t, len, []) == -(len(t.separator) as int);
    var separatorLen := len(t.separator);
    while total > t.chunkOverlap || (total + l + sLen > t.chunkSize && total > 0)
      invariant total == Weight(t, len, current)
      invariant Evict(t, len, current, total, l, sLen) == Evict(t, len, current0, total0, l, sLen)
      decreases |current|
    {
      if current == [] {
        assert false;
      }
      WeightPop(t, len, current);
      total := total - (len(current[0]) + separatorLen);
      current := current[1..];
    }
  }

  /** `Split`: with no separator the whole text is one piece; otherwise the pieces
      between separators are packed. Only the first case can give an empty chunk. */
  function SplitText(t: Config, len: string -> nat, text: string): (r: seq<string>)
    requires Configured(t, len)
    ensures t.separator == "" ==> r == [text]
    ensures forall k :: 0 <= k < |r| ==> r[k] != "" || (t.separator == "" && text == "")
  {
    if t.separator == "" then [text]
    else
      MergeNoEmptyChunk(t, len, GoStrings.Split(text, t.separator));
      MergeFn(t, len, GoStrings.Split(text, t.separator))
  }

  // ---------------------------------------------------------------------------------------
  // Properties of the packing loop

  /** The non-empty pieces, in order. */
  function NonEmpty(splits: seq<string>): (r: seq<string>)
    ensures |r| <= |splits|
  {
    if splits == [] then []
    else NonEmpty(splits[..|splits| - 1]) + (if |splits[|splits| - 1]| == 0 then [] else [splits[|splits| - 1]])
  }

  /** Empty pieces are skipped: packing only the non-empty pieces gives the same window
      and the same chunks. */
  lemma {:induction false} FoldSkipsEmpty(t: Config, len: string -> nat, splits: seq<string>)
    requires Configured(t, len)
    ensures Fold(t, len, splits) == Fold(t, len, NonEmpty(splits))
    ensures Docs(t, len, splits) == Docs(t, len, NonEmpty(splits))
  {
    if splits != [] {
      var front, d := splits[..|splits| - 1], splits[|splits| - 1];
      FoldSkipsEmpty(t, len, front);
      var ns := NonEmpty(front);
      assert NonEmpty(splits) == ns + (if |d| == 0 then [] else [d]);
      if |d| > 0 {
        assert (ns + [d])[..|ns + [d]| - 1] == ns;
        assert Fold(t, len, ns + [d]) == Step(t, len, Fold(t, len, ns), d);
      } else {
        assert ns + [] == ns;
        assert !Closes(t, len, Fold(t, len, front), d);
      }
    }
  }

  lemma MergeSkipsEmpty(t: Config, len: string -> nat, splits: seq<string>)
    requires Configured(t, len)
    ensures MergeFn(t, len, splits) == MergeFn(t, len, NonEmpty(splits))
  {
    FoldSkipsEmpty(t, len, splits);
  }

  /** No emitted chunk is empty. */
  lemma {:induction false} DocsNonEmpty(t: Config, len: string -> nat, splits: seq<string>)
    requires Configured(t, len)
    ensures forall k :: 0 <= k < |Docs(t, len, splits)| ==> Docs(t, len, splits)[k] != ""
  {
    if splits != [] {
      DocsNonEmpty(t, len, splits[..|splits| - 1]);
    }
  }

  lemma MergeNoEmptyChunk(t: Config, len: string -> nat, splits: seq<string>)
    requires Configured(t, len)
    ensures forall k :: 0 <= k < |MergeFn(t, len, splits)| ==> MergeFn(t, len, splits)[k] != ""
  {
    DocsNonEmpty(t, len, splits);
  }

  /** The window is always the latest non-empty pieces: a contiguous run ending at the
      last piece seen. */
  lemma {:induction false} WindowIsSuffix(t: Config, len: string -> nat, splits: seq<string>)
    requires Configured(t, len)
    ensures var w, ns := Fold(t, len, splits), NonEmpty(splits);
      |w.current| <= |ns| && w.current == ns[|ns| - |w.current|..]
  {
    if splits != [] {
      var front, d := splits[..|splits| - 1], splits[|splits| - 1];
      WindowIsSuffix(t, len, front);
      if |d| > 0 {
        assert NonEmpty(splits) == NonEmpty(front) + [d];
        StepSuffix(t, len, Fold(t, len, front), NonEmpty(front), d);
      }
    }
  }

  /** A step on a non-empty piece keeps the window a suffix of the pieces seen. */
  lemma StepSuffix(t: Config, len: string -> nat, w: Window, ns: seq<string>, d: string)
    requires Configured(t, len) && |d| > 0
    requires |w.current| <= |ns| && w.current == ns[|ns| - |w.current|..]
    ensures var r, ns' := Step(t, len, w, d), ns + [d];
      |r.current| <= |ns'| && r.current == ns'[|ns'| - |r.current|..]
  {
    var sLen := if |w.current| == 0 then 0 else len(t.separator);
    var kept := w.current;
    if w.total + sLen + len(d) > t.chunkSize && |w.current| > 0 {
      EvictSuffix(t, len, w.current, w.total, len(d), sLen);
      kept := Evict(t, len, w.current, w.total, len(d), sLen).0;
    }
    assert Step(t, len, w, d).current == kept + [d];
    assert kept == ns[|ns| - |kept|..];
    var ns' := ns + [d];
    assert ns'[|ns'| - |kept + [d]|..] == ns[|ns| - |kept|..] + [d];
  }

  /** Where the window starts among the non-empty pieces. */
  function Lo(t: Config, len: string -> nat, splits: seq<string>): nat
    requires Configured(t, len)
  {
    WindowIsSuffix(t, len, splits);
    |NonEmpty(splits)| - |Fold(t, len, splits).current|
  }

  /** The window only loses pieces at its front. */
  lemma LoMonotone(t: Config, len: string -> nat, splits: seq<string>)
    requires Configured(t, len)
    requires splits != []
    ensures Lo(t, len, splits[..|splits| - 1]) <= Lo(t, len, splits)
  {
    var front, d := splits[..|splits| - 1], splits[|splits| - 1];
    var w0 := Fold(t, len, front);
    var sLen := if |w0.current| == 0 then 0 else len(t.separator);
    if |d| > 0 {
      assert NonEmpty(splits) == NonEmpty(front) + [d];
      EvictSuffix(t, len, w0.current, w0.total, len(d), sLen);
    }
  }

  /** A chunk's extent among the non-empty pieces: `lo` inclusive, `hi` exclusive. */
  datatype Run = Run(lo: nat, hi: nat)

  /** The extents of the emitted chunks, recorded as the loop runs. */
  function Runs(t: Config, len: string -> nat, splits: seq<string>): seq<Run>
    requires Configured(t, len)
  {
    if splits == [] then []
    else
      var front := splits[..|splits| - 1];
      var w := Fold(t, len, front);
      Runs(t, len, front)
        + (if Closes(t, len, w, splits[|splits| - 1]) && Emitted(t, w.current) != []
           then [Run(Lo(t, len, front), |NonEmpty(front)|)] else [])
  }

  /** Runs are non-empty, lie before the window's last piece, start no later than the
      window, and come in order: starts never decrease and ends strictly increase. */
  predicate RunsOrdered(rs: seq<Run>, lo: nat, n: nat)
  {
    && (forall k :: 0 <= k < |rs| ==> rs[k].lo < rs[k].hi < n && rs[k].lo <= lo)
    && (forall k :: 0 < k < |rs| ==> rs[k - 1].lo <= rs[k].lo && rs[k - 1].hi < rs[k].hi)
  }

  /** The runs come in input order and lie before the window's last piece. */
  lemma {:induction false} RunsAreOrdered(t: Config, len: string -> nat, splits: seq<string>)
    requires Configured(t, len)
    ensures RunsOrdered(Runs(t, len, splits), Lo(t, len, splits), |NonEmpty(splits)|)
  {
    if splits != [] {
      var front := splits[..|splits| - 1];
      RunsAreOrdered(t, len, front);
      LoMonotone(t, len, splits);
    }
  }

  /** Every emitted chunk is the trimmed join of its run of non-empty pieces. */
  lemma {:induction false} RunsDescribeDocs(t: Config, len: string -> nat, splits: seq<string>)
    requires Configured(t, len)
    ensures var docs, ns, rs := Docs(t, len, splits), NonEmpty(splits), Runs(t, len, splits);
      && |rs| == |docs|
      && forall k :: 0 <= k < |rs| ==> rs[k].lo <= rs[k].hi <= |ns| && docs[k] == Chunk(t, ns[rs[k].lo..rs[k].hi])
  {
    if splits != [] {
      var front, d := splits[..|splits| - 1], splits[|splits| - 1];
      RunsDescribeDocs(t, len, front);
      RunsAreOrdered(t, len, front);
      WindowIsSuffix(t, len, front);
      var ns0, ns := NonEmpty(front), NonEmpty(splits);
      var rs0, docs0 := Runs(t, len, front), Docs(t, len, front);
      var w0 := Fold(t, len, front);
      assert ns[..|ns0|] == ns0;
      var extra := if Closes(t, len, w0, d) then Emitted(t, w0.current) else [];
      assert Docs(t, len, splits) == docs0 + extra;
      var newRuns := if Closes(t, len, w0, d) && Emitted(t, w0.current) != []
        then [Run(Lo(t, len, front), |ns0|)] else [];
      assert Runs(t, len, splits) == rs0 + newRuns;
      forall k | 0 <= k < |rs0|
        ensures ns[rs0[k].lo..rs0[k].hi] == ns0[rs0[k].lo..rs0[k].hi]
      {
        assert ns[rs0[k].lo..rs0[k].hi] == ns[..|ns0|][rs0[k].lo..rs0[k].hi];
      }
      if newRuns != [] {
        assert ns0[Lo(t, len, front)..|ns0|] == w0.current;
        assert ns[Lo(t, len, front)..|ns0|] == ns0[Lo(t, len, front)..|ns0|];
        assert extra == [Chunk(t, w0.current)];
      }
    }
  }

  /** The extents of every chunk `merge` returns. */
  function MergeRuns(t: Config, len: string -> nat, splits: seq<string>): seq<Run>
    requires Configured(t, len)
  {
    Runs(t, len, splits)
      + (if Emitted(t, Fold(t, len, splits).current) != [] then [Run(Lo(t, len, splits), |NonEmpty(splits)|)] else [])
  }

  /** Every chunk of `merge` is the trimmed separator-join of a contiguous run of the
      non-empty pieces, and the runs are in input order. */
  lemma MergeChunksAreRuns(t: Config, len: string -> nat, splits: seq<string>)
    requires Configured(t, len)
    ensures var out, ns, rs := MergeFn(t, len, splits), NonEmpty(splits), MergeRuns(t, len, splits);
      && |rs| == |out|
      && (forall k :: 0 <= k < |rs| ==> rs[k].lo < rs[k].hi <= |ns| && out[k] == Chunk(t, ns[rs[k].lo..rs[k].hi]))
      && (forall k :: 0 < k < |rs| ==> rs[k - 1].lo <= rs[k].lo && rs[k - 1].hi < rs[k].hi)
  {
    RunsDescribeDocs(t, len, splits);
    RunsAreOrdered(t, len, splits);
    WindowIsSuffix(t, len, splits);
    FinalRun(t, Docs(t, len, splits), Runs(t, len, splits), NonEmpty(splits), Lo(t, len, splits),
      Fold(t, len, splits).current, MergeFn(t, len, splits), MergeRuns(t, len, splits));
  }

  /** The last window closes the output: its chunk, when not empty, is that of the run
      at the end of the non-empty pieces. */
  lemma FinalRun(t: Config, docs: seq<string>, rs: seq<Run>, ns: seq<string>, lo: nat, cur: seq<string>,
                 out: seq<string>, mr: seq<Run>)
    requires |rs| == |docs|
    requires forall k :: 0 <= k < |rs| ==> rs[k].lo <= rs[k].hi <= |ns| && docs[k] == Chunk(t, ns[rs[k].lo..rs[k].hi])
    requires RunsOrdered(rs, lo, |ns|)
    requires |cur| <= |ns| && cur == ns[|ns| - |cur|..] && lo == |ns| - |cur|
    requires out == docs + Emitted(t, cur)
    requires mr == rs + if Emitted(t, cur) != [] then [Run(lo, |ns|)] else []
    ensures |mr| == |out|
    ensures forall k :: 0 <= k < |mr| ==> mr[k].lo < mr[k].hi <= |ns| && out[k] == Chunk(t, ns[mr[k].lo..mr[k].hi])
    ensures forall k :: 0 < k < |mr| ==> mr[k - 1].lo <= mr[k].lo && mr[k - 1].hi < mr[k].hi
  {
    assert Emitted(t, []) == [];
    if Emitted(t, cur) != [] {
      assert ns[lo..|ns|] == cur;
    }
    AppendRun(t, docs, rs, ns, lo, out, mr);
  }

  /** Chunks described by ordered runs, optionally followed by the chunk of a last run
      that starts no earlier than the others and ends after them, are described by
      ordered runs whose starts come before their ends. */
  lemma AppendRun(t: Config, docs: seq<string>, rs: seq<Run>, ns: seq<string>, lo: nat,
                  out: seq<string>, mr: seq<Run>)
    requires |rs| == |docs|
    requires forall k :: 0 <= k < |rs| ==> rs[k].lo <= rs[k].hi <= |ns| && docs[k] == Chunk(t, ns[rs[k].lo..rs[k].hi])
    requires RunsOrdered(rs, lo, |ns|)
    requires (out == docs && mr == rs)
          || (lo < |ns| && out == docs + [Chunk(t, ns[lo..|ns|])] && mr == rs + [Run(lo, |ns|)])
    ensures |mr| == |out|
    ensures forall k :: 0 <= k < |mr| ==> mr[k].lo < mr[k].hi <= |ns| && out[k] == Chunk(t, ns[mr[k].lo..mr[k].hi])
    ensures forall k :: 0 < k < |mr| ==> mr[k - 1].lo <= mr[k].lo && mr[k - 1].hi < mr[k].hi
  {
  }

  /** The loop-head total: the window's pieces plus a separator between neighbours. */
  lemma TotalInvariant(t: Config, len: string -> nat, splits: seq<string>)
    requires Configured(t, len)
    ensures var w := Fold(t, len, splits);
      w.total == if w.current == [] then 0 else SumLen(len, w.current) + len(t.separator) * (|w.current| - 1)
  {
    FoldInv(t, len, splits);
    WeightFormula(t, len, Fold(t, len, splits).current);
  }

  /** Length as the number of characters. */
  function CharCount(s: string): nat { |s| }

  /** The settings of the chunker's own example. */
  const ExampleConfig: Config := Config("\n", 10, 4)

  /** With length as the character count, the chunker's own example: "hello" closes
      the first window and keeps "hey" as overlap; the two long pieces stand alone. */
  lemma Example(p: seq<string>)
    requires p == ["yeah", "hey", "hello", "this is a test", "hello world"]
    ensures MergeFn(ExampleConfig, CharCount, p) == ["yeah\nhey", "hey\nhello", "this is a test", "hello world"]
  {
    ExamplePieces(p);
    ExampleFirstThree();
    ExampleLastTwo([] + ["yeah"] + ["hey"] + ["hello"]);
    ExampleLast(p);
  }

  /** The example's pieces, one at a time. */
  lemma ExamplePieces(p: seq<string>)
    requires p == ["yeah", "hey", "hello", "this is a test", "hello world"]
    ensures p == [] + ["yeah"] + ["hey"] + ["hello"] + ["this is a test"] + ["hello world"]
  {
  }

  /** The example's last window gives the last chunk. */
  lemma ExampleLast(q: seq<string>)
    requires Fold(ExampleConfig, CharCount, q) == Window(["hello world"], 11)
    requires Docs(ExampleConfig, CharCount, q) == [] + ["yeah\nhey"] + ["hey\nhello"] + ["this is a test"]
    ensures MergeFn(ExampleConfig, CharCount, q) == ["yeah\nhey", "hey\nhello", "this is a test", "hello world"]
  {
    Chunk4();
    assert [] + ["yeah\nhey"] + ["hey\nhello"] + ["this is a test"] + ["hello world"]
        == ["yeah\nhey", "hey\nhello", "this is a test", "hello world"];
  }

  /** The example's first three pieces: "hello" closes the first window. */
  lemma ExampleFirstThree()
    ensures var a := [] + ["yeah"] + ["hey"] + ["hello"];
      && Fold(ExampleConfig, CharCount, a) == Window(["hey", "hello"], 9)
      && Docs(ExampleConfig, CharCount, a) == [] + ["yeah\nhey"]
  {
    var p1 := [] + ["yeah"];
    var p2 := p1 + ["hey"];
    ExampleStep1();
    PackSnoc(ExampleConfig, CharCount, [], "yeah");
    ExampleStep2();
    PackSnoc(ExampleConfig, CharCount, p1, "hey");
    ExampleStep3();
    Chunk1();
    PackSnoc(ExampleConfig, CharCount, p2, "hello");
  }

  /** The example's last two pieces each close the window. */
  lemma ExampleLastTwo(a: seq<string>)
    requires Fold(ExampleConfig, CharCount, a) == Window(["hey", "hello"], 9)
    requires Docs(ExampleConfig, CharCount, a) == [] + ["yeah\nhey"]
    ensures var p := a + ["this is a test"] + ["hello world"];
      && Fold(ExampleConfig, CharCount, p) == Window(["hello world"], 11)
      && Docs(ExampleConfig, CharCount, p) == [] + ["yeah\nhey"] + ["hey\nhello"] + ["this is a test"]
  {
    var p4 := a + ["this is a test"];
    ExampleStep4();
    Chunk2();
    PackSnoc(ExampleConfig, CharCount, a, "this is a test");
    ExampleStep5();
    Chunk3();
    PackSnoc(ExampleConfig, CharCount, p4, "hello world");
  }

  lemma ExampleStep1()
    ensures Step(ExampleConfig, CharCount, Window([], 0), "yeah") == Window(["yeah"], 4)
    ensures !Closes(ExampleConfig, CharCount, Window([], 0), "yeah")
  {
    assert [] + ["yeah"] == ["yeah"];
  }

  lemma ExampleStep2()
    ensures Step(ExampleConfig, CharCount, Window(["yeah"], 4), "hey") == Window(["yeah", "hey"], 8)
    ensures !Closes(ExampleConfig, CharCount, Window(["yeah"], 4), "hey")
  {
    assert ["yeah"] + ["hey"] == ["yeah", "hey"];
  }

  lemma ExampleStep3()
    ensures Step(ExampleConfig, CharCount, Window(["yeah", "hey"], 8), "hello") == Window(["hey", "hello"], 9)
    ensures Closes(ExampleConfig, CharCount, Window(["yeah", "hey"], 8), "hello")
  {
    assert ["yeah", "hey"][1..] == ["hey"];
    assert Evict(ExampleConfig, CharCount, ["hey"], 3, 5, 1) == (["hey"], 3);
    assert ["hey"] + ["hello"] == ["hey", "hello"];
  }

  lemma ExampleStep4()
    ensures Step(ExampleConfig, CharCount, Window(["hey", "hello"], 9), "this is a test") == Window(["this is a test"], 14)
    ensures Closes(ExampleConfig, CharCount, Window(["hey", "hello"], 9), "this is a test")
  {
    assert ["hey", "hello"][1..] == ["hello"];
    assert ["hello"][1..] == [];
    assert Evict(ExampleConfig, CharCount, ["hello"], 5, 14, 1) == ([], -1);
    assert [] + ["this is a test"] == ["this is a test"];
  }

  lemma ExampleStep5()
    ensures Step(ExampleConfig, CharCount, Window(["this is a test"], 14), "hello world") == Window(["hello world"], 11)
    ensures Closes(ExampleConfig, CharCount, Window(["this is a test"], 14), "hello world")
  {
    assert ["this is a test"][1..] == [];
    assert Evict(ExampleConfig, CharCount, ["this is a test"], 14, 11, 1) == ([], -1);
    assert [] + ["hello world"] == ["hello world"];
  }

  lemma Chunk1()
    ensures Emitted(ExampleConfig, ["yeah", "hey"]) == ["yeah\nhey"]
  {
    assert ["yeah", "hey"][1..] == ["hey"];
    assert GoStrings.Join(["yeah", "hey"], "\n") == "yeah\nhey";
  }

  lemma Chunk2()
    ensures Emitted(ExampleConfig, ["hey", "hello"]) == ["hey\nhello"]
  {
    assert ["hey", "hello"][1..] == ["hello"];
    assert GoStrings.Join(["hey", "hello"], "\n") == "hey\nhello";
  }

  lemma Chunk3()
    ensures Emitted(ExampleConfig, ["this is a test"]) == ["this is a test"]
  {
  }

  lemma Chunk4()
    ensures Emitted(ExampleConfig, ["hello world"]) == ["hello world"]
  {
  }

  /** One more piece: one more step of the loop. */
  lemma PackSnoc(t: Config, len: string -> nat, a: seq<string>, d: string)
    requires Configured(t, len)
    ensures Fold(t, len, a + [d]) == Step(t, len, Fold(t, len, a), d)
    ensures Docs(t, len, a + [d])
      == Docs(t, len, a) + (if Closes(t, len, Fold(t, len, a), d) then Emitted(t, Fold(t, len, a).current) else [])
  {
    assert (a + [d])[..|a + [d]| - 1] == a;
  }

  // ---------------------------------------------------------------------------------------
  // Merge: per-source packing of elements

  /** The elements of the given source, in input order. */
  function OfSource(es: seq<VectorModels.Element>, name: string): seq<VectorModels.Element>
  {
    if es == [] then []
    else OfSource(es[..|es| - 1], name) + (if es[|es| - 1].name == name then [es[|es| - 1]] else [])
  }

  function Names(es: seq<VectorModels.Element>): set<string>
  {
    set k | 0 <= k < |es| :: es[k].name
  }

  function Contents(es: seq<VectorModels.Element>): (r: seq<string>)
    ensures |r| == |es|
    ensures forall k :: 0 <= k < |es| ==> r[k] == es[k].content
  {
    if es == [] then [] else Contents(es[..|es| - 1]) + [es[|es| - 1].content]
  }

  /** The output elements of one source: its merged chunks numbered from 0, with every
      other field zero. */
  function Block(t: Config, len: string -> nat, es: seq<VectorModels.Element>, name: string)
    : seq<VectorModels.Element>
    requires Configured(t, len)
  {
    var merged := MergeFn(t, len, Contents(OfSource(es, name)));
    Numbered(name, merged, 0)
  }

  function Numbered(name: string, chunks: seq<string>, from: nat): (r: seq<VectorModels.Element>)
    ensures |r| == |chunks|
    ensures forall i :: 0 <= i < |chunks| ==>
      r[i] == VectorModels.EmptyElement().(name := name, group := from + i, content := chunks[i])
  {
    if chunks == [] then []
    else
      var first := VectorModels.EmptyElement().(name := name, group := from, content := chunks[0]);
      [first] + Numbered(name, chunks[1..], from + 1)
  }

  function Blocks(t: Config, len: string -> nat, es: seq<VectorModels.Element>, order: seq<string>)
    : seq<VectorModels.Element>
    requires Configured(t, len)
  {
    if order == [] then [] else Blocks(t, len, es, order[..|order| - 1]) + Block(t, len, es, order[|order| - 1])
  }

  predicate Distinct(order: seq<string>)
  {
    forall i, j :: 0 <= i < j < |order| ==> order[i] != order[j]
  }

  /** The first loop of `Merge`: each source name mapped to its elements in order. */
  method GroupBySource(elements: seq<VectorModels.Element>) returns (groups: map<string, seq<VectorModels.Element>>)
    ensures groups.Keys == Names(elements)
    ensures forall n :: n in groups ==> groups[n] == OfSource(elements, n)
  {
    groups := map[];
    var i := 0;
    while i < |elements|
      invariant 0 <= i <= |elements|
      invariant groups.Keys == Names(elements[..i])
      invariant forall n :: n in groups ==> groups[n] == OfSource(elements[..i], n)
    {
      var element := elements[i];
      var source := element.name;
      assert elements[..i + 1][..i] == elements[..i];
      OfSourceAbsent(elements[..i], source);
      if source !in groups {
        groups := groups[source := [element]];
      } else {
        groups := groups[source := groups[source] + [element]];
      }
      i := i + 1;
    }
    assert elements[..i] == elements;
  }

  /** The contents of the elements, in order. */
  method ContentsOf(subElements: seq<VectorModels.Element>) returns (splits: seq<string>)
    ensures splits == Contents(subElements)
  {
    splits := [];
    var j := 0;
    while j < |subElements|
      invariant 0 <= j <= |subElements|
      invariant splits == Contents(subElements[..j])
    {
      assert subElements[..j + 1][..j] == subElements[..j];
      splits := splits + [subElements[j].content];
      j := j + 1;
    }
    assert subElements[..j] == subElements;
  }

  /** The output elements of one source: the chunks numbered from 0. */
  method NumberChunks(source: string, chunks: seq<string>) returns (out: seq<VectorModels.Element>)
    ensures out == Numbered(source, chunks, 0)
  {
    out := [];
    var k := 0;
    while k < |chunks|
      invariant 0 <= k <= |chunks|
      invariant out == Numbered(source, chunks[..k], 0)
    {
      NumberedSnoc(source, chunks, k);
      out := out + [VectorModels.EmptyElement().(name := source, group := k, content := chunks[k])];
      k := k + 1;
    }
    assert chunks[..k] == chunks;
  }

  /** `Merge`: the elements are grouped by source name; each group, visited in the map's
      unspecified order, is packed and numbered. */
  method MergeElements(t: Config, len: string -> nat, elements: seq<VectorModels.Element>)
    returns (merged: seq<VectorModels.Element>, ghost order: seq<string>)
    requires Configured(t, len)
    ensures Distinct(order) && forall n :: n in order <==> n in Names(elements)
    ensures merged == Blocks(t, len, elements, order)
  {
    var groups := GroupBySource(elements);
    merged := [];
    order := [];
    var remaining := groups.Keys;
    while remaining != {}
      invariant remaining <= groups.Keys
      invariant Distinct(order)
      invariant forall n :: n in order <==> n in groups && n !in remaining
      invariant merged == Blocks(t, len, elements, order)
      decreases remaining
    {
      var source :| source in remaining;
      var splits := ContentsOf(groups[source]);
      var chunks := MergeSplits(t, len, splits);
      var block := NumberChunks(source, chunks);
      BlockIs(t, len, elements, source, groups[source], splits, chunks, block);
      BlocksSnoc(t, len, elements, order, source);
      DistinctSnoc(order, source);
      merged := merged + block;
      order := order + [source];
      remaining := remaining - {source};
    }
  }

  lemma DistinctSnoc(order: seq<string>, x: string)
    requires Distinct(order) && x !in order
    ensures Distinct(order + [x])
  {
  }

  lemma BlocksSnoc(t: Config, len: string -> nat, es: seq<VectorModels.Element>, order: seq<string>, name: string)
    requires Configured(t, len)
    ensures Blocks(t, len, es, order + [name]) == Blocks(t, len, es, order) + Block(t, len, es, name)
  {
    assert (order + [name])[..|order|] == order;
  }

  lemma BlockIs(t: Config, len: string -> nat, es: seq<VectorModels.Element>, name: string,
                group: seq<VectorModels.Element>, splits: seq<string>, chunks: seq<string>,
                block: seq<VectorModels.Element>)
    requires Configured(t, len)
    requires group == OfSource(es, name) && splits == Contents(group)
    requires chunks == MergeFn(t, len, splits) && block == Numbered(name, chunks, 0)
    ensures block == Block(t, len, es, name)
  {
  }

  lemma NumberedSnoc(name: string, chunks: seq<string>, k: nat)
    requires k < |chunks|
    ensures Numbered(name, chunks[..k + 1], 0)
      == Numbered(name, chunks[..k], 0) + [VectorModels.EmptyElement().(name := name, group := k, content := chunks[k])]
  {
  }

  /** A new name has no group yet; a known name's group grows by the element. */
  lemma OfSourceAbsent(es: seq<VectorModels.Element>, name: string)
    ensures name !in Names(es) ==> OfSource(es, name) == []
    ensures name in Names(es) ==> |OfSource(es, name)| > 0
  {
  }

  /** The elements of one source among the output are exactly that source's packed and
      numbered chunks: sources do not mix. */
  lemma {:induction false} BlocksOfSource(t: Config, len: string -> nat, es: seq<VectorModels.Element>,
                                          order: seq<string>, name: string)
    requires Configured(t, len)
    requires Distinct(order)
    ensures OfName(Blocks(t, len, es, order), name) == if name in order then Block(t, len, es, name) else []
  {
    if order != [] {
      var front, last := order[..|order| - 1], order[|order| - 1];
      assert Distinct(front);
      BlocksOfSource(t, len, es, front, name);
      OfNameAppend(Blocks(t, len, es, front), Block(t, len, es, last), name);
      BlockOfName(t, len, es, last, name);
      assert name in order <==> name in front || name == last;
      if name == last {
        assert name !in front;
      }
    }
  }

  /** The output elements with the given name, in order. */
  function OfName(es: seq<VectorModels.Element>, name: string): seq<VectorModels.Element>
  {
    if es == [] then [] else (if es[0].name == name then [es[0]] else []) + OfName(es[1..], name)
  }

  lemma {:induction false} OfNameAppend(a: seq<VectorModels.Element>, b: seq<VectorModels.Element>, name: string)
    ensures OfName(a + b, name) == OfName(a, name) + OfName(b, name)
  {
    if a == [] {
      assert a + b == b;
    } else {
      var head := if a[0].name == name then [a[0]] else [];
      assert (a + b)[0] == a[0];
      assert (a + b)[1..] == a[1..] + b;
      assert OfName(a + b, name) == head + OfName(a[1..] + b, name);
      OfNameAppend(a[1..], b, name);
      assert head + (OfName(a[1..], name) + OfName(b, name)) == (head + OfName(a[1..], name)) + OfName(b, name);
    }
  }

  lemma BlockOfName(t: Config, len: string -> nat, es: seq<VectorModels.Element>, source: string, name: string)
    requires Configured(t, len)
    ensures OfName(Block(t, len, es, source), name) == if source == name then Block(t, len, es, source) else []
  {
    var chunks := MergeFn(t, len, Contents(OfSource(es, source)));
    NumberedOfName(source, chunks, 0, name);
  }

  lemma {:induction false} NumberedOfName(source: string, chunks: seq<string>, from: nat, name: string)
    ensures OfName(Numbered(source, chunks, from), name) == if source == name then Numbered(source, chunks, from) else []
  {
    if chunks != [] {
      NumberedOfName(source, chunks[1..], from + 1, name);
    }
  }
}
