/** `pkg/utils`: string-set equality through de-duplication and sorting, and `ToPtr`. */
module Util {
  import opened Wrappers

  /** ToPtr: a pointer to a copy of the value; an optional field holding it. */
  function ToPtr<T>(t: T): (r: Option<T>)
  {
    Some(t)
  }

  // ---------------------------------------------------------------------------------------
  // deDup

  /** The first occurrence of every string, in the order of first occurrence. */
  function DeDupSpec(s: seq<string>): seq<string>
  {
    if s == [] then []
    else
      var p := DeDupSpec(s[..|s| - 1]);
      if s[|s| - 1] in p then p else p + [s[|s| - 1]]
  }

  predicate Distinct(s: seq<string>)
  {
    forall i, j :: 0 <= i < j < |s| ==> s[i] != s[j]
  }

  /** The position of the first occurrence of `x` in `s`. */
  function FirstIndex(s: seq<string>, x: string): (i: nat)
    requires x in s
    ensures i < |s| && s[i] == x && forall j :: 0 <= j < i ==> s[j] != x
  {
    if s[0] == x then 0
    else
      assert x in s[1..];
      1 + FirstIndex(s[1..], x)
  }

  /** deDup: the loop over the input with a map of the strings already kept. */
  method DeDup(res: seq<string>) returns (result: seq<string>)
    ensures result == DeDupSpec(res)
  {
    var uniqueMap: map<string, bool> := map[];
    result := [];
    var i := 0;
    while i < |res|
      invariant 0 <= i <= |res|
      invariant result == DeDupSpec(res[..i])
      invariant forall x :: x in uniqueMap <==> x in result
    {
      var str := res[i];
      assert res[..i + 1][..i] == res[..i];
      if str !in uniqueMap {
        uniqueMap := uniqueMap[str := true];
        result := result + [str];
      }
      i := i + 1;
    }
    assert res[..i] == res;
  }

  /** What deDup keeps: no string twice, exactly the strings of the input, each once. */
  lemma {:induction false} DeDupCounts(s: seq<string>)
    ensures forall x :: multiset(DeDupSpec(s))[x] == if x in s then 1 else 0
    decreases |s|
  {
    if s != [] {
      var front := s[..|s| - 1];
      DeDupCounts(front);
      assert s == front + [s[|s| - 1]];
      forall x ensures x in s <==> x in front || x == s[|s| - 1] {
        assert x in front ==> x in s;
      }
    }
  }

  /** deDup has no duplicates, keeps the input's strings, and is no longer than it. */
  lemma {:induction false} DeDupBasics(s: seq<string>)
    ensures Distinct(DeDupSpec(s))
    ensures forall x :: x in DeDupSpec(s) <==> x in s
    ensures |DeDupSpec(s)| <= |s|
    decreases |s|
  {
    if s != [] {
      var front := s[..|s| - 1];
      DeDupBasics(front);
      assert s == front + [s[|s| - 1]];
      forall x ensures x in s <==> x in front || x == s[|s| - 1] {
        assert x in front ==> x in s;
      }
    }
  }

  /** deDup lists the strings in the order of their first occurrence in the input. */
  lemma {:induction false} DeDupFirstOccurrenceOrder(s: seq<string>)
    ensures var r := DeDupSpec(s);
      forall i, j :: 0 <= i < j < |r| ==> r[i] in s && r[j] in s && FirstIndex(s, r[i]) < FirstIndex(s, r[j])
    decreases |s|
  {
    var r := DeDupSpec(s);
    DeDupBasics(s);
    if s != [] {
      var front := s[..|s| - 1];
      var last := s[|s| - 1];
      var p := DeDupSpec(front);
      DeDupFirstOccurrenceOrder(front);
      DeDupBasics(front);
      forall x | x in front ensures FirstIndex(s, x) == FirstIndex(front, x) {
        FirstIndexExtend(front, last, x);
      }
      forall i, j | 0 <= i < j < |r| ensures r[i] in s && r[j] in s && FirstIndex(s, r[i]) < FirstIndex(s, r[j]) {
        assert r[i] in p;
        if j < |p| {
          assert r[j] in p;
        } else {
          assert r[j] == last && last !in front;
          assert FirstIndex(s, last) == |front|;
        }
      }
    }
  }

  lemma FirstIndexExtend(front: seq<string>, last: string, x: string)
    requires x in front
    ensures x in front + [last] && FirstIndex(front + [last], x) == FirstIndex(front, x)
  {
    var s := front + [last];
    var i, k := FirstIndex(s, x), FirstIndex(front, x);
    assert forall j :: 0 <= j < |front| ==> s[j] == front[j];
  }

  // ---------------------------------------------------------------------------------------
  // The string order of sort.StringSlice

  /** Go's `<` on strings: lexicographic on the code points (the byte order of UTF-8). */
  predicate Less(a: string, b: string)
  {
    if a == [] then b != []
    else if b == [] then false
    else if a[0] != b[0] then a[0] < b[0]
    else Less(a[1..], b[1..])
  }

  predicate Le(a: string, b: string) { a == b || Less(a, b) }

  lemma {:induction false} LessTrichotomy(a: string, b: string)
    ensures a == b || Less(a, b) || Less(b, a)
    ensures !(Less(a, b) && Less(b, a))
    decreases |a|
  {
    if a != [] && b != [] {
      LessTrichotomy(a[1..], b[1..]);
      if a[0] == b[0] && a[1..] == b[1..] {
        assert a == [a[0]] + a[1..] && b == [b[0]] + b[1..];
      }
    }
  }

  lemma {:induction false} LessTransitive(a: string, b: string, c: string)
    requires Less(a, b) && Less(b, c)
    ensures Less(a, c)
    decreases |a|
  {
    if a != [] && b != [] && c != [] && a[0] == b[0] && b[0] == c[0] {
      LessTransitive(a[1..], b[1..], c[1..]);
    }
  }

  lemma LeTransitive(a: string, b: string, c: string)
    requires Le(a, b) && Le(b, c)
    ensures Le(a, c)
  {
    if Less(a, b) && Less(b, c) {
      LessTransitive(a, b, c);
    }
  }

  /** Every neighbour pair in order. */
  predicate Sorted(s: seq<string>)
  {
    forall k :: 0 < k < |s| ==> Le(s[k - 1], s[k])
  }

  /** The first string of a sorted sequence is the least. */
  lemma {:induction false} SortedHeadLeast(s: seq<string>, m: nat)
    requires Sorted(s) && m < |s|
    ensures Le(s[0], s[m])
    decreases m
  {
    if m > 0 {
      SortedHeadLeast(s, m - 1);
      LeTransitive(s[0], s[m - 1], s[m]);
    }
  }

  /** Two sorted arrangements of the same strings are the same sequence. */
  lemma {:induction false} SortedUnique(p: seq<string>, q: seq<string>)
    requires Sorted(p) && Sorted(q) && multiset(p) == multiset(q)
    ensures p == q
    decreases |p|
  {
    if p == [] {
      assert |q| == |multiset(q)| == 0;
    } else {
      assert |q| == |multiset(q)| == |multiset(p)| == |p|;
      SortedHeadsEqual(p, q);
      MultisetTail(p, q);
      SortedUnique(p[1..], q[1..]);
      assert p == [p[0]] + p[1..] && q == [q[0]] + q[1..];
    }
  }

  lemma SortedHeadsEqual(p: seq<string>, q: seq<string>)
    requires Sorted(p) && Sorted(q) && multiset(p) == multiset(q) && p != [] && q != []
    ensures p[0] == q[0]
  {
    assert p[0] in multiset(q);
    var k :| 0 <= k < |q| && q[k] == p[0];
    assert q[0] in multiset(p);
    var m :| 0 <= m < |p| && p[m] == q[0];
    SortedHeadLeast(p, m);
    SortedHeadLeast(q, k);
    LessTrichotomy(p[0], q[0]);
  }

  lemma MultisetTail(p: seq<string>, q: seq<string>)
    requires p != [] && q != [] && p[0] == q[0] && multiset(p) == multiset(q)
    ensures multiset(p[1..]) == multiset(q[1..])
  {
    assert p == [p[0]] + p[1..] && q == [q[0]] + q[1..];
    assert multiset(p[1..]) == multiset(p) - multiset{p[0]};
    assert multiset(q[1..]) == multiset(q) - multiset{p[0]};
  }

  /** sort.Sort on a copy: an insertion sort by neighbour swaps. */
  method SortStrings(a: array<string>)
    modifies a
    ensures Sorted(a[..])
    ensures multiset(a[..]) == multiset(old(a[..]))
  {
    var i := 0;
    while i < a.Length
      invariant 0 <= i <= a.Length
      invariant Sorted(a[..i])
      invariant multiset(a[..]) == multiset(old(a[..]))
    {
      Insert(a, i);
      i := i + 1;
    }
    assert a[..i] == a[..];
  }

  /** One pass of the insertion sort: a[i] moves down to its place in the sorted a[..i]. */
  method Insert(a: array<string>, i: nat)
    requires i < a.Length && Sorted(a[..i])
    modifies a
    ensures Sorted(a[..i + 1])
    ensures multiset(a[..]) == multiset(old(a[..]))
  {
    var j := i;
    while j > 0 && Less(a[j], a[j - 1])
      invariant 0 <= j <= i
      invariant forall k :: 0 < k <= i && k != j ==> Le(a[k - 1], a[k])
      invariant 0 < j < i ==> Le(a[j - 1], a[j + 1])
      invariant multiset(a[..]) == multiset(old(a[..]))
    {
      LessTrichotomy(a[j], a[j - 1]);
      Swap(a, j - 1, j);
      j := j - 1;
    }
    if j > 0 {
      LessTrichotomy(a[j], a[j - 1]);
    }
  }

  method Swap(a: array<string>, i: nat, j: nat)
    requires i < j < a.Length
    modifies a
    ensures a[..] == old(a[..])[i := old(a[j])][j := old(a[i])]
    ensures multiset(a[..]) == multiset(old(a[..]))
  {
    a[i], a[j] := a[j], a[i];
  }

  /** Equal: false for a nil second slice; otherwise the de-duplicated copies, sorted, are
      compared element by element. That holds exactly when both slices hold the same strings,
      whatever their order and multiplicity. The callers' slices are values here and can not
      be reordered. */
  method Equal(a: seq<string>, b: Option<seq<string>>) returns (r: bool)
    ensures r <==> b.Some? && forall x :: x in a <==> x in b.value
  {
    if b.None? {
      return false;
    }
    var aa := DeDup(a);
    var bb := DeDup(b.value);
    var x := new string[|aa|](k requires 0 <= k < |aa| => aa[k]);
    var y := new string[|bb|](k requires 0 <= k < |bb| => bb[k]);
    assert x[..] == aa;
    assert y[..] == bb;
    SortStrings(x);
    SortStrings(y);
    r := x[..] == y[..];
    SortedCopiesEqual(a, b.value, x[..], y[..]);
  }

  /** Sorted copies of the de-duplicated inputs are equal exactly when the inputs hold the
      same strings. */
  lemma SortedCopiesEqual(a: seq<string>, b: seq<string>, xs: seq<string>, ys: seq<string>)
    requires Sorted(xs) && multiset(xs) == multiset(DeDupSpec(a))
    requires Sorted(ys) && multiset(ys) == multiset(DeDupSpec(b))
    ensures xs == ys <==> forall x :: x in a <==> x in b
  {
    DeDupCounts(a);
    DeDupCounts(b);
    if forall s :: s in a <==> s in b {
      assert multiset(xs) == multiset(ys);
      SortedUnique(xs, ys);
    } else {
      var s :| !(s in a <==> s in b);
      assert multiset(xs)[s] != multiset(ys)[s];
    }
  }
}
