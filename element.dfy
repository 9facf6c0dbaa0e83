/** The element-extraction script: a segmenter's output enriched with per-file heading
    groups and metadata, the expansion of a path argument into files, and the collection
    of elements over all files. The segmenter, the file-type sniffing and the file
    system are inputs of the model. */
module ElementScript {
  import opened Wrappers
  import GoStrings

  // ---------------------------------------------------------------------------------------
  // Elements and their enrichment (`_element`)

  /** A value held in an element's upstream metadata dictionary. */
  datatype MetaValue = Text(s: string) | Opaque(encoded: string)

  /** One element as produced by the segmenter: its `str()` text and the optional
      attributes `tag`, `metadata` (its `to_dict()` result) and `category`. */
  datatype Element = Element(
    text: string,
    tag: Option<string>,
    metadata: Option<map<string, MetaValue>>,
    category: Option<string>)

  /** One output record: `{"content": ..., "metadata": ...}`. */
  datatype Enriched = Enriched(content: string, metadata: map<string, MetaValue>)

  predicate IsHeading(e: Element)
  {
    e.tag == Some("h2")
  }

  /** The heading counter after the given elements: the number of `h2` elements. */
  function HeadingCount(es: seq<Element>): nat
  {
    if es == [] then 0
    else HeadingCount(es[..|es| - 1]) + (if IsHeading(es[|es| - 1]) then 1 else 0)
  }

  /** os.path.basename: the text after the last '/'. */
  function Basename(p: string): string
  {
    if p == [] || p[|p| - 1] == '/' then [] else Basename(p[..|p| - 1]) + [p[|p| - 1]]
  }

  /** The basename is the last path component: a suffix without '/', preceded by '/' or
      by nothing. */
  lemma {:induction false} BasenameIsLastComponent(p: string)
    ensures var b := Basename(p);
      && |b| <= |p| && b == p[|p| - |b|..]
      && (forall k :: 0 <= k < |b| ==> b[k] != '/')
      && (|b| < |p| ==> p[|p| - |b| - 1] == '/')
  {
    if p != [] && p[|p| - 1] != '/' {
      BasenameIsLastComponent(p[..|p| - 1]);
    }
  }

  /** The metadata of one element, built in the script's overwrite order: the base keys,
      then the upstream dictionary, then the element's own category. */
  function Metadata(f: string, e: Element, group: nat): (m: map<string, MetaValue>)
  {
    var base := map["title" := Text(Basename(f)), "group" := Text(GoStrings.FormatInt(group))];
    var merged := if e.metadata.Some? then base + e.metadata.value else base;
    if e.category.Some? then merged["category" := Text(e.category.value)] else merged
  }

  function Enrich(f: string, e: Element, group: nat): Enriched
  {
    Enriched(e.text, Metadata(f, e, group))
  }

  /** The element's own category is written last, so it beats a merged `category`. */
  lemma MetadataCategoryWins(f: string, e: Element, group: nat)
    requires e.category.Some?
    ensures var m := Metadata(f, e, group); "category" in m && m["category"] == Text(e.category.value)
  {
  }

  /** An upstream key overrides the base key of the same name. */
  lemma MetadataUpstreamOverrides(f: string, e: Element, group: nat, k: string)
    requires e.metadata.Some? && k in e.metadata.value
    requires k != "category" || e.category.None?
    ensures var m := Metadata(f, e, group); k in m && m[k] == e.metadata.value[k]
  {
  }

  /** Without upstream `title` and `group` keys, the base values stand: the file's
      basename and the decimal heading counter. */
  lemma MetadataBaseKeys(f: string, e: Element, group: nat)
    ensures var m := Metadata(f, e, group); "title" in m && "group" in m
    ensures e.metadata.None? || "title" !in e.metadata.value ==>
      Metadata(f, e, group)["title"] == Text(Basename(f))
    ensures e.metadata.None? || "group" !in e.metadata.value ==>
      Metadata(f, e, group)["group"] == Text(GoStrings.FormatInt(group))
  {
  }

  /** No other key appears. */
  lemma MetadataKeys(f: string, e: Element, group: nat)
    ensures Metadata(f, e, group).Keys
      == {"title", "group"} + (if e.metadata.Some? then e.metadata.value.Keys else {})
         + (if e.category.Some? then {"category"} else {})
  {
  }

  /** `_element` as a function: the record of each element carries the heading counter
      over the elements up to and including it. */
  function EnrichAll(f: string, es: seq<Element>): (r: seq<Enriched>)
    ensures |r| == |es|
  {
    if es == [] then []
    else EnrichAll(f, es[..|es| - 1]) + [Enrich(f, es[|es| - 1], HeadingCount(es))]
  }

  /** Each record is the element's text with the metadata built from the counter at that
      element; earlier records are those of the shorter input. */
  lemma {:induction false} EnrichAllAt(f: string, es: seq<Element>, i: nat)
    requires i < |es|
    ensures EnrichAll(f, es)[i] == Enrich(f, es[i], HeadingCount(es[..i + 1]))
    ensures EnrichAll(f, es)[i].content == es[i].text
    decreases |es|
  {
    if i < |es| - 1 {
      var front := es[..|es| - 1];
      EnrichAllAt(f, front, i);
      assert front[..i + 1] == es[..i + 1];
    } else {
      assert es[..i + 1] == es;
    }
  }

  /** `_element`: one record per element, in order, with the heading counter that rises
      at every `h2` element (the heading itself carries the new number). */
  method EnrichElements(f: string, elements: seq<Element>) returns (res: seq<Enriched>)
    ensures res == EnrichAll(f, elements)
  {
    res := [];
    var group := 0;
    var i := 0;
    while i < |elements|
      invariant 0 <= i <= |elements|
      invariant group == HeadingCount(elements[..i])
      invariant res == EnrichAll(f, elements[..i])
    {
      var element := elements[i];
      if IsHeading(element) {
        group := group + 1;
      }
      ghost var next := elements[..i + 1];
      assert next[..i] == elements[..i] && next[i] == element;
      assert group == HeadingCount(next);
      assert EnrichAll(f, next) == EnrichAll(f, elements[..i]) + [Enrich(f, element, group)];
      res := res + [Enrich(f, element, group)];
      i := i + 1;
    }
    assert elements[..i] == elements;
  }

  /** The group number only moves forward along the output. */
  lemma {:induction false} HeadingCountMonotone(es: seq<Element>, i: nat, j: nat)
    requires i <= j <= |es|
    ensures HeadingCount(es[..i]) <= HeadingCount(es[..j])
    decreases j - i
  {
    if i < j {
      HeadingCountMonotone(es, i, j - 1);
      assert es[..j][..j - 1] == es[..j - 1];
    }
  }

  /** Consecutive elements: the counter rises by one exactly at a heading. */
  lemma HeadingCountStep(es: seq<Element>, i: nat)
    requires i < |es|
    ensures HeadingCount(es[..i + 1]) == HeadingCount(es[..i]) + (if IsHeading(es[i]) then 1 else 0)
  {
    assert es[..i + 1][..i] == es[..i];
  }

  /** Appending elements leaves the counter of every earlier prefix unchanged, so the
      records of earlier elements do not depend on what follows them. */
  lemma HeadingCountPrefix(a: seq<Element>, b: seq<Element>, i: nat)
    requires i <= |a|
    ensures HeadingCount((a + b)[..i]) == HeadingCount(a[..i])
  {
    assert (a + b)[..i] == a[..i];
  }

  // ---------------------------------------------------------------------------------------
  // Path expansion (`read_files`)

  /** A directory entry's target: a regular file, a directory with its listing (in the
      order the walk yields it), or something that exists but is neither. */
  datatype Node = File | Dir(entries: seq<Entry>) | Special

  /** A directory entry: a name and what it names. */
  datatype Entry = Entry(name: string, node: Node)

  /** The argument of `read_files`: a path, a list of arguments, or any other value. */
  datatype PathArg = Path(p: string) | List(items: seq<PathArg>) | OtherValue

  /** The value `read_files` returns: a flat list of paths, a list of per-item results,
      or Python's None. */
  datatype Files = Flat(paths: seq<string>) | Nested(results: seq<Files>) | NoneValue

  /** One step of the directory walk: a directory path and the names of its non-directory
      entries. */
  datatype WalkStep = WalkStep(root: string, files: seq<string>)

  /** os.path.join for a name without a leading '/'. */
  function JoinPath(a: string, b: string): (r: string)
    ensures |a| <= |r| && r[..|a|] == a
    ensures b != [] ==> |a| < |r|
  {
    if a == [] || a[|a| - 1] == '/' then a + b else a + "/" + b
  }

  /** The names of the entries that are not directories, in listing order. */
  function FileNames(entries: seq<Entry>): seq<string>
  {
    if entries == [] then []
    else (if entries[0].node.Dir? then [] else [entries[0].name]) + FileNames(entries[1..])
  }

  /** os.walk, top-down: the directory itself, then the walk of each subdirectory. */
  function Walk(top: string, entries: seq<Entry>): seq<WalkStep>
    decreases entries, 1
  {
    [WalkStep(top, FileNames(entries))] + SubWalks(top, entries)
  }

  function SubWalks(top: string, entries: seq<Entry>): seq<WalkStep>
    decreases entries, 0
  {
    if entries == [] then []
    else
      var e := entries[0];
      (if e.node.Dir? then Walk(JoinPath(top, e.name), e.node.entries) else []) + SubWalks(top, entries[1..])
  }

  /** The paths the walk loop collects: `root/name` for every file of every step. */
  function WalkPaths(steps: seq<WalkStep>): seq<string>
  {
    if steps == [] then []
    else WalkPaths(steps[..|steps| - 1]) + JoinAll(steps[|steps| - 1].root, steps[|steps| - 1].files)
  }

  function JoinAll(root: string, names: seq<string>): (r: seq<string>)
    ensures |r| == |names|
  {
    if names == [] then [] else [JoinPath(root, names[0])] + JoinAll(root, names[1..])
  }

  /** Each name is joined to the root, in order. */
  lemma {:induction false} JoinAllAt(root: string, names: seq<string>, k: nat)
    requires k < |names|
    ensures JoinAll(root, names)[k] == JoinPath(root, names[k])
  {
    if k > 0 { JoinAllAt(root, names[1..], k - 1); }
  }

  /** What `read_files` returns for each argument. A path that exists but is neither a
      file nor a directory falls through every branch and yields None. */
  function ReadFilesSpec(disk: map<string, Node>, ps: PathArg): Files
  {
    match ps
    case Path(p) =>
      if p !in disk then Flat([])
      else (match disk[p]
        case File => Flat([p])
        case Dir(entries) => Flat(WalkPaths(Walk(p, entries)))
        case Special => NoneValue)
    case List(items) => Nested(ReadFilesList(disk, items))
    case OtherValue => NoneValue
  }

  function ReadFilesList(disk: map<string, Node>, items: seq<PathArg>): (r: seq<Files>)
    ensures |r| == |items|
  {
    if items == [] then [] else [ReadFilesSpec(disk, items[0])] + ReadFilesList(disk, items[1..])
  }

  /** `read_files`: the list case collects one result per item, nested. */
  method ReadFiles(disk: map<string, Node>, ps: PathArg) returns (r: Files)
    ensures r == ReadFilesSpec(disk, ps)
    decreases ps
  {
    match ps {
      case Path(p) =>
        if p !in disk {
          return Flat([]);
        }
        match disk[p] {
          case File => return Flat([p]);
          case Dir(entries) =>
            var steps := Walk(p, entries);
            var fs: seq<string> := [];
            var i := 0;
            while i < |steps|
              invariant 0 <= i <= |steps|
              invariant fs == WalkPaths(steps[..i])
            {
              var j := 0;
              ghost var before := fs;
              while j < |steps[i].files|
                invariant 0 <= j <= |steps[i].files|
                invariant fs == before + JoinAll(steps[i].root, steps[i].files[..j])
              {
                JoinAllSnoc(steps[i].root, steps[i].files, j);
                fs := fs + [JoinPath(steps[i].root, steps[i].files[j])];
                j := j + 1;
              }
              assert steps[i].files[..j] == steps[i].files;
              assert steps[..i + 1][..i] == steps[..i];
              i := i + 1;
            }
            assert steps[..i] == steps;
            return Flat(fs);
          case Special => return NoneValue;
        }
      case List(items) =>
        var fs: seq<Files> := [];
        var i := 0;
        while i < |items|
          invariant 0 <= i <= |items|
          invariant fs == ReadFilesList(disk, items[..i])
        {
          var one := ReadFiles(disk, items[i]);
          ReadFilesListSnoc(disk, items, i);
          fs := fs + [one];
          i := i + 1;
        }
        assert items[..i] == items;
        return Nested(fs);
      case OtherValue => return NoneValue;
    }
  }

  lemma JoinAllSnoc(root: string, names: seq<string>, j: nat)
    requires j < |names|
    ensures JoinAll(root, names[..j + 1]) == JoinAll(root, names[..j]) + [JoinPath(root, names[j])]
  {
    var r1, r0 := JoinAll(root, names[..j + 1]), JoinAll(root, names[..j]);
    forall k | 0 <= k < j + 1 ensures r1[k] == (r0 + [JoinPath(root, names[j])])[k] {
      JoinAllAt(root, names[..j + 1], k);
      if k < j { JoinAllAt(root, names[..j], k); }
    }
  }

  lemma {:induction false} ReadFilesListSnoc(disk: map<string, Node>, items: seq<PathArg>, i: nat)
    requires i < |items|
    ensures ReadFilesList(disk, items[..i + 1]) == ReadFilesList(disk, items[..i]) + [ReadFilesSpec(disk, items[i])]
  {
    var r1 := ReadFilesList(disk, items[..i + 1]);
    var r0 := ReadFilesList(disk, items[..i]);
    forall k | 0 <= k < i + 1 ensures r1[k] == (r0 + [ReadFilesSpec(disk, items[i])])[k] {
      ReadFilesListAt(disk, items[..i + 1], k);
      if k < i { ReadFilesListAt(disk, items[..i], k); }
    }
  }

  lemma {:induction false} ReadFilesListAt(disk: map<string, Node>, items: seq<PathArg>, k: nat)
    requires k < |items|
    ensures ReadFilesList(disk, items)[k] == ReadFilesSpec(disk, items[k])
  {
    if k > 0 { ReadFilesListAt(disk, items[1..], k - 1); }
  }

  /** The number of non-directory entries anywhere in a listing. */
  function FileCount(entries: seq<Entry>): nat
    decreases entries
  {
    if entries == [] then 0
    else
      var e := entries[0];
      (if e.node.Dir? then FileCount(e.node.entries) else 1) + FileCount(entries[1..])
  }

  lemma {:induction false} FileNamesCount(entries: seq<Entry>)
    ensures |FileNames(entries)| + DirFileCount(entries) == FileCount(entries)
  {
    if entries != [] { FileNamesCount(entries[1..]); }
  }

  /** The files inside the subdirectories of a listing. */
  function DirFileCount(entries: seq<Entry>): nat
  {
    if entries == [] then 0
    else
      var e := entries[0];
      (if e.node.Dir? then FileCount(e.node.entries) else 0) + DirFileCount(entries[1..])
  }

  lemma {:induction false} WalkPathsAppend(a: seq<WalkStep>, b: seq<WalkStep>)
    ensures WalkPaths(a + b) == WalkPaths(a) + WalkPaths(b)
    decreases |b|
  {
    if b == [] {
      assert a + b == a;
    } else {
      var front, last := b[..|b| - 1], b[|b| - 1];
      assert (a + b)[..|a + b| - 1] == a + front;
      assert (a + b)[|a + b| - 1] == last;
      var tail := JoinAll(last.root, last.files);
      assert WalkPaths(a + b) == WalkPaths(a + front) + tail;
      WalkPathsAppend(a, front);
      assert WalkPaths(b) == WalkPaths(front) + tail;
      assert (WalkPaths(a) + WalkPaths(front)) + tail == WalkPaths(a) + (WalkPaths(front) + tail);
    }
  }

  /** The walk collects one path per non-directory entry anywhere under the directory:
      there is no extension filter. `WalkMembers` says which paths these are and
      `WalkDistinct` that none repeats. */
  lemma {:induction false} WalkCollectsEveryFile(top: string, entries: seq<Entry>)
    ensures |WalkPaths(Walk(top, entries))| == FileCount(entries)
    decreases entries, 1
  {
    WalkPathsAppend([WalkStep(top, FileNames(entries))], SubWalks(top, entries));
    assert WalkPaths([WalkStep(top, FileNames(entries))]) == JoinAll(top, FileNames(entries));
    SubWalksCount(top, entries);
    FileNamesCount(entries);
  }

  lemma {:induction false} SubWalksCount(top: string, entries: seq<Entry>)
    ensures |WalkPaths(SubWalks(top, entries))| == DirFileCount(entries)
    decreases entries, 0
  {
    if entries != [] {
      var e := entries[0];
      var first := if e.node.Dir? then Walk(JoinPath(top, e.name), e.node.entries) else [];
      WalkPathsAppend(first, SubWalks(top, entries[1..]));
      if e.node.Dir? { WalkCollectsEveryFile(JoinPath(top, e.name), e.node.entries); }
      SubWalksCount(top, entries[1..]);
    }
  }

  /** Every step of the walk is at or below the directory it started from. */
  lemma {:induction false} WalkRootsUnder(top: string, entries: seq<Entry>)
    ensures forall s :: s in Walk(top, entries) ==> |top| <= |s.root| && s.root[..|top|] == top
    decreases entries, 1
  {
    SubWalksRootsUnder(top, entries);
  }

  lemma {:induction false} SubWalksRootsUnder(top: string, entries: seq<Entry>)
    ensures forall s :: s in SubWalks(top, entries) ==> |top| <= |s.root| && s.root[..|top|] == top
    decreases entries, 0
  {
    if entries != [] {
      var e := entries[0];
      SubWalksRootsUnder(top, entries[1..]);
      if e.node.Dir? {
        var sub := JoinPath(top, e.name);
        WalkRootsUnder(sub, e.node.entries);
        forall s | s in Walk(sub, e.node.entries) ensures |top| <= |s.root| && s.root[..|top|] == top {
          assert s.root[..|sub|][..|top|] == s.root[..|top|];
        }
      }
    }
  }

  /** A path names a non-directory entry at some depth under `top`: the entry's name
      joined to the directory that lists it. */
  predicate Under(top: string, entries: seq<Entry>, p: string)
    decreases entries
  {
    && entries != []
    && var e := entries[0];
      || (if e.node.Dir? then Under(JoinPath(top, e.name), e.node.entries, p) else p == JoinPath(top, e.name))
      || Under(top, entries[1..], p)
  }

  lemma {:induction false} JoinAllAppend(root: string, a: seq<string>, b: seq<string>)
    ensures JoinAll(root, a + b) == JoinAll(root, a) + JoinAll(root, b)
    decreases |a|
  {
    if a != [] {
      assert (a + b)[0] == a[0] && (a + b)[1..] == a[1..] + b;
      JoinAllAppend(root, a[1..], b);
      assert JoinAll(root, a + b) == [JoinPath(root, a[0])] + (JoinAll(root, a[1..]) + JoinAll(root, b));
    } else {
      assert a + b == b;
    }
  }

  /** The walk collects a path exactly when it is `root/name` of a non-directory entry at
      some depth: every file is collected and nothing else is. */
  lemma {:induction false} WalkMembers(top: string, entries: seq<Entry>, p: string)
    ensures p in WalkPaths(Walk(top, entries)) <==> Under(top, entries, p)
    decreases entries, 1
  {
    WalkPathsAppend([WalkStep(top, FileNames(entries))], SubWalks(top, entries));
    assert WalkPaths([WalkStep(top, FileNames(entries))]) == JoinAll(top, FileNames(entries));
    ListingMembers(top, entries, p);
  }

  lemma {:induction false} ListingMembers(top: string, entries: seq<Entry>, p: string)
    ensures (p in JoinAll(top, FileNames(entries)) || p in WalkPaths(SubWalks(top, entries)))
      <==> Under(top, entries, p)
    decreases entries, 0
  {
    if entries != [] {
      var e := entries[0];
      var own: seq<string> := if e.node.Dir? then [] else [e.name];
      JoinAllAppend(top, own, FileNames(entries[1..]));
      var first := if e.node.Dir? then Walk(JoinPath(top, e.name), e.node.entries) else [];
      WalkPathsAppend(first, SubWalks(top, entries[1..]));
      if e.node.Dir? {
        WalkMembers(JoinPath(top, e.name), e.node.entries, p);
      }
      ListingMembers(top, entries[1..], p);
    }
  }

  // Distinct paths

  /** The names of a listing, in order. */
  function Names(entries: seq<Entry>): seq<string>
  {
    if entries == [] then [] else [entries[0].name] + Names(entries[1..])
  }

  /** The names of a listing's subdirectories, in order. */
  function DirNames(entries: seq<Entry>): seq<string>
  {
    if entries == [] then []
    else (if entries[0].node.Dir? then [entries[0].name] else []) + DirNames(entries[1..])
  }

  /** Every name at every depth is non-empty and free of '/', and the names within each
      directory are distinct. */
  predicate WellNamed(entries: seq<Entry>)
    decreases entries
  {
    entries != [] ==>
      var e := entries[0];
      && e.name != [] && '/' !in e.name && e.name !in Names(entries[1..])
      && (e.node.Dir? ==> WellNamed(e.node.entries))
      && WellNamed(entries[1..])
  }

  predicate Distinct(s: seq<string>)
  {
    forall i, j :: 0 <= i < j < |s| ==> s[i] != s[j]
  }

  lemma DistinctConcat(a: seq<string>, b: seq<string>)
    requires Distinct(a) && Distinct(b)
    requires forall x :: x in a ==> x !in b
    ensures Distinct(a + b)
  {
    forall i, j | 0 <= i < j < |a + b| ensures (a + b)[i] != (a + b)[j] {
      if i < |a| && |a| <= j {
        assert (a + b)[i] in a && (a + b)[j] in b;
      }
    }
  }

  /** The directory part a name is joined to: `top` itself or `top` with a '/' added. */
  function Sep(top: string): string
  {
    if top == [] || top[|top| - 1] == '/' then top else top + "/"
  }

  /** The leading component of a relative path: everything before the first '/'. */
  function FirstComponent(s: string): string
  {
    if s == [] || s[0] == '/' then [] else [s[0]] + FirstComponent(s[1..])
  }

  lemma {:induction false} FirstComponentOf(n: string, r: string)
    requires '/' !in n
    ensures FirstComponent(n + "/" + r) == n
  {
    if n != [] {
      assert (n + "/" + r)[0] == n[0];
      assert (n + "/" + r)[1..] == n[1..] + "/" + r;
      FirstComponentOf(n[1..], r);
    }
  }

  lemma {:induction false} NamesOfParts(entries: seq<Entry>, x: string)
    requires WellNamed(entries)
    ensures x in FileNames(entries) ==> x in Names(entries) && '/' !in x
    ensures x in DirNames(entries) ==> x in Names(entries)
  {
    if entries != [] { NamesOfParts(entries[1..], x); }
  }

  lemma {:induction false} FileNamesDistinct(entries: seq<Entry>)
    requires WellNamed(entries)
    ensures Distinct(FileNames(entries))
  {
    if entries != [] {
      var e := entries[0];
      FileNamesDistinct(entries[1..]);
      forall x | x in FileNames(entries[1..]) ensures x != e.name {
        NamesOfParts(entries[1..], x);
      }
      DistinctConcat(if e.node.Dir? then [] else [e.name], FileNames(entries[1..]));
    }
  }

  /** A directory's files are joined to the directory with one '/' between. */
  lemma JoinedFileShape(top: string, entries: seq<Entry>, p: string)
    requires WellNamed(entries) && p in JoinAll(top, FileNames(entries))
    ensures |Sep(top)| <= |p| && p[..|Sep(top)|] == Sep(top)
    ensures '/' !in p[|Sep(top)|..] && p[|Sep(top)|..] in FileNames(entries)
  {
    var ns := FileNames(entries);
    var k :| 0 <= k < |ns| && JoinAll(top, ns)[k] == p;
    JoinAllAt(top, ns, k);
    assert p == Sep(top) + ns[k];
    assert ns[k] in ns;
    NamesOfParts(entries, ns[k]);
  }

  /** A path of the walk is a file name of the directory, or a subdirectory's name
      followed by '/' and more. */
  lemma {:induction false} WalkShape(top: string, entries: seq<Entry>, p: string)
    requires WellNamed(entries) && p in WalkPaths(Walk(top, entries))
    ensures |Sep(top)| <= |p| && p[..|Sep(top)|] == Sep(top)
    decreases entries, 1
  {
    WalkPathsAppend([WalkStep(top, FileNames(entries))], SubWalks(top, entries));
    assert WalkPaths([WalkStep(top, FileNames(entries))]) == JoinAll(top, FileNames(entries));
    if p in JoinAll(top, FileNames(entries)) {
      JoinedFileShape(top, entries, p);
    } else {
      SubShape(top, entries, p);
    }
  }

  lemma {:induction false} SubShape(top: string, entries: seq<Entry>, p: string)
    requires WellNamed(entries) && p in WalkPaths(SubWalks(top, entries))
    ensures |Sep(top)| <= |p| && p[..|Sep(top)|] == Sep(top)
    ensures '/' in p[|Sep(top)|..] && FirstComponent(p[|Sep(top)|..]) in DirNames(entries)
    decreases entries, 0
  {
    var e := entries[0];
    var first := if e.node.Dir? then Walk(JoinPath(top, e.name), e.node.entries) else [];
    WalkPathsAppend(first, SubWalks(top, entries[1..]));
    if p in WalkPaths(first) {
      WalkShape(JoinPath(top, e.name), e.node.entries, p);
      SubdirPathShape(top, e.name, p);
    } else {
      SubShape(top, entries[1..], p);
    }
  }

  /** A path under the subdirectory `name` of `top` continues `top` with `name` and a '/'. */
  lemma SubdirPathShape(top: string, name: string, p: string)
    requires name != [] && '/' !in name
    requires var sub := Sep(JoinPath(top, name)); |sub| <= |p| && p[..|sub|] == sub
    ensures |Sep(top)| <= |p| && p[..|Sep(top)|] == Sep(top)
    ensures '/' in p[|Sep(top)|..] && FirstComponent(p[|Sep(top)|..]) == name
  {
    var sub := JoinPath(top, name);
    assert sub == Sep(top) + name;
    assert sub[|sub| - 1] == name[|name| - 1];
    assert Sep(sub) == Sep(top) + name + "/";
    var rest := p[|Sep(sub)|..];
    assert p == Sep(top) + (name + "/" + rest);
    assert p[|Sep(top)|..] == name + "/" + rest;
    assert (name + "/" + rest)[|name|] == '/';
    FirstComponentOf(name, rest);
  }

  /** With well-formed names, the walk collects no path twice. */
  lemma {:induction false} WalkDistinct(top: string, entries: seq<Entry>)
    requires WellNamed(entries)
    ensures Distinct(WalkPaths(Walk(top, entries)))
    decreases entries, 1
  {
    var files := JoinAll(top, FileNames(entries));
    var below := WalkPaths(SubWalks(top, entries));
    WalkPathsAppend([WalkStep(top, FileNames(entries))], SubWalks(top, entries));
    assert WalkPaths([WalkStep(top, FileNames(entries))]) == files;
    FileNamesDistinct(entries);
    forall i, j | 0 <= i < j < |files| ensures files[i] != files[j] {
      JoinAllAt(top, FileNames(entries), i);
      JoinAllAt(top, FileNames(entries), j);
      assert files[i][|Sep(top)|..] == FileNames(entries)[i];
      assert files[j][|Sep(top)|..] == FileNames(entries)[j];
    }
    SubWalksDistinct(top, entries);
    forall x | x in files ensures x !in below {
      JoinedFileShape(top, entries, x);
      if x in below { SubShape(top, entries, x); }
    }
    DistinctConcat(files, below);
  }

  lemma {:induction false} SubWalksDistinct(top: string, entries: seq<Entry>)
    requires WellNamed(entries)
    ensures Distinct(WalkPaths(SubWalks(top, entries)))
    decreases entries, 0
  {
    if entries != [] {
      var e := entries[0];
      var first := if e.node.Dir? then Walk(JoinPath(top, e.name), e.node.entries) else [];
      var rest := WalkPaths(SubWalks(top, entries[1..]));
      WalkPathsAppend(first, SubWalks(top, entries[1..]));
      SubWalksDistinct(top, entries[1..]);
      if e.node.Dir? {
        var sub := JoinPath(top, e.name);
        WalkDistinct(sub, e.node.entries);
        forall x | x in WalkPaths(first) ensures x !in rest {
          WalkShape(sub, e.node.entries, x);
          SubdirPathShape(top, e.name, x);
          if x in rest {
            SubShape(top, entries[1..], x);
            NamesOfParts(entries[1..], e.name);
          }
        }
      }
      DistinctConcat(WalkPaths(first), rest);
    }
  }

  /** The contract of `read_files` on a single path. */
  lemma ReadFilesOnPath(disk: map<string, Node>, p: string)
    ensures p !in disk ==> ReadFilesSpec(disk, Path(p)) == Flat([])
    ensures p in disk && disk[p].File? ==> ReadFilesSpec(disk, Path(p)) == Flat([p])
    ensures p in disk && disk[p].Dir? ==>
      ReadFilesSpec(disk, Path(p)).Flat? && |ReadFilesSpec(disk, Path(p)).paths| == FileCount(disk[p].entries)
    ensures p in disk && disk[p].Special? ==> ReadFilesSpec(disk, Path(p)) == NoneValue
  {
    if p in disk && disk[p].Dir? { WalkCollectsEveryFile(p, disk[p].entries); }
  }

  /** A list argument gives one result per item, in order, not flattened. */
  lemma ReadFilesOnList(disk: map<string, Node>, items: seq<PathArg>)
    ensures var r := ReadFilesSpec(disk, List(items));
      r.Nested? && |r.results| == |items|
      && forall k :: 0 <= k < |items| ==> r.results[k] == ReadFilesSpec(disk, items[k])
  {
    forall k | 0 <= k < |items| ensures ReadFilesList(disk, items)[k] == ReadFilesSpec(disk, items[k]) {
      ReadFilesListAt(disk, items, k);
    }
  }

  // ---------------------------------------------------------------------------------------
  // Collecting elements over files (`get_elements`)

  /** What the segmenter does with one item of the file list: it yields elements, raises
      ValueError (which the script reports and skips), or raises anything else (which
      ends the script). */
  datatype Outcome = Parsed(elements: seq<Element>) | ValueError(msg: string) | OtherError(msg: string)

  /** An item the loop of `get_elements` iterates over: a path of a flat listing, or a
      per-item result of a list argument. */
  datatype Item = PathItem(p: string) | SubResult(r: Files)

  /** The exception that ends `get_elements`. */
  datatype Failure = Raised(msg: string) | NotIterable

  /** The items of a `read_files` result, or None when it is not iterable. */
  function Items(r: Files): Option<seq<Item>>
  {
    match r
    case Flat(ps) => Some(seq(|ps|, k requires 0 <= k < |ps| => PathItem(ps[k])))
    case Nested(rs) => Some(seq(|rs|, k requires 0 <= k < |rs| => SubResult(rs[k])))
    case NoneValue => None
  }

  /** The loop of `get_elements` over the first items, as a left fold. A parsed path
      contributes its enriched elements; a parsed non-path value contributes nothing when
      it yields no elements (`_element` never reaches `basename`), and otherwise raises
      because it has no basename. */
  function CollectSpec(items: seq<Item>, segment: Item -> Outcome): Result<seq<Enriched>, Failure>
  {
    if items == [] then Ok([])
    else
      var prev := CollectSpec(items[..|items| - 1], segment);
      if prev.Err? then prev else CollectStep(prev.value, items[|items| - 1], segment)
  }

  /** One item of the loop, after the records `res` collected so far. */
  function CollectStep(res: seq<Enriched>, it: Item, segment: Item -> Outcome): Result<seq<Enriched>, Failure>
  {
    match segment(it)
    case ValueError(_) => Ok(res)
    case OtherError(msg) => Err(Raised(msg))
    case Parsed(es) =>
      if it.PathItem? then Ok(res + EnrichAll(it.p, es))
      else if es == [] then Ok(res)
      else Err(Raised("expected str, bytes or os.PathLike object"))
  }

  lemma CollectSnoc(items: seq<Item>, i: nat, res: seq<Enriched>, segment: Item -> Outcome)
    requires i < |items| && CollectSpec(items[..i], segment) == Ok(res)
    ensures CollectSpec(items[..i + 1], segment) == CollectStep(res, items[i], segment)
  {
    assert items[..i + 1][..i] == items[..i];
  }

  /** `get_elements`: the concatenation, in file order, of the enriched elements of every
      file the segmenter accepts. */
  method GetElements(disk: map<string, Node>, filePath: PathArg, segment: Item -> Outcome)
    returns (r: Result<seq<Enriched>, Failure>)
    ensures var items := Items(ReadFilesSpec(disk, filePath));
      if items.None? then r == Err(NotIterable) else r == CollectSpec(items.value, segment)
  {
    var found := ReadFiles(disk, filePath);
    var items := Items(found);
    if items.None? {
      return Err(NotIterable);
    }
    var its := items.value;
    var res: seq<Enriched> := [];
    var i := 0;
    while i < |its|
      invariant 0 <= i <= |its|
      invariant CollectSpec(its[..i], segment) == Ok(res)
    {
      var f := its[i];
      CollectSnoc(its, i, res, segment);
      match segment(f) {
        case ValueError(_) =>
        case OtherError(msg) =>
          CollectErrorPersists(its, i + 1, segment);
          return Err(Raised(msg));
        case Parsed(elements) =>
          if f.PathItem? {
            var enriched := EnrichElements(f.p, elements);
            res := res + enriched;
          } else if elements != [] {
            CollectErrorPersists(its, i + 1, segment);
            return Err(Raised("expected str, bytes or os.PathLike object"));
          }
      }
      i := i + 1;
    }
    assert its[..i] == its;
    r := Ok(res);
  }

  /** The first exception ends the loop: nothing after it is looked at. */
  lemma {:induction false} CollectErrorPersists(items: seq<Item>, j: nat, segment: Item -> Outcome)
    requires j <= |items|
    requires CollectSpec(items[..j], segment).Err?
    ensures CollectSpec(items, segment) == CollectSpec(items[..j], segment)
    decreases |items| - j
  {
    if j < |items| {
      assert items[..j + 1][..j] == items[..j];
      CollectErrorPersists(items, j + 1, segment);
    } else {
      assert items[..j] == items;
    }
  }

  /** An item the segmenter rejects with ValueError contributes nothing, and neither does
      a non-path item it parses into no elements; the items after either are still
      processed. */
  lemma ItemSkipped(items: seq<Item>, it: Item, rest: seq<Item>, segment: Item -> Outcome)
    requires segment(it).ValueError? || (it.SubResult? && segment(it) == Parsed([]))
    ensures CollectSpec(items + [it] + rest, segment) == CollectSpec(items + rest, segment)
    decreases |rest|
  {
    if rest == [] {
      assert (items + [it] + rest)[..|items| + 1 - 1] == items;
      assert items + rest == items;
    } else {
      var last := rest[|rest| - 1];
      ItemSkipped(items, it, rest[..|rest| - 1], segment);
      assert (items + [it] + rest)[..|items + [it] + rest| - 1] == items + [it] + rest[..|rest| - 1];
      assert (items + rest)[..|items + rest| - 1] == items + rest[..|rest| - 1];
    }
  }

  /** When every file parses, the result is the concatenation of each file's records. */
  lemma {:induction false} CollectConcatenates(ps: seq<string>, segment: Item -> Outcome)
    requires forall k :: 0 <= k < |ps| ==> segment(PathItem(ps[k])).Parsed?
    ensures CollectSpec(seq(|ps|, k requires 0 <= k < |ps| => PathItem(ps[k])), segment)
      == Ok(ConcatEnriched(ps, segment))
  {
    var items := seq(|ps|, k requires 0 <= k < |ps| => PathItem(ps[k]));
    if ps != [] {
      var front := ps[..|ps| - 1];
      CollectConcatenates(front, segment);
      assert items[..|items| - 1] == seq(|front|, k requires 0 <= k < |front| => PathItem(front[k]));
    }
  }

  function ConcatEnriched(ps: seq<string>, segment: Item -> Outcome): seq<Enriched>
    requires forall k :: 0 <= k < |ps| ==> segment(PathItem(ps[k])).Parsed?
  {
    if ps == [] then []
    else
      var last := ps[|ps| - 1];
      ConcatEnriched(ps[..|ps| - 1], segment) + EnrichAll(last, segment(PathItem(last)).elements)
  }
}
