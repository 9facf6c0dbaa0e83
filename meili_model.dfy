/** `pkg/store/meili/model.go`: the meilisearch records of a document and its attributes,
    the conversions from and to doc.Document, and the builders of document and attribute
    queries. Each builder assigns the receiver's fields afresh, so it is a function of its
    arguments (and, for `DocumentQuery.FromModel`, of the two receiver fields it keeps).
    The query records and their `Sort.String`, `AttrQuery.ToFilter` and `ToRequest` methods
    are those of `DocQuery`; the attribute record is `DocDocument.DocumentAttr`. */
module MeiliModel {
  import opened Wrappers
  import opened Json
  import opened DocQuery
  import opened DocDocument
  import DocModel
  import GoStrings
  import FilterMatch

  /** The meilisearch document record; the times are Unix seconds. */
  datatype Document = Document(
    id: string,
    kind: string,
    namespace: string,
    entryId: string,
    name: string,
    source: string,
    webUrl: string,
    content: string,
    summary: string,
    headerImage: string,
    subContent: string,
    createdAt: int,
    updatedAt: int)

  predicate IsInt64(n: int)
  {
    GoStrings.MinInt64 <= n <= GoStrings.MaxInt64
  }

  /** fmt.Sprintf("%d", n). */
  function EntryIdText(n: int): string
  {
    GoStrings.FormatInt(n)
  }

  // ---------------------------------------------------------------------------------------
  // Document.FromModel, DocumentAttrList.FromModel

  /** Document.FromModel; `id` is the fresh uuid. */
  function FromModel(id: string, d: DocModel.Document): Document
  {
    Document.Document(id, DocumentType, d.namespace, EntryIdText(d.entryId), d.name, d.source, d.webUrl,
      d.content, d.summary, d.headerImage, d.subContent,
      DocModel.Unix(d.createdAt), DocModel.Unix(d.changedAt))
  }

  const ParentKey := "parentId"
  const MarkKey := "mark"
  const UnreadKey := "unRead"

  function Attr(id: string, d: DocModel.Document, key: string, v: Value): DocumentAttr
  {
    DocumentAttr(id, AttrType, d.namespace, EntryIdText(d.entryId), key, v)
  }

  /** DocumentAttrList.FromModel; `uuid(k)` is the k-th fresh uuid. The pointers the
      attributes hold are the document's own. */
  function AttrListFromModel(uuid: nat -> string, d: DocModel.Document): (r: seq<DocumentAttr>)
  {
    var p := if d.parentEntryId.Some? then [Attr(uuid(0), d, ParentKey, VIntRef(d.parentEntryId.value))] else [];
    var m := if d.marked.Some? then [Attr(uuid(|p|), d, MarkKey, VBoolRef(d.marked.value))] else [];
    var u := if d.unread.Some? then [Attr(uuid(|p| + |m|), d, UnreadKey, VBoolRef(d.unread.value))] else [];
    p + m + u
  }

  function KeyRank(key: string): nat
  {
    if key == ParentKey then 0 else if key == MarkKey then 1 else 2
  }

  function Count(b: bool): nat { if b then 1 else 0 }

  /** One attribute per set optional field, in the order parentId, mark, unRead; each of
      kind "attr" with the document's namespace and entry id, holding the field's value. */
  lemma AttrListFromModelShape(uuid: nat -> string, d: DocModel.Document)
    ensures var r := AttrListFromModel(uuid, d);
      && |r| == Count(d.parentEntryId.Some?) + Count(d.marked.Some?) + Count(d.unread.Some?)
      && (forall k :: 0 <= k < |r| ==>
            r[k].kind == AttrType && r[k].namespace == d.namespace && r[k].entryId == EntryIdText(d.entryId))
      && (forall i, j :: 0 <= i < j < |r| ==> KeyRank(r[i].key) < KeyRank(r[j].key))
      && (d.parentEntryId.Some? <==> exists k :: 0 <= k < |r| && r[k].key == ParentKey)
      && (d.marked.Some? <==> exists k :: 0 <= k < |r| && r[k].key == MarkKey)
      && (d.unread.Some? <==> exists k :: 0 <= k < |r| && r[k].key == UnreadKey)
      && (forall k :: 0 <= k < |r| && r[k].key == ParentKey ==> r[k].value == VIntRef(d.parentEntryId.value))
      && (forall k :: 0 <= k < |r| && r[k].key == MarkKey ==> r[k].value == VBoolRef(d.marked.value))
      && (forall k :: 0 <= k < |r| && r[k].key == UnreadKey ==> r[k].value == VBoolRef(d.unread.value))
  {
    var r := AttrListFromModel(uuid, d);
    var p := if d.parentEntryId.Some? then [Attr(uuid(0), d, ParentKey, VIntRef(d.parentEntryId.value))] else [];
    var m := if d.marked.Some? then [Attr(uuid(|p|), d, MarkKey, VBoolRef(d.marked.value))] else [];
    var u := if d.unread.Some? then [Attr(uuid(|p| + |m|), d, UnreadKey, VBoolRef(d.unread.value))] else [];
    assert r == p + m + u;
    forall k | 0 <= k < |r|
      ensures (r[k].key == ParentKey ==> d.parentEntryId.Some?) && (r[k].key == MarkKey ==> d.marked.Some?)
      ensures r[k].key == UnreadKey ==> d.unread.Some?
      ensures KeyRank(r[k].key) == if k < |p| then 0 else if k < |p| + |m| then 1 else 2
    {
      if k < |p| { assert r[k] == p[k]; }
      else if k < |p| + |m| { assert r[k] == m[k - |p|]; }
      else { assert r[k] == u[k - |p| - |m|]; }
    }
    if d.parentEntryId.Some? { assert r[0].key == ParentKey; }
    if d.marked.Some? { assert r[|p|].key == MarkKey; }
    if d.unread.Some? { assert r[|r| - 1].key == UnreadKey; }
  }

  // ---------------------------------------------------------------------------------------
  // Document.ToModel

  /** The record ToModel starts from: the entry id parsed back (0 when it is no number),
      no optional field, and the times as whole seconds. */
  function BaseModel(d: Document): (m: DocModel.Document)
  {
    DocModel.Document(GoStrings.Atoi(d.entryId).value, d.name, d.namespace, None, d.source, d.webUrl,
      d.content, d.summary, d.headerImage, d.subContent, None, None,
      DocModel.FromUnix(d.createdAt), DocModel.FromUnix(d.updatedAt))
  }

  /** The type assertions of ToModel: a parentId attribute holds a string, a mark or
      unRead attribute a *bool. */
  predicate AttrTyped(a: DocumentAttr)
  {
    && (a.key == ParentKey ==> a.value.VString?)
    && ((a.key == MarkKey || a.key == UnreadKey) ==> a.value.VBoolRef?)
  }

  /** One iteration of ToModel's switch. */
  function ApplyAttr(m: DocModel.Document, a: DocumentAttr): DocModel.Document
    requires AttrTyped(a)
  {
    if a.key == ParentKey then m.(parentEntryId := Some(GoStrings.Atoi(a.value.s).value))
    else if a.key == MarkKey then m.(marked := Some(a.value.b))
    else if a.key == UnreadKey then m.(unread := Some(a.value.b))
    else m
  }

  function ToModelSpec(d: Document, attrs: seq<DocumentAttr>): DocModel.Document
    requires forall k :: 0 <= k < |attrs| ==> AttrTyped(attrs[k])
  {
    if attrs == [] then BaseModel(d)
    else ApplyAttr(ToModelSpec(d, attrs[..|attrs| - 1]), attrs[|attrs| - 1])
  }

  /** Document.ToModel, as written. */
  method ToModel(d: Document, attrs: seq<DocumentAttr>) returns (m: DocModel.Document)
    requires forall k :: 0 <= k < |attrs| ==> AttrTyped(attrs[k])
    ensures m == ToModelSpec(d, attrs)
  {
    m := BaseModel(d);
    var i := 0;
    while i < |attrs|
      invariant 0 <= i <= |attrs|
      invariant m == ToModelSpec(d, attrs[..i])
    {
      assert attrs[..i + 1][..i] == attrs[..i];
      var attr := attrs[i];
      if attr.key == ParentKey {
        var pId := GoStrings.Atoi(attr.value.s).value;
        m := m.(parentEntryId := Some(pId));
      } else if attr.key == MarkKey {
        m := m.(marked := Some(attr.value.b));
      } else if attr.key == UnreadKey {
        m := m.(unread := Some(attr.value.b));
      }
      i := i + 1;
    }
    assert attrs[..i] == attrs;
  }

  /** The value of the last attribute with the key, if any. */
  function LastWithKey(attrs: seq<DocumentAttr>, key: string): Option<Value>
  {
    if attrs == [] then None
    else if attrs[|attrs| - 1].key == key then Some(attrs[|attrs| - 1].value)
    else LastWithKey(attrs[..|attrs| - 1], key)
  }

  /** ToModel keeps every field of the base record except the optional ones; each of those
      is set by the last attribute with its key and stays nil without one; other keys are
      ignored. */
  lemma ToModelLastWins(d: Document, attrs: seq<DocumentAttr>)
    requires forall k :: 0 <= k < |attrs| ==> AttrTyped(attrs[k])
    ensures var m, b := ToModelSpec(d, attrs), BaseModel(d);
      && m == b.(parentEntryId := m.parentEntryId, marked := m.marked, unread := m.unread)
      && (LastWithKey(attrs, ParentKey).None? ==> m.parentEntryId.None?)
      && (LastWithKey(attrs, ParentKey).Some? ==> (LastWithKey(attrs, ParentKey).value.VString? &&
            m.parentEntryId == Some(GoStrings.Atoi(LastWithKey(attrs, ParentKey).value.s).value)))
      && (LastWithKey(attrs, MarkKey).None? ==> m.marked.None?)
      && (LastWithKey(attrs, MarkKey).Some? ==> (LastWithKey(attrs, MarkKey).value.VBoolRef? &&
            m.marked == Some(LastWithKey(attrs, MarkKey).value.b)))
      && (LastWithKey(attrs, UnreadKey).None? ==> m.unread.None?)
      && (LastWithKey(attrs, UnreadKey).Some? ==> (LastWithKey(attrs, UnreadKey).value.VBoolRef? &&
            m.unread == Some(LastWithKey(attrs, UnreadKey).value.b)))
  {
    ToModelKeepsBase(d, attrs);
    ToModelParentLast(d, attrs);
    ToModelMarkLast(d, attrs);
    ToModelUnreadLast(d, attrs);
  }

  lemma {:induction false} ToModelKeepsBase(d: Document, attrs: seq<DocumentAttr>)
    requires forall k :: 0 <= k < |attrs| ==> AttrTyped(attrs[k])
    ensures var m := ToModelSpec(d, attrs);
      m == BaseModel(d).(parentEntryId := m.parentEntryId, marked := m.marked, unread := m.unread)
    decreases |attrs|
  {
    if attrs != [] {
      ToModelKeepsBase(d, attrs[..|attrs| - 1]);
    }
  }

  lemma {:induction false} ToModelParentLast(d: Document, attrs: seq<DocumentAttr>)
    requires forall k :: 0 <= k < |attrs| ==> AttrTyped(attrs[k])
    ensures var m := ToModelSpec(d, attrs);
      && (LastWithKey(attrs, ParentKey).None? ==> m.parentEntryId.None?)
      && (LastWithKey(attrs, ParentKey).Some? ==> (LastWithKey(attrs, ParentKey).value.VString? &&
            m.parentEntryId == Some(GoStrings.Atoi(LastWithKey(attrs, ParentKey).value.s).value)))
    decreases |attrs|
  {
    if attrs != [] {
      ToModelParentLast(d, attrs[..|attrs| - 1]);
    }
  }

  lemma {:induction false} ToModelMarkLast(d: Document, attrs: seq<DocumentAttr>)
    requires forall k :: 0 <= k < |attrs| ==> AttrTyped(attrs[k])
    ensures var m := ToModelSpec(d, attrs);
      && (LastWithKey(attrs, MarkKey).None? ==> m.marked.None?)
      && (LastWithKey(attrs, MarkKey).Some? ==> (LastWithKey(attrs, MarkKey).value.VBoolRef? &&
            m.marked == Some(LastWithKey(attrs, MarkKey).value.b)))
    decreases |attrs|
  {
    if attrs != [] {
      ToModelMarkLast(d, attrs[..|attrs| - 1]);
    }
  }

  lemma {:induction false} ToModelUnreadLast(d: Document, attrs: seq<DocumentAttr>)
    requires forall k :: 0 <= k < |attrs| ==> AttrTyped(attrs[k])
    ensures var m := ToModelSpec(d, attrs);
      && (LastWithKey(attrs, UnreadKey).None? ==> m.unread.None?)
      && (LastWithKey(attrs, UnreadKey).Some? ==> (LastWithKey(attrs, UnreadKey).value.VBoolRef? &&
            m.unread == Some(LastWithKey(attrs, UnreadKey).value.b)))
    decreases |attrs|
  {
    if attrs != [] {
      ToModelUnreadLast(d, attrs[..|attrs| - 1]);
    }
  }

  /** ToModel after FromModel, with no attributes, gives back the named fields, the entry
      id and the times' seconds. */
  lemma ToModelFromModel(id: string, d: DocModel.Document)
    requires IsInt64(d.entryId)
    ensures var m := ToModelSpec(FromModel(id, d), []);
      && m.entryId == d.entryId && m.name == d.name && m.namespace == d.namespace
      && m.source == d.source && m.webUrl == d.webUrl && m.content == d.content
      && m.summary == d.summary && m.headerImage == d.headerImage && m.subContent == d.subContent
      && m.createdAt == DocModel.FromUnix(DocModel.Unix(d.createdAt))
      && m.changedAt == DocModel.FromUnix(DocModel.Unix(d.changedAt))
      && m.parentEntryId.None? && m.marked.None? && m.unread.None?
  {
    GoStrings.AtoiFormatInt(d.entryId);
  }

  /** The parentId attribute FromModel makes holds an *int64, which ToModel's assertion to
      string rejects: ToModel panics on the attributes of any document with a parent. */
  lemma ParentAttrRejected(uuid: nat -> string, d: DocModel.Document)
    requires d.parentEntryId.Some?
    ensures var r := AttrListFromModel(uuid, d);
      |r| > 0 && r[0].key == ParentKey && !AttrTyped(r[0])
  {
  }

  /** The assertions the corrected ToModel makes: a parentId attribute holds the *int64
      FromModel stores (or a numeric string), a mark or unRead attribute a *bool. */
  predicate AttrReadable(a: DocumentAttr)
  {
    && (a.key == ParentKey ==> a.value.VIntRef? || a.value.VString?)
    && ((a.key == MarkKey || a.key == UnreadKey) ==> a.value.VBoolRef?)
  }

  function ApplyAttrFixed(m: DocModel.Document, a: DocumentAttr): DocModel.Document
    requires AttrReadable(a)
  {
    if a.key == ParentKey then
      m.(parentEntryId := Some(if a.value.VIntRef? then a.value.n else GoStrings.Atoi(a.value.s).value))
    else if a.key == MarkKey then m.(marked := Some(a.value.b))
    else if a.key == UnreadKey then m.(unread := Some(a.value.b))
    else m
  }

  function ToModelFixedSpec(d: Document, attrs: seq<DocumentAttr>): DocModel.Document
    requires forall k :: 0 <= k < |attrs| ==> AttrReadable(attrs[k])
  {
    if attrs == [] then BaseModel(d)
    else ApplyAttrFixed(ToModelFixedSpec(d, attrs[..|attrs| - 1]), attrs[|attrs| - 1])
  }

  /** Document.ToModel reading the parent id back as the *int64 FromModel stored. */
  method ToModelFixed(d: Document, attrs: seq<DocumentAttr>) returns (m: DocModel.Document)
    requires forall k :: 0 <= k < |attrs| ==> AttrReadable(attrs[k])
    ensures m == ToModelFixedSpec(d, attrs)
  {
    m := BaseModel(d);
    var i := 0;
    while i < |attrs|
      invariant 0 <= i <= |attrs|
      invariant m == ToModelFixedSpec(d, attrs[..i])
    {
      assert attrs[..i + 1][..i] == attrs[..i];
      var attr := attrs[i];
      if attr.key == ParentKey {
        var pId := if attr.value.VIntRef? then attr.value.n else GoStrings.Atoi(attr.value.s).value;
        m := m.(parentEntryId := Some(pId));
      } else if attr.key == MarkKey {
        m := m.(marked := Some(attr.value.b));
      } else if attr.key == UnreadKey {
        m := m.(unread := Some(attr.value.b));
      }
      i := i + 1;
    }
    assert attrs[..i] == attrs;
  }

  /** The corrected reading accepts everything the as-written one does, with the same
      result. */
  lemma {:induction false} ToModelFixedExtends(d: Document, attrs: seq<DocumentAttr>)
    requires forall k :: 0 <= k < |attrs| ==> AttrTyped(attrs[k])
    ensures forall k :: 0 <= k < |attrs| ==> AttrReadable(attrs[k])
    ensures ToModelFixedSpec(d, attrs) == ToModelSpec(d, attrs)
    decreases |attrs|
  {
    if attrs != [] {
      ToModelFixedExtends(d, attrs[..|attrs| - 1]);
    }
  }

  /** The attributes FromModel makes are readable. */
  lemma AttrListReadable(uuid: nat -> string, d: DocModel.Document)
    ensures var r := AttrListFromModel(uuid, d); forall k :: 0 <= k < |r| ==> AttrReadable(r[k])
  {
    AttrListFromModelShape(uuid, d);
  }

  /** The round trip of the meilisearch store: the document and its attributes read back
      as the original, except that the times keep only their seconds. */
  lemma RoundTrip(id: string, uuid: nat -> string, d: DocModel.Document)
    requires IsInt64(d.entryId)
    ensures (AttrListReadable(uuid, d);
      ToModelFixedSpec(FromModel(id, d), AttrListFromModel(uuid, d)) ==
        d.(createdAt := DocModel.FromUnix(DocModel.Unix(d.createdAt)),
           changedAt := DocModel.FromUnix(DocModel.Unix(d.changedAt))))
  {
    GoStrings.AtoiFormatInt(d.entryId);
    AttrListReadable(uuid, d);
    var doc := FromModel(id, d);
    var r := AttrListFromModel(uuid, d);
    var p := if d.parentEntryId.Some? then [Attr(uuid(0), d, ParentKey, VIntRef(d.parentEntryId.value))] else [];
    var m := if d.marked.Some? then [Attr(uuid(|p|), d, MarkKey, VBoolRef(d.marked.value))] else [];
    var u := if d.unread.Some? then [Attr(uuid(|p| + |m|), d, UnreadKey, VBoolRef(d.unread.value))] else [];
    assert r == p + m + u;
    FixedConcat(doc, p, m);
    FixedConcat(doc, p + m, u);
  }

  /** Reading attributes in two parts. */
  lemma {:induction false} FixedConcat(d: Document, a: seq<DocumentAttr>, b: seq<DocumentAttr>)
    requires forall k :: 0 <= k < |a| ==> AttrReadable(a[k])
    requires forall k :: 0 <= k < |b| ==> AttrReadable(b[k])
    requires |b| <= 1
    ensures forall k :: 0 <= k < |a + b| ==> AttrReadable((a + b)[k])
    ensures ToModelFixedSpec(d, a + b) ==
      if b == [] then ToModelFixedSpec(d, a) else ApplyAttrFixed(ToModelFixedSpec(d, a), b[0])
  {
    if b == [] {
      assert a + b == a;
    } else {
      assert (a + b)[..|a + b| - 1] == a;
    }
  }

  // ---------------------------------------------------------------------------------------
  // Query builders

  const DocKind := AttrQuery("kind", "=", VString(DocumentType))

  /** DocumentQuery.OfEntryId: a fresh query for one document. */
  function QueryOfEntryId(namespace: string, entryId: int): DocumentQuery
  {
    DocumentQuery(
      [AttrQuery("namespace", "=", VString(namespace)),
       AttrQuery("entryId", "=", VString(EntryIdText(entryId))),
       DocKind],
      "", 1, 1, 0, 0, [])
  }

  /** The query selects exactly the documents of that namespace and entry id, and asks for
      one hit on the first page. */
  lemma QueryOfEntryIdSelects(namespace: string, entryId: int, d: FilterMatch.DocKeys)
    ensures var q := QueryOfEntryId(namespace, entryId);
      && FilterMatch.DocTyped(q.attrQueries)
      && (FilterMatch.DocSelected(q.attrQueries, d) <==>
            d.namespace == namespace && d.entryId == EntryIdText(entryId) && d.kind == DocumentType)
      && q.hitsPerPage == 1 && q.page == 1 && q.search == ""
  {
    var q := QueryOfEntryId(namespace, entryId);
    var aqs := q.attrQueries;
    assert FilterMatch.DocTyped(aqs);
    FilterMatch.DocSelectedIff(aqs, d);
    FilterMatch.MatchesStringOptions(aqs[0], d.namespace);
    FilterMatch.MatchesStringOptions(aqs[1], d.entryId);
    FilterMatch.MatchesStringOptions(aqs[2], d.kind);
    assert (forall k :: 0 <= k < |aqs| ==> FilterMatch.IsDocAttr(aqs[k].attr) && FilterMatch.MatchesString(aqs[k], FilterMatch.DocField(d, aqs[k].attr))) <==>
      FilterMatch.MatchesString(aqs[0], d.namespace) && FilterMatch.MatchesString(aqs[1], d.entryId) && FilterMatch.MatchesString(aqs[2], d.kind);
  }

  function SortFor(f: DocModel.DocumentFilter, keys: DocModel.OrderKeys): seq<Sort>
  {
    (if f.order.order == keys.name then [Sort("name", !f.order.desc)] else []) +
    (if f.order.order == keys.createdAt then [Sort("createdAt", !f.order.desc)] else [])
  }

  function TimeFilter(attr: string, option: string, t: Option<DocModel.Time>): seq<AttrQuery>
  {
    if t.Some? then [AttrQuery(attr, option, VInt(DocModel.Unix(t.value)))] else []
  }

  /** DocumentQuery.FromModel: the receiver keeps its offset and limit. */
  function QueryFromModel(q: DocumentQuery, f: DocModel.DocumentFilter, keys: DocModel.OrderKeys): DocumentQuery
  {
    q.(search := f.search, hitsPerPage := f.pageSize, page := f.page, sort := SortFor(f, keys),
       attrQueries := KeyFilters(f) + TimeFilters(f))
  }

  /** The first filters FromModel appends: the kind, then namespace, name and source when set. */
  function KeyFilters(f: DocModel.DocumentFilter): seq<AttrQuery>
  {
    [DocKind]
    + (if f.namespace != "" then [AttrQuery("namespace", "=", VString(f.namespace))] else [])
    + (if f.fuzzyName != "" then [AttrQuery("name", "CONTAINS", VString(f.fuzzyName))] else [])
    + (if f.source != "" then [AttrQuery("source", "=", VString(f.source))] else [])
  }

  /** The time bounds FromModel appends after them, each when set. */
  function TimeFilters(f: DocModel.DocumentFilter): seq<AttrQuery>
  {
    TimeFilter("createdAt", ">=", f.createdAtStart)
    + TimeFilter("createdAt", "<=", f.createdAtEnd)
    + TimeFilter("updatedAt", ">=", f.changedAtStart)
    + TimeFilter("updatedAt", "<=", f.changedAtEnd)
  }

  /** Every time bound is on createdAt or updatedAt and holds a number. */
  lemma TimeFiltersNumeric(f: DocModel.DocumentFilter)
    ensures forall aq :: aq in TimeFilters(f) ==> aq.value.VInt? && (aq.attr == "createdAt" || aq.attr == "updatedAt")
  {
  }

  /** FromModel starts with kind = "document" and then has one filter per set field of the
      filter, each on that field with the field's value. */
  lemma QueryFromModelFilters(q: DocumentQuery, f: DocModel.DocumentFilter, keys: DocModel.OrderKeys)
    ensures var aqs := QueryFromModel(q, f, keys).attrQueries;
      && |aqs| == 1 + Count(f.namespace != "") + Count(f.fuzzyName != "") + Count(f.source != "")
           + Count(f.createdAtStart.Some?) + Count(f.createdAtEnd.Some?)
           + Count(f.changedAtStart.Some?) + Count(f.changedAtEnd.Some?)
      && aqs[0] == DocKind
      && (f.namespace != "" <==> AttrQuery("namespace", "=", VString(f.namespace)) in aqs)
      && (f.fuzzyName != "" <==> AttrQuery("name", "CONTAINS", VString(f.fuzzyName)) in aqs)
      && (f.source != "" <==> AttrQuery("source", "=", VString(f.source)) in aqs)
  {
    QueryFromModelCount(q, f, keys);
    QueryFromModelKeys(q, f, keys);
  }

  lemma QueryFromModelCount(q: DocumentQuery, f: DocModel.DocumentFilter, keys: DocModel.OrderKeys)
    ensures var aqs := QueryFromModel(q, f, keys).attrQueries;
      && |aqs| == 1 + Count(f.namespace != "") + Count(f.fuzzyName != "") + Count(f.source != "")
           + Count(f.createdAtStart.Some?) + Count(f.createdAtEnd.Some?)
           + Count(f.changedAtStart.Some?) + Count(f.changedAtEnd.Some?)
      && aqs[0] == DocKind
  {
  }

  lemma QueryFromModelKeys(q: DocumentQuery, f: DocModel.DocumentFilter, keys: DocModel.OrderKeys)
    ensures var aqs := QueryFromModel(q, f, keys).attrQueries;
      && (f.namespace != "" <==> AttrQuery("namespace", "=", VString(f.namespace)) in aqs)
      && (f.fuzzyName != "" <==> AttrQuery("name", "CONTAINS", VString(f.fuzzyName)) in aqs)
      && (f.source != "" <==> AttrQuery("source", "=", VString(f.source)) in aqs)
  {
    TimeFiltersNumeric(f);
  }

  /** The time bounds of the filter become bounds in Unix seconds on createdAt and updatedAt,
      each present exactly when set. */
  lemma QueryFromModelTimes(q: DocumentQuery, f: DocModel.DocumentFilter, keys: DocModel.OrderKeys)
    ensures var aqs := QueryFromModel(q, f, keys).attrQueries;
      && (f.createdAtStart.Some? ==> AttrQuery("createdAt", ">=", VInt(DocModel.Unix(f.createdAtStart.value))) in aqs)
      && (f.createdAtEnd.Some? ==> AttrQuery("createdAt", "<=", VInt(DocModel.Unix(f.createdAtEnd.value))) in aqs)
      && (f.changedAtStart.Some? ==> AttrQuery("updatedAt", ">=", VInt(DocModel.Unix(f.changedAtStart.value))) in aqs)
      && (f.changedAtEnd.Some? ==> AttrQuery("updatedAt", "<=", VInt(DocModel.Unix(f.changedAtEnd.value))) in aqs)
  {
  }

  /** A bound on createdAt or updatedAt is only there when the filter sets it. */
  lemma QueryFromModelTimesOnly(q: DocumentQuery, f: DocModel.DocumentFilter, keys: DocModel.OrderKeys)
    ensures var aqs := QueryFromModel(q, f, keys).attrQueries;
      && (forall aq :: aq in aqs && aq.attr == "createdAt" ==>
            (aq.option == ">=" && f.createdAtStart.Some?) || (aq.option == "<=" && f.createdAtEnd.Some?))
      && (forall aq :: aq in aqs && aq.attr == "updatedAt" ==>
            (aq.option == ">=" && f.changedAtStart.Some?) || (aq.option == "<=" && f.changedAtEnd.Some?))
  {
    QueryFromModelCreatedOnly(q, f, keys);
    QueryFromModelUpdatedOnly(q, f, keys);
  }

  lemma QueryFromModelCreatedOnly(q: DocumentQuery, f: DocModel.DocumentFilter, keys: DocModel.OrderKeys)
    ensures forall aq :: aq in QueryFromModel(q, f, keys).attrQueries && aq.attr == "createdAt" ==>
      (aq.option == ">=" && f.createdAtStart.Some?) || (aq.option == "<=" && f.createdAtEnd.Some?)
  {
  }

  lemma QueryFromModelUpdatedOnly(q: DocumentQuery, f: DocModel.DocumentFilter, keys: DocModel.OrderKeys)
    ensures forall aq :: aq in QueryFromModel(q, f, keys).attrQueries && aq.attr == "updatedAt" ==>
      (aq.option == ">=" && f.changedAtStart.Some?) || (aq.option == "<=" && f.changedAtEnd.Some?)
  {
  }

  /** FromModel copies the search text and paging, keeps the receiver's offset and limit,
      and sorts by name or creation time as the order says, ascending unless descending. */
  lemma QueryFromModelPaging(q: DocumentQuery, f: DocModel.DocumentFilter, keys: DocModel.OrderKeys)
    requires keys.name != keys.createdAt
    ensures var r := QueryFromModel(q, f, keys);
      && r.search == f.search && r.hitsPerPage == f.pageSize && r.page == f.page
      && r.offset == q.offset && r.limit == q.limit
      && |r.sort| <= 1
      && (r.sort == [] <==> f.order.order != keys.name && f.order.order != keys.createdAt)
      && (forall k :: 0 <= k < |r.sort| ==> r.sort[k].asc == !f.order.desc)
      && (f.order.order == keys.name ==> r.sort == [Sort("name", !f.order.desc)])
      && (f.order.order == keys.createdAt ==> r.sort == [Sort("createdAt", !f.order.desc)])
  {
  }

  /** DocumentAttrQuery.FromModel: the attributes of the document's namespace with the keys
      of its set optional fields. */
  function AttrQueryFromModel(d: DocModel.Document): DocumentAttrQuery
  {
    DocumentAttrQuery(
      [AttrQuery("kind", "=", VString(AttrType)), AttrQuery("namespace", "=", VString(d.namespace))]
      + (if d.parentEntryId.Some? then [AttrQuery("key", "=", VString(ParentKey))] else [])
      + (if d.marked.Some? then [AttrQuery("key", "=", VString(MarkKey))] else [])
      + (if d.unread.Some? then [AttrQuery("key", "=", VString(UnreadKey))] else []))
  }

  /** The attribute query of a document starts with kind "attr" and its namespace, then
      asks for the key of each set optional field, in the order parentId, mark, unRead. */
  lemma AttrQueryFromModelShape(d: DocModel.Document)
    ensures var aqs := AttrQueryFromModel(d).attrQueries;
      && |aqs| == 2 + Count(d.parentEntryId.Some?) + Count(d.marked.Some?) + Count(d.unread.Some?)
      && aqs[0] == AttrQuery("kind", "=", VString(AttrType))
      && aqs[1] == AttrQuery("namespace", "=", VString(d.namespace))
      && (forall k :: 2 <= k < |aqs| ==> aqs[k].attr == "key" && aqs[k].option == "=")
      && (d.parentEntryId.Some? <==> AttrQuery("key", "=", VString(ParentKey)) in aqs)
      && (d.marked.Some? <==> AttrQuery("key", "=", VString(MarkKey)) in aqs)
      && (d.unread.Some? <==> AttrQuery("key", "=", VString(UnreadKey)) in aqs)
  {
  }

  /** DocumentAttrQuery.OfEntryId. */
  function AttrQueryOfEntryId(namespace: string, entryId: string): DocumentAttrQuery
  {
    DocumentAttrQuery([
      AttrQuery("namespace", "=", VString(namespace)),
      AttrQuery("entryId", "=", VString(entryId)),
      AttrQuery("kind", "=", VString(AttrType))])
  }

  /** The attribute query of an entry selects exactly the attributes of that namespace,
      entry id and kind "attr" (for the keys the model uses). */
  lemma AttrQueryOfEntryIdSelects(namespace: string, entryId: string, a: DocumentAttr)
    requires a.key == ParentKey || a.key == MarkKey || a.key == UnreadKey
    ensures var aqs := AttrQueryOfEntryId(namespace, entryId).attrQueries;
      && FilterMatch.AttrTyped(aqs, a)
      && (FilterMatch.AttrSelected(aqs, a) <==>
            a.namespace == namespace && a.entryId == entryId && a.kind == AttrType)
  {
    var aqs := AttrQueryOfEntryId(namespace, entryId).attrQueries;
    assert FilterMatch.AttrTyped(aqs, a);
    FilterMatch.AttrSelectedIff(aqs, a);
    FilterMatch.MatchesStringOptions(aqs[0], a.namespace);
    FilterMatch.MatchesStringOptions(aqs[1], a.entryId);
    FilterMatch.MatchesStringOptions(aqs[2], a.kind);
    assert (forall k :: 0 <= k < |aqs| ==> FilterMatch.AttrFilterHolds(aqs[k], a)) <==>
      FilterMatch.AttrFilterHolds(aqs[0], a) && FilterMatch.AttrFilterHolds(aqs[1], a) && FilterMatch.AttrFilterHolds(aqs[2], a);
  }

  function AttrValueQuery(namespace: string, key: string, v: Value): DocumentAttrQuery
  {
    DocumentAttrQuery([
      AttrQuery("namespace", "=", VString(namespace)),
      AttrQuery("kind", "=", VString(AttrType)),
      AttrQuery("key", "=", VString(key)),
      AttrQuery("value", "=", v)])
  }

  /** DocumentAttrQueries.FromFilter: one query per set attribute field of the filter. */
  function FromFilter(f: DocModel.DocumentFilter): seq<DocumentAttrQuery>
  {
    (if f.parentId.Some? then [AttrValueQuery(f.namespace, ParentKey, VIntRef(f.parentId.value))] else [])
    + (if f.marked.Some? then [AttrValueQuery(f.namespace, MarkKey, VBoolRef(f.marked.value))] else [])
    + (if f.unread.Some? then [AttrValueQuery(f.namespace, UnreadKey, VBoolRef(f.unread.value))] else [])
  }

  /** Each of FromFilter's queries, evaluated by the switch of the in-memory store, selects
      exactly the attributes of the filter's namespace with that key and value. */
  lemma AttrValueQuerySelects(namespace: string, key: string, v: Value, a: DocumentAttr)
    ensures var aqs := AttrValueQuery(namespace, key, v).attrQueries;
      && FilterMatch.SwitchTyped(aqs)
      && (FilterMatch.SwitchSelected(aqs, a) <==>
            a.namespace == namespace && a.kind == AttrType && a.key == key && a.value == v)
  {
    var aqs := AttrValueQuery(namespace, key, v).attrQueries;
    assert FilterMatch.SwitchTyped(aqs);
    FilterMatch.SwitchSelectedIff(aqs, a);
    FilterMatch.MatchesStringOptions(aqs[0], a.namespace);
    FilterMatch.MatchesStringOptions(aqs[1], a.kind);
    FilterMatch.MatchesStringOptions(aqs[2], a.key);
    assert (forall k :: 0 <= k < |aqs| ==> FilterMatch.IsAttrSwitch(aqs[k].attr) && FilterMatch.SwitchStep(aqs[k], a).ok) <==>
      FilterMatch.SwitchStep(aqs[0], a).ok && FilterMatch.SwitchStep(aqs[1], a).ok &&
      FilterMatch.SwitchStep(aqs[2], a).ok && FilterMatch.SwitchStep(aqs[3], a).ok;
  }

  /** FromFilter makes one query per set field, in the order parentId, mark, unRead. */
  lemma FromFilterShape(f: DocModel.DocumentFilter)
    ensures var qs := FromFilter(f);
      && |qs| == Count(f.parentId.Some?) + Count(f.marked.Some?) + Count(f.unread.Some?)
      && (f.parentId.Some? ==> qs[0] == AttrValueQuery(f.namespace, ParentKey, VIntRef(f.parentId.value)))
      && (f.marked.Some? ==> qs[Count(f.parentId.Some?)] == AttrValueQuery(f.namespace, MarkKey, VBoolRef(f.marked.value)))
      && (f.unread.Some? ==> qs[|qs| - 1] == AttrValueQuery(f.namespace, UnreadKey, VBoolRef(f.unread.value)))
  {
  }

  /** DocumentAttrQueries.String: each query's text followed by one space. */
  function QueriesText(qs: seq<DocumentAttrQuery>): string
  {
    if qs == [] then "" else QueriesText(qs[..|qs| - 1]) + FilterText(qs[|qs| - 1].attrQueries) + " "
  }

  method QueriesString(qs: seq<DocumentAttrQuery>) returns (result: string)
    ensures result == QueriesText(qs)
  {
    result := "";
    var i := 0;
    while i < |qs|
      invariant 0 <= i <= |qs|
      invariant result == QueriesText(qs[..i])
    {
      assert qs[..i + 1][..i] == qs[..i];
      var s := AttrQueryString(qs[i]);
      result := result + s + " ";
      i := i + 1;
    }
    assert qs[..i] == qs;
  }
}
