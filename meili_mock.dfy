/** `pkg/store/meili/mock.go`: the in-memory stand-in for the meilisearch store. Its two
    tables are sequences that `CreateDocument` appends to and `DeleteDocument` splices; the
    filters are evaluated as in `FilterMatch`. Reading a document back uses the corrected
    `MeiliModel.ToModelFixed` (see `MeiliModel.ParentAttrRejected`). */
module MeiliMock {
  import opened Wrappers
  import opened Json
  import opened DocQuery
  import opened DocDocument
  import opened FilterMatch
  import MeiliModel
  import DocModel
  import GoStrings

  function Keys(d: MeiliModel.Document): DocKeys
  {
    DocKeys(d.entryId, d.namespace, d.id, d.kind)
  }

  function DocEntry(d: MeiliModel.Document): string { d.entryId }
  function AttrEntry(a: DocumentAttr): string { a.entryId }

  // ---------------------------------------------------------------------------------------
  // First match and splice

  /** The index of the first record with the entry id, or the length when there is none. */
  function FirstIndex<T>(s: seq<T>, entry: T -> string, e: string): (i: nat)
    ensures i <= |s|
    ensures forall k :: 0 <= k < i ==> entry(s[k]) != e
    ensures i < |s| ==> entry(s[i]) == e
  {
    if s == [] then 0
    else if entry(s[0]) == e then 0
    else 1 + FirstIndex(s[1..], entry, e)
  }

  lemma {:induction false} FirstIndexAppend<T>(s: seq<T>, x: T, entry: T -> string, e: string)
    requires forall k :: 0 <= k < |s| ==> entry(s[k]) != e
    requires entry(x) == e
    ensures FirstIndex(s + [x], entry, e) == |s|
    decreases |s|
  {
    if s != [] {
      assert (s + [x])[1..] == s[1..] + [x];
      FirstIndexAppend(s[1..], x, entry, e);
    }
  }

  /** The first index is the one before which no record matches and at which one does. */
  lemma FirstIndexIs<T>(s: seq<T>, entry: T -> string, e: string, i: nat)
    requires i <= |s| && forall k :: 0 <= k < i ==> entry(s[k]) != e
    requires i < |s| ==> entry(s[i]) == e
    ensures FirstIndex(s, entry, e) == i
  {
  }

  /** The table without its first record with the entry id. */
  function RemoveFirst<T>(s: seq<T>, entry: T -> string, e: string): seq<T>
  {
    var i := FirstIndex(s, entry, e);
    if i == |s| then s else s[..i] + s[i + 1..]
  }

  /** Removing the first match takes out at most one record, which has the entry id; the
      others stay in order. */
  lemma RemoveFirstShape<T>(s: seq<T>, entry: T -> string, e: string)
    ensures var r, i := RemoveFirst(s, entry, e), FirstIndex(s, entry, e);
      && ((forall k :: 0 <= k < |s| ==> entry(s[k]) != e) ==> r == s)
      && ((exists k :: 0 <= k < |s| && entry(s[k]) == e) ==>
            |r| == |s| - 1 && entry(s[i]) == e && r[..i] == s[..i] && r[i..] == s[i + 1..])
      && (forall x :: x in r ==> x in s)
  {
  }

  /** The attributes with the entry id, in table order. */
  function AttrsOf(attrs: seq<DocumentAttr>, e: string): (r: seq<DocumentAttr>)
    ensures forall k :: 0 <= k < |r| ==> r[k] in attrs && r[k].entryId == e
  {
    if attrs == [] then []
    else
      var front := AttrsOf(attrs[..|attrs| - 1], e);
      var a := attrs[|attrs| - 1];
      if a.entryId == e then front + [a] else front
  }

  lemma {:induction false} AttrsOfConcat(a: seq<DocumentAttr>, b: seq<DocumentAttr>, e: string)
    ensures AttrsOf(a + b, e) == AttrsOf(a, e) + AttrsOf(b, e)
    decreases |b|
  {
    if b != [] {
      var fb := b[..|b| - 1];
      assert (a + b)[..|a + b| - 1] == a + fb;
      AttrsOfConcat(a, fb, e);
    } else {
      assert a + b == a;
    }
  }

  /** An attribute is kept exactly when it has the entry id. */
  lemma {:induction false} AttrsOfMembers(attrs: seq<DocumentAttr>, e: string, a: DocumentAttr)
    ensures a in AttrsOf(attrs, e) <==> a in attrs && a.entryId == e
    decreases |attrs|
  {
    if attrs != [] {
      var front := attrs[..|attrs| - 1];
      AttrsOfMembers(front, e, a);
      assert attrs == front + [attrs[|attrs| - 1]];
    }
  }

  /** When every attribute has the entry id, all are kept. */
  lemma {:induction false} AttrsOfAll(attrs: seq<DocumentAttr>, e: string)
    requires forall k :: 0 <= k < |attrs| ==> attrs[k].entryId == e
    ensures AttrsOf(attrs, e) == attrs
    decreases |attrs|
  {
    if attrs != [] {
      AttrsOfAll(attrs[..|attrs| - 1], e);
    }
  }

  /** The attributes the client reads back are those the corrected ToModel accepts. */
  predicate Readable(attrs: seq<DocumentAttr>)
  {
    forall k :: 0 <= k < |attrs| ==> MeiliModel.AttrReadable(attrs[k])
  }

  /** What GetDocument answers: nothing without a document of that entry id; otherwise the
      first such document, read back with every attribute of the entry. */
  function GetSpec(docs: seq<MeiliModel.Document>, attrs: seq<DocumentAttr>, entryId: int): Option<DocModel.Document>
    requires Readable(attrs)
  {
    var e := MeiliModel.EntryIdText(entryId);
    var i := FirstIndex(docs, DocEntry, e);
    if i == |docs| then None else Some(MeiliModel.ToModelFixedSpec(docs[i], AttrsOf(attrs, e)))
  }

  /** Reading back an entry id that only the appended document and attributes carry gives
      that document with exactly those attributes. */
  lemma GetAppended(docs: seq<MeiliModel.Document>, attrs: seq<DocumentAttr>, x: MeiliModel.Document,
                    extra: seq<DocumentAttr>, entryId: int)
    requires Readable(attrs) && Readable(extra)
    requires x.entryId == MeiliModel.EntryIdText(entryId)
    requires forall k :: 0 <= k < |docs| ==> docs[k].entryId != MeiliModel.EntryIdText(entryId)
    requires forall k :: 0 <= k < |attrs| ==> attrs[k].entryId != MeiliModel.EntryIdText(entryId)
    requires forall k :: 0 <= k < |extra| ==> extra[k].entryId == MeiliModel.EntryIdText(entryId)
    ensures Readable(attrs + extra)
    ensures GetSpec(docs + [x], attrs + extra, entryId) == Some(MeiliModel.ToModelFixedSpec(x, extra))
  {
    var e := MeiliModel.EntryIdText(entryId);
    ReadableConcat(attrs, extra);
    AttrsOfNone(attrs, e);
    AttrsOfConcat(attrs, extra, e);
    AttrsOfAll(extra, e);
    assert [] + extra == extra;
    assert AttrsOf(attrs + extra, e) == extra;
    FirstIndexAppend(docs, x, DocEntry, e);
    assert (docs + [x])[|docs|] == x;
    GetSpecAt(docs + [x], attrs + extra, entryId, |docs|);
  }

  lemma ReadableSplice(attrs: seq<DocumentAttr>, j: nat)
    requires j < |attrs| && Readable(attrs)
    ensures Readable(attrs[..j] + attrs[j + 1..])
  {
    var r := attrs[..j] + attrs[j + 1..];
    forall k | 0 <= k < |r| ensures MeiliModel.AttrReadable(r[k]) {
      if k < j { assert r[k] == attrs[k]; } else { assert r[k] == attrs[k + 1]; }
    }
  }

  lemma ReadableConcat(a: seq<DocumentAttr>, b: seq<DocumentAttr>)
    requires Readable(a) && Readable(b)
    ensures Readable(a + b)
  {
    forall k | 0 <= k < |a + b| ensures MeiliModel.AttrReadable((a + b)[k]) {
      if k < |a| { assert (a + b)[k] == a[k]; } else { assert (a + b)[k] == b[k - |a|]; }
    }
  }

  /** GetSpec reads the document at the first index of the entry id. */
  lemma GetSpecAt(docs: seq<MeiliModel.Document>, attrs: seq<DocumentAttr>, entryId: int, i: nat)
    requires Readable(attrs)
    requires i < |docs| && FirstIndex(docs, DocEntry, MeiliModel.EntryIdText(entryId)) == i
    ensures GetSpec(docs, attrs, entryId) ==
      Some(MeiliModel.ToModelFixedSpec(docs[i], AttrsOf(attrs, MeiliModel.EntryIdText(entryId))))
  {
  }

  /** No attribute of the entry id gives no attributes. */
  lemma {:induction false} AttrsOfNone(attrs: seq<DocumentAttr>, e: string)
    requires forall k :: 0 <= k < |attrs| ==> attrs[k].entryId != e
    ensures AttrsOf(attrs, e) == []
    decreases |attrs|
  {
    if attrs != [] {
      AttrsOfNone(attrs[..|attrs| - 1], e);
    }
  }

  /** A document created in a store holding nothing of its entry id is read back as it was
      created, with its times cut to whole seconds. */
  lemma CreateThenGet(docs: seq<MeiliModel.Document>, attrs: seq<DocumentAttr>, id: string,
                      uuid: nat -> string, d: DocModel.Document)
    requires Readable(attrs) && MeiliModel.IsInt64(d.entryId)
    requires forall k :: 0 <= k < |docs| ==> docs[k].entryId != MeiliModel.EntryIdText(d.entryId)
    requires forall k :: 0 <= k < |attrs| ==> attrs[k].entryId != MeiliModel.EntryIdText(d.entryId)
    ensures Readable(attrs + MeiliModel.AttrListFromModel(uuid, d))
    ensures GetSpec(docs + [MeiliModel.FromModel(id, d)], attrs + MeiliModel.AttrListFromModel(uuid, d), d.entryId) ==
        Some(d.(createdAt := DocModel.FromUnix(DocModel.Unix(d.createdAt)),
                changedAt := DocModel.FromUnix(DocModel.Unix(d.changedAt))))
  {
    var extra := MeiliModel.AttrListFromModel(uuid, d);
    MeiliModel.AttrListFromModelShape(uuid, d);
    MeiliModel.AttrListReadable(uuid, d);
    GetAppended(docs, attrs, MeiliModel.FromModel(id, d), extra, d.entryId);
    MeiliModel.RoundTrip(id, uuid, d);
  }

  // ---------------------------------------------------------------------------------------
  // FilterDocuments

  /** The entry ids of the attributes a query selects, in table order. */
  function SwitchIds(aqs: seq<AttrQuery>, attrs: seq<DocumentAttr>): seq<string>
    requires SwitchTyped(aqs)
  {
    if attrs == [] then []
    else
      var front := SwitchIds(aqs, attrs[..|attrs| - 1]);
      var a := attrs[|attrs| - 1];
      if SwitchSelected(aqs, a) then front + [a.entryId] else front
  }

  predicate AllSwitchTyped(qs: seq<DocumentAttrQuery>)
  {
    forall q | q in qs :: SwitchTyped(q.attrQueries)
  }

  /** The entry ids collected for the queries, query by query. */
  function MatchedIds(qs: seq<DocumentAttrQuery>, attrs: seq<DocumentAttr>): seq<string>
    requires AllSwitchTyped(qs)
  {
    if qs == [] then []
    else MatchedIds(qs[..|qs| - 1], attrs) + SwitchIds(qs[|qs| - 1].attrQueries, attrs)
  }

  /** The documents a query selects whose content contains the search text, read back
      without attributes. */
  function SelectDocs(docs: seq<MeiliModel.Document>, aqs: seq<AttrQuery>, search: string): seq<DocModel.Document>
    requires DocTyped(aqs)
  {
    if docs == [] then []
    else
      var front := SelectDocs(docs[..|docs| - 1], aqs, search);
      var d := docs[|docs| - 1];
      if DocSelected(aqs, Keys(d)) && GoStrings.Contains(d.content, search)
      then front + [MeiliModel.ToModelSpec(d, [])] else front
  }

  /** The zero DocumentQuery the client starts from. */
  const EmptyQuery := DocumentQuery([], "", 0, 0, 0, 0, [])

  predicate HasAttrFilter(f: DocModel.DocumentFilter)
  {
    f.parentId.Some? || f.unread.Some? || f.marked.Some?
  }

  function EntryIdIn(ids: seq<string>): AttrQuery
  {
    AttrQuery("entryId", "IN", VStrings(ids))
  }

  /** The document query FromModel builds can be evaluated by the document loop, with or
      without the entry id filter. */
  lemma QueryDocTyped(f: DocModel.DocumentFilter, keys: DocModel.OrderKeys, ids: seq<string>)
    ensures DocTyped(MeiliModel.QueryFromModel(EmptyQuery, f, keys).attrQueries)
    ensures DocTyped(MeiliModel.QueryFromModel(EmptyQuery, f, keys).attrQueries + [EntryIdIn(ids)])
  {
  }

  lemma FromFilterTyped(f: DocModel.DocumentFilter)
    ensures AllSwitchTyped(MeiliModel.FromFilter(f))
  {
    var qs := MeiliModel.FromFilter(f);
    forall q | q in qs
      ensures SwitchTyped(q.attrQueries)
    {
      MeiliModel.AttrValueQuerySelects(q.attrQueries[0].value.s, q.attrQueries[2].value.s, q.attrQueries[3].value,
        DocumentAttr("", "", "", "", "", VString("")));
    }
  }

  /** What FilterDocuments answers: nil when an attribute field is set and no attribute
      matches; otherwise the selected documents, restricted to the matched entry ids when an
      attribute field is set. */
  function FilterSpec(docs: seq<MeiliModel.Document>, attrs: seq<DocumentAttr>,
                      f: DocModel.DocumentFilter, keys: DocModel.OrderKeys): Option<seq<DocModel.Document>>
  {
    FromFilterTyped(f);
    var query := MeiliModel.QueryFromModel(EmptyQuery, f, keys);
    QueryDocTyped(f, keys, MatchedIds(MeiliModel.FromFilter(f), attrs));
    if HasAttrFilter(f) then
      var ids := MatchedIds(MeiliModel.FromFilter(f), attrs);
      if ids == [] then None
      else Some(SelectDocs(docs, query.attrQueries + [EntryIdIn(ids)], query.search))
    else Some(SelectDocs(docs, query.attrQueries, query.search))
  }

  lemma {:induction false} SwitchIdsMembers(aqs: seq<AttrQuery>, attrs: seq<DocumentAttr>, x: string)
    requires SwitchTyped(aqs)
    ensures x in SwitchIds(aqs, attrs) <==> exists a :: a in attrs && a.entryId == x && SwitchSelected(aqs, a)
    decreases |attrs|
  {
    if attrs != [] {
      var front := attrs[..|attrs| - 1];
      SwitchIdsMembers(aqs, front, x);
      assert attrs == front + [attrs[|attrs| - 1]];
    }
  }

  lemma {:induction false} MatchedIdsMembers(qs: seq<DocumentAttrQuery>, attrs: seq<DocumentAttr>, x: string)
    requires AllSwitchTyped(qs)
    ensures x in MatchedIds(qs, attrs) <==>
      exists k :: 0 <= k < |qs| && x in SwitchIds(qs[k].attrQueries, attrs)
    decreases |qs|
  {
    if qs != [] {
      var front := qs[..|qs| - 1];
      assert AllSwitchTyped(front);
      MatchedIdsMembers(front, attrs, x);
      assert forall k :: 0 <= k < |front| ==> qs[k] == front[k];
    }
  }

  /** The attribute holds the filter's value for one of the filter's set attribute fields,
      in the filter's namespace. */
  predicate AttrMatchesFilter(f: DocModel.DocumentFilter, a: DocumentAttr)
  {
    && a.namespace == f.namespace && a.kind == AttrType
    && (|| (f.parentId.Some? && a.key == MeiliModel.ParentKey && a.value == VIntRef(f.parentId.value))
        || (f.marked.Some? && a.key == MeiliModel.MarkKey && a.value == VBoolRef(f.marked.value))
        || (f.unread.Some? && a.key == MeiliModel.UnreadKey && a.value == VBoolRef(f.unread.value)))
  }

  /** An attribute matches the filter exactly when one of FromFilter's queries selects it. */
  lemma FromFilterSelects(f: DocModel.DocumentFilter, a: DocumentAttr)
    ensures (FromFilterTyped(f);
      AttrMatchesFilter(f, a) <==>
        exists k :: 0 <= k < |MeiliModel.FromFilter(f)| && SwitchSelected(MeiliModel.FromFilter(f)[k].attrQueries, a))
  {
    FromFilterTyped(f);
    var qs := MeiliModel.FromFilter(f);
    MeiliModel.FromFilterShape(f);
    var p := if f.parentId.Some? then [MeiliModel.AttrValueQuery(f.namespace, MeiliModel.ParentKey, VIntRef(f.parentId.value))] else [];
    var m := if f.marked.Some? then [MeiliModel.AttrValueQuery(f.namespace, MeiliModel.MarkKey, VBoolRef(f.marked.value))] else [];
    var u := if f.unread.Some? then [MeiliModel.AttrValueQuery(f.namespace, MeiliModel.UnreadKey, VBoolRef(f.unread.value))] else [];
    assert qs == p + m + u;
    forall k | 0 <= k < |qs|
      ensures SwitchSelected(qs[k].attrQueries, a) <==>
        a.namespace == f.namespace && a.kind == AttrType && a.key == qs[k].attrQueries[2].value.s &&
        a.value == qs[k].attrQueries[3].value
      ensures (qs[k].attrQueries[2].value.s == MeiliModel.ParentKey && f.parentId.Some? &&
                 qs[k].attrQueries[3].value == VIntRef(f.parentId.value))
           || (qs[k].attrQueries[2].value.s == MeiliModel.MarkKey && f.marked.Some? &&
                 qs[k].attrQueries[3].value == VBoolRef(f.marked.value))
           || (qs[k].attrQueries[2].value.s == MeiliModel.UnreadKey && f.unread.Some? &&
                 qs[k].attrQueries[3].value == VBoolRef(f.unread.value))
    {
      if k < |p| { assert qs[k] == p[k]; }
      else if k < |p| + |m| { assert qs[k] == m[k - |p|]; }
      else { assert qs[k] == u[k - |p| - |m|]; }
      MeiliModel.AttrValueQuerySelects(f.namespace, qs[k].attrQueries[2].value.s, qs[k].attrQueries[3].value, a);
    }
    if AttrMatchesFilter(f, a) {
      if f.parentId.Some? && a.key == MeiliModel.ParentKey && a.value == VIntRef(f.parentId.value) {
        assert SwitchSelected(qs[0].attrQueries, a);
      } else if f.marked.Some? && a.key == MeiliModel.MarkKey && a.value == VBoolRef(f.marked.value) {
        assert SwitchSelected(qs[|p|].attrQueries, a);
      } else {
        assert SwitchSelected(qs[|qs| - 1].attrQueries, a);
      }
    }
  }

  /** An entry id is collected exactly when an attribute of that entry matches the filter. */
  lemma FilterIds(f: DocModel.DocumentFilter, attrs: seq<DocumentAttr>, x: string)
    ensures (FromFilterTyped(f);
      x in MatchedIds(MeiliModel.FromFilter(f), attrs) <==>
        exists a :: a in attrs && a.entryId == x && AttrMatchesFilter(f, a))
  {
    FromFilterTyped(f);
    if x in MatchedIds(MeiliModel.FromFilter(f), attrs) {
      FilterIdsSound(f, attrs, x);
    }
    if exists a :: a in attrs && a.entryId == x && AttrMatchesFilter(f, a) {
      var a :| a in attrs && a.entryId == x && AttrMatchesFilter(f, a);
      FilterIdsComplete(f, attrs, a);
    }
  }

  lemma FilterIdsSound(f: DocModel.DocumentFilter, attrs: seq<DocumentAttr>, x: string)
    requires (FromFilterTyped(f); x in MatchedIds(MeiliModel.FromFilter(f), attrs))
    ensures exists a :: a in attrs && a.entryId == x && AttrMatchesFilter(f, a)
  {
    FromFilterTyped(f);
    var qs := MeiliModel.FromFilter(f);
    MatchedIdsMembers(qs, attrs, x);
    var k :| 0 <= k < |qs| && x in SwitchIds(qs[k].attrQueries, attrs);
    SwitchIdsMembers(qs[k].attrQueries, attrs, x);
    var a :| a in attrs && a.entryId == x && SwitchSelected(qs[k].attrQueries, a);
    FromFilterSelects(f, a);
  }

  lemma FilterIdsComplete(f: DocModel.DocumentFilter, attrs: seq<DocumentAttr>, a: DocumentAttr)
    requires a in attrs && AttrMatchesFilter(f, a)
    ensures (FromFilterTyped(f); a.entryId in MatchedIds(MeiliModel.FromFilter(f), attrs))
  {
    FromFilterTyped(f);
    var qs := MeiliModel.FromFilter(f);
    FromFilterSelects(f, a);
    var k :| 0 <= k < |qs| && SwitchSelected(qs[k].attrQueries, a);
    SwitchIdsMembers(qs[k].attrQueries, attrs, a.entryId);
    MatchedIdsMembers(qs, attrs, a.entryId);
  }

  /** A document is returned exactly when the query selects it and its content contains
      the search text. */
  lemma {:induction false} SelectDocsMembers(docs: seq<MeiliModel.Document>, aqs: seq<AttrQuery>, search: string,
                                             m: DocModel.Document)
    requires DocTyped(aqs)
    ensures m in SelectDocs(docs, aqs, search) <==>
      exists d :: d in docs && DocSelected(aqs, Keys(d)) && GoStrings.Contains(d.content, search) &&
        m == MeiliModel.ToModelSpec(d, [])
    decreases |docs|
  {
    if docs != [] {
      var front := docs[..|docs| - 1];
      SelectDocsMembers(front, aqs, search, m);
      assert docs == front + [docs[|docs| - 1]];
    }
  }

  /** Only the kind and namespace filters of FromModel are left when the filter has no
      name, source or time bound. */
  predicate KeyFieldsOnly(f: DocModel.DocumentFilter)
  {
    f.fuzzyName == "" && f.source == "" &&
    f.createdAtStart.None? && f.createdAtEnd.None? && f.changedAtStart.None? && f.changedAtEnd.None?
  }

  /** Such a query selects the documents of kind "document" in the namespace, when one is
      given. */
  lemma PlainSelected(f: DocModel.DocumentFilter, keys: DocModel.OrderKeys, d: DocKeys)
    requires KeyFieldsOnly(f)
    ensures (QueryDocTyped(f, keys, []);
      DocSelected(MeiliModel.QueryFromModel(EmptyQuery, f, keys).attrQueries, d) <==>
        d.kind == DocumentType && (f.namespace != "" ==> d.namespace == f.namespace))
  {
    var aqs := MeiliModel.QueryFromModel(EmptyQuery, f, keys).attrQueries;
    QueryDocTyped(f, keys, []);
    DocSelectedIff(aqs, d);
    MatchesStringOptions(aqs[0], d.kind);
    if f.namespace != "" {
      MatchesStringOptions(aqs[1], d.namespace);
      assert (forall k :: 0 <= k < |aqs| ==> IsDocAttr(aqs[k].attr) && MatchesString(aqs[k], DocField(d, aqs[k].attr)))
        <==> MatchesString(aqs[0], d.kind) && MatchesString(aqs[1], d.namespace);
    }
  }

  /** With the entry id filter appended, the entry id must also be one of the ids. */
  lemma InSelected(f: DocModel.DocumentFilter, keys: DocModel.OrderKeys, ids: seq<string>, d: DocKeys)
    requires KeyFieldsOnly(f)
    ensures (QueryDocTyped(f, keys, ids);
      DocSelected(MeiliModel.QueryFromModel(EmptyQuery, f, keys).attrQueries + [EntryIdIn(ids)], d) <==>
        d.kind == DocumentType && (f.namespace != "" ==> d.namespace == f.namespace) && d.entryId in ids)
  {
    var base := MeiliModel.QueryFromModel(EmptyQuery, f, keys).attrQueries;
    var aqs := base + [EntryIdIn(ids)];
    QueryDocTyped(f, keys, ids);
    PlainSelected(f, keys, d);
    DocSelectedIff(base, d);
    DocSelectedIff(aqs, d);
    MatchesStringOptions(EntryIdIn(ids), d.entryId);
    assert forall k :: 0 <= k < |base| ==> aqs[k] == base[k];
    assert aqs[|base|] == EntryIdIn(ids);
  }

  /** FilterDocuments without attribute fields and without name, source or time filters
      returns the documents of kind "document" (in the namespace, when one is given) whose
      content contains the search text. */
  lemma FilterPlain(docs: seq<MeiliModel.Document>, attrs: seq<DocumentAttr>,
                    f: DocModel.DocumentFilter, keys: DocModel.OrderKeys, m: DocModel.Document)
    requires !HasAttrFilter(f) && KeyFieldsOnly(f)
    ensures FilterSpec(docs, attrs, f, keys).Some?
    ensures m in FilterSpec(docs, attrs, f, keys).value <==>
      exists d :: d in docs && d.kind == DocumentType && (f.namespace != "" ==> d.namespace == f.namespace) &&
        GoStrings.Contains(d.content, f.search) && m == MeiliModel.ToModelSpec(d, [])
  {
    var aqs := MeiliModel.QueryFromModel(EmptyQuery, f, keys).attrQueries;
    QueryDocTyped(f, keys, []);
    SelectDocsMembers(docs, aqs, f.search, m);
    forall d | d in docs
      ensures DocSelected(aqs, Keys(d)) <==> d.kind == DocumentType && (f.namespace != "" ==> d.namespace == f.namespace)
    {
      PlainSelected(f, keys, Keys(d));
    }
  }

  /** With attribute fields set, FilterDocuments answers nil when no attribute matches, and
      otherwise restricts the documents to the entry ids of the matching attributes. */
  lemma FilterByAttrs(docs: seq<MeiliModel.Document>, attrs: seq<DocumentAttr>,
                      f: DocModel.DocumentFilter, keys: DocModel.OrderKeys, m: DocModel.Document)
    requires HasAttrFilter(f) && KeyFieldsOnly(f)
    ensures FilterSpec(docs, attrs, f, keys).None? <==> forall a :: a in attrs ==> !AttrMatchesFilter(f, a)
    ensures FilterSpec(docs, attrs, f, keys).Some? ==>
      (m in FilterSpec(docs, attrs, f, keys).value <==>
        exists d :: d in docs && d.kind == DocumentType && (f.namespace != "" ==> d.namespace == f.namespace) &&
          (exists a :: a in attrs && a.entryId == d.entryId && AttrMatchesFilter(f, a)) &&
          GoStrings.Contains(d.content, f.search) && m == MeiliModel.ToModelSpec(d, []))
  {
    FromFilterTyped(f);
    var ids := MatchedIds(MeiliModel.FromFilter(f), attrs);
    if ids == [] {
      forall a | a in attrs
        ensures !AttrMatchesFilter(f, a)
      {
        FilterIds(f, attrs, a.entryId);
      }
    } else {
      FilterIds(f, attrs, ids[0]);
      var aqs := MeiliModel.QueryFromModel(EmptyQuery, f, keys).attrQueries + [EntryIdIn(ids)];
      QueryDocTyped(f, keys, ids);
      SelectDocsMembers(docs, aqs, f.search, m);
      forall d | d in docs
        ensures DocSelected(aqs, Keys(d)) <==>
          d.kind == DocumentType && (f.namespace != "" ==> d.namespace == f.namespace) &&
          exists a :: a in attrs && a.entryId == d.entryId && AttrMatchesFilter(f, a)
      {
        FilterIds(f, attrs, d.entryId);
        InSelected(f, keys, ids, Keys(d));
      }
    }
  }

  /** A query with a filter on a field the document loop does not count selects nothing. */
  lemma {:induction false} SelectNone(docs: seq<MeiliModel.Document>, aqs: seq<AttrQuery>, search: string, k: nat)
    requires DocTyped(aqs) && k < |aqs| && !IsDocAttr(aqs[k].attr)
    ensures SelectDocs(docs, aqs, search) == []
    decreases |docs|
  {
    if docs != [] {
      SelectNone(docs[..|docs| - 1], aqs, search, k);
      DocSelectedIff(aqs, Keys(docs[|docs| - 1]));
    }
  }

  /** A name, source or time bound puts a filter into the query that the document loop
      does not count. */
  lemma UncountedPresent(f: DocModel.DocumentFilter, keys: DocModel.OrderKeys)
    requires !KeyFieldsOnly(f)
    ensures exists k :: (0 <= k < |MeiliModel.QueryFromModel(EmptyQuery, f, keys).attrQueries| &&
      !IsDocAttr(MeiliModel.QueryFromModel(EmptyQuery, f, keys).attrQueries[k].attr))
  {
    var aqs := MeiliModel.QueryFromModel(EmptyQuery, f, keys).attrQueries;
    var ks, ts := MeiliModel.KeyFilters(f), MeiliModel.TimeFilters(f);
    assert aqs == ks + ts;
    var j: nat;
    if f.fuzzyName != "" || f.source != "" {
      j := KeyUncounted(f);
      assert aqs[j] == ks[j];
    } else {
      j := TimeUncounted(f);
      assert aqs[|ks| + j] == ts[j];
      j := |ks| + j;
    }
  }

  /** A name or source filter is a filter the document loop does not count. */
  lemma KeyUncounted(f: DocModel.DocumentFilter) returns (j: nat)
    requires f.fuzzyName != "" || f.source != ""
    ensures j < |MeiliModel.KeyFilters(f)| && !IsDocAttr(MeiliModel.KeyFilters(f)[j].attr)
  {
    var ks := MeiliModel.KeyFilters(f);
    var n := if f.namespace != "" then [AttrQuery("namespace", "=", VString(f.namespace))] else [];
    var nm := if f.fuzzyName != "" then [AttrQuery("name", "CONTAINS", VString(f.fuzzyName))] else [];
    var src := if f.source != "" then [AttrQuery("source", "=", VString(f.source))] else [];
    assert ks == [MeiliModel.DocKind] + n + nm + src;
    if f.fuzzyName != "" {
      j := 1 + |n|;
      assert ks[j] == nm[0];
    } else {
      j := 1 + |n| + |nm|;
      assert ks[j] == src[0];
    }
  }

  /** A time bound is a filter the document loop does not count. */
  lemma TimeUncounted(f: DocModel.DocumentFilter) returns (j: nat)
    requires f.createdAtStart.Some? || f.createdAtEnd.Some? || f.changedAtStart.Some? || f.changedAtEnd.Some?
    ensures j < |MeiliModel.TimeFilters(f)| && !IsDocAttr(MeiliModel.TimeFilters(f)[j].attr)
  {
    var ts := MeiliModel.TimeFilters(f);
    assert |ts| > 0;
    j := 0;
    MeiliModel.TimeFiltersNumeric(f);
    assert ts[0] in ts;
    assert "createdAt"[0] != "namespace"[0] && "updatedAt"[0] != "namespace"[0];
  }

  /** A name, source or time filter is not among the fields the document loop counts, so
      no document is returned. */
  lemma FilterUncounted(docs: seq<MeiliModel.Document>, attrs: seq<DocumentAttr>,
                        f: DocModel.DocumentFilter, keys: DocModel.OrderKeys)
    requires !KeyFieldsOnly(f)
    ensures FilterSpec(docs, attrs, f, keys) == None || FilterSpec(docs, attrs, f, keys) == Some([])
  {
    FromFilterTyped(f);
    var query := MeiliModel.QueryFromModel(EmptyQuery, f, keys);
    var ids := MatchedIds(MeiliModel.FromFilter(f), attrs);
    QueryDocTyped(f, keys, ids);
    UncountedPresent(f, keys);
    var k :| 0 <= k < |query.attrQueries| && !IsDocAttr(query.attrQueries[k].attr);
    SelectNone(docs, query.attrQueries, query.search, k);
    var withIds := query.attrQueries + [EntryIdIn(ids)];
    assert withIds[k] == query.attrQueries[k];
    SelectNone(docs, withIds, query.search, k);
  }

  // ---------------------------------------------------------------------------------------
  // UpdateDocument

  /** The attributes the UpdateDocument loop selects, in table order. */
  function SelectAttrs(attrs: seq<DocumentAttr>, aqs: seq<AttrQuery>): seq<DocumentAttr>
    requires forall a | a in attrs :: AttrTyped(aqs, a)
  {
    if attrs == [] then []
    else
      var front := SelectAttrs(attrs[..|attrs| - 1], aqs);
      var a := attrs[|attrs| - 1];
      if AttrSelected(aqs, a) then front + [a] else front
  }

  lemma AttrQueryTyped(d: DocModel.Document, a: DocumentAttr)
    ensures AttrTyped(MeiliModel.AttrQueryFromModel(d).attrQueries, a)
  {
  }

  /** The loop counts a "key" filter only on an attribute whose key is "key", so for a
      document with an optional field it selects none of the attributes the store holds;
      for one without, it selects the attributes of kind "attr" in the namespace. */
  lemma UpdateSelection(d: DocModel.Document, a: DocumentAttr)
    requires a.key != "namespace" && a.key != "entryId" && a.key != "kind" && a.key != "key"
    ensures (AttrQueryTyped(d, a);
      AttrSelected(MeiliModel.AttrQueryFromModel(d).attrQueries, a) <==>
        d.parentEntryId.None? && d.marked.None? && d.unread.None? &&
        a.kind == AttrType && a.namespace == d.namespace)
  {
    var aqs := MeiliModel.AttrQueryFromModel(d).attrQueries;
    AttrQueryTyped(d, a);
    AttrSelectedIff(aqs, a);
    MatchesStringOptions(aqs[0], a.kind);
    MatchesStringOptions(aqs[1], a.namespace);
    if |aqs| > 2 {
      assert !AttrFilterHolds(aqs[2], a);
    } else {
      assert (forall k :: 0 <= k < |aqs| ==> AttrFilterHolds(aqs[k], a)) <==>
        AttrFilterHolds(aqs[0], a) && AttrFilterHolds(aqs[1], a);
    }
  }

  // ---------------------------------------------------------------------------------------
  // The client

  class MockClient {
    var docs: seq<MeiliModel.Document>
    var attrs: seq<DocumentAttr>

    /** Every stored attribute can be read back. */
    predicate Valid()
      reads this
    {
      Readable(attrs)
    }

    constructor()
      ensures docs == [] && attrs == [] && Valid()
    {
      docs := [];
      attrs := [];
    }

    /** CreateDocument appends the document's record and its attributes and removes
        nothing; `id` and `uuid` are the fresh uuids. */
    method CreateDocument(id: string, uuid: nat -> string, d: DocModel.Document)
      requires Valid()
      modifies this
      ensures Valid()
      ensures docs == old(docs) + [MeiliModel.FromModel(id, d)]
      ensures attrs == old(attrs) + MeiliModel.AttrListFromModel(uuid, d)
    {
      MeiliModel.AttrListReadable(uuid, d);
      docs := docs + [MeiliModel.FromModel(id, d)];
      attrs := attrs + MeiliModel.AttrListFromModel(uuid, d);
    }

    /** UpdateTokens does nothing. */
    method UpdateTokens(d: DocModel.Document)
      ensures docs == old(docs) && attrs == old(attrs)
    {
    }

    /** UpdateDocument evaluates the document's attribute query over the attributes and
        drops the result (returned here as `result`); neither table changes. */
    method UpdateDocument(d: DocModel.Document) returns (result: seq<DocumentAttr>)
      ensures result == SelectAttrs(attrs, MeiliModel.AttrQueryFromModel(d).attrQueries)
      ensures docs == old(docs) && attrs == old(attrs)
    {
      var aq := MeiliModel.AttrQueryFromModel(d).attrQueries;
      forall a ensures AttrTyped(aq, a) { AttrQueryTyped(d, a); }
      result := [];
      var i := 0;
      while i < |attrs|
        invariant 0 <= i <= |attrs|
        invariant result == SelectAttrs(attrs[..i], aq)
      {
        var a := attrs[i];
        assert attrs[..i + 1][..i] == attrs[..i] && attrs[..i + 1][i] == a;
        var selected := AttrMatches(aq, a);
        if selected {
          result := result + [a];
        }
        i := i + 1;
      }
      assert attrs[..i] == attrs;
    }

    /** GetDocument: the first document with the entry id, read back with that entry's
        attributes, or nothing. */
    method GetDocument(entryId: int) returns (r: Option<DocModel.Document>)
      requires Valid()
      ensures r == GetSpec(docs, attrs, entryId)
    {
      var e := MeiliModel.EntryIdText(entryId);
      var res: Option<MeiliModel.Document> := None;
      var i := 0;
      while i < |docs|
        invariant 0 <= i <= |docs|
        invariant forall k :: 0 <= k < i ==> docs[k].entryId != e
        invariant res.None?
      {
        if docs[i].entryId == e {
          res := Some(docs[i]);
          break;
        }
        i := i + 1;
      }
      assert res.Some? ==> i == FirstIndex(docs, DocEntry, e) && res.value == docs[i];
      assert res.None? ==> FirstIndex(docs, DocEntry, e) == |docs|;
      var found := [];
      var j := 0;
      while j < |attrs|
        invariant 0 <= j <= |attrs|
        invariant found == AttrsOf(attrs[..j], e)
      {
        assert attrs[..j + 1][..j] == attrs[..j];
        if attrs[j].entryId == e {
          found := found + [attrs[j]];
        }
        j := j + 1;
      }
      assert attrs[..j] == attrs;
      if res.Some? {
        var m := MeiliModel.ToModelFixed(res.value, found);
        r := Some(m);
      } else {
        r := None;
      }
    }

    /** The entry ids the attribute queries select, query by query. */
    method CollectIds(qs: seq<DocumentAttrQuery>) returns (ids: seq<string>)
      requires AllSwitchTyped(qs)
      ensures ids == MatchedIds(qs, attrs)
    {
      ids := [];
      var i := 0;
      while i < |qs|
        invariant 0 <= i <= |qs|
        invariant ids == MatchedIds(qs[..i], attrs)
      {
        assert qs[..i + 1][..i] == qs[..i];
        var aq := qs[i].attrQueries;
        var j := 0;
        var found := [];
        while j < |attrs|
          invariant 0 <= j <= |attrs|
          invariant found == SwitchIds(aq, attrs[..j])
        {
          assert attrs[..j + 1][..j] == attrs[..j];
          var selected := SwitchMatches(aq, attrs[j]);
          if selected {
            found := found + [attrs[j].entryId];
          }
          j := j + 1;
        }
        assert attrs[..j] == attrs;
        ids := ids + found;
        i := i + 1;
      }
      assert qs[..i] == qs;
    }

    /** The document loop of FilterDocuments. */
    method CollectDocs(aqs: seq<AttrQuery>, search: string) returns (result: seq<DocModel.Document>)
      requires DocTyped(aqs)
      ensures result == SelectDocs(docs, aqs, search)
    {
      result := [];
      var i := 0;
      while i < |docs|
        invariant 0 <= i <= |docs|
        invariant result == SelectDocs(docs[..i], aqs, search)
      {
        assert docs[..i + 1][..i] == docs[..i];
        var d := docs[i];
        var selected := DocMatches(aqs, Keys(d));
        if selected && GoStrings.Contains(d.content, search) {
          var m := MeiliModel.ToModel(d, []);
          result := result + [m];
        }
        i := i + 1;
      }
      assert docs[..i] == docs;
    }

    /** FilterDocuments, with `None` for the nil list it returns when the attribute fields
        match nothing. */
    method FilterDocuments(f: DocModel.DocumentFilter, keys: DocModel.OrderKeys)
      returns (r: Option<seq<DocModel.Document>>)
      ensures r == FilterSpec(docs, attrs, f, keys)
    {
      var query := MeiliModel.QueryFromModel(EmptyQuery, f, keys);
      var aqs := query.attrQueries;
      QueryDocTyped(f, keys, []);
      if HasAttrFilter(f) {
        var attrQuery := MeiliModel.FromFilter(f);
        FromFilterTyped(f);
        var entryId := CollectIds(attrQuery);
        if |entryId| != 0 {
          aqs := aqs + [EntryIdIn(entryId)];
          QueryDocTyped(f, keys, entryId);
        } else {
          return None;
        }
      }
      var result := CollectDocs(aqs, query.search);
      r := Some(result);
    }

    /** DeleteDocument removes the first document and the first attribute with the entry
        id; everything else stays, in order. */
    method DeleteDocument(docId: int)
      requires Valid()
      modifies this
      ensures Valid()
      ensures docs == RemoveFirst(old(docs), DocEntry, MeiliModel.EntryIdText(docId))
      ensures attrs == RemoveFirst(old(attrs), AttrEntry, MeiliModel.EntryIdText(docId))
    {
      var e := MeiliModel.EntryIdText(docId);
      var i := 0;
      while i < |docs|
        invariant 0 <= i <= |docs|
        invariant docs == old(docs) && attrs == old(attrs)
        invariant forall k :: 0 <= k < i ==> docs[k].entryId != e
      {
        if docs[i].entryId == e {
          FirstIndexIs(docs, DocEntry, e, i);
          docs := docs[..i] + docs[i + 1..];
          break;
        }
        i := i + 1;
      }
      if i == |docs| {
        FirstIndexIs(docs, DocEntry, e, i);
      }
      ghost var rest := docs;
      var j := 0;
      while j < |attrs|
        invariant 0 <= j <= |attrs|
        invariant docs == rest && attrs == old(attrs)
        invariant forall k :: 0 <= k < j ==> attrs[k].entryId != e
      {
        if attrs[j].entryId == e {
          FirstIndexIs(attrs, AttrEntry, e, j);
          ReadableSplice(attrs, j);
          attrs := attrs[..j] + attrs[j + 1..];
          break;
        }
        j := j + 1;
      }
      if j == |attrs| {
        FirstIndexIs(attrs, AttrEntry, e, j);
      }
    }
  }
}
