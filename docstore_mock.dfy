/** `pkg/store/docstore/mock.go`: the in-memory document store. Its two tables are
    sequences that `Store` appends to and `DeleteByFilter` rebuilds from maps keyed by Id.
    The filters are evaluated as in `FilterMatch`. */
module DocstoreMock {
  import opened Json
  import opened DocQuery
  import opened DocDocument
  import opened FilterMatch
  import GoStrings

  function Keys(d: Document): DocKeys
  {
    DocKeys(d.entryId, d.namespace, d.id, d.kind)
  }

  function DocId(d: Document): string { d.id }
  function AttrId(a: DocumentAttr): string { a.id }

  /** The attributes FilterAttr returns: those selected, in table order. */
  function SelectAttrs(attrs: seq<DocumentAttr>, aqs: seq<AttrQuery>): seq<DocumentAttr>
    requires forall a | a in attrs :: AttrTyped(aqs, a)
  {
    if attrs == [] then []
    else
      var front := SelectAttrs(attrs[..|attrs| - 1], aqs);
      var a := attrs[|attrs| - 1];
      if AttrSelected(aqs, a) then front + [a] else front
  }

  /** The documents Search returns: those selected whose content contains the search
      text, in table order. */
  function SelectDocs(docs: seq<Document>, aqs: seq<AttrQuery>, search: string): seq<Document>
    requires DocTyped(aqs)
  {
    if docs == [] then []
    else
      var front := SelectDocs(docs[..|docs| - 1], aqs, search);
      var d := docs[|docs| - 1];
      if DocSelected(aqs, Keys(d)) && GoStrings.Contains(d.content, search) then front + [d] else front
  }

  // ---------------------------------------------------------------------------------------
  // Tables keyed by Id

  /** The map the table becomes when every record is stored under its Id in order: a later
      record with the same Id replaces an earlier one. */
  function IdMap<T>(s: seq<T>, id: T -> string): map<string, T>
  {
    if s == [] then map[] else IdMap(s[..|s| - 1], id)[id(s[|s| - 1]) := s[|s| - 1]]
  }

  /** Every key of the map is the Id of its record, which is a record of the table, and
      every record's Id is a key. */
  lemma {:induction false} IdMapRecords<T>(s: seq<T>, id: T -> string)
    ensures forall k | k in IdMap(s, id) :: id(IdMap(s, id)[k]) == k && IdMap(s, id)[k] in s
    ensures forall j :: 0 <= j < |s| ==> id(s[j]) in IdMap(s, id)
    decreases |s|
  {
    if s != [] {
      var front := s[..|s| - 1];
      IdMapRecords(front, id);
      assert forall j :: 0 <= j < |front| ==> s[j] == front[j];
    }
  }

  /** The Ids of the selected documents. */
  function DeletedDocIds(docs: seq<Document>, aqs: seq<AttrQuery>): set<string>
    requires DocTyped(aqs)
  {
    set j | 0 <= j < |docs| && DocSelected(aqs, Keys(docs[j])) :: docs[j].id
  }

  /** The Ids of the selected attributes. */
  function DeletedAttrIds(attrs: seq<DocumentAttr>, aqs: seq<AttrQuery>): set<string>
    requires forall a | a in attrs :: DeleteTyped(aqs, a)
  {
    set j | 0 <= j < |attrs| && DeleteSelected(aqs, attrs[j]) :: attrs[j].id
  }

  /** `s` lists the records of `m` once each, in some order. */
  predicate Lists<T(==)>(s: seq<T>, m: map<string, T>, id: T -> string)
  {
    && (forall j :: 0 <= j < |s| ==> id(s[j]) in m && m[id(s[j])] == s[j])
    && (forall i, j :: 0 <= i < j < |s| ==> id(s[i]) != id(s[j]))
    && (forall k | k in m :: exists j :: 0 <= j < |s| && id(s[j]) == k)
  }

  /** `for _, v := range m { s = append(s, v) }`: the map's records in an order the
      language leaves open. */
  method ListValues<T(==)>(m: map<string, T>, id: T -> string) returns (s: seq<T>)
    requires forall k | k in m :: id(m[k]) == k
    ensures Lists(s, m, id)
  {
    s := [];
    var rest := m;
    while rest != map[]
      invariant forall k | k in rest :: k in m && rest[k] == m[k]
      invariant forall j :: 0 <= j < |s| ==> id(s[j]) in m && id(s[j]) !in rest && m[id(s[j])] == s[j]
      invariant forall i, j :: 0 <= i < j < |s| ==> id(s[i]) != id(s[j])
      invariant forall k | k in m && k !in rest :: exists j :: 0 <= j < |s| && id(s[j]) == k
      decreases |rest|
    {
      var k :| k in rest;
      ghost var s0 := s;
      s := s + [rest[k]];
      assert id(s[|s| - 1]) == k;
      rest := rest - {k};
      forall k' | k' in m && k' !in rest ensures exists j :: 0 <= j < |s| && id(s[j]) == k' {
        if k' == k {
          assert id(s[|s| - 1]) == k';
        } else {
          var j :| 0 <= j < |s0| && id(s0[j]) == k';
          assert s[j] == s0[j];
        }
      }
    }
  }

  class MockClient {
    var docs: seq<Document>
    var attrs: seq<DocumentAttr>

    constructor()
      ensures docs == [] && attrs == []
    {
      docs := [];
      attrs := [];
    }

    /** Store: a document is appended to the documents, an attribute to the attributes. */
    method Store(p: DocPtr)
      modifies this
      ensures Type(p) == DocumentType ==> docs == old(docs) + [p.doc] && attrs == old(attrs)
      ensures Type(p) == AttrType ==> attrs == old(attrs) + [p.attr] && docs == old(docs)
    {
      if Type(p) == DocumentType {
        docs := docs + [p.doc];
      }
      if Type(p) == AttrType {
        attrs := attrs + [p.attr];
      }
    }

    /** FilterAttr: the attributes the filters select, in table order. */
    method FilterAttr(query: DocumentAttrQuery) returns (result: seq<DocumentAttr>)
      requires forall a | a in attrs :: AttrTyped(query.attrQueries, a)
      ensures result == SelectAttrs(attrs, query.attrQueries)
    {
      var aq := query.attrQueries;
      result := [];
      var i := 0;
      while i < |attrs|
        invariant 0 <= i <= |attrs|
        invariant result == SelectAttrs(attrs[..i], aq)
      {
        assert attrs[..i + 1][..i] == attrs[..i];
        var selected := AttrMatches(aq, attrs[i]);
        if selected {
          result := result + [attrs[i]];
        }
        i := i + 1;
      }
      assert attrs[..i] == attrs;
    }

    /** Search: the documents the filters select whose content contains the search text. */
    method Search(query: DocumentQuery) returns (result: seq<Document>)
      requires DocTyped(query.attrQueries)
      ensures result == SelectDocs(docs, query.attrQueries, query.search)
    {
      var aq := query.attrQueries;
      result := [];
      var i := 0;
      while i < |docs|
        invariant 0 <= i <= |docs|
        invariant result == SelectDocs(docs[..i], aq, query.search)
      {
        assert docs[..i + 1][..i] == docs[..i];
        var d := docs[i];
        var selected := DocMatches(aq, Keys(d));
        if selected && GoStrings.Contains(d.content, query.search) {
          result := result + [d];
        }
        i := i + 1;
      }
      assert docs[..i] == docs;
    }

    /** DeleteByFilter: both tables become maps by Id, the Ids of the selected records are
        deleted, and the tables are rebuilt from what is left. */
    method DeleteByFilter(aqs: seq<AttrQuery>)
      requires DocTyped(aqs)
      requires forall a | a in attrs :: DeleteTyped(aqs, a)
      modifies this
      ensures Lists(docs, IdMap(old(docs), DocId) - DeletedDocIds(old(docs), aqs), DocId)
      ensures Lists(attrs, IdMap(old(attrs), AttrId) - DeletedAttrIds(old(attrs), aqs), AttrId)
    {
      var ds, ats := docs, attrs;
      var attrsMap := RemainingAttrs(ats, aqs);
      var docsMap := RemainingDocs(ds, aqs);
      IdMapRecords(ats, AttrId);
      IdMapRecords(ds, DocId);
      var attrsSlice := ListValues(attrsMap, AttrId);
      var docsSlice := ListValues(docsMap, DocId);
      attrs := attrsSlice;
      docs := docsSlice;
    }
  }

  /** The document map of DeleteByFilter after the selected Ids are deleted. */
  method RemainingDocs(ds: seq<Document>, aqs: seq<AttrQuery>) returns (docsMap: map<string, Document>)
    requires DocTyped(aqs)
    ensures docsMap == IdMap(ds, DocId) - DeletedDocIds(ds, aqs)
  {
    docsMap := IdMapOf(ds, DocId);
    var i := 0;
    while i < |ds|
      invariant 0 <= i <= |ds|
      invariant docsMap == IdMap(ds, DocId) - DeletedDocIds(ds[..i], aqs)
    {
      var selected := DocMatches(aqs, Keys(ds[i]));
      DeletedStep(ds, aqs, i);
      if selected {
        docsMap := docsMap - {ds[i].id};
      }
      i := i + 1;
    }
    assert ds[..i] == ds;
  }

  /** The attribute map of DeleteByFilter after the selected Ids are deleted. */
  method RemainingAttrs(ats: seq<DocumentAttr>, aqs: seq<AttrQuery>) returns (attrsMap: map<string, DocumentAttr>)
    requires forall a | a in ats :: DeleteTyped(aqs, a)
    ensures attrsMap == IdMap(ats, AttrId) - DeletedAttrIds(ats, aqs)
  {
    attrsMap := IdMapOf(ats, AttrId);
    var i := 0;
    assert DeletedAttrIds(ats[..0], aqs) == {};
    while i < |ats|
      invariant 0 <= i <= |ats|
      invariant forall a | a in ats[..i] :: DeleteTyped(aqs, a)
      invariant attrsMap == IdMap(ats, AttrId) - DeletedAttrIds(ats[..i], aqs)
    {
      var selected := DeleteMatches(aqs, ats[i]);
      DeletedAttrStep(ats, aqs, i);
      if selected {
        attrsMap := attrsMap - {ats[i].id};
      }
      i := i + 1;
    }
    assert ats[..i] == ats;
  }

  /** The map-building loop: `m[id(v)] = v` for every record in order. */
  method IdMapOf<T>(s: seq<T>, id: T -> string) returns (m: map<string, T>)
    ensures m == IdMap(s, id)
  {
    m := map[];
    var i := 0;
    while i < |s|
      invariant 0 <= i <= |s|
      invariant m == IdMap(s[..i], id)
    {
      assert s[..i + 1][..i] == s[..i];
      m := m[id(s[i]) := s[i]];
      i := i + 1;
    }
    assert s[..i] == s;
  }

  lemma DeletedStep(docs: seq<Document>, aqs: seq<AttrQuery>, i: nat)
    requires DocTyped(aqs) && i < |docs|
    ensures DeletedDocIds(docs[..i + 1], aqs) ==
      DeletedDocIds(docs[..i], aqs) + (if DocSelected(aqs, Keys(docs[i])) then {docs[i].id} else {})
  {
    var a, b := docs[..i + 1], docs[..i];
    assert forall j :: 0 <= j < i ==> a[j] == b[j];
  }

  lemma DeletedAttrStep(attrs: seq<DocumentAttr>, aqs: seq<AttrQuery>, i: nat)
    requires (forall a | a in attrs :: DeleteTyped(aqs, a)) && i < |attrs|
    ensures forall a | a in attrs[..i] :: DeleteTyped(aqs, a)
    ensures forall a | a in attrs[..i + 1] :: DeleteTyped(aqs, a)
    ensures DeletedAttrIds(attrs[..i + 1], aqs) ==
      DeletedAttrIds(attrs[..i], aqs) + (if DeleteSelected(aqs, attrs[i]) then {attrs[i].id} else {})
  {
    var a, b := attrs[..i + 1], attrs[..i];
    assert forall j :: 0 <= j < i ==> a[j] == b[j];
  }

  /** Search and FilterAttr return records of the table, each selected. */
  lemma {:induction false} SelectDocsMembers(docs: seq<Document>, aqs: seq<AttrQuery>, search: string)
    requires DocTyped(aqs)
    ensures forall d | d in SelectDocs(docs, aqs, search) ::
      d in docs && DocSelected(aqs, Keys(d)) && GoStrings.Contains(d.content, search)
    ensures forall d | d in docs && DocSelected(aqs, Keys(d)) && GoStrings.Contains(d.content, search) ::
      d in SelectDocs(docs, aqs, search)
    decreases |docs|
  {
    if docs != [] {
      var front := docs[..|docs| - 1];
      SelectDocsMembers(front, aqs, search);
      assert docs == front + [docs[|docs| - 1]];
    }
  }

  lemma {:induction false} SelectAttrsMembers(attrs: seq<DocumentAttr>, aqs: seq<AttrQuery>)
    requires forall a | a in attrs :: AttrTyped(aqs, a)
    ensures forall a | a in SelectAttrs(attrs, aqs) :: a in attrs && AttrSelected(aqs, a)
    ensures forall a | a in attrs && AttrSelected(aqs, a) :: a in SelectAttrs(attrs, aqs)
    decreases |attrs|
  {
    if attrs != [] {
      var front := attrs[..|attrs| - 1];
      assert forall a | a in front :: a in attrs;
      SelectAttrsMembers(front, aqs);
      assert attrs == front + [attrs[|attrs| - 1]];
    }
  }

  /** After DeleteByFilter every remaining document is one of the originals that was not
      selected, and an original whose Id no selected document has remains. */
  lemma DeleteByFilterRemaining(old_docs: seq<Document>, aqs: seq<AttrQuery>, docs: seq<Document>)
    requires DocTyped(aqs)
    requires Lists(docs, IdMap(old_docs, DocId) - DeletedDocIds(old_docs, aqs), DocId)
    ensures forall d | d in docs :: d in old_docs && !DocSelected(aqs, Keys(d))
    ensures forall j :: 0 <= j < |old_docs| && old_docs[j].id !in DeletedDocIds(old_docs, aqs) ==>
      exists k :: 0 <= k < |docs| && docs[k].id == old_docs[j].id
  {
    IdMapRecords(old_docs, DocId);
    var m := IdMap(old_docs, DocId) - DeletedDocIds(old_docs, aqs);
    forall d | d in docs ensures d in old_docs && !DocSelected(aqs, Keys(d)) {
      var k :| 0 <= k < |docs| && docs[k] == d;
      assert d.id in m && m[d.id] == d;
    }
    forall j | 0 <= j < |old_docs| && old_docs[j].id !in DeletedDocIds(old_docs, aqs)
      ensures exists k :: 0 <= k < |docs| && docs[k].id == old_docs[j].id
    {
      assert DocId(old_docs[j]) in m;
    }
  }
}
