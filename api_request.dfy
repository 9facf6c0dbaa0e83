/** `api/request.go`: the bodies of the document endpoints, their validation and their
    conversion to the document model. A nil error is `None`, an error is `Some(message)`. */
module ApiRequest {
  import opened Wrappers
  import opened DocModel

  const EntryIdRequired: string := "entryId is required"
  const NamespaceRequired: string := "namespace is required"

  /** The check both request kinds run: the entry id first, then the namespace. */
  function RequireIds(entryId: int, namespace: string): (err: Option<string>)
    ensures err.None? <==> entryId != 0 && namespace != ""
    ensures err == Some(EntryIdRequired) <==> entryId == 0
    ensures err == Some(NamespaceRequired) <==> entryId != 0 && namespace == ""
  {
    if entryId == 0 then Some(EntryIdRequired)
    else if namespace == "" then Some(NamespaceRequired)
    else None
  }

  /** DocRequest.Valid: a document to create needs an entry id and a namespace. */
  function DocRequestValid(r: Document): (err: Option<string>)
    ensures err.None? <==> r.entryId != 0 && r.namespace != ""
    ensures err.Some? ==> err.value == (if r.entryId == 0 then EntryIdRequired else NamespaceRequired)
  {
    RequireIds(r.entryId, r.namespace)
  }

  /** DocUpdateRequest: which document, and the three fields an update may set. */
  datatype DocUpdateRequest = DocUpdateRequest(
    namespace: string,
    entryId: int,
    parentId: Option<int>,
    unRead: Option<bool>,
    mark: Option<bool>)

  /** DocUpdateRequest.Valid: the same demands as for a document. */
  function DocUpdateRequestValid(r: DocUpdateRequest): (err: Option<string>)
    ensures err.None? <==> r.entryId != 0 && r.namespace != ""
    ensures err.Some? ==> err.value == (if r.entryId == 0 then EntryIdRequired else NamespaceRequired)
  {
    RequireIds(r.entryId, r.namespace)
  }

  /** DocUpdateRequest.ToModel: a document with only the identity, the parent, Marked and
      Unread set; every other field is zero. */
  function UpdateToModel(r: DocUpdateRequest): (d: Document)
  {
    EmptyDocument().(entryId := r.entryId, namespace := r.namespace, parentEntryId := r.parentId,
      marked := r.mark, unread := r.unRead)
  }

  /** The update request a document describes: its identity and the three updatable fields. */
  function UpdateRequestOf(d: Document): (r: DocUpdateRequest)
  {
    DocUpdateRequest(d.namespace, d.entryId, d.parentEntryId, d.unread, d.marked)
  }

  /** ToModel loses nothing of an update request, and a request is valid exactly when the
      document it becomes is. */
  lemma UpdateToModelRoundTrip(r: DocUpdateRequest)
    ensures UpdateRequestOf(UpdateToModel(r)) == r
    ensures DocUpdateRequestValid(r) == DocRequestValid(UpdateToModel(r))
  {
  }

  /** DocQuery: the body of the filter endpoint. */
  datatype DocQuery = DocQuery(
    entryIds: seq<int>,
    namespace: string,
    source: string,
    webUrl: string,
    parentId: Option<int>,
    unRead: Option<bool>,
    mark: Option<bool>,
    createdAtStart: Option<Time>,
    createdAtEnd: Option<Time>,
    changedAtStart: Option<Time>,
    changedAtEnd: Option<Time>,
    fuzzyName: string,
    search: string,
    pageSize: int,
    page: int,
    sort: int,
    desc: bool)

  /** DocQuery.ToModel: every field but the entry ids and the web URL goes into the filter;
      sort and desc become the order. */
  function QueryToModel(q: DocQuery): (f: DocumentFilter)
  {
    DocumentFilter(q.namespace, q.search, q.fuzzyName, q.parentId, q.source, q.mark, q.unRead,
      q.createdAtStart, q.createdAtEnd, q.changedAtStart, q.changedAtEnd, q.page, q.pageSize,
      DocumentOrder(q.sort, q.desc))
  }

  /** The query body that describes a filter, with no entry ids and no web URL. */
  function QueryOf(f: DocumentFilter): (q: DocQuery)
  {
    DocQuery([], f.namespace, f.source, "", f.parentId, f.unread, f.marked, f.createdAtStart,
      f.createdAtEnd, f.changedAtStart, f.changedAtEnd, f.fuzzyName, f.search, f.pageSize, f.page,
      f.order.order, f.order.desc)
  }

  /** Every filter is reached by ToModel, and ToModel forgets exactly the entry ids and the
      web URL: two queries give the same filter iff they differ in nothing else. */
  lemma QueryToModelRoundTrip(q: DocQuery, q': DocQuery, f: DocumentFilter)
    ensures QueryToModel(QueryOf(f)) == f
    ensures QueryOf(QueryToModel(q)) == q.(entryIds := [], webUrl := "")
    ensures QueryToModel(q) == QueryToModel(q') <==> q.(entryIds := [], webUrl := "") == q'.(entryIds := [], webUrl := "")
  {
    assert QueryOf(QueryToModel(q)) == q.(entryIds := [], webUrl := "");
    assert QueryOf(QueryToModel(q')) == q'.(entryIds := [], webUrl := "");
  }
}
