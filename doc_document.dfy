/** `pkg/models/doc/document.go`: the stored document and attribute records and their
    type tags. The file's query records and their `Sort.String`, `AttrQuery.ToFilter` and
    `ToRequest` methods repeat `pkg/models/doc/query.go` line for line and are the members of
    `DocQuery`. */
module DocDocument {
  import opened Json
  import DocModel

  /** doc.Document as stored. The in-memory document store also reads a `Kind` field,
      which this file's declaration lacks; it is kept here as `kind`. */
  datatype Document = Document(
    id: string,
    kind: string,
    namespace: string,
    entryId: string,
    name: string,
    source: string,
    webUrl: string,
    content: string,
    summary: string,
    headerImage: string,
    subContent: string,
    createdAt: DocModel.Time,
    updatedAt: DocModel.Time)

  /** doc.DocumentAttr, with the `Kind` field the in-memory store reads. */
  datatype DocumentAttr = DocumentAttr(
    id: string,
    kind: string,
    namespace: string,
    entryId: string,
    key: string,
    value: Value)

  /** A doc.DocPtrInterface value: a pointer to one of the two records. */
  datatype DocPtr = DocumentPtr(doc: Document) | AttrPtr(attr: DocumentAttr)

  const DocumentType := "document"
  const AttrType := "attr"

  /** Type(): the tag of the record's kind; the two tags differ. */
  function Type(p: DocPtr): (t: string)
    ensures t == DocumentType <==> p.DocumentPtr?
    ensures t == AttrType <==> p.AttrPtr?
  {
    match p
    case DocumentPtr(_) => DocumentType
    case AttrPtr(_) => AttrType
  }

  /** ID(). */
  function ID(p: DocPtr): string
  {
    match p
    case DocumentPtr(d) => d.id
    case AttrPtr(a) => a.id
  }

  /** EntryID(). */
  function EntryID(p: DocPtr): string
  {
    match p
    case DocumentPtr(d) => d.entryId
    case AttrPtr(a) => a.entryId
  }
}
