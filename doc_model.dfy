/** The records of `pkg/models/doc` that the store models, the request types and the
    query parser exchange: a document, a search filter and the time values they carry.
    The package's own model file is not part of this model; its fields are those the
    modelled code reads and writes. */
module DocModel {
  import opened Wrappers

  /** time.Time, as whole seconds since the epoch and the nanoseconds within the second. */
  datatype Time = Time(unix: int, nanos: nat)

  /** t.Unix(). */
  function Unix(t: Time): int
  {
    t.unix
  }

  /** time.Unix(s, 0). */
  function FromUnix(s: int): (t: Time)
    ensures Unix(t) == s && t.nanos == 0
  {
    Time(s, 0)
  }

  /** t.UnixNano() (the 64-bit range is not modelled). */
  function UnixNano(t: Time): int
  {
    t.unix * 1_000_000_000 + t.nanos
  }

  /** doc.Document; an optional field is a nil-able pointer in the source. */
  datatype Document = Document(
    entryId: int,
    name: string,
    namespace: string,
    parentEntryId: Option<int>,
    source: string,
    webUrl: string,
    content: string,
    summary: string,
    headerImage: string,
    subContent: string,
    marked: Option<bool>,
    unread: Option<bool>,
    createdAt: Time,
    changedAt: Time)

  /** The zero doc.Document. */
  function EmptyDocument(): Document
  {
    Document(0, "", "", None, "", "", "", "", "", "", None, None, Time(0, 0), Time(0, 0))
  }

  /** doc.DocumentOrder: the sort key (a doc.DocOrder) and the direction. */
  datatype DocumentOrder = DocumentOrder(order: int, desc: bool)

  /** doc.DocumentFilter. */
  datatype DocumentFilter = DocumentFilter(
    namespace: string,
    search: string,
    fuzzyName: string,
    parentId: Option<int>,
    source: string,
    marked: Option<bool>,
    unread: Option<bool>,
    createdAtStart: Option<Time>,
    createdAtEnd: Option<Time>,
    changedAtStart: Option<Time>,
    changedAtEnd: Option<Time>,
    page: int,
    pageSize: int,
    order: DocumentOrder)

  /** The values of the doc.DocOrder constants doc.Name and doc.CreatedAt; the file that
      declares them is not part of this model, so they are parameters wherever they are
      compared. */
  datatype OrderKeys = OrderKeys(name: int, createdAt: int)
}
