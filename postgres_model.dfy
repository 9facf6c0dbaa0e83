/** `pkg/store/postgres/model.go`: the rows of the postgres store. `Index.Update`,
    `Document.From` and `Document.UpdateFrom` assign the receiver's fields, so both rows are
    classes; `Index.From`, `Index.To`, `Index.ToDoc` and `Document.To` build new records.
    JSON encoding of the embedding is a pair of parameters: `marshal` fails on what
    encoding/json rejects, `unmarshal` on malformed text. */
module PostgresModel {
  import opened Wrappers
  import opened VectorModels
  import DocModel

  type Marshal = seq<Float32Bits> -> Option<string>
  type Unmarshal = string -> Option<seq<Float32Bits>>

  /** The encoder's output reads back as its input. */
  ghost predicate Codec(marshal: Marshal, unmarshal: Unmarshal)
  {
    forall v :: marshal(v).Some? ==> unmarshal(marshal(v).value) == Some(v)
  }

  /** The friday_idx row. */
  class Index {
    var id: string
    var name: string
    var namespace: string
    var oid: int
    var group: int
    var parentId: int
    var content: string
    var vector: string
    var extra: string
    var createdAt: int
    var changedAt: int

    constructor(id: string, name: string, oid: int, group: int, parentId: int, content: string, vector: string)
      ensures this.id == id && this.name == name && this.oid == oid && this.group == group
      ensures this.parentId == parentId && this.content == content && this.vector == vector
      ensures namespace == "" && extra == "" && createdAt == 0 && changedAt == 0
    {
      this.id := id;
      this.name := name;
      this.oid := oid;
      this.group := group;
      this.parentId := parentId;
      this.content := content;
      this.vector := vector;
      namespace := "";
      extra := "";
      createdAt := 0;
      changedAt := 0;
    }

    /** Index.Update: the other row's identity, content, extra data and embedding are
        copied, namespace and creation time stay, and the change time becomes `now` in
        nanoseconds. */
    method Update(other: Index, now: DocModel.Time)
      modifies this
      ensures id == old(other.id) && name == old(other.name) && oid == old(other.oid)
      ensures group == old(other.group) && parentId == old(other.parentId) && content == old(other.content)
      ensures extra == old(other.extra) && vector == old(other.vector)
      ensures changedAt == DocModel.UnixNano(now)
      ensures namespace == old(namespace) && createdAt == old(createdAt)
    {
      var o := other;
      var oi, on, ooid, og, op, oc, oe, ov := o.id, o.name, o.oid, o.group, o.parentId, o.content, o.extra, o.vector;
      id := oi;
      name := on;
      oid := ooid;
      group := og;
      parentId := op;
      content := oc;
      extra := oe;
      vector := ov;
      changedAt := DocModel.UnixNano(now);
    }

    /** Index.To: the element with the row's fields and the decoded embedding; an error
        when the stored text does not decode. */
    function To(unmarshal: Unmarshal): (r: Option<Element>)
      reads this
      ensures r.Some? <==> unmarshal(vector).Some?
      ensures r.Some? ==> r.value.vector == unmarshal(vector).value
    {
      match unmarshal(vector)
      case None => None
      case Some(v) => Some(Element(id, name, group, oid, parentId, content, v))
    }

    /** Index.ToDoc. */
    function ToDoc(): (d: Doc)
      reads this
    {
      Doc(id, oid, name, group, parentId, content)
    }
  }

  /** Index.From: a new row with the element's identity and content and the encoded
      embedding, or an error when the embedding does not encode. */
  method IndexFrom(element: Element, marshal: Marshal) returns (r: Option<Index>)
    ensures r.Some? <==> marshal(element.vector).Some?
    ensures r.Some? ==> fresh(r.value) && IndexOf(r.value, element, marshal(element.vector).value)
  {
    match marshal(element.vector)
    case None => r := None;
    case Some(text) =>
      var i := new Index(element.id, element.name, element.oid, element.group, element.parentId, element.content, text);
      r := Some(i);
  }

  /** The row holds the element's fields and the text of its embedding. */
  predicate IndexOf(i: Index, element: Element, text: string)
    reads i
  {
    && i.id == element.id && i.name == element.name && i.oid == element.oid && i.group == element.group
    && i.parentId == element.parentId && i.content == element.content && i.vector == text
  }

  /** A row made by From reads back, through To, as the element it was made from. */
  lemma ToAfterFrom(i: Index, element: Element, marshal: Marshal, unmarshal: Unmarshal)
    requires Codec(marshal, unmarshal) && marshal(element.vector).Some?
    requires IndexOf(i, element, marshal(element.vector).value)
    ensures i.To(unmarshal) == Some(element)
  {
  }

  /** ToDoc of a row made by From carries the element's identity and content. */
  lemma ToDocAfterFrom(i: Index, element: Element, text: string)
    requires IndexOf(i, element, text)
    ensures var d := i.ToDoc();
      d.id == element.id && d.oid == element.oid && d.name == element.name && d.group == element.group &&
      d.parentId == element.parentId && d.content == element.content
  {
  }

  /** The document row; Marked and Unread are plain booleans here. It has no web URL and
      a Keywords column nothing here writes. */
  class Document {
    var id: int
    var oid: int
    var name: string
    var namespace: string
    var source: string
    var parentEntryId: Option<int>
    var keywords: string
    var content: string
    var summary: string
    var headerImage: string
    var subContent: string
    var marked: bool
    var unread: bool
    var createdAt: DocModel.Time
    var changedAt: DocModel.Time

    /** The zero row. */
    constructor()
      ensures id == 0 && oid == 0 && name == "" && namespace == "" && source == "" && parentEntryId.None?
      ensures keywords == "" && content == "" && summary == "" && headerImage == "" && subContent == ""
      ensures !marked && !unread && createdAt == DocModel.Time(0, 0) && changedAt == DocModel.Time(0, 0)
    {
      id, oid, name, namespace, source, parentEntryId := 0, 0, "", "", "", None;
      keywords, content, summary, headerImage, subContent := "", "", "", "", "";
      marked, unread, createdAt, changedAt := false, false, DocModel.Time(0, 0), DocModel.Time(0, 0);
    }

    /** Document.From: both ids become the entry id, the named fields are copied, Marked and
        Unread only when given, and Keywords stays. */
    method From(d: DocModel.Document)
      modifies this
      ensures id == d.entryId && oid == d.entryId && name == d.name && namespace == d.namespace
      ensures parentEntryId == d.parentEntryId && source == d.source && content == d.content
      ensures summary == d.summary && createdAt == d.createdAt && changedAt == d.changedAt
      ensures headerImage == d.headerImage && subContent == d.subContent
      ensures marked == (if d.marked.Some? then d.marked.value else old(marked))
      ensures unread == (if d.unread.Some? then d.unread.value else old(unread))
      ensures keywords == old(keywords)
    {
      CopyIdentity(d);
      CopyText(d);
      if d.marked.Some? {
        marked := d.marked.value;
      }
      if d.unread.Some? {
        unread := d.unread.value;
      }
      headerImage := d.headerImage;
      subContent := d.subContent;
    }

    /** The first assignments of From: the ids, the names and the parent. */
    method CopyIdentity(d: DocModel.Document)
      modifies this
      ensures id == d.entryId && oid == d.entryId && name == d.name && namespace == d.namespace
      ensures parentEntryId == d.parentEntryId
      ensures source == old(source) && content == old(content) && summary == old(summary)
      ensures createdAt == old(createdAt) && changedAt == old(changedAt)
      ensures marked == old(marked) && unread == old(unread) && keywords == old(keywords)
      ensures headerImage == old(headerImage) && subContent == old(subContent)
    {
      id := d.entryId;
      oid := d.entryId;
      name := d.name;
      namespace := d.namespace;
      parentEntryId := d.parentEntryId;
    }

    /** The next assignments of From: the source, the text and the times. */
    method CopyText(d: DocModel.Document)
      modifies this
      ensures source == d.source && content == d.content && summary == d.summary
      ensures createdAt == d.createdAt && changedAt == d.changedAt
      ensures id == old(id) && oid == old(oid) && name == old(name) && namespace == old(namespace)
      ensures parentEntryId == old(parentEntryId)
      ensures marked == old(marked) && unread == old(unread) && keywords == old(keywords)
      ensures headerImage == old(headerImage) && subContent == old(subContent)
    {
      source := d.source;
      content := d.content;
      summary := d.summary;
      createdAt := d.createdAt;
      changedAt := d.changedAt;
    }

    /** Document.UpdateFrom: only Unread, Marked and the parent change, each only when
        given. */
    method UpdateFrom(d: DocModel.Document)
      modifies this
      ensures unread == (if d.unread.Some? then d.unread.value else old(unread))
      ensures marked == (if d.marked.Some? then d.marked.value else old(marked))
      ensures parentEntryId == (if d.parentEntryId.Some? then d.parentEntryId else old(parentEntryId))
      ensures id == old(id) && oid == old(oid) && name == old(name) && namespace == old(namespace)
      ensures source == old(source) && keywords == old(keywords) && content == old(content)
      ensures summary == old(summary) && headerImage == old(headerImage) && subContent == old(subContent)
      ensures createdAt == old(createdAt) && changedAt == old(changedAt)
    {
      if d.unread.Some? {
        unread := d.unread.value;
      }
      if d.marked.Some? {
        marked := d.marked.value;
      }
      if d.parentEntryId.Some? {
        parentEntryId := d.parentEntryId;
      }
    }

    /** Document.To: the entry id is the OID, and Marked and Unread are always given. */
    function To(): (r: DocModel.Document)
      reads this
      ensures r.entryId == oid && r.marked == Some(marked) && r.unread == Some(unread)
    {
      DocModel.Document(oid, name, namespace, parentEntryId, source, "", content, summary, headerImage,
        subContent, Some(marked), Some(unread), createdAt, changedAt)
    }
  }

  /** What a row holds after From, as far as To reads it. */
  predicate FromHolds(row: Document, d: DocModel.Document)
    reads row
  {
    && row.oid == d.entryId && row.name == d.name && row.namespace == d.namespace
    && row.parentEntryId == d.parentEntryId && row.source == d.source && row.content == d.content
    && row.summary == d.summary && row.createdAt == d.createdAt && row.changedAt == d.changedAt
    && row.headerImage == d.headerImage && row.subContent == d.subContent
    && (d.marked.Some? ==> row.marked == d.marked.value)
    && (d.unread.Some? ==> row.unread == d.unread.value)
  }

  /** To after From gives the document back, without its web URL, with Marked and Unread
      filled from the row when the document left them nil. */
  lemma ToAfterFromDoc(row: Document, d: DocModel.Document)
    requires FromHolds(row, d)
    ensures row.To() == d.(webUrl := "", marked := Some(row.marked), unread := Some(row.unread))
    ensures d.marked.Some? && d.unread.Some? ==> row.To() == d.(webUrl := "")
  {
  }
}
