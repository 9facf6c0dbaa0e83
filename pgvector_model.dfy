/** `pkg/store/vectorstore/pgvector/model.go`: the row of the pgvector store. `Update`
    assigns the receiver's fields, so the row is a class; `From` builds a new row and `To`
    and `ToElement` build new records. Unlike the postgres row, `From` stores no embedding
    and `ToElement` returns none. */
module PgvectorModel {
  import opened VectorModels
  import DocModel

  /** The friday_idx row. */
  class Index {
    var id: string
    var name: string
    var oid: int
    var group: int
    var parentId: int
    var content: string
    var vector: string
    var extra: string
    var createdAt: int
    var changedAt: int

    /** The row Index.From builds: the element's identity and content, nothing else. */
    constructor From(element: Element)
      ensures id == element.id && name == element.name && oid == element.oid && group == element.group
      ensures parentId == element.parentId && content == element.content
      ensures vector == "" && extra == "" && createdAt == 0 && changedAt == 0
    {
      id := element.id;
      name := element.name;
      oid := element.oid;
      group := element.group;
      content := element.content;
      parentId := element.parentId;
      vector := "";
      extra := "";
      createdAt := 0;
      changedAt := 0;
    }

    /** Index.Update: the other row's identity, content, extra data and embedding are
        copied, the creation time stays, and the change time becomes `now` in nanoseconds. */
    method Update(other: Index, now: DocModel.Time)
      modifies this
      ensures id == old(other.id) && name == old(other.name) && oid == old(other.oid)
      ensures group == old(other.group) && parentId == old(other.parentId) && content == old(other.content)
      ensures extra == old(other.extra) && vector == old(other.vector)
      ensures changedAt == DocModel.UnixNano(now) && createdAt == old(createdAt)
    {
      var oi, on, ooid, og, op, oc, oe, ov := other.id, other.name, other.oid, other.group, other.parentId, other.content, other.extra, other.vector;
      id := oi;
      name := on;
      oid := ooid;
      group := og;
      parentId := op;
      content := oc;
      extra := oe;
      vector := ov;
      changedAt := DocModel.UnixNano(now);
    }

    /** Index.To: the row's identity and content as a search result. */
    function To(): (d: Doc)
      reads this
    {
      Doc(id, oid, name, group, parentId, content)
    }

    /** Index.ToElement: the row's identity and content as an element without embedding. */
    function ToElement(): (e: Element)
      reads this
    {
      Element(id, name, group, oid, parentId, content, [])
    }
  }

  /** The row holds the element's identity and content. */
  predicate RowOf(i: Index, element: Element)
    reads i
  {
    && i.id == element.id && i.name == element.name && i.oid == element.oid && i.group == element.group
    && i.parentId == element.parentId && i.content == element.content
  }

  /** A row made by From reads back through ToElement as the element without its
      embedding, so the embedding is lost on this path. */
  lemma ToElementAfterFrom(i: Index, element: Element)
    requires RowOf(i, element)
    ensures i.ToElement() == element.(vector := [])
    ensures i.ToElement() == element <==> element.vector == []
  {
  }

  /** A row made by From reads back through To as the element's search record. */
  lemma ToAfterFrom(i: Index, element: Element)
    requires RowOf(i, element)
    ensures i.To() == Doc(element.id, element.oid, element.name, element.group, element.parentId, element.content)
  {
  }

  /** A row updated from another one reads back through ToElement as the other row. */
  lemma ToElementAfterUpdate(i: Index, other: Index)
    requires i.id == other.id && i.name == other.name && i.oid == other.oid && i.group == other.group
    requires i.parentId == other.parentId && i.content == other.content
    ensures i.ToElement() == other.ToElement() && i.To() == other.To()
  {
  }
}
