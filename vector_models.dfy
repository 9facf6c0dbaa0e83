/** The vector-store records shared by the chunker and the index models: an element to
    be embedded and a search hit. Embedding components are kept as their 32-bit float
    bit patterns, because the model only copies them. */
module VectorModels {

  type Float32Bits = bv32

  /** vector.Element. */
  datatype Element = Element(
    id: string,
    name: string,
    group: int,
    oid: int,
    parentId: int,
    content: string,
    vector: seq<Float32Bits>)

  /** The zero vector.Element, to which fields are assigned one by one. */
  function EmptyElement(): Element
  {
    Element("", "", 0, 0, 0, "", [])
  }

  /** vector.Doc, as far as the modelled code builds it. */
  datatype Doc = Doc(id: string, oid: int, name: string, group: int, parentId: int, content: string)
}
