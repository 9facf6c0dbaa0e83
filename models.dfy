/** `pkg/models/element.go`: a piece of text with the metadata it came with. */
module Models {
  datatype Metadata = Metadata(source: string, title: string, group: string, category: string)

  datatype Element = Element(content: string, metadata: Metadata)
}
