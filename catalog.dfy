/**
 * The outbound catalog request: a flat map from parameter name to value,
 * shared by the search translation and the facet request.
 */
module CatalogParams {
  /** A value of an outbound catalog query parameter: a string, a number or a list of strings. */
  datatype Value = Text(text: string) | Number(number: int) | TextList(texts: seq<string>)

  type Params = map<string, Value>
}
