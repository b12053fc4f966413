/** The response body as the component reads it: the JSON shape of section 3.2
    of the W3C "SPARQL 1.1 Query Results JSON Format", reduced to the members
    the component touches. */
module Sparql {
  import opened Base

  /** One RDF term of a result row: its `type` ("uri", "literal", ...) and its
      `value` text. The optional `xml:lang` and `datatype` members are never read. */
  datatype RdfTerm = RdfTerm(termType: string, value: string)

  /** One element of `results.bindings`: a variable name mapped to its term.
      A variable left unbound in that row is absent from the map. */
  type Binding = map<string, RdfTerm>

  /** `response.data.results`; `None` when the member is absent or is not an array. */
  datatype Results = Results(bindings: Option<seq<Binding>>)

  /** `response.data`; `results` is `None` when that member is absent. */
  datatype ResponseData = ResponseData(results: Option<Results>)

  /** The query's projected variables. */
  const PersonVar: string := "person"
  const PersonLabelVar: string := "personLabel"
  const BirthPlaceVar: string := "birthPlace"
  const BirthPlaceLabelVar: string := "birthPlaceLabel"
  const CoordVar: string := "coord"
}
