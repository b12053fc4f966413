# Birthplace map: marker pipeline

A Dafny model of the data path in `src/MapComponent.jsx`, the React component that plots where notable people were born. The component sends one SPARQL query to the Wikidata endpoint. It turns each row of `results.bindings` into a marker record `{person, birthPlace, lat, lon}`, then stores the list in component state for the map to draw.

The model has three parts:

- **The coordinate tokeniser** (`JsStrings`, `PointLiteral`). It takes a `Point(<lon> <lat>)` literal and runs `replace('Point(', '')`, then `replace(')', '')`, then `split(' ')`. These use JavaScript's own semantics: `replace` with a string pattern changes only the first occurrence; `split` on one character keeps empty pieces and always returns at least one piece; reading an array past its end gives `undefined`.
- **The row-to-marker mapping** (`Sparql`, `Markers`). A row is a map from variable name to RDF term, following section 3.2 of the W3C "SPARQL 1.1 Query Results JSON Format". `parseFloat` is a function parameter the model never looks inside; its argument is `None` where JavaScript passes `undefined`.
- **The state update** (`MarkerStore`). It is a one-step state machine: old state plus fetch outcome gives the new state. The state holds the marker list and the errors passed to `console.error`.

The code does not filter malformed coordinates, range-check latitude or longitude, or report a missing `results`/`bindings` as a separate error; the model follows the code:

- Malformed coordinates are not filtered. `Point(bad data)` still yields a marker, with `parseFloat("bad")` as its longitude.
- Latitude and longitude are never range-checked.
- A body with no `results` key, or no `bindings` array, is not reported as a separate "malformed response" error. It throws a TypeError inside the same `try` block as a failed request, and it has the same effect.

## Model

| member | source | states |
|---|---|---|
| JsStrings.IndexOfFrom | src/MapComponent.jsx:38 | the search `replace` relies on returns an occurrence of the pattern, and no occurrence lies before it |
| JsStrings.IndexOfIsFirst | src/MapComponent.jsx:38 | the search result is exactly the first occurrence, and it is absent exactly when the pattern never occurs |
| JsStrings.RemoveFirstDeletesWindow | src/MapComponent.jsx:38 | `replace(pat, '')` deletes only the first occurrence: putting `pat` back at that index restores the input, so every other character survives in order |
| JsStrings.RemoveFirstAbsent | src/MapComponent.jsx:38 | `replace(pat, '')` leaves a string without `pat` unchanged |
| JsStrings.RemoveFirstUnique | src/MapComponent.jsx:38 | converse: a string that gives back the input when `pat` is reinserted before any other occurrence is the result of the removal |
| JsStrings.Split | src/MapComponent.jsx:38 | `split(' ')` yields one piece more than there are separators, no piece contains the separator, and joining the pieces gives back the input |
| JsStrings.SplitOfJoin | src/MapComponent.jsx:38 | splitting undoes joining separator-free pieces, so the split is the only such decomposition of the input |
| PointLiteral.StripDeletesTwoWindows | src/MapComponent.jsx:38 | stripping removes the first `Point(` and then the first `)` of what remains; reinserting each at its index restores the text, so all other characters survive in order, and the length drops by 7 |
| PointLiteral.StripKeepsOtherCharacters | src/MapComponent.jsx:38 | stripping a literal that contains both markers loses exactly the characters of `Point(` and `)` and no others |
| PointLiteral.TokenCount | src/MapComponent.jsx:38-43 | the token count is the number of spaces left after stripping plus one; with no space there is one token and `coords[1]` is `undefined` |
| PointLiteral.TokensOfPoint | src/MapComponent.jsx:38 | round trip: `Point(a b)` with no space or `)` in `a` or `b` tokenises to exactly `[a, b]` |
| Markers.ToMarker | src/MapComponent.jsx:38-44 | a row yields a marker exactly when `coord`, `personLabel` and `birthPlaceLabel` are bound; otherwise reading `.value` throws a TypeError, whatever the coordinate text is |
| Markers.MarkerOfPoint | src/MapComponent.jsx:38-44 | for a row whose coordinate is `Point(a b)`, the marker is exactly `{person: personLabel.value, birthPlace: birthPlaceLabel.value, lat: parseFloat(b), lon: parseFloat(a)}`: labels verbatim, and the axes are never swapped |
| Markers.ToMarkerIgnoresIris | src/MapComponent.jsx:40-41 | whatever terms are bound to `person` and `birthPlace`, or whether they are bound at all, the marker is the same |
| Markers.ToMarkerReadsOnlyDisplayFields | src/MapComponent.jsx:38-41 | two rows that agree on `coord`, `personLabel` and `birthPlaceLabel` give the same marker; the `person` and `birthPlace` IRIs are ignored |
| Markers.MalformedCoordinateKept | src/MapComponent.jsx:38-43 | a malformed coordinate such as `Point(bad data)` is not filtered out: its tokens go to `parseFloat` unchecked |
| Markers.ToMarkers | src/MapComponent.jsx:37-45 | `data.map` succeeds exactly when every row binds the fields it reads; on success the output has the same length, and the i-th marker comes from the i-th row; on failure, the exception is the one thrown by some row |
| MarkerStore.StepAllOrNothing | src/MapComponent.jsx:33-50 | the cycle either replaces the list and logs nothing, or keeps the old list and logs one error; the first happens exactly when the fetch, `results.bindings` and every row succeed |
| MarkerStore.StepReplacesMarkers | src/MapComponent.jsx:35-47 | on success the new list is exactly the mapping of the delivered rows, index for index, and it does not depend on the previous list |
| MarkerStore.FailedFirstCycleShowsNothing | src/MapComponent.jsx:17-50 | starting from `useState([])`, a failed cycle leaves the marker list empty |
| MarkerStore.MissingResultsIsOrdinaryFailure | src/MapComponent.jsx:34-49 | a body without `results` leaves the markers exactly as a rejected request does; only the logged exception differs |

## Left out

- The network request (`axios.get`, src/MapComponent.jsx:34) is a foreign call. Its result is the input `FetchOutcome`. A non-2xx status counts as a rejection, as in axios's default status check.
- URL building with `encodeURIComponent` (line 31) is a library encoder whose result only feeds the request.
- The SPARQL query text (lines 21-29) is a constant with no logic. Its `LIMIT 1000` is enforced by the endpoint only: `Markers.ToMarkers` accepts any number of rows.
- `parseFloat` and the numbers it produces are a parameter of the model. NaN, finiteness and coordinate ranges are not modelled, because the code never checks them.
- `console.error`: the model records which exception is logged, but not the message text or where the output goes.
- Sparql.Results: a `bindings` member that is present but not an array is treated as absent. Both make `data.map` throw a TypeError.
- Strings are sequences of Unicode scalar values, while JavaScript strings are UTF-16 code units. `Point(`, `)` and the space are ASCII, so `replace` and `split` agree on every string the model can represent; a lone surrogate (from a `\ud800` escape in the JSON body) cannot be represented.
- Rows that are not objects, and terms whose `value` is not a string, are not modelled. The SPARQL JSON results format rules both out.
- React hook scheduling (`useEffect`, asynchronous resumption), the Leaflet icon settings (lines 7-14) and the JSX rendering (lines 56-70) are UI concerns outside the data path.
- `src/App.jsx` only mounts the component.
