/** The `data.map(item => ...)` callback and the mapping over all bindings.
    `parseFloat` is a parameter: the model does not look inside it, and its
    argument is `None` where JavaScript passes `undefined`. */
module Markers {
  import opened Base
  import opened JsStrings
  import opened PointLiteral
  import opened Sparql

  /** One marker record `{person, birthPlace, lat, lon}`; `F` is the number
      type `parseFloat` produces. */
  datatype Marker<F> = Marker(person: string, birthPlace: string, lat: F, lon: F)

  /** The row binds every variable the callback reads. */
  predicate HasDisplayFields(item: Binding) {
    CoordVar in item && PersonLabelVar in item && BirthPlaceLabelVar in item
  }

  /** One binding to one marker. Reading `.value` of an unbound variable throws
      a TypeError; the coordinate text itself is never checked. */
  function ToMarker<F>(item: Binding, parseFloat: Option<string> -> F): (r: Result<Marker<F>, JsError>)
    ensures r.Success? <==> HasDisplayFields(item)
    ensures r.Failure? ==> r.error == TypeError("value")
  {
    if CoordVar !in item then Failure(TypeError("value"))
    else
      var coords := Tokens(item[CoordVar].value);
      if PersonLabelVar !in item || BirthPlaceLabelVar !in item then Failure(TypeError("value"))
      else
        Success(Marker(
          item[PersonLabelVar].value,
          item[BirthPlaceLabelVar].value,
          parseFloat(At(coords, 1)),
          parseFloat(Some(coords[0]))))
  }

  /** For a well-formed `Point(a b)` literal the marker is the whole record:
      the two labels verbatim, longitude parsed from `a` and latitude from `b`;
      when `parseFloat` tells `a` and `b` apart, the axes are never swapped. */
  lemma MarkerOfPoint<F>(item: Binding, a: string, b: string, parseFloat: Option<string> -> F)
    requires HasDisplayFields(item)
    requires item[CoordVar].value == Prefix + a + [Space] + b + Suffix
    requires Space !in a && Space !in b && Close !in a && Close !in b
    ensures ToMarker(item, parseFloat) == Success(Marker(
      item[PersonLabelVar].value,
      item[BirthPlaceLabelVar].value,
      parseFloat(Some(b)),
      parseFloat(Some(a))))
    ensures parseFloat(Some(a)) != parseFloat(Some(b)) ==>
      ToMarker(item, parseFloat).value.lat != parseFloat(Some(a))
  {
    TokensOfPoint(a, b);
  }

  /** Only `coord`, `personLabel` and `birthPlaceLabel` are read: the `person`
      and `birthPlace` IRIs, and any other variable, do not affect the marker. */
  lemma ToMarkerReadsOnlyDisplayFields<F>(item: Binding, other: Binding, parseFloat: Option<string> -> F)
    requires forall v :: v in {CoordVar, PersonLabelVar, BirthPlaceLabelVar} ==>
      (v in item <==> v in other) && (v in item ==> item[v] == other[v])
    ensures ToMarker(item, parseFloat) == ToMarker(other, parseFloat)
  {
  }

  /** The `person` and `birthPlace` IRIs are never read: binding them to any
      terms, or leaving them unbound, gives the same marker. */
  lemma ToMarkerIgnoresIris<F>(item: Binding, person: RdfTerm, birthPlace: RdfTerm, parseFloat: Option<string> -> F)
    ensures ToMarker(item[PersonVar := person][BirthPlaceVar := birthPlace], parseFloat) == ToMarker(item, parseFloat)
    ensures ToMarker(item - {PersonVar, BirthPlaceVar}, parseFloat) == ToMarker(item, parseFloat)
  {
  }

  /** `items.map(ToMarker)`: every binding becomes a marker at the same index,
      none dropped or added; the first binding that throws aborts the whole
      mapping with its exception. */
  function ToMarkers<F>(items: seq<Binding>, parseFloat: Option<string> -> F): (r: Result<seq<Marker<F>>, JsError>)
    ensures r.Success? <==> forall i :: 0 <= i < |items| ==> HasDisplayFields(items[i])
    ensures r.Success? ==> |r.value| == |items|
    ensures r.Success? ==> forall i :: 0 <= i < |items| ==> r.value[i] == ToMarker(items[i], parseFloat).value
    ensures r.Failure? ==> exists i :: 0 <= i < |items| && ToMarker(items[i], parseFloat) == Failure(r.error)
    decreases |items|
  {
    if |items| == 0 then Success([])
    else
      match ToMarker(items[0], parseFloat)
      case Failure(e) => Failure(e)
      case Success(m) =>
        match ToMarkers(items[1..], parseFloat)
        case Failure(e) =>
          ghost var i :| 0 <= i < |items[1..]| && ToMarker(items[1..][i], parseFloat) == Failure(e);
          assert ToMarker(items[i + 1], parseFloat) == Failure(e);
          Failure(e)
        case Success(ms) => Success([m] + ms)
  }

  /** A binding whose coordinate text is malformed still yields a marker: for
      `Point(bad data)` the tokens `bad` and `data` go to `parseFloat` unchecked. */
  lemma MalformedCoordinateKept<F>(item: Binding, parseFloat: Option<string> -> F)
    requires HasDisplayFields(item)
    requires item[CoordVar].value == "Point(bad data)"
    ensures ToMarker(item, parseFloat).Success?
    ensures ToMarker(item, parseFloat).value.lon == parseFloat(Some("bad"))
    ensures ToMarker(item, parseFloat).value.lat == parseFloat(Some("data"))
  {
    assert "Point(bad data)" == Prefix + "bad" + [Space] + "data" + Suffix;
    MarkerOfPoint(item, "bad", "data", parseFloat);
  }
}
