/** The component's `markers` state and the one fetch cycle that may replace it:
    `try { fetch; read results.bindings; map; setMarkers } catch { console.error }`. */
module MarkerStore {
  import opened Base
  import opened Sparql
  import opened Markers

  /** What `await axios.get(url)` produced; the network call itself is not modelled. */
  datatype FetchOutcome = Rejected | Resolved(data: ResponseData)

  /** The marker list held by `useState`, and the errors passed to `console.error`. */
  datatype State<F> = State(markers: seq<Marker<F>>, errorLog: seq<JsError>)

  /** `useState([])`: no markers, nothing logged. */
  function Initial<F>(): State<F> {
    State([], [])
  }

  /** The try block up to `setMarkers`: the new marker list, or the exception it threw. */
  function FetchMarkers<F>(outcome: FetchOutcome, parseFloat: Option<string> -> F): Result<seq<Marker<F>>, JsError> {
    match outcome
    case Rejected => Failure(FetchRejected)
    case Resolved(data) =>
      match data.results
      case None => Failure(TypeError("bindings"))
      case Some(results) =>
        match results.bindings
        case None => Failure(TypeError("map"))
        case Some(items) => ToMarkers(items, parseFloat)
  }

  /** One fetch cycle: `setMarkers` with the new list when the try block
      completes, otherwise the exception is logged and the list is kept. */
  function Step<F>(s: State<F>, outcome: FetchOutcome, parseFloat: Option<string> -> F): State<F> {
    match FetchMarkers(outcome, parseFloat)
    case Success(ms) => s.(markers := ms)
    case Failure(e) => s.(errorLog := s.errorLog + [e])
  }

  /** The response carries a `results.bindings` array. */
  predicate Delivers(outcome: FetchOutcome, items: seq<Binding>) {
    outcome == Resolved(ResponseData(Some(Results(Some(items)))))
  }

  /** The try block runs to `setMarkers`: the fetch resolved, the body has
      `results.bindings`, and every binding binds the variables the callback reads. */
  predicate Completes(outcome: FetchOutcome) {
    && outcome.Resolved?
    && outcome.data.results.Some?
    && outcome.data.results.value.bindings.Some?
    && forall i :: 0 <= i < |outcome.data.results.value.bindings.value| ==>
         HasDisplayFields(outcome.data.results.value.bindings.value[i])
  }

  /** All or nothing: the cycle either publishes a new list and logs nothing, or
      keeps the old list and logs exactly one error. Which one happens depends
      only on whether the try block completes. */
  lemma StepAllOrNothing<F>(s: State<F>, outcome: FetchOutcome, parseFloat: Option<string> -> F)
    ensures Step(s, outcome, parseFloat).errorLog == s.errorLog <==> Completes(outcome)
    ensures !Completes(outcome) ==> Step(s, outcome, parseFloat).markers == s.markers
    ensures !Completes(outcome) ==>
      exists e :: Step(s, outcome, parseFloat).errorLog == s.errorLog + [e]
  {
  }

  /** On success the list is replaced wholesale by the mapping of the delivered
      bindings, index for index; nothing of the previous list is merged in. */
  lemma StepReplacesMarkers<F>(s: State<F>, outcome: FetchOutcome, items: seq<Binding>, parseFloat: Option<string> -> F)
    requires Delivers(outcome, items)
    requires forall i :: 0 <= i < |items| ==> HasDisplayFields(items[i])
    ensures Step(s, outcome, parseFloat).errorLog == s.errorLog
    ensures |Step(s, outcome, parseFloat).markers| == |items|
    ensures forall i :: 0 <= i < |items| ==>
      Step(s, outcome, parseFloat).markers[i] == ToMarker(items[i], parseFloat).value
    ensures forall t: State<F> :: Step(t, outcome, parseFloat).markers == Step(s, outcome, parseFloat).markers
  {
  }

  /** A failed first cycle leaves the initial empty list in place. */
  lemma FailedFirstCycleShowsNothing<F>(outcome: FetchOutcome, parseFloat: Option<string> -> F)
    requires !Completes(outcome)
    ensures Step(Initial<F>(), outcome, parseFloat).markers == []
  {
  }

  /** A body without `results` is handled like any other failure: the state
      after it differs from the state after a rejected request only in which
      exception was logged. */
  lemma MissingResultsIsOrdinaryFailure<F>(s: State<F>, parseFloat: Option<string> -> F)
    ensures Step(s, Resolved(ResponseData(None)), parseFloat).markers == Step(s, Rejected, parseFloat).markers
    ensures Step(s, Resolved(ResponseData(None)), parseFloat).errorLog == s.errorLog + [TypeError("bindings")]
    ensures Step(s, Rejected, parseFloat).errorLog == s.errorLog + [FetchRejected]
  {
  }
}
