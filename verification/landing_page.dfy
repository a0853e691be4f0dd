/** The landing page: submitting the form starts a generation, the answer is
    combined with the form data and checked, and the page shows a loading
    view, the itinerary, or a placeholder. The generation action's answer is
    a parameter: its output value, or a failure. */
module LandingPage {
  import opened Wrappers
  import opened Json
  import opened Schema
  import opened Flows
  import opened ItineraryForm

  /** The page's state: the itinerary it holds and whether it is loading. */
  datatype PageState = PageState(itinerary: Option<Itinerary>, loading: bool)

  const Initial := PageState(None, false)

  /** Starting a generation: loading, and no itinerary held. */
  function Begin(st: PageState): (r: PageState)
    ensures r.loading && r.itinerary.None?
  {
    PageState(None, true)
  }

  // ---------------------------------------------------------------------------
  // The request and the combined data

  /** The form's submission as the page hands it to the generation action. */
  function SubmissionValue(data: Submission): Value {
    Obj(map[
      "destination" := Str(data.destination),
      "duration" := Num(data.duration),
      "budget" := Str(data.budget),
      "themes" := Arr(seq(|data.themes|, i requires 0 <= i < |data.themes| => Str(data.themes[i])))])
  }

  /** The submission lacks a start date and a number of travellers, so it is
      not a generation request as the request schema defines one. */
  lemma SubmissionIsNotGenerateInput(data: Submission)
    ensures !IsGenerateInput(SubmissionValue(data))
    ensures "startDate" !in SubmissionValue(data).fields && "numberOfTravellers" !in SubmissionValue(data).fields
  {
  }

  /** The form's fields copied into the combined data. */
  function FormFields(data: Submission): map<string, Value> {
    map["destination" := Str(data.destination), "duration" := Num(data.duration), "budget" := Str(data.budget)]
  }

  /** `{ destination, duration, budget, ...aiResponseData }` */
  function Combine(data: Submission, ai: Value): Value {
    Obj(FormFields(data) + Spread(Some(ai)))
  }

  /** Every key of the response wins over the form's; the form's fields
      remain where the response lacks them, and nothing else appears. */
  lemma CombineOverrides(data: Submission, ai: Value)
    ensures var c := Combine(data, ai).fields;
      && c.Keys == FormFields(data).Keys + Spread(Some(ai)).Keys
      && (forall k :: k in Spread(Some(ai)) ==> c[k] == Spread(Some(ai))[k])
      && (forall k :: k in FormFields(data) && k !in Spread(Some(ai)) ==> c[k] == FormFields(data)[k])
    ensures Prop(Combine(data, ai), "destination")
      == if ai.Obj? && "destination" in ai.fields then Prop(ai, "destination") else Some(Str(data.destination))
    ensures Prop(Combine(data, ai), "duration")
      == if ai.Obj? && "duration" in ai.fields then Prop(ai, "duration") else Some(Num(data.duration))
    ensures Prop(Combine(data, ai), "budget")
      == if ai.Obj? && "budget" in ai.fields then Prop(ai, "budget") else Some(Str(data.budget))
  {
  }

  // ---------------------------------------------------------------------------
  // One generation attempt

  /** `JSON.parse(result.itinerary)`: the answer's `itinerary`, turned into
      text by `String` and parsed; a failed action, a `null` answer or text
      that is not JSON throws. */
  function AiResponse(result: Result<Value>, codec: Codec): (r: Result<Value>)
    ensures result.Threw? ==> r.Threw?
    ensures result.Ok? && !result.value.Null? ==>
      (r.Ok? <==> codec.parse(TextOfJs(Prop(result.value, "itinerary"), codec.numberText)).Some?)
  {
    var out :- result;
    var items :- Member(Some(out), "itinerary");
    match codec.parse(TextOfJs(items, codec.numberText))
    case None => Threw
    case Some(ai) => Ok(ai)
  }

  /** The `try` block of `handleItineraryGeneration`: the combined data,
      checked against the itinerary schema. */
  function Attempt(data: Submission, result: Result<Value>, codec: Codec): (r: Result<Itinerary>)
    ensures r.Ok? <==> AiResponse(result, codec).Ok? && IsItinerary(Combine(data, AiResponse(result, codec).value))
    ensures r.Ok? ==> DescribesItinerary(r.value, Combine(data, AiResponse(result, codec).value))
  {
    var ai :- AiResponse(result, codec);
    match ParseItinerary(Combine(data, ai))
    case None => Threw
    case Some(p) => Ok(p)
  }

  /** The form supplies neither a start date nor a number of travellers, so
      an attempt succeeds only when the response supplies both. */
  lemma SuccessNeedsResponseFields(data: Submission, result: Result<Value>, codec: Codec)
    requires Attempt(data, result, codec).Ok?
    ensures var ai := Spread(Some(AiResponse(result, codec).value));
      HasString(ai, "startDate") && HasNumber(ai, "numberOfTravellers")
  {
    var ai := AiResponse(result, codec).value;
    assert Combine(data, ai).fields["startDate"] == Spread(Some(ai))["startDate"];
    assert Combine(data, ai).fields["numberOfTravellers"] == Spread(Some(ai))["numberOfTravellers"];
  }

  /** The end of the attempt (`finally`): not loading, and holding the
      checked itinerary when the attempt succeeded. */
  function Finish(st: PageState, attempt: Result<Itinerary>): (r: PageState)
    ensures !r.loading
    ensures attempt.Ok? ==> r.itinerary == Some(attempt.value)
    ensures attempt.Threw? ==> r.itinerary == st.itinerary
  {
    match attempt
    case Ok(p) => PageState(Some(p), false)
    case Threw => PageState(st.itinerary, false)
  }

  /** `handleItineraryGeneration` */
  function HandleGeneration(st: PageState, data: Submission, result: Result<Value>, codec: Codec): (r: PageState)
    ensures !r.loading
    ensures r.itinerary.Some? <==> Attempt(data, result, codec).Ok?
    ensures r.itinerary.Some? ==> r.itinerary.value == Attempt(data, result, codec).value
  {
    Finish(Begin(st), Attempt(data, result, codec))
  }

  /** Nothing of the previous state survives a generation: the itinerary
      shown before is dropped even when the new attempt fails. */
  lemma GenerationForgetsPrevious(st: PageState, other: PageState, data: Submission, result: Result<Value>, codec: Codec)
    ensures HandleGeneration(st, data, result, codec) == HandleGeneration(other, data, result, codec)
    ensures Attempt(data, result, codec).Threw? ==> HandleGeneration(st, data, result, codec) == Initial
  {
  }

  // ---------------------------------------------------------------------------
  // What the page shows

  predicate ShowsLoading(st: PageState) {
    st.loading
  }

  predicate ShowsItinerary(st: PageState) {
    st.itinerary.Some?
  }

  predicate ShowsPlaceholder(st: PageState) {
    !st.loading && st.itinerary.None?
  }

  /** While the attempt runs only the loading view shows; afterwards exactly
      one of the itinerary and the placeholder shows. */
  lemma ViewsAroundGeneration(st: PageState, data: Submission, result: Result<Value>, codec: Codec)
    ensures ShowsLoading(Begin(st)) && !ShowsItinerary(Begin(st)) && !ShowsPlaceholder(Begin(st))
    ensures var after := HandleGeneration(st, data, result, codec);
      && !ShowsLoading(after)
      && (ShowsItinerary(after) <==> !ShowsPlaceholder(after))
      && (ShowsItinerary(after) <==> Attempt(data, result, codec).Ok?)
  {
  }

  // ---------------------------------------------------------------------------
  // The itinerary text the page parses

  /** Every valid itinerary's day list is an array of objects. */
  lemma ValidDaysAreObjects(v: Value)
    requires IsItinerary(v)
    ensures Prop(v, "itinerary").Some? && Prop(v, "itinerary").value.Arr?
    ensures var items := Prop(v, "itinerary").value.items;
      forall i :: 0 <= i < |items| ==> items[i].Obj?
  {
    var items := v.fields["itinerary"].items;
    forall i | 0 <= i < |items|
      ensures items[i].Obj?
    {
      assert IsDay(items[i]);
    }
  }

  /** As written, the page parses the text of the answer's day list. That
      text is empty or starts `[object Object]`, so for any answer whose day
      list is an array of objects the attempt throws: every valid itinerary,
      and the empty day list of the fallback. */
  lemma DayListTextNeverParses(data: Submission, out: Value, codec: Codec)
    requires RejectsNonJson(codec)
    requires Prop(out, "itinerary").Some? && Prop(out, "itinerary").value.Arr?
    requires var items := Prop(out, "itinerary").value.items;
      forall i :: 0 <= i < |items| ==> items[i].Obj?
    ensures AiResponse(Ok(out), codec).Threw?
    ensures Attempt(data, Ok(out), codec).Threw?
  {
    ObjectArrayTextIsNotJson(Prop(out, "itinerary").value.items, codec);
  }

  /** So the page never shows a generated itinerary: whether the provider
      answers with a valid itinerary, answers nothing or throws, the page
      ends holding none. */
  lemma GeneratedItineraryIsNeverShown(st: PageState, data: Submission, input: GenerateInput, call: Call<Value>, codec: Codec)
    requires RejectsNonJson(codec)
    requires call.Answered? && call.output.Some? ==> IsItinerary(call.output.value)
    ensures HandleGeneration(st, data, Ok(GenerateRun(input, call)), codec) == Initial
  {
    var out := GenerateRun(input, call);
    if HasOutput(call) {
      ValidDaysAreObjects(out);
    } else {
      assert Prop(out, "itinerary") == Some(Arr([]));
    }
    DayListTextNeverParses(data, out, codec);
  }

  /** The attempt as intended: the action's answer is already a value, so
      it is combined with the form data directly. */
  function CorrectedAttempt(data: Submission, result: Result<Value>): (r: Result<Itinerary>)
    ensures r.Ok? <==> result.Ok? && IsItinerary(Combine(data, result.value))
    ensures r.Ok? ==> DescribesItinerary(r.value, Combine(data, result.value))
  {
    var out :- result;
    match ParseItinerary(Combine(data, out))
    case None => Threw
    case Some(p) => Ok(p)
  }

  function CorrectedHandleGeneration(st: PageState, data: Submission, result: Result<Value>): (r: PageState)
    ensures !r.loading
    ensures r.itinerary.Some? <==> CorrectedAttempt(data, result).Ok?
  {
    Finish(Begin(st), CorrectedAttempt(data, result))
  }

  /** A valid answer carries every field the form supplies, so combining
      changes nothing and the answer itself is shown. */
  lemma CorrectedAttemptShowsValidAnswer(st: PageState, data: Submission, out: Value)
    requires IsItinerary(out)
    ensures CorrectedAttempt(data, Ok(out)) == Ok(ParseItinerary(out).value)
    ensures CorrectedHandleGeneration(st, data, Ok(out)) == PageState(ParseItinerary(out), false)
  {
    assert Combine(data, out) == out by {
      assert (FormFields(data) + out.fields).Keys == out.fields.Keys;
    }
  }

  /** With the intended generation fallback, a failed provider, or one
      answering with a falsy output, still leaves the page showing the
      requested trip with no days. */
  lemma CorrectedFallbackIsShown(st: PageState, data: Submission, input: GenerateInput, call: Call<Value>)
    requires !HasOutput(call)
    ensures CorrectedHandleGeneration(st, data, Ok(CorrectedGenerateRun(input, call)))
      == PageState(Some(CorrectedGenerationFallback(input)), false)
  {
    var out := CorrectedGenerateRun(input, call);
    assert IsItinerary(out);
    CorrectedAttemptShowsValidAnswer(st, data, out);
  }
}
