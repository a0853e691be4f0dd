/** The server-side flows around the model provider: generation, trip-detail
    suggestion, translation and weather adjustment. The provider call itself
    is a parameter (`Call`): it throws, answers without output, or answers
    with an output value. */
module Flows {
  import opened Wrappers
  import opened Json
  import opened Schema

  // ---------------------------------------------------------------------------
  // Generation

  /** What the generation flow returns when the provider gives no itinerary:
      the request's destination, duration and budget with no days. */
  function GenerationFallback(input: GenerateInput): Value {
    Obj(map[
      "destination" := Str(input.destination),
      "duration" := Num(input.duration),
      "budget" := Str(input.budget),
      "itinerary" := Arr([])])
  }

  /** The provider answered with an output that passes `if (!output)`. */
  predicate HasOutput(call: Call<Value>) {
    call.Answered? && call.output.Some? && Truthy(call.output.value)
  }

  /** `generatePersonalizedItineraryFlow`: the provider's output unchanged
      when it is truthy, the fallback when the output is missing or falsy or
      the call throws. */
  function GenerateRun(input: GenerateInput, call: Call<Value>): (r: Value)
    ensures HasOutput(call) ==> r == call.output.value
    ensures !HasOutput(call) ==> r == GenerationFallback(input)
  {
    match call
    case Answered(Some(out)) => if Truthy(out) then out else GenerationFallback(input)
    case _ => GenerationFallback(input)
  }

  /** A throwing provider, a provider without output and a provider with a
      falsy output give the same result. */
  lemma GenerateThrowIsLikeAbsent(input: GenerateInput, v: Value)
    requires !Truthy(v)
    ensures GenerateRun(input, ProviderThrew) == GenerateRun(input, Answered(None))
    ensures GenerateRun(input, Answered(Some(v))) == GenerateRun(input, ProviderThrew)
  {
  }

  /** The fallback echoes the request and has no days, whatever the requested
      duration. */
  lemma GenerationFallbackEchoesRequest(input: GenerateInput)
    ensures var f := GenerationFallback(input);
      && Prop(f, "destination") == Some(Str(input.destination))
      && Prop(f, "duration") == Some(Num(input.duration))
      && Prop(f, "budget") == Some(Str(input.budget))
      && Prop(f, "itinerary") == Some(Arr([]))
  {
  }

  /** The fallback has neither `startDate` nor `numberOfTravellers`, so the
      itinerary check rejects it, although it is meant as a valid empty
      itinerary. */
  lemma GenerationFallbackIsNotValid(input: GenerateInput)
    ensures !IsItinerary(GenerationFallback(input))
    ensures ParseItinerary(GenerationFallback(input)).None?
  {
    assert "startDate" !in GenerationFallback(input).fields;
  }

  /** The fallback as intended: the request's fields, including the start
      date and the number of travellers, and no days. */
  function CorrectedGenerationFallback(input: GenerateInput): Itinerary {
    Itinerary(input.destination, input.startDate, input.duration, input.budget, input.numberOfTravellers, [])
  }

  /** The generation flow with the intended fallback. */
  function CorrectedGenerateRun(input: GenerateInput, call: Call<Value>): (r: Value)
    ensures HasOutput(call) ==> r == call.output.value
    ensures !HasOutput(call) ==> ParseItinerary(r) == Some(CorrectedGenerationFallback(input))
  {
    if HasOutput(call) then call.output.value
    else
      ParseItineraryValue(CorrectedGenerationFallback(input));
      ItineraryValue(CorrectedGenerationFallback(input))
  }

  /** The intended fallback agrees with the written one on every field the
      written one has, and it is valid. */
  lemma CorrectedFallbackExtendsFallback(input: GenerateInput)
    ensures var c := ItineraryValue(CorrectedGenerationFallback(input));
      forall k :: k in GenerationFallback(input).fields ==> Prop(c, k) == Prop(GenerationFallback(input), k)
    ensures IsItinerary(ItineraryValue(CorrectedGenerationFallback(input)))
  {
    var c := CorrectedGenerationFallback(input);
    assert DaysValue(c.days) == Arr([]);
    ValidityIgnoresNumbering(c);
  }

  // ---------------------------------------------------------------------------
  // Suggestion

  /** The partial trip details the suggestion flow accepts; a field the user
      left empty is absent. */
  datatype SuggestInput = SuggestInput(
    destination: Option<string>,
    duration: Option<real>,
    budget: Option<string>,
    theme: Option<string>,
    numberOfTravellers: Option<real>)

  datatype Suggestion = Suggestion(
    destination: string,
    budget: string,
    duration: real,
    theme: string,
    numberOfTravellers: real)

  const DefaultDestination := "Goa, India"
  const DefaultBudget := "50000"
  const DefaultDuration: real := 7.0
  const DefaultTheme := "Beaches and Nightlife"
  const DefaultTravellers: real := 2.0

  /** JavaScript truthiness of an optional string and an optional number:
      `undefined`, the empty string and zero are falsy. */
  predicate TruthyText(x: Option<string>) {
    x.Some? && x.value != ""
  }

  predicate TruthyNumber(x: Option<real>) {
    x.Some? && x.value != 0.0
  }

  /** `x || fallback` */
  function OrText(x: Option<string>, fallback: string): (r: string)
    ensures TruthyText(x) ==> r == x.value
    ensures !TruthyText(x) ==> r == fallback
  {
    if TruthyText(x) then x.value else fallback
  }

  function OrNumber(x: Option<real>, fallback: real): (r: real)
    ensures TruthyNumber(x) ==> r == x.value
    ensures !TruthyNumber(x) ==> r == fallback
  {
    if TruthyNumber(x) then x.value else fallback
  }

  /** The suggestion returned when the provider gives none: each field taken
      from the input when it is truthy, from the defaults otherwise. */
  function SuggestFallback(input: SuggestInput): Suggestion {
    Suggestion(
      OrText(input.destination, DefaultDestination),
      OrText(input.budget, DefaultBudget),
      OrNumber(input.duration, DefaultDuration),
      OrText(input.theme, DefaultTheme),
      OrNumber(input.numberOfTravellers, DefaultTravellers))
  }

  /** `suggestTripDetailsFlow` */
  function SuggestRun(input: SuggestInput, call: Call<Suggestion>): (r: Suggestion)
    ensures call.Answered? && call.output.Some? ==> r == call.output.value
    ensures call.ProviderThrew? || call.output.None? ==> r == SuggestFallback(input)
  {
    match call
    case Answered(Some(out)) => out
    case _ => SuggestFallback(input)
  }

  lemma SuggestThrowIsLikeAbsent(input: SuggestInput)
    ensures SuggestRun(input, ProviderThrew) == SuggestRun(input, Answered(None))
  {
  }

  /** A truthy input field is kept; a missing field, an empty string or a
      zero is replaced by the default. */
  lemma SuggestFallbackKeepsTruthyInput(input: SuggestInput)
    ensures var s := SuggestFallback(input);
      && (if TruthyText(input.destination) then s.destination == input.destination.value else s.destination == DefaultDestination)
      && (if TruthyText(input.budget) then s.budget == input.budget.value else s.budget == DefaultBudget)
      && (if TruthyNumber(input.duration) then s.duration == input.duration.value else s.duration == DefaultDuration)
      && (if TruthyText(input.theme) then s.theme == input.theme.value else s.theme == DefaultTheme)
      && (if TruthyNumber(input.numberOfTravellers) then s.numberOfTravellers == input.numberOfTravellers.value
          else s.numberOfTravellers == DefaultTravellers)
  {
  }

  /** With every field missing, or every field falsy, the fallback is the
      default suggestion: every output field is defined. */
  lemma SuggestFallbackIsTotal()
    ensures SuggestFallback(SuggestInput(None, None, None, None, None))
      == Suggestion(DefaultDestination, DefaultBudget, DefaultDuration, DefaultTheme, DefaultTravellers)
    ensures SuggestFallback(SuggestInput(Some(""), Some(0.0), Some(""), Some(""), Some(0.0)))
      == Suggestion(DefaultDestination, DefaultBudget, DefaultDuration, DefaultTheme, DefaultTravellers)
  {
  }

  /** A suggestion handed back as input. */
  function AsInput(s: Suggestion): SuggestInput {
    SuggestInput(Some(s.destination), Some(s.duration), Some(s.budget), Some(s.theme), Some(s.numberOfTravellers))
  }

  /** The defaults are truthy, so every fallback result is truthy everywhere
      and the fallback applied to its own result returns it unchanged. */
  lemma SuggestFallbackIsIdempotent(input: SuggestInput)
    ensures var s := SuggestFallback(input);
      && TruthyText(Some(s.destination)) && TruthyText(Some(s.budget)) && TruthyText(Some(s.theme))
      && TruthyNumber(Some(s.duration)) && TruthyNumber(Some(s.numberOfTravellers))
    ensures SuggestFallback(AsInput(SuggestFallback(input))) == SuggestFallback(input)
  {
  }

  // ---------------------------------------------------------------------------
  // Translation and weather adjustment

  /** `translateTextFlow`: the provider's `translatedContent` unless it is
      missing or `null`, the input content otherwise. */
  function TranslateRun(content: Option<Value>, call: Call<Value>): (r: Result<Option<Value>>)
    ensures r.Threw? <==> call.ProviderThrew?
    ensures call.Answered? ==>
      r.value == Coalesce(OptionalMember(call.output, "translatedContent"), content)
  {
    match call
    case ProviderThrew => Threw
    case Answered(out) => Ok(Coalesce(OptionalMember(out, "translatedContent"), content))
  }

  /** Without a usable translation the flow hands back its input. */
  lemma TranslateFallsBackToContent(content: Option<Value>, out: Option<Value>)
    requires out.None? || out.value.Null? || Prop(out.value, "translatedContent").None?
      || Prop(out.value, "translatedContent") == Some(Null)
    ensures TranslateRun(content, Answered(out)) == Ok(content)
  {
  }

  /** `adjustItineraryBasedOnWeatherFlow`: reading `adjustedItinerary` off a
      missing output throws, so the caller sees a failure. */
  function AdjustRun(call: Call<Value>): (r: Result<Option<Value>>)
    ensures call.ProviderThrew? || call.output.None? ==> r.Threw?
    ensures call.Answered? && call.output.Some? && call.output.value.Obj? ==>
      r == Ok(Prop(call.output.value, "adjustedItinerary"))
  {
    match call
    case ProviderThrew => Threw
    case Answered(out) => Member(out, "adjustedItinerary")
  }
}
