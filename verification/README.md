# A Dafny model of the TripWise itinerary core

TripWise is a trip planner for travel within India. A form collects a destination, a
duration, a budget and travel themes, and a hosted model provider generates a day-by-day
itinerary. The itinerary can be shown translated into the interface language and adjusted
for the weather. A signed-in user can also keep bookings, either in browser storage or
through a server route backed by a document store.

This project models the deterministic logic under that glue. The provider, the store, the
clock, the token verifier and the JSON text layer are all parameters.

- `wrappers.dfy` (`Wrappers`): `Option` for values that may be `undefined`, and `Result`
  for computations that may throw (every `try … catch` is a match on it). It also has
  `Call`, one provider request: it throws, answers nothing, or answers with an output.
- `json.dfy` (`Json`): the JavaScript values the application handles. It defines property
  access (`x.k`, `x?.k`, `x[i]`), `??`, object spread, and `String(x)`. `JSON.parse`,
  `JSON.stringify` and number printing are a `Codec` parameter. Two predicates give the
  only facts assumed about it. `Json.RejectsNonJson` says that the empty text, `undefined`
  and text opening with `[o` do not parse. `ItineraryDisplay.ParsesProjections` says that
  parsing reads back the stringified translatable content, which holds only strings,
  arrays and objects.
- `strings.dfy` (`Strings`): `indexOf`, `split`, `trim`, `replace` with a string pattern,
  UTF-16 length and decimal printing, each with the facts the clients need.
- `schema.dfy` (`Schema`): the activity, day, itinerary and generation-request schemas.
  Each is a validity predicate on untyped values, a parser to a typed datatype, and an
  encoder back, with round-trip lemmas. The generation output schema *is* the itinerary
  schema, so the model uses `IsItinerary` for both. A stored booking is an itinerary with
  string `id`, `userId` and `bookingDate`, the record the bookings route writes.
- `local_bookings.dfy` (`LocalBookings`): the browser-side bookings hook. It covers the
  in-memory list, its copy under `bookings_<uid>`, `addBooking` and `deleteBooking`.
- `i18n.dfy` (`I18n`): the interface-text lookup `t`.
- `itinerary_form.dfy` (`ItineraryForm`): the form's constraints and defaults, and how a
  submission splits the themes text.
- `flows.dfy` (`Flows`): the fallbacks of the generation, suggestion, translation and
  weather flows.
- `itinerary_display.dfy` (`ItineraryDisplay`): the translated copy the itinerary view
  shows, and the weather adjustment.
- `landing_page.dfy` (`LandingPage`): the page state around one generation.
- `bookings_route.dfy` (`BookingsRoute`): the bookings server route. It covers
  bearer-token extraction, `GET` (the caller's valid records) and `POST` (storing one
  booking).

Behaviour worth knowing, which the model follows as the code has it:

- The generation fallback is meant to be a valid empty itinerary. It drops the request's start date and number of travellers, so it is not valid; see Findings.
- The suggestion fallback uses `||`, so an empty text or a zero is replaced by the default (`Flows.SuggestFallbackKeepsTruthyInput`).
- Translation sends the texts as one nested object and reads them back by position. A translation with too few days or activities throws, and the view shows the untranslated itinerary (`ItineraryDisplay.MisfitTranslationShowsOriginal`). Surplus entries are ignored (`ItineraryDisplay.ExtraDaysIgnored`).
- Bookings are listed in store order. Ordering them by booking date is the store's work and is left out.

## Model

| member | source | states |
|---|---|---|
| Json.Prop | src/components/itinerary/itinerary-display.tsx:75-82 | a property is present exactly when the value is an object holding that key |
| Json.Member | src/components/itinerary/itinerary-display.tsx:78-82 | `x.k` throws exactly on `undefined` and `null`, and otherwise reads the property |
| Json.OptionalMember | src/components/itinerary/itinerary-display.tsx:149 | `x?.k` agrees with `x.k` where that does not throw, and is `undefined` where it would |
| Json.Element | src/components/itinerary/itinerary-display.tsx:78 | `x[i]` throws exactly on `undefined` and `null`; arrays are read by position; a string has an element exactly below its UTF-16 length |
| Json.WideCharacterTakesTwoIndices | src/components/itinerary/itinerary-display.tsx:78 | a character outside the Basic Multilingual Plane occupies two string indices, the second of which is still an element |
| Json.Coalesce | src/ai/flows/translate-text.ts:54 | `a ?? b` is `a` unless `a` is `undefined` or `null`, and `b` then |
| Json.Spread | src/app/page.tsx:33-38 | `{...x}` copies an object's own properties, and nothing from `undefined` or `null`; the combination it builds is stated by `LandingPage.CombineOverrides` |
| Json.Put | src/components/itinerary/itinerary-display.tsx:73-85 | `{...m, k: x}` holds `x` at `k`, and an `undefined` `x` leaves `k` absent |
| Json.PutKeepsOthers | src/components/itinerary/itinerary-display.tsx:73-85 | every key other than `k` is present after `{...m, k: x}` exactly when it was, with the same value |
| Json.TextOf | src/app/page.tsx:31 | `String(x)`, which `JSON.parse` applies to a non-string argument: objects print as `[object Object]`, arrays as their elements joined by commas |
| Json.TextOfJs | src/components/itinerary/itinerary-display.tsx:71 | `String(x)` where `x` may be `undefined`, which prints as `undefined` |
| Json.ObjectArrayTextIsNotJson | src/app/page.tsx:31 | the text of an array of objects is empty or starts `[o`, so `JSON.parse` rejects it |
| Strings.IndexOf | src/app/api/bookings/route.ts:12 | the position of the first occurrence, and none exactly when there is no occurrence |
| Strings.IndexOfIsFirstOccurrence | src/app/api/bookings/route.ts:12 | an occurrence with none before it is the one `indexOf` finds |
| Strings.PrefixBeforeFirstOccurrence | src/app/api/bookings/route.ts:12 | the text before the first occurrence holds no occurrence |
| Strings.Split | src/components/itinerary-form.tsx:51 | `split(',')` yields at least one piece |
| Strings.SplitPiecesAvoidSeparator | src/components/itinerary-form.tsx:51 | no piece holds the separator |
| Strings.JoinSplit | src/components/itinerary-form.tsx:51 | joining the pieces with the separator gives back the text |
| Strings.SplitWithoutSeparator | src/components/itinerary-form.tsx:51 | a text without the separator is its own single piece |
| Strings.SplitOnSeparator | src/components/itinerary-form.tsx:51 | splitting `a,b` gives the pieces of `a`, then those of `b` |
| Strings.Trim | src/components/itinerary-form.tsx:51 | the trimmed text neither starts nor ends with whitespace |
| Strings.TrimEmptyIffBlank | src/components/itinerary-form.tsx:51 | trimming leaves nothing exactly when the text is all whitespace |
| Strings.TrimKeepsCharacters | src/components/itinerary-form.tsx:51 | trimming adds no character |
| Strings.TrimOfTrimmed | src/components/itinerary-form.tsx:51 | a text without whitespace at either end is its own trim |
| Strings.Utf16Length | src/components/itinerary-form.tsx:26-29 | the length counts each character once, or twice outside the Basic Multilingual Plane |
| Strings.CodeUnitAtNarrow | src/components/itinerary/itinerary-display.tsx:78 | in a text with no character outside the Basic Multilingual Plane, the code unit at index `i` is the `i`-th character |
| Strings.DecimalString | src/hooks/use-bookings.ts:42 | the decimal numeral of a time is non-empty digits, without a leading zero except for 0 |
| Strings.DecimalRoundTrip | src/hooks/use-bookings.ts:42 | reading the numeral back gives the number |
| Strings.DecimalStringInjective | src/hooks/use-bookings.ts:42 | two times print the same exactly when they are equal |
| Strings.ReplaceFirst | src/hooks/use-translation.ts:17 | `replace` with a string pattern changes nothing without an occurrence, and otherwise keeps the text around the first occurrence |
| Strings.Substitute | src/hooks/use-translation.ts:17 | the replacement text with its `$$`, `$&`, `` $` `` and `$'` patterns expanded, as `replace` with a string pattern does |
| Strings.ReplaceFirstLiteral | src/hooks/use-translation.ts:17 | with no `$` in the replacement, the first occurrence is replaced by it, and nothing else changes |
| Schema.ParseCoordinates | src/lib/types.ts:8 | coordinates are accepted exactly when `lat` and `lng` are numbers, and read from those fields |
| Schema.ParseActivity | src/lib/types.ts:3-9 | an activity is valid exactly when its two texts are strings, `travelTime` and `cost` are strings or absent, and `coordinates` is absent or valid; the parsed activity is what the value describes |
| Schema.ParseActivities | src/lib/types.ts:14 | a list is accepted exactly when every element is a valid activity |
| Schema.ParseDay | src/lib/types.ts:11-15 | a day is valid exactly when `day` is a number, `title` a string and every activity valid, an empty list included |
| Schema.ParseDays | src/lib/types.ts:23 | a day list is accepted exactly when every element is a valid day |
| Schema.ParseItinerary | src/lib/types.ts:17-24 | an itinerary is valid exactly when its six fields have their types and every day is valid; the parse is the itinerary the value describes |
| Schema.ParseBooking | src/app/api/bookings/route.ts:65-70 | a stored booking is valid exactly when it is a valid itinerary with string `id`, `userId` and `bookingDate` |
| Schema.ItineraryValueDescribes | src/lib/types.ts:17-24 | encoding an itinerary gives a value describing it |
| Schema.DescribedItineraryIsValid | src/lib/types.ts:17-24 | every value describing an itinerary is valid |
| Schema.DescribesItineraryUnique | src/lib/types.ts:17-24 | a value describes at most one itinerary |
| Schema.ParseItineraryValue | src/lib/types.ts:17-24 | validating an encoded itinerary gives it back |
| Schema.ParsedItineraryIsDescribed | src/lib/types.ts:17-24 | the parse of a value is the itinerary it describes |
| Schema.ValidityIgnoresNumbering | src/lib/types.ts:12 | every itinerary encodes to a valid value, whatever its day numbers and duration |
| Schema.OddNumberingIsValid | src/lib/types.ts:20-23 | two days both numbered 7 under a duration of 1 pass, and so does an empty day list |
| Schema.ParseBookingValue | src/app/api/bookings/route.ts:65-70 | a stored booking survives encoding and validation |
| Schema.BookingIsItinerary | src/app/api/bookings/route.ts:62-70 | a valid booking record is a valid itinerary, and it is the booking's trip |
| Schema.ParseStrings | src/lib/types.ts:31 | a list is accepted exactly when every element is a string |
| Schema.ParseGenerateInput | src/lib/types.ts:26-33 | a request is valid exactly when its fields have their types and the themes are strings, and the parse reads those fields |
| Schema.ParseGenerateInputValue | src/lib/types.ts:26-33 | every request survives encoding and validation |
| Schema.GenerateInputNeedsAll | src/lib/types.ts:28-32 | a request without its start date, number of travellers or themes is invalid |
| LocalBookings.Load | src/hooks/use-bookings.ts:14-18 | the user's stored list, or the empty list when nothing is stored under `bookings_<uid>`; stated by `LocalBookings.LoadMissingIsEmpty` and `LocalBookings.SaveThenLoad` |
| LocalBookings.Save | src/hooks/use-bookings.ts:20-23 | the list stored under `bookings_<uid>`; stated by `LocalBookings.SaveThenLoad` |
| LocalBookings.BookingId | src/hooks/use-bookings.ts:42 | the id `destination-millis`; stated by `LocalBookings.BookingIdDeterminesTime` |
| LocalBookings.StorageKeyInjective | src/hooks/use-bookings.ts:16 | two users share a storage key exactly when they are the same user |
| LocalBookings.LoadMissingIsEmpty | src/hooks/use-bookings.ts:16-17 | a user with nothing stored reads back an empty list |
| LocalBookings.SaveThenLoad | src/hooks/use-bookings.ts:14-23 | a saved list loads back, and other users' lists are untouched |
| LocalBookings.BookingIdDeterminesTime | src/hooks/use-bookings.ts:42 | for one destination, two ids are equal exactly when the times are |
| LocalBookings.OnUserChange | src/hooks/use-bookings.ts:30-35 | a signed-in user's list is loaded from storage (empty when missing), and signing out keeps the list |
| LocalBookings.AddBooking | src/hooks/use-bookings.ts:37-50 | with no user nothing changes; otherwise exactly one booking is appended after the unchanged earlier ones, carrying the itinerary, the id `destination-time`, the time and `Confirmed`, and storage holds the new list |
| LocalBookings.WithoutId | src/hooks/use-bookings.ts:54 | `filter(b => b.id !== id)`; stated by `LocalBookings.WithoutIdCounts` and `LocalBookings.WithoutIdDistributes` |
| LocalBookings.WithoutIdCounts | src/hooks/use-bookings.ts:54 | the filter keeps each booking with another id as often as it occurs, and none with this id |
| LocalBookings.WithoutIdDistributes | src/hooks/use-bookings.ts:54 | filtering a concatenation filters each part: order is kept |
| LocalBookings.WithoutAbsentId | src/hooks/use-bookings.ts:54 | filtering out an id no booking has changes nothing |
| LocalBookings.DeleteBooking | src/hooks/use-bookings.ts:52-57 | with no user nothing changes; otherwise the list loses the bookings with that id, and storage holds the new list |
| LocalBookings.DeleteAbsentIsNoOp | src/hooks/use-bookings.ts:54 | deleting an absent id leaves the list unchanged |
| LocalBookings.DeleteIsIdempotent | src/hooks/use-bookings.ts:54 | deleting twice is deleting once |
| LocalBookings.SameMillisecondShareId | src/hooks/use-bookings.ts:42-54 | two bookings of one destination in one millisecond, made in successive renders, share an id, and one delete removes both |
| LocalBookings.AddTwiceInOneRender | src/hooks/use-bookings.ts:37-50 | two adds from one render both build on that render's list: only the second booking is appended, and storage holds the same list as memory |
| LocalBookings.SameRenderLosesFirstBooking | src/hooks/use-bookings.ts:37-50 | of two distinct new bookings added from one render the first is lost, whereas successive renders keep it |
| LocalBookings.StoredListMatchesMemory | src/hooks/use-bookings.ts:49-56 | after an add or a delete, reloading from storage gives the list in memory |
| I18n.ChooseTable | src/hooks/use-translation.ts:11-12 | the language's table, or the English one when the language has none |
| I18n.Lookup | src/hooks/use-translation.ts:13 | the entry, or the key itself when the entry is missing or empty |
| I18n.Translate | src/hooks/use-translation.ts:10-22 | without replacements, the looked-up text is returned unchanged |
| I18n.UnknownKeyFallsBackToKey | src/hooks/use-translation.ts:12-13 | with no table for the language and no English entry, the key comes back |
| I18n.OnlyFirstPlaceholderReplaced | src/hooks/use-translation.ts:17 | a replacement substitutes the first `{name}` only |
| I18n.AbsentPlaceholderKeepsText | src/hooks/use-translation.ts:17 | a placeholder that does not occur leaves the text unchanged |
| I18n.ApplyReplacements | src/hooks/use-translation.ts:15-19 | each replacement in turn replaces the first `{name}` of the current text; stated by `I18n.ReplacementsCompose` |
| I18n.ReplacementsCompose | src/hooks/use-translation.ts:16-18 | replacements apply one after another, each to the text the earlier ones produced |
| I18n.InsertedPlaceholderIsReplacedLater | src/hooks/use-translation.ts:16-18 | a value that inserts `{b}` has it replaced by a later replacement for `b` |
| I18n.RepeatedPlaceholderReplacedOnce | src/hooks/use-translation.ts:17 | in `{n}/{n}` only the first `{n}` is replaced |
| ItineraryForm.Accepts | src/components/itinerary-form.tsx:25-30 | the form schema: a destination of at least 2 UTF-16 units, a whole duration of at least 1, a non-empty budget, a themes text of at least 2 units |
| ItineraryForm.SplitThemes | src/components/itinerary-form.tsx:51 | `split(',').map(trim).filter(Boolean)`; stated by `ItineraryForm.ThemesAreTrimmedPieces`, `ItineraryForm.ThemesOfSeparated` and `ItineraryForm.ThemesOfSingle` |
| ItineraryForm.MapNonEmptyAll | src/components/itinerary-form.tsx:51 | every survivor of map-then-filter is a non-empty image |
| ItineraryForm.MapNonEmptyDistributes | src/components/itinerary-form.tsx:51 | map-then-filter of a concatenation handles each part in turn |
| ItineraryForm.ThemesAreTrimmedPieces | src/components/itinerary-form.tsx:51 | no theme is empty, has whitespace at either end, or holds a comma |
| ItineraryForm.ThemesOfSeparated | src/components/itinerary-form.tsx:51 | the themes of `a,b` are those of `a` followed by those of `b` |
| ItineraryForm.ThemesOfSingle | src/components/itinerary-form.tsx:51 | a text without commas yields its trim, or nothing when that is empty |
| ItineraryForm.HandleSubmit | src/components/itinerary-form.tsx:25-53 | a submission happens exactly when the constraints hold; it passes destination, duration and budget through and splits the themes |
| ItineraryForm.AcceptsLongEnough | src/components/itinerary-form.tsx:26-29 | counting characters is enough to pass the length checks |
| ItineraryForm.DefaultsAreAccepted | src/components/itinerary-form.tsx:40-45 | the default values pass the constraints |
| ItineraryForm.JoinedThemesRoundTrip | src/components/itinerary-form.tsx:51 | theme names written out with `, ` come back as they were, in order |
| ItineraryForm.DefaultThemes | src/components/itinerary-form.tsx:44-51 | the default themes text yields its five themes in order |
| ItineraryForm.CommasOnlyYieldNoThemes | src/components/itinerary-form.tsx:29-51 | `,,` passes the constraints yet yields no theme |
| Flows.GenerationFallback | src/ai/flows/generate-personalized-itinerary.ts:68-73 | the request's destination, duration and budget with an empty day list; stated by `Flows.GenerationFallbackEchoesRequest` |
| Flows.GenerateRun | src/ai/flows/generate-personalized-itinerary.ts:63-86 | a truthy provider output is returned unchanged; a missing or falsy output (`null`, `false`, 0, `""`), or a throw, gives the fallback |
| Flows.GenerateThrowIsLikeAbsent | src/ai/flows/generate-personalized-itinerary.ts:66-85 | a throwing provider, one without output and one with a falsy output all give the same result |
| Flows.GenerationFallbackEchoesRequest | src/ai/flows/generate-personalized-itinerary.ts:68-73 | the fallback has the request's destination, duration and budget, and no days, whatever the duration |
| Flows.GenerationFallbackIsNotValid | src/ai/flows/generate-personalized-itinerary.ts:67-73 | the fallback lacks `startDate` and `numberOfTravellers` and fails the itinerary check |
| Flows.CorrectedGenerateRun | src/ai/flows/generate-personalized-itinerary.ts:63-86 | with the intended fallback, a truthy output is returned unchanged, and otherwise the result is a valid itinerary: the request's trip with no days |
| Flows.CorrectedFallbackExtendsFallback | src/ai/flows/generate-personalized-itinerary.ts:68-73 | the intended fallback agrees with the written one on every field that one has, and is valid |
| Flows.OrText | src/ai/flows/suggest-trip-details.ts:80-83 | `x \|\| d` is `x` when it is truthy, and `d` otherwise |
| Flows.OrNumber | src/ai/flows/suggest-trip-details.ts:82-84 | `x \|\| d` is `x` when it is neither missing nor zero, and `d` otherwise |
| Flows.SuggestFallback | src/ai/flows/suggest-trip-details.ts:79-85 | each field is the input's when truthy and the default otherwise; stated by `Flows.SuggestFallbackKeepsTruthyInput` |
| Flows.SuggestRun | src/ai/flows/suggest-trip-details.ts:74-98 | the provider's output is returned unchanged; without one, or on a throw, the fallback |
| Flows.SuggestThrowIsLikeAbsent | src/ai/flows/suggest-trip-details.ts:78-97 | a throwing provider gives what a provider without output gives |
| Flows.SuggestFallbackKeepsTruthyInput | src/ai/flows/suggest-trip-details.ts:80-84 | each field is the input when truthy, and the default (`Goa, India`, `50000`, 7, `Beaches and Nightlife`, 2) otherwise |
| Flows.SuggestFallbackIsTotal | src/ai/flows/suggest-trip-details.ts:80-96 | with every field missing, or every field empty or zero, the result is the default suggestion |
| Flows.SuggestFallbackIsIdempotent | src/ai/flows/suggest-trip-details.ts:80-84 | every fallback field is truthy, so the fallback of a fallback is itself |
| Flows.TranslateRun | src/ai/flows/translate-text.ts:51-55 | the flow throws exactly when the provider does, and otherwise returns the translation unless it is missing or `null` |
| Flows.TranslateFallsBackToContent | src/ai/flows/translate-text.ts:54 | without a usable translation, the input content comes back |
| Flows.AdjustRun | src/ai/flows/adjust-itinerary-based-on-weather.ts:57-60 | a missing output makes the flow throw; otherwise it returns the output's `adjustedItinerary` |
| ItineraryDisplay.Projection | src/components/itinerary/itinerary-display.tsx:55-64 | the translatable content: the destination, and per day the title and each activity's place name and description |
| ItineraryDisplay.TranslatedActivity | src/components/itinerary/itinerary-display.tsx:79-83 | the activity with its two texts read from the translation at the same position; stated by `ItineraryDisplay.TranslatedActivityKeepsSkeleton` |
| ItineraryDisplay.TranslatedDay | src/components/itinerary/itinerary-display.tsx:76-84 | the day with its title and activities read from the translation at the same position; stated by `ItineraryDisplay.TranslatedDayKeepsSkeleton` |
| ItineraryDisplay.Reconstruct | src/components/itinerary/itinerary-display.tsx:73-85 | the itinerary with its texts read positionally from the translation; stated by `ItineraryDisplay.ReconstructKeepsSkeleton` and `ItineraryDisplay.ReconstructOwnProjection` |
| ItineraryDisplay.TranslationOf | src/components/itinerary/itinerary-display.tsx:66-69 | the translation flow's answer for the stringified translatable content |
| ItineraryDisplay.DisplayedCopy | src/components/itinerary/itinerary-display.tsx:46-98 | in English, or when the translation throws, the view shows the itinerary itself; outside English, a translation that parses and reconstructs is what the view shows; any other shown copy is the itinerary itself |
| ItineraryDisplay.TranslatedCopyIsShown | src/components/itinerary/itinerary-display.tsx:66-86 | outside English, a provider answering with the JSON texts of a same-shaped itinerary makes the view show that itinerary |
| ItineraryDisplay.MisfitTranslationShowsOriginal | src/components/itinerary/itinerary-display.tsx:71-91 | a translation that does not parse, or that the reconstruction cannot read, leaves the itinerary itself shown |
| ItineraryDisplay.TranslatedActivityKeepsSkeleton | src/components/itinerary/itinerary-display.tsx:79-83 | a translated activity keeps travel time, cost and coordinates, and takes its two texts from the translation |
| ItineraryDisplay.TranslatedDayKeepsSkeleton | src/components/itinerary/itinerary-display.tsx:76-84 | a translated day keeps its number and activity count, and takes its title from the translation |
| ItineraryDisplay.ReconstructKeepsSkeleton | src/components/itinerary/itinerary-display.tsx:73-85 | a reconstruction keeps the day count, each day's activity count, the day numbers, and every top-level field but the destination |
| ItineraryDisplay.ReconstructTakesTextsByPosition | src/components/itinerary/itinerary-display.tsx:75-82 | destination, title, place name and description come from the translation's entry at the same position |
| ItineraryDisplay.MissingDayThrows | src/components/itinerary/itinerary-display.tsx:78-91 | a translation with fewer days than the itinerary makes the reconstruction throw |
| ItineraryDisplay.MissingActivityThrows | src/components/itinerary/itinerary-display.tsx:79-91 | a translated day with fewer activities than the itinerary's day makes the reconstruction throw |
| ItineraryDisplay.TranslatedDayReadsOwnEntry | src/components/itinerary/itinerary-display.tsx:76-84 | a translated day depends only on the translation's entry at its own position |
| ItineraryDisplay.ExtraDaysIgnored | src/components/itinerary/itinerary-display.tsx:76 | surplus days in the translation do not change the reconstruction |
| ItineraryDisplay.TranslatedActivityOfProjection | src/components/itinerary/itinerary-display.tsx:59-83 | an activity rebuilt from the texts of a same-shaped itinerary is that itinerary's activity |
| ItineraryDisplay.TranslatedDayOfProjection | src/components/itinerary/itinerary-display.tsx:57-84 | a day rebuilt from the texts of a same-shaped itinerary is that itinerary's day |
| ItineraryDisplay.ReconstructOfProjection | src/components/itinerary/itinerary-display.tsx:55-85 | rebuilding from the texts of a same-shaped itinerary yields that itinerary |
| ItineraryDisplay.ReconstructOwnProjection | src/components/itinerary/itinerary-display.tsx:55-85 | rebuilding from an itinerary's own untranslated texts returns it |
| ItineraryDisplay.DisplayedCopyKeepsSkeleton | src/components/itinerary/itinerary-display.tsx:46-98 | whatever the language and the provider, the shown copy keeps the itinerary's skeleton |
| ItineraryDisplay.UntranslatedShowsOriginal | src/components/itinerary/itinerary-display.tsx:54-86 | when the provider returns nothing, the content comes back and the view shows the itinerary itself, for any codec that reads back the stringified content |
| ItineraryDisplay.ObjectTranslationShowsOriginal | src/components/itinerary/itinerary-display.tsx:71-91 | a translation that is an object, not text, fails to parse, and the view reverts to the original |
| ItineraryDisplay.AdjustAnswer | src/components/itinerary/itinerary-display.tsx:143-144 | a throwing provider, or one without output, makes the adjustment fail; otherwise it succeeds exactly when the text of `adjustedItinerary` parses, and yields the parsed value |
| ItineraryDisplay.MergeDays | src/components/itinerary/itinerary-display.tsx:147-150 | the merge succeeds exactly when every day merges; it keeps the day count and merges each day at its own position |
| ItineraryDisplay.WeatherAdjust | src/components/itinerary/itinerary-display.tsx:139-167 | a failed provider leaves the page's itinerary as it was; the itinerary is replaced exactly when the answer parses, every shown day merges, and the shown copy with the merged days validates |
| ItineraryDisplay.MergeDay | src/components/itinerary/itinerary-display.tsx:147-150 | `{...day, activities: answer[i]?.activities ?? day.activities}`; stated by `ItineraryDisplay.MergeDayReplacesActivitiesOnly` |
| ItineraryDisplay.MergeDayReplacesActivitiesOnly | src/components/itinerary/itinerary-display.tsx:147-150 | merging changes only `activities`: the answer's entry at that index when it has non-null activities, and the old ones otherwise (no entry, or an entry whose activities are missing or `null`) |
| ItineraryDisplay.MergeDayWithoutEntry | src/components/itinerary/itinerary-display.tsx:149 | a day with no entry in the answer is unchanged |
| ItineraryDisplay.WeatherAdjustDescribes | src/components/itinerary/itinerary-display.tsx:152-160 | a stored result is the shown copy with its days replaced by the merged days, validated |
| ItineraryDisplay.EmptyAnswerStoresShownCopy | src/components/itinerary/itinerary-display.tsx:147-160 | an empty answer stores the shown copy itself as the page's itinerary |
| ItineraryDisplay.WeatherAdjustStoresTranslation | src/components/itinerary/itinerary-display.tsx:142-160 | when the view shows a translated copy, an empty answer stores the translated texts as the page's itinerary |
| ItineraryDisplay.CorrectedWeatherAdjust | src/components/itinerary/itinerary-display.tsx:139-167 | merging from the page's own itinerary, a failed provider changes nothing; the itinerary is replaced exactly when the answer parses, every day merges, and the merged itinerary validates |
| ItineraryDisplay.CorrectedWeatherAdjustKeepsTexts | src/components/itinerary/itinerary-display.tsx:147-155 | the corrected merge keeps every top-level field, the day count, and each day's number and title |
| ItineraryDisplay.MergeKeepsDayNumberAndTitle | src/components/itinerary/itinerary-display.tsx:147-150 | a merged day keeps its number and title |
| ItineraryDisplay.CorrectedEmptyAnswerKeepsOriginal | src/components/itinerary/itinerary-display.tsx:147-160 | with the corrected merge, an empty answer leaves the original itinerary in place |
| LandingPage.Begin | src/app/page.tsx:27-28 | starting a generation sets loading and clears the itinerary |
| LandingPage.SubmissionValue | src/app/page.tsx:21-30 | the form's data as the page passes it to the generation action: destination, duration, budget and themes |
| LandingPage.Combine | src/app/page.tsx:33-38 | the form's three fields, overridden by the response's keys; stated by `LandingPage.CombineOverrides` |
| LandingPage.SubmissionIsNotGenerateInput | src/app/page.tsx:21-30 | the form's data has no start date or number of travellers, so it is not a valid generation request |
| LandingPage.CombineOverrides | src/app/page.tsx:33-38 | the combined data has the form's three fields and the response's keys, and a response key overrides the form's |
| LandingPage.AiResponse | src/app/page.tsx:30-31 | a failed action fails; otherwise the attempt continues exactly when the text of `result.itinerary` parses |
| LandingPage.Attempt | src/app/page.tsx:29-41 | an attempt succeeds exactly when the response parses and the combined data is a valid itinerary, and then yields the itinerary it describes |
| LandingPage.SuccessNeedsResponseFields | src/app/page.tsx:21-40 | success needs the response to supply `startDate` and `numberOfTravellers` |
| LandingPage.Finish | src/app/page.tsx:41-51 | loading ends after every attempt; the itinerary is set only on success |
| LandingPage.HandleGeneration | src/app/page.tsx:21-52 | after a generation the page is not loading, and holds an itinerary exactly when the attempt succeeded |
| LandingPage.GenerationForgetsPrevious | src/app/page.tsx:28-48 | the outcome does not depend on the previous state, and a failed attempt leaves the page empty |
| LandingPage.ViewsAroundGeneration | src/app/page.tsx:80-95 | while loading only the spinner shows; afterwards the itinerary shows exactly when one is held, and the placeholder exactly when none is |
| LandingPage.ValidDaysAreObjects | src/lib/types.ts:23 | the day list of a valid itinerary is an array of objects |
| LandingPage.DayListTextNeverParses | src/app/page.tsx:31 | when the response's day list is an array of objects, `JSON.parse` of its text throws, and so does the attempt |
| LandingPage.GeneratedItineraryIsNeverShown | src/app/page.tsx:30-48 | whether the provider throws, answers nothing, or answers with an output of the declared itinerary schema, the page ends holding no itinerary (an answered output outside that schema is not covered) |
| LandingPage.CorrectedAttempt | src/app/page.tsx:29-41 | combining the action's answer directly, an attempt succeeds exactly when the combined data is valid |
| LandingPage.CorrectedHandleGeneration | src/app/page.tsx:21-52 | with the corrected attempt, the page holds an itinerary exactly when the attempt succeeds |
| LandingPage.CorrectedAttemptShowsValidAnswer | src/app/page.tsx:33-41 | a valid answer is shown as it is |
| LandingPage.CorrectedFallbackIsShown | src/app/page.tsx:30-41 | with the intended generation fallback, a provider that throws or gives no truthy output still leaves the requested trip shown with no days |
| BookingsRoute.BearerToken | src/app/api/bookings/route.ts:11-12 | a token exists exactly when the header starts with `Bearer `; it follows that prefix and holds no further `Bearer ` |
| BookingsRoute.NoOccurrenceAcrossPrefix | src/app/api/bookings/route.ts:12 | no `Bearer ` starts inside a token that has none and runs into a following `Bearer ` |
| BookingsRoute.BearerTokenOfHeader | src/app/api/bookings/route.ts:11-12 | the token is read back from `Bearer <token>`, alone or followed by another `Bearer ` |
| BookingsRoute.UserIdFromToken | src/app/api/bookings/route.ts:9-22 | no user without a token; otherwise the verifier's answer, with none when verification fails |
| BookingsRoute.UserRecords | src/app/api/bookings/route.ts:31-34 | the query yields only the caller's records |
| BookingsRoute.UserRecordsCounts | src/app/api/bookings/route.ts:31-34 | the query yields every record of the caller as often as it is stored, and no other record |
| BookingsRoute.CheckBooking | src/app/api/bookings/route.ts:39 | a record is accepted exactly when it is a valid booking, and yields that booking |
| BookingsRoute.KeepChecked | src/app/api/bookings/route.ts:36-45 | the `forEach` loop pushing each record that `safeParse` accepts; stated by `BookingsRoute.KeepCheckedContains` and `BookingsRoute.KeepCheckedDistributes` |
| BookingsRoute.KeepCheckedContains | src/app/api/bookings/route.ts:36-45 | a value is pushed exactly when the check yields it for some record |
| BookingsRoute.KeepCheckedDistributes | src/app/api/bookings/route.ts:36-45 | checking a concatenation checks each part in turn |
| BookingsRoute.KeepCheckedAll | src/app/api/bookings/route.ts:36-45 | whatever holds of every accepted output holds of every kept record |
| BookingsRoute.ValidBookings | src/app/api/bookings/route.ts:36-45 | the records that pass the booking check, as it yields them; stated by `BookingsRoute.ValidBookingsAreBookings` and `BookingsRoute.ValidBookingsSingle` |
| BookingsRoute.ValidBookingsAreBookings | src/app/api/bookings/route.ts:36-45 | every record kept passes the booking check |
| BookingsRoute.UserRecordsDistributes | src/app/api/bookings/route.ts:31-34 | the query over a concatenation queries each part in turn |
| BookingsRoute.ValidBookingsDistributes | src/app/api/bookings/route.ts:36-45 | the check keeps store order |
| BookingsRoute.ValidBookingsSingle | src/app/api/bookings/route.ts:39-44 | one record is kept, as its booking, exactly when it is valid; otherwise it is skipped |
| BookingsRoute.ValidBookingsOfEncoded | src/app/api/bookings/route.ts:36-72 | stored bookings come back as they were stored |
| BookingsRoute.Get | src/app/api/bookings/route.ts:24-52 | 401 without a user; 500 when the query fails; 200 exactly when there is a user and the query succeeds |
| BookingsRoute.GetReturnsOwnValidBookings | src/app/api/bookings/route.ts:31-47 | every returned record is a valid booking of the caller |
| BookingsRoute.KeptOwnRecords | src/app/api/bookings/route.ts:31-45 | a value is kept from the user's records exactly when the check yields it for one of that user's stored records |
| BookingsRoute.GetListsOwnValidBookings | src/app/api/bookings/route.ts:24-47 | a value is in the 200 body exactly when it is the checked form of a stored record of the caller that passes the booking check |
| BookingsRoute.OwnRecordsStayOwn | src/app/api/bookings/route.ts:32-45 | a record kept from one user's records belongs to that user |
| BookingsRoute.Post | src/app/api/bookings/route.ts:54-80 | 401 without a user; success exactly when there is a user, the body is a valid itinerary and the write succeeds, and then one record is appended; otherwise nothing is stored |
| BookingsRoute.PostThenGet | src/app/api/bookings/route.ts:24-80 | after a successful POST, the caller's GET lists what it listed before, followed by the new booking |

## Left out

- JSON text: `JSON.parse`, `JSON.stringify` and number printing are a parameter. Only the facts the `Json.RejectsNonJson` and `ItineraryDisplay.ParsesProjections` predicates state are used.
- Json.Truthy: `NaN` is not a value here, so zero is the only falsy number. A suggestion output is an object and always truthy, so `Flows.SuggestRun` falls back only when there is no output.
- The provider calls and their prompt texts are a parameter (`Call`). So is the request text each call receives: the translated content sent at src/components/itinerary/itinerary-display.tsx:67, and the day list sent at :142.
- The schema library's own checks of flow inputs and outputs are left out. This covers its coercion of numeric text (`z.coerce`), `NaN`, and the order of object keys.
- Firebase is left out: token verification (a function parameter), document ids, the clock, and `revalidatePath`.
- BookingsRoute.Get: records come back in store order, not ordered by `bookingDate` descending, because that ordering is done by the store.
- BookingsRoute.CheckBooking: the route validates against a booking schema that src/lib/types.ts never defines. The check used here is the itinerary check plus string `id`, `userId` and `bookingDate`, the fields the route's POST writes.
- BookingsRoute.Post: a body that is not JSON is an absent body, and any write failure is one flag.
- Json.Spread: only objects contribute properties. The index keys that spreading an array or a string would add never name a field of these schemas.
- LocalBookings.Load: storage holds each user's decoded list. The JSON round trip through local storage is taken to be exact, and the server-side rendering guard (`typeof window`) is left out.
- LocalBookings.OnUserChange: the hook's `loading` flag is left out.
- LocalBookings.AddBooking: each call is taken to see the list left by the previous call, that is, calls separated by a re-render. Calls from one render, whose closures share that render's list, are modelled separately by `LocalBookings.AddTwiceInOneRender`; the same holds for `DeleteBooking`, which is only modelled across renders.
- Json.Element: reading a string at the second half of a surrogate pair gives the empty text, since a `char` is a Unicode scalar value and cannot hold half a pair; the index range and the defined/undefined split follow UTF-16.
- ItineraryDisplay.DisplayedCopy: the `isTranslating` flag, toasts, and the view's re-run when its inputs change are left out.
- I18n.Translate: the translation tables (src/lib/translations) are not part of this model. Replacement values are given already converted to text, in the order `Object.keys` lists them.
- Strings.Utf16Length: a character is a Unicode scalar value, so lone surrogates cannot occur.
- The landing page's toasts, the suggestion form that calls the suggestion flow, and all rendering beyond the three view predicates are left out.
- The UI components, the map and export views, and the mock booking action are outside this core and are not modelled.

## Findings

| source | as written | input that shows it | evidently intended | confidence | as-written member | corrected member |
|---|---|---|---|---|---|---|
| src/ai/flows/generate-personalized-itinerary.ts:67-84 | the fallback has only destination, duration, budget and an empty day list | any request while the provider throws, e.g. destination `Goa`, start date `2025-03-01`, 2 travellers | a valid itinerary with no days, as the comment at line 67 says; it needs the request's start date and number of travellers | not executed | Flows.GenerationFallbackIsNotValid | Flows.CorrectedGenerateRun |
| src/app/page.tsx:31 | `JSON.parse(result.itinerary)`, where `itinerary` is already an array of day objects | any valid generated itinerary with one day: its text is `[object Object]`; and the fallback's empty list, whose text is empty | combine `result` itself with the form data | not executed | LandingPage.GeneratedItineraryIsNeverShown | LandingPage.CorrectedAttempt |
| src/components/itinerary/itinerary-display.tsx:142-160 | the weather merge starts from the displayed, possibly translated, copy and stores its result as the page's itinerary | a Hindi view of an itinerary, with the provider answering an empty list: the translated texts replace the originals | merge from the page's own itinerary, so the texts stay in their original language | not executed | ItineraryDisplay.WeatherAdjustStoresTranslation | ItineraryDisplay.CorrectedWeatherAdjust |
