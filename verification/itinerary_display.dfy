/** The itinerary view: the copy it displays (the itinerary itself in English,
    otherwise the itinerary with its texts replaced by a translation), and the
    weather adjustment, which merges the provider's activities into the
    displayed copy and, when the result validates, makes it the page's
    itinerary. JSON text is handled by a `Codec`; the provider calls are
    parameters. */
module ItineraryDisplay {
  import opened Wrappers
  import opened Strings
  import opened Json
  import opened Schema
  import opened Flows

  // ---------------------------------------------------------------------------
  // Translation

  /** The part of an activity that is sent for translation. */
  function ActivityProjection(a: Activity): Value {
    Obj(map["placeName" := Str(a.placeName), "description" := Str(a.description)])
  }

  function DayProjection(d: Day): Value {
    Obj(map[
      "title" := Str(d.title),
      "activities" := Arr(seq(|d.activities|, j requires 0 <= j < |d.activities| => ActivityProjection(d.activities[j])))])
  }

  /** The translatable content: the destination, and per day the title and
      the place names and descriptions of its activities. */
  function Projection(it: Itinerary): Value {
    Obj(map[
      "destination" := Str(it.destination),
      "itinerary" := Arr(seq(|it.days|, i requires 0 <= i < |it.days| => DayProjection(it.days[i])))])
  }

  /** `translated.itinerary[i]` */
  function DayAt(t: Value, i: nat): Result<Option<Value>> {
    var days :- Member(Some(t), "itinerary");
    Element(days, i)
  }

  /** `translated.itinerary[i].activities[j]` */
  function ActivityAt(t: Value, i: nat, j: nat): Result<Option<Value>> {
    var day :- DayAt(t, i);
    var activities :- Member(day, "activities");
    Element(activities, j)
  }

  /** `translated.itinerary[i][key]` */
  function DayText(t: Value, i: nat, key: string): Result<Option<Value>> {
    var day :- DayAt(t, i);
    Member(day, key)
  }

  /** `translated.itinerary[i].activities[j][key]` */
  function ActivityText(t: Value, i: nat, j: nat, key: string): Result<Option<Value>> {
    var activity :- ActivityAt(t, i, j);
    Member(activity, key)
  }

  /** The activity at position (i, j) with its place name and description
      taken from the same position of the translation. */
  function TranslatedActivity(a: Activity, t: Value, i: nat, j: nat): Result<Value> {
    var place :- ActivityText(t, i, j, "placeName");
    var description :- ActivityText(t, i, j, "description");
    Ok(Obj(Put(Put(Spread(Some(ActivityValue(a))), "placeName", place), "description", description)))
  }

  /** Day i with its title, and each of its activities, taken from the same
      position of the translation. */
  function TranslatedDay(d: Day, t: Value, i: nat): Result<Value> {
    var title :- DayText(t, i, "title");
    if forall j :: 0 <= j < |d.activities| ==> TranslatedActivity(d.activities[j], t, i, j).Ok? then
      var activities := seq(|d.activities|, j requires 0 <= j < |d.activities| => TranslatedActivity(d.activities[j], t, i, j).value);
      Ok(Obj(Put(Spread(Some(DayValue(d))), "title", title)["activities" := Arr(activities)]))
    else Threw
  }

  /** The itinerary with its texts read positionally from the parsed
      translation; reading a text from a missing position throws. */
  function Reconstruct(it: Itinerary, t: Value): Result<Value> {
    var destination :- Member(Some(t), "destination");
    if forall i :: 0 <= i < |it.days| ==> TranslatedDay(it.days[i], t, i).Ok? then
      var days := seq(|it.days|, i requires 0 <= i < |it.days| => TranslatedDay(it.days[i], t, i).value);
      Ok(Obj(Put(Spread(Some(ItineraryValue(it))), "destination", destination)["itinerary" := Arr(days)]))
    else Threw
  }

  /** The text the translation flow hands back for the itinerary. */
  function TranslationOf(it: Itinerary, call: Call<Value>, codec: Codec): Result<Option<Value>> {
    TranslateRun(Some(Str(codec.stringify(Projection(it)))), call)
  }

  /** `shown` is the reconstruction from a translation that parsed. */
  predicate ReconstructedFromTranslation(it: Itinerary, shown: Value, call: Call<Value>, codec: Codec) {
    && TranslationOf(it, call, codec).Ok?
    && var t := codec.parse(TextOfJs(TranslationOf(it, call, codec).value, codec.numberText));
       t.Some? && Reconstruct(it, t.value) == Ok(shown)
  }

  /** The copy the view displays for `language`: the itinerary itself in
      English; otherwise the reconstruction from the translation, or the
      itinerary itself when translating, parsing or reconstructing fails. */
  function DisplayedCopy(it: Itinerary, language: string, call: Call<Value>, codec: Codec): (shown: Value)
    ensures language == "en" || call.ProviderThrew? ==> shown == ItineraryValue(it)
    ensures shown == ItineraryValue(it) || ReconstructedFromTranslation(it, shown, call, codec)
    ensures language != "en" && TranslationOf(it, call, codec).Ok? ==>
      var t := codec.parse(TextOfJs(TranslationOf(it, call, codec).value, codec.numberText));
      t.Some? && Reconstruct(it, t.value).Ok? ==> shown == Reconstruct(it, t.value).value
  {
    if language == "en" then ItineraryValue(it)
    else
      match TranslationOf(it, call, codec)
      case Threw => ItineraryValue(it)
      case Ok(translated) =>
        match codec.parse(TextOfJs(translated, codec.numberText))
        case None => ItineraryValue(it)
        case Some(t) => Reconstruct(it, t).Recover(ItineraryValue(it))
  }

  // ---------------------------------------------------------------------------
  // What a translation may change

  /** The parts of an activity a translation never changes. */
  predicate ActivityKeepsSkeleton(a: Activity, v: Value) {
    && v.Obj?
    && OptionalStringField(v.fields, "travelTime", a.travelTime)
    && OptionalStringField(v.fields, "cost", a.cost)
    && match a.coordinates
       case None => "coordinates" !in v.fields
       case Some(c) => "coordinates" in v.fields && v.fields["coordinates"] == CoordinatesValue(c)
  }

  predicate DayKeepsSkeleton(d: Day, v: Value) {
    && v.Obj?
    && NumberField(v.fields, "day", d.day)
    && "activities" in v.fields
    && v.fields["activities"].Arr?
    && |v.fields["activities"].items| == |d.activities|
    && forall j :: 0 <= j < |d.activities| ==> ActivityKeepsSkeleton(d.activities[j], v.fields["activities"].items[j])
  }

  /** `v` has the itinerary's dates, numbers, budget, day numbers, number of
      days and activities, travel times, costs and coordinates. */
  predicate KeepsSkeleton(it: Itinerary, v: Value) {
    && v.Obj?
    && StringField(v.fields, "startDate", it.startDate)
    && NumberField(v.fields, "duration", it.duration)
    && StringField(v.fields, "budget", it.budget)
    && NumberField(v.fields, "numberOfTravellers", it.numberOfTravellers)
    && "itinerary" in v.fields
    && v.fields["itinerary"].Arr?
    && |v.fields["itinerary"].items| == |it.days|
    && forall i :: 0 <= i < |it.days| ==> DayKeepsSkeleton(it.days[i], v.fields["itinerary"].items[i])
  }

  /** Replacing the texts of an activity's encoding keeps its skeleton; with
      no replacement at all it is the encoding itself. */
  lemma TextsKeepActivitySkeleton(a: Activity, place: Option<Value>, description: Option<Value>)
    ensures ActivityKeepsSkeleton(a, Obj(Put(Put(ActivityValue(a).fields, "placeName", place), "description", description)))
    ensures ActivityKeepsSkeleton(a, ActivityValue(a))
  {
    var m := ActivityExtras(a.travelTime, a.cost, a.coordinates);
    assert ActivityValue(a).fields == m["placeName" := Str(a.placeName)]["description" := Str(a.description)];
  }

  lemma TranslatedActivityKeepsSkeleton(a: Activity, t: Value, i: nat, j: nat)
    requires TranslatedActivity(a, t, i, j).Ok?
    ensures ActivityKeepsSkeleton(a, TranslatedActivity(a, t, i, j).value)
    ensures Prop(TranslatedActivity(a, t, i, j).value, "placeName") == ActivityText(t, i, j, "placeName").value
    ensures Prop(TranslatedActivity(a, t, i, j).value, "description") == ActivityText(t, i, j, "description").value
  {
    TextsKeepActivitySkeleton(a, ActivityText(t, i, j, "placeName").value, ActivityText(t, i, j, "description").value);
  }

  lemma TranslatedDayKeepsSkeleton(d: Day, t: Value, i: nat)
    requires TranslatedDay(d, t, i).Ok?
    ensures DayKeepsSkeleton(d, TranslatedDay(d, t, i).value)
    ensures Prop(TranslatedDay(d, t, i).value, "title") == DayText(t, i, "title").value
  {
    var v := TranslatedDay(d, t, i).value;
    forall j | 0 <= j < |d.activities|
      ensures ActivityKeepsSkeleton(d.activities[j], v.fields["activities"].items[j])
    {
      TranslatedActivityKeepsSkeleton(d.activities[j], t, i, j);
    }
  }

  /** A reconstruction keeps the itinerary's skeleton; only the destination,
      the day titles and the activities' place names and descriptions can
      differ. */
  lemma ReconstructKeepsSkeleton(it: Itinerary, t: Value)
    requires Reconstruct(it, t).Ok?
    ensures KeepsSkeleton(it, Reconstruct(it, t).value)
  {
    var v := Reconstruct(it, t).value;
    forall i | 0 <= i < |it.days|
      ensures DayKeepsSkeleton(it.days[i], v.fields["itinerary"].items[i])
    {
      TranslatedDayKeepsSkeleton(it.days[i], t, i);
    }
  }

  /** The texts of a reconstruction are the translation's texts at the same
      positions. */
  lemma ReconstructTakesTextsByPosition(it: Itinerary, t: Value, i: nat, j: nat)
    requires Reconstruct(it, t).Ok?
    requires i < |it.days| && j < |it.days[i].activities|
    ensures var v := Reconstruct(it, t).value;
      && Prop(v, "destination") == Prop(t, "destination")
      && Prop(v.fields["itinerary"].items[i], "title") == DayText(t, i, "title").value
      && var a := v.fields["itinerary"].items[i].fields["activities"].items[j];
         && Prop(a, "placeName") == ActivityText(t, i, j, "placeName").value
         && Prop(a, "description") == ActivityText(t, i, j, "description").value
  {
    TranslatedDayKeepsSkeleton(it.days[i], t, i);
    TranslatedActivityKeepsSkeleton(it.days[i].activities[j], t, i, j);
  }

  /** A translation with fewer days than the itinerary makes the
      reconstruction throw. */
  lemma MissingDayThrows(it: Itinerary, t: Value)
    requires t.Obj? && "itinerary" in t.fields && t.fields["itinerary"].Arr?
    requires |t.fields["itinerary"].items| < |it.days|
    ensures Reconstruct(it, t).Threw?
  {
    var n := |t.fields["itinerary"].items|;
    assert DayAt(t, n) == Ok(None);
    assert TranslatedDay(it.days[n], t, n).Threw?;
  }

  /** A translated day with fewer activities than the itinerary's day makes
      the reconstruction throw. */
  lemma MissingActivityThrows(it: Itinerary, t: Value, i: nat)
    requires i < |it.days|
    requires t.Obj? && "itinerary" in t.fields && t.fields["itinerary"].Arr?
    requires i < |t.fields["itinerary"].items|
    requires var e := t.fields["itinerary"].items[i];
      e.Obj? && "activities" in e.fields && e.fields["activities"].Arr?
      && |e.fields["activities"].items| < |it.days[i].activities|
    ensures Reconstruct(it, t).Threw?
  {
    var n := |t.fields["itinerary"].items[i].fields["activities"].items|;
    assert ActivityAt(t, i, n) == Ok(None);
    assert TranslatedActivity(it.days[i].activities[n], t, i, n).Threw?;
    assert TranslatedDay(it.days[i], t, i).Threw?;
  }

  /** A translation that does not parse, or that parses to something the
      reconstruction cannot read (fewer days or activities), leaves the
      itinerary displayed as it is. */
  lemma MisfitTranslationShowsOriginal(it: Itinerary, language: string, call: Call<Value>, codec: Codec)
    requires TranslationOf(it, call, codec).Ok?
    requires var t := codec.parse(TextOfJs(TranslationOf(it, call, codec).value, codec.numberText));
      t.None? || Reconstruct(it, t.value).Threw?
    ensures DisplayedCopy(it, language, call, codec) == ItineraryValue(it)
  {
  }

  /** A day's reconstruction reads nothing of the translation outside that
      day's entry. */
  lemma TranslatedDayReadsOwnEntry(d: Day, t: Value, u: Value, i: nat)
    requires DayAt(t, i) == DayAt(u, i)
    ensures TranslatedDay(d, t, i) == TranslatedDay(d, u, i)
  {
    assert DayText(t, i, "title") == DayText(u, i, "title");
    forall j | 0 <= j < |d.activities|
      ensures TranslatedActivity(d.activities[j], t, i, j) == TranslatedActivity(d.activities[j], u, i, j)
    {
      assert ActivityAt(t, i, j) == ActivityAt(u, i, j);
    }
    if TranslatedDay(d, t, i).Ok? {
      var at := seq(|d.activities|, j requires 0 <= j < |d.activities| => TranslatedActivity(d.activities[j], t, i, j).value);
      var au := seq(|d.activities|, j requires 0 <= j < |d.activities| => TranslatedActivity(d.activities[j], u, i, j).value);
      assert at == au;
    }
  }

  /** Entries of the translation past the itinerary's last day are never
      read. */
  lemma ExtraDaysIgnored(it: Itinerary, t: Value, extra: seq<Value>)
    requires t.Obj? && "itinerary" in t.fields && t.fields["itinerary"].Arr?
    requires |t.fields["itinerary"].items| >= |it.days|
    ensures Reconstruct(it, t)
      == Reconstruct(it, Obj(t.fields["itinerary" := Arr(t.fields["itinerary"].items + extra)]))
  {
    var items := t.fields["itinerary"].items;
    var u := Obj(t.fields["itinerary" := Arr(items + extra)]);
    assert Member(Some(t), "destination") == Member(Some(u), "destination");
    forall i | 0 <= i < |it.days|
      ensures TranslatedDay(it.days[i], t, i) == TranslatedDay(it.days[i], u, i)
    {
      assert (items + extra)[i] == items[i];
      assert DayAt(t, i) == DayAt(u, i);
      TranslatedDayReadsOwnEntry(it.days[i], t, u, i);
    }
    if Reconstruct(it, t).Ok? {
      var dt := seq(|it.days|, i requires 0 <= i < |it.days| => TranslatedDay(it.days[i], t, i).value);
      var du := seq(|it.days|, i requires 0 <= i < |it.days| => TranslatedDay(it.days[i], u, i).value);
      assert dt == du;
    }
  }

  /** Two itineraries that differ at most in their texts. */
  predicate ActivitySameShape(a: Activity, b: Activity) {
    a.travelTime == b.travelTime && a.cost == b.cost && a.coordinates == b.coordinates
  }

  predicate DaySameShape(d: Day, e: Day) {
    && d.day == e.day
    && |d.activities| == |e.activities|
    && forall j :: 0 <= j < |d.activities| ==> ActivitySameShape(d.activities[j], e.activities[j])
  }

  predicate SameShape(it: Itinerary, x: Itinerary) {
    && it.startDate == x.startDate && it.duration == x.duration
    && it.budget == x.budget && it.numberOfTravellers == x.numberOfTravellers
    && |it.days| == |x.days|
    && forall i :: 0 <= i < |it.days| ==> DaySameShape(it.days[i], x.days[i])
  }

  lemma TranslatedActivityOfProjection(it: Itinerary, x: Itinerary, i: nat, j: nat)
    requires SameShape(it, x) && i < |it.days| && j < |it.days[i].activities|
    ensures TranslatedActivity(it.days[i].activities[j], Projection(x), i, j) == Ok(ActivityValue(x.days[i].activities[j]))
  {
    assert DaySameShape(it.days[i], x.days[i]);
    var a, b := it.days[i].activities[j], x.days[i].activities[j];
    assert ActivitySameShape(a, b);
    var t := Projection(x);
    assert DayAt(t, i) == Ok(Some(DayProjection(x.days[i])));
    assert ActivityAt(t, i, j) == Ok(Some(ActivityProjection(b)));
    assert ActivityText(t, i, j, "placeName") == Ok(Some(Str(b.placeName)));
    assert ActivityText(t, i, j, "description") == Ok(Some(Str(b.description)));
    var extras := ActivityExtras(b.travelTime, b.cost, b.coordinates);
    assert extras == ActivityExtras(a.travelTime, a.cost, a.coordinates);
    TextsOverwritten(extras, Str(a.placeName), Str(a.description), Str(b.placeName), Str(b.description));
  }

  lemma TextsOverwritten(m: map<string, Value>, p0: Value, d0: Value, p1: Value, d1: Value)
    ensures Put(Put(m["placeName" := p0]["description" := d0], "placeName", Some(p1)), "description", Some(d1))
      == m["placeName" := p1]["description" := d1]
  {
  }

  lemma TranslatedDayOfProjection(it: Itinerary, x: Itinerary, i: nat)
    requires SameShape(it, x) && i < |it.days|
    ensures TranslatedDay(it.days[i], Projection(x), i) == Ok(DayValue(x.days[i]))
  {
    var d, e := it.days[i], x.days[i];
    assert DaySameShape(d, e);
    assert DayAt(Projection(x), i) == Ok(Some(DayProjection(e)));
    assert DayText(Projection(x), i, "title") == Ok(Some(Str(e.title)));
    forall j | 0 <= j < |d.activities|
      ensures TranslatedActivity(d.activities[j], Projection(x), i, j) == Ok(ActivityValue(e.activities[j]))
    {
      TranslatedActivityOfProjection(it, x, i, j);
    }
    var activities := seq(|d.activities|, j requires 0 <= j < |d.activities| =>
      TranslatedActivity(d.activities[j], Projection(x), i, j).value);
    assert Arr(activities) == DayValue(e).fields["activities"];
    assert Put(DayValue(d).fields, "title", Some(Str(e.title)))["activities" := Arr(activities)] == DayValue(e).fields;
  }

  /** A translation that keeps the structure is displayed as the itinerary
      with the translated texts; in particular an untranslated projection
      reconstructs the itinerary itself. */
  lemma ReconstructOfProjection(it: Itinerary, x: Itinerary)
    requires SameShape(it, x)
    ensures Reconstruct(it, Projection(x)) == Ok(ItineraryValue(x))
  {
    var t := Projection(x);
    forall i | 0 <= i < |it.days|
      ensures TranslatedDay(it.days[i], t, i) == Ok(DayValue(x.days[i]))
    {
      TranslatedDayOfProjection(it, x, i);
    }
    assert Member(Some(t), "destination") == Ok(Some(Str(x.destination)));
    var days := seq(|it.days|, i requires 0 <= i < |it.days| => TranslatedDay(it.days[i], t, i).value);
    assert Arr(days) == DaysValue(x.days);
    assert Put(ItineraryFields(it), "destination", Some(Str(x.destination)))["itinerary" := Arr(days)]
      == ItineraryFields(x);
  }

  lemma ReconstructOwnProjection(it: Itinerary)
    ensures Reconstruct(it, Projection(it)) == Ok(ItineraryValue(it))
  {
    ReconstructOfProjection(it, it);
  }

  /** Whatever the provider answers, the displayed copy keeps the
      itinerary's skeleton. */
  lemma DisplayedCopyKeepsSkeleton(it: Itinerary, language: string, call: Call<Value>, codec: Codec)
    ensures KeepsSkeleton(it, DisplayedCopy(it, language, call, codec))
  {
    var shown := DisplayedCopy(it, language, call, codec);
    if shown == ItineraryValue(it) {
      ItineraryValueKeepsSkeleton(it);
    } else {
      var t := codec.parse(TextOfJs(TranslationOf(it, call, codec).value, codec.numberText)).value;
      ReconstructKeepsSkeleton(it, t);
    }
  }

  /** The itinerary's own encoding has its skeleton. */
  lemma ItineraryValueKeepsSkeleton(it: Itinerary)
    ensures KeepsSkeleton(it, ItineraryValue(it))
  {
    var items := DaysValue(it.days).items;
    forall i | 0 <= i < |it.days|
      ensures DayKeepsSkeleton(it.days[i], items[i])
    {
      var d := it.days[i];
      assert items[i] == DayValue(d);
      var acts := DayValue(d).fields["activities"].items;
      forall j | 0 <= j < |d.activities|
        ensures ActivityKeepsSkeleton(d.activities[j], acts[j])
      {
        assert acts[j] == ActivityValue(d.activities[j]);
        TextsKeepActivitySkeleton(d.activities[j], None, None);
      }
    }
  }

  /** `JSON.parse` reads back what `JSON.stringify` writes for the
      translatable content, which holds only strings, objects and arrays. */
  ghost predicate ParsesProjections(c: Codec) {
    forall it: Itinerary :: c.parse(c.stringify(Projection(it))) == Some(Projection(it))
  }

  /** A provider that answers without a translation leaves the itinerary
      displayed as it is. */
  lemma UntranslatedShowsOriginal(it: Itinerary, language: string, codec: Codec)
    requires ParsesProjections(codec)
    ensures DisplayedCopy(it, language, Answered(None), codec) == ItineraryValue(it)
  {
    assert codec.parse(codec.stringify(Projection(it))) == Some(Projection(it));
    ReconstructOwnProjection(it);
  }

  /** The provider's answer carrying `text` as the translation. */
  function TranslationAnswer(text: string): Call<Value> {
    Answered(Some(Obj(map["translatedContent" := Str(text)])))
  }

  /** Outside English, a provider that answers with the texts of a
      same-shaped itinerary `x`, written as JSON, makes the view show `x`. */
  lemma TranslatedCopyIsShown(it: Itinerary, x: Itinerary, language: string, codec: Codec)
    requires language != "en"
    requires SameShape(it, x)
    requires ParsesProjections(codec)
    ensures DisplayedCopy(it, language, TranslationAnswer(codec.stringify(Projection(x))), codec) == ItineraryValue(x)
  {
    assert codec.parse(codec.stringify(Projection(x))) == Some(Projection(x));
    ReconstructOfProjection(it, x);
  }

  /** A translation delivered as an object rather than as JSON text is
      coerced to `[object Object]`, which does not parse: the view shows the
      untranslated itinerary. */
  lemma ObjectTranslationShowsOriginal(it: Itinerary, language: string, out: Value, codec: Codec)
    requires RejectsNonJson(codec)
    requires Prop(out, "translatedContent").Some? && Prop(out, "translatedContent").value.Obj?
    ensures DisplayedCopy(it, language, Answered(Some(out)), codec) == ItineraryValue(it)
  {
    assert IsPrefix("[o", ObjectText) by {
      assert ObjectText[..2] == "[o";
    }
  }

  // ---------------------------------------------------------------------------
  // Weather adjustment

  /** `JSON.parse(result.adjustedItinerary)` */
  function AdjustAnswer(call: Call<Value>, codec: Codec): (r: Result<Value>)
    ensures call.ProviderThrew? || call.output.None? ==> r.Threw?
    ensures call.Answered? && call.output.Some? && !call.output.value.Null? ==>
      var parsed := codec.parse(TextOfJs(Prop(call.output.value, "adjustedItinerary"), codec.numberText));
      && (r.Ok? <==> parsed.Some?)
      && (r.Ok? ==> r.value == parsed.value)
  {
    var text :- AdjustRun(call);
    match codec.parse(TextOfJs(text, codec.numberText))
    case None => Threw
    case Some(v) => Ok(v)
  }

  /** `{ ...day, activities: answer[i]?.activities ?? day.activities }` */
  function MergeDay(day: Value, answer: Value, i: nat): Result<Value> {
    var entry :- Element(Some(answer), i);
    var proposed := OptionalMember(entry, "activities");
    var activities :- if proposed.Some? && !proposed.value.Null? then Ok(proposed) else Member(Some(day), "activities");
    Ok(Obj(Put(Spread(Some(day)), "activities", activities)))
  }

  /** `days.map(merge)`: throws when merging any day throws. */
  function MergeDays(days: seq<Value>, answer: Value): (r: Result<seq<Value>>)
    ensures r.Ok? <==> forall i :: 0 <= i < |days| ==> MergeDay(days[i], answer, i).Ok?
    ensures r.Ok? ==> |r.value| == |days|
    ensures r.Ok? ==> forall i :: 0 <= i < |days| ==> MergeDay(days[i], answer, i) == Ok(r.value[i])
  {
    if forall i :: 0 <= i < |days| ==> MergeDay(days[i], answer, i).Ok? then
      Ok(seq(|days|, i requires 0 <= i < |days| => MergeDay(days[i], answer, i).value))
    else Threw
  }

  /** The adjustment applied to the displayed copy `shown`: the merged days
      replace the displayed days, and the result becomes the page's
      itinerary when it validates. None leaves the page's itinerary as it
      was. */
  function WeatherAdjust(shown: Value, call: Call<Value>, codec: Codec): (r: Option<Itinerary>)
    ensures call.ProviderThrew? || call.output.None? ==> r.None?
    ensures r.Some? <==>
      && AdjustAnswer(call, codec).Ok?
      && shown.Obj? && "itinerary" in shown.fields && shown.fields["itinerary"].Arr?
      && var merged := MergeDays(shown.fields["itinerary"].items, AdjustAnswer(call, codec).value);
         merged.Ok? && IsItinerary(Obj(shown.fields["itinerary" := Arr(merged.value)]))
  {
    match AdjustAnswer(call, codec)
    case Threw => None
    case Ok(answer) =>
      match Member(Some(shown), "itinerary")
      case Ok(Some(Arr(days))) =>
        (match MergeDays(days, answer)
         case Ok(merged) => ParseItinerary(Obj(Spread(Some(shown))["itinerary" := Arr(merged)]))
         case Threw => None)
      case _ => None
  }

  /** The merge changes only the activities of a day; they come from the
      answer's entry at the same position when it has non-null activities,
      and stay as they were otherwise. */
  lemma MergeDayReplacesActivitiesOnly(day: Value, answer: Value, i: nat)
    requires day.Obj?
    requires MergeDay(day, answer, i).Ok?
    ensures var merged := MergeDay(day, answer, i).value;
      && (forall k :: k != "activities" ==> Prop(merged, k) == Prop(day, k))
      && (answer.Arr? && i < |answer.items| && Prop(answer.items[i], "activities").Some?
          && !Prop(answer.items[i], "activities").value.Null?
          ==> Prop(merged, "activities") == Prop(answer.items[i], "activities"))
      && (answer.Arr? && !(i < |answer.items| && Prop(answer.items[i], "activities").Some?
                           && !Prop(answer.items[i], "activities").value.Null?)
          ==> Prop(merged, "activities") == Prop(day, "activities"))
  {
  }

  /** A day for which the answer has no entry is kept as it is. */
  lemma MergeDayWithoutEntry(day: Value, answer: Value, i: nat)
    requires day.Obj? && "activities" in day.fields
    requires Element(Some(answer), i) == Ok(None)
    ensures MergeDay(day, answer, i) == Ok(day)
  {
    assert Put(day.fields, "activities", Some(day.fields["activities"])) == day.fields;
  }

  /** An answer with no entry at any day's position changes nothing: the
      displayed copy itself becomes the page's itinerary. */
  lemma EmptyAnswerStoresShownCopy(shown: Itinerary, call: Call<Value>, codec: Codec)
    requires AdjustAnswer(call, codec) == Ok(Arr([]))
    ensures WeatherAdjust(ItineraryValue(shown), call, codec) == Some(shown)
  {
    var days := DaysValue(shown.days).items;
    forall i | 0 <= i < |days|
      ensures MergeDay(days[i], Arr([]), i) == Ok(days[i])
    {
      assert days[i] == DayValue(shown.days[i]);
      MergeDayWithoutEntry(days[i], Arr([]), i);
    }
    assert MergeDays(days, Arr([])).value == days;
    assert ItineraryValue(shown).fields["itinerary" := Arr(days)] == ItineraryValue(shown).fields;
    ParseItineraryValue(shown);
  }

  /** A successful adjustment is the itinerary the merged value describes:
      the displayed copy with its days replaced by the merged days. */
  lemma WeatherAdjustDescribes(shown: Value, call: Call<Value>, codec: Codec)
    requires WeatherAdjust(shown, call, codec).Some?
    ensures AdjustAnswer(call, codec).Ok?
    ensures shown.Obj? && "itinerary" in shown.fields && shown.fields["itinerary"].Arr?
    ensures var merged := MergeDays(shown.fields["itinerary"].items, AdjustAnswer(call, codec).value);
      && merged.Ok?
      && DescribesItinerary(WeatherAdjust(shown, call, codec).value,
                            Obj(shown.fields["itinerary" := Arr(merged.value)]))
  {
  }

  /** As written, the merge starts from the displayed copy: after a
      translation that keeps the structure, adjusting (even with an answer
      that changes nothing) makes the translated texts the page's itinerary,
      so that switching back to English no longer shows the original texts. */
  lemma WeatherAdjustStoresTranslation(it: Itinerary, x: Itinerary, language: string, call: Call<Value>, codec: Codec)
    requires language != "en"
    requires SameShape(it, x)
    requires ParsesProjections(codec)
    requires AdjustAnswer(call, codec) == Ok(Arr([]))
    ensures Reconstruct(it, Projection(x)) == Ok(ItineraryValue(x))
    ensures var shown := DisplayedCopy(it, language, TranslationAnswer(codec.stringify(Projection(x))), codec);
      shown == ItineraryValue(x) && WeatherAdjust(shown, call, codec) == Some(x)
  {
    ReconstructOfProjection(it, x);
    TranslatedCopyIsShown(it, x, language, codec);
    EmptyAnswerStoresShownCopy(x, call, codec);
  }

  /** The merge as intended: it starts from the page's own itinerary, so the
      texts stay in the language the itinerary was generated in. */
  function CorrectedWeatherAdjust(original: Itinerary, call: Call<Value>, codec: Codec): (r: Option<Itinerary>)
    ensures call.ProviderThrew? || call.output.None? ==> r.None?
    ensures r.Some? <==>
      && AdjustAnswer(call, codec).Ok?
      && var merged := MergeDays(DaysValue(original.days).items, AdjustAnswer(call, codec).value);
         merged.Ok? && IsItinerary(Obj(ItineraryFields(original)["itinerary" := Arr(merged.value)]))
  {
    WeatherAdjust(ItineraryValue(original), call, codec)
  }

  /** The corrected merge changes activities only: destination, dates,
      numbers, budget, and each day's number and title stay as they were. */
  lemma CorrectedWeatherAdjustKeepsTexts(original: Itinerary, call: Call<Value>, codec: Codec)
    requires CorrectedWeatherAdjust(original, call, codec).Some?
    ensures var p := CorrectedWeatherAdjust(original, call, codec).value;
      && p.destination == original.destination && p.startDate == original.startDate
      && p.duration == original.duration && p.budget == original.budget
      && p.numberOfTravellers == original.numberOfTravellers
      && |p.days| == |original.days|
      && forall i :: 0 <= i < |p.days| ==>
           p.days[i].day == original.days[i].day && p.days[i].title == original.days[i].title
  {
    var shown := ItineraryValue(original);
    var p := WeatherAdjust(shown, call, codec).value;
    WeatherAdjustDescribes(shown, call, codec);
    var answer := AdjustAnswer(call, codec).value;
    var days := DaysValue(original.days).items;
    var merged := MergeDays(days, answer).value;
    var updated := ItineraryFields(original)["itinerary" := Arr(merged)];
    assert DescribesItinerary(p, Obj(updated));
    assert updated["destination"] == Str(original.destination) && updated["startDate"] == Str(original.startDate);
    assert updated["duration"] == Num(original.duration) && updated["budget"] == Str(original.budget);
    assert updated["numberOfTravellers"] == Num(original.numberOfTravellers);
    forall i | 0 <= i < |p.days|
      ensures p.days[i].day == original.days[i].day && p.days[i].title == original.days[i].title
    {
      assert DescribesDay(p.days[i], merged[i]);
      assert days[i] == DayValue(original.days[i]);
      MergeKeepsDayNumberAndTitle(original.days[i], answer, i, merged[i]);
    }
  }

  lemma MergeKeepsDayNumberAndTitle(d: Day, answer: Value, i: nat, merged: Value)
    requires MergeDay(DayValue(d), answer, i) == Ok(merged)
    ensures Prop(merged, "day") == Some(Num(d.day)) && Prop(merged, "title") == Some(Str(d.title))
  {
    MergeDayReplacesActivitiesOnly(DayValue(d), answer, i);
  }

  /** With an answer that changes nothing, the corrected merge leaves the
      page's itinerary as it was, whatever language is displayed. */
  lemma CorrectedEmptyAnswerKeepsOriginal(original: Itinerary, call: Call<Value>, codec: Codec)
    requires AdjustAnswer(call, codec) == Ok(Arr([]))
    ensures CorrectedWeatherAdjust(original, call, codec) == Some(original)
  {
    EmptyAnswerStoresShownCopy(original, call, codec);
  }
}
