/** The itinerary data contract: the typed entities, the shape checks the
    application's schemas perform on untyped values, the parsers that turn a
    value passing a check into an entity (unknown keys are dropped), and the
    encoding of an entity back into a value. */
module Schema {
  import opened Wrappers
  import opened Json

  datatype Coordinates = Coordinates(lat: real, lng: real)

  datatype Activity = Activity(
    placeName: string,
    description: string,
    travelTime: Option<string>,
    cost: Option<string>,
    coordinates: Option<Coordinates>)

  datatype Day = Day(day: real, title: string, activities: seq<Activity>)

  /** `days` is the array the application stores under the key `itinerary`. */
  datatype Itinerary = Itinerary(
    destination: string,
    startDate: string,
    duration: real,
    budget: string,
    numberOfTravellers: real,
    days: seq<Day>)

  /** A booking as the bookings endpoint stores it: an itinerary plus an id,
      the owner's user id and the booking time. */
  datatype StoredBooking = StoredBooking(id: string, userId: string, trip: Itinerary, bookingDate: string)

  /** The request the generation flow accepts. */
  datatype GenerateInput = GenerateInput(
    destination: string,
    startDate: string,
    duration: real,
    budget: string,
    themes: seq<string>,
    numberOfTravellers: real)

  // ---------------------------------------------------------------------------
  // Shape checks on untyped values

  predicate HasString(m: map<string, Value>, k: string) {
    k in m && m[k].Str?
  }

  predicate HasNumber(m: map<string, Value>, k: string) {
    k in m && m[k].Num?
  }

  /** An optional string: absent, or a string (`null` is rejected). */
  predicate OptionalString(m: map<string, Value>, k: string) {
    k !in m || m[k].Str?
  }

  predicate IsCoordinates(v: Value) {
    v.Obj? && HasNumber(v.fields, "lat") && HasNumber(v.fields, "lng")
  }

  predicate IsActivity(v: Value) {
    && v.Obj?
    && HasString(v.fields, "placeName")
    && HasString(v.fields, "description")
    && OptionalString(v.fields, "travelTime")
    && OptionalString(v.fields, "cost")
    && ("coordinates" in v.fields ==> IsCoordinates(v.fields["coordinates"]))
  }

  predicate IsDay(v: Value) {
    && v.Obj?
    && HasNumber(v.fields, "day")
    && HasString(v.fields, "title")
    && "activities" in v.fields
    && v.fields["activities"].Arr?
    && forall i :: 0 <= i < |v.fields["activities"].items| ==> IsActivity(v.fields["activities"].items[i])
  }

  predicate IsItinerary(v: Value) {
    && v.Obj?
    && HasString(v.fields, "destination")
    && HasString(v.fields, "startDate")
    && HasNumber(v.fields, "duration")
    && HasString(v.fields, "budget")
    && HasNumber(v.fields, "numberOfTravellers")
    && "itinerary" in v.fields
    && v.fields["itinerary"].Arr?
    && forall i :: 0 <= i < |v.fields["itinerary"].items| ==> IsDay(v.fields["itinerary"].items[i])
  }

  predicate IsBooking(v: Value) {
    && IsItinerary(v)
    && HasString(v.fields, "id")
    && HasString(v.fields, "userId")
    && HasString(v.fields, "bookingDate")
  }

  predicate IsGenerateInput(v: Value) {
    && v.Obj?
    && HasString(v.fields, "destination")
    && HasString(v.fields, "startDate")
    && HasNumber(v.fields, "duration")
    && HasString(v.fields, "budget")
    && "themes" in v.fields
    && v.fields["themes"].Arr?
    && (forall i :: 0 <= i < |v.fields["themes"].items| ==> v.fields["themes"].items[i].Str?)
    && HasNumber(v.fields, "numberOfTravellers")
  }

  // ---------------------------------------------------------------------------
  // Which entity a value describes

  predicate StringField(m: map<string, Value>, k: string, s: string) {
    k in m && m[k] == Str(s)
  }

  predicate NumberField(m: map<string, Value>, k: string, n: real) {
    k in m && m[k] == Num(n)
  }

  predicate OptionalStringField(m: map<string, Value>, k: string, o: Option<string>) {
    match o
    case None => k !in m
    case Some(s) => StringField(m, k, s)
  }

  predicate DescribesCoordinates(c: Coordinates, v: Value) {
    v.Obj? && NumberField(v.fields, "lat", c.lat) && NumberField(v.fields, "lng", c.lng)
  }

  predicate DescribesActivity(a: Activity, v: Value) {
    && v.Obj?
    && StringField(v.fields, "placeName", a.placeName)
    && StringField(v.fields, "description", a.description)
    && OptionalStringField(v.fields, "travelTime", a.travelTime)
    && OptionalStringField(v.fields, "cost", a.cost)
    && match a.coordinates
       case None => "coordinates" !in v.fields
       case Some(c) => "coordinates" in v.fields && DescribesCoordinates(c, v.fields["coordinates"])
  }

  predicate DescribesActivities(acts: seq<Activity>, items: seq<Value>) {
    |acts| == |items| && forall i :: 0 <= i < |items| ==> DescribesActivity(acts[i], items[i])
  }

  predicate DescribesDay(d: Day, v: Value) {
    && v.Obj?
    && NumberField(v.fields, "day", d.day)
    && StringField(v.fields, "title", d.title)
    && "activities" in v.fields
    && v.fields["activities"].Arr?
    && DescribesActivities(d.activities, v.fields["activities"].items)
  }

  predicate DescribesDays(days: seq<Day>, items: seq<Value>) {
    |days| == |items| && forall i :: 0 <= i < |items| ==> DescribesDay(days[i], items[i])
  }

  predicate DescribesItinerary(it: Itinerary, v: Value) {
    && v.Obj?
    && StringField(v.fields, "destination", it.destination)
    && StringField(v.fields, "startDate", it.startDate)
    && NumberField(v.fields, "duration", it.duration)
    && StringField(v.fields, "budget", it.budget)
    && NumberField(v.fields, "numberOfTravellers", it.numberOfTravellers)
    && "itinerary" in v.fields
    && v.fields["itinerary"].Arr?
    && DescribesDays(it.days, v.fields["itinerary"].items)
  }

  predicate DescribesBooking(b: StoredBooking, v: Value) {
    && DescribesItinerary(b.trip, v)
    && StringField(v.fields, "id", b.id)
    && StringField(v.fields, "userId", b.userId)
    && StringField(v.fields, "bookingDate", b.bookingDate)
  }

  // ---------------------------------------------------------------------------
  // Parsers: `Schema.parse` / `Schema.safeParse`

  function ParseOptionalString(m: map<string, Value>, k: string): (r: Option<Option<string>>)
    ensures r.Some? <==> OptionalString(m, k)
    ensures r.Some? ==> OptionalStringField(m, k, r.value)
  {
    if k !in m then Some(None)
    else if m[k].Str? then Some(Some(m[k].s))
    else None
  }

  function ParseCoordinates(v: Value): (r: Option<Coordinates>)
    ensures r.Some? <==> IsCoordinates(v)
    ensures r.Some? ==> DescribesCoordinates(r.value, v)
  {
    if IsCoordinates(v) then Some(Coordinates(v.fields["lat"].n, v.fields["lng"].n)) else None
  }

  function ParseActivity(v: Value): (r: Option<Activity>)
    ensures r.Some? <==> IsActivity(v)
    ensures r.Some? ==> DescribesActivity(r.value, v)
  {
    if !v.Obj? || !HasString(v.fields, "placeName") || !HasString(v.fields, "description") then None
    else
      var m := v.fields;
      var travelTime :- ParseOptionalString(m, "travelTime");
      var cost :- ParseOptionalString(m, "cost");
      if "coordinates" !in m then
        Some(Activity(m["placeName"].s, m["description"].s, travelTime, cost, None))
      else
        var c :- ParseCoordinates(m["coordinates"]);
        Some(Activity(m["placeName"].s, m["description"].s, travelTime, cost, Some(c)))
  }

  function ParseActivities(items: seq<Value>): (r: Option<seq<Activity>>)
    ensures r.Some? <==> forall i :: 0 <= i < |items| ==> IsActivity(items[i])
    ensures r.Some? ==> DescribesActivities(r.value, items)
  {
    if |items| == 0 then Some([])
    else
      var first :- ParseActivity(items[0]);
      var rest :- ParseActivities(items[1..]);
      assert forall i :: 1 <= i < |items| ==> items[i] == items[1..][i - 1];
      Some([first] + rest)
  }

  function ParseDay(v: Value): (r: Option<Day>)
    ensures r.Some? <==> IsDay(v)
    ensures r.Some? ==> DescribesDay(r.value, v)
  {
    if !v.Obj? || !HasNumber(v.fields, "day") || !HasString(v.fields, "title") then None
    else if "activities" !in v.fields || !v.fields["activities"].Arr? then None
    else
      var acts :- ParseActivities(v.fields["activities"].items);
      Some(Day(v.fields["day"].n, v.fields["title"].s, acts))
  }

  function ParseDays(items: seq<Value>): (r: Option<seq<Day>>)
    ensures r.Some? <==> forall i :: 0 <= i < |items| ==> IsDay(items[i])
    ensures r.Some? ==> DescribesDays(r.value, items)
  {
    if |items| == 0 then Some([])
    else
      var first :- ParseDay(items[0]);
      var rest :- ParseDays(items[1..]);
      assert forall i :: 1 <= i < |items| ==> items[i] == items[1..][i - 1];
      Some([first] + rest)
  }

  /** `ItinerarySchema.parse`: the itinerary a valid value describes, None
      when the value fails the check. */
  function ParseItinerary(v: Value): (r: Option<Itinerary>)
    ensures r.Some? <==> IsItinerary(v)
    ensures r.Some? ==> DescribesItinerary(r.value, v)
  {
    if !v.Obj? then None
    else
      var m := v.fields;
      if !HasString(m, "destination") || !HasString(m, "startDate") || !HasNumber(m, "duration")
        || !HasString(m, "budget") || !HasNumber(m, "numberOfTravellers")
        || "itinerary" !in m || !m["itinerary"].Arr?
      then None
      else
        var days :- ParseDays(m["itinerary"].items);
        Some(Itinerary(m["destination"].s, m["startDate"].s, m["duration"].n, m["budget"].s,
                       m["numberOfTravellers"].n, days))
  }

  function ParseBooking(v: Value): (r: Option<StoredBooking>)
    ensures r.Some? <==> IsBooking(v)
    ensures r.Some? ==> DescribesBooking(r.value, v)
  {
    var trip :- ParseItinerary(v);
    if !HasString(v.fields, "id") || !HasString(v.fields, "userId") || !HasString(v.fields, "bookingDate") then None
    else Some(StoredBooking(v.fields["id"].s, v.fields["userId"].s, trip, v.fields["bookingDate"].s))
  }

  // ---------------------------------------------------------------------------
  // Encoding entities as values (what `JSON.stringify` and Firestore see)

  function OptionalStringEntry(m: map<string, Value>, k: string, o: Option<string>): map<string, Value> {
    match o
    case None => m
    case Some(s) => m[k := Str(s)]
  }

  function CoordinatesValue(c: Coordinates): Value {
    Obj(map["lat" := Num(c.lat), "lng" := Num(c.lng)])
  }

  /** The fields of an activity other than its two texts. */
  function ActivityExtras(travelTime: Option<string>, cost: Option<string>, coordinates: Option<Coordinates>): map<string, Value> {
    var withTravel := OptionalStringEntry(map[], "travelTime", travelTime);
    var withCost := OptionalStringEntry(withTravel, "cost", cost);
    match coordinates
    case None => withCost
    case Some(c) => withCost["coordinates" := CoordinatesValue(c)]
  }

  function ActivityValue(a: Activity): Value {
    Obj(ActivityExtras(a.travelTime, a.cost, a.coordinates)
      ["placeName" := Str(a.placeName)]["description" := Str(a.description)])
  }

  function DayValue(d: Day): Value {
    Obj(map[
      "day" := Num(d.day),
      "title" := Str(d.title),
      "activities" := Arr(seq(|d.activities|, i requires 0 <= i < |d.activities| => ActivityValue(d.activities[i])))])
  }

  function DaysValue(days: seq<Day>): Value {
    Arr(seq(|days|, i requires 0 <= i < |days| => DayValue(days[i])))
  }

  function ItineraryFields(it: Itinerary): map<string, Value> {
    map[
      "destination" := Str(it.destination),
      "startDate" := Str(it.startDate),
      "duration" := Num(it.duration),
      "budget" := Str(it.budget),
      "numberOfTravellers" := Num(it.numberOfTravellers),
      "itinerary" := DaysValue(it.days)]
  }

  function ItineraryValue(it: Itinerary): Value {
    Obj(ItineraryFields(it))
  }

  function BookingValue(b: StoredBooking): Value {
    Obj(ItineraryFields(b.trip)["id" := Str(b.id)]["userId" := Str(b.userId)]["bookingDate" := Str(b.bookingDate)])
  }

  // ---------------------------------------------------------------------------
  // Facts

  /** The encoding of an activity describes it. */
  lemma ActivityValueDescribes(a: Activity)
    ensures DescribesActivity(a, ActivityValue(a))
  {
  }

  lemma DayValueDescribes(d: Day)
    ensures DescribesDay(d, DayValue(d))
  {
    forall i | 0 <= i < |d.activities|
      ensures DescribesActivity(d.activities[i], DayValue(d).fields["activities"].items[i])
    {
      ActivityValueDescribes(d.activities[i]);
    }
  }

  /** The encoding of an itinerary describes it. */
  lemma ItineraryValueDescribes(it: Itinerary)
    ensures DescribesItinerary(it, ItineraryValue(it))
  {
    forall i | 0 <= i < |it.days|
      ensures DescribesDay(it.days[i], DaysValue(it.days).items[i])
    {
      DayValueDescribes(it.days[i]);
    }
  }

  /** A value that describes an entity passes the entity's check. */
  lemma DescribedActivityIsValid(a: Activity, v: Value)
    requires DescribesActivity(a, v)
    ensures IsActivity(v)
  {
  }

  lemma DescribedDayIsValid(d: Day, v: Value)
    requires DescribesDay(d, v)
    ensures IsDay(v)
  {
    var items := v.fields["activities"].items;
    forall i | 0 <= i < |items|
      ensures IsActivity(items[i])
    {
      DescribedActivityIsValid(d.activities[i], items[i]);
    }
  }

  lemma DescribedItineraryIsValid(it: Itinerary, v: Value)
    requires DescribesItinerary(it, v)
    ensures IsItinerary(v)
  {
    var items := v.fields["itinerary"].items;
    forall i | 0 <= i < |items|
      ensures IsDay(items[i])
    {
      DescribedDayIsValid(it.days[i], items[i]);
    }
  }

  /** A value describes at most one entity. */
  lemma DescribesActivityUnique(a: Activity, b: Activity, v: Value)
    requires DescribesActivity(a, v) && DescribesActivity(b, v)
    ensures a == b
  {
  }

  lemma DescribesDayUnique(d: Day, e: Day, v: Value)
    requires DescribesDay(d, v) && DescribesDay(e, v)
    ensures d == e
  {
    var items := v.fields["activities"].items;
    forall i | 0 <= i < |items|
      ensures d.activities[i] == e.activities[i]
    {
      DescribesActivityUnique(d.activities[i], e.activities[i], items[i]);
    }
  }

  lemma DescribesItineraryUnique(it: Itinerary, jt: Itinerary, v: Value)
    requires DescribesItinerary(it, v) && DescribesItinerary(jt, v)
    ensures it == jt
  {
    var items := v.fields["itinerary"].items;
    forall i | 0 <= i < |items|
      ensures it.days[i] == jt.days[i]
    {
      DescribesDayUnique(it.days[i], jt.days[i], items[i]);
    }
  }

  /** Every itinerary survives encoding and validation unchanged. */
  lemma ParseItineraryValue(it: Itinerary)
    ensures ParseItinerary(ItineraryValue(it)) == Some(it)
  {
    ItineraryValueDescribes(it);
    DescribedItineraryIsValid(it, ItineraryValue(it));
    DescribesItineraryUnique(ParseItinerary(ItineraryValue(it)).value, it, ItineraryValue(it));
  }

  /** The itinerary a valid value yields is exactly what that value describes:
      validation followed by encoding and validation again yields it back. */
  lemma ParsedItineraryIsDescribed(v: Value, it: Itinerary)
    requires DescribesItinerary(it, v)
    ensures ParseItinerary(v) == Some(it)
  {
    DescribedItineraryIsValid(it, v);
    DescribesItineraryUnique(ParseItinerary(v).value, it, v);
  }

  /** The validator checks field types only: day numbers need not be
      1..n, ascending or distinct, and `duration` need not count the days.
      Every itinerary, whatever its numbers, encodes to a valid value. */
  lemma ValidityIgnoresNumbering(it: Itinerary)
    ensures IsItinerary(ItineraryValue(it))
  {
    ItineraryValueDescribes(it);
    DescribedItineraryIsValid(it, ItineraryValue(it));
  }

  /** An itinerary whose two days are both numbered 7, and whose duration is
      1, passes validation; so does one with no days. */
  lemma OddNumberingIsValid()
    ensures IsItinerary(ItineraryValue(Itinerary("Goa", "2025-03-01", 1.0, "30000", 2.0,
      [Day(7.0, "Beach", []), Day(7.0, "Fort", [])])))
    ensures IsItinerary(ItineraryValue(Itinerary("Goa", "2025-03-01", 3.0, "30000", 2.0, [])))
  {
    ValidityIgnoresNumbering(Itinerary("Goa", "2025-03-01", 1.0, "30000", 2.0,
      [Day(7.0, "Beach", []), Day(7.0, "Fort", [])]));
    ValidityIgnoresNumbering(Itinerary("Goa", "2025-03-01", 3.0, "30000", 2.0, []));
  }

  /** A stored booking survives encoding and validation unchanged. */
  lemma ParseBookingValue(b: StoredBooking)
    ensures ParseBooking(BookingValue(b)) == Some(b)
  {
    var v := BookingValue(b);
    ItineraryValueDescribes(b.trip);
    assert DescribesItinerary(b.trip, v);
    ParsedItineraryIsDescribed(v, b.trip);
  }

  /** A booking is an itinerary with three more string fields. */
  lemma BookingIsItinerary(v: Value)
    requires IsBooking(v)
    ensures ParseBooking(v).Some? && ParseItinerary(v) == Some(ParseBooking(v).value.trip)
  {
  }

  // ---------------------------------------------------------------------------
  // The generation request

  /** A list of strings, or None when an element is not a string. */
  function ParseStrings(items: seq<Value>): (r: Option<seq<string>>)
    ensures r.Some? <==> forall i :: 0 <= i < |items| ==> items[i].Str?
    ensures r.Some? ==> |r.value| == |items| && forall i :: 0 <= i < |items| ==> items[i] == Str(r.value[i])
  {
    if |items| == 0 then Some([])
    else if !items[0].Str? then None
    else
      var rest :- ParseStrings(items[1..]);
      assert forall i :: 1 <= i < |items| ==> items[i] == items[1..][i - 1];
      Some([items[0].s] + rest)
  }

  /** The request schema's check: the request it describes, or None. */
  function ParseGenerateInput(v: Value): (r: Option<GenerateInput>)
    ensures r.Some? <==> IsGenerateInput(v)
    ensures r.Some? ==>
      && StringField(v.fields, "destination", r.value.destination)
      && StringField(v.fields, "startDate", r.value.startDate)
      && NumberField(v.fields, "duration", r.value.duration)
      && StringField(v.fields, "budget", r.value.budget)
      && NumberField(v.fields, "numberOfTravellers", r.value.numberOfTravellers)
      && v.fields["themes"].items == seq(|r.value.themes|, i requires 0 <= i < |r.value.themes| => Str(r.value.themes[i]))
  {
    if !v.Obj? then None
    else
      var m := v.fields;
      if !HasString(m, "destination") || !HasString(m, "startDate") || !HasNumber(m, "duration")
        || !HasString(m, "budget") || !HasNumber(m, "numberOfTravellers")
        || "themes" !in m || !m["themes"].Arr?
      then None
      else
        var themes :- ParseStrings(m["themes"].items);
        Some(GenerateInput(m["destination"].s, m["startDate"].s, m["duration"].n, m["budget"].s,
                           themes, m["numberOfTravellers"].n))
  }

  function GenerateInputValue(g: GenerateInput): Value {
    Obj(map[
      "destination" := Str(g.destination),
      "startDate" := Str(g.startDate),
      "duration" := Num(g.duration),
      "budget" := Str(g.budget),
      "themes" := Arr(seq(|g.themes|, i requires 0 <= i < |g.themes| => Str(g.themes[i]))),
      "numberOfTravellers" := Num(g.numberOfTravellers)])
  }

  /** Every request survives encoding and the request check unchanged. */
  lemma ParseGenerateInputValue(g: GenerateInput)
    ensures ParseGenerateInput(GenerateInputValue(g)) == Some(g)
  {
    var v := GenerateInputValue(g);
    assert IsGenerateInput(v);
    var r := ParseGenerateInput(v).value;
    assert |r.themes| == |g.themes|;
    assert forall i :: 0 <= i < |g.themes| ==> Str(r.themes[i]) == Str(g.themes[i]);
    assert r.themes == g.themes;
  }

  /** Beyond the itinerary's header fields, a request needs its start date,
      its number of travellers and its list of themes: without any one of
      them it fails the check. */
  lemma GenerateInputNeedsAll(g: GenerateInput, k: string)
    requires k == "startDate" || k == "numberOfTravellers" || k == "themes"
    ensures !IsGenerateInput(Obj(GenerateInputValue(g).fields - {k}))
  {
    assert k !in GenerateInputValue(g).fields - {k};
  }
}
