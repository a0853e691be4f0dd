/** The per-user booking list of the browser-side bookings hook: the list held
    in memory, its copy in local storage under `bookings_<uid>`, and the add
    and delete operations. The signed-in user, the clock and the storage are
    explicit parts of the state or parameters. */
module LocalBookings {
  import opened Wrappers
  import opened Strings
  import opened Schema

  /** A booking: every field of the itinerary, plus an id, a booking time and
      a status that is always `Confirmed`. */
  datatype Booking = Booking(trip: Itinerary, id: string, bookingDate: string, status: string)

  const Confirmed := "Confirmed"

  /** Local storage seen through the keys the hook uses; each entry is the
      decoded list stored under that key. */
  type Storage = map<string, seq<Booking>>

  function StorageKey(userId: string): string {
    "bookings_" + userId
  }

  /** Reading the list stored for a user; a missing entry reads as empty. */
  function Load(store: Storage, userId: string): seq<Booking> {
    var key := StorageKey(userId);
    if key in store then store[key] else []
  }

  /** Writing the list stored for a user. */
  function Save(store: Storage, userId: string, bookings: seq<Booking>): Storage {
    store[StorageKey(userId) := bookings]
  }

  /** A user with nothing stored yet has an empty list. */
  lemma LoadMissingIsEmpty(store: Storage, userId: string)
    requires StorageKey(userId) !in store
    ensures Load(store, userId) == []
  {
  }

  /** Storage keys do not collide: distinct users have distinct keys. */
  lemma StorageKeyInjective(u: string, w: string)
    ensures StorageKey(u) == StorageKey(w) <==> u == w
  {
    if StorageKey(u) == StorageKey(w) {
      assert u == StorageKey(u)[9..] && w == StorageKey(w)[9..];
    }
  }

  /** Saving then loading gives back the saved list and leaves every other
      user's list as it was. */
  lemma SaveThenLoad(store: Storage, userId: string, bookings: seq<Booking>, other: string)
    ensures Load(Save(store, userId, bookings), userId) == bookings
    ensures other != userId ==> Load(Save(store, userId, bookings), other) == Load(store, other)
  {
    StorageKeyInjective(userId, other);
  }

  datatype HookState = HookState(user: Option<string>, bookings: seq<Booking>, store: Storage)

  /** The id of a booking made for `destination` at `millis` milliseconds
      since the epoch. */
  function BookingId(destination: string, millis: nat): string {
    destination + "-" + DecimalString(millis)
  }

  /** For one destination, two booking times give the same id exactly when
      they are the same millisecond. */
  lemma BookingIdDeterminesTime(destination: string, t1: nat, t2: nat)
    ensures BookingId(destination, t1) == BookingId(destination, t2) <==> t1 == t2
  {
    if BookingId(destination, t1) == BookingId(destination, t2) {
      var n := |destination| + 1;
      assert BookingId(destination, t1)[n..] == DecimalString(t1);
      assert BookingId(destination, t2)[n..] == DecimalString(t2);
      DecimalStringInjective(t1, t2);
    }
  }

  function NewBooking(it: Itinerary, millis: nat, isoNow: string): Booking {
    Booking(it, BookingId(it.destination, millis), isoNow, Confirmed)
  }

  /** The effect that runs when the signed-in user changes: a user's stored
      list replaces the in-memory one; signing out keeps the list in memory. */
  function OnUserChange(st: HookState, user: Option<string>): (r: HookState)
    ensures r.user == user && r.store == st.store
    ensures user.Some? ==> r.bookings == Load(st.store, user.value)
    ensures user.None? ==> r.bookings == st.bookings
  {
    match user
    case Some(uid) => HookState(user, Load(st.store, uid), st.store)
    case None => st.(user := None)
  }

  /** `addBooking(itinerary)`, with the clock read as `millis` and `isoNow`. */
  function AddBooking(st: HookState, it: Itinerary, millis: nat, isoNow: string): (r: HookState)
    ensures st.user.None? ==> r == st
    ensures r.user == st.user
    ensures st.user.Some? ==>
      && |r.bookings| == |st.bookings| + 1
      && r.bookings[..|st.bookings|] == st.bookings
      && r.bookings[|st.bookings|].trip == it
      && r.bookings[|st.bookings|].id == it.destination + "-" + DecimalString(millis)
      && r.bookings[|st.bookings|].bookingDate == isoNow
      && r.bookings[|st.bookings|].status == Confirmed
    ensures st.user.Some? ==> Load(r.store, st.user.value) == r.bookings
    ensures st.user.Some? ==> forall u :: u != st.user.value ==> Load(r.store, u) == Load(st.store, u)
  {
    match st.user
    case None => st
    case Some(uid) =>
      var updated := st.bookings + [NewBooking(it, millis, isoNow)];
      assert updated[..|st.bookings|] == st.bookings;
      forall u | u != uid
        ensures Load(Save(st.store, uid, updated), u) == Load(st.store, u)
      {
        SaveThenLoad(st.store, uid, updated, u);
      }
      st.(bookings := updated, store := Save(st.store, uid, updated))
  }

  /** `bookings.filter(b => b.id !== id)` */
  function WithoutId(bookings: seq<Booking>, id: string): (r: seq<Booking>)
    ensures |r| <= |bookings|
    ensures forall k :: 0 <= k < |r| ==> r[k].id != id
    ensures forall k :: 0 <= k < |r| ==> r[k] in bookings
  {
    if |bookings| == 0 then []
    else (if bookings[0].id == id then [] else [bookings[0]]) + WithoutId(bookings[1..], id)
  }

  /** The filter keeps every booking with another id as often as it occurs,
      and no booking with this id. */
  lemma {:induction false} WithoutIdCounts(bookings: seq<Booking>, id: string, b: Booking)
    ensures multiset(WithoutId(bookings, id))[b] == if b.id == id then 0 else multiset(bookings)[b]
  {
    if |bookings| > 0 {
      assert bookings == [bookings[0]] + bookings[1..];
      WithoutIdCounts(bookings[1..], id, b);
    }
  }

  /** The filter keeps order: filtering a concatenation filters each part. */
  lemma {:induction false} WithoutIdDistributes(a: seq<Booking>, b: seq<Booking>, id: string)
    ensures WithoutId(a + b, id) == WithoutId(a, id) + WithoutId(b, id)
  {
    if |a| > 0 {
      var head := if a[0].id == id then [] else [a[0]];
      assert (a + b)[0] == a[0];
      assert (a + b)[1..] == a[1..] + b;
      assert WithoutId(a + b, id) == head + WithoutId(a[1..] + b, id);
      WithoutIdDistributes(a[1..], b, id);
      assert WithoutId(a, id) == head + WithoutId(a[1..], id);
    } else {
      assert a + b == b;
    }
  }

  /** Removing an id no booking has changes nothing. */
  lemma {:induction false} WithoutAbsentId(bookings: seq<Booking>, id: string)
    requires forall k :: 0 <= k < |bookings| ==> bookings[k].id != id
    ensures WithoutId(bookings, id) == bookings
  {
    if |bookings| > 0 {
      WithoutAbsentId(bookings[1..], id);
    }
  }

  /** `deleteBooking(id)` */
  function DeleteBooking(st: HookState, id: string): (r: HookState)
    ensures st.user.None? ==> r == st
    ensures r.user == st.user
    ensures st.user.Some? ==> r.bookings == WithoutId(st.bookings, id)
    ensures st.user.Some? ==> Load(r.store, st.user.value) == r.bookings
    ensures st.user.Some? ==> forall u :: u != st.user.value ==> Load(r.store, u) == Load(st.store, u)
  {
    match st.user
    case None => st
    case Some(uid) =>
      var updated := WithoutId(st.bookings, id);
      forall u | u != uid
        ensures Load(Save(st.store, uid, updated), u) == Load(st.store, u)
      {
        SaveThenLoad(st.store, uid, updated, u);
      }
      st.(bookings := updated, store := Save(st.store, uid, updated))
  }

  /** Deleting an id that is not in the list leaves the list as it was. */
  lemma DeleteAbsentIsNoOp(st: HookState, id: string)
    requires forall k :: 0 <= k < |st.bookings| ==> st.bookings[k].id != id
    ensures DeleteBooking(st, id).bookings == st.bookings
  {
    WithoutAbsentId(st.bookings, id);
  }

  /** Deleting twice is deleting once. */
  lemma DeleteIsIdempotent(st: HookState, id: string)
    ensures DeleteBooking(DeleteBooking(st, id), id) == DeleteBooking(st, id)
  {
    var once := DeleteBooking(st, id);
    if st.user.Some? {
      WithoutAbsentId(once.bookings, id);
    }
  }

  /** Two bookings for the same destination in the same millisecond, made
      in successive renders, get the same id, and one delete of that id
      removes both. */
  lemma SameMillisecondShareId(st: HookState, it1: Itinerary, it2: Itinerary, millis: nat, d1: string, d2: string)
    requires st.user.Some?
    requires it1.destination == it2.destination
    ensures var s2 := AddBooking(AddBooking(st, it1, millis, d1), it2, millis, d2);
      && s2.bookings[|st.bookings|].id == s2.bookings[|st.bookings| + 1].id
      && DeleteBooking(s2, BookingId(it1.destination, millis)).bookings
         == WithoutId(st.bookings, BookingId(it1.destination, millis))
  {
    var id := BookingId(it1.destination, millis);
    var s1 := AddBooking(st, it1, millis, d1);
    var s2 := AddBooking(s1, it2, millis, d2);
    var b1 := NewBooking(it1, millis, d1);
    var b2 := NewBooking(it2, millis, d2);
    assert s2.bookings == st.bookings + [b1] + [b2];
    WithoutIdDistributes(st.bookings + [b1], [b2], id);
    WithoutIdDistributes(st.bookings, [b1], id);
  }

  /** Two `addBooking` calls made from one render: both closures hold that
      render's list, so each builds on it, and the second call's state
      update and storage write replace the first's. */
  function AddTwiceInOneRender(st: HookState, it1: Itinerary, m1: nat, d1: string,
                               it2: Itinerary, m2: nat, d2: string): (r: HookState)
    ensures st.user.None? ==> r == st
    ensures r.user == st.user
    ensures st.user.Some? ==> r.bookings == st.bookings + [NewBooking(it2, m2, d2)]
    ensures st.user.Some? ==> Load(r.store, st.user.value) == r.bookings
  {
    var first := AddBooking(st, it1, m1, d1);
    var second := AddBooking(st, it2, m2, d2);
    match st.user
    case None => st
    case Some(uid) =>
      SaveThenLoad(first.store, uid, second.bookings, uid);
      HookState(st.user, second.bookings, Save(first.store, uid, second.bookings))
  }

  /** So the first of two adds in one render is lost, in memory and in
      storage, where successive renders keep both. */
  lemma SameRenderLosesFirstBooking(st: HookState, it1: Itinerary, m1: nat, d1: string,
                                    it2: Itinerary, m2: nat, d2: string)
    requires st.user.Some?
    requires NewBooking(it1, m1, d1) != NewBooking(it2, m2, d2)
    requires NewBooking(it1, m1, d1) !in st.bookings
    ensures NewBooking(it1, m1, d1) !in AddTwiceInOneRender(st, it1, m1, d1, it2, m2, d2).bookings
    ensures NewBooking(it1, m1, d1) in AddBooking(AddBooking(st, it1, m1, d1), it2, m2, d2).bookings
  {
    var s1 := AddBooking(st, it1, m1, d1);
    assert s1.bookings[|st.bookings|] == NewBooking(it1, m1, d1);
    assert AddBooking(s1, it2, m2, d2).bookings[|st.bookings|] == NewBooking(it1, m1, d1);
  }

  /** Signing in after an add or a delete reloads exactly the list in memory. */
  lemma StoredListMatchesMemory(st: HookState, it: Itinerary, millis: nat, isoNow: string, id: string)
    requires st.user.Some?
    ensures var r := AddBooking(st, it, millis, isoNow);
      OnUserChange(r, r.user).bookings == r.bookings
    ensures var r := DeleteBooking(st, id);
      OnUserChange(r, r.user).bookings == r.bookings
  {
  }
}
