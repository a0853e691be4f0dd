/** The bookings endpoint: the caller's user id from the `Authorization`
    header, GET (the caller's stored records that pass the booking check) and
    POST (store a validated itinerary as a new booking). The token verifier,
    the store, the id generator and the clock are parameters; a store
    operation that fails is a flag. */
module BookingsRoute {
  import opened Wrappers
  import opened Strings
  import opened Json
  import opened Schema

  const BearerPrefix := "Bearer "

  // ---------------------------------------------------------------------------
  // Authentication

  /** `authorization.split('Bearer ')[1]` for a header that starts with
      `Bearer `: the text after that prefix up to the next `Bearer ` or the
      end. Any other header, or none, gives no token. */
  function BearerToken(header: Option<string>): (token: Option<string>)
    ensures token.Some? <==> header.Some? && StartsWith(header.value, BearerPrefix)
    ensures token.Some? ==> IsPrefix(BearerPrefix + token.value, header.value)
    ensures token.Some? ==> !Contains(token.value, BearerPrefix)
  {
    if header.Some? && StartsWith(header.value, BearerPrefix) then
      var rest := header.value[|BearerPrefix|..];
      assert header.value == BearerPrefix + rest;
      match IndexOf(rest, BearerPrefix)
      case None => Some(rest)
      case Some(j) =>
        PrefixBeforeFirstOccurrence(rest, BearerPrefix, j);
        assert BearerPrefix + rest[..j] == header.value[..|BearerPrefix| + j];
        Some(rest[..j])
    else None
  }

  /** No occurrence of `Bearer ` starts inside a text that has none and runs
      into a following `Bearer `: the letter `B` occurs in it only first. */
  lemma NoOccurrenceAcrossPrefix(tok: string, more: string, j: nat)
    requires !Contains(tok, BearerPrefix)
    requires j < |tok|
    ensures !OccursAt(tok + BearerPrefix + more, BearerPrefix, j)
  {
    var s := tok + BearerPrefix + more;
    if j + |BearerPrefix| <= |tok| {
      assert !OccursAt(tok, BearerPrefix, j);
      assert s[j..j + |BearerPrefix|] == tok[j..j + |BearerPrefix|];
    } else {
      var k := |tok| - j;
      assert s[j + k] == 'B' && BearerPrefix[k] != 'B';
    }
  }

  /** The token is read back from `Bearer <token>`, alone or followed by a
      further `Bearer ` and anything. */
  lemma BearerTokenOfHeader(tok: string, more: string)
    requires !Contains(tok, BearerPrefix)
    ensures BearerToken(Some(BearerPrefix + tok)) == Some(tok)
    ensures BearerToken(Some(BearerPrefix + tok + BearerPrefix + more)) == Some(tok)
  {
    var h := BearerPrefix + tok + BearerPrefix + more;
    assert StartsWith(BearerPrefix + tok, BearerPrefix) by {
      assert (BearerPrefix + tok)[..|BearerPrefix|] == BearerPrefix;
    }
    assert (BearerPrefix + tok)[|BearerPrefix|..] == tok;
    assert StartsWith(h, BearerPrefix) by {
      assert h[..|BearerPrefix|] == BearerPrefix;
    }
    var rest := tok + BearerPrefix + more;
    assert h[|BearerPrefix|..] == rest;
    forall j: nat | j < |tok|
      ensures !OccursAt(rest, BearerPrefix, j)
    {
      NoOccurrenceAcrossPrefix(tok, more, j);
    }
    assert rest[|tok|..|tok| + |BearerPrefix|] == BearerPrefix;
    IndexOfIsFirstOccurrence(rest, BearerPrefix, |tok|);
    assert rest[..|tok|] == tok;
  }

  /** `getUserIdFromToken`: the verifier's user id for the token, none when
      there is no token or the verifier throws (`verify` answers None). */
  function UserIdFromToken(header: Option<string>, verify: string -> Option<string>): (uid: Option<string>)
    ensures BearerToken(header).None? ==> uid.None?
    ensures BearerToken(header).Some? ==> uid == verify(BearerToken(header).value)
  {
    var token :- BearerToken(header);
    verify(token)
  }

  /** `!userId` is false: a user id that is present and not empty. */
  predicate Authenticated(uid: Option<string>) {
    uid.Some? && uid.value != ""
  }

  datatype Response = Response(status: nat, body: Value)

  function Message(key: string, text: string): Value {
    Obj(map[key := Str(text)])
  }

  // ---------------------------------------------------------------------------
  // GET

  /** `.where('userId', '==', uid)` over the stored records, in store order. */
  function UserRecords(docs: seq<Value>, uid: string): (r: seq<Value>)
    ensures |r| <= |docs|
    ensures forall k :: 0 <= k < |r| ==> Prop(r[k], "userId") == Some(Str(uid))
  {
    if |docs| == 0 then []
    else (if Prop(docs[0], "userId") == Some(Str(uid)) then [docs[0]] else []) + UserRecords(docs[1..], uid)
  }

  /** `safeParse` of one record: the booking as the check yields it
      (unknown keys dropped), or nothing when the record fails. */
  function CheckBooking(d: Value): (r: Option<Value>)
    ensures r.Some? <==> ParseBooking(d).Some?
    ensures r.Some? ==> r.value == BookingValue(ParseBooking(d).value)
  {
    match ParseBooking(d)
    case Some(b) => Some(BookingValue(b))
    case None => None
  }

  /** The query returns every record of the user, as often as it is
      stored, and no other record. */
  lemma {:induction false} UserRecordsCounts(docs: seq<Value>, uid: string, d: Value)
    ensures multiset(UserRecords(docs, uid))[d]
      == if Prop(d, "userId") == Some(Str(uid)) then multiset(docs)[d] else 0
  {
    if |docs| > 0 {
      var head := if Prop(docs[0], "userId") == Some(Str(uid)) then [docs[0]] else [];
      assert docs == [docs[0]] + docs[1..];
      assert multiset(docs) == multiset([docs[0]]) + multiset(docs[1..]);
      assert multiset(UserRecords(docs, uid)) == multiset(head) + multiset(UserRecords(docs[1..], uid));
      UserRecordsCounts(docs[1..], uid, d);
    }
  }

  /** The records a check accepts, as it yields them, in order; the others
      are skipped. */
  function KeepChecked(docs: seq<Value>, check: Value -> Option<Value>): seq<Value> {
    if |docs| == 0 then []
    else (match check(docs[0]) case Some(v) => [v] case None => []) + KeepChecked(docs[1..], check)
  }

  lemma {:induction false} KeepCheckedDistributes(a: seq<Value>, b: seq<Value>, check: Value -> Option<Value>)
    ensures KeepChecked(a + b, check) == KeepChecked(a, check) + KeepChecked(b, check)
  {
    if |a| > 0 {
      assert (a + b)[0] == a[0];
      assert (a + b)[1..] == a[1..] + b;
      KeepCheckedDistributes(a[1..], b, check);
    } else {
      assert a + b == b;
    }
  }

  /** A value is kept exactly when the check yields it for some record. */
  lemma {:induction false} KeepCheckedContains(docs: seq<Value>, check: Value -> Option<Value>, v: Value)
    ensures v in KeepChecked(docs, check) <==> exists k :: 0 <= k < |docs| && check(docs[k]) == Some(v)
  {
    if |docs| > 0 {
      var head := match check(docs[0]) case Some(w) => [w] case None => [];
      KeepCheckedContains(docs[1..], check, v);
      assert KeepChecked(docs, check) == head + KeepChecked(docs[1..], check);
      if exists k :: 0 <= k < |docs| && check(docs[k]) == Some(v) {
        var k :| 0 <= k < |docs| && check(docs[k]) == Some(v);
        if k > 0 {
          assert docs[1..][k - 1] == docs[k];
        }
      }
      if exists k :: 0 <= k < |docs[1..]| && check(docs[1..][k]) == Some(v) {
        var k :| 0 <= k < |docs[1..]| && check(docs[1..][k]) == Some(v);
        assert docs[k + 1] == docs[1..][k];
      }
    }
  }

  /** Whatever holds of every accepted output holds of every kept record. */
  lemma {:induction false} KeepCheckedAll(docs: seq<Value>, check: Value -> Option<Value>, ok: Value -> bool)
    requires forall k :: 0 <= k < |docs| && check(docs[k]).Some? ==> ok(check(docs[k]).value)
    ensures forall k :: 0 <= k < |KeepChecked(docs, check)| ==> ok(KeepChecked(docs, check)[k])
  {
    if |docs| > 0 {
      var head := match check(docs[0]) case Some(v) => [v] case None => [];
      var rest := KeepChecked(docs[1..], check);
      assert forall k :: 1 <= k < |docs| ==> docs[1..][k - 1] == docs[k];
      KeepCheckedAll(docs[1..], check, ok);
      forall k | 0 <= k < |head + rest|
        ensures ok((head + rest)[k])
      {
        if k >= |head| {
          assert (head + rest)[k] == rest[k - |head|];
        }
      }
    }
  }

  /** The user's records that pass the booking check, in order. */
  function ValidBookings(docs: seq<Value>): seq<Value> {
    KeepChecked(docs, CheckBooking)
  }

  /** Every record kept passes the booking check again. */
  lemma ValidBookingsAreBookings(docs: seq<Value>)
    ensures forall k :: 0 <= k < |ValidBookings(docs)| ==> ParseBooking(ValidBookings(docs)[k]).Some?
  {
    forall k | 0 <= k < |docs| && CheckBooking(docs[k]).Some?
      ensures ParseBooking(CheckBooking(docs[k]).value).Some?
    {
      ParseBookingValue(ParseBooking(docs[k]).value);
    }
    KeepCheckedAll(docs, CheckBooking, v => ParseBooking(v).Some?);
  }

  lemma {:induction false} UserRecordsDistributes(a: seq<Value>, b: seq<Value>, uid: string)
    ensures UserRecords(a + b, uid) == UserRecords(a, uid) + UserRecords(b, uid)
  {
    if |a| > 0 {
      assert (a + b)[1..] == a[1..] + b;
      UserRecordsDistributes(a[1..], b, uid);
    } else {
      assert a + b == b;
    }
  }

  /** The check keeps order: checking a concatenation checks each part. */
  lemma ValidBookingsDistributes(a: seq<Value>, b: seq<Value>)
    ensures ValidBookings(a + b) == ValidBookings(a) + ValidBookings(b)
  {
    KeepCheckedDistributes(a, b, CheckBooking);
  }

  /** One record is kept, as the booking it describes, exactly when it
      passes the check. */
  lemma ValidBookingsSingle(d: Value)
    ensures ValidBookings([d]) == if ParseBooking(d).Some? then [BookingValue(ParseBooking(d).value)] else []
  {
    assert [d][1..] == [];
    assert KeepChecked([d], CheckBooking)
      == (match CheckBooking(d) case Some(v) => [v] case None => []) + KeepChecked([], CheckBooking);
  }

  /** Stored bookings come back as they were stored. */
  lemma {:induction false} ValidBookingsOfEncoded(bs: seq<StoredBooking>)
    ensures ValidBookings(seq(|bs|, k requires 0 <= k < |bs| => BookingValue(bs[k])))
      == seq(|bs|, k requires 0 <= k < |bs| => BookingValue(bs[k]))
  {
    var vs := seq(|bs|, k requires 0 <= k < |bs| => BookingValue(bs[k]));
    if |bs| > 0 {
      var tail := seq(|bs| - 1, k requires 0 <= k < |bs| - 1 => BookingValue(bs[1..][k]));
      assert vs == [vs[0]] + tail;
      ValidBookingsOfEncoded(bs[1..]);
      ValidBookingsDistributes([vs[0]], tail);
      ParseBookingValue(bs[0]);
      ValidBookingsSingle(vs[0]);
    }
  }

  /** `GET`: 401 without a user id; 500 when the query fails; otherwise the
      user's records that pass the booking check, in store order. */
  function Get(header: Option<string>, verify: string -> Option<string>, docs: seq<Value>, queryFails: bool): (r: Response)
    ensures !Authenticated(UserIdFromToken(header, verify)) ==> r.status == 401
    ensures Authenticated(UserIdFromToken(header, verify)) && queryFails ==> r.status == 500
    ensures r.status == 200 <==> Authenticated(UserIdFromToken(header, verify)) && !queryFails
  {
    var uid := UserIdFromToken(header, verify);
    if !Authenticated(uid) then Response(401, Message("error", "User not authenticated"))
    else if queryFails then Response(500, Message("error", "Failed to fetch bookings"))
    else Response(200, Arr(ValidBookings(UserRecords(docs, uid.value))))
  }

  /** Every record GET returns passes the booking check and belongs to the
      caller. */
  lemma GetReturnsOwnValidBookings(header: Option<string>, verify: string -> Option<string>, docs: seq<Value>)
    requires Authenticated(UserIdFromToken(header, verify))
    ensures var r := Get(header, verify, docs, false);
      && r.body.Arr?
      && forall k :: 0 <= k < |r.body.items| ==>
           ParseBooking(r.body.items[k]).Some? && ParseBooking(r.body.items[k]).value.userId == UserIdFromToken(header, verify).value
  {
    var uid := UserIdFromToken(header, verify).value;
    OwnRecordsStayOwn(UserRecords(docs, uid), uid);
  }

  /** A value is kept from the user's records exactly when the check
      yields it for some stored record of that user. */
  lemma KeptOwnRecords(docs: seq<Value>, uid: string, check: Value -> Option<Value>, v: Value)
    ensures v in KeepChecked(UserRecords(docs, uid), check)
      <==> exists k :: 0 <= k < |docs| && Prop(docs[k], "userId") == Some(Str(uid)) && check(docs[k]) == Some(v)
  {
    var own := UserRecords(docs, uid);
    KeepCheckedContains(own, check, v);
    if v in KeepChecked(own, check) {
      var j :| 0 <= j < |own| && check(own[j]) == Some(v);
      UserRecordsCounts(docs, uid, own[j]);
      assert own[j] in multiset(own);
      var k :| 0 <= k < |docs| && docs[k] == own[j];
      assert Prop(docs[k], "userId") == Some(Str(uid)) && check(docs[k]) == Some(v);
    }
    if exists k :: 0 <= k < |docs| && Prop(docs[k], "userId") == Some(Str(uid)) && check(docs[k]) == Some(v) {
      var k :| 0 <= k < |docs| && Prop(docs[k], "userId") == Some(Str(uid)) && check(docs[k]) == Some(v);
      UserRecordsCounts(docs, uid, docs[k]);
      assert docs[k] in multiset(own);
      var j :| 0 <= j < |own| && own[j] == docs[k];
      assert check(own[j]) == Some(v);
    }
  }

  /** GET lists every stored record of the caller that passes the booking
      check, as the check yields it, and nothing else. */
  lemma GetListsOwnValidBookings(header: Option<string>, verify: string -> Option<string>, docs: seq<Value>, v: Value)
    requires Authenticated(UserIdFromToken(header, verify))
    ensures var uid := UserIdFromToken(header, verify).value;
      (v in Get(header, verify, docs, false).body.items)
      == (exists k :: 0 <= k < |docs| && Prop(docs[k], "userId") == Some(Str(uid)) && CheckBooking(docs[k]) == Some(v))
  {
    var uid := UserIdFromToken(header, verify).value;
    assert Get(header, verify, docs, false).body.items == KeepChecked(UserRecords(docs, uid), CheckBooking);
    KeptOwnRecords(docs, uid, CheckBooking, v);
  }

  /** A record kept from records of one user belongs to that user. */
  lemma OwnRecordsStayOwn(docs: seq<Value>, uid: string)
    requires forall k :: 0 <= k < |docs| ==> Prop(docs[k], "userId") == Some(Str(uid))
    ensures forall k :: 0 <= k < |ValidBookings(docs)| ==>
      ParseBooking(ValidBookings(docs)[k]).Some? && ParseBooking(ValidBookings(docs)[k]).value.userId == uid
  {
    forall k | 0 <= k < |docs| && CheckBooking(docs[k]).Some?
      ensures ParseBooking(CheckBooking(docs[k]).value).Some?
      ensures ParseBooking(CheckBooking(docs[k]).value).value.userId == uid
    {
      var b := ParseBooking(docs[k]).value;
      assert StringField(docs[k].fields, "userId", b.userId);
      ParseBookingValue(b);
    }
    KeepCheckedAll(docs, CheckBooking, v => ParseBooking(v).Some? && ParseBooking(v).value.userId == uid);
  }

  // ---------------------------------------------------------------------------
  // POST

  /** `POST`: 401 without a user id; 500, storing nothing, when the body is
      not JSON (`body` None), fails the itinerary check, or cannot be
      written; otherwise one record is appended, made of the new document's
      id, the caller's user id, the itinerary's fields and the time. */
  function Post(header: Option<string>, verify: string -> Option<string>, body: Option<Value>,
                docs: seq<Value>, newId: string, isoNow: string, writeFails: bool): (r: (Response, seq<Value>))
    ensures r.0.status != 200 ==> r.1 == docs
    ensures !Authenticated(UserIdFromToken(header, verify)) ==> r.0.status == 401
    ensures r.0.status == 200 <==>
      Authenticated(UserIdFromToken(header, verify)) && body.Some? && ParseItinerary(body.value).Some? && !writeFails
    ensures r.0.status == 200 ==>
      r.1 == docs + [BookingValue(StoredBooking(newId, UserIdFromToken(header, verify).value, ParseItinerary(body.value).value, isoNow))]
  {
    var uid := UserIdFromToken(header, verify);
    if !Authenticated(uid) then (Response(401, Message("message", "User not authenticated.")), docs)
    else
      if body.None? || ParseItinerary(body.value).None? || writeFails then
        (Response(500, Obj(map["success" := Bool(false), "message" := Str("Failed to save booking")])), docs)
      else
        var trip := ParseItinerary(body.value).value;
        var record := BookingValue(StoredBooking(newId, uid.value, trip, isoNow));
        var text := "Your trip to " + trip.destination + " is confirmed. Happy travels!";
        (Response(200, Obj(map["success" := Bool(true), "message" := Str(text)])), docs + [record])
  }

  /** After a successful POST, the caller's GET lists what it listed before,
      followed by the new booking, which reads back as the posted itinerary. */
  lemma PostThenGet(header: Option<string>, verify: string -> Option<string>, body: Option<Value>,
                    docs: seq<Value>, newId: string, isoNow: string)
    requires Post(header, verify, body, docs, newId, isoNow, false).0.status == 200
    ensures var uid := UserIdFromToken(header, verify).value;
      var trip := ParseItinerary(body.value).value;
      Get(header, verify, Post(header, verify, body, docs, newId, isoNow, false).1, false).body.items
        == Get(header, verify, docs, false).body.items + [BookingValue(StoredBooking(newId, uid, trip, isoNow))]
  {
    var uid := UserIdFromToken(header, verify).value;
    var b := StoredBooking(newId, uid, ParseItinerary(body.value).value, isoNow);
    var record := BookingValue(b);
    assert Prop(record, "userId") == Some(Str(uid));
    UserRecordsDistributes(docs, [record], uid);
    assert UserRecords([record], uid) == [record];
    ValidBookingsDistributes(UserRecords(docs, uid), [record]);
    ParseBookingValue(b);
    ValidBookingsSingle(record);
  }
}
