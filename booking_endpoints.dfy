/** The booking routes (app/api/v1/endpoints/bookings.py) as guard chains over the stores. Each
    route takes the stores as they are and the caller (the account the token names), and
    answers an outcome together with the booking store after the request. */
module BookingEndpoints {
  import opened Common
  import opened BookingSchemas
  import opened UserModels
  import opened BookingModels

  /** `POST /bookings/`: only a client may book; the artisan must be an existing account of
      type artisan; the booking must be made for the caller. */
  function CreateBooking(bookings: seq<Booking>, users: seq<User>, caller: User, request: BookingCreate, freshId: string, now: int): (r: (Outcome<Booking>, seq<Booking>))
    ensures r.0.Fail? ==> r.1 == bookings && r.0.code in {403, 404}
    ensures r.0.Ok? ==> r.1 == bookings + [r.0.value] && caller.UserType() == "client" && r.0.value.clientId == caller.id
  {
    if caller.UserType() != CLIENT then (Fail(FORBIDDEN), bookings)
    else
      var artisan := FindUserById(users, request.artisanId);
      if artisan.None? || artisan.value.UserType() != ARTISAN then (Fail(NOT_FOUND), bookings)
      else if request.clientId != caller.id then (Fail(FORBIDDEN), bookings)
      else
        var b := NewBooking(freshId, request, now);
        (Ok(b), bookings + [b])
  }

  /** A booking is created exactly when the three conditions hold, and then it is the one new
      entry of the store; a refused request changes nothing. */
  lemma CreateBookingRule(bookings: seq<Booking>, users: seq<User>, caller: User, request: BookingCreate, freshId: string, now: int)
    ensures var (out, after) := CreateBooking(bookings, users, caller, request, freshId, now);
      && (out.Ok? <==>
            && caller.UserType() == "client"
            && FindUserById(users, request.artisanId).Some?
            && FindUserById(users, request.artisanId).value.UserType() == "artisan"
            && request.clientId == caller.id)
      && (out.Ok? ==> after == bookings + [out.value] && out.value.clientId == caller.id
                      && out.value.createdAt == now && out.value.updatedAt == now)
      && (out.Fail? ==> after == bookings && out.code in {403, 404})
  {
  }

  // ---------------------------------------------------------------------------------------------
  // GET /bookings/ and /bookings/my-bookings

  /** The listings' optional status narrowing of a query. */
  function WithStatus(query: Booking -> bool, status: Option<BookingStatus>): Booking -> bool {
    (b: Booking) => query(b) && (status.None? || b.status == status.value)
  }

  /** The bookings of the caller as client or as artisan; None for any other role. */
  function OwnBookings(caller: User): Option<Booking -> bool> {
    if caller.UserType() == CLIENT then Some((b: Booking) => b.clientId == caller.id)
    else if caller.UserType() == ARTISAN then Some((b: Booking) => b.artisanId == caller.id)
    else None
  }

  /** `get_all_bookings`: 422 for a negative skip or a limit outside 1..1000; 403 unless the
      caller is an admin; otherwise every booking, narrowed to the status asked for. */
  function AllBookings(bookings: seq<Booking>, users: seq<User>, caller: User, skip: int, limit: int, status: Option<BookingStatus>): Outcome<seq<DetailedBooking>> {
    if skip < 0 || limit < 1 || limit > 1000 then Fail(UNPROCESSABLE)
    else if caller.UserType() != ADMIN then Fail(FORBIDDEN)
    else Ok(BookingsWithDetails(bookings, users, WithStatus((b: Booking) => true, status), skip, limit))
  }

  /** `get_my_bookings`: 422 for a negative skip or a limit outside 1..100; 403 for a role other
      than client or artisan; otherwise the caller's own bookings, narrowed to the status asked
      for. */
  function MyBookings(bookings: seq<Booking>, users: seq<User>, caller: User, skip: int, limit: int, status: Option<BookingStatus>): Outcome<seq<DetailedBooking>> {
    if skip < 0 || limit < 1 || limit > 100 then Fail(UNPROCESSABLE)
    else if OwnBookings(caller).None? then Fail(FORBIDDEN)
    else Ok(BookingsWithDetails(bookings, users, WithStatus(OwnBookings(caller).value, status), skip, limit))
  }

  /** Only an admin lists every booking; the page holds at most `limit` stored bookings, of the
      status asked for, newest first. */
  lemma AllBookingsRule(bookings: seq<Booking>, users: seq<User>, caller: User, skip: int, limit: int, status: Option<BookingStatus>)
    ensures var r := AllBookings(bookings, users, caller, skip, limit, status);
      && (r.Ok? <==> 0 <= skip && 1 <= limit <= 1000 && caller.UserType() == "admin")
      && (r.Fail? && 0 <= skip && 1 <= limit <= 1000 ==> r.code == 403)
      && (r.Ok? ==>
            && |r.value| <= limit
            && (forall i | 0 <= i < |r.value| ::
                  r.value[i].booking in bookings && (status.Some? ==> r.value[i].booking.status == status.value))
            && (forall i, j | 0 <= i < j < |r.value| :: r.value[i].booking.createdAt >= r.value[j].booking.createdAt))
  {
    if 0 <= skip && 1 <= limit <= 1000 && caller.UserType() == ADMIN {
      DetailsSelectedNewestFirst(bookings, users, WithStatus((b: Booking) => true, status), skip, limit);
    }
  }

  /** A client lists only the bookings they made, an artisan only the ones made with them; the
      page holds at most `limit` bookings, of the status asked for, newest first. */
  lemma MyBookingsRule(bookings: seq<Booking>, users: seq<User>, caller: User, skip: int, limit: int, status: Option<BookingStatus>)
    ensures var r := MyBookings(bookings, users, caller, skip, limit, status);
      && (r.Ok? <==> 0 <= skip && 1 <= limit <= 100 && caller.UserType() in {"client", "artisan"})
      && (r.Fail? && 0 <= skip && 1 <= limit <= 100 ==> r.code == 403)
      && (r.Ok? ==>
            && |r.value| <= limit
            && (forall i | 0 <= i < |r.value| ::
                  var b := r.value[i].booking;
                  && b in bookings
                  && (caller.UserType() == "client" ==> b.clientId == caller.id)
                  && (caller.UserType() == "artisan" ==> b.artisanId == caller.id)
                  && (status.Some? ==> b.status == status.value))
            && (forall i, j | 0 <= i < j < |r.value| :: r.value[i].booking.createdAt >= r.value[j].booking.createdAt))
  {
    if 0 <= skip && 1 <= limit <= 100 && OwnBookings(caller).Some? {
      DetailsSelectedNewestFirst(bookings, users, WithStatus(OwnBookings(caller).value, status), skip, limit);
    }
  }

  // ---------------------------------------------------------------------------------------------
  // GET /bookings/{id}

  /** The detailed lookup the route performs: the one booking with that id, if its listing
      succeeds. */
  function DetailedLookup(bookings: seq<Booking>, users: seq<User>, bookingId: string): seq<DetailedBooking>
    requires IsObjectId(bookingId)
  {
    BookingsWithDetails(bookings, users, ById(CanonicalId(bookingId)), 0, 1)
  }

  function ById(key: string): Booking -> bool {
    (b: Booking) => b.id == key
  }

  /** `get_booking` as written: the 404 and the 403 are raised inside a `try` whose
      `except Exception` turns every error, those two included, into a 500. */
  function GetBookingAsWritten(bookings: seq<Booking>, users: seq<User>, caller: User, bookingId: string): Outcome<DetailedBooking> {
    if !IsObjectId(bookingId) then Fail(INTERNAL_ERROR)
    else
      var found := DetailedLookup(bookings, users, bookingId);
      if found == [] then Fail(INTERNAL_ERROR)
      else if !found[0].booking.HasParticipant(caller.id) then Fail(INTERNAL_ERROR)
      else Ok(found[0])
  }

  /** `get_booking` as intended: the route's own HTTP errors pass through, so a missing booking
      is a 404 and a caller who is neither party gets a 403. Only the failure of `ObjectId`
      on a malformed id remains a 500. */
  function GetBooking(bookings: seq<Booking>, users: seq<User>, caller: User, bookingId: string): (r: Outcome<DetailedBooking>)
    ensures r.Fail? ==> r.code in {403, 404, 500}
    ensures r.Ok? ==> r.value.booking.HasParticipant(caller.id)
  {
    if !IsObjectId(bookingId) then Fail(INTERNAL_ERROR)
    else
      var found := DetailedLookup(bookings, users, bookingId);
      if found == [] then Fail(NOT_FOUND)
      else if !found[0].booking.HasParticipant(caller.id) then Fail(FORBIDDEN)
      else Ok(found[0])
  }

  /** The written route never answers 404 or 403: its guards are unobservable. */
  lemma GetBookingAsWrittenHidesGuards(bookings: seq<Booking>, users: seq<User>, caller: User, bookingId: string)
    ensures GetBookingAsWritten(bookings, users, caller, bookingId).Fail? ==>
      GetBookingAsWritten(bookings, users, caller, bookingId).code == 500
  {
  }

  /** A concrete request that shows it: a well-formed id of a booking that does not exist. */
  lemma GetBookingMissingIs500(caller: User)
    ensures GetBookingAsWritten([], [], caller, "000000000000000000000000") == Fail(500)
    ensures GetBooking([], [], caller, "000000000000000000000000") == Fail(404)
  {
    var id := "000000000000000000000000";
    assert IsObjectId(id);
  }

  /** The corrected route: it answers exactly when the written one does, with the same
      booking, and a party of the booking always sees it; otherwise 404 when the listing is
      empty and 403 when the caller is neither party. */
  lemma GetBookingGuards(bookings: seq<Booking>, users: seq<User>, caller: User, bookingId: string)
    ensures GetBooking(bookings, users, caller, bookingId).Ok? == GetBookingAsWritten(bookings, users, caller, bookingId).Ok?
    ensures GetBooking(bookings, users, caller, bookingId).Ok? ==>
      GetBooking(bookings, users, caller, bookingId) == GetBookingAsWritten(bookings, users, caller, bookingId)
    ensures IsObjectId(bookingId) && DetailedLookup(bookings, users, bookingId) == [] ==>
      GetBooking(bookings, users, caller, bookingId) == Fail(404)
    ensures IsObjectId(bookingId) && DetailedLookup(bookings, users, bookingId) != [] ==>
      var b := DetailedLookup(bookings, users, bookingId)[0].booking;
      && b.id == CanonicalId(bookingId)
      && (GetBooking(bookings, users, caller, bookingId).Ok? <==> b.HasParticipant(caller.id))
      && (!b.HasParticipant(caller.id) ==> GetBooking(bookings, users, caller, bookingId) == Fail(403))
  {
    if IsObjectId(bookingId) {
      var found := DetailedLookup(bookings, users, bookingId);
      if found != [] {
        var key := CanonicalId(bookingId);
        var cursor := DetailsCursor(bookings, ById(key), 0, 1);
        var filtered := Filter(bookings, ById(key));
        SortByIsSortedPermutation(filtered, NewestFirst());
        var sorted := SortBy(filtered, NewestFirst());
        assert cursor[0] == sorted[0];
        assert sorted[0] in multiset(filtered);
        assert sorted[0] in filtered;
      }
    }
  }

  // ---------------------------------------------------------------------------------------------
  // PUT /bookings/{id}

  /** The fields each role may change (`model_dump(exclude_unset=True)` then the
      `allowed_fields` comprehension); None for a role that may change nothing. */
  function FieldsForRole(u: BookingUpdate, role: string): (r: Option<BookingUpdate>)
    ensures r.Some? <==> role in {"client", "artisan", "admin"}
    ensures role == "client" ==> r == Some(BookingUpdate(None, None, u.description, u.urgency, u.address))
    ensures role == "artisan" ==> r == Some(BookingUpdate(u.scheduledDate, u.status, None, None, None))
    ensures role == "admin" ==> r == Some(u)
  {
    if role == CLIENT then Some(u.(scheduledDate := None, status := None))
    else if role == ARTISAN then Some(u.(description := None, urgency := None, address := None))
    else if role == ADMIN then Some(u)
    else None
  }

  /** A field survives the filter only when the role may change it, and then unchanged. */
  lemma FieldsForRoleKeepsOnlyAllowed(u: BookingUpdate, role: string)
    requires FieldsForRole(u, role).Some?
    ensures var f := FieldsForRole(u, role).value;
      && (f.description.Some? ==> role != "artisan" && f.description == u.description)
      && (f.urgency.Some? ==> role != "artisan" && f.urgency == u.urgency)
      && (f.address.Some? ==> role != "artisan" && f.address == u.address)
      && (f.scheduledDate.Some? ==> role != "client" && f.scheduledDate == u.scheduledDate)
      && (f.status.Some? ==> role != "client" && f.status == u.status)
  {
  }

  /** The ownership guard of a role: a client must be the booking's client, an artisan its
      artisan; an admin passes. */
  predicate OwnsForRole(b: Booking, caller: User) {
    && (caller.UserType() == CLIENT ==> b.clientId == caller.id)
    && (caller.UserType() == ARTISAN ==> b.artisanId == caller.id)
  }

  /** `update_booking`: 404 when the booking is not found; 403 for a client or artisan who does
      not own it and for any other role but admin; 400 when no allowed field is left; 500 when
      the store reports nothing modified. */
  function UpdateBooking(bookings: seq<Booking>, caller: User, bookingId: string, u: BookingUpdate, now: int): (r: (Outcome<Booking>, seq<Booking>))
    ensures r.0.Fail? ==> r.1 == bookings && r.0.code in {400, 403, 404, 500}
    ensures r.0.Ok? ==> caller.UserType() in {"client", "artisan", "admin"} && FindBookingById(bookings, bookingId).Some?
  {
    var found := FindBookingById(bookings, bookingId);
    if found.None? then (Fail(NOT_FOUND), bookings)
    else
      var role := caller.UserType();
      if (role == CLIENT || role == ARTISAN) && !OwnsForRole(found.value, caller) then (Fail(FORBIDDEN), bookings)
      else
        var fields := FieldsForRole(u, role);
        if fields.None? then (Fail(FORBIDDEN), bookings)
        else if fields.value.IsEmpty() then (Fail(BAD_REQUEST), bookings)
        else
          var (answer, after) := UpdateOutcome(bookings, bookingId, fields.value, now);
          if answer.None? then (Fail(INTERNAL_ERROR), bookings) else (Ok(answer.value), after)
  }

  /** What `update_booking` lets through: the booking exists, the caller is a client or artisan
      owning it or an admin, and the role's filter leaves some field; the stored booking then
      has exactly the filtered fields applied. */
  lemma UpdateBookingRule(bookings: seq<Booking>, caller: User, bookingId: string, u: BookingUpdate, now: int)
    ensures var (out, after) := UpdateBooking(bookings, caller, bookingId, u, now);
      && (out.Fail? ==> after == bookings)
      && (out.Ok? ==>
            && FindBookingById(bookings, bookingId).Some?
            && caller.UserType() in {"client", "artisan", "admin"}
            && OwnsForRole(FindBookingById(bookings, bookingId).value, caller)
            && !FieldsForRole(u, caller.UserType()).value.IsEmpty()
            && out.value == ApplyUpdate(FindBookingById(bookings, bookingId).value, FieldsForRole(u, caller.UserType()).value, now)
            && FindBookingById(after, bookingId) == Some(out.value)
            && ReplacedInPlace(bookings, FindBookingById(bookings, bookingId).value, after, out.value))
      && (FindBookingById(bookings, bookingId).None? ==> out == Fail(404))
      && (FindBookingById(bookings, bookingId).Some? && caller.UserType() !in {"client", "artisan", "admin"} ==> out == Fail(403))
      && (var b := FindBookingById(bookings, bookingId);
          (b.Some? && caller.UserType() in {"client", "artisan"} && !OwnsForRole(b.value, caller)) ==> out == Fail(403))
      && (var b := FindBookingById(bookings, bookingId);
          var fields := FieldsForRole(u, caller.UserType());
          (b.Some? && fields.Some? && OwnsForRole(b.value, caller) && fields.value.IsEmpty()) ==> out == Fail(400))
      && (var b := FindBookingById(bookings, bookingId);
          var fields := FieldsForRole(u, caller.UserType());
          (b.Some? && fields.Some? && OwnsForRole(b.value, caller) && !fields.value.IsEmpty()
           && ApplyUpdate(b.value, fields.value, now) != b.value) ==> out.Ok?)
  {
    var found := FindBookingById(bookings, bookingId);
    var fields := FieldsForRole(u, caller.UserType());
    if found.Some? && fields.Some? {
      UpdateOutcomeSpec(bookings, bookingId, fields.value, now);
      if ApplyUpdate(found.value, fields.value, now) != found.value {
        UpdateSucceedsWhenSomethingChanges(bookings, bookingId, fields.value, now);
      }
    }
  }

  /** A client's update that names only artisan fields is refused as empty. */
  lemma ClientCannotReschedule(bookings: seq<Booking>, caller: User, bookingId: string, date: int, status: BookingStatus, now: int)
    requires caller.UserType() == "client"
    requires FindBookingById(bookings, bookingId).Some? && FindBookingById(bookings, bookingId).value.clientId == caller.id
    ensures UpdateBooking(bookings, caller, bookingId, BookingUpdate(Some(date), Some(status), None, None, None), now).0 == Fail(400)
  {
  }

  // ---------------------------------------------------------------------------------------------
  // PUT /bookings/{id}/schedule and /status

  predicate IsBookingArtisan(b: Booking, caller: User) {
    caller.UserType() == ARTISAN && b.artisanId == caller.id
  }

  /** `update_booking_schedule`: 404, then 403 unless the caller is the booking's artisan, then
      400 for a date (naive read as UTC) strictly before now, then 500 when nothing changed. */
  function UpdateSchedule(bookings: seq<Booking>, caller: User, bookingId: string, date: DateTime, now: int): (r: (Outcome<Booking>, seq<Booking>))
    ensures r.0.Fail? ==> r.1 == bookings && r.0.code in {400, 403, 404, 500}
    ensures r.0.Ok? ==> caller.UserType() == "artisan" && Instant(date) >= now
  {
    var found := FindBookingById(bookings, bookingId);
    if found.None? then (Fail(NOT_FOUND), bookings)
    else if !IsBookingArtisan(found.value, caller) then (Fail(FORBIDDEN), bookings)
    else if Instant(date) < now then (Fail(BAD_REQUEST), bookings)
    else
      var (answer, after) := UpdateOutcome(bookings, bookingId, ScheduleOnly(Instant(date)), now);
      if answer.None? then (Fail(INTERNAL_ERROR), bookings) else (Ok(answer.value), after)
  }

  /** Only the booking's own artisan reschedules; the new date is not before now (a date equal
      to now is accepted, unlike the creation schema) and only the date and `updated_at`
      change. */
  lemma UpdateScheduleRule(bookings: seq<Booking>, caller: User, bookingId: string, date: DateTime, now: int)
    ensures var (out, after) := UpdateSchedule(bookings, caller, bookingId, date, now);
      && (out.Fail? ==> after == bookings)
      && (out.Ok? ==>
            && FindBookingById(bookings, bookingId).Some?
            && IsBookingArtisan(FindBookingById(bookings, bookingId).value, caller)
            && Instant(date) >= now
            && out.value == FindBookingById(bookings, bookingId).value.(scheduledDate := Instant(date), updatedAt := now)
            && FindBookingById(after, bookingId) == Some(out.value)
            && ReplacedInPlace(bookings, FindBookingById(bookings, bookingId).value, after, out.value))
      && (var b := FindBookingById(bookings, bookingId);
          (b.Some? && IsBookingArtisan(b.value, caller) && Instant(date) >= now
           && b.value.(scheduledDate := Instant(date), updatedAt := now) != b.value) ==> out.Ok?)
  {
    var found := FindBookingById(bookings, bookingId);
    if found.Some? {
      UpdateOutcomeSpec(bookings, bookingId, ScheduleOnly(Instant(date)), now);
      WrappersSetOneField(found.value, found.value.status, Instant(date), now);
      if IsBookingArtisan(found.value, caller) && Instant(date) >= now
         && ApplyUpdate(found.value, ScheduleOnly(Instant(date)), now) != found.value {
        UpdateSucceedsWhenSomethingChanges(bookings, bookingId, ScheduleOnly(Instant(date)), now);
      }
    }
  }

  /** `update_booking_status`: 404, then 403 unless the caller is the booking's artisan, then
      500 when nothing changed. */
  function UpdateStatus(bookings: seq<Booking>, caller: User, bookingId: string, status: BookingStatus, now: int): (r: (Outcome<Booking>, seq<Booking>))
    ensures r.0.Fail? ==> r.1 == bookings && r.0.code in {403, 404, 500}
    ensures r.0.Ok? ==> caller.UserType() == "artisan"
  {
    var found := FindBookingById(bookings, bookingId);
    if found.None? then (Fail(NOT_FOUND), bookings)
    else if !IsBookingArtisan(found.value, caller) then (Fail(FORBIDDEN), bookings)
    else
      var (answer, after) := UpdateOutcome(bookings, bookingId, StatusOnly(status), now);
      if answer.None? then (Fail(INTERNAL_ERROR), bookings) else (Ok(answer.value), after)
  }

  lemma UpdateStatusRule(bookings: seq<Booking>, caller: User, bookingId: string, status: BookingStatus, now: int)
    ensures var (out, after) := UpdateStatus(bookings, caller, bookingId, status, now);
      && (out.Fail? ==> after == bookings)
      && (out.Ok? ==>
            && FindBookingById(bookings, bookingId).Some?
            && IsBookingArtisan(FindBookingById(bookings, bookingId).value, caller)
            && out.value == FindBookingById(bookings, bookingId).value.(status := status, updatedAt := now)
            && FindBookingById(after, bookingId) == Some(out.value)
            && ReplacedInPlace(bookings, FindBookingById(bookings, bookingId).value, after, out.value))
      && (FindBookingById(bookings, bookingId).None? ==> out == Fail(404))
      && (var b := FindBookingById(bookings, bookingId);
          (b.Some? && !IsBookingArtisan(b.value, caller)) ==> out == Fail(403))
      && (var b := FindBookingById(bookings, bookingId);
          (b.Some? && IsBookingArtisan(b.value, caller)
           && b.value.(status := status, updatedAt := now) != b.value) ==> out.Ok?)
  {
    var found := FindBookingById(bookings, bookingId);
    if found.Some? {
      UpdateOutcomeSpec(bookings, bookingId, StatusOnly(status), now);
      WrappersSetOneField(found.value, status, found.value.scheduledDate, now);
      if IsBookingArtisan(found.value, caller) && ApplyUpdate(found.value, StatusOnly(status), now) != found.value {
        UpdateSucceedsWhenSomethingChanges(bookings, bookingId, StatusOnly(status), now);
      }
    }
  }

  // ---------------------------------------------------------------------------------------------
  // DELETE /bookings/{id}

  /** `delete_booking`: 404, then a client must own the booking and every role other than
      client and admin is refused, then 500 when the store deletes nothing. */
  function DeleteBooking(bookings: seq<Booking>, caller: User, bookingId: string): (r: (Outcome<()>, seq<Booking>))
    ensures r.0.Fail? ==> r.1 == bookings && r.0.code in {403, 404, 500}
    ensures r.0.Ok? ==> caller.UserType() in {"client", "admin"}
  {
    var found := FindBookingById(bookings, bookingId);
    if found.None? then (Fail(NOT_FOUND), bookings)
    else if caller.UserType() == CLIENT && found.value.clientId != caller.id then (Fail(FORBIDDEN), bookings)
    else if caller.UserType() != CLIENT && caller.UserType() != ADMIN then (Fail(FORBIDDEN), bookings)
    else
      var (deleted, after) := DeleteOutcome(bookings, bookingId);
      if !deleted then (Fail(INTERNAL_ERROR), bookings) else (Ok(()), after)
  }

  /** Deletion succeeds exactly for the owning client or an admin on an existing booking;
      artisans are always refused. */
  lemma DeleteBookingRule(bookings: seq<Booking>, caller: User, bookingId: string)
    ensures var (out, after) := DeleteBooking(bookings, caller, bookingId);
      && (out.Ok? <==>
            && FindBookingById(bookings, bookingId).Some?
            && (caller.UserType() == "admin"
                || (caller.UserType() == "client" && FindBookingById(bookings, bookingId).value.clientId == caller.id)))
      && (out.Ok? ==>
            && |after| == |bookings| - 1
            && multiset(after) + multiset{FindBookingById(bookings, bookingId).value} == multiset(bookings)
            && RemovedInPlace(bookings, FindBookingById(bookings, bookingId).value, after))
      && (out.Fail? ==> after == bookings)
      && (caller.UserType() == "artisan" ==> out.Fail? && out.code in {403, 404})
  {
    DeleteOutcomeSpec(bookings, bookingId);
  }

  // ---------------------------------------------------------------------------------------------
  // GET /bookings/stats/me

  datatype BookingStats = BookingStats(total: nat, pending: nat, confirmed: nat, inProgress: nat, completed: nat, cancelled: nat) {
    function BucketSum(): nat {
      pending + confirmed + inProgress + completed + cancelled
    }
  }

  function HasStatus(s: BookingStatus): DetailedBooking -> bool {
    (d: DetailedBooking) => d.booking.status == s
  }

  /** `get_my_booking_stats`: 403 for a role other than client or artisan; otherwise the
      number of listed bookings and, in one pass, a counter per status that has a bucket
      (rejected bookings count in the total only). */
  method MyBookingStats(bookings: seq<Booking>, users: seq<User>, caller: User) returns (r: Outcome<BookingStats>)
    ensures OwnBookings(caller).None? <==> r == Fail(FORBIDDEN)
    ensures r.Ok? ==>
      var listed := BookingsWithDetails(bookings, users, OwnBookings(caller).value, 0, 1000);
      r.value == CountedStats(listed)
  {
    var query := OwnBookings(caller);
    if query.None? {
      return Fail(FORBIDDEN);
    }
    var listed := BookingsWithDetails(bookings, users, query.value, 0, 1000);
    var stats := CountStatuses(listed);
    return Ok(stats);
  }

  /** The statistics of a listing, bucket by bucket. */
  function CountedStats(listed: seq<DetailedBooking>): BookingStats {
    BookingStats(|listed|, Count(listed, HasStatus(Pending)), Count(listed, HasStatus(Confirmed)),
                 Count(listed, HasStatus(InProgress)), Count(listed, HasStatus(Completed)),
                 Count(listed, HasStatus(Cancelled)))
  }

  /** The counting loop of `get_my_booking_stats`. */
  method CountStatuses(listed: seq<DetailedBooking>) returns (stats: BookingStats)
    ensures stats == CountedStats(listed)
  {
    stats := BookingStats(|listed|, 0, 0, 0, 0, 0);
    var i := 0;
    while i < |listed|
      invariant 0 <= i <= |listed|
      invariant stats == CountedStats(listed[..i]).(total := |listed|)
    {
      assert listed[..i + 1][..i] == listed[..i];
      match listed[i].booking.status {
        case Pending => stats := stats.(pending := stats.pending + 1);
        case Confirmed => stats := stats.(confirmed := stats.confirmed + 1);
        case InProgress => stats := stats.(inProgress := stats.inProgress + 1);
        case Completed => stats := stats.(completed := stats.completed + 1);
        case Cancelled => stats := stats.(cancelled := stats.cancelled + 1);
        case Rejected =>
      }
      i := i + 1;
    }
    assert listed[..i] == listed;
  }

  /** The buckets add up to the total less the rejected bookings, so never more than it. */
  lemma {:induction false} BucketsMissOnlyRejected(listed: seq<DetailedBooking>)
    ensures CountedStats(listed).BucketSum() + Count(listed, HasStatus(Rejected)) == |listed|
    ensures CountedStats(listed).BucketSum() <= CountedStats(listed).total
    decreases |listed|
  {
    if listed != [] {
      BucketsMissOnlyRejected(listed[..|listed| - 1]);
    }
  }
}
