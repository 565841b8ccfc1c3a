/** The booking store (app/models/booking_models.py): creation stamps, the guarded lookup by id,
    the `$set` update that reports "nothing modified" as None, its one-field wrappers, deletion,
    and the detailed listing with the client-address fallback. */
module BookingModels {
  import opened Common
  import opened BookingSchemas
  import opened UserModels

  datatype Booking = Booking(
    id: string,
    clientId: string,
    artisanId: string,
    scheduledDate: int,
    description: string,
    urgency: bool,
    address: Option<string>,
    status: BookingStatus,
    createdAt: int,
    updatedAt: int)
  {
    predicate HasParticipant(userId: string) {
      clientId == userId || artisanId == userId
    }
  }

  /** `find_booking_by_id`: None for an empty or blank id and for a string that is not an
      object id; otherwise the first booking with that id. */
  function FindBookingById(bookings: seq<Booking>, bookingId: string): (r: Option<Booking>)
    ensures !NonBlank(bookingId) ==> r.None?
    ensures !IsObjectId(bookingId) ==> r.None?
    ensures r.Some? <==> IsObjectId(bookingId) && exists i | 0 <= i < |bookings| :: bookings[i].id == CanonicalId(bookingId)
    ensures r.Some? ==> r.value in bookings && r.value.id == CanonicalId(bookingId)
  {
    if bookingId == "" || !NonBlank(bookingId) then None
    else if !IsObjectId(bookingId) then None
    else
      var i := IndexWhere(bookings, (b: Booking) => b.id == CanonicalId(bookingId));
      if i.Some? then Some(bookings[i.value]) else None
  }

  /** The booking `create_booking` inserts: the validated request, stamped at `now`. */
  function NewBooking(id: string, request: BookingCreate, now: int): (b: Booking)
    ensures b.createdAt == now && b.updatedAt == now
    ensures b.clientId == request.clientId && b.artisanId == request.artisanId && b.status == request.status
  {
    Booking(id, request.clientId, request.artisanId, request.scheduledDate, request.description,
            request.urgency, request.address, request.status, now, now)
  }

  /** The booking after `$set` with the given fields and `updated_at = now`. */
  function ApplyUpdate(b: Booking, u: BookingUpdate, now: int): (r: Booking)
    ensures r.id == b.id && r.clientId == b.clientId && r.artisanId == b.artisanId && r.createdAt == b.createdAt
    ensures r.updatedAt == now
    ensures r.scheduledDate == (if u.scheduledDate.Some? then u.scheduledDate.value else b.scheduledDate)
    ensures r.status == (if u.status.Some? then u.status.value else b.status)
    ensures r.description == (if u.description.Some? then u.description.value else b.description)
    ensures r.urgency == (if u.urgency.Some? then u.urgency.value else b.urgency)
    ensures r.address == (if u.address.Some? then u.address.value else b.address)
  {
    b.(scheduledDate := u.scheduledDate.GetOr(b.scheduledDate),
       status := u.status.GetOr(b.status),
       description := u.description.GetOr(b.description),
       urgency := u.urgency.GetOr(b.urgency),
       address := u.address.GetOr(b.address),
       updatedAt := now)
  }

  function StatusOnly(status: BookingStatus): BookingUpdate {
    BookingUpdate(None, Some(status), None, None, None)
  }

  function ScheduleOnly(scheduledDate: int): BookingUpdate {
    BookingUpdate(Some(scheduledDate), None, None, None, None)
  }

  /** The wrappers set only their one field, plus `updated_at`. */
  lemma WrappersSetOneField(b: Booking, status: BookingStatus, date: int, now: int)
    ensures ApplyUpdate(b, StatusOnly(status), now) == b.(status := status, updatedAt := now)
    ensures ApplyUpdate(b, ScheduleOnly(date), now) == b.(scheduledDate := date, updatedAt := now)
  {
  }

  /** The store after `update_booking` and its answer: an id that is not an object id raises
      and is answered None; a missing booking or a `$set` that changes nothing modifies no
      document and is answered None; otherwise the booking is replaced and read back. */
  function UpdateOutcome(bookings: seq<Booking>, bookingId: string, u: BookingUpdate, now: int): (Option<Booking>, seq<Booking>) {
    if !IsObjectId(bookingId) then (None, bookings)
    else
      var i := IndexWhere(bookings, (b: Booking) => b.id == CanonicalId(bookingId));
      if i.None? then (None, bookings)
      else
        var updated := ApplyUpdate(bookings[i.value], u, now);
        if updated == bookings[i.value] then (None, bookings)
        else
          var after := bookings[i.value := updated];
          (FindBookingById(after, bookingId), after)
  }

  /** A successful update answers the stored booking with the fields applied and `updated_at`
      set; None leaves the store as it was. */
  lemma UpdateOutcomeSpec(bookings: seq<Booking>, bookingId: string, u: BookingUpdate, now: int)
    ensures var (answer, after) := UpdateOutcome(bookings, bookingId, u, now);
      && (answer.None? ==> after == bookings)
      && (answer.Some? ==>
            && FindBookingById(bookings, bookingId).Some?
            && answer.value == ApplyUpdate(FindBookingById(bookings, bookingId).value, u, now)
            && answer.value != FindBookingById(bookings, bookingId).value
            && answer.value.updatedAt == now
            && FindBookingById(after, bookingId) == answer
            && |after| == |bookings|
            && ReplacedInPlace(bookings, FindBookingById(bookings, bookingId).value, after, answer.value))
  {
    var (answer, after) := UpdateOutcome(bookings, bookingId, u, now);
    if answer.Some? {
      var key := CanonicalId(bookingId);
      var i := IndexWhere(bookings, (b: Booking) => b.id == key).value;
      var j := IndexWhere(after, (b: Booking) => b.id == key);
      assert after[i].id == key;
      assert forall k | 0 <= k < i :: after[k] == bookings[k];
      assert j.Some? && j.value == i;
      assert bookings[i] == FindBookingById(bookings, bookingId).value;
      assert after == bookings[i := answer.value];
    }
  }

  /** A booking that exists and whose fields actually change is always updated. */
  lemma UpdateSucceedsWhenSomethingChanges(bookings: seq<Booking>, bookingId: string, u: BookingUpdate, now: int)
    requires FindBookingById(bookings, bookingId).Some?
    requires ApplyUpdate(FindBookingById(bookings, bookingId).value, u, now) != FindBookingById(bookings, bookingId).value
    ensures UpdateOutcome(bookings, bookingId, u, now).0.Some?
  {
    UpdateOutcomeSpec(bookings, bookingId, u, now);
    var key := CanonicalId(bookingId);
    var i := IndexWhere(bookings, (b: Booking) => b.id == key).value;
    var after := bookings[i := ApplyUpdate(bookings[i], u, now)];
    assert after[i].id == key;
    var j := IndexWhere(after, (b: Booking) => b.id == key);
    assert j.Some?;
  }

  /** The client address of a detailed booking: `profile_data.address` when the profile is a
      dictionary and that address is truthy, otherwise the top-level `address` (Null when
      absent). */
  function ClientAddress(client: Doc): (a: Value)
    ensures "profile_data" in client && client["profile_data"].Dict? && TruthyAt(client["profile_data"].fields, "address")
            ==> a == client["profile_data"].fields["address"]
    ensures !("profile_data" in client && client["profile_data"].Dict? && TruthyAt(client["profile_data"].fields, "address"))
            ==> a == Get(client, "address").GetOr(Null)
  {
    var profile := Get(client, "profile_data").GetOr(Dict(map[]));
    var fromProfile := if profile.Dict? then Get(profile.fields, "address").GetOr(Null) else Null;
    if Truthy(fromProfile) then fromProfile else Get(client, "address").GetOr(Null)
  }

  /** The top-level address is used only when the profile gives no usable one. */
  lemma ProfileAddressWins(client: Doc, profileAddress: string, topAddress: Value)
    requires profileAddress != ""
    ensures ClientAddress(client["profile_data" := Dict(map["address" := Str(profileAddress)])]) == Str(profileAddress)
    ensures ClientAddress(map["address" := topAddress, "profile_data" := Dict(map[])]) == topAddress
    ensures ClientAddress(map["profile_data" := List([])]) == Null
  {
  }

  datatype DetailedBooking = DetailedBooking(booking: Booking, client: Option<User>, clientAddress: Value, artisan: Option<User>)

  /** The cursor of `get_bookings_with_details`: the matching bookings, newest first, after
      `skip`, at most `limit`. */
  function DetailsCursor(bookings: seq<Booking>, selected: Booking -> bool, skip: nat, limit: nat): seq<Booking> {
    Page(SortBy(Filter(bookings, selected), NewestFirst()), skip, limit)
  }

  function NewestFirst(): Booking -> int {
    (b: Booking) => -b.createdAt
  }

  /** `get_bookings_with_details`: each booking of the cursor with its client and artisan
      attached. A participant id that is not an object id makes `ObjectId` raise, and the
      whole listing is then answered with the empty list. */
  function BookingsWithDetails(bookings: seq<Booking>, users: seq<User>, selected: Booking -> bool, skip: nat, limit: nat): (r: seq<DetailedBooking>)
    ensures var cursor := DetailsCursor(bookings, selected, skip, limit);
      && (r == [] || |r| == |cursor|)
      && (|r| == |cursor| ==> forall i | 0 <= i < |r| :: r[i].booking == cursor[i])
      && (forall i | 0 <= i < |r| ::
            && r[i].client == FindUserById(users, r[i].booking.clientId)
            && r[i].artisan == FindUserById(users, r[i].booking.artisanId)
            && r[i].clientAddress == (if r[i].client.Some? then ClientAddress(r[i].client.value.doc) else Null))
      && ((forall i | 0 <= i < |cursor| :: IsObjectId(cursor[i].clientId) && IsObjectId(cursor[i].artisanId)) ==> |r| == |cursor|)
      && ((exists i | 0 <= i < |cursor| :: !IsObjectId(cursor[i].clientId) || !IsObjectId(cursor[i].artisanId)) ==> r == [])
  {
    var cursor := DetailsCursor(bookings, selected, skip, limit);
    if exists i | 0 <= i < |cursor| :: !IsObjectId(cursor[i].clientId) || !IsObjectId(cursor[i].artisanId) then []
    else
      seq(|cursor|, i requires 0 <= i < |cursor| =>
        var client := FindUserById(users, cursor[i].clientId);
        DetailedBooking(cursor[i], client, if client.Some? then ClientAddress(client.value.doc) else Null,
                        FindUserById(users, cursor[i].artisanId)))
  }

  /** The detailed listing holds only stored bookings that the query selects, in the order of
      creation, newest first. */
  lemma DetailsSelectedNewestFirst(bookings: seq<Booking>, users: seq<User>, selected: Booking -> bool, skip: nat, limit: nat)
    ensures var r := BookingsWithDetails(bookings, users, selected, skip, limit);
      && (forall i | 0 <= i < |r| :: selected(r[i].booking) && r[i].booking in bookings)
      && (forall i, j | 0 <= i < j < |r| :: r[i].booking.createdAt >= r[j].booking.createdAt)
  {
    PageOfSortedSelection(bookings, selected, NewestFirst(), skip, limit);
    var cursor := DetailsCursor(bookings, selected, skip, limit);
    assert forall i, j | 0 <= i < j < |cursor| :: -cursor[i].createdAt <= -cursor[j].createdAt;
  }

  /** `delete_booking`: deletes the first booking with that id and answers whether one was
      deleted; an id that is not an object id raises and is answered false. */
  function DeleteOutcome(bookings: seq<Booking>, bookingId: string): (bool, seq<Booking>) {
    if !IsObjectId(bookingId) then (false, bookings)
    else
      var i := IndexWhere(bookings, (b: Booking) => b.id == CanonicalId(bookingId));
      if i.None? then (false, bookings) else (true, RemoveAt(bookings, i.value))
  }

  /** Deletion answers true exactly when the lookup finds the booking, and then removes that
      one booking and nothing else. */
  lemma DeleteOutcomeSpec(bookings: seq<Booking>, bookingId: string)
    ensures var (deleted, after) := DeleteOutcome(bookings, bookingId);
      && (deleted <==> FindBookingById(bookings, bookingId).Some?)
      && (!deleted ==> after == bookings)
      && (deleted ==> |after| == |bookings| - 1
                      && multiset(after) + multiset{FindBookingById(bookings, bookingId).value} == multiset(bookings)
                      && RemovedInPlace(bookings, FindBookingById(bookings, bookingId).value, after))
  {
    var (deleted, after) := DeleteOutcome(bookings, bookingId);
    if deleted {
      var i := IndexWhere(bookings, (b: Booking) => b.id == CanonicalId(bookingId)).value;
      RemoveAtMultiset(bookings, i);
      assert after == bookings[..i] + bookings[i + 1..];
    }
  }

  class BookingStore {
    var bookings: seq<Booking>

    constructor(initial: seq<Booking>)
      ensures bookings == initial
    {
      bookings := initial;
    }

    /** `create_booking`: inserts the request stamped with `created_at = updated_at = now`
        under a fresh id. */
    method CreateBooking(freshId: string, request: BookingCreate, now: int) returns (created: Booking)
      requires IsObjectId(freshId) && freshId == CanonicalId(freshId)
      requires forall i | 0 <= i < |bookings| :: bookings[i].id != freshId
      modifies this
      ensures created == NewBooking(freshId, request, now)
      ensures bookings == old(bookings) + [created]
      ensures FindBookingById(bookings, freshId) == Some(created)
    {
      created := NewBooking(freshId, request, now);
      bookings := bookings + [created];
      var i := IndexWhere(bookings, (b: Booking) => b.id == CanonicalId(freshId));
      assert bookings[|bookings| - 1].id == CanonicalId(freshId);
    }

    method UpdateBooking(bookingId: string, u: BookingUpdate, now: int) returns (updated: Option<Booking>)
      modifies this
      ensures (updated, bookings) == UpdateOutcome(old(bookings), bookingId, u, now)
    {
      if !IsObjectId(bookingId) {
        return None;
      }
      var i := IndexWhere(bookings, (b: Booking) => b.id == CanonicalId(bookingId));
      if i.None? {
        return None;
      }
      var next := ApplyUpdate(bookings[i.value], u, now);
      if next == bookings[i.value] {
        return None;
      }
      bookings := bookings[i.value := next];
      updated := FindBookingById(bookings, bookingId);
    }

    /** `update_booking_status`: `update_booking` with the status alone. */
    method UpdateBookingStatus(bookingId: string, status: BookingStatus, now: int) returns (updated: Option<Booking>)
      modifies this
      ensures (updated, bookings) == UpdateOutcome(old(bookings), bookingId, StatusOnly(status), now)
    {
      updated := UpdateBooking(bookingId, StatusOnly(status), now);
    }

    /** `update_booking_schedule`: `update_booking` with the date alone. */
    method UpdateBookingSchedule(bookingId: string, scheduledDate: int, now: int) returns (updated: Option<Booking>)
      modifies this
      ensures (updated, bookings) == UpdateOutcome(old(bookings), bookingId, ScheduleOnly(scheduledDate), now)
    {
      updated := UpdateBooking(bookingId, ScheduleOnly(scheduledDate), now);
    }

    /** `delete_booking`. */
    method DeleteBooking(bookingId: string) returns (deleted: bool)
      modifies this
      ensures (deleted, bookings) == DeleteOutcome(old(bookings), bookingId)
    {
      if !IsObjectId(bookingId) {
        return false;
      }
      var i := IndexWhere(bookings, (b: Booking) => b.id == CanonicalId(bookingId));
      if i.None? {
        return false;
      }
      bookings := RemoveAt(bookings, i.value);
      deleted := true;
    }
  }
}
