/** Booking request shapes (app/schemas/booking_schemas.py): the status enumeration, the defaults
    of a new booking and the future-date validators of creation and update. */
module BookingSchemas {
  import opened Common

  datatype BookingStatus = Pending | Confirmed | InProgress | Completed | Cancelled | Rejected {
    function Name(): string {
      match this
      case Pending => "pending"
      case Confirmed => "confirmed"
      case InProgress => "in_progress"
      case Completed => "completed"
      case Cancelled => "cancelled"
      case Rejected => "rejected"
    }
  }

  /** Both validators: the date, read as UTC when naive, must lie strictly after `now`. */
  predicate StrictlyFuture(d: DateTime, now: int) {
    Instant(d) > now
  }

  /** A booking creation body as it arrives; optional fields are None when left out. */
  datatype BookingCreateBody = BookingCreateBody(
    clientId: string,
    artisanId: string,
    scheduledDate: DateTime,
    description: string,
    urgency: Option<bool>,
    address: Option<Option<string>>,
    status: Option<BookingStatus>)

  /** A validated creation request; the scheduled date is kept as its UTC instant. */
  datatype BookingCreate = BookingCreate(
    clientId: string,
    artisanId: string,
    scheduledDate: int,
    description: string,
    urgency: bool,
    address: Option<string>,
    status: BookingStatus)

  /** `BookingCreate`: the date must be strictly in the future (a date equal to now is refused);
      urgency defaults to false, address to None and status to pending. */
  function ValidateBookingCreate(body: BookingCreateBody, now: int): (r: Outcome<BookingCreate>)
    ensures r.Ok? <==> Instant(body.scheduledDate) > now
    ensures r.Fail? ==> r.code == UNPROCESSABLE
    ensures r.Ok? ==>
      && r.value.scheduledDate == Instant(body.scheduledDate)
      && r.value.clientId == body.clientId && r.value.artisanId == body.artisanId
      && r.value.description == body.description
      && r.value.urgency == (if body.urgency.Some? then body.urgency.value else false)
      && r.value.address == (if body.address.Some? then body.address.value else None)
      && r.value.status == (if body.status.Some? then body.status.value else Pending)
  {
    if StrictlyFuture(body.scheduledDate, now) then
      Ok(BookingCreate(body.clientId, body.artisanId, Instant(body.scheduledDate), body.description,
                       body.urgency.GetOr(false), body.address.GetOr(None), body.status.GetOr(Pending)))
    else
      Fail(UNPROCESSABLE)
  }

  /** A booking update body: each field is None when the client did not send it. */
  datatype BookingUpdateBody = BookingUpdateBody(
    scheduledDate: Option<DateTime>,
    status: Option<BookingStatus>,
    description: Option<string>,
    urgency: Option<bool>,
    address: Option<Option<string>>)

  /** The fields an update sets (`model_dump(exclude_unset=True)`), dates as UTC instants. */
  datatype BookingUpdate = BookingUpdate(
    scheduledDate: Option<int>,
    status: Option<BookingStatus>,
    description: Option<string>,
    urgency: Option<bool>,
    address: Option<Option<string>>)
  {
    predicate IsEmpty() {
      scheduledDate.None? && status.None? && description.None? && urgency.None? && address.None?
    }
  }

  /** `BookingUpdate`: a missing date passes; a given one must be strictly in the future. */
  function ValidateBookingUpdate(body: BookingUpdateBody, now: int): (r: Outcome<BookingUpdate>)
    ensures r.Ok? <==> (body.scheduledDate.None? || Instant(body.scheduledDate.value) > now)
    ensures r.Fail? ==> r.code == UNPROCESSABLE
    ensures r.Ok? ==>
      && (r.value.scheduledDate.Some? <==> body.scheduledDate.Some?)
      && (r.value.scheduledDate.Some? ==> r.value.scheduledDate.value == Instant(body.scheduledDate.value))
      && r.value.status == body.status && r.value.description == body.description
      && r.value.urgency == body.urgency && r.value.address == body.address
  {
    match body.scheduledDate
    case None =>
      Ok(BookingUpdate(None, body.status, body.description, body.urgency, body.address))
    case Some(d) =>
      if StrictlyFuture(d, now) then
        Ok(BookingUpdate(Some(Instant(d)), body.status, body.description, body.urgency, body.address))
      else
        Fail(UNPROCESSABLE)
  }

  /** A naive date is compared as the same wall time in UTC: it is accepted exactly when the
      UTC-aware date with the same wall time is. */
  lemma NaiveIsUtc(wall: int, now: int)
    ensures StrictlyFuture(Naive(wall), now) == StrictlyFuture(Aware(wall, 0), now)
    ensures StrictlyFuture(Naive(wall), now) <==> wall > now
  {
  }
}
