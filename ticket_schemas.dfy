/** Support-ticket request shapes (app/schemas/ticket_schemas.py): the status, priority and
    category enumerations, the medium default priority and the non-blank validators. */
module TicketSchemas {
  import opened Common

  datatype TicketStatus = Open | InProgress | Resolved | Closed {
    function Name(): string {
      match this
      case Open => "open"
      case InProgress => "in_progress"
      case Resolved => "resolved"
      case Closed => "closed"
    }
  }

  datatype TicketPriority = Low | Medium | High | Urgent

  datatype TicketCategory = Technical | Billing | Account | Booking | Other

  /** A ticket creation body as it arrives; the priority is None when left out. */
  datatype TicketCreateBody = TicketCreateBody(
    userId: string,
    subject: string,
    description: string,
    category: TicketCategory,
    priority: Option<TicketPriority>)

  datatype TicketCreate = TicketCreate(
    userId: string,
    subject: string,
    description: string,
    category: TicketCategory,
    priority: TicketPriority)

  /** `TicketCreate`: subject and description must not be blank once stripped; the priority
      defaults to medium. */
  function ValidateTicketCreate(body: TicketCreateBody): (r: Outcome<TicketCreate>)
    ensures r.Ok? <==>
      && (exists i | 0 <= i < |body.subject| :: !IsSpace(body.subject[i]))
      && (exists i | 0 <= i < |body.description| :: !IsSpace(body.description[i]))
    ensures r.Fail? ==> r.code == UNPROCESSABLE
    ensures r.Ok? ==>
      && r.value.userId == body.userId && r.value.subject == body.subject
      && r.value.description == body.description && r.value.category == body.category
      && (body.priority.None? ==> r.value.priority == Medium)
      && (body.priority.Some? ==> r.value.priority == body.priority.value)
  {
    if NonBlank(body.subject) && NonBlank(body.description) then
      Ok(TicketCreate(body.userId, body.subject, body.description, body.category, body.priority.GetOr(Medium)))
    else
      Fail(UNPROCESSABLE)
  }

  /** The fields an update sets; each is None when it was not sent. */
  datatype TicketUpdate = TicketUpdate(
    subject: Option<string>,
    description: Option<string>,
    category: Option<TicketCategory>,
    priority: Option<TicketPriority>)
  {
    predicate IsEmpty() {
      subject.None? && description.None? && category.None? && priority.None?
    }
  }

  /** The optional-text validator of the update schemas: an absent value passes, a given one must
      not be blank. */
  predicate OptionalNonBlank(v: Option<string>) {
    v.None? || NonBlank(v.value)
  }

  /** `TicketUpdate`: a subject or description that is given must not be blank; the body is
      kept as it is. */
  function ValidateTicketUpdate(body: TicketUpdate): (r: Outcome<TicketUpdate>)
    ensures r.Ok? <==>
      && (body.subject.None? || exists i | 0 <= i < |body.subject.value| :: !IsSpace(body.subject.value[i]))
      && (body.description.None? || exists i | 0 <= i < |body.description.value| :: !IsSpace(body.description.value[i]))
    ensures r.Ok? ==> r.value == body
    ensures r.Fail? ==> r.code == UNPROCESSABLE
  {
    if OptionalNonBlank(body.subject) && OptionalNonBlank(body.description) then Ok(body)
    else Fail(UNPROCESSABLE)
  }

  /** `TicketResponseCreate`: the message text must not be blank. */
  function ValidateResponseMessage(message: string): (r: Outcome<string>)
    ensures r.Ok? <==> exists i | 0 <= i < |message| :: !IsSpace(message[i])
    ensures r.Ok? ==> r.value == message
    ensures r.Fail? ==> r.code == UNPROCESSABLE
  {
    if NonBlank(message) then Ok(message) else Fail(UNPROCESSABLE)
  }
}
