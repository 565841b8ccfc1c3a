/** The support-ticket routes (app/api/v1/endpoints/tickets.py) as guard chains over the stores.
    Each route takes the tickets as they are and the caller (the account the token names), and
    answers an outcome together with the tickets after the request. Request bodies and query
    parameters are validated by the framework before a route runs, so their 422 comes first. */
module TicketEndpoints {
  import opened Common
  import opened TicketSchemas
  import opened UserModels
  import opened TicketModels

  /** Who may see, answer or delete a ticket: an admin, or the ticket's owner. */
  predicate MayAccess(t: Ticket, caller: User) {
    caller.UserType() == ADMIN || t.userId == caller.id
  }

  // ---------------------------------------------------------------------------------------------
  // POST /tickets/

  /** `create_ticket`: 403 unless the caller is a client or an artisan, 403 unless the ticket
      is for the caller; otherwise the store's new ticket, numbered with serial `issued`. */
  function CreateTicket(tickets: seq<Ticket>, issued: nat, caller: User, body: TicketCreateBody, freshId: string, today: string, now: int): (r: (Outcome<Ticket>, seq<Ticket>))
    ensures r.0.Fail? ==> r.1 == tickets && r.0.code in {403, 422}
    ensures r.0.Ok? ==> r.1 == tickets + [r.0.value] && r.0.value.userId == caller.id && r.0.value.status == Open
  {
    var request := ValidateTicketCreate(body);
    if request.Fail? then (Fail(request.code), tickets)
    else if caller.UserType() != CLIENT && caller.UserType() != ARTISAN then (Fail(FORBIDDEN), tickets)
    else if request.value.userId != caller.id then (Fail(FORBIDDEN), tickets)
    else
      var t := NewTicket(freshId, request.value, TicketNumber(today, issued), now);
      (Ok(t), tickets + [t])
  }

  /** A ticket is created exactly for a valid body from a client or artisan filing for
      themselves; it is open, theirs and the one new entry of the store, and its number keeps
      the store's numbers unique. A refused request changes nothing. */
  lemma CreateTicketRule(tickets: seq<Ticket>, issued: nat, caller: User, body: TicketCreateBody, freshId: string, today: string, now: int)
    requires Numbering(tickets, issued) && AllDigits(today)
    ensures var (out, after) := CreateTicket(tickets, issued, caller, body, freshId, today, now);
      && (out.Ok? <==>
            && ValidateTicketCreate(body).Ok?
            && caller.UserType() in {"client", "artisan"}
            && body.userId == caller.id)
      && (out.Ok? ==>
            && after == tickets + [out.value]
            && out.value.status == Open && out.value.userId == caller.id
            && out.value.ticketNumber == TicketNumber(today, issued)
            && out.value.createdAt == now && out.value.updatedAt == now
            && (body.priority.None? ==> out.value.priority == Medium)
            && Numbering(after, issued + 1))
      && (out.Fail? ==> after == tickets && out.code in {403, 422})
      && (ValidateTicketCreate(body).Ok? && caller.UserType() !in {"client", "artisan"} ==> out == Fail(403))
  {
    var (out, after) := CreateTicket(tickets, issued, caller, body, freshId, today, now);
    if out.Ok? {
      NumberingAfterCreate(tickets, issued, today, out.value);
    }
  }

  // ---------------------------------------------------------------------------------------------
  // GET /tickets/my-tickets and GET /tickets/

  /** The filter a listing route builds; None leaves a field unconstrained. */
  datatype TicketQuery = TicketQuery(
    userId: Option<string>,
    status: Option<TicketStatus>,
    category: Option<TicketCategory>,
    priority: Option<TicketPriority>)

  /** The tickets a query selects. */
  function Selects(q: TicketQuery): Ticket -> bool {
    (t: Ticket) =>
      && (q.userId.None? || t.userId == q.userId.value)
      && (q.status.None? || t.status == q.status.value)
      && (q.category.None? || t.category == q.category.value)
      && (q.priority.None? || t.priority == q.priority.value)
  }

  /** `get_my_tickets`: always the caller's own tickets, narrowed by status and category when
      those are given. */
  function MyTicketsQuery(caller: User, status: Option<TicketStatus>, category: Option<TicketCategory>): (q: TicketQuery)
    ensures forall t: Ticket :: Selects(q)(t) <==>
      && t.userId == caller.id
      && (status.Some? ==> t.status == status.value)
      && (category.Some? ==> t.category == category.value)
  {
    TicketQuery(Some(caller.id), status, category, None)
  }

  /** `get_all_tickets`: every ticket, narrowed by status, category and priority when given. */
  function AllTicketsQuery(status: Option<TicketStatus>, category: Option<TicketCategory>, priority: Option<TicketPriority>): (q: TicketQuery)
    ensures forall t: Ticket :: Selects(q)(t) <==>
      && (status.Some? ==> t.status == status.value)
      && (category.Some? ==> t.category == category.value)
      && (priority.Some? ==> t.priority == priority.value)
  {
    TicketQuery(None, status, category, priority)
  }

  /** The bounds of the `skip` and `limit` query parameters. */
  predicate PageBounds(skip: int, limit: int) {
    skip >= 0 && 1 <= limit <= 100
  }

  /** `TicketDetailedResponse(**ticket)` succeeds: the author was found, its names, e-mail
      and type are strings and its picture is a string or absent. */
  predicate Presentable(d: DetailedTicket) {
    && d.user.Some?
    && d.user.value.firstName.Str? && d.user.value.lastName.Str?
    && d.user.value.email.Str? && d.user.value.userType.Str?
    && (d.user.value.profilePicture.Null? || d.user.value.profilePicture.Str?)
  }

  /** The response of a listing route: the listing, or 500 when one entry cannot be
      presented. */
  function Presented(listing: seq<DetailedTicket>): Outcome<seq<DetailedTicket>> {
    if forall i | 0 <= i < |listing| :: Presentable(listing[i]) then Ok(listing) else Fail(INTERNAL_ERROR)
  }

  function MyTickets(tickets: seq<Ticket>, users: seq<User>, caller: User, skip: int, limit: int,
                     status: Option<TicketStatus>, category: Option<TicketCategory>): Outcome<seq<DetailedTicket>> {
    if !PageBounds(skip, limit) then Fail(UNPROCESSABLE)
    else Presented(TicketsWithDetails(tickets, users, Selects(MyTicketsQuery(caller, status, category)), skip, limit))
  }

  /** The caller's listing holds only their own tickets, with the asked status and category,
      newest first and at most `limit` of them. */
  lemma MyTicketsOnlyOwn(tickets: seq<Ticket>, users: seq<User>, caller: User, skip: int, limit: int,
                         status: Option<TicketStatus>, category: Option<TicketCategory>)
    ensures var out := MyTickets(tickets, users, caller, skip, limit, status, category);
      && (out.Fail? ==> out.code in {422, 500})
      && (!PageBounds(skip, limit) ==> out == Fail(422))
      && (out.Ok? ==>
            && |out.value| <= limit
            && (forall i | 0 <= i < |out.value| ::
                  && out.value[i].ticket in tickets
                  && out.value[i].ticket.userId == caller.id
                  && (status.Some? ==> out.value[i].ticket.status == status.value)
                  && (category.Some? ==> out.value[i].ticket.category == category.value))
            && (forall i, j | 0 <= i < j < |out.value| :: out.value[i].ticket.createdAt >= out.value[j].ticket.createdAt))
  {
    if PageBounds(skip, limit) {
      DetailsSelectedNewestFirst(tickets, users, Selects(MyTicketsQuery(caller, status, category)), skip, limit);
    }
  }

  function AllTickets(tickets: seq<Ticket>, users: seq<User>, caller: User, skip: int, limit: int,
                      status: Option<TicketStatus>, category: Option<TicketCategory>, priority: Option<TicketPriority>): Outcome<seq<DetailedTicket>> {
    if !PageBounds(skip, limit) then Fail(UNPROCESSABLE)
    else if caller.UserType() != ADMIN then Fail(FORBIDDEN)
    else Presented(TicketsWithDetails(tickets, users, Selects(AllTicketsQuery(status, category, priority)), skip, limit))
  }

  /** Only an admin lists all tickets, and then only those matching the given filters. */
  lemma AllTicketsAdminOnly(tickets: seq<Ticket>, users: seq<User>, caller: User, skip: int, limit: int,
                            status: Option<TicketStatus>, category: Option<TicketCategory>, priority: Option<TicketPriority>)
    ensures var out := AllTickets(tickets, users, caller, skip, limit, status, category, priority);
      && (PageBounds(skip, limit) && caller.UserType() != "admin" ==> out == Fail(403))
      && (out.Ok? ==>
            && caller.UserType() == "admin"
            && (forall i | 0 <= i < |out.value| ::
                  && out.value[i].ticket in tickets
                  && (status.Some? ==> out.value[i].ticket.status == status.value)
                  && (category.Some? ==> out.value[i].ticket.category == category.value)
                  && (priority.Some? ==> out.value[i].ticket.priority == priority.value)))
  {
    if PageBounds(skip, limit) {
      DetailsSelectedNewestFirst(tickets, users, Selects(AllTicketsQuery(status, category, priority)), skip, limit);
    }
  }

  // ---------------------------------------------------------------------------------------------
  // GET /tickets/{id}

  function ById(key: string): Ticket -> bool {
    (t: Ticket) => t.id == key
  }

  /** `get_ticket`: a malformed id makes `ObjectId` raise outside any handler (500); an empty
      detailed listing is a 404 (this includes a ticket whose author id is malformed); a caller
      who is neither admin nor owner gets a 403; an entry that cannot be presented is a 500. */
  function GetTicket(tickets: seq<Ticket>, users: seq<User>, caller: User, ticketId: string): (r: Outcome<DetailedTicket>)
    ensures r.Fail? ==> r.code in {403, 404, 500}
    ensures r.Ok? ==> MayAccess(r.value.ticket, caller)
  {
    if !IsObjectId(ticketId) then Fail(INTERNAL_ERROR)
    else
      var found := TicketsWithDetails(tickets, users, ById(CanonicalId(ticketId)), 0, 1);
      if found == [] then Fail(NOT_FOUND)
      else if !MayAccess(found[0].ticket, caller) then Fail(FORBIDDEN)
      else if !Presentable(found[0]) then Fail(INTERNAL_ERROR)
      else Ok(found[0])
  }

  /** A ticket is shown only to an admin or its owner, and it is the stored ticket with that
      id; anyone else is refused with 403. */
  lemma GetTicketRule(tickets: seq<Ticket>, users: seq<User>, caller: User, ticketId: string)
    ensures var out := GetTicket(tickets, users, caller, ticketId);
      && (out.Ok? ==>
            && MayAccess(out.value.ticket, caller)
            && out.value.ticket in tickets
            && out.value.ticket.id == CanonicalId(ticketId)
            && Presentable(out.value))
      && (IsObjectId(ticketId) ==>
            var found := TicketsWithDetails(tickets, users, ById(CanonicalId(ticketId)), 0, 1);
            found != [] && !MayAccess(found[0].ticket, caller) ==> out == Fail(403))
  {
    if IsObjectId(ticketId) {
      DetailsSelectedNewestFirst(tickets, users, ById(CanonicalId(ticketId)), 0, 1);
    }
  }

  // ---------------------------------------------------------------------------------------------
  // PUT /tickets/{id}

  /** `update_ticket`: 404 when the ticket is not found, 403 when the caller is not its owner
      (admins included), 400 when it is resolved or closed, 400 when the body sets nothing, 500
      when the store reports nothing modified. */
  function UpdateTicket(tickets: seq<Ticket>, caller: User, ticketId: string, body: TicketUpdate, now: int): (r: (Outcome<Ticket>, seq<Ticket>))
    ensures r.0.Fail? ==> r.1 == tickets && r.0.code in {400, 403, 404, 422, 500}
    ensures r.0.Ok? ==> FindTicketById(tickets, ticketId).Some? && FindTicketById(tickets, ticketId).value.userId == caller.id
  {
    var u := ValidateTicketUpdate(body);
    if u.Fail? then (Fail(u.code), tickets)
    else
      var found := FindTicketById(tickets, ticketId);
      if found.None? then (Fail(NOT_FOUND), tickets)
      else if found.value.userId != caller.id then (Fail(FORBIDDEN), tickets)
      else if found.value.status == Resolved || found.value.status == Closed then (Fail(BAD_REQUEST), tickets)
      else if u.value.IsEmpty() then (Fail(BAD_REQUEST), tickets)
      else
        var (answer, after) := UpdateOutcome(tickets, ticketId, EditChanges(u.value), now);
        if answer.None? then (Fail(INTERNAL_ERROR), tickets) else (Ok(answer.value), after)
  }

  /** Only the owner edits, only while the ticket is open or in progress, and only with a
      non-empty body; the stored ticket then has exactly the sent fields changed and keeps
      its status, number and responses. The guards apply in the order 404, 403, 400, 400. */
  lemma UpdateTicketRule(tickets: seq<Ticket>, caller: User, ticketId: string, body: TicketUpdate, now: int)
    ensures var (out, after) := UpdateTicket(tickets, caller, ticketId, body, now);
      var found := FindTicketById(tickets, ticketId);
      && (out.Fail? ==> after == tickets)
      && (out.Ok? ==>
            && found.Some?
            && found.value.userId == caller.id
            && found.value.status in {Open, InProgress}
            && !body.IsEmpty()
            && out.value == ApplyChanges(found.value, EditChanges(body), now)
            && out.value.status == found.value.status
            && out.value.ticketNumber == found.value.ticketNumber
            && FindTicketById(after, ticketId) == Some(out.value))
      && (ValidateTicketUpdate(body).Ok? ==>
            && (found.None? ==> out == Fail(404))
            && (found.Some? && found.value.userId != caller.id ==> out == Fail(403))
            && (found.Some? && found.value.userId == caller.id && found.value.status in {Resolved, Closed} ==> out == Fail(400))
            && (found.Some? && found.value.userId == caller.id && found.value.status in {Open, InProgress} && body.IsEmpty()
                ==> out == Fail(400))
            && ((found.Some? && found.value.userId == caller.id && found.value.status in {Open, InProgress} && !body.IsEmpty()
                 && ApplyChanges(found.value, EditChanges(body), now) != found.value) ==> out.Ok?))
      && (ValidateTicketUpdate(body).Fail? ==> out == Fail(422))
  {
    UpdateOutcomeSpec(tickets, ticketId, EditChanges(body), now);
  }

  // ---------------------------------------------------------------------------------------------
  // PUT /tickets/{id}/status

  /** `update_ticket_status`: 403 for a caller who is not an admin, then 404, then 500 when
      the store reports nothing modified. */
  function UpdateTicketStatus(tickets: seq<Ticket>, caller: User, ticketId: string, status: TicketStatus, adminNotes: Option<string>, now: int): (Outcome<Ticket>, seq<Ticket>) {
    if caller.UserType() != ADMIN then (Fail(FORBIDDEN), tickets)
    else if FindTicketById(tickets, ticketId).None? then (Fail(NOT_FOUND), tickets)
    else
      var (answer, after) := UpdateOutcome(tickets, ticketId, StatusChanges(status, adminNotes), now);
      if answer.None? then (Fail(INTERNAL_ERROR), tickets) else (Ok(answer.value), after)
  }

  /** Only an admin changes a status; the ticket then has the new status, the notes when they
      were non-empty and its old notes otherwise, and every other field but `updated_at` as
      before. */
  lemma UpdateTicketStatusRule(tickets: seq<Ticket>, caller: User, ticketId: string, status: TicketStatus, adminNotes: Option<string>, now: int)
    ensures var (out, after) := UpdateTicketStatus(tickets, caller, ticketId, status, adminNotes, now);
      var found := FindTicketById(tickets, ticketId);
      && (out.Fail? ==> after == tickets)
      && (caller.UserType() != "admin" ==> out == Fail(403))
      && (caller.UserType() == "admin" && found.None? ==> out == Fail(404))
      && (out.Ok? ==>
            && found.Some?
            && out.value.status == status
            && out.value.adminNotes == (if adminNotes.Some? && adminNotes.value != "" then adminNotes else found.value.adminNotes)
            && out.value.subject == found.value.subject && out.value.description == found.value.description
            && out.value.category == found.value.category && out.value.priority == found.value.priority
            && out.value.responses == found.value.responses && out.value.updatedAt == now
            && FindTicketById(after, ticketId) == Some(out.value))
      && ((caller.UserType() == "admin" && found.Some?
           && ApplyChanges(found.value, StatusChanges(status, adminNotes), now) != found.value) ==> out.Ok?)
  {
    UpdateOutcomeSpec(tickets, ticketId, StatusChanges(status, adminNotes), now);
  }

  // ---------------------------------------------------------------------------------------------
  // POST /tickets/{id}/responses

  /** A stored name as the f-string of the route writes it: absent as "", a string as it is,
      None as "None", a boolean as "True" or "False", an integer in decimal. */
  function NameText(d: Doc, k: string): string {
    if k !in d then ""
    else match d[k]
      case Str(s) => s
      case Null => "None"
      case Bool(b) => if b then "True" else "False"
      case Int(i) => if i < 0 then "-" + Decimal(-i) else Decimal(i)
      case List(_) => ""
      case Dict(_) => ""
  }

  /** The author name of a response: first and last name joined by a space, stripped. */
  function AuthorName(caller: User): string {
    Strip(NameText(caller.doc, "first_name") + " " + NameText(caller.doc, "last_name"))
  }

  /** The reply the route builds: the message of the body, the author from the caller. */
  function ReplyBy(caller: User, message: string): ReplyDraft {
    ReplyDraft(message, caller.id, caller.UserType(), AuthorName(caller))
  }

  /** Names without surrounding whitespace are joined by one space; a missing last name leaves
      the first name alone, and a caller without names gets the empty name. */
  lemma AuthorNameSpec(caller: User, first: string, last: string)
    requires first != "" && !IsSpace(first[0]) && !IsSpace(first[|first| - 1])
    requires last != "" && !IsSpace(last[|last| - 1])
    ensures caller.doc.Keys !! {"first_name", "last_name"} ==> AuthorName(caller) == ""
    ensures var d := caller.doc["first_name" := Str(first)]["last_name" := Str(last)];
      AuthorName(User(caller.id, d)) == first + " " + last
    ensures var d := caller.doc["first_name" := Str(first)] - {"last_name"};
      AuthorName(User(caller.id, d)) == first
  {
    var joined := first + " " + last;
    assert StripLeft(joined) == joined;
    assert StripRight(joined) == joined;
    var alone := first + " ";
    assert alone + "" == alone;
    assert StripLeft(alone) == alone;
    assert StripRight(alone) == StripRight(first) by {
      assert alone[..|alone| - 1] == first;
    }
    assert StripRight(first) == first;
    assert StripRight(StripLeft(" ")) == "" by {
      assert StripLeft(" ") == StripLeft(" "[1..]);
      assert " "[1..] == "";
    }
  }

  /** `add_ticket_response`: 422 for a blank message, 404, then 403 unless the caller is an
      admin or the owner, then 500 when the store modified nothing. */
  function AddTicketResponse(tickets: seq<Ticket>, caller: User, ticketId: string, message: string, freshId: string, now: int): (Outcome<()>, seq<Ticket>) {
    var m := ValidateResponseMessage(message);
    if m.Fail? then (Fail(m.code), tickets)
    else
      var found := FindTicketById(tickets, ticketId);
      if found.None? then (Fail(NOT_FOUND), tickets)
      else if !MayAccess(found.value, caller) then (Fail(FORBIDDEN), tickets)
      else
        var (added, after) := AddResponseOutcome(tickets, ticketId, ReplyBy(caller, m.value), freshId, now);
        if !added then (Fail(INTERNAL_ERROR), tickets) else (Ok(()), after)
  }

  /** A response is added exactly for a non-blank message on a found ticket the caller may
      access, never fails in the store, and is the ticket's one new last response, its author
      taken from the caller. */
  lemma AddTicketResponseRule(tickets: seq<Ticket>, caller: User, ticketId: string, message: string, freshId: string, now: int)
    ensures var (out, after) := AddTicketResponse(tickets, caller, ticketId, message, freshId, now);
      var found := FindTicketById(tickets, ticketId);
      && (out.Ok? <==> NonBlank(message) && found.Some? && MayAccess(found.value, caller))
      && (out.Fail? ==> after == tickets && out.code in {403, 404, 422})
      && (out.Ok? ==>
            var reply := TicketReply(freshId, message, caller.id, caller.UserType(), AuthorName(caller), now);
            FindTicketById(after, ticketId) == Some(found.value.(responses := found.value.responses + [reply], updatedAt := now)))
  {
    AddResponseSpec(tickets, ticketId, ReplyBy(caller, message), freshId, now);
  }

  // ---------------------------------------------------------------------------------------------
  // DELETE /tickets/{id}

  /** `delete_ticket`: 404, then the admin or the owner deletes (500 when nothing was deleted),
      and anyone else gets a 403. */
  function DeleteTicket(tickets: seq<Ticket>, caller: User, ticketId: string): (r: (Outcome<()>, seq<Ticket>))
    ensures r.0.Fail? ==> r.1 == tickets && r.0.code in {403, 404, 500}
    ensures r.0.Ok? ==> FindTicketById(tickets, ticketId).Some? && MayAccess(FindTicketById(tickets, ticketId).value, caller)
  {
    var found := FindTicketById(tickets, ticketId);
    if found.None? then (Fail(NOT_FOUND), tickets)
    else if MayAccess(found.value, caller) then
      var (deleted, after) := DeleteOutcome(tickets, ticketId);
      if !deleted then (Fail(INTERNAL_ERROR), tickets) else (Ok(()), after)
    else (Fail(FORBIDDEN), tickets)
  }

  /** Deletion succeeds exactly for an admin or the owner of an existing ticket and removes that
      one ticket; the numbering invariant survives it. */
  lemma DeleteTicketRule(tickets: seq<Ticket>, issued: nat, caller: User, ticketId: string)
    requires Numbering(tickets, issued)
    ensures var (out, after) := DeleteTicket(tickets, caller, ticketId);
      var found := FindTicketById(tickets, ticketId);
      && (out.Ok? <==> found.Some? && MayAccess(found.value, caller))
      && (out.Ok? ==> |after| == |tickets| - 1 && multiset(after) + multiset{found.value} == multiset(tickets))
      && (out.Fail? ==> after == tickets && out.code in {403, 404})
      && Numbering(after, issued)
  {
    DeleteOutcomeSpec(tickets, ticketId);
    var (out, after) := DeleteTicket(tickets, caller, ticketId);
    if out.Ok? {
      var i := IndexWhere(tickets, (t: Ticket) => t.id == CanonicalId(ticketId)).value;
      NumberingAfterRemove(tickets, issued, i);
    }
  }

  // ---------------------------------------------------------------------------------------------
  // GET /tickets/stats/overview and /stats/my-stats

  /** `get_ticket_stats`: admin only. */
  function StatsOverview(tickets: seq<Ticket>, caller: User): (r: Outcome<TicketStats>)
    ensures r.Ok? <==> caller.UserType() == ADMIN
    ensures r.Fail? ==> r.code == FORBIDDEN
    ensures r.Ok? ==> r.value.total == |tickets| && r.value.BucketSum() == |tickets|
  {
    BucketsCoverTotal(tickets);
    if caller.UserType() != ADMIN then Fail(FORBIDDEN) else Ok(StatsOf(tickets))
  }

  /** How many tickets `get_my_ticket_stats` reads. */
  const MY_STATS_LIMIT: nat := 1000

  /** `get_my_ticket_stats`: the caller's newest tickets, at most 1000, counted in one pass
      into a bucket per status. */
  method MyTicketStats(tickets: seq<Ticket>, caller: User) returns (stats: TicketStats)
    ensures stats == StatsOf(UserTickets(tickets, caller.id, 0, MY_STATS_LIMIT))
  {
    var listed := UserTickets(tickets, caller.id, 0, MY_STATS_LIMIT);
    stats := TicketStats(|listed|, 0, 0, 0, 0);
    var i := 0;
    while i < |listed|
      invariant 0 <= i <= |listed|
      invariant stats == StatsOf(listed[..i]).(total := |listed|)
    {
      assert listed[..i + 1][..i] == listed[..i];
      match listed[i].status {
        case Open => stats := stats.(open := stats.open + 1);
        case InProgress => stats := stats.(inProgress := stats.inProgress + 1);
        case Resolved => stats := stats.(resolved := stats.resolved + 1);
        case Closed => stats := stats.(closed := stats.closed + 1);
      }
      i := i + 1;
    }
    assert listed[..i] == listed;
  }

  /** The caller's statistics count their own tickets up to 1000, and every counted ticket
      lands in exactly one bucket. */
  lemma MyTicketStatsTotal(tickets: seq<Ticket>, caller: User)
    ensures var stats := StatsOf(UserTickets(tickets, caller.id, 0, MY_STATS_LIMIT));
      && stats.total == Min(Count(tickets, OwnedBy(caller.id)), MY_STATS_LIMIT)
      && stats.BucketSum() == stats.total
  {
    UserTicketsLength(tickets, caller.id, MY_STATS_LIMIT);
    BucketsCoverTotal(UserTickets(tickets, caller.id, 0, MY_STATS_LIMIT));
  }
}
