/** The support-ticket store (app/models/ticket_models.py): creation with a forced "open"
    status and a generated ticket number, the `$set` update that reports "nothing modified" as
    None, the status wrapper with its optional admin notes, the `$push` of a response,
    deletion, the per-status statistics and the listings with the author attached. */
module TicketModels {
  import opened Common
  import opened TicketSchemas
  import opened UserModels

  /** One entry of a ticket's `responses` list. */
  datatype TicketReply = TicketReply(
    id: string,
    message: string,
    userId: string,
    userType: string,
    userName: string,
    createdAt: int)

  /** What a route hands to `add_ticket_response`; the store adds the id and the date. */
  datatype ReplyDraft = ReplyDraft(message: string, userId: string, userType: string, userName: string)

  datatype Ticket = Ticket(
    id: string,
    userId: string,
    subject: string,
    description: string,
    category: TicketCategory,
    priority: TicketPriority,
    status: TicketStatus,
    ticketNumber: string,
    responses: seq<TicketReply>,
    adminNotes: Option<string>,
    createdAt: int,
    updatedAt: int)

  // ---------------------------------------------------------------------------------------------
  // Ticket numbers

  const TICKET_PREFIX := "TKT-"

  predicate AllDigits(s: string) {
    forall i | 0 <= i < |s| :: IsDigit(s[i])
  }

  /** `_generate_ticket_number` for a given serial: "TKT-", the day of `utcnow` written
      `%Y%m%d`, "-", then `count + 1` zero-padded to at least four digits. */
  function TicketNumber(today: string, count: nat): string {
    TICKET_PREFIX + today + "-" + PaddedDecimal(count + 1, 4)
  }

  /** The layout of a number: the prefix, the day, a dash, and a serial of at least four
      digits that reads back as `count + 1`, exactly four of them below 10000. */
  lemma TicketNumberFormat(today: string, count: nat)
    ensures var n := TicketNumber(today, count);
      var serial := n[|TICKET_PREFIX| + |today| + 1..];
      && n[..4] == "TKT-" && n[4..4 + |today|] == today && n[4 + |today|] == '-'
      && AllDigits(serial) && |serial| >= 4 && DigitsValue(serial) == count + 1
      && (count + 1 < 10000 ==> |serial| == 4)
  {
    TicketNumberParts(today, count);
    PaddedDecimalRoundTrip(count + 1, 4);
    var n := TicketNumber(today, count);
    assert n[..4] == TICKET_PREFIX;
    if count + 1 < 10000 {
      assert Pow10(4) == 10000;
      PaddedDecimalExactWidth(count + 1, 4);
    }
  }

  /** Where the day and the serial sit in a number. */
  lemma TicketNumberParts(today: string, count: nat)
    ensures |TicketNumber(today, count)| == 5 + |today| + |PaddedDecimal(count + 1, 4)|
    ensures TicketNumber(today, count)[4..4 + |today|] == today
    ensures TicketNumber(today, count)[4 + |today|] == '-'
    ensures TicketNumber(today, count)[5 + |today|..] == PaddedDecimal(count + 1, 4)
    ensures forall i | 0 <= i < |today| :: TicketNumber(today, count)[4 + i] == today[i]
  {
  }

  /** The day is the digits between the prefix and the first dash after it, so equal numbers
      have days of one length. */
  lemma DayNotLonger(d1: string, n1: nat, d2: string, n2: nat)
    requires AllDigits(d1) && AllDigits(d2)
    requires TicketNumber(d1, n1) == TicketNumber(d2, n2)
    ensures |d1| <= |d2|
  {
    TicketNumberParts(d1, n1);
    TicketNumberParts(d2, n2);
  }

  /** Two numbers are equal only for the same day and the same serial. */
  lemma TicketNumberInjective(d1: string, n1: nat, d2: string, n2: nat)
    requires AllDigits(d1) && AllDigits(d2)
    requires TicketNumber(d1, n1) == TicketNumber(d2, n2)
    ensures d1 == d2 && n1 == n2
  {
    DayNotLonger(d1, n1, d2, n2);
    DayNotLonger(d2, n2, d1, n1);
    var x := TicketNumber(d1, n1);
    TicketNumberParts(d1, n1);
    TicketNumberParts(d2, n2);
    assert d1 == x[4..4 + |d1|] == d2;
    var p1 := PaddedDecimal(n1 + 1, 4);
    var p2 := PaddedDecimal(n2 + 1, 4);
    assert p1 == x[5 + |d1|..] == p2;
    SerialReadsBack(n1, n2);
  }

  lemma SerialReadsBack(n1: nat, n2: nat)
    requires PaddedDecimal(n1 + 1, 4) == PaddedDecimal(n2 + 1, 4)
    ensures n1 == n2
  {
    PaddedDecimalRoundTrip(n1 + 1, 4);
    PaddedDecimalRoundTrip(n2 + 1, 4);
  }

  /** The number `create_ticket` gives as written: the serial is the number of tickets stored
      at that moment, so it goes down again when a ticket is deleted. */
  function TicketNumberAsWritten(tickets: seq<Ticket>, today: string): (r: string)
    ensures |r| > |TICKET_PREFIX| + |today| + 1
    ensures var serial := r[|TICKET_PREFIX| + |today| + 1..]; AllDigits(serial) && DigitsValue(serial) == |tickets| + 1
  {
    TicketNumberFormat(today, |tickets|);
    TicketNumber(today, |tickets|)
  }

  /** No two tickets of the store share a number. */
  predicate NumbersUnique(tickets: seq<Ticket>) {
    forall i, j | 0 <= i < j < |tickets| :: tickets[i].ticketNumber != tickets[j].ticketNumber
  }

  /** No stored ticket carries a number with a serial from `issued` on, whatever its day. */
  ghost predicate NumbersBelow(tickets: seq<Ticket>, issued: nat) {
    forall i, s, k | 0 <= i < |tickets| && AllDigits(s) && k >= issued
      :: tickets[i].ticketNumber != TicketNumber(s, k)
  }

  /** The numbering invariant of a store that hands out serials from a counter. */
  ghost predicate Numbering(tickets: seq<Ticket>, issued: nat) {
    NumbersUnique(tickets) && NumbersBelow(tickets, issued)
  }

  /** A ticket numbered with the next serial keeps the numbers unique. */
  lemma NumberingAfterCreate(tickets: seq<Ticket>, issued: nat, today: string, t: Ticket)
    requires Numbering(tickets, issued) && AllDigits(today)
    requires t.ticketNumber == TicketNumber(today, issued)
    ensures Numbering(tickets + [t], issued + 1)
    ensures NumbersUnique(tickets + [t])
  {
    var after := tickets + [t];
    forall i, s, k | 0 <= i < |after| && AllDigits(s) && k >= issued + 1
      ensures after[i].ticketNumber != TicketNumber(s, k)
    {
      if i == |tickets| && t.ticketNumber == TicketNumber(s, k) {
        TicketNumberInjective(today, issued, s, k);
      }
    }
  }

  /** Removing a ticket or replacing one by a ticket with the same number keeps the
      invariant. */
  lemma NumberingAfterRemove(tickets: seq<Ticket>, issued: nat, i: nat)
    requires Numbering(tickets, issued) && i < |tickets|
    ensures Numbering(RemoveAt(tickets, i), issued)
  {
    var after := RemoveAt(tickets, i);
    assert forall j | 0 <= j < |after| :: after[j] == tickets[if j < i then j else j + 1];
  }

  lemma NumberingAfterReplace(tickets: seq<Ticket>, issued: nat, i: nat, t: Ticket)
    requires Numbering(tickets, issued) && i < |tickets|
    requires t.ticketNumber == tickets[i].ticketNumber
    ensures Numbering(tickets[i := t], issued)
  {
    var after := tickets[i := t];
    assert forall j | 0 <= j < |after| :: after[j].ticketNumber == tickets[j].ticketNumber;
  }

  /** `find_ticket_by_number`: the first ticket with that number. */
  function FindTicketByNumber(tickets: seq<Ticket>, number: string): (r: Option<Ticket>)
    ensures r.Some? ==> r.value in tickets && r.value.ticketNumber == number
    ensures r.None? ==> forall i | 0 <= i < |tickets| :: tickets[i].ticketNumber != number
  {
    var i := IndexWhere(tickets, (t: Ticket) => t.ticketNumber == number);
    if i.Some? then Some(tickets[i.value]) else None
  }

  /** With unique numbers, a ticket's number finds that very ticket. */
  lemma NumberFindsItsTicket(tickets: seq<Ticket>, i: nat)
    requires NumbersUnique(tickets) && i < |tickets|
    ensures FindTicketByNumber(tickets, tickets[i].ticketNumber) == Some(tickets[i])
  {
    IndexWhereAt(tickets, (t: Ticket) => t.ticketNumber == tickets[i].ticketNumber, i);
  }

  // ---------------------------------------------------------------------------------------------
  // Creation and lookup

  /** The ticket `create_ticket` inserts: the validated request with status "open", stamped at
      `now`, without responses or admin notes. */
  function NewTicket(id: string, request: TicketCreate, number: string, now: int): (t: Ticket)
    ensures t.status == Open && t.ticketNumber == number && t.createdAt == now && t.updatedAt == now
    ensures t.userId == request.userId && t.subject == request.subject && t.description == request.description
    ensures t.category == request.category && t.priority == request.priority
    ensures t.responses == [] && t.adminNotes.None?
  {
    Ticket(id, request.userId, request.subject, request.description, request.category, request.priority,
           Open, number, [], None, now, now)
  }

  /** `find_ticket_by_id`: a string that is not an object id makes `ObjectId` raise, which is
      answered None; otherwise the first ticket with that id. */
  function FindTicketById(tickets: seq<Ticket>, ticketId: string): (r: Option<Ticket>)
    ensures r.Some? <==> IsObjectId(ticketId) && exists i | 0 <= i < |tickets| :: tickets[i].id == CanonicalId(ticketId)
    ensures r.Some? ==> r.value in tickets && r.value.id == CanonicalId(ticketId)
  {
    if !IsObjectId(ticketId) then None
    else
      var i := IndexWhere(tickets, (t: Ticket) => t.id == CanonicalId(ticketId));
      if i.Some? then Some(tickets[i.value]) else None
  }

  // ---------------------------------------------------------------------------------------------
  // Updates

  /** The fields one `$set` writes besides `updated_at`; None for a field it leaves alone. */
  datatype TicketChanges = TicketChanges(
    subject: Option<string>,
    description: Option<string>,
    category: Option<TicketCategory>,
    priority: Option<TicketPriority>,
    status: Option<TicketStatus>,
    adminNotes: Option<string>)

  /** The changes of an owner's edit: the fields the client sent. */
  function EditChanges(u: TicketUpdate): (c: TicketChanges)
    ensures c.subject == u.subject && c.description == u.description
    ensures c.category == u.category && c.priority == u.priority
    ensures c.status.None? && c.adminNotes.None?
  {
    TicketChanges(u.subject, u.description, u.category, u.priority, None, None)
  }

  /** `update_ticket_status`: the status always, the admin notes only when they are truthy (a
      non-empty string). */
  function StatusChanges(status: TicketStatus, adminNotes: Option<string>): (c: TicketChanges)
    ensures c.status == Some(status)
    ensures c.adminNotes.Some? <==> adminNotes.Some? && adminNotes.value != ""
    ensures c.adminNotes.Some? ==> c.adminNotes == adminNotes
    ensures c.subject.None? && c.description.None? && c.category.None? && c.priority.None?
  {
    var notes := if adminNotes.Some? && adminNotes.value != "" then adminNotes else None;
    TicketChanges(None, None, None, None, Some(status), notes)
  }

  /** The ticket after `$set` with the given fields and `updated_at = now`. */
  function ApplyChanges(t: Ticket, c: TicketChanges, now: int): (r: Ticket)
    ensures r.id == t.id && r.userId == t.userId && r.ticketNumber == t.ticketNumber
    ensures r.responses == t.responses && r.createdAt == t.createdAt && r.updatedAt == now
    ensures r.subject == (if c.subject.Some? then c.subject.value else t.subject)
    ensures r.description == (if c.description.Some? then c.description.value else t.description)
    ensures r.category == (if c.category.Some? then c.category.value else t.category)
    ensures r.priority == (if c.priority.Some? then c.priority.value else t.priority)
    ensures r.status == (if c.status.Some? then c.status.value else t.status)
    ensures r.adminNotes == (if c.adminNotes.Some? then c.adminNotes else t.adminNotes)
  {
    t.(subject := c.subject.GetOr(t.subject),
       description := c.description.GetOr(t.description),
       category := c.category.GetOr(t.category),
       priority := c.priority.GetOr(t.priority),
       status := c.status.GetOr(t.status),
       adminNotes := if c.adminNotes.Some? then c.adminNotes else t.adminNotes,
       updatedAt := now)
  }

  /** The store after `update_ticket` and its answer: a malformed id raises and is answered
      None; a missing ticket or a `$set` that changes nothing modifies no document and is
      answered None; otherwise the ticket is replaced and read back. */
  function UpdateOutcome(tickets: seq<Ticket>, ticketId: string, c: TicketChanges, now: int): (Option<Ticket>, seq<Ticket>) {
    if !IsObjectId(ticketId) then (None, tickets)
    else
      var i := IndexWhere(tickets, (t: Ticket) => t.id == CanonicalId(ticketId));
      if i.None? then (None, tickets)
      else
        var updated := ApplyChanges(tickets[i.value], c, now);
        if updated == tickets[i.value] then (None, tickets)
        else
          var after := tickets[i.value := updated];
          (FindTicketById(after, ticketId), after)
  }

  /** A successful update answers the found ticket with the changes applied, which is what
      the store now holds; an update that would change something always succeeds; None
      leaves the store as it was. */
  lemma UpdateOutcomeSpec(tickets: seq<Ticket>, ticketId: string, c: TicketChanges, now: int)
    ensures var (answer, after) := UpdateOutcome(tickets, ticketId, c, now);
      var found := FindTicketById(tickets, ticketId);
      && (answer.None? ==> after == tickets)
      && (answer.Some? ==>
            && found.Some?
            && answer.value == ApplyChanges(found.value, c, now)
            && answer.value != found.value
            && FindTicketById(after, ticketId) == answer
            && |after| == |tickets|)
      && (found.Some? && ApplyChanges(found.value, c, now) != found.value ==> answer.Some?)
  {
    if IsObjectId(ticketId) {
      var key := CanonicalId(ticketId);
      var i := IndexWhere(tickets, (t: Ticket) => t.id == key);
      if i.Some? {
        var after := tickets[i.value := ApplyChanges(tickets[i.value], c, now)];
        assert after[i.value].id == key;
        assert forall k | 0 <= k < i.value :: after[k] == tickets[k];
        assert IndexWhere(after, (t: Ticket) => t.id == key) == Some(i.value);
      }
    }
  }

  /** The position `update_ticket` and the other writers act on, when there is one. */
  lemma UpdateOutcomeReplaces(tickets: seq<Ticket>, ticketId: string, c: TicketChanges, now: int)
    ensures var (answer, after) := UpdateOutcome(tickets, ticketId, c, now);
      answer.Some? ==>
        var i := IndexWhere(tickets, (t: Ticket) => t.id == CanonicalId(ticketId)).value;
        after == tickets[i := ApplyChanges(tickets[i], c, now)]
  {
  }

  // ---------------------------------------------------------------------------------------------
  // Responses and deletion

  /** `add_ticket_response`: the reply, stamped and given its id, is pushed onto the ticket's
      responses and `updated_at` is set; the answer is whether a document was modified, which
      a `$push` always does to a ticket it finds. */
  function AddResponseOutcome(tickets: seq<Ticket>, ticketId: string, draft: ReplyDraft, freshId: string, now: int): (bool, seq<Ticket>) {
    if !IsObjectId(ticketId) then (false, tickets)
    else
      var i := IndexWhere(tickets, (t: Ticket) => t.id == CanonicalId(ticketId));
      if i.None? then (false, tickets)
      else
        var reply := TicketReply(freshId, draft.message, draft.userId, draft.userType, draft.userName, now);
        (true, tickets[i.value := tickets[i.value].(responses := tickets[i.value].responses + [reply], updatedAt := now)])
  }

  /** The reply is added exactly when the ticket is found, as its one new last response, and
      nothing else of the ticket but `updated_at` changes. */
  lemma AddResponseSpec(tickets: seq<Ticket>, ticketId: string, draft: ReplyDraft, freshId: string, now: int)
    ensures var (added, after) := AddResponseOutcome(tickets, ticketId, draft, freshId, now);
      var found := FindTicketById(tickets, ticketId);
      && (added <==> found.Some?)
      && (!added ==> after == tickets)
      && (added ==>
            var reply := TicketReply(freshId, draft.message, draft.userId, draft.userType, draft.userName, now);
            && |after| == |tickets|
            && FindTicketById(after, ticketId)
               == Some(found.value.(responses := found.value.responses + [reply], updatedAt := now)))
  {
    if IsObjectId(ticketId) {
      var key := CanonicalId(ticketId);
      var i := IndexWhere(tickets, (t: Ticket) => t.id == key);
      if i.Some? {
        var after := AddResponseOutcome(tickets, ticketId, draft, freshId, now).1;
        assert after[i.value].id == key;
        assert forall k | 0 <= k < i.value :: after[k] == tickets[k];
        assert IndexWhere(after, (t: Ticket) => t.id == key) == Some(i.value);
      }
    }
  }

  /** `delete_ticket`: deletes the first ticket with that id and answers whether one was
      deleted; a malformed id raises and is answered false. */
  function DeleteOutcome(tickets: seq<Ticket>, ticketId: string): (bool, seq<Ticket>) {
    if !IsObjectId(ticketId) then (false, tickets)
    else
      var i := IndexWhere(tickets, (t: Ticket) => t.id == CanonicalId(ticketId));
      if i.None? then (false, tickets) else (true, RemoveAt(tickets, i.value))
  }

  /** Deletion answers true exactly when the lookup finds the ticket, and then removes that one
      ticket and nothing else. */
  lemma DeleteOutcomeSpec(tickets: seq<Ticket>, ticketId: string)
    ensures var (deleted, after) := DeleteOutcome(tickets, ticketId);
      && (deleted <==> FindTicketById(tickets, ticketId).Some?)
      && (!deleted ==> after == tickets)
      && (deleted ==> |after| == |tickets| - 1
                      && multiset(after) + multiset{FindTicketById(tickets, ticketId).value} == multiset(tickets))
  {
    var (deleted, after) := DeleteOutcome(tickets, ticketId);
    if deleted {
      var i := IndexWhere(tickets, (t: Ticket) => t.id == CanonicalId(ticketId)).value;
      assert tickets == tickets[..i] + [tickets[i]] + tickets[i + 1..];
    }
  }

  /** With serials reused, a deletion followed by a creation on the same day hands out a
      number that a stored ticket already carries. */
  lemma DeletionReusesTicketNumber(today: string, now: int)
    ensures var first := Ticket("000000000000000000000001", "u", "s", "d", Other, Medium, Open,
                                TicketNumber(today, 0), [], None, now, now);
      var second := Ticket("000000000000000000000002", "u", "s", "d", Other, Medium, Open,
                           TicketNumber(today, 1), [], None, now, now);
      var (deleted, after) := DeleteOutcome([first, second], "000000000000000000000001");
      && deleted && after == [second]
      && TicketNumberAsWritten(after, today) == second.ticketNumber
  {
    var first := Ticket("000000000000000000000001", "u", "s", "d", Other, Medium, Open,
                        TicketNumber(today, 0), [], None, now, now);
    var second := Ticket("000000000000000000000002", "u", "s", "d", Other, Medium, Open,
                         TicketNumber(today, 1), [], None, now, now);
    assert IsObjectId("000000000000000000000001");
    assert CanonicalId("000000000000000000000001") == "000000000000000000000001";
    IndexWhereAt([first, second], (t: Ticket) => t.id == "000000000000000000000001", 0);
  }

  // ---------------------------------------------------------------------------------------------
  // Statistics

  datatype TicketStats = TicketStats(total: nat, open: nat, inProgress: nat, resolved: nat, closed: nat) {
    function BucketSum(): nat {
      open + inProgress + resolved + closed
    }
  }

  function HasStatus(s: TicketStatus): Ticket -> bool {
    (t: Ticket) => t.status == s
  }

  /** `get_ticket_stats`: the number of tickets and one count per status. */
  function StatsOf(tickets: seq<Ticket>): TicketStats {
    TicketStats(|tickets|, Count(tickets, HasStatus(Open)), Count(tickets, HasStatus(InProgress)),
                Count(tickets, HasStatus(Resolved)), Count(tickets, HasStatus(Closed)))
  }

  /** Every ticket has one of the four statuses, so the buckets add up to the total. */
  lemma {:induction false} BucketsCoverTotal(tickets: seq<Ticket>)
    ensures StatsOf(tickets).BucketSum() == StatsOf(tickets).total
    decreases |tickets|
  {
    if tickets != [] {
      BucketsCoverTotal(tickets[..|tickets| - 1]);
    }
  }

  // ---------------------------------------------------------------------------------------------
  // Listings

  function NewestFirst(): Ticket -> int {
    (t: Ticket) => -t.createdAt
  }

  /** `find_tickets_by_user`: the user's tickets, newest first, after `skip`, at most
      `limit`. */
  function UserTickets(tickets: seq<Ticket>, userId: string, skip: nat, limit: nat): seq<Ticket> {
    Page(SortBy(Filter(tickets, OwnedBy(userId)), NewestFirst()), skip, limit)
  }

  function OwnedBy(userId: string): Ticket -> bool {
    (t: Ticket) => t.userId == userId
  }

  /** The user's listing holds only their tickets, newest first. */
  lemma UserTicketsOwnNewestFirst(tickets: seq<Ticket>, userId: string, skip: nat, limit: nat)
    ensures var r := UserTickets(tickets, userId, skip, limit);
      && (forall i | 0 <= i < |r| :: r[i].userId == userId && r[i] in tickets)
      && (forall i, j | 0 <= i < j < |r| :: r[i].createdAt >= r[j].createdAt)
  {
    PageOfSortedSelection(tickets, OwnedBy(userId), NewestFirst(), skip, limit);
    var r := UserTickets(tickets, userId, skip, limit);
    assert forall i, j | 0 <= i < j < |r| :: -r[i].createdAt <= -r[j].createdAt;
  }

  /** From the start, the listing holds all of the user's tickets up to the limit. */
  lemma UserTicketsLength(tickets: seq<Ticket>, userId: string, limit: nat)
    requires limit > 0
    ensures |UserTickets(tickets, userId, 0, limit)| == Min(Count(tickets, OwnedBy(userId)), limit)
  {
    var filtered := Filter(tickets, OwnedBy(userId));
    SortByIsSortedPermutation(filtered, NewestFirst());
    FilterLength(tickets, OwnedBy(userId));
    var sorted := SortBy(filtered, NewestFirst());
    assert |sorted| == |filtered| by {
      assert |multiset(sorted)| == |multiset(filtered)|;
    }
  }

  function Min(a: nat, b: nat): nat {
    if a <= b then a else b
  }

  /** The author attached to a listed ticket, each field read with its default. */
  datatype TicketAuthor = TicketAuthor(id: string, firstName: Value, lastName: Value, email: Value, userType: Value, profilePicture: Value)

  datatype DetailedTicket = DetailedTicket(ticket: Ticket, user: Option<TicketAuthor>)

  function AuthorOf(u: User): TicketAuthor {
    TicketAuthor(u.id, Get(u.doc, "first_name").GetOr(Str("")), Get(u.doc, "last_name").GetOr(Str("")),
                 Get(u.doc, "email").GetOr(Str("")), Get(u.doc, "user_type").GetOr(Str("")),
                 Get(u.doc, "profile_picture").GetOr(Null))
  }

  /** The cursor of `get_tickets_with_details`: the selected tickets, newest first, after
      `skip`, at most `limit`. */
  function DetailsCursor(tickets: seq<Ticket>, selected: Ticket -> bool, skip: nat, limit: nat): seq<Ticket> {
    Page(SortBy(Filter(tickets, selected), NewestFirst()), skip, limit)
  }

  /** `get_tickets_with_details`: each ticket of the cursor with its author, None when the
      account is gone. An author id that is not an object id makes `ObjectId` raise, and the
      whole listing is then answered with the empty list. */
  function TicketsWithDetails(tickets: seq<Ticket>, users: seq<User>, selected: Ticket -> bool, skip: nat, limit: nat): (r: seq<DetailedTicket>)
    ensures var cursor := DetailsCursor(tickets, selected, skip, limit);
      && (r == [] || |r| == |cursor|)
      && (|r| == |cursor| ==> forall i | 0 <= i < |r| :: r[i].ticket == cursor[i])
      && ((forall i | 0 <= i < |cursor| :: IsObjectId(cursor[i].userId)) ==> |r| == |cursor|)
      && ((exists i | 0 <= i < |cursor| :: !IsObjectId(cursor[i].userId)) ==> r == [])
      && (forall i | 0 <= i < |r| :: r[i].user.Some? <==> FindUserById(users, r[i].ticket.userId).Some?)
      && (forall i | 0 <= i < |r| && r[i].user.Some? :: r[i].user.value == AuthorOf(FindUserById(users, r[i].ticket.userId).value))
  {
    var cursor := DetailsCursor(tickets, selected, skip, limit);
    if exists i | 0 <= i < |cursor| :: !IsObjectId(cursor[i].userId) then []
    else
      seq(|cursor|, i requires 0 <= i < |cursor| =>
        var user := FindUserById(users, cursor[i].userId);
        DetailedTicket(cursor[i], if user.Some? then Some(AuthorOf(user.value)) else None))
  }

  /** Every listed ticket is a selected one, and the listing is newest first. */
  lemma DetailsSelectedNewestFirst(tickets: seq<Ticket>, users: seq<User>, selected: Ticket -> bool, skip: nat, limit: nat)
    ensures var r := TicketsWithDetails(tickets, users, selected, skip, limit);
      && (forall i | 0 <= i < |r| :: selected(r[i].ticket) && r[i].ticket in tickets)
      && (forall i, j | 0 <= i < j < |r| :: r[i].ticket.createdAt >= r[j].ticket.createdAt)
  {
    PageOfSortedSelection(tickets, selected, NewestFirst(), skip, limit);
    var cursor := DetailsCursor(tickets, selected, skip, limit);
    assert forall i, j | 0 <= i < j < |cursor| :: -cursor[i].createdAt <= -cursor[j].createdAt;
  }

  // ---------------------------------------------------------------------------------------------
  // The manager

  /** The tickets collection. `issued` counts the tickets ever created; numbers take their
      serial from it, not from the number of tickets stored. */
  class TicketStore {
    var tickets: seq<Ticket>
    var issued: nat

    ghost predicate Valid()
      reads this
    {
      Numbering(tickets, issued)
    }

    constructor()
      ensures Valid() && tickets == [] && issued == 0
    {
      tickets := [];
      issued := 0;
    }

    /** `create_ticket`: inserts the request as an open ticket stamped at `now`, under a fresh
        id, numbered with the next serial of the day `today`. */
    method CreateTicket(freshId: string, request: TicketCreate, today: string, now: int) returns (created: Ticket)
      requires Valid() && AllDigits(today)
      requires IsObjectId(freshId) && freshId == CanonicalId(freshId)
      requires forall i | 0 <= i < |tickets| :: tickets[i].id != freshId
      modifies this
      ensures Valid()
      ensures created == NewTicket(freshId, request, TicketNumber(today, old(issued)), now)
      ensures tickets == old(tickets) + [created] && issued == old(issued) + 1
      ensures FindTicketById(tickets, freshId) == Some(created)
      ensures NumbersUnique(tickets)
    {
      created := NewTicket(freshId, request, TicketNumber(today, issued), now);
      NumberingAfterCreate(tickets, issued, today, created);
      tickets := tickets + [created];
      issued := issued + 1;
      assert tickets[|tickets| - 1].id == CanonicalId(freshId);
    }

    method UpdateTicket(ticketId: string, c: TicketChanges, now: int) returns (updated: Option<Ticket>)
      requires Valid()
      modifies this
      ensures Valid() && issued == old(issued)
      ensures (updated, tickets) == UpdateOutcome(old(tickets), ticketId, c, now)
    {
      if !IsObjectId(ticketId) {
        return None;
      }
      var i := IndexWhere(tickets, (t: Ticket) => t.id == CanonicalId(ticketId));
      if i.None? {
        return None;
      }
      var next := ApplyChanges(tickets[i.value], c, now);
      if next == tickets[i.value] {
        return None;
      }
      NumberingAfterReplace(tickets, issued, i.value, next);
      tickets := tickets[i.value := next];
      updated := FindTicketById(tickets, ticketId);
    }

    /** `update_ticket_status`: `update_ticket` with the status and truthy notes. */
    method UpdateTicketStatus(ticketId: string, status: TicketStatus, adminNotes: Option<string>, now: int) returns (updated: Option<Ticket>)
      requires Valid()
      modifies this
      ensures Valid() && issued == old(issued)
      ensures (updated, tickets) == UpdateOutcome(old(tickets), ticketId, StatusChanges(status, adminNotes), now)
    {
      updated := UpdateTicket(ticketId, StatusChanges(status, adminNotes), now);
    }

    method AddTicketResponse(ticketId: string, draft: ReplyDraft, freshId: string, now: int) returns (added: bool)
      requires Valid()
      modifies this
      ensures Valid() && issued == old(issued)
      ensures (added, tickets) == AddResponseOutcome(old(tickets), ticketId, draft, freshId, now)
    {
      if !IsObjectId(ticketId) {
        return false;
      }
      var i := IndexWhere(tickets, (t: Ticket) => t.id == CanonicalId(ticketId));
      if i.None? {
        return false;
      }
      var reply := TicketReply(freshId, draft.message, draft.userId, draft.userType, draft.userName, now);
      var next := tickets[i.value].(responses := tickets[i.value].responses + [reply], updatedAt := now);
      NumberingAfterReplace(tickets, issued, i.value, next);
      tickets := tickets[i.value := next];
      added := true;
    }

    method DeleteTicket(ticketId: string) returns (deleted: bool)
      requires Valid()
      modifies this
      ensures Valid() && issued == old(issued)
      ensures (deleted, tickets) == DeleteOutcome(old(tickets), ticketId)
    {
      if !IsObjectId(ticketId) {
        return false;
      }
      var i := IndexWhere(tickets, (t: Ticket) => t.id == CanonicalId(ticketId));
      if i.None? {
        return false;
      }
      NumberingAfterRemove(tickets, issued, i.value);
      tickets := RemoveAt(tickets, i.value);
      deleted := true;
    }
  }
}
