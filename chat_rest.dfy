/** The REST side of the chat (app/api/v1/endpoints/chat.py): the socket endpoint's close
    codes, the conversation list, a booking's messages, posting and marking read, and the
    statistics. The caller is the account the token resolved to; token checking is an oracle. */
module ChatRest {
  import opened Common
  import opened ChatSchemas
  import opened UserModels
  import opened BookingModels
  import opened ChatModels
  import opened ChatRooms
  import opened ChatSocket

  const WS_POLICY_VIOLATION: nat := 1008
  const WS_INTERNAL_ERROR: nat := 1011

  /** What checking the socket's token gives: the account, an HTTP error, or another error. */
  datatype SocketAuth = Authenticated(user: User) | Refused | Crashed

  /** `get_my_conversations`: only clients and artisans have conversations to list. */
  function MyConversations(bookings: seq<Booking>, users: seq<User>, messages: seq<Message>, caller: User): (r: Outcome<seq<Conversation>>)
    ensures r.Fail? <==> caller.UserType() != CLIENT && caller.UserType() != ARTISAN
    ensures r.Fail? ==> r.code == FORBIDDEN
    ensures r.Ok? ==> r.value == Conversations(bookings, users, messages, caller.id, caller.UserType())
  {
    var userType := caller.UserType();
    if userType != CLIENT && userType != ARTISAN then Fail(FORBIDDEN)
    else Ok(Conversations(bookings, users, messages, caller.id, userType))
  }

  /** A stored message that `ChatMessageResponse` accepts: its content is a string and its kind
      one of the three message types. Messages sent over the socket are stored unchecked. */
  predicate Presentable(m: Message) {
    m.content.Str? && m.messageType.Str? && ParseMessageType(Some(m.messageType.s)).Some?
  }

  /** The guard chain shared by the routes of one booking: 404 when the booking is not found,
      then 403 when the caller is neither its client nor its artisan. */
  function BookingAccess(bookings: seq<Booking>, caller: User, bookingId: string): (r: Outcome<Booking>)
    ensures r.Fail? && r.code == NOT_FOUND <==> FindBookingById(bookings, bookingId).None?
    ensures r.Fail? && r.code == FORBIDDEN <==>
      FindBookingById(bookings, bookingId).Some? && !FindBookingById(bookings, bookingId).value.HasParticipant(caller.id)
    ensures r.Fail? ==> r.code == NOT_FOUND || r.code == FORBIDDEN
    ensures r.Ok? ==> r.value.HasParticipant(caller.id) && Some(r.value) == FindBookingById(bookings, bookingId)
  {
    var b := FindBookingById(bookings, bookingId);
    if b.None? then Fail(NOT_FOUND)
    else if caller.id != b.value.clientId && caller.id != b.value.artisanId then Fail(FORBIDDEN)
    else Ok(b.value)
  }

  /** `get_conversation_messages`: after the access checks, the booking's first 100 messages,
      oldest first; a stored message the response model refuses makes the route fail with 500. */
  function ConversationMessages(bookings: seq<Booking>, messages: seq<Message>, caller: User, bookingId: string): (r: Outcome<seq<Message>>)
    ensures BookingAccess(bookings, caller, bookingId).Fail? ==> r == Fail(BookingAccess(bookings, caller, bookingId).code)
    ensures BookingAccess(bookings, caller, bookingId).Ok? ==>
      var h := History(messages, bookingId, 0, HISTORY_LIMIT);
      && (r.Ok? <==> forall i | 0 <= i < |h| :: Presentable(h[i]))
      && (r.Fail? ==> r.code == INTERNAL_ERROR)
      && (r.Ok? ==> r.value == h)
  {
    var access := BookingAccess(bookings, caller, bookingId);
    if access.Fail? then Fail(access.code)
    else
      var h := History(messages, bookingId, 0, HISTORY_LIMIT);
      if forall i | 0 <= i < |h| :: Presentable(h[i]) then Ok(h) else Fail(INTERNAL_ERROR)
  }

  /** The checks of `send_message` up to the store: the body's validators (422), the access
      checks (404, 403), the body's sender must be the caller in the caller's role (403), and
      the body's booking must be the path's (400). The message then goes to the other party
      as the caller's role sees it. */
  function PostedDraft(bookings: seq<Booking>, caller: User, bookingId: string, body: MessageBody): (r: Outcome<MessageDraft>)
    ensures ValidateMessage(body).Fail? ==> r == Fail(UNPROCESSABLE)
    ensures ValidateMessage(body).Ok? && BookingAccess(bookings, caller, bookingId).Fail? ==>
      r == Fail(BookingAccess(bookings, caller, bookingId).code)
    ensures r.Ok? <==>
      && ValidateMessage(body).Ok? && BookingAccess(bookings, caller, bookingId).Ok?
      && body.senderId == caller.id && body.senderType == caller.UserType() && body.bookingId == bookingId
    ensures && ValidateMessage(body).Ok? && BookingAccess(bookings, caller, bookingId).Ok?
            && (body.senderId != caller.id || body.senderType != caller.UserType())
            ==> r == Fail(FORBIDDEN)
    ensures && ValidateMessage(body).Ok? && BookingAccess(bookings, caller, bookingId).Ok?
            && body.senderId == caller.id && body.senderType == caller.UserType() && body.bookingId != bookingId
            ==> r == Fail(BAD_REQUEST)
    ensures r.Ok? ==>
      var b := BookingAccess(bookings, caller, bookingId).value;
      && r.value.bookingId == bookingId && r.value.senderId == caller.id && r.value.senderType == caller.UserType()
      && r.value.receiverId == (if caller.UserType() == CLIENT then b.artisanId else b.clientId)
      && r.value.content == Str(body.content) && r.value.messageType == Str(ValidateMessage(body).value.messageType.Name())
  {
    var valid := ValidateMessage(body);
    if valid.Fail? then Fail(UNPROCESSABLE)
    else
      var access := BookingAccess(bookings, caller, bookingId);
      if access.Fail? then Fail(access.code)
      else if body.senderId != caller.id || body.senderType != caller.UserType() then Fail(FORBIDDEN)
      else if body.bookingId != bookingId then Fail(BAD_REQUEST)
      else
        var receiverId := if caller.UserType() == CLIENT then access.value.artisanId else access.value.clientId;
        Ok(MessageDraft(body.bookingId, body.senderId, body.senderType, receiverId,
                        Str(valid.value.content), Str(valid.value.messageType.Name())))
  }

  /** A draft that passed the route's checks is refused by the store (and the route answers
      500) exactly when the caller's role is not their place in the booking: a client who is
      the booking's artisan, or an artisan who is its client. */
  lemma PostRefusedIffRoleMismatch(bookings: seq<Booking>, caller: User, bookingId: string, body: MessageBody)
    requires PostedDraft(bookings, caller, bookingId, body).Ok?
    ensures var b := FindBookingById(bookings, bookingId).value;
      !Accepts(bookings, PostedDraft(bookings, caller, bookingId, body).value) <==>
        (if caller.UserType() == CLIENT then caller.id != b.clientId else caller.id != b.artisanId)
  {
  }

  /** `send_message`: the checks, then `create_message`; its failure becomes 500. */
  method PostMessage(store: MessageStore, bookings: seq<Booking>, caller: User, bookingId: string, body: MessageBody, now: int)
    returns (r: Outcome<Message>)
    requires store.Valid()
    modifies store
    ensures store.Valid()
    ensures PostedDraft(bookings, caller, bookingId, body).Fail? ==>
      r == Fail(PostedDraft(bookings, caller, bookingId, body).code) && unchanged(store)
    ensures PostedDraft(bookings, caller, bookingId, body).Ok? ==>
      var d := PostedDraft(bookings, caller, bookingId, body).value;
      && (r.Ok? <==> Accepts(bookings, d))
      && (r.Fail? ==> r.code == INTERNAL_ERROR && store.messages == old(store.messages) && store.nextId == old(store.nextId))
      && (r.Ok? ==> r.value == Stamped(d, old(store.nextId), now) && store.messages == old(store.messages) + [r.value])
  {
    var d := PostedDraft(bookings, caller, bookingId, body);
    if d.Fail? {
      return Fail(d.code);
    }
    var created := store.CreateMessage(bookings, d.value, now);
    if created.None? {
      return Fail(INTERNAL_ERROR);
    }
    r := Ok(created.value);
  }

  /** `mark_conversation_as_read`: the access checks, then the count of messages marked. */
  method MarkConversationAsRead(store: MessageStore, bookings: seq<Booking>, caller: User, bookingId: string, now: int)
    returns (r: Outcome<nat>)
    requires store.Valid()
    modifies store
    ensures store.Valid()
    ensures BookingAccess(bookings, caller, bookingId).Fail? ==>
      r == Fail(BookingAccess(bookings, caller, bookingId).code) && unchanged(store)
    ensures BookingAccess(bookings, caller, bookingId).Ok? ==>
      && r == Ok(Count(old(store.messages), UnreadFor(bookingId, caller.id)))
      && store.messages == MarkedRead(old(store.messages), bookingId, caller.id, now)
  {
    var access := BookingAccess(bookings, caller, bookingId);
    if access.Fail? {
      return Fail(access.code);
    }
    var readCount := store.MarkMessagesAsRead(bookingId, caller.id, now);
    r := Ok(readCount);
  }

  // ---------------------------------------------------------------------------------------------
  // Statistics.

  /** The sum of the history lengths of the conversations, each history capped at 100. */
  function TotalMessages(conversations: seq<Conversation>, messages: seq<Message>): nat
    decreases |conversations|
  {
    if conversations == [] then 0
    else
      var n := |conversations| - 1;
      TotalMessages(conversations[..n], messages) + |History(messages, conversations[n].bookingId, 0, HISTORY_LIMIT)|
  }

  function Min(a: nat, b: nat): nat {
    if a <= b then a else b
  }

  /** A booking's history holds its whole thread, or the first 100 messages of a longer one. */
  lemma HistoryLength(messages: seq<Message>, bookingId: string)
    ensures |History(messages, bookingId, 0, HISTORY_LIMIT)| == Min(Count(messages, InBooking(bookingId)), HISTORY_LIMIT)
  {
    var thread := Filter(messages, InBooking(bookingId));
    FilterLength(messages, InBooking(bookingId));
    SortByIsSortedPermutation(thread, OldestFirst());
    assert |SortBy(thread, OldestFirst())| == |thread| by {
      assert |multiset(SortBy(thread, OldestFirst()))| == |multiset(thread)|;
    }
  }

  /** The threads' sizes, each capped at 100: the figure `total_messages` reports. */
  function CappedThreads(conversations: seq<Conversation>, messages: seq<Message>): nat
    decreases |conversations|
  {
    if conversations == [] then 0
    else
      var n := |conversations| - 1;
      CappedThreads(conversations[..n], messages) + Min(Count(messages, InBooking(conversations[n].bookingId)), HISTORY_LIMIT)
  }

  /** The total adds each conversation's thread, capped at 100 messages, and so is at most 100
      per conversation. */
  lemma {:induction false} TotalMessagesIsCappedThreads(conversations: seq<Conversation>, messages: seq<Message>)
    ensures TotalMessages(conversations, messages) == CappedThreads(conversations, messages)
    ensures TotalMessages(conversations, messages) <= HISTORY_LIMIT * |conversations|
    decreases |conversations|
  {
    if conversations != [] {
      var n := |conversations| - 1;
      TotalMessagesIsCappedThreads(conversations[..n], messages);
      HistoryLength(messages, conversations[n].bookingId);
    }
  }

  /** `get_chat_stats`: the caller's conversations (no role check), their unread messages over
      every booking, and the total of the conversations' histories. */
  method GetChatStats(store: MessageStore, bookings: seq<Booking>, users: seq<User>, caller: User) returns (stats: ChatStats)
    ensures var conversations := Conversations(bookings, users, store.messages, caller.id, caller.UserType());
      && stats.activeConversations == |conversations|
      && stats.unreadMessages == UnreadCount(store.messages, caller.id)
      && stats.totalMessages == TotalMessages(conversations, store.messages)
  {
    var conversations := store.GetConversationsForUser(bookings, users, caller.id, caller.UserType());
    var unread := UnreadCount(store.messages, caller.id);
    var total := 0;
    var i := 0;
    while i < |conversations|
      invariant 0 <= i <= |conversations|
      invariant total == TotalMessages(conversations[..i], store.messages)
    {
      assert conversations[..i + 1][..i] == conversations[..i];
      var bookingMessages := History(store.messages, conversations[i].bookingId, 0, HISTORY_LIMIT);
      total := total + |bookingMessages|;
      i := i + 1;
    }
    assert conversations[..i] == conversations;
    stats := ChatStats(total, unread, |conversations|);
  }

  // ---------------------------------------------------------------------------------------------
  // The socket endpoint.

  /** `websocket_chat_endpoint`: a refused token closes with 1008 and any other error while
      authenticating with 1011, both before anything changes; an authenticated account's
      connection is served until it ends, and is not closed with a code. */
  method WebSocketChatEndpoint(cm: ConnectionManager, store: MessageStore, bookings: seq<Booking>, users: seq<User>,
                               auth: SocketAuth, socket: Socket, frames: seq<Frame>, clock: nat -> int, dead: set<Socket>)
    returns (closeCode: Option<nat>)
    requires cm.Valid() && store.Valid()
    modifies cm, store
    ensures cm.Valid() && store.Valid()
    ensures auth.Refused? ==> closeCode == Some(WS_POLICY_VIOLATION) && unchanged(cm, store)
    ensures auth.Crashed? ==> closeCode == Some(WS_INTERNAL_ERROR) && unchanged(cm, store)
    ensures auth.Authenticated? ==>
      && closeCode.None?
      && ServerOf(cm, store) == Session(old(ServerOf(cm, store)), bookings, users, auth.user.id, socket, frames, clock, dead)
  {
    match auth
    case Refused =>
      closeCode := Some(WS_POLICY_VIOLATION);
    case Crashed =>
      closeCode := Some(WS_INTERNAL_ERROR);
    case Authenticated(user) =>
      HandleWebSocketConnection(cm, store, bookings, users, user.id, socket, frames, clock, dead);
      closeCode := None;
  }
}
