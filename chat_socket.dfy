/** The frame handlers of the chat socket (app/api/v1/websockets/chat.py): joining a booking's
    room and receiving its history, sending a message to the other party, marking messages as
    read, the typing indicator, and the life of one connection.

    Each handler is a method over the connection manager and the message store, proved equal
    to a function over `Server`, the plain value of that state; the properties are lemmas about
    those functions. */
module ChatSocket {
  import opened Common
  import opened ChatSchemas
  import opened UserModels
  import opened BookingModels
  import opened ChatModels
  import opened ChatRooms

  /** A text frame as received: None when it is not valid JSON, otherwise the parsed value. */
  type Frame = Option<Value>

  /** What the handlers change: the connection manager and the message collection. */
  datatype Server = Server(hub: Hub, messages: seq<Message>, nextId: nat)

  /** `data.get("booking_id")` once it passed `if not booking_id`, when it is a string. A
      truthy number, list or boolean is read as no id, as its booking lookup finds nothing. A
      dictionary, which the database would read as a query operator, is read as no id too,
      although the source would pass it on; that case is not modelled. */
  function BookingIdOf(data: Doc): Option<string> {
    if "booking_id" in data && data["booking_id"].Str? && data["booking_id"].s != "" then Some(data["booking_id"].s)
    else None
  }

  // ---------------------------------------------------------------------------------------------
  // The frames the server pushes.

  /** One message of a `message_history` frame. */
  function HistoryEntry(m: Message): Value {
    Dict(map["id" := Int(m.id), "sender_id" := Str(m.senderId), "sender_type" := Str(m.senderType),
             "content" := m.content, "message_type" := m.messageType, "created_at" := Int(m.createdAt),
             "is_read" := Bool(m.isRead)])
  }

  function HistoryFrame(bookingId: string, history: seq<Message>): WebSocketMessage {
    WebSocketMessage("message_history",
      map["booking_id" := Str(bookingId),
          "messages" := List(seq(|history|, i requires 0 <= i < |history| => HistoryEntry(history[i])))])
  }

  function NewMessageFrame(m: Message): WebSocketMessage {
    WebSocketMessage("new_message",
      map["id" := Int(m.id), "booking_id" := Str(m.bookingId), "sender_id" := Str(m.senderId),
          "sender_type" := Str(m.senderType), "content" := m.content, "message_type" := m.messageType,
          "created_at" := Int(m.createdAt), "is_read" := Bool(false)])
  }

  function ReadFrame(bookingId: string, userId: string, count: nat): WebSocketMessage {
    WebSocketMessage("messages_read",
      map["booking_id" := Str(bookingId), "user_id" := Str(userId), "read_count" := Int(count)])
  }

  function TypingFrame(bookingId: string, userId: string, isTyping: Value): WebSocketMessage {
    WebSocketMessage("typing",
      map["booking_id" := Str(bookingId), "user_id" := Str(userId), "is_typing" := isTyping])
  }

  // ---------------------------------------------------------------------------------------------
  // The handlers as functions of the state.

  /** The checks of `handle_join_room`: the booking exists, the user exists, and the user is
      its client or its artisan. */
  predicate MayJoin(bookings: seq<Booking>, users: seq<User>, userId: string, bookingId: string) {
    var b := FindBookingById(bookings, bookingId);
    b.Some? && FindUserById(users, userId).Some? && b.value.HasParticipant(userId)
  }

  /** `handle_join_room`: joins the room, then sends the user the booking's first 100 messages. */
  function JoinRoom(srv: Server, bookings: seq<Booking>, users: seq<User>, userId: string, bookingId: string, dead: set<Socket>): (r: Server)
    ensures r.messages == srv.messages && r.nextId == srv.nextId
    ensures !MayJoin(bookings, users, userId, bookingId) ==> r == srv
  {
    if !MayJoin(bookings, users, userId, bookingId) then srv
    else
      var joined := srv.hub.(rooms := Joined(srv.hub.rooms, bookingId, userId));
      var history := History(srv.messages, bookingId, 0, HISTORY_LIMIT);
      srv.(hub := Deliver(joined, userId, HistoryFrame(bookingId, history), dead))
  }

  /** The message `handle_send_message` hands to `create_message`: the booking's client writes
      to its artisan as a client; anybody else writes to its client as an artisan. */
  function SocketDraft(b: Booking, userId: string, bookingId: string, content: Value, kind: Value): MessageDraft {
    if userId == b.clientId then MessageDraft(bookingId, userId, CLIENT, b.artisanId, content, kind)
    else MessageDraft(bookingId, userId, ARTISAN, b.clientId, content, kind)
  }

  /** `handle_send_message`: with truthy content, an existing booking and an existing user, the
      message is stored if `create_message` accepts it and is then broadcast to the room,
      the sender excepted; a refused message is dropped silently. */
  function SendMessage(srv: Server, bookings: seq<Booking>, users: seq<User>, userId: string, bookingId: string,
                       data: Doc, now: int, dead: set<Socket>): (r: Server)
    ensures |srv.messages| <= |r.messages| <= |srv.messages| + 1 && r.messages[..|srv.messages|] == srv.messages
    ensures r.nextId == srv.nextId + (|r.messages| - |srv.messages|)
    ensures !TruthyAt(data, "content") ==> r == srv
  {
    var b := FindBookingById(bookings, bookingId);
    if !TruthyAt(data, "content") || b.None? || FindUserById(users, userId).None? then srv
    else
      var d := SocketDraft(b.value, userId, bookingId, data["content"], Get(data, "message_type").GetOr(Str("text")));
      if !Accepts(bookings, d) then srv
      else
        var m := Stamped(d, srv.nextId, now);
        Server(Broadcast(srv.hub, NewMessageFrame(m), bookingId, userId, dead), srv.messages + [m], srv.nextId + 1)
  }

  /** `handle_mark_read`: marks the booking's unread messages to the user, and tells the room
      (the user excepted) when there was at least one. */
  function MarkRead(srv: Server, userId: string, bookingId: string, now: int, dead: set<Socket>): (r: Server)
    ensures |r.messages| == |srv.messages| && r.nextId == srv.nextId
  {
    var count := Count(srv.messages, UnreadFor(bookingId, userId));
    var marked := srv.(messages := MarkedRead(srv.messages, bookingId, userId, now));
    if count > 0 then marked.(hub := Broadcast(srv.hub, ReadFrame(bookingId, userId, count), bookingId, userId, dead))
    else marked
  }

  /** `handle_typing`: relays `is_typing` (false when absent) to the room, the user excepted. */
  function Typing(srv: Server, userId: string, bookingId: string, data: Doc, dead: set<Socket>): Server {
    var isTyping := Get(data, "is_typing").GetOr(Bool(false));
    srv.(hub := Broadcast(srv.hub, TypingFrame(bookingId, userId, isTyping), bookingId, userId, dead))
  }

  /** `handle_websocket_message`: a frame that is not a JSON object, has no usable booking id or
      has an unknown `type` changes nothing; the others go to their handler. */
  function Step(srv: Server, bookings: seq<Booking>, users: seq<User>, userId: string, frame: Frame, now: int, dead: set<Socket>): (r: Server)
    ensures frame.None? || !frame.value.Dict? ==> r == srv
    ensures |srv.messages| <= |r.messages| <= |srv.messages| + 1
  {
    if frame.None? || !frame.value.Dict? then srv
    else
      var data := frame.value.fields;
      var kind := Get(data, "type");
      var bookingId := BookingIdOf(data);
      if bookingId.None? then srv
      else if kind == Some(Str("join_room")) then JoinRoom(srv, bookings, users, userId, bookingId.value, dead)
      else if kind == Some(Str("send_message")) then SendMessage(srv, bookings, users, userId, bookingId.value, data, now, dead)
      else if kind == Some(Str("mark_read")) then MarkRead(srv, userId, bookingId.value, now, dead)
      else if kind == Some(Str("typing")) then Typing(srv, userId, bookingId.value, data, dead)
      else srv
  }

  /** The frames of one connection handled in order; the k-th is handled at `clock(k)`. */
  function Steps(srv: Server, bookings: seq<Booking>, users: seq<User>, userId: string, frames: seq<Frame>,
                 clock: nat -> int, dead: set<Socket>): Server
    decreases |frames|
  {
    if frames == [] then srv
    else
      var n := |frames| - 1;
      Step(Steps(srv, bookings, users, userId, frames[..n], clock, dead), bookings, users, userId, frames[n], clock(n), dead)
  }

  /** `handle_websocket_connection`: connects, handles every frame, and disconnects when the
      socket closes or a frame handler lets an error through. */
  function Session(srv: Server, bookings: seq<Booking>, users: seq<User>, userId: string, socket: Socket,
                   frames: seq<Frame>, clock: nat -> int, dead: set<Socket>): Server {
    var connected := srv.(hub := srv.hub.(active := srv.hub.active[userId := socket]));
    var done := Steps(connected, bookings, users, userId, frames, clock, dead);
    done.(hub := Hub(done.hub.outbox, done.hub.active - {userId}, Purged(done.hub.rooms, userId)))
  }

  // ---------------------------------------------------------------------------------------------
  // Properties.

  /** Every member of every room could have joined it: the booking exists, the member exists
      and is one of its two parties. */
  ghost predicate Authorised(rooms: seq<Room>, bookings: seq<Booking>, users: seq<User>) {
    forall b, v | InRoom(rooms, b, v) :: MayJoin(bookings, users, v, b)
  }

  /** The draft the socket builds is accepted exactly when the sender is a party to the
      booking, so a refusal happens only to outsiders. */
  lemma SocketDraftAcceptedIffParticipant(bookings: seq<Booking>, userId: string, bookingId: string, content: Value, kind: Value)
    requires FindBookingById(bookings, bookingId).Some?
    ensures var b := FindBookingById(bookings, bookingId).value;
      Accepts(bookings, SocketDraft(b, userId, bookingId, content, kind)) <==> b.HasParticipant(userId)
  {
  }

  /** Joining: nothing happens unless the checks pass; then the user is in the room, unless
      the history could not be sent, which disconnects them; nobody else's membership
      changes, and the only frame sent is the history, to the user. */
  lemma JoinRoomSpec(srv: Server, bookings: seq<Booking>, users: seq<User>, userId: string, bookingId: string, dead: set<Socket>)
    requires RoomsValid(srv.hub.rooms)
    ensures var r := JoinRoom(srv, bookings, users, userId, bookingId, dead);
      && RoomsValid(r.hub.rooms)
      && r.messages == srv.messages && r.nextId == srv.nextId
      && (!MayJoin(bookings, users, userId, bookingId) ==> r == srv)
      && (MayJoin(bookings, users, userId, bookingId) && userId in srv.hub.active && srv.hub.active[userId] !in dead ==>
            && InRoom(r.hub.rooms, bookingId, userId)
            && r.hub.active == srv.hub.active
            && r.hub.outbox == srv.hub.outbox + [Delivery(userId, srv.hub.active[userId],
                                                   HistoryFrame(bookingId, History(srv.messages, bookingId, 0, HISTORY_LIMIT)))])
      && (MayJoin(bookings, users, userId, bookingId) && userId !in srv.hub.active ==>
            InRoom(r.hub.rooms, bookingId, userId) && r.hub.outbox == srv.hub.outbox)
      && (forall b, v | v != userId :: InRoom(r.hub.rooms, b, v) <==> InRoom(srv.hub.rooms, b, v))
  {
    if MayJoin(bookings, users, userId, bookingId) {
      JoinedSpec(srv.hub.rooms, bookingId, userId);
      var j := Joined(srv.hub.rooms, bookingId, userId);
      if userId in srv.hub.active && srv.hub.active[userId] in dead {
        PurgedSpec(j, userId);
      }
    }
  }

  /** Sending: a message is stored exactly when the content is truthy, the user exists and is
      a party to an existing booking; it is then the user's, addressed to the other party,
      unread and stamped `now`, and it is pushed only to the other members of the room.
      Otherwise nothing changes. */
  lemma SendMessageSpec(srv: Server, bookings: seq<Booking>, users: seq<User>, userId: string, bookingId: string,
                        data: Doc, now: int, dead: set<Socket>)
    requires RoomsValid(srv.hub.rooms)
    ensures var r := SendMessage(srv, bookings, users, userId, bookingId, data, now, dead);
      var b := FindBookingById(bookings, bookingId);
      && RoomsValid(r.hub.rooms)
      && (|r.messages| == |srv.messages| + 1 <==>
            TruthyAt(data, "content") && FindUserById(users, userId).Some? && b.Some? && b.value.HasParticipant(userId))
      && (|r.messages| != |srv.messages| + 1 ==> r == srv)
      && (|r.messages| == |srv.messages| + 1 ==>
            var m := r.messages[|srv.messages|];
            && r.messages[..|srv.messages|] == srv.messages
            && m.id == srv.nextId && r.nextId == srv.nextId + 1
            && m.bookingId == bookingId && m.senderId == userId && m.content == data["content"]
            && m.receiverId == (if userId == b.value.clientId then b.value.artisanId else b.value.clientId)
            && (m.senderType == CLIENT <==> userId == b.value.clientId)
            && !m.isRead && m.createdAt == now
            && |srv.hub.outbox| <= |r.hub.outbox| && r.hub.outbox[..|srv.hub.outbox|] == srv.hub.outbox
            && (forall k | |srv.hub.outbox| <= k < |r.hub.outbox| ::
                  && r.hub.outbox[k].frame == NewMessageFrame(m) && r.hub.outbox[k].userId != userId
                  && InRoom(srv.hub.rooms, bookingId, r.hub.outbox[k].userId)))
  {
    var r := SendMessage(srv, bookings, users, userId, bookingId, data, now, dead);
    var b := FindBookingById(bookings, bookingId);
    if TruthyAt(data, "content") && b.Some? && FindUserById(users, userId).Some? {
      var d := SocketDraft(b.value, userId, bookingId, data["content"], Get(data, "message_type").GetOr(Str("text")));
      if Accepts(bookings, d) {
        var m := Stamped(d, srv.nextId, now);
        BroadcastSpec(srv.hub, NewMessageFrame(m), bookingId, userId, dead);
        BroadcastOnlyToOthersInRoom(srv.hub, NewMessageFrame(m), bookingId, userId, dead);
        assert r.messages[|srv.messages|] == m;
      }
    }
  }

  /** A zero count means no message matched, so marking changed nothing. */
  lemma {:induction false} NothingUnreadNothingMarked(messages: seq<Message>, bookingId: string, userId: string, now: int)
    requires Count(messages, UnreadFor(bookingId, userId)) == 0
    ensures MarkedRead(messages, bookingId, userId, now) == messages
  {
    FilterLength(messages, UnreadFor(bookingId, userId));
    assert forall i | 0 <= i < |messages| :: !UnreadFor(bookingId, userId)(messages[i]);
  }

  /** Marking read: afterwards no message of the booking is unread to the user and no other
      user's unread count moved; with nothing to mark, nothing at all changes; otherwise the
      room, the user excepted, is told how many were marked. */
  lemma MarkReadSpec(srv: Server, userId: string, bookingId: string, other: string, now: int, dead: set<Socket>)
    requires RoomsValid(srv.hub.rooms)
    requires other != userId
    ensures var r := MarkRead(srv, userId, bookingId, now, dead);
      var count := Count(srv.messages, UnreadFor(bookingId, userId));
      && RoomsValid(r.hub.rooms)
      && |r.messages| == |srv.messages| && r.nextId == srv.nextId
      && Count(r.messages, UnreadFor(bookingId, userId)) == 0
      && UnreadCount(r.messages, userId) == UnreadCount(srv.messages, userId) - count
      && UnreadCount(r.messages, other) == UnreadCount(srv.messages, other)
      && (count == 0 ==> r == srv)
      && |srv.hub.outbox| <= |r.hub.outbox| && r.hub.outbox[..|srv.hub.outbox|] == srv.hub.outbox
      && (forall k | |srv.hub.outbox| <= k < |r.hub.outbox| ::
            && r.hub.outbox[k].frame == ReadFrame(bookingId, userId, count) && r.hub.outbox[k].userId != userId
            && InRoom(srv.hub.rooms, bookingId, r.hub.outbox[k].userId))
  {
    var count := Count(srv.messages, UnreadFor(bookingId, userId));
    MarkingAgainFindsNothing(srv.messages, bookingId, userId, now);
    MarkingLowersUnread(srv.messages, bookingId, userId, other, now);
    if count == 0 {
      NothingUnreadNothingMarked(srv.messages, bookingId, userId, now);
    } else {
      BroadcastSpec(srv.hub, ReadFrame(bookingId, userId, count), bookingId, userId, dead);
      BroadcastOnlyToOthersInRoom(srv.hub, ReadFrame(bookingId, userId, count), bookingId, userId, dead);
    }
  }

  /** Read state never goes back: no frame removes or replaces a stored message or marks a
      read one unread, and the only message a frame adds is unread. */
  lemma StepNeverUnreads(srv: Server, bookings: seq<Booking>, users: seq<User>, userId: string, frame: Frame, now: int, dead: set<Socket>)
    requires RoomsValid(srv.hub.rooms)
    ensures var r := Step(srv, bookings, users, userId, frame, now, dead);
      && |srv.messages| <= |r.messages| <= |srv.messages| + 1
      && (forall i | 0 <= i < |srv.messages| ::
            && r.messages[i].id == srv.messages[i].id && r.messages[i].content == srv.messages[i].content
            && r.messages[i].senderId == srv.messages[i].senderId && r.messages[i].receiverId == srv.messages[i].receiverId
            && (srv.messages[i].isRead ==> r.messages[i].isRead))
      && (forall i | |srv.messages| <= i < |r.messages| :: !r.messages[i].isRead)
  {
    var r := Step(srv, bookings, users, userId, frame, now, dead);
    if frame.Some? && frame.value.Dict? && BookingIdOf(frame.value.fields).Some? {
      var data := frame.value.fields;
      var kind := Get(data, "type");
      var bid := BookingIdOf(data).value;
      if kind == Some(Str("join_room")) {
        JoinRoomSpec(srv, bookings, users, userId, bid, dead);
        assert r.messages == srv.messages;
      } else if kind == Some(Str("send_message")) {
        SendMessageSpec(srv, bookings, users, userId, bid, data, now, dead);
        assert r == SendMessage(srv, bookings, users, userId, bid, data, now, dead);
      } else if kind == Some(Str("mark_read")) {
        MarkedReadTouchesOnlyTargets(srv.messages, bid, userId, now);
        assert r.messages == MarkedRead(srv.messages, bid, userId, now);
      } else {
        assert r.messages == srv.messages;
      }
    }
  }

  /** No frame lets anybody into a room they could not join, and the invariant that every
      member is a party to the room's booking is kept. */
  lemma StepKeepsRoomsAuthorised(srv: Server, bookings: seq<Booking>, users: seq<User>, userId: string, frame: Frame, now: int, dead: set<Socket>)
    requires RoomsValid(srv.hub.rooms) && Authorised(srv.hub.rooms, bookings, users)
    ensures var r := Step(srv, bookings, users, userId, frame, now, dead);
      RoomsValid(r.hub.rooms) && Authorised(r.hub.rooms, bookings, users)
  {
    var r := Step(srv, bookings, users, userId, frame, now, dead);
    if frame.Some? && frame.value.Dict? && BookingIdOf(frame.value.fields).Some? {
      var data := frame.value.fields;
      var kind := Get(data, "type");
      var bid := BookingIdOf(data).value;
      if kind == Some(Str("join_room")) {
        JoinRoomSpec(srv, bookings, users, userId, bid, dead);
        if MayJoin(bookings, users, userId, bid) {
          JoinedSpec(srv.hub.rooms, bid, userId);
          var j := Joined(srv.hub.rooms, bid, userId);
          DeliverOnlyRemoves(srv.hub.(rooms := j), userId, HistoryFrame(bid, History(srv.messages, bid, 0, HISTORY_LIMIT)), dead);
        }
      } else if kind == Some(Str("send_message")) {
        SendMessageSpec(srv, bookings, users, userId, bid, data, now, dead);
        var b := FindBookingById(bookings, bid);
        if TruthyAt(data, "content") && b.Some? && FindUserById(users, userId).Some? {
          var d := SocketDraft(b.value, userId, bid, data["content"], Get(data, "message_type").GetOr(Str("text")));
          BroadcastOnlyToOthersInRoom(srv.hub, NewMessageFrame(Stamped(d, srv.nextId, now)), bid, userId, dead);
        }
      } else if kind == Some(Str("mark_read")) {
        var count := Count(srv.messages, UnreadFor(bid, userId));
        BroadcastSpec(srv.hub, ReadFrame(bid, userId, count), bid, userId, dead);
        BroadcastOnlyToOthersInRoom(srv.hub, ReadFrame(bid, userId, count), bid, userId, dead);
      } else if kind == Some(Str("typing")) {
        var isTyping := Get(data, "is_typing").GetOr(Bool(false));
        BroadcastSpec(srv.hub, TypingFrame(bid, userId, isTyping), bid, userId, dead);
        BroadcastOnlyToOthersInRoom(srv.hub, TypingFrame(bid, userId, isTyping), bid, userId, dead);
      }
    }
  }

  /** Every frame a handler pushes is about the booking the incoming frame named, and goes
      only to users who are parties to that booking. */
  lemma StepDeliversOnlyToParticipants(srv: Server, bookings: seq<Booking>, users: seq<User>, userId: string, frame: Frame, now: int, dead: set<Socket>)
    requires RoomsValid(srv.hub.rooms) && Authorised(srv.hub.rooms, bookings, users)
    ensures var r := Step(srv, bookings, users, userId, frame, now, dead);
      && |srv.hub.outbox| <= |r.hub.outbox| && r.hub.outbox[..|srv.hub.outbox|] == srv.hub.outbox
      && (|r.hub.outbox| > |srv.hub.outbox| ==>
            && frame.Some? && frame.value.Dict? && BookingIdOf(frame.value.fields).Some?
            && DeliversOnlyTo(srv.hub.outbox, r.hub.outbox, bookings, users, BookingIdOf(frame.value.fields).value))
  {
    var r := Step(srv, bookings, users, userId, frame, now, dead);
    if frame.Some? && frame.value.Dict? && BookingIdOf(frame.value.fields).Some? {
      var data := frame.value.fields;
      var kind := Get(data, "type");
      var bid := BookingIdOf(data).value;
      if kind == Some(Str("join_room")) {
        assert r == JoinRoom(srv, bookings, users, userId, bid, dead);
        assert DeliversOnlyTo(srv.hub.outbox, r.hub.outbox, bookings, users, bid) by {
          JoinRoomSpec(srv, bookings, users, userId, bid, dead);
        }
      } else if kind == Some(Str("send_message")) {
        assert r == SendMessage(srv, bookings, users, userId, bid, data, now, dead);
        assert DeliversOnlyTo(srv.hub.outbox, r.hub.outbox, bookings, users, bid) by {
          SendMessageSpec(srv, bookings, users, userId, bid, data, now, dead);
        }
      } else if kind == Some(Str("mark_read")) {
        assert r == MarkRead(srv, userId, bid, now, dead);
        var count := Count(srv.messages, UnreadFor(bid, userId));
        assert DeliversOnlyTo(srv.hub.outbox, r.hub.outbox, bookings, users, bid) by {
          BroadcastDelivers(srv.hub, ReadFrame(bid, userId, count), bid, userId, dead, bookings, users);
        }
      } else if kind == Some(Str("typing")) {
        assert r == Typing(srv, userId, bid, data, dead);
        var isTyping := Get(data, "is_typing").GetOr(Bool(false));
        assert DeliversOnlyTo(srv.hub.outbox, r.hub.outbox, bookings, users, bid) by {
          BroadcastDelivers(srv.hub, TypingFrame(bid, userId, isTyping), bid, userId, dead, bookings, users);
        }
      } else {
        assert r == srv;
      }
    } else {
      assert r == srv;
    }
  }

  /** The frames added after `before` all go to users who may join the booking. */
  predicate DeliversOnlyTo(before: seq<Delivery>, after: seq<Delivery>, bookings: seq<Booking>, users: seq<User>, bookingId: string) {
    && |before| <= |after| && after[..|before|] == before
    && forall k | |before| <= k < |after| :: MayJoin(bookings, users, after[k].userId, bookingId)
  }

  /** A broadcast from an authorised hub only reaches users who may join the booking. */
  lemma BroadcastDelivers(st: Hub, frame: WebSocketMessage, bookingId: string, exclude: string, dead: set<Socket>,
                          bookings: seq<Booking>, users: seq<User>)
    requires RoomsValid(st.rooms) && Authorised(st.rooms, bookings, users)
    ensures var r := Broadcast(st, frame, bookingId, exclude, dead);
      && |st.outbox| <= |r.outbox| && r.outbox[..|st.outbox|] == st.outbox
      && forall k | |st.outbox| <= k < |r.outbox| :: MayJoin(bookings, users, r.outbox[k].userId, bookingId)
  {
    BroadcastOnlyToOthersInRoom(st, frame, bookingId, exclude, dead);
  }

  lemma StepsSnoc(srv: Server, bookings: seq<Booking>, users: seq<User>, userId: string, frames: seq<Frame>, i: nat,
                  clock: nat -> int, dead: set<Socket>)
    requires i < |frames|
    ensures Steps(srv, bookings, users, userId, frames[..i + 1], clock, dead)
         == Step(Steps(srv, bookings, users, userId, frames[..i], clock, dead), bookings, users, userId, frames[i], clock(i), dead)
  {
    assert frames[..i + 1][..|frames[..i + 1]| - 1] == frames[..i];
  }

  /** A whole connection keeps every room's members parties to its booking, and once it ends
      the user has no connection and is in no room. */
  lemma {:induction false} SessionKeepsRoomsAuthorised(srv: Server, bookings: seq<Booking>, users: seq<User>, userId: string,
                                                       socket: Socket, frames: seq<Frame>, clock: nat -> int, dead: set<Socket>)
    requires RoomsValid(srv.hub.rooms) && Authorised(srv.hub.rooms, bookings, users)
    ensures var r := Session(srv, bookings, users, userId, socket, frames, clock, dead);
      && RoomsValid(r.hub.rooms) && Authorised(r.hub.rooms, bookings, users)
      && userId !in r.hub.active
      && (forall b :: !InRoom(r.hub.rooms, b, userId))
  {
    var connected := srv.(hub := srv.hub.(active := srv.hub.active[userId := socket]));
    StepsKeepRoomsAuthorised(connected, bookings, users, userId, frames, clock, dead);
    var done := Steps(connected, bookings, users, userId, frames, clock, dead);
    PurgedSpec(done.hub.rooms, userId);
  }

  lemma {:induction false} StepsKeepRoomsAuthorised(srv: Server, bookings: seq<Booking>, users: seq<User>, userId: string,
                                                    frames: seq<Frame>, clock: nat -> int, dead: set<Socket>)
    requires RoomsValid(srv.hub.rooms) && Authorised(srv.hub.rooms, bookings, users)
    ensures var r := Steps(srv, bookings, users, userId, frames, clock, dead);
      RoomsValid(r.hub.rooms) && Authorised(r.hub.rooms, bookings, users)
    decreases |frames|
  {
    if frames != [] {
      var n := |frames| - 1;
      StepsKeepRoomsAuthorised(srv, bookings, users, userId, frames[..n], clock, dead);
      StepKeepsRoomsAuthorised(Steps(srv, bookings, users, userId, frames[..n], clock, dead), bookings, users, userId, frames[n], clock(n), dead);
    }
  }

  // ---------------------------------------------------------------------------------------------
  // The handlers as methods over the manager and the store.

  function ServerOf(cm: ConnectionManager, store: MessageStore): Server
    reads cm, store
  {
    Server(cm.State(), store.messages, store.nextId)
  }

  /** `handle_join_room`. */
  method HandleJoinRoom(cm: ConnectionManager, store: MessageStore, bookings: seq<Booking>, users: seq<User>,
                        userId: string, bookingId: string, dead: set<Socket>)
    requires cm.Valid()
    modifies cm
    ensures cm.Valid()
    ensures ServerOf(cm, store) == JoinRoom(old(ServerOf(cm, store)), bookings, users, userId, bookingId, dead)
  {
    var booking := FindBookingById(bookings, bookingId);
    if booking.None? {
      return;
    }
    var user := FindUserById(users, userId);
    if user.None? {
      return;
    }
    if userId != booking.value.clientId && userId != booking.value.artisanId {
      return;
    }
    cm.JoinBookingRoom(userId, bookingId);
    var messages := History(store.messages, bookingId, 0, HISTORY_LIMIT);
    cm.SendPersonalMessage(HistoryFrame(bookingId, messages), userId, dead);
  }

  /** `handle_send_message`. */
  method HandleSendMessage(cm: ConnectionManager, store: MessageStore, bookings: seq<Booking>, users: seq<User>,
                           userId: string, bookingId: string, data: Doc, now: int, dead: set<Socket>)
    requires cm.Valid() && store.Valid()
    modifies cm, store
    ensures cm.Valid() && store.Valid()
    ensures ServerOf(cm, store) == SendMessage(old(ServerOf(cm, store)), bookings, users, userId, bookingId, data, now, dead)
  {
    if !TruthyAt(data, "content") {
      return;
    }
    var content := data["content"];
    var messageType := Get(data, "message_type").GetOr(Str("text"));
    var booking := FindBookingById(bookings, bookingId);
    if booking.None? {
      return;
    }
    var user := FindUserById(users, userId);
    if user.None? {
      return;
    }
    var receiverId, senderType;
    if userId == booking.value.clientId {
      receiverId, senderType := booking.value.artisanId, CLIENT;
    } else {
      receiverId, senderType := booking.value.clientId, ARTISAN;
    }
    var draft := MessageDraft(bookingId, userId, senderType, receiverId, content, messageType);
    assert draft == SocketDraft(booking.value, userId, bookingId, content, messageType);
    var created := store.CreateMessage(bookings, draft, now);
    if created.Some? {
      assert cm.State() == old(cm.State());
      cm.BroadcastToBooking(NewMessageFrame(created.value), bookingId, userId, dead);
    }
  }

  /** `handle_mark_read`. */
  method HandleMarkRead(cm: ConnectionManager, store: MessageStore, userId: string, bookingId: string, now: int, dead: set<Socket>)
    requires cm.Valid() && store.Valid()
    modifies cm, store
    ensures cm.Valid() && store.Valid()
    ensures ServerOf(cm, store) == MarkRead(old(ServerOf(cm, store)), userId, bookingId, now, dead)
  {
    var readCount := store.MarkMessagesAsRead(bookingId, userId, now);
    if readCount > 0 {
      cm.BroadcastToBooking(ReadFrame(bookingId, userId, readCount), bookingId, userId, dead);
    }
  }

  /** `handle_typing`. */
  method HandleTyping(cm: ConnectionManager, store: MessageStore, userId: string, bookingId: string, data: Doc, dead: set<Socket>)
    requires cm.Valid()
    modifies cm
    ensures cm.Valid()
    ensures ServerOf(cm, store) == Typing(old(ServerOf(cm, store)), userId, bookingId, data, dead)
  {
    var isTyping := Get(data, "is_typing").GetOr(Bool(false));
    cm.BroadcastToBooking(TypingFrame(bookingId, userId, isTyping), bookingId, userId, dead);
  }

  /** `handle_websocket_message`. */
  method HandleWebSocketMessage(cm: ConnectionManager, store: MessageStore, bookings: seq<Booking>, users: seq<User>,
                                userId: string, frame: Frame, now: int, dead: set<Socket>)
    requires cm.Valid() && store.Valid()
    modifies cm, store
    ensures cm.Valid() && store.Valid()
    ensures ServerOf(cm, store) == Step(old(ServerOf(cm, store)), bookings, users, userId, frame, now, dead)
  {
    if frame.None? || !frame.value.Dict? {
      return;
    }
    var data := frame.value.fields;
    var kind := Get(data, "type");
    var bookingId := BookingIdOf(data);
    if bookingId.None? {
      return;
    }
    if kind == Some(Str("join_room")) {
      HandleJoinRoom(cm, store, bookings, users, userId, bookingId.value, dead);
    } else if kind == Some(Str("send_message")) {
      HandleSendMessage(cm, store, bookings, users, userId, bookingId.value, data, now, dead);
    } else if kind == Some(Str("mark_read")) {
      HandleMarkRead(cm, store, userId, bookingId.value, now, dead);
    } else if kind == Some(Str("typing")) {
      HandleTyping(cm, store, userId, bookingId.value, data, dead);
    }
  }

  /** `handle_websocket_connection`: the user's frames in the order they arrived, then the
      disconnect. */
  method HandleWebSocketConnection(cm: ConnectionManager, store: MessageStore, bookings: seq<Booking>, users: seq<User>,
                                   userId: string, socket: Socket, frames: seq<Frame>, clock: nat -> int, dead: set<Socket>)
    requires cm.Valid() && store.Valid()
    modifies cm, store
    ensures cm.Valid() && store.Valid()
    ensures ServerOf(cm, store) == Session(old(ServerOf(cm, store)), bookings, users, userId, socket, frames, clock, dead)
    ensures userId !in cm.active && forall b :: !InRoom(cm.rooms, b, userId)
  {
    ghost var start := old(ServerOf(cm, store));
    cm.Connect(userId, socket);
    ghost var connected := start.(hub := start.hub.(active := start.hub.active[userId := socket]));
    var i := 0;
    while i < |frames|
      invariant 0 <= i <= |frames|
      invariant cm.Valid() && store.Valid()
      invariant ServerOf(cm, store) == Steps(connected, bookings, users, userId, frames[..i], clock, dead)
    {
      StepsSnoc(connected, bookings, users, userId, frames, i, clock, dead);
      HandleWebSocketMessage(cm, store, bookings, users, userId, frames[i], clock(i), dead);
      i := i + 1;
    }
    assert frames[..i] == frames;
    PurgedSpec(cm.rooms, userId);
    cm.Disconnect(userId);
  }
}
