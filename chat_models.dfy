/** The chat message store (app/models/chat_models.py): creating a message between the two
    parties of a booking, the history of a booking, marking messages as read, the unread
    count, and the conversation summaries of a user. */
module ChatModels {
  import opened Common
  import opened ChatSchemas
  import opened UserModels
  import opened BookingModels

  /** A stored chat message. Content and kind are stored as they were sent: the REST route
      validates them, the socket route does not. */
  datatype Message = Message(
    id: nat,
    bookingId: string,
    senderId: string,
    senderType: string,
    receiverId: string,
    content: Value,
    messageType: Value,
    createdAt: int,
    isRead: bool,
    readAt: Option<int>)

  /** The fields handed to `create_message`. */
  datatype MessageDraft = MessageDraft(
    bookingId: string,
    senderId: string,
    senderType: string,
    receiverId: string,
    content: Value,
    messageType: Value)

  /** The pairing rule of `create_message`: a client writes from the booking's client to its
      artisan; any other sender type writes from the artisan to the client. */
  predicate PairedWith(b: Booking, d: MessageDraft) {
    if d.senderType == CLIENT then d.senderId == b.clientId && d.receiverId == b.artisanId
    else d.senderId == b.artisanId && d.receiverId == b.clientId
  }

  /** `create_message` stores the draft exactly when its booking id is an object id of an
      existing booking whose parties match the draft; otherwise it raises. */
  predicate Accepts(bookings: seq<Booking>, d: MessageDraft) {
    var b := FindBookingById(bookings, d.bookingId);
    b.Some? && PairedWith(b.value, d)
  }

  /** The stored form of an accepted draft: stamped at `now` and unread. */
  function Stamped(d: MessageDraft, id: nat, now: int): (m: Message)
    ensures m.createdAt == now && !m.isRead && m.readAt.None?
  {
    Message(id, d.bookingId, d.senderId, d.senderType, d.receiverId, d.content, d.messageType, now, false, None)
  }

  // ---------------------------------------------------------------------------------------------
  // Queries over the message collection.

  function InBooking(bookingId: string): Message -> bool {
    (m: Message) => m.bookingId == bookingId
  }

  function OldestFirst(): Message -> int {
    (m: Message) => m.createdAt
  }

  function NewestMessageFirst(): Message -> int {
    (m: Message) => -m.createdAt
  }

  /** The default page size of `get_messages_by_booking`. */
  const HISTORY_LIMIT: nat := 100

  /** `get_messages_by_booking`: the messages whose booking id is exactly that string, oldest
      first, after `skip`, at most `limit`. */
  function History(messages: seq<Message>, bookingId: string, skip: nat, limit: nat): seq<Message> {
    Page(SortBy(Filter(messages, InBooking(bookingId)), OldestFirst()), skip, limit)
  }

  /** The history holds messages of that booking only, in the order they were written, at most
      `limit` of them; from the start with room enough it holds every one of them. */
  lemma HistoryIsThreadInOrder(messages: seq<Message>, bookingId: string, skip: nat, limit: nat)
    ensures var h := History(messages, bookingId, skip, limit);
      && (forall i | 0 <= i < |h| :: h[i] in messages && h[i].bookingId == bookingId)
      && (forall i, j | 0 <= i < j < |h| :: h[i].createdAt <= h[j].createdAt)
      && (limit > 0 ==> |h| <= limit)
      && (skip == 0 && (limit == 0 || Count(messages, InBooking(bookingId)) <= limit) ==>
            multiset(h) == multiset(Filter(messages, InBooking(bookingId))))
  {
    var thread := Filter(messages, InBooking(bookingId));
    var sorted := SortBy(thread, OldestFirst());
    SortByIsSortedPermutation(thread, OldestFirst());
    SortByMembers(thread, OldestFirst());
    PageKeepsOrder(sorted, OldestFirst(), skip, limit);
    WholeThreadWhenRoom(messages, bookingId, skip, limit);
  }

  lemma WholeThreadWhenRoom(messages: seq<Message>, bookingId: string, skip: nat, limit: nat)
    ensures skip == 0 && (limit == 0 || Count(messages, InBooking(bookingId)) <= limit) ==>
      multiset(History(messages, bookingId, skip, limit)) == multiset(Filter(messages, InBooking(bookingId)))
  {
    var thread := Filter(messages, InBooking(bookingId));
    var sorted := SortBy(thread, OldestFirst());
    if skip == 0 && (limit == 0 || Count(messages, InBooking(bookingId)) <= limit) {
      SortByIsSortedPermutation(thread, OldestFirst());
      FilterLength(messages, InBooking(bookingId));
      assert sorted[0..] == sorted;
    }
  }

  function UnreadFor(bookingId: string, userId: string): Message -> bool {
    (m: Message) => m.bookingId == bookingId && m.receiverId == userId && !m.isRead
  }

  function UnreadTo(userId: string): Message -> bool {
    (m: Message) => m.receiverId == userId && !m.isRead
  }

  /** `get_unread_count`: the unread messages addressed to the user, over all bookings. */
  function UnreadCount(messages: seq<Message>, userId: string): nat {
    Count(messages, UnreadTo(userId))
  }

  /** The `$set` of `mark_messages_as_read` applied to one message. */
  function MarkOne(m: Message, bookingId: string, userId: string, now: int): Message {
    if UnreadFor(bookingId, userId)(m) then m.(isRead := true, readAt := Some(now)) else m
  }

  /** The collection after `mark_messages_as_read`. */
  function MarkedRead(messages: seq<Message>, bookingId: string, userId: string, now: int): (r: seq<Message>)
    ensures |r| == |messages|
  {
    seq(|messages|, i requires 0 <= i < |messages| => MarkOne(messages[i], bookingId, userId, now))
  }

  /** Marking reads exactly the unread messages of that booking addressed to the user, stamps
      them with `now`, and leaves every other message and every other field as it was. */
  lemma MarkedReadTouchesOnlyTargets(messages: seq<Message>, bookingId: string, userId: string, now: int)
    ensures var r := MarkedRead(messages, bookingId, userId, now);
      forall i | 0 <= i < |messages| ::
        && r[i].(isRead := messages[i].isRead, readAt := messages[i].readAt) == messages[i]
        && (r[i] != messages[i] <==> UnreadFor(bookingId, userId)(messages[i]))
        && (UnreadFor(bookingId, userId)(messages[i]) ==> r[i].isRead && r[i].readAt == Some(now))
  {
  }

  /** After marking, none of those messages is unread, so marking again reports 0. */
  lemma MarkingAgainFindsNothing(messages: seq<Message>, bookingId: string, userId: string, now: int)
    ensures Count(MarkedRead(messages, bookingId, userId, now), UnreadFor(bookingId, userId)) == 0
  {
    var r := MarkedRead(messages, bookingId, userId, now);
    FilterNone(r, UnreadFor(bookingId, userId));
    FilterLength(r, UnreadFor(bookingId, userId));
  }

  lemma MarkedReadPrefix(messages: seq<Message>, bookingId: string, userId: string, now: int)
    requires messages != []
    ensures var n := |messages| - 1;
      MarkedRead(messages, bookingId, userId, now)
        == MarkedRead(messages[..n], bookingId, userId, now) + [MarkOne(messages[n], bookingId, userId, now)]
  {
  }

  /** The user's unread count drops by exactly the number of messages marked, and nobody
      else's unread count changes. */
  lemma {:induction false} MarkingLowersUnread(messages: seq<Message>, bookingId: string, userId: string, other: string, now: int)
    requires other != userId
    ensures var r := MarkedRead(messages, bookingId, userId, now);
      && UnreadCount(r, userId) + Count(messages, UnreadFor(bookingId, userId)) == UnreadCount(messages, userId)
      && UnreadCount(r, other) == UnreadCount(messages, other)
    decreases |messages|
  {
    if messages != [] {
      var n := |messages| - 1;
      MarkingLowersUnread(messages[..n], bookingId, userId, other, now);
      MarkedReadPrefix(messages, bookingId, userId, now);
      var r := MarkedRead(messages, bookingId, userId, now);
      assert r[..n] == MarkedRead(messages[..n], bookingId, userId, now);
    }
  }

  // ---------------------------------------------------------------------------------------------
  // Conversation summaries.

  /** The other party as a conversation shows it; names default to "" and the picture to None. */
  datatype UserInfo = UserInfo(id: string, firstName: Value, lastName: Value, profilePicture: Value, userType: string)

  datatype Conversation = Conversation(bookingId: string, otherUser: UserInfo, lastMessage: LastMessage, unreadCount: nat)

  /** How many bookings `to_list(length=100)` reads. */
  const CONVERSATION_BOOKINGS: nat := 100

  const NO_MESSAGE_YET := "Aucun message \U{00E9}chang\U{00E9}"

  /** The booking query: by client id for a client, by artisan id for anyone else. */
  function OwnedBy(userId: string, userType: string): Booking -> bool {
    (b: Booking) => if userType == CLIENT then b.clientId == userId else b.artisanId == userId
  }

  /** The bookings whose conversations are summarised. */
  function ConversationBookings(bookings: seq<Booking>, userId: string, userType: string): seq<Booking> {
    Page(Filter(bookings, OwnedBy(userId, userType)), 0, CONVERSATION_BOOKINGS)
  }

  /** The other party: the client for an artisan, the artisan for anyone else. */
  function OtherUserId(b: Booking, userType: string): string {
    if userType == ARTISAN then b.clientId else b.artisanId
  }

  function OtherUserType(userType: string): string {
    if userType == ARTISAN then CLIENT else ARTISAN
  }

  /** `find_one` sorted by `created_at` descending: the newest message of the booking. */
  function LatestMessage(messages: seq<Message>, bookingId: string): Option<Message> {
    var thread := SortBy(Filter(messages, InBooking(bookingId)), NewestMessageFirst());
    if thread == [] then None else Some(thread[0])
  }

  /** The summary of one booking whose other party was found. */
  function Summary(b: Booking, other: User, messages: seq<Message>, userId: string, userType: string): Conversation {
    var info := UserInfo(OtherUserId(b, userType), Get(other.doc, "first_name").GetOr(Str("")),
                         Get(other.doc, "last_name").GetOr(Str("")), Get(other.doc, "profile_picture").GetOr(Null),
                         OtherUserType(userType));
    var latest := LatestMessage(messages, b.id);
    if latest.Some? then
      Conversation(b.id, info,
                   LastMessage(latest.value.content, latest.value.createdAt, latest.value.isRead, Some(latest.value.senderId)),
                   Count(messages, UnreadFor(b.id, userId)))
    else
      Conversation(b.id, info, LastMessage(Str(NO_MESSAGE_YET), b.createdAt, true, None), 0)
  }

  /** The summaries of the listed bookings in their order, skipping those whose other party is
      not found. */
  function Entries(listed: seq<Booking>, users: seq<User>, messages: seq<Message>, userId: string, userType: string): (r: seq<Conversation>)
    ensures |r| <= |listed|
    decreases |listed|
  {
    if listed == [] then []
    else
      var b := listed[|listed| - 1];
      var other := FindUserById(users, OtherUserId(b, userType));
      var init := Entries(listed[..|listed| - 1], users, messages, userId, userType);
      if other.Some? then init + [Summary(b, other.value, messages, userId, userType)] else init
  }

  /** One more listed booking adds its summary when its other party is found. */
  lemma EntriesStep(listed: seq<Booking>, users: seq<User>, messages: seq<Message>, userId: string, userType: string, i: nat)
    requires i < |listed|
    ensures var other := FindUserById(users, OtherUserId(listed[i], userType));
      Entries(listed[..i + 1], users, messages, userId, userType)
        == Entries(listed[..i], users, messages, userId, userType)
           + (if other.Some? then [Summary(listed[i], other.value, messages, userId, userType)] else [])
  {
    assert listed[..i + 1][..i] == listed[..i];
  }

  /** Every summary is the summary of a listed booking whose other party was found. */
  lemma {:induction false} EntriesFromListed(listed: seq<Booking>, users: seq<User>, messages: seq<Message>, userId: string, userType: string)
    ensures forall c | c in Entries(listed, users, messages, userId, userType) :: exists b | b in listed ::
      && FindUserById(users, OtherUserId(b, userType)).Some?
      && c == Summary(b, FindUserById(users, OtherUserId(b, userType)).value, messages, userId, userType)
    decreases |listed|
  {
    if listed != [] {
      var init := listed[..|listed| - 1];
      EntriesFromListed(init, users, messages, userId, userType);
      assert forall x | x in init :: x in listed;
    }
  }

  /** Whether the other party of a booking is found among the accounts. */
  function PartyFound(users: seq<User>, userType: string): Booking -> bool {
    (b: Booking) => FindUserById(users, OtherUserId(b, userType)).Some?
  }

  /** The summaries are those of exactly the listed bookings whose other party is found, one
      each, in booking order. */
  lemma {:induction false} EntriesSummariseFound(listed: seq<Booking>, users: seq<User>, messages: seq<Message>, userId: string, userType: string)
    ensures var f := Filter(listed, PartyFound(users, userType));
      var e := Entries(listed, users, messages, userId, userType);
      && |e| == |f|
      && forall i | 0 <= i < |e| ::
           e[i] == Summary(f[i], FindUserById(users, OtherUserId(f[i], userType)).value, messages, userId, userType)
    decreases |listed|
  {
    if listed == [] {
      FilterNone(listed, PartyFound(users, userType));
    } else {
      var init, b := listed[..|listed| - 1], listed[|listed| - 1];
      EntriesSummariseFound(init, users, messages, userId, userType);
      SplitLast(listed);
      FilterSnoc(init, b, PartyFound(users, userType));
    }
  }

  /** Every listed booking whose other party is found has its summary among the entries. */
  lemma EntriesComplete(listed: seq<Booking>, users: seq<User>, messages: seq<Message>, userId: string, userType: string, k: nat)
    requires k < |listed| && FindUserById(users, OtherUserId(listed[k], userType)).Some?
    ensures Summary(listed[k], FindUserById(users, OtherUserId(listed[k], userType)).value, messages, userId, userType)
            in Entries(listed, users, messages, userId, userType)
  {
    var f := Filter(listed, PartyFound(users, userType));
    EntriesSummariseFound(listed, users, messages, userId, userType);
    assert PartyFound(users, userType)(listed[k]);
    assert listed[k] in f;
    var j :| 0 <= j < |f| && f[j] == listed[k];
    assert Entries(listed, users, messages, userId, userType)[j]
        == Summary(listed[k], FindUserById(users, OtherUserId(listed[k], userType)).value, messages, userId, userType);
  }

  function ConversationNewestFirst(): Conversation -> int {
    (c: Conversation) => -c.lastMessage.createdAt
  }

  /** `get_conversations_for_user`: the summaries, newest last message first. An other-party
      id that is not an object id makes `ObjectId` raise and the whole answer is empty. */
  function Conversations(bookings: seq<Booking>, users: seq<User>, messages: seq<Message>, userId: string, userType: string): seq<Conversation> {
    var listed := ConversationBookings(bookings, userId, userType);
    if exists i | 0 <= i < |listed| :: !IsObjectId(OtherUserId(listed[i], userType)) then []
    else SortBy(Entries(listed, users, messages, userId, userType), ConversationNewestFirst())
  }

  /** The conversations come newest first; each summarises one of the user's first 100
      bookings and names that booking's other party, who exists. */
  lemma ConversationsAreOwnBookings(bookings: seq<Booking>, users: seq<User>, messages: seq<Message>, userId: string, userType: string)
    ensures var r := Conversations(bookings, users, messages, userId, userType);
      && |r| <= CONVERSATION_BOOKINGS
      && (forall i, j | 0 <= i < j < |r| :: r[i].lastMessage.createdAt >= r[j].lastMessage.createdAt)
      && (forall c | c in r :: exists b | b in bookings ::
            && OwnedBy(userId, userType)(b)
            && c.bookingId == b.id
            && c.otherUser.id == OtherUserId(b, userType)
            && c.otherUser.userType == OtherUserType(userType)
            && FindUserById(users, c.otherUser.id).Some?)
  {
    var listed := ConversationBookings(bookings, userId, userType);
    if !exists i | 0 <= i < |listed| :: !IsObjectId(OtherUserId(listed[i], userType)) {
      var e := Entries(listed, users, messages, userId, userType);
      var r := SortBy(e, ConversationNewestFirst());
      assert forall b | b in listed :: b in Filter(bookings, OwnedBy(userId, userType));
      EntriesNameOwnBookings(listed, bookings, users, messages, userId, userType);
      SortedNewestFirst(e);
      assert forall c | c in r :: c in e;
    }
  }

  /** Each summary of bookings owned by the user names one of them and its existing other party. */
  lemma EntriesNameOwnBookings(listed: seq<Booking>, bookings: seq<Booking>, users: seq<User>, messages: seq<Message>, userId: string, userType: string)
    requires forall b | b in listed :: b in bookings && OwnedBy(userId, userType)(b)
    ensures forall c | c in Entries(listed, users, messages, userId, userType) :: exists b | b in bookings ::
      && OwnedBy(userId, userType)(b)
      && c.bookingId == b.id
      && c.otherUser.id == OtherUserId(b, userType)
      && c.otherUser.userType == OtherUserType(userType)
      && FindUserById(users, c.otherUser.id).Some?
  {
    EntriesFromListed(listed, users, messages, userId, userType);
    forall c | c in Entries(listed, users, messages, userId, userType)
      ensures exists b | b in bookings ::
        && OwnedBy(userId, userType)(b)
        && c.bookingId == b.id
        && c.otherUser.id == OtherUserId(b, userType)
        && c.otherUser.userType == OtherUserType(userType)
        && FindUserById(users, c.otherUser.id).Some?
    {
      var b :| b in listed && FindUserById(users, OtherUserId(b, userType)).Some?
              && c == Summary(b, FindUserById(users, OtherUserId(b, userType)).value, messages, userId, userType);
      assert b in bookings;
    }
  }

  /** Sorting summaries newest first keeps exactly their members, in descending date order. */
  lemma SortedNewestFirst(e: seq<Conversation>)
    ensures var r := SortBy(e, ConversationNewestFirst());
      && |r| == |e|
      && (forall i, j | 0 <= i < j < |r| :: r[i].lastMessage.createdAt >= r[j].lastMessage.createdAt)
      && (forall c | c in r :: c in e)
  {
    var r := SortBy(e, ConversationNewestFirst());
    SortByIsSortedPermutation(e, ConversationNewestFirst());
    SortByMembers(e, ConversationNewestFirst());
    assert |r| == |multiset(r)|;
    assert forall i, j | 0 <= i < j < |r| :: -r[i].lastMessage.createdAt <= -r[j].lastMessage.createdAt;
  }

  /** A booking without messages is summarised by the placeholder, dated at the booking's
      creation, read, from nobody, with nothing unread; otherwise by its newest message, with
      the number of its messages still unread by the user. */
  lemma SummaryShowsLatestMessage(b: Booking, other: User, messages: seq<Message>, userId: string, userType: string)
    ensures var c := Summary(b, other, messages, userId, userType);
      var thread := Filter(messages, InBooking(b.id));
      && (thread == [] ==> c.lastMessage == LastMessage(Str(NO_MESSAGE_YET), b.createdAt, true, None) && c.unreadCount == 0)
      && (thread != [] ==> exists m | m in thread ::
            && c.lastMessage == LastMessage(m.content, m.createdAt, m.isRead, Some(m.senderId))
            && (forall i | 0 <= i < |thread| :: thread[i].createdAt <= m.createdAt)
            && c.unreadCount == Count(messages, UnreadFor(b.id, userId))
            && c.unreadCount <= |thread|)
  {
    var thread := Filter(messages, InBooking(b.id));
    var sorted := SortBy(thread, NewestMessageFirst());
    if thread != [] {
      SortByHead(thread, NewestMessageFirst());
      var m := sorted[0];
      assert forall i | 0 <= i < |thread| :: thread[i].createdAt <= m.createdAt;
      UnreadWithinThread(messages, b.id, userId);
      FilterLength(messages, InBooking(b.id));
    } else {
      assert sorted == [] by { SortByIsSortedPermutation(thread, NewestMessageFirst()); }
    }
  }

  lemma {:induction false} UnreadWithinThread(messages: seq<Message>, bookingId: string, userId: string)
    ensures Count(messages, UnreadFor(bookingId, userId)) <= Count(messages, InBooking(bookingId))
    decreases |messages|
  {
    if messages != [] {
      UnreadWithinThread(messages[..|messages| - 1], bookingId, userId);
    }
  }

  /** When every other-party id is well formed, each of the user's listed bookings whose other
      party is found appears in the answer with its summary. */
  lemma ConversationsComplete(bookings: seq<Booking>, users: seq<User>, messages: seq<Message>, userId: string, userType: string, k: nat)
    requires var listed := ConversationBookings(bookings, userId, userType);
      && (forall i | 0 <= i < |listed| :: IsObjectId(OtherUserId(listed[i], userType)))
      && k < |listed| && FindUserById(users, OtherUserId(listed[k], userType)).Some?
    ensures var b := ConversationBookings(bookings, userId, userType)[k];
      Summary(b, FindUserById(users, OtherUserId(b, userType)).value, messages, userId, userType)
        in Conversations(bookings, users, messages, userId, userType)
  {
    var listed := ConversationBookings(bookings, userId, userType);
    var e := Entries(listed, users, messages, userId, userType);
    EntriesComplete(listed, users, messages, userId, userType, k);
    SortByIsSortedPermutation(e, ConversationNewestFirst());
    var c := Summary(listed[k], FindUserById(users, OtherUserId(listed[k], userType)).value, messages, userId, userType);
    assert c in multiset(SortBy(e, ConversationNewestFirst()));
  }

  /** The conversation listing does not check the caller's role: for a caller who is neither a
      client nor an artisan, the bookings are looked up by artisan id and the "other" party is
      that same artisan id, the caller. */
  lemma OtherRolesSeeThemselves(bookings: seq<Booking>, users: seq<User>, messages: seq<Message>, userId: string, userType: string)
    requires userType != CLIENT && userType != ARTISAN
    ensures forall c | c in Conversations(bookings, users, messages, userId, userType) :: c.otherUser.id == userId
  {
    ConversationsAreOwnBookings(bookings, users, messages, userId, userType);
  }

  /** One other-party id that is not an object id empties the listing. */
  lemma InvalidOtherIdEmptiesListing(bookings: seq<Booking>, users: seq<User>, messages: seq<Message>, userId: string, userType: string, b: Booking)
    requires b in ConversationBookings(bookings, userId, userType)
    requires !IsObjectId(OtherUserId(b, userType))
    ensures Conversations(bookings, users, messages, userId, userType) == []
  {
    var listed := ConversationBookings(bookings, userId, userType);
    var i :| 0 <= i < |listed| && listed[i] == b;
  }

  /** With every other-party id well formed, the listing is the sorted summaries. */
  lemma ValidOtherIdsListEntries(bookings: seq<Booking>, users: seq<User>, messages: seq<Message>, userId: string, userType: string)
    requires var listed := ConversationBookings(bookings, userId, userType);
      forall k | 0 <= k < |listed| :: IsObjectId(OtherUserId(listed[k], userType))
    ensures Conversations(bookings, users, messages, userId, userType)
         == SortBy(Entries(ConversationBookings(bookings, userId, userType), users, messages, userId, userType), ConversationNewestFirst())
  {
  }

  // ---------------------------------------------------------------------------------------------
  // The collection.

  class MessageStore {
    var messages: seq<Message>
    /** The id the next inserted message receives. */
    var nextId: nat

    predicate Valid()
      reads this
    {
      forall i | 0 <= i < |messages| :: messages[i].id < nextId
    }

    constructor()
      ensures messages == [] && nextId == 0 && Valid()
    {
      messages := [];
      nextId := 0;
    }

    /** `create_message`: stores the draft, stamped and unread, under a new id when the booking
        exists and its parties match; otherwise raises (None) and stores nothing. */
    method CreateMessage(bookings: seq<Booking>, d: MessageDraft, now: int) returns (r: Option<Message>)
      requires Valid()
      modifies this
      ensures Valid()
      ensures r.Some? <==> Accepts(bookings, d)
      ensures r.Some? ==> r.value == Stamped(d, old(nextId), now) && messages == old(messages) + [r.value] && nextId == old(nextId) + 1
      ensures r.Some? ==> forall i | 0 <= i < |old(messages)| :: old(messages)[i].id != r.value.id
      ensures r.None? ==> messages == old(messages) && nextId == old(nextId)
    {
      var b := FindBookingById(bookings, d.bookingId);
      if b.None? || !PairedWith(b.value, d) {
        return None;
      }
      var m := Stamped(d, nextId, now);
      messages := messages + [m];
      nextId := nextId + 1;
      r := Some(m);
    }

    /** `mark_messages_as_read`: `update_many` over the unread messages of the booking addressed
        to the user; answers how many it modified. */
    method MarkMessagesAsRead(bookingId: string, userId: string, now: int) returns (count: nat)
      requires Valid()
      modifies this
      ensures Valid()
      ensures messages == MarkedRead(old(messages), bookingId, userId, now)
      ensures count == Count(old(messages), UnreadFor(bookingId, userId))
      ensures nextId == old(nextId)
    {
      ghost var before := messages;
      count := 0;
      var i := 0;
      while i < |messages|
        invariant 0 <= i <= |messages| == |before|
        invariant forall k | 0 <= k < i :: messages[k] == MarkOne(before[k], bookingId, userId, now)
        invariant forall k | i <= k < |messages| :: messages[k] == before[k]
        invariant count == Count(before[..i], UnreadFor(bookingId, userId))
        invariant nextId == old(nextId)
      {
        assert before[..i + 1][..i] == before[..i];
        var m := messages[i];
        if m.bookingId == bookingId && m.receiverId == userId && !m.isRead {
          messages := messages[i := m.(isRead := true, readAt := Some(now))];
          count := count + 1;
        }
        i := i + 1;
      }
      assert before[..i] == before;
    }

    /** `get_conversations_for_user`: walks the user's first 100 bookings, summarises those whose
        other party exists, then sorts by the last message, newest first. */
    method GetConversationsForUser(bookings: seq<Booking>, users: seq<User>, userId: string, userType: string)
      returns (r: seq<Conversation>)
      ensures r == Conversations(bookings, users, messages, userId, userType)
    {
      var listed := ConversationBookings(bookings, userId, userType);
      var ok, acc := SummariseListed(listed, users, userId, userType);
      if !ok {
        return [];
      }
      ValidOtherIdsListEntries(bookings, users, messages, userId, userType);
      r := SortBy(acc, ConversationNewestFirst());
    }

    /** The loop of `get_conversations_for_user` over the listed bookings: `ok` is false as soon
        as an other-party id is not an object id, and otherwise `acc` holds the summaries. */
    method SummariseListed(listed: seq<Booking>, users: seq<User>, userId: string, userType: string)
      returns (ok: bool, acc: seq<Conversation>)
      ensures ok <==> forall k | 0 <= k < |listed| :: IsObjectId(OtherUserId(listed[k], userType))
      ensures ok ==> acc == Entries(listed, users, messages, userId, userType)
    {
      acc := [];
      var i := 0;
      while i < |listed|
        invariant 0 <= i <= |listed|
        invariant forall k | 0 <= k < i :: IsObjectId(OtherUserId(listed[k], userType))
        invariant acc == Entries(listed[..i], users, messages, userId, userType)
      {
        var b := listed[i];
        var otherId := OtherUserId(b, userType);
        if !IsObjectId(otherId) {
          return false, [];
        }
        EntriesStep(listed, users, messages, userId, userType, i);
        var other := FindUserById(users, otherId);
        if other.Some? {
          acc := acc + [Summary(b, other.value, messages, userId, userType)];
        }
        i := i + 1;
      }
      assert listed[..i] == listed;
      ok := true;
    }
  }
}
