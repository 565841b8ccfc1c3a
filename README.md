# HrayfiConnect artisan platform — a Dafny model of its core

HrayfiConnect is a marketplace backend (FastAPI over MongoDB). Clients book artisans, both sides chat about a booking in real time, clients review completed work, and everyone can open support tickets. This project models the parts of the backend that hold logic, and proves what they guarantee:

- **Chat.** This is the centre of the model.
  - The websocket connection manager (`ChatRooms`) is a class. It holds the live connections and the booking rooms, and its methods update them in place. Broadcast and disconnect are loops with invariants.
  - The frame handlers of the socket (`ChatSocket`) are steps over that state and the message store. Lemmas prove that every step, and any sequence of steps, keeps only a booking's participants in its room, and that no step makes a read message unread.
  - The message store (`ChatModels`) covers creation with the sender and receiver pairing, history, bulk mark-read and the conversation summaries.
  - The REST mirror (`ChatRest`) holds the guard chains, the statistics loop and the socket close codes.
- **Bookings, tickets, reviews and accounts.** Each has a schema module for the pydantic validators, a model module for the manager class, and an endpoint module for the route guard chains.
  - The managers are classes over a sequence of records. Each method is specified by the state function it must produce, and the lemmas about those functions state what the source promises.
  - Endpoints are functions that answer an outcome (a value, or an HTTP status) together with the store after the request.
- **The password-reset table** (`UserModels.PasswordResetManager`). It is a class whose invariant keeps one code per email and fresh, distinct ids. Lemmas prove that creation replaces old codes, that verification accepts only live unused codes and deletes an expired match, that a used code never verifies again, and that cleanup deletes exactly the expired codes.
- **Uploads** (`UploadEndpoints`). These are methods over the account store:
  - the profile picture;
  - the per-key identity-document update;
  - portfolio append, delete by index, and a batch upload loop that skips oversized files.

## Modelling conventions

- **Records.** Stored accounts are documents: string keys mapped to `Value`, a small model of JSON values. Update routes write arbitrary keys into them. Bookings, tickets, reviews and chat messages are typed records, as their schemas are fixed.
- **Ids.** A string is an object id exactly when it is 24 hexadecimal digits. Two spellings that differ only in letter case name the same object (`Common.CanonicalId`). A malformed id makes the driver raise, and the model follows where that raise goes: it becomes None inside a manager that catches it, and 500 in a route that does not.
- **Roles.** The `user_type` field is a string; a missing one reads as the empty string.
- **Outside inputs.** The clock (`now`, and a formatted `today` or `stamp` where the source formats it), fresh ids, the remote upload service, password hashing, the database's case-insensitive regex match and the floating-point average are parameters of the operations that use them.
- **Sockets.** Sockets are abstract handles. A delivery fails exactly when the socket is in a `dead` set that the caller supplies.
- **Imports.** Every module imports `Common`, which holds the option and outcome types, HTTP codes, Python truthiness, whitespace stripping, decimal numerals, and filtering, paging and sorting over sequences.

All paths below are relative to the repository root.

## Model

| member | source | states |
|---|---|---|
| ChatSchemas.ParseMessageType | backend/HrayfiConnect_Mobile/artisan-platform/app/schemas/chat_schemas.py:6-17 | an absent `message_type` is text; a sent one is accepted exactly when it names one of the three kinds, and the kind read back has that name |
| ChatSchemas.ValidateMessage | backend/HrayfiConnect_Mobile/artisan-platform/app/schemas/chat_schemas.py:19-30 | the body is accepted exactly when the content has a non-space character, the sender type is client or artisan and the kind is known; a refusal is 422; an accepted body keeps every field as sent |
| ChatModels.Stamped | backend/HrayfiConnect_Mobile/artisan-platform/app/models/chat_models.py:30-34 | a new message carries the creation time, is unread and has no read time |
| ChatModels.MessageStore.constructor | backend/HrayfiConnect_Mobile/artisan-platform/app/models/chat_models.py:6-9 | the store starts empty |
| ChatModels.MessageStore.CreateMessage | backend/HrayfiConnect_Mobile/artisan-platform/app/models/chat_models.py:11-41 | a message is stored exactly when its booking exists and sender and receiver are that booking's two parties in the order the sender type says; it is appended with a fresh id, different from every stored one; a refusal changes nothing |
| ChatModels.HistoryIsThreadInOrder | backend/HrayfiConnect_Mobile/artisan-platform/app/models/chat_models.py:43-52 | every message of a history page belongs to the booking, the page is in creation order, it holds at most `limit` messages, and without skip and with a large enough limit it is the whole thread |
| ChatModels.WholeThreadWhenRoom | backend/HrayfiConnect_Mobile/artisan-platform/app/models/chat_models.py:43-52 | with no skip and room under the limit, the history holds exactly the booking's messages |
| ChatModels.MarkedRead | backend/HrayfiConnect_Mobile/artisan-platform/app/models/chat_models.py:153-160 | marking keeps the number of messages |
| ChatModels.MarkedReadTouchesOnlyTargets | backend/HrayfiConnect_Mobile/artisan-platform/app/models/chat_models.py:153-160 | exactly the unread messages of the booking addressed to the user change, and only in `is_read` (now true) and `read_at` (now the given time) |
| ChatModels.MarkingAgainFindsNothing | backend/HrayfiConnect_Mobile/artisan-platform/app/models/chat_models.py:150-163 | after marking, no message of that booking is unread for that user: marking twice marks nothing the second time |
| ChatModels.MarkingLowersUnread | backend/HrayfiConnect_Mobile/artisan-platform/app/models/chat_models.py:150-179 | marking lowers the user's unread count by exactly the number of messages marked and leaves every other user's unread count as it was |
| ChatModels.MessageStore.MarkMessagesAsRead | backend/HrayfiConnect_Mobile/artisan-platform/app/models/chat_models.py:150-167 | the stored messages become the marked ones and the answer is the number of messages that matched the filter |
| ChatModels.Entries | backend/HrayfiConnect_Mobile/artisan-platform/app/models/chat_models.py:71-136 | there is at most one conversation per booking fetched |
| ChatModels.EntriesSummariseFound | backend/HrayfiConnect_Mobile/artisan-platform/app/models/chat_models.py:71-136 | the conversations are exactly the summaries of the fetched bookings whose other party is found, one each, in the order fetched |
| ChatModels.EntriesComplete | backend/HrayfiConnect_Mobile/artisan-platform/app/models/chat_models.py:71-136 | every fetched booking whose other party is found has its summary among the conversations |
| ChatModels.ConversationsComplete | backend/HrayfiConnect_Mobile/artisan-platform/app/models/chat_models.py:71-136 | when every other-party id is an ObjectId, each of the user's bookings whose other party is found appears in the sorted conversation list with its summary |
| ChatModels.EntriesFromListed | backend/HrayfiConnect_Mobile/artisan-platform/app/models/chat_models.py:73-136 | every conversation is the summary of a fetched booking whose other party exists |
| ChatModels.ConversationsAreOwnBookings | backend/HrayfiConnect_Mobile/artisan-platform/app/models/chat_models.py:57-142 | at most 100 conversations, newest last message first; each is about one of the user's own bookings and names the other party of that booking with the other role |
| ChatModels.SummaryShowsLatestMessage | backend/HrayfiConnect_Mobile/artisan-platform/app/models/chat_models.py:76-131 | a booking without messages shows the placeholder at the booking's creation time with no unread message; otherwise the last message is one of the thread with no later one, and the unread count is the user's unread messages in it, at most the thread's length |
| ChatModels.UnreadWithinThread | backend/HrayfiConnect_Mobile/artisan-platform/app/models/chat_models.py:107-111 | the unread count of a booking never exceeds its number of messages |
| ChatModels.OtherRolesSeeThemselves | backend/HrayfiConnect_Mobile/artisan-platform/app/models/chat_models.py:63-66 | for a user who is neither client nor artisan, the bookings are the ones naming them as artisan, so the "other user" of every conversation is themselves |
| ChatModels.InvalidOtherIdEmptiesListing | backend/HrayfiConnect_Mobile/artisan-platform/app/models/chat_models.py:86 | one booking whose other party id is not an ObjectId makes the whole listing empty (the raise is caught at lines 144-148) |
| ChatModels.MessageStore.GetConversationsForUser | backend/HrayfiConnect_Mobile/artisan-platform/app/models/chat_models.py:57-148 | the answer is the conversation listing of the stored messages |
| ChatModels.MessageStore.SummariseListed | backend/HrayfiConnect_Mobile/artisan-platform/app/models/chat_models.py:72-137 | the loop stops exactly when some listed booking has an other-party id that is not an ObjectId, and otherwise collects the summary of every booking whose other party is found, in booking order |
| ChatRooms.InRoomIsMember | backend/HrayfiConnect_Mobile/artisan-platform/app/api/v1/websockets/chat.py:16-17 | in a well-formed room table, being in a room is being in its member list, and a member list has no repeats |
| ChatRooms.InRoomConcat | backend/HrayfiConnect_Mobile/artisan-platform/app/api/v1/websockets/chat.py:16-17 | membership in two concatenated room tables is membership in either |
| ChatRooms.RemoveFirstSpec | backend/HrayfiConnect_Mobile/artisan-platform/app/api/v1/websockets/chat.py:33 | `list.remove`: an absent user leaves the list as it was; otherwise the list is one shorter, keeps every other member, and a list without repeats loses the user entirely |
| ChatRooms.RemoveFirstOfAppended | backend/HrayfiConnect_Mobile/artisan-platform/app/api/v1/websockets/chat.py:39-54 | removing the member just appended gives back the list before the append |
| ChatRooms.JoinedSpec | backend/HrayfiConnect_Mobile/artisan-platform/app/api/v1/websockets/chat.py:39-45 | joining keeps the table well formed, puts the user in the room (at the end, if new), changes no other membership and is idempotent |
| ChatRooms.LeftSpec | backend/HrayfiConnect_Mobile/artisan-platform/app/api/v1/websockets/chat.py:49-54 | leaving keeps the table well formed, takes the user out of the room and changes no other membership |
| ChatRooms.JoinThenLeave | backend/HrayfiConnect_Mobile/artisan-platform/app/api/v1/websockets/chat.py:39-54 | joining a room one was not in and leaving it again restores the table, emptied rooms being deleted |
| ChatRooms.Purged | backend/HrayfiConnect_Mobile/artisan-platform/app/api/v1/websockets/chat.py:25-37 | the intended disconnect: cleaning the rooms never adds a room |
| ChatRooms.PurgedSpec | backend/HrayfiConnect_Mobile/artisan-platform/app/api/v1/websockets/chat.py:30-35 | the intended cleanup on disconnect: the table stays well formed, only existing rooms remain, the user is in no room and every other membership is kept |
| ChatRooms.PartialCleanup | backend/HrayfiConnect_Mobile/artisan-platform/app/api/v1/websockets/chat.py:31-35 | as written: when no room is emptied the loop runs to its end and removes the user from every room |
| ChatRooms.DisconnectLeavesUserBehind | backend/HrayfiConnect_Mobile/artisan-platform/app/api/v1/websockets/chat.py:31-35 | as written: with the user alone in two rooms, deleting the first during the iteration stops the loop and the user stays in the second; the intended cleanup leaves no room |
| ChatRooms.RecipientsAndDropped | backend/HrayfiConnect_Mobile/artisan-platform/app/api/v1/websockets/chat.py:68-74 | every user a broadcast reaches, and every user it drops, is a connected member other than the excluded one; the reached have live sockets, the dropped dead ones |
| ChatRooms.RecipientsExactly | backend/HrayfiConnect_Mobile/artisan-platform/app/api/v1/websockets/chat.py:68-74 | among distinct members, a user is reached exactly when they are a member other than the excluded one with a connection whose socket is live, and nobody is reached twice |
| ChatRooms.BroadcastReachesEachOnce | backend/HrayfiConnect_Mobile/artisan-platform/app/api/v1/websockets/chat.py:65-77 | each new frame of a broadcast goes to a member of that room other than the excluded user, on their live socket as it was when the broadcast began; no user gets two; every such member gets one |
| ChatRooms.WithoutAllSpec | backend/HrayfiConnect_Mobile/artisan-platform/app/api/v1/websockets/chat.py:27-28 | after dropping a list of users, a user is connected exactly when they were and are not in the list, on the same socket |
| ChatRooms.VisitAllSpec | backend/HrayfiConnect_Mobile/artisan-platform/app/api/v1/websockets/chat.py:68-74 | visiting the members of a snapshot delivers to the reached users in order, disconnects exactly the dropped ones and purges them from every room |
| ChatRooms.BroadcastSpec | backend/HrayfiConnect_Mobile/artisan-platform/app/api/v1/websockets/chat.py:65-74 | the intended broadcast: deliveries to the reachable members of the room in order, the failed members disconnected and purged, the table kept well formed |
| ChatRooms.BroadcastOnlyToOthersInRoom | backend/HrayfiConnect_Mobile/artisan-platform/app/api/v1/websockets/chat.py:65-74 | a broadcast only appends to the outbox, only to room members other than the excluded user, with the frame sent; it never adds a membership or a connection |
| ChatRooms.DeliverOnlyRemoves | backend/HrayfiConnect_Mobile/artisan-platform/app/api/v1/websockets/chat.py:56-63 | a personal message never adds a membership or a connection |
| ChatRooms.PurgedAllSpec | backend/HrayfiConnect_Mobile/artisan-platform/app/api/v1/websockets/chat.py:25-35 | disconnecting a list of users leaves none of them in any room and keeps every other membership |
| ChatRooms.SameBookingsSameMembers | backend/HrayfiConnect_Mobile/artisan-platform/app/api/v1/websockets/chat.py:31-33 | removing a user from every room's list removes them from the member list of each booking |
| ChatRooms.BroadcastAsWritten | backend/HrayfiConnect_Mobile/artisan-platform/app/api/v1/websockets/chat.py:65-77 | as written: the excluded user never receives the frame, and every receiver has a live socket |
| ChatRooms.BroadcastSkipsNextMember | backend/HrayfiConnect_Mobile/artisan-platform/app/api/v1/websockets/chat.py:68-74 | as written: in room [a, f, c] with f's socket dead and a excluded, removing f from the live list makes the loop skip c, which then receives nothing; the intended broadcast reaches c |
| ChatRooms.ConnectionManager.constructor | backend/HrayfiConnect_Mobile/artisan-platform/app/api/v1/websockets/chat.py:13-17 | no connection, no room, nothing sent |
| ChatRooms.ConnectionManager.Connect | backend/HrayfiConnect_Mobile/artisan-platform/app/api/v1/websockets/chat.py:19-23 | the user's socket is recorded, replacing an older one; rooms unchanged |
| ChatRooms.ConnectionManager.Disconnect | backend/HrayfiConnect_Mobile/artisan-platform/app/api/v1/websockets/chat.py:25-37 | the connection is dropped and the user purged from every room (the corrected cleanup) |
| ChatRooms.ConnectionManager.JoinBookingRoom | backend/HrayfiConnect_Mobile/artisan-platform/app/api/v1/websockets/chat.py:39-47 | the room table becomes the joined one; connections unchanged |
| ChatRooms.ConnectionManager.LeaveBookingRoom | backend/HrayfiConnect_Mobile/artisan-platform/app/api/v1/websockets/chat.py:49-54 | the room table becomes the left one; connections unchanged |
| ChatRooms.ConnectionManager.SendPersonalMessage | backend/HrayfiConnect_Mobile/artisan-platform/app/api/v1/websockets/chat.py:56-63 | nothing for an unconnected user; one delivery on a live socket; a dead socket disconnects the user |
| ChatRooms.ConnectionManager.BroadcastToBooking | backend/HrayfiConnect_Mobile/artisan-platform/app/api/v1/websockets/chat.py:65-74 | the new state is the corrected broadcast over a snapshot of the room |
| ChatSocket.SocketDraftAcceptedIffParticipant | backend/HrayfiConnect_Mobile/artisan-platform/app/api/v1/websockets/chat.py:189-210 | a message sent on the socket for an existing booking is stored exactly when the sender is one of the booking's parties: the receiver and role are derived from the sender's position, so only an outsider is refused |
| ChatSocket.JoinRoom | backend/HrayfiConnect_Mobile/artisan-platform/app/api/v1/websockets/chat.py:115-165 | joining never changes the stored messages; a user who may not join changes nothing |
| ChatSocket.SendMessage | backend/HrayfiConnect_Mobile/artisan-platform/app/api/v1/websockets/chat.py:167-235 | the stored messages only grow, by at most one message at the end, and the id counter follows; without truthy content nothing changes |
| ChatSocket.MarkRead | backend/HrayfiConnect_Mobile/artisan-platform/app/api/v1/websockets/chat.py:237-265 | marking read keeps the number of stored messages and the id counter |
| ChatSocket.Step | backend/HrayfiConnect_Mobile/artisan-platform/app/api/v1/websockets/chat.py:95-113 | a frame that is not a JSON object changes nothing; one frame adds at most one message |
| ChatSocket.JoinRoomSpec | backend/HrayfiConnect_Mobile/artisan-platform/app/api/v1/websockets/chat.py:115-165 | a join for a missing booking, an unknown user or a non-party changes nothing; otherwise the user is in the room and, when connected on a live socket, receives the history of the first 100 messages; no other membership changes |
| ChatSocket.SendMessageSpec | backend/HrayfiConnect_Mobile/artisan-platform/app/api/v1/websockets/chat.py:167-235 | exactly one message is stored when the content is truthy, the user exists and is a party of the booking; otherwise nothing changes; the message goes from the user to the other party with the role of the user's position, unread, stamped now, and is broadcast only to other members of the room |
| ChatSocket.NothingUnreadNothingMarked | backend/HrayfiConnect_Mobile/artisan-platform/app/api/v1/websockets/chat.py:248-250 | with nothing unread, marking changes no message |
| ChatSocket.MarkReadSpec | backend/HrayfiConnect_Mobile/artisan-platform/app/api/v1/websockets/chat.py:237-265 | marking leaves nothing unread for the user in that booking, lowers the user's unread count by the number marked, leaves everyone else's count, changes nothing when nothing was unread, and notifies only other room members with that count |
| ChatSocket.StepNeverUnreads | backend/HrayfiConnect_Mobile/artisan-platform/app/api/v1/websockets/chat.py:95-113 | a frame adds at most one message, never alters a stored message's id, content or parties, never makes a read message unread, and a new message is unread |
| ChatSocket.StepKeepsRoomsAuthorised | backend/HrayfiConnect_Mobile/artisan-platform/app/api/v1/websockets/chat.py:95-113 | after any frame every room member is still a party of that room's booking and an existing user |
| ChatSocket.StepDeliversOnlyToParticipants | backend/HrayfiConnect_Mobile/artisan-platform/app/api/v1/websockets/chat.py:95-113 | a frame only appends to the outbox, and whatever it sends goes to users who may join the frame's booking |
| ChatSocket.SessionKeepsRoomsAuthorised | backend/HrayfiConnect_Mobile/artisan-platform/app/api/v1/websockets/chat.py:79-93 | a whole connection keeps rooms authorised and ends with the user disconnected and in no room |
| ChatSocket.StepsKeepRoomsAuthorised | backend/HrayfiConnect_Mobile/artisan-platform/app/api/v1/websockets/chat.py:84-87 | any sequence of frames keeps rooms authorised |
| ChatSocket.HandleJoinRoom | backend/HrayfiConnect_Mobile/artisan-platform/app/api/v1/websockets/chat.py:115-165 | the manager's new state is the join of the model |
| ChatSocket.HandleSendMessage | backend/HrayfiConnect_Mobile/artisan-platform/app/api/v1/websockets/chat.py:167-235 | the manager's and the store's new state is the send of the model |
| ChatSocket.HandleMarkRead | backend/HrayfiConnect_Mobile/artisan-platform/app/api/v1/websockets/chat.py:237-265 | the new state is the mark-read of the model |
| ChatSocket.HandleTyping | backend/HrayfiConnect_Mobile/artisan-platform/app/api/v1/websockets/chat.py:267-288 | the new state is the typing broadcast of the model |
| ChatSocket.HandleWebSocketMessage | backend/HrayfiConnect_Mobile/artisan-platform/app/api/v1/websockets/chat.py:95-113 | the new state is one step of the frame dispatch, unknown types and undecodable frames changing nothing |
| ChatSocket.HandleWebSocketConnection | backend/HrayfiConnect_Mobile/artisan-platform/app/api/v1/websockets/chat.py:79-93 | the new state is the whole session, and afterwards the user is disconnected and in no room |
| ChatRest.MyConversations | backend/HrayfiConnect_Mobile/artisan-platform/app/api/v1/endpoints/chat.py:49-67 | 403 exactly for callers who are neither client nor artisan; otherwise the conversation listing |
| ChatRest.BookingAccess | backend/HrayfiConnect_Mobile/artisan-platform/app/api/v1/endpoints/chat.py:81-93 | 404 exactly when the booking is not found, 403 exactly when the caller is not one of its parties, no other failure |
| ChatRest.ConversationMessages | backend/HrayfiConnect_Mobile/artisan-platform/app/api/v1/endpoints/chat.py:69-101 | the booking guards' failure is passed on; otherwise the first 100 messages in order, or 500 when one of them cannot be presented |
| ChatRest.PostedDraft | backend/HrayfiConnect_Mobile/artisan-platform/app/api/v1/endpoints/chat.py:103-156 | 422 for an invalid body; then the booking guards; 403 when the body names another sender or role; 400 when it names another booking; otherwise the receiver is the other party for the caller's role |
| ChatRest.PostRefusedIffRoleMismatch | backend/HrayfiConnect_Mobile/artisan-platform/app/api/v1/endpoints/chat.py:145-159 | a draft that passed the route's guards is refused by the store exactly when the caller's role does not match their position in the booking |
| ChatRest.PostMessage | backend/HrayfiConnect_Mobile/artisan-platform/app/api/v1/endpoints/chat.py:103-167 | the route's failures leave the store unchanged; a store refusal is 500 and changes nothing; otherwise the stamped message is appended and returned |
| ChatRest.MarkConversationAsRead | backend/HrayfiConnect_Mobile/artisan-platform/app/api/v1/endpoints/chat.py:169-200 | the booking guards' failure changes nothing; otherwise the messages are marked and the number marked returned |
| ChatRest.HistoryLength | backend/HrayfiConnect_Mobile/artisan-platform/app/api/v1/endpoints/chat.py:224-225 | a history page holds the booking's number of messages capped at 100 |
| ChatRest.TotalMessagesIsCappedThreads | backend/HrayfiConnect_Mobile/artisan-platform/app/api/v1/endpoints/chat.py:220-225 | the total adds up each conversation's thread length capped at 100, so it is at most 100 per conversation |
| ChatRest.GetChatStats | backend/HrayfiConnect_Mobile/artisan-platform/app/api/v1/endpoints/chat.py:202-231 | active conversations is the listing's length, unread the caller's unread count and total the sum of the history lengths |
| ChatRest.WebSocketChatEndpoint | backend/HrayfiConnect_Mobile/artisan-platform/app/api/v1/endpoints/chat.py:27-47 | a refused token closes with 1008, a crash with 1011, both changing nothing; an accepted one runs the whole session for that user |
| BookingSchemas.ValidateBookingCreate | backend/HrayfiConnect_Mobile/artisan-platform/app/schemas/booking_schemas.py:14-32 | a creation body is accepted exactly when its date, a naive one read as UTC, is strictly after now; a refusal is 422; an accepted body keeps its fields, with urgency false, no address and status pending by default |
| BookingSchemas.ValidateBookingUpdate | backend/HrayfiConnect_Mobile/artisan-platform/app/schemas/booking_schemas.py:34-52 | an update is accepted exactly when it sends no date or a date strictly after now; every field is kept as sent, absent ones staying absent |
| BookingSchemas.NaiveIsUtc | backend/HrayfiConnect_Mobile/artisan-platform/app/schemas/booking_schemas.py:26-31 | a naive date is compared as the same wall time in UTC |
| BookingModels.FindBookingById | backend/HrayfiConnect_Mobile/artisan-platform/app/models/booking_models.py:26-42 | a blank id or one that is not an ObjectId finds nothing; otherwise the booking is found exactly when one is stored under that id, and it is that one |
| BookingModels.NewBooking | backend/HrayfiConnect_Mobile/artisan-platform/app/models/booking_models.py:10-20 | a created booking is stamped now for creation and update and keeps the request's parties and status |
| BookingModels.ApplyUpdate | backend/HrayfiConnect_Mobile/artisan-platform/app/models/booking_models.py:70-78 | an update sets the sent fields, keeps the others and the parties and creation time, and stamps the update time |
| BookingModels.WrappersSetOneField | backend/HrayfiConnect_Mobile/artisan-platform/app/models/booking_models.py:91-97 | the status and schedule updates change just that field and the update time |
| BookingModels.UpdateOutcomeSpec | backend/HrayfiConnect_Mobile/artisan-platform/app/models/booking_models.py:70-89 | no answer leaves the bookings unchanged; an answer is the updated found booking, differs from it, is stamped now, is what the lookup finds afterwards, and replaces the found booking in its place, every other booking kept |
| BookingModels.UpdateSucceedsWhenSomethingChanges | backend/HrayfiConnect_Mobile/artisan-platform/app/models/booking_models.py:75-85 | when the update, with its new time, changes the found booking, there is an answer (the modified count is not 0) |
| BookingModels.ClientAddress | backend/HrayfiConnect_Mobile/artisan-platform/app/models/booking_models.py:124-128 | the client's address is the truthy address of a dictionary profile_data, else the top-level address, else none |
| BookingModels.ProfileAddressWins | backend/HrayfiConnect_Mobile/artisan-platform/app/models/booking_models.py:124-128 | a non-empty profile address wins over the top-level one; an empty profile dictionary falls back to it; a profile_data that is not a dictionary gives none |
| BookingModels.BookingsWithDetails | backend/HrayfiConnect_Mobile/artisan-platform/app/models/booking_models.py:108-164 | the details list is the selected bookings, newest first, paged, in order, each with its client and artisan as the lookup of its ids finds them and the client's address as the profile or the account gives it; one party id that is not an ObjectId empties the whole list |
| BookingModels.DetailsSelectedNewestFirst | backend/HrayfiConnect_Mobile/artisan-platform/app/models/booking_models.py:108-112 | every listed booking is stored and selected by the query, newest first |
| BookingModels.DeleteOutcomeSpec | backend/HrayfiConnect_Mobile/artisan-platform/app/models/booking_models.py:99-106 | a booking is deleted exactly when the lookup finds it; then exactly that booking is removed from its place, the others kept in order; otherwise nothing changes |
| BookingModels.BookingStore.constructor | backend/HrayfiConnect_Mobile/artisan-platform/app/models/booking_models.py:6-8 | the store holds the given bookings |
| BookingModels.BookingStore.CreateBooking | backend/HrayfiConnect_Mobile/artisan-platform/app/models/booking_models.py:10-20 | the new booking is appended and found by its id |
| BookingModels.BookingStore.UpdateBooking | backend/HrayfiConnect_Mobile/artisan-platform/app/models/booking_models.py:70-89 | the answer and the new bookings are those of the update outcome |
| BookingModels.BookingStore.UpdateBookingStatus | backend/HrayfiConnect_Mobile/artisan-platform/app/models/booking_models.py:91-93 | the update outcome of a status-only update |
| BookingModels.BookingStore.UpdateBookingSchedule | backend/HrayfiConnect_Mobile/artisan-platform/app/models/booking_models.py:95-97 | the update outcome of a schedule-only update |
| BookingModels.BookingStore.DeleteBooking | backend/HrayfiConnect_Mobile/artisan-platform/app/models/booking_models.py:99-106 | the answer and the new bookings are those of the delete outcome |
| BookingEndpoints.CreateBooking | backend/HrayfiConnect_Mobile/artisan-platform/app/api/v1/endpoints/bookings.py:27-71 | a refusal is 403 or 404 and changes nothing; a booking is stored only for a client booking for themselves, appended as the one new entry |
| BookingEndpoints.GetBooking | backend/HrayfiConnect_Mobile/artisan-platform/app/api/v1/endpoints/bookings.py:141-182 | the corrected route: a failure is 403, 404 or 500, and a booking is shown only to one of its two parties |
| BookingEndpoints.UpdateBooking | backend/HrayfiConnect_Mobile/artisan-platform/app/api/v1/endpoints/bookings.py:184-259 | a refusal is 400, 403, 404 or 500 and changes nothing; only a client, artisan or admin updates, and only an existing booking |
| BookingEndpoints.UpdateSchedule | backend/HrayfiConnect_Mobile/artisan-platform/app/api/v1/endpoints/bookings.py:261-309 | a refusal is 400, 403, 404 or 500 and changes nothing; only an artisan reschedules, and never to a date before now |
| BookingEndpoints.UpdateStatus | backend/HrayfiConnect_Mobile/artisan-platform/app/api/v1/endpoints/bookings.py:311-348 | a refusal is 403, 404 or 500 and changes nothing; only an artisan changes a status |
| BookingEndpoints.DeleteBooking | backend/HrayfiConnect_Mobile/artisan-platform/app/api/v1/endpoints/bookings.py:350-389 | a refusal is 403, 404 or 500 and changes nothing; only a client or an admin deletes |
| BookingEndpoints.CreateBookingRule | backend/HrayfiConnect_Mobile/artisan-platform/app/api/v1/endpoints/bookings.py:27-71 | a booking is created exactly when the caller is a client, the artisan is an existing artisan account and the booking is for the caller; it is then the one new entry, stamped now; a refusal is 403 or 404 and changes nothing |
| BookingEndpoints.AllBookingsRule | backend/HrayfiConnect_Mobile/artisan-platform/app/api/v1/endpoints/bookings.py:73-102 | 422 for a skip below 0 or a limit outside 1..1000, then 403 unless admin; an answer holds at most `limit` stored bookings of the status asked for, newest first |
| BookingEndpoints.MyBookingsRule | backend/HrayfiConnect_Mobile/artisan-platform/app/api/v1/endpoints/bookings.py:104-139 | 422 outside the page bounds, 403 for a role other than client or artisan; an answer holds at most `limit` bookings, each made by the client caller or with the artisan caller, of the status asked for, newest first |
| BookingEndpoints.GetBookingAsWrittenHidesGuards | backend/HrayfiConnect_Mobile/artisan-platform/app/api/v1/endpoints/bookings.py:150-182 | as written every failure of `get_booking` is a 500: the 404 and 403 raised inside the `try` are caught by its `except Exception` |
| BookingEndpoints.GetBookingMissingIs500 | backend/HrayfiConnect_Mobile/artisan-platform/app/api/v1/endpoints/bookings.py:156-160 | as written a well-formed id of a missing booking answers 500 (the 404 is caught at lines 177-182), where the intended answer is 404 |
| BookingEndpoints.GetBookingGuards | backend/HrayfiConnect_Mobile/artisan-platform/app/api/v1/endpoints/bookings.py:141-175 | the corrected route answers exactly when the written one does and with the same booking; otherwise 404 for an empty lookup and 403 when the caller is neither party |
| BookingEndpoints.FieldsForRole | backend/HrayfiConnect_Mobile/artisan-platform/app/api/v1/endpoints/bookings.py:208-242 | a client keeps only description, urgency and address, an artisan only date and status, an admin everything; any other role has no field set |
| BookingEndpoints.FieldsForRoleKeepsOnlyAllowed | backend/HrayfiConnect_Mobile/artisan-platform/app/api/v1/endpoints/bookings.py:219-232 | a field survives the role filter only if the role may change it, and unchanged |
| BookingEndpoints.UpdateBookingRule | backend/HrayfiConnect_Mobile/artisan-platform/app/api/v1/endpoints/bookings.py:184-258 | a refusal changes nothing; 404 for a missing booking; 403 for a client or artisan who is not its party and for any role but admin; 400 for an owner or admin whose role's filter leaves no field; an answer is the found booking with exactly the role's fields applied, stored in the found booking's place with every other booking kept; an owner or admin whose filtered update changes the booking is answered |
| BookingEndpoints.ClientCannotReschedule | backend/HrayfiConnect_Mobile/artisan-platform/app/api/v1/endpoints/bookings.py:210-248 | a client's update naming only the date and status is empty after the filter and refused with 400 |
| BookingEndpoints.UpdateScheduleRule | backend/HrayfiConnect_Mobile/artisan-platform/app/api/v1/endpoints/bookings.py:261-309 | only the booking's own artisan reschedules, to a date (naive read as UTC) not before now; only the date and update time change, the new booking takes the old one's place with every other booking kept, and a change that alters the booking succeeds |
| BookingEndpoints.UpdateStatusRule | backend/HrayfiConnect_Mobile/artisan-platform/app/api/v1/endpoints/bookings.py:311-348 | only the booking's own artisan changes its status, and only the status and update time change; the new booking takes the old one's place with every other booking kept; 404 for a missing booking; 403 for every caller but that artisan, including an artisan who does not own it; that artisan is answered whenever the status differs |
| BookingEndpoints.DeleteBookingRule | backend/HrayfiConnect_Mobile/artisan-platform/app/api/v1/endpoints/bookings.py:350-389 | deletion succeeds exactly for an admin or the owning client on an existing booking, removing that booking from its place and keeping the others in order; artisans are always refused |
| BookingEndpoints.MyBookingStats | backend/HrayfiConnect_Mobile/artisan-platform/app/api/v1/endpoints/bookings.py:391-429 | 403 exactly for a role other than client or artisan; otherwise the statistics of the caller's own bookings, at most 1000 |
| BookingEndpoints.CountStatuses | backend/HrayfiConnect_Mobile/artisan-platform/app/api/v1/endpoints/bookings.py:415-427 | the counting loop gives the total and the number of bookings of each status that has a bucket |
| BookingEndpoints.BucketsMissOnlyRejected | backend/HrayfiConnect_Mobile/artisan-platform/app/api/v1/endpoints/bookings.py:415-427 | the five buckets add up to the total less the rejected bookings, so they never exceed it |
| TicketSchemas.ValidateTicketCreate | backend/HrayfiConnect_Mobile/artisan-platform/app/schemas/ticket_schemas.py:25-43 | a ticket body is accepted exactly when subject and description each have a non-space character; the fields are kept, priority medium by default; a refusal is 422 |
| TicketSchemas.ValidateTicketUpdate | backend/HrayfiConnect_Mobile/artisan-platform/app/schemas/ticket_schemas.py:45-61 | an edit is accepted exactly when a sent subject or description is not blank; it is kept as sent |
| TicketSchemas.ValidateResponseMessage | backend/HrayfiConnect_Mobile/artisan-platform/app/schemas/ticket_schemas.py:75-82 | a reply is accepted exactly when its message is not blank |
| TicketModels.TicketNumberAsWritten | backend/HrayfiConnect_Mobile/artisan-platform/app/models/ticket_models.py:48-56 | as written, the serial of the number reads back as the number of stored tickets plus one |
| TicketModels.TicketNumberFormat | backend/HrayfiConnect_Mobile/artisan-platform/app/models/ticket_models.py:48-53 | a ticket number is `TKT-`, the day, `-`, then digits whose value is the count plus one, at least four of them and exactly four below 10000 |
| TicketModels.TicketNumberParts | backend/HrayfiConnect_Mobile/artisan-platform/app/models/ticket_models.py:53 | the number is the prefix, the day, a dash and the count plus one zero-padded to four digits |
| TicketModels.DayNotLonger | backend/HrayfiConnect_Mobile/artisan-platform/app/models/ticket_models.py:53 | two equal numbers built from digit-only days cannot have a longer day on the left |
| TicketModels.TicketNumberInjective | backend/HrayfiConnect_Mobile/artisan-platform/app/models/ticket_models.py:53 | equal numbers built from digit-only days come from the same day and the same count |
| TicketModels.SerialReadsBack | backend/HrayfiConnect_Mobile/artisan-platform/app/models/ticket_models.py:53 | the zero-padded serial determines the count |
| TicketModels.NumberingAfterCreate | backend/HrayfiConnect_Mobile/artisan-platform/app/models/ticket_models.py:30-53 | with the corrected counter, creating a ticket keeps every stored number distinct, each the number of an issued serial |
| TicketModels.NumberingAfterRemove | backend/HrayfiConnect_Mobile/artisan-platform/app/models/ticket_models.py:145-152 | deleting a ticket keeps the numbering invariant: numbers stay distinct and the counter does not move back |
| TicketModels.NumberingAfterReplace | backend/HrayfiConnect_Mobile/artisan-platform/app/models/ticket_models.py:99-143 | replacing a ticket by one with the same number keeps the numbering invariant |
| TicketModels.FindTicketByNumber | backend/HrayfiConnect_Mobile/artisan-platform/app/models/ticket_models.py:66-72 | the lookup by number answers a stored ticket with that number, or nothing when no ticket has it |
| TicketModels.NumberFindsItsTicket | backend/HrayfiConnect_Mobile/artisan-platform/app/models/ticket_models.py:66-72 | with distinct numbers, looking a ticket's number up finds that very ticket |
| TicketModels.NewTicket | backend/HrayfiConnect_Mobile/artisan-platform/app/models/ticket_models.py:30-42 | a new ticket is open, carries its number, is stamped now, keeps the request's fields and has no reply and no notes |
| TicketModels.FindTicketById | backend/HrayfiConnect_Mobile/artisan-platform/app/models/ticket_models.py:58-64 | a ticket is found exactly when the id is an ObjectId of a stored ticket, and it is that one |
| TicketModels.EditChanges | backend/HrayfiConnect_Mobile/artisan-platform/app/schemas/ticket_schemas.py:45-49 | an edit sets only subject, description, category and priority as sent |
| TicketModels.StatusChanges | backend/HrayfiConnect_Mobile/artisan-platform/app/models/ticket_models.py:120-126 | a status change sets the status, and the notes only when they are truthy |
| TicketModels.ApplyChanges | backend/HrayfiConnect_Mobile/artisan-platform/app/models/ticket_models.py:99-107 | the changes set the sent fields, keep the others, the number, the replies and the creation time, and stamp the update time |
| TicketModels.UpdateOutcomeSpec | backend/HrayfiConnect_Mobile/artisan-platform/app/models/ticket_models.py:99-118 | no answer leaves the tickets unchanged; an answer is the changed found ticket, differs from it and is what the lookup finds afterwards; a change that alters the ticket always answers |
| TicketModels.UpdateOutcomeReplaces | backend/HrayfiConnect_Mobile/artisan-platform/app/models/ticket_models.py:104-107 | an answered update replaces exactly the found ticket in place |
| TicketModels.AddResponseSpec | backend/HrayfiConnect_Mobile/artisan-platform/app/models/ticket_models.py:128-143 | a reply is added exactly when the ticket is found; it is appended last to its replies with a fresh id and the time, and the update time is set |
| TicketModels.DeleteOutcomeSpec | backend/HrayfiConnect_Mobile/artisan-platform/app/models/ticket_models.py:145-152 | a ticket is deleted exactly when the lookup finds it, and then exactly that ticket is removed |
| TicketModels.DeletionReusesTicketNumber | backend/HrayfiConnect_Mobile/artisan-platform/app/models/ticket_models.py:48-53 | as written: with two tickets numbered from counts 0 and 1, deleting the first makes the next number equal to the second's |
| TicketModels.BucketsCoverTotal | backend/HrayfiConnect_Mobile/artisan-platform/app/models/ticket_models.py:187-202 | the four status counts add up to the total |
| TicketModels.UserTicketsOwnNewestFirst | backend/HrayfiConnect_Mobile/artisan-platform/app/models/ticket_models.py:74-85 | a user's ticket page holds only stored tickets of that user, newest first |
| TicketModels.UserTicketsLength | backend/HrayfiConnect_Mobile/artisan-platform/app/models/ticket_models.py:74-85 | from the start, the page holds the user's number of tickets capped at the limit |
| TicketModels.TicketsWithDetails | backend/HrayfiConnect_Mobile/artisan-platform/app/models/ticket_models.py:154-185 | the detailed list is the selected tickets newest first and paged, each with its author as the lookup of its user id finds that account, when one exists; an author id that is not an ObjectId empties the whole list |
| TicketModels.DetailsSelectedNewestFirst | backend/HrayfiConnect_Mobile/artisan-platform/app/models/ticket_models.py:154-185 | the detailed list holds only stored tickets the query selects, newest first |
| TicketModels.TicketStore.constructor | backend/HrayfiConnect_Mobile/artisan-platform/app/models/ticket_models.py:26-28 | no ticket, no number issued |
| TicketModels.TicketStore.CreateTicket | backend/HrayfiConnect_Mobile/artisan-platform/app/models/ticket_models.py:30-46 | the ticket is created open with the number of the next issued serial and appended; numbers stay distinct |
| TicketModels.TicketStore.UpdateTicket | backend/HrayfiConnect_Mobile/artisan-platform/app/models/ticket_models.py:99-118 | the answer and the new tickets are those of the update outcome |
| TicketModels.TicketStore.UpdateTicketStatus | backend/HrayfiConnect_Mobile/artisan-platform/app/models/ticket_models.py:120-126 | the update outcome of a status change |
| TicketModels.TicketStore.AddTicketResponse | backend/HrayfiConnect_Mobile/artisan-platform/app/models/ticket_models.py:128-143 | the answer and the new tickets are those of the reply outcome |
| TicketModels.TicketStore.DeleteTicket | backend/HrayfiConnect_Mobile/artisan-platform/app/models/ticket_models.py:145-152 | the answer and the new tickets are those of the delete outcome |
| TicketEndpoints.CreateTicket | backend/HrayfiConnect_Mobile/artisan-platform/app/api/v1/endpoints/tickets.py:24-60 | a refusal is 403 or 422 and changes nothing; a new ticket is the caller's own, open, and appended as the one new entry |
| TicketEndpoints.GetTicket | backend/HrayfiConnect_Mobile/artisan-platform/app/api/v1/endpoints/tickets.py:135-168 | a failure is 403, 404 or 500; a ticket is shown only to an admin or its owner |
| TicketEndpoints.UpdateTicket | backend/HrayfiConnect_Mobile/artisan-platform/app/api/v1/endpoints/tickets.py:170-217 | a refusal is 400, 403, 404, 422 or 500 and changes nothing; only the owner of an existing ticket edits it |
| TicketEndpoints.DeleteTicket | backend/HrayfiConnect_Mobile/artisan-platform/app/api/v1/endpoints/tickets.py:302-335 | a refusal is 403, 404 or 500 and changes nothing; only an admin or the owner of an existing ticket deletes it |
| TicketEndpoints.CreateTicketRule | backend/HrayfiConnect_Mobile/artisan-platform/app/api/v1/endpoints/tickets.py:24-60 | a ticket is created exactly when the body is valid, the caller is a client or artisan and the ticket is for the caller; it is appended open, numbered from the issued counter, stamped now, with priority medium by default, and the numbering invariant holds afterwards; refusals are 403 or 422 and change nothing |
| TicketEndpoints.MyTicketsQuery | backend/HrayfiConnect_Mobile/artisan-platform/app/api/v1/endpoints/tickets.py:74-84 | the query selects exactly the caller's tickets of the status and category asked for |
| TicketEndpoints.AllTicketsQuery | backend/HrayfiConnect_Mobile/artisan-platform/app/api/v1/endpoints/tickets.py:113-125 | the query selects exactly the tickets of the status, category and priority asked for |
| TicketEndpoints.MyTicketsOnlyOwn | backend/HrayfiConnect_Mobile/artisan-platform/app/api/v1/endpoints/tickets.py:62-92 | 422 outside the page bounds; an answer holds at most `limit` of the caller's own stored tickets, narrowed as asked, newest first |
| TicketEndpoints.AllTicketsAdminOnly | backend/HrayfiConnect_Mobile/artisan-platform/app/api/v1/endpoints/tickets.py:94-133 | 403 for anyone but an admin within the page bounds; an answer holds stored tickets narrowed as asked |
| TicketEndpoints.GetTicketRule | backend/HrayfiConnect_Mobile/artisan-platform/app/api/v1/endpoints/tickets.py:135-168 | an answer is the stored ticket with that id, which the caller owns or an admin reads, and which can be presented; a found ticket the caller may not read is 403 |
| TicketEndpoints.UpdateTicketRule | backend/HrayfiConnect_Mobile/artisan-platform/app/api/v1/endpoints/tickets.py:170-217 | an edit passes only for the owner of an open or in-progress ticket with some field sent; it changes only the sent fields, never the status or number; otherwise 422 for an invalid body, then 404, 403, 400 or 400 in that order, and nothing changes; the owner of an open or in-progress ticket whose sent fields change it is answered |
| TicketEndpoints.UpdateTicketStatusRule | backend/HrayfiConnect_Mobile/artisan-platform/app/api/v1/endpoints/tickets.py:219-257 | only an admin changes a status; 404 for a missing ticket; the status is set, the notes only when truthy, all else kept; a change that alters the ticket succeeds |
| TicketEndpoints.AuthorNameSpec | backend/HrayfiConnect_Mobile/artisan-platform/app/api/v1/endpoints/tickets.py:290 | the reply author's name is first and last name joined by a space and stripped: empty without either, the first name alone without a last name |
| TicketEndpoints.AddTicketResponseRule | backend/HrayfiConnect_Mobile/artisan-platform/app/api/v1/endpoints/tickets.py:259-300 | a reply is added exactly when the message is not blank, the ticket exists and the caller owns it or is an admin; it is appended with the caller's id, role and name; refusals are 403, 404 or 422 and change nothing |
| TicketEndpoints.DeleteTicketRule | backend/HrayfiConnect_Mobile/artisan-platform/app/api/v1/endpoints/tickets.py:302-335 | deletion succeeds exactly for the owner or an admin on an existing ticket, removing exactly that ticket; the numbering invariant is kept |
| TicketEndpoints.StatsOverview | backend/HrayfiConnect_Mobile/artisan-platform/app/api/v1/endpoints/tickets.py:337-352 | admin only; the total is the number of tickets and the four status counts add up to it |
| TicketEndpoints.MyTicketStats | backend/HrayfiConnect_Mobile/artisan-platform/app/api/v1/endpoints/tickets.py:354-380 | the counting loop gives the statistics of the caller's first 1000 tickets |
| TicketEndpoints.MyTicketStatsTotal | backend/HrayfiConnect_Mobile/artisan-platform/app/api/v1/endpoints/tickets.py:365-378 | the total is the caller's number of tickets capped at 1000, and the four counts add up to it |
| ReviewSchemas.ValidateReviewCreate | backend/HrayfiConnect_Mobile/artisan-platform/app/schemas/review_schemas.py:13-24 | a new review is accepted exactly when its rating is 0 to 5 and its comment has a non-space character; it passes unchanged, and a refusal is 422 |
| ReviewSchemas.ValidateReviewUpdate | backend/HrayfiConnect_Mobile/artisan-platform/app/schemas/review_schemas.py:26-40 | an edit is accepted exactly when a sent rating is 0 to 5 and a sent comment has a non-space character; absent fields are never refused |
| ReviewModels.FindReviewById | backend/HrayfiConnect_Mobile/artisan-platform/app/models/review_models.py:79-85 | a review is found exactly when the id is a well-formed ObjectId naming a stored review, and what is found is that review; a malformed id finds nothing |
| ReviewModels.RatingsOfSpec | backend/HrayfiConnect_Mobile/artisan-platform/app/models/review_models.py:54-60 | the ratings gathered for an artisan are one per review of that artisan, each the rating of such a review |
| ReviewModels.RefreshRatingAsWritten | backend/HrayfiConnect_Mobile/artisan-platform/app/models/review_models.py:50-77 | as written: every account keeps its place, and an artisan with no review left is not written at all |
| ReviewModels.RefreshRating | backend/HrayfiConnect_Mobile/artisan-platform/app/models/review_models.py:50-77 | the intended refresh keeps every account in its place with its id |
| ReviewModels.RefreshRatingSpec | backend/HrayfiConnect_Mobile/artisan-platform/app/models/review_models.py:50-77 | refreshing an artisan's rating touches only that artisan's record and leaves its review_count equal to the number of its reviews; with reviews left it agrees with the code as written |
| ReviewModels.LastReviewLeavesStaleCount | backend/HrayfiConnect_Mobile/artisan-platform/app/models/review_models.py:64-73 | with no reviews left, the code as written keeps the old review_count of 1, while the corrected refresh sets it to 0 |
| ReviewModels.CompletedBookingFor | backend/HrayfiConnect_Mobile/artisan-platform/app/models/review_models.py:14-23 | a booking is found exactly when a stored booking has that id, the body's client and artisan, and status completed |
| ReviewModels.CreateOutcome | backend/HrayfiConnect_Mobile/artisan-platform/app/models/review_models.py:11-48 | a created review is appended as the one new review, under the fresh id; any refusal leaves the store unchanged |
| ReviewModels.CreateOutcomeSpec | backend/HrayfiConnect_Mobile/artisan-platform/app/models/review_models.py:11-48 | a review is created exactly when a completed booking between the two parties exists and the client has not reviewed that booking under any spelling of its id; it is appended, the artisan's rating is refreshed, refusals change nothing, and at most one review per client and booking is kept |
| ReviewModels.CaseVariantIds | backend/HrayfiConnect_Mobile/artisan-platform/app/models/review_models.py:26-29 | an upper-case and a lower-case spelling of a hex id are both well formed and name the same object |
| ReviewModels.ReviewTwiceThroughSpelling | backend/HrayfiConnect_Mobile/artisan-platform/app/models/review_models.py:26-29 | for any two spellings of one booking id, the code as written accepts a second review of that booking by the same client, breaking one review per booking; the corrected check refuses it |
| ReviewModels.SecondReviewThroughLetterCase | backend/HrayfiConnect_Mobile/artisan-platform/app/models/review_models.py:26-32 | a concrete pair of spellings with which the code as written creates a second review and the corrected check answers already reviewed |
| ReviewModels.ApplyReviewUpdate | backend/HrayfiConnect_Mobile/artisan-platform/app/models/review_models.py:172-180 | an edit sets only the rating and comment sent and the update stamp; the ids, booking and creation stamp stay |
| ReviewModels.UpdateReviewOutcomeSpec | backend/HrayfiConnect_Mobile/artisan-platform/app/models/review_models.py:172-197 | an edit answers the edited review exactly when the review exists and the edit changes it; the edited review takes the old one's place and every other review is kept, the rating is refreshed only when a rating was sent, and none answers with nothing changed |
| ReviewModels.DeleteReviewOutcomeSpec | backend/HrayfiConnect_Mobile/artisan-platform/app/models/review_models.py:199-216 | deletion succeeds exactly when the review exists, removes exactly it from its place, keeps the others in order and refreshes its artisan's rating; otherwise nothing changes |
| ReviewModels.Tally | backend/HrayfiConnect_Mobile/artisan-platform/app/models/review_models.py:241-244 | the distribution has exactly the keys 1 to 5 |
| ReviewModels.TallyCounts | backend/HrayfiConnect_Mobile/artisan-platform/app/models/review_models.py:240-244 | each star's count is the number of ratings equal to it, and the five counts plus the ratings outside 1 to 5 make up all ratings |
| ReviewModels.StatsOfSpec | backend/HrayfiConnect_Mobile/artisan-platform/app/models/review_models.py:218-258 | the statistics count the artisan's reviews, tally their ratings by star without exceeding that count, and with no reviews give average 0 and an all-zero distribution |
| ReviewModels.ReviewsWithDetails | backend/HrayfiConnect_Mobile/artisan-platform/app/models/review_models.py:113-170 | the listing is the selected page of reviews, each with its client, artisan and booking as the lookups of its ids find them; an id that is not a well-formed ObjectId makes the whole listing empty, as the exception handler does |
| ReviewModels.DetailsSelectedNewestFirst | backend/HrayfiConnect_Mobile/artisan-platform/app/models/review_models.py:113-120 | every listed review is stored and selected, newest first |
| ReviewModels.ReviewStore.constructor | backend/HrayfiConnect_Mobile/artisan-platform/app/models/review_models.py:5-9 | a new store has no reviews and the given users |
| ReviewModels.ReviewStore.CreateReview | backend/HrayfiConnect_Mobile/artisan-platform/app/models/review_models.py:11-48 | the answer and the new state are those of the creation rule |
| ReviewModels.ReviewStore.UpdateReview | backend/HrayfiConnect_Mobile/artisan-platform/app/models/review_models.py:172-197 | the answer and the new state are those of the edit rule |
| ReviewModels.ReviewStore.DeleteReview | backend/HrayfiConnect_Mobile/artisan-platform/app/models/review_models.py:199-216 | the answer and the new state are those of the deletion rule |
| ReviewModels.ReviewStore.GetArtisanRatingStats | backend/HrayfiConnect_Mobile/artisan-platform/app/models/review_models.py:218-267 | gives the artisan's statistics (an empty summary when there are no ratings, otherwise the average, the count and the distribution the counting loop builds) and changes nothing |
| ReviewModels.CountStars | backend/HrayfiConnect_Mobile/artisan-platform/app/models/review_models.py:241-244 | the loop over the ratings builds the star distribution `Tally` defines, whose counts `TallyCounts` relates to the ratings |
| ReviewEndpoints.CreateReview | backend/HrayfiConnect_Mobile/artisan-platform/app/api/v1/endpoints/reviews.py:29-99 | a refusal is 400, 403, 404, 422 or 500 and changes nothing; a review is created only by a client filing for themselves |
| ReviewEndpoints.GetReview | backend/HrayfiConnect_Mobile/artisan-platform/app/api/v1/endpoints/reviews.py:163-184 | a failure is 404 or 500, and a review is shown only when its response can be presented |
| ReviewEndpoints.UpdateReview | backend/HrayfiConnect_Mobile/artisan-platform/app/api/v1/endpoints/reviews.py:186-226 | a refusal is 400, 403, 404, 422 or 500 and changes nothing; only the author of an existing review edits it |
| ReviewEndpoints.DeleteReview | backend/HrayfiConnect_Mobile/artisan-platform/app/api/v1/endpoints/reviews.py:228-267 | a refusal is 403, 404 or 500 and changes nothing; only the author of an existing review or an admin deletes it |
| ReviewEndpoints.CreateReviewRule | backend/HrayfiConnect_Mobile/artisan-platform/app/api/v1/endpoints/reviews.py:29-99 | the guards apply in order: 422 for an invalid body, 403 unless the caller is the client named, 404 without the booking, 400 unless it is completed, 403 for another client's booking, 400 for another artisan; a review is then created exactly when no review of it by that client exists, else 400; refusals change nothing |
| ReviewEndpoints.ArtisanReviewsQuery | backend/HrayfiConnect_Mobile/artisan-platform/app/api/v1/endpoints/reviews.py:113-121 | the query always names the artisan, holds a rating range exactly when a bound is given, with each bound exactly when given, and matches exactly the artisan's reviews within the bounds |
| ReviewEndpoints.Presented | backend/HrayfiConnect_Mobile/artisan-platform/app/api/v1/endpoints/reviews.py:126-129 | a listing is answered unchanged exactly when every entry can be presented, otherwise 500 |
| ReviewEndpoints.GetArtisanReviews | backend/HrayfiConnect_Mobile/artisan-platform/app/api/v1/endpoints/reviews.py:101-129 | 422 outside the page or rating bounds; an answer holds at most `limit` stored reviews of that artisan within the bounds, newest first |
| ReviewEndpoints.MyReviewsQuery | backend/HrayfiConnect_Mobile/artisan-platform/app/api/v1/endpoints/reviews.py:141-153 | a query exists exactly for clients and artisans, and matches the reviews the caller wrote as a client or received as an artisan |
| ReviewEndpoints.GetMyReviewsRule | backend/HrayfiConnect_Mobile/artisan-platform/app/api/v1/endpoints/reviews.py:131-161 | 422 outside the page bounds, 403 for admins and others; an answer holds at most `limit` of the caller's own reviews, newest first |
| ReviewEndpoints.GetReviewRule | backend/HrayfiConnect_Mobile/artisan-platform/app/api/v1/endpoints/reviews.py:163-184 | a malformed id is 500, a missing review 404; an answer is the stored review with that id |
| ReviewEndpoints.UpdateReviewRule | backend/HrayfiConnect_Mobile/artisan-platform/app/api/v1/endpoints/reviews.py:186-226 | 404, 403 for another client's review, 400 for an empty edit; an edit that changes the review succeeds, applies only the sent fields, puts the edited review in the old one's place with the others kept, and refreshes the rating only for a new rating |
| ReviewEndpoints.DeleteReviewRule | backend/HrayfiConnect_Mobile/artisan-platform/app/api/v1/endpoints/reviews.py:228-267 | deletion succeeds exactly for the owning client or an admin on an existing review, removing exactly it from its place with the others kept in order; 404 and 403 otherwise, with nothing changed |
| UserSchemas.ValidateUserCreate | backend/HrayfiConnect_Mobile/artisan-platform/app/schemas/user_schemas.py:6-19 | a registration is accepted exactly when the password has at least 8 characters; the fields pass through, the language defaults to fr and the picture to none; a refusal is 422 |
| UserSchemas.ValidateResetPassword | backend/HrayfiConnect_Mobile/artisan-platform/app/schemas/user_schemas.py:143-151 | a new password is accepted exactly when it has at least 8 characters, and passes through with the token |
| UserSchemas.ValidateProfileUpdate | backend/HrayfiConnect_Mobile/artisan-platform/app/schemas/user_schemas.py:35-80 | a profile edit is accepted exactly when every required text field is present and every sent field has its declared kind, a nested identity document or availability being checked field by field against its own model; what passes is the sent fields the schema declares, each as validated, 422 otherwise |
| UserSchemas.LeafValue | backend/HrayfiConnect_Mobile/artisan-platform/app/schemas/user_schemas.py:64-74 | a validated flat field keeps its value, except that an integer field turns a boolean into 0 or 1 and integer text into its integer, and keeps null as null |
| UserSchemas.FlatDump | backend/HrayfiConnect_Mobile/artisan-platform/app/schemas/user_schemas.py:50-62 | the dump of a nested model holds exactly its sent declared fields, each as validated; unknown keys are dropped |
| UserSchemas.Dumped | backend/HrayfiConnect_Mobile/artisan-platform/app/schemas/user_schemas.py:72-80 | a flat field dumps as validated, a null nested model as null, a nested dictionary as its own dump |
| UserSchemas.IntNumeralAccepted | backend/HrayfiConnect_Mobile/artisan-platform/app/schemas/user_schemas.py:70 | an integer field accepts the numeral of every integer, sign included, and reads back that integer |
| UserSchemas.YearsAsTextStoredAsNumber | backend/HrayfiConnect_Mobile/artisan-platform/app/schemas/user_schemas.py:70 | the experience sent as the text "5" is stored as the number 5 |
| UserSchemas.ArtisanFieldKinds | backend/HrayfiConnect_Mobile/artisan-platform/app/schemas/user_schemas.py:64-80 | the artisan update takes the experience as an integer and checks the identity document and the availability against their own models |
| UserSchemas.UnknownDocumentKeyDropped | backend/HrayfiConnect_Mobile/artisan-platform/app/schemas/user_schemas.py:59-62 | an identity document with a key its model does not declare is accepted and stored without that key |
| UserSchemas.BadNestedFieldRejected | backend/HrayfiConnect_Mobile/artisan-platform/app/schemas/user_schemas.py:50-58 | an availability whose weekday is text instead of a list makes the whole update 422 |
| UserModels.FindUserById | backend/HrayfiConnect_Mobile/artisan-platform/app/models/user_models.py:30-34 | an account is found exactly when the id is a well-formed ObjectId naming a stored account, and what is found is that account; a malformed id finds nothing |
| UserModels.PrepareUpdate | backend/HrayfiConnect_Mobile/artisan-platform/app/models/user_models.py:37-39 | a present and truthy password is replaced by its hash and every other field is set unchanged; a falsy password is kept; a truthy password that is not text is 500 |
| UserModels.SetFields | backend/HrayfiConnect_Mobile/artisan-platform/app/models/user_models.py:41-44 | setting fields keeps the number of accounts and their ids, and changes nothing when no account has that id |
| UserModels.ActiveOnlyRule | backend/HrayfiConnect_Mobile/artisan-platform/app/models/user_models.py:54-57 | with the active filter an account of the type is listed exactly when its is_active is not false, so an account without the field is listed |
| UserModels.ListStep | backend/HrayfiConnect_Mobile/artisan-platform/app/models/user_models.py:59-63 | one step of the cursor loop extends the filtered list and the page by at most the next account |
| UserModels.UserStore.constructor | backend/HrayfiConnect_Mobile/artisan-platform/app/models/user_models.py:14-16 | a new store holds the given accounts |
| UserModels.UserStore.UpdateUser | backend/HrayfiConnect_Mobile/artisan-platform/app/models/user_models.py:36-45 | an update with a malformed id or a non-text password is 500 and changes nothing; otherwise the prepared fields are set on that account and the account is read back |
| UserModels.UserStore.DeleteUser | backend/HrayfiConnect_Mobile/artisan-platform/app/models/user_models.py:47-49 | a malformed id is 500; otherwise the answer says whether the account existed, and exactly that account is removed |
| UserModels.UserStore.ListUsers | backend/HrayfiConnect_Mobile/artisan-platform/app/models/user_models.py:51-63 | the cursor loop gives the requested page of the accounts of that type, filtered by activity |
| UserModels.AfterMarkUsed | backend/HrayfiConnect_Mobile/artisan-platform/app/models/user_models.py:131-136 | marking a code used keeps the number of records |
| UserModels.PasswordResetManager.constructor | backend/HrayfiConnect_Mobile/artisan-platform/app/models/user_models.py:90-92 | a new table is empty and valid |
| UserModels.PasswordResetManager.CreateResetCode | backend/HrayfiConnect_Mobile/artisan-platform/app/models/user_models.py:94-111 | the table becomes the other emails' codes plus one fresh unused code expiring two minutes later, and stays valid |
| UserModels.PasswordResetManager.VerifyResetCode | backend/HrayfiConnect_Mobile/artisan-platform/app/models/user_models.py:113-129 | the answer and the table are those of the verification rule, and the table stays valid |
| UserModels.PasswordResetManager.MarkCodeAsUsed | backend/HrayfiConnect_Mobile/artisan-platform/app/models/user_models.py:131-136 | the record with that id becomes used at now, and the table stays valid |
| UserModels.PasswordResetManager.CleanupExpiredCodes | backend/HrayfiConnect_Mobile/artisan-platform/app/models/user_models.py:138-143 | the expired records are deleted and the answer is how many were |
| UserModels.CreateKeepsValid | backend/HrayfiConnect_Mobile/artisan-platform/app/models/user_models.py:94-111 | creating a code keeps ids distinct and fresh and one code per email |
| UserModels.CreateReplacesCodes | backend/HrayfiConnect_Mobile/artisan-platform/app/models/user_models.py:106-110 | after creating a code the email has exactly one code, the new one, and every other email's codes are untouched |
| UserModels.VerifyAcceptsOnlyLiveCodes | backend/HrayfiConnect_Mobile/artisan-platform/app/models/user_models.py:115-129 | a code verifies only as a stored unused record with that email and code that has not expired, and a successful verification changes nothing |
| UserModels.VerifyAcceptsLiveCode | backend/HrayfiConnect_Mobile/artisan-platform/app/models/user_models.py:115-129 | conversely, the first unused record with that email and code is accepted while it has not expired, and the table is kept |
| UserModels.FreshCodeAcceptedUntilExpiry | backend/HrayfiConnect_Mobile/artisan-platform/app/models/user_models.py:94-129 | a code just created is accepted at every instant from its creation up to its expiry two minutes later |
| UserModels.VerifyDeletesExpired | backend/HrayfiConnect_Mobile/artisan-platform/app/models/user_models.py:125-127 | a matching but expired code is refused and deleted from the table |
| UserModels.UsedCodeIsRejected | backend/HrayfiConnect_Mobile/artisan-platform/app/models/user_models.py:113-136 | once a verified code is marked used it never verifies again, at any later time |
| UserModels.CleanupDeletesExactlyExpired | backend/HrayfiConnect_Mobile/artisan-platform/app/models/user_models.py:138-143 | cleanup keeps exactly the records that expire at now or later |
| UserModels.FilterKeepsValid | backend/HrayfiConnect_Mobile/artisan-platform/app/models/user_models.py:106-107 | deleting records keeps the table valid |
| UserModels.AppendKeepsValid | backend/HrayfiConnect_Mobile/artisan-platform/app/models/user_models.py:109-110 | inserting a record with a fresh id and email keeps the table valid |
| UserEndpoints.GetOfType | backend/HrayfiConnect_Mobile/artisan-platform/app/api/v1/endpoints/users.py:29-39 | an account is answered exactly when it exists with the route's type, otherwise 404 |
| UserEndpoints.UpdateProfile | backend/HrayfiConnect_Mobile/artisan-platform/app/api/v1/endpoints/users.py:41-63 | a refusal is 403, 404, 422 or 500 and changes nothing; an update happens only for a valid body, from the account itself or an admin, on an account of the route's type |
| UserEndpoints.UpdateProfileRule | backend/HrayfiConnect_Mobile/artisan-platform/app/api/v1/endpoints/users.py:41-63 | 422 for an invalid body, then 403 unless the caller is that account or an admin, then 404 unless it exists with the route's type; past those guards the update succeeds exactly when the password can be prepared, else 500; an update sets exactly the sent fields, hashes a sent password, keeps its type and verification flag and every other account |
| UserEndpoints.DeleteClient | backend/HrayfiConnect_Mobile/artisan-platform/app/api/v1/endpoints/users.py:65-83 | a refusal is 403, 404 or 500 and changes nothing; a deletion, at the request of the account itself or an admin, removes exactly one account |
| UserEndpoints.DeleteClientRule | backend/HrayfiConnect_Mobile/artisan-platform/app/api/v1/endpoints/users.py:65-83 | deletion succeeds exactly for the account itself or an admin on an existing account, removing exactly it; 403 and 404 otherwise, with nothing changed |
| UserEndpoints.VerifiedOnly | backend/HrayfiConnect_Mobile/artisan-platform/app/api/v1/endpoints/users.py:99-100 | with a value the filter keeps exactly the artisans whose flag equals it; without one it keeps all |
| UserEndpoints.ListArtisans | backend/HrayfiConnect_Mobile/artisan-platform/app/api/v1/endpoints/users.py:85-106 | when a verification flag is asked for, every listed artisan has it |
| UserEndpoints.ListArtisansRule | backend/HrayfiConnect_Mobile/artisan-platform/app/api/v1/endpoints/users.py:85-106 | every listed account is a stored active artisan, with a matching trade when one is asked and the requested flag when one is given, at most `limit` of them |
| UserEndpoints.FirstByIdSpec | backend/HrayfiConnect_Mobile/artisan-platform/app/api/v1/endpoints/users.py:222-229 | de-duplication keeps the first account of each id, in order, with the same set of ids |
| UserEndpoints.FirstByIdConcat | backend/HrayfiConnect_Mobile/artisan-platform/app/api/v1/endpoints/users.py:222-229 | de-duplicating two lists keeps the first list's de-duplication in front, followed only by accounts of the second whose ids the first lacks |
| UserEndpoints.DistinctById | backend/HrayfiConnect_Mobile/artisan-platform/app/api/v1/endpoints/users.py:222-229 | the loop over the combined list gives its de-duplication by id |
| UserEndpoints.SearchArtisans | backend/HrayfiConnect_Mobile/artisan-platform/app/api/v1/endpoints/users.py:205-241 | both criteria give the de-duplicated union of the trade and location results, one criterion its own result, none the page of artisans |
| UserEndpoints.CombinedSearchRule | backend/HrayfiConnect_Mobile/artisan-platform/app/api/v1/endpoints/users.py:216-229 | the combined search has distinct ids, every trade match first in order, then only location matches not already listed, and the union of both id sets |
| UserEndpoints.FirstByIdDistinct | backend/HrayfiConnect_Mobile/artisan-platform/app/api/v1/endpoints/users.py:222-229 | a list whose ids are already distinct is kept as it is |
| UserEndpoints.IdentityDocuments | backend/HrayfiConnect_Mobile/artisan-platform/app/api/v1/endpoints/users.py:263 | stored documents read as a dictionary, absent or null as empty, and anything else as unreadable |
| UserEndpoints.VerifyArtisan | backend/HrayfiConnect_Mobile/artisan-platform/app/api/v1/endpoints/users.py:144-164 | a refusal is 403 or 404 and changes nothing; only an admin verifies, and only an existing artisan |
| UserEndpoints.VerifyArtisanAsWritten | backend/HrayfiConnect_Mobile/artisan-platform/app/api/v1/endpoints/users.py:243-271 | a refusal is 400, 403, 404 or 500 and changes nothing; a verification needs an admin, an existing artisan and a stored dictionary of documents holding all three |
| UserEndpoints.VerifyArtisanRule | backend/HrayfiConnect_Mobile/artisan-platform/app/api/v1/endpoints/users.py:243-271 | 403 for a non-admin, 404 unless the target is an artisan; verification succeeds exactly when all three documents are present, and marks only that artisan verified; the first handler agrees whenever the documents are complete |
| UserEndpoints.NullDocumentsAnswer500 | backend/HrayfiConnect_Mobile/artisan-platform/app/api/v1/endpoints/users.py:263-264 | an artisan stored with a null identity_document makes the code as written answer 500, where the corrected handler answers 400 |
| UserEndpoints.ProfileData | backend/HrayfiConnect_Mobile/artisan-platform/app/api/v1/endpoints/users.py:168-195 | the profile data has the client, artisan or admin field set, each copied from the account, is_verified defaulting to false, and nothing for another type |
| UserEndpoints.GetUserProfile | backend/HrayfiConnect_Mobile/artisan-platform/app/api/v1/endpoints/users.py:166-202 | the profile is answered exactly when the type, email and phone are stored as text, with the account's id, type and profile data; otherwise 500 |
| UploadEndpoints.StoreField | backend/HrayfiConnect_Mobile/artisan-platform/app/api/v1/endpoints/upload.py:48-51 | storing one non-password field on the signed-in account sets exactly that field on that account, and the caller stays signed in with the new value |
| UploadEndpoints.UploadProfilePicture | backend/HrayfiConnect_Mobile/artisan-platform/app/api/v1/endpoints/upload.py:20-56 | a file above 5 MiB is 400 and changes nothing; otherwise the upload's url becomes the account's profile_picture and the upload is answered |
| UploadEndpoints.DeleteProfilePicture | backend/HrayfiConnect_Mobile/artisan-platform/app/api/v1/endpoints/upload.py:58-99 | 404 without a truthy picture, with nothing changed; otherwise profile_picture is set to null |
| UploadEndpoints.UploadPictureAnswerAsWritten | backend/HrayfiConnect_Mobile/artisan-platform/app/api/v1/endpoints/upload.py:29-51 | as written: 400 above 5 MiB, 500 once the account already has a truthy picture, and the upload is answered only for an account without one |
| UploadEndpoints.UploadProfilePictureAsWritten | backend/HrayfiConnect_Mobile/artisan-platform/app/api/v1/endpoints/upload.py:20-56 | as written: the answer above; a failure leaves every account unchanged, a success sets profile_picture to the upload's url |
| UploadEndpoints.DeletePictureAnswerAsWritten | backend/HrayfiConnect_Mobile/artisan-platform/app/api/v1/endpoints/upload.py:64-76 | as written: 404 without a truthy picture, 500 with one |
| UploadEndpoints.DeleteProfilePictureAsWritten | backend/HrayfiConnect_Mobile/artisan-platform/app/api/v1/endpoints/upload.py:58-99 | as written: the answer above, and no account ever changes |
| UploadEndpoints.ReplacingPictureAnswers500 | backend/HrayfiConnect_Mobile/artisan-platform/app/api/v1/endpoints/upload.py:41-44 | an account with a picture that uploads a one-byte file is answered 500 as written |
| UploadEndpoints.DeletingPictureNeverSucceeds | backend/HrayfiConnect_Mobile/artisan-platform/app/api/v1/endpoints/upload.py:64-76 | as written, deleting a profile picture fails for every caller |
| UploadEndpoints.UploadIdentityDocument | backend/HrayfiConnect_Mobile/artisan-platform/app/api/v1/endpoints/upload.py:101-161 | 403 for a non-artisan, 400 for a type other than cin_recto, cin_verso and photo, 400 above 5 MiB; a success sets only that document's key, keeps the others and reads absent or null documents as empty |
| UploadEndpoints.GetIdentityDocuments | backend/HrayfiConnect_Mobile/artisan-platform/app/api/v1/endpoints/upload.py:163-196 | admin only; 404 unless the target is an artisan; each document is answered exactly as stored, none when it is absent or null, and an artisan without documents has all three none; the answer succeeds exactly when the stored documents are a dictionary, null or absent and each of the three is absent, null or text, and is 500 otherwise |
| UploadEndpoints.PortfolioOf | backend/HrayfiConnect_Mobile/artisan-platform/app/api/v1/endpoints/upload.py:228 | a missing portfolio reads as empty, a stored list as its items, anything else as unreadable |
| UploadEndpoints.UploadPortfolioImage | backend/HrayfiConnect_Mobile/artisan-platform/app/api/v1/endpoints/upload.py:198-247 | 403 for a non-artisan, 400 above 5 MiB; a success appends exactly one entry at the end and answers the new length |
| UploadEndpoints.DeletePortfolioImage | backend/HrayfiConnect_Mobile/artisan-platform/app/api/v1/endpoints/upload.py:249-299 | 403 for a non-artisan, 404 for an index outside the portfolio; a success removes exactly that entry, keeps the others in order and answers the new length |
| UploadEndpoints.UploadsOfSpec | backend/HrayfiConnect_Mobile/artisan-platform/app/api/v1/endpoints/upload.py:326-339 | the batch uploads one file for each file within 5 MiB, and only those |
| UploadEndpoints.UploadMultiplePortfolioImages | backend/HrayfiConnect_Mobile/artisan-platform/app/api/v1/endpoints/upload.py:301-353 | 403 for a non-artisan, 400 without files; the loop skips oversized files, appends one entry per uploaded file in order and answers the new length, the old length plus the files within the limit |
| UploadEndpoints.GetPortfolio | backend/HrayfiConnect_Mobile/artisan-platform/app/api/v1/endpoints/upload.py:355-374 | artisans only; the answer is the stored portfolio with its length, empty when there is none; an artisan is answered exactly when the portfolio is absent or a list, and 500 otherwise |
| Common.NonBlank | backend/HrayfiConnect_Mobile/artisan-platform/app/schemas/review_schemas.py:22 | a text passes the validators' stripped-emptiness test exactly when it has a character that is not white space |
| Common.StripEmptyIffBlank | backend/HrayfiConnect_Mobile/artisan-platform/app/schemas/ticket_schemas.py:35 | a text strips to the empty string exactly when it is all white space |
| Common.CanonicalId | backend/HrayfiConnect_Mobile/artisan-platform/app/models/review_models.py:82 | the canonical spelling of an id has the same length and lower-cases each hexadecimal letter, as the driver's object id does |
| Common.PaddedDecimalRoundTrip | backend/HrayfiConnect_Mobile/artisan-platform/app/models/ticket_models.py:53 | a zero-padded numeral consists of digits, reads back as the number it was made from and is at least as wide as asked |
| Common.PaddedDecimalExactWidth | backend/HrayfiConnect_Mobile/artisan-platform/app/models/ticket_models.py:53 | a number below ten to the width is padded to exactly that width |
| Common.Page | backend/HrayfiConnect_Mobile/artisan-platform/app/models/review_models.py:117 | skip and limit give the window of the sequence starting at skip of at most limit elements, with no limit for 0, and nothing past the end |
| Common.SortByIsSortedPermutation | backend/HrayfiConnect_Mobile/artisan-platform/app/models/review_models.py:117 | sorting by a key orders the elements and keeps exactly the same elements |

## Left out

- Token checking and login (`app/api/v1/endpoints/auth.py`) are left out. Every route takes the caller as the account the token resolved to. For the socket, authentication is an outcome passed in.
- Registration is left out: `UserManager.create_user` and `find_user_by_email` are called only from `auth.py`. The registration validator is modelled.
- Password hashing is foreign cryptography. It is a parameter `hasher`.
- The e-mail service and the random six-digit reset code are left out; a code is any string passed in.
- The image service (`app/utils/cloudinary_service.py`) is foreign. An upload is a parameter function to a url and a public id. Deletions on the service are left out. The url-to-public-id helper that `upload.py` calls is not defined by the service; the as-written picture routes answer 500 where it is reached (see Findings), and `UploadProfilePicture` and `DeleteProfilePicture` model the routes as intended, with the old image's removal from the service left out. The service's own refusals are not modelled either: `upload` is total, so UploadProfilePicture, UploadIdentityDocument, UploadPortfolioImage and UploadMultiplePortfolioImages promise success for every file within 5 MiB. The service refuses a file whose content type is not an image (`cloudinary_service.py:15-19`), and its broad `except` (`cloudinary_service.py:47-51`) turns that 400, like a service error, into 500.
- Asynchrony is left out. Each handler call is one atomic step over the manager's state, so sockets cannot interleave within a call. Socket I/O and JSON serialisation are left out beyond frame type and fields.
- The clock is a parameter. A multiple upload uses one timestamp for all its entries. Dates are integers on one UTC time line, and ISO-8601 text is not modelled.
- The average rating is a parameter `average`, so floating-point means and `round(…, 1)` are left out.
- Database query semantics are simplified:
  - the case-insensitive `$regex` match is a parameter `regex`;
  - a sort on a timestamp keeps equal stamps in their stored order, which is one of the orders the database may return;
  - a `booking_id` sent as a dictionary, which the database would read as an operator, is not modelled.
- Response-model coercion by FastAPI is simplified. The detailed ticket and review routes answer 500 when an entry lacks a part its response model requires, and otherwise the entries unchanged.
- BookingEndpoints.AllBookings, BookingEndpoints.MyBookings and BookingEndpoints.GetBooking answer the detailed entries as assembled. The check `BookingDetailedResponse` makes of an attached client or artisan (for instance an artisan without `trade`, which would answer 500) is not modelled.
- ChatRest.MyConversations answers the summaries as assembled. The check `Conversation` makes of the other user's fields and of the last message is not modelled.
- Portfolio items are answered as stored: a list of entry dictionaries, where the response model declares strings.
- Route registration order is left out. Both `verify_artisan` handlers on the same path are modelled, although the first one shadows the second.
- UserEndpoints.SearchArtisans and UserEndpoints.CombinedSearchRule model `GET /users/artisans/search` (`users.py:205`), which `GET /users/artisans/{artisan_id}` (`users.py:108`), registered earlier, shadows: a request to it is answered as a lookup of the artisan with id `search`.
- TicketEndpoints.NameText renders a stored list or dictionary name as the empty string, where the f-string would write its `repr`.
- UserSchemas.ValidateProfileUpdate accepts integer text only as an optional sign and digits, with surrounding whitespace. Other text an `int` field may take in lax mode, such as "5.0" or digits with `_` separators, is refused by the model. JSON numbers with a fraction are not values of the model.
- Wiring with no logic is left out: `database.py`, `config.py` and the `debug_routes` listing of `bookings.py`.
- Database failures (a failing `count_documents`, or the error branch of the statistics) are left out, and so is the timestamp fallback of the ticket number. The model takes the path where the database answers.
- `find_bookings_by_client`, `find_bookings_by_artisan` and `find_all_tickets` are never called by a route, so they are left out.
- In the booking, ticket and review update bodies a sent field holds a value; only a booking's address may be sent as null. Any other field sent explicitly as null is not modelled.
- An uploaded file whose size is unknown is not modelled. Every file has a size.
- `EmailStr` address syntax is not checked; e-mail addresses are plain strings.
- A stored portfolio that is not a list is answered 500 by every portfolio route.
- The REST `send_message` stores a message but broadcasts nothing on the socket, and the model matches that. The `receiver_type` field of a message is not modelled.
- `ChatModels` `get_unread_count` has no member of its own. It appears as `UnreadCount`, through the mark-read lemmas and the chat statistics.
- `UserModels.UserStore.ListUsers`: `skip` and `limit` are natural numbers. The negative values the listing routes would pass to the database are not modelled.
- `ReviewModels.ReviewStore.GetArtisanRatingStats` is the whole of the review statistics route. It has no endpoint member of its own.

## Findings

| source | as written | input that shows it | evidently intended | confidence | as-written member | corrected member |
|---|---|---|---|---|---|---|
| backend/HrayfiConnect_Mobile/artisan-platform/app/api/v1/websockets/chat.py:31-35 | `disconnect` deletes an emptied room from `booking_rooms` while iterating over it. The next iteration step raises, so later rooms keep the user. | a user alone in two rooms disconnects | every room loses the user and every emptied room is deleted | high (proved on the model; not executed) | ChatRooms.PartialCleanup, ChatRooms.DisconnectLeavesUserBehind | ChatRooms.Purged, ChatRooms.PurgedSpec, ChatRooms.ConnectionManager.Disconnect |
| backend/HrayfiConnect_Mobile/artisan-platform/app/api/v1/websockets/chat.py:68-74 | a broadcast iterates the live member list, and a failed send removes that member from it, so the next member is skipped | room [a, f, c], f's socket dead, a excluded: c receives nothing | every live member other than the sender receives the frame | high (proved on the model; not executed) | ChatRooms.BroadcastAsWritten, ChatRooms.BroadcastSkipsNextMember | ChatRooms.BroadcastSpec, ChatRooms.ConnectionManager.BroadcastToBooking |
| backend/HrayfiConnect_Mobile/artisan-platform/app/api/v1/endpoints/bookings.py:150-182 | the 404 and 403 that `get_booking` raises inside its `try` are caught by `except Exception` and answered as 500 | a well-formed id of a missing booking | 404 for a missing booking, 403 for a non-participant | high (proved on the model; not executed) | BookingEndpoints.GetBookingAsWrittenHidesGuards, BookingEndpoints.GetBookingMissingIs500 | BookingEndpoints.GetBookingGuards |
| backend/HrayfiConnect_Mobile/artisan-platform/app/models/ticket_models.py:48-53 | the ticket number is the count of stored tickets plus one, so a deletion makes the next ticket reuse a number still in use | tickets numbered from counts 0 and 1; the first is deleted; a new ticket on the same day | ticket numbers unique | medium (the docstring calls the number unique; not executed) | TicketModels.DeletionReusesTicketNumber | TicketModels.TicketStore.CreateTicket, TicketModels.NumberingAfterCreate, TicketModels.TicketNumberInjective |
| backend/HrayfiConnect_Mobile/artisan-platform/app/models/review_models.py:26-29 | the duplicate check compares the raw `booking_id` string, while the booking lookup accepts any letter case of the hex id | a second review of a booking whose id is sent in upper case | one review per client and booking | high (proved on the model; not executed) | ReviewModels.ReviewTwiceThroughSpelling, ReviewModels.SecondReviewThroughLetterCase | ReviewModels.CreateOutcomeSpec |
| backend/HrayfiConnect_Mobile/artisan-platform/app/models/review_models.py:64-73 | when the last review of an artisan is deleted, the aggregate is empty and nothing is written, so the account keeps its old `review_count` | an artisan with one review, which is then deleted | `review_count` equals the number of the artisan's reviews | high (proved on the model; not executed) | ReviewModels.LastReviewLeavesStaleCount | ReviewModels.RefreshRatingSpec |
| backend/HrayfiConnect_Mobile/artisan-platform/app/api/v1/endpoints/upload.py:41-76 | `extract_public_id_from_url` is not a member of the image service, so replacing a profile picture and deleting one both raise and answer 500 | a signed-in account whose profile_picture is a url uploads a new picture, or deletes it | the new url is stored, or the picture is set to null | high (the service class defines only `upload_image` and `delete_image`; not executed) | UploadEndpoints.UploadProfilePictureAsWritten, UploadEndpoints.ReplacingPictureAnswers500, UploadEndpoints.DeleteProfilePictureAsWritten, UploadEndpoints.DeletingPictureNeverSucceeds | UploadEndpoints.UploadProfilePicture, UploadEndpoints.DeleteProfilePicture |
| backend/HrayfiConnect_Mobile/artisan-platform/app/api/v1/endpoints/users.py:263-268 | `artisan.get("identity_document", {})` returns a stored null, and `.get` on it raises, giving 500 | an admin verifies an artisan whose `identity_document` is null, if the handler at `users.py:243` were served; the earlier handler at `users.py:144` on the same path answers that request, so the defect is latent | 400: the artisan has not provided the documents | medium (latent: the handler is shadowed; proved on the model; not executed) | UserEndpoints.NullDocumentsAnswer500 | UserEndpoints.VerifyArtisanRule |
