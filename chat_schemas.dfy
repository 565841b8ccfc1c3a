/** Request and summary shapes of the chat (app/schemas/chat_schemas.py): the message kinds,
    the validators of a message posted over REST, and the last-message part of a conversation. */
module ChatSchemas {
  import opened Common

  datatype MessageType = Text | Image | File {
    function Name(): string {
      match this
      case Text => "text"
      case Image => "image"
      case File => "file"
    }
  }

  /** Reads the `message_type` field of a body: absent means text, an unknown name is refused. */
  function ParseMessageType(field: Option<string>): (r: Option<MessageType>)
    ensures field.None? ==> r == Some(Text)
    ensures field.Some? ==> (r.Some? <==> field.value in {"text", "image", "file"})
    ensures r.Some? && field.Some? ==> r.value.Name() == field.value
  {
    match field
    case None => Some(Text)
    case Some(name) =>
      if name == "text" then Some(Text)
      else if name == "image" then Some(Image)
      else if name == "file" then Some(File)
      else None
  }

  /** A posted message as it arrives, before validation. */
  datatype MessageBody = MessageBody(
    bookingId: string,
    senderId: string,
    senderType: string,
    receiverId: string,
    content: string,
    messageType: Option<string>)

  /** A posted message that passed the validators. */
  datatype ChatMessageCreate = ChatMessageCreate(
    bookingId: string,
    senderId: string,
    senderType: string,
    receiverId: string,
    content: string,
    messageType: MessageType)

  predicate SenderTypeValid(senderType: string) {
    senderType == CLIENT || senderType == ARTISAN
  }

  /** The `ChatMessageCreate` validators: content not blank once stripped, sender type one of
      the two participant roles, message type one of the three kinds (text by default). */
  function ValidateMessage(body: MessageBody): (r: Outcome<ChatMessageCreate>)
    ensures r.Ok? <==>
      && (exists i | 0 <= i < |body.content| :: !IsSpace(body.content[i]))
      && (body.senderType == "client" || body.senderType == "artisan")
      && (body.messageType.None? || body.messageType.value in {"text", "image", "file"})
    ensures r.Fail? ==> r.code == UNPROCESSABLE
    ensures r.Ok? ==>
      && r.value.bookingId == body.bookingId && r.value.senderId == body.senderId
      && r.value.senderType == body.senderType && r.value.receiverId == body.receiverId
      && r.value.content == body.content
      && (body.messageType.None? ==> r.value.messageType == Text)
      && (body.messageType.Some? ==> r.value.messageType.Name() == body.messageType.value)
  {
    var kind := ParseMessageType(body.messageType);
    if NonBlank(body.content) && SenderTypeValid(body.senderType) && kind.Some? then
      Ok(ChatMessageCreate(body.bookingId, body.senderId, body.senderType, body.receiverId,
                           body.content, kind.value))
    else
      Fail(UNPROCESSABLE)
  }

  /** The `last_message` of a conversation summary; the sender is absent in the placeholder of a
      conversation without messages. The content is a stored value: messages sent over the
      socket are stored without validation. */
  datatype LastMessage = LastMessage(content: Value, createdAt: int, isRead: bool, senderId: Option<string>)

  /** A frame pushed over the socket (`WebSocketMessage`): its `type` and its `data` object. */
  datatype WebSocketMessage = WebSocketMessage(kind: string, data: Doc)

  /** `ChatStats`. */
  datatype ChatStats = ChatStats(totalMessages: nat, unreadMessages: nat, activeConversations: nat)
}
