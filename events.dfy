/**
 * The records that travel between the browser clients and the socket hub:
 * the chat message record, a drawing stroke sample, the new-drawing notice,
 * and the two event vocabularies (client to hub, hub to client).
 */
module Events {
  import opened Wrappers

  type ChatId = string
  type UserId = string
  type MessageId = string

  /**
   * A chat message as the clients hold and relay it. `chatId` is absent on
   * the optimistic copy a sender shows before the server confirms it;
   * `pending` and `failed` are the optimistic-send flags (absent, so false,
   * on messages that came from the server or the hub).
   */
  datatype Message = Message(
    id: MessageId,
    chatId: Option<ChatId>,
    senderId: UserId,
    senderName: string,
    senderAvatar: Option<string>,
    content: string,
    isDrawing: bool,
    createdAt: int,
    pending: bool,
    failed: bool)

  /** The phase of a freehand stroke a sample belongs to. */
  datatype StrokeKind = Start | Move | End

  /** One stroke sample; coordinates are whole pixels here. */
  datatype DrawPoint = DrawPoint(x: int, y: int, color: string, size: int, kind: StrokeKind)

  /** The notice a client sends after a drawing was stored as a message. */
  datatype DrawingNotice = DrawingNotice(
    chatId: ChatId,
    messageId: MessageId,
    senderId: UserId,
    senderName: string,
    createdAt: int)

  /** Events a client emits to the hub, one per `socket.on` handler. */
  datatype Inbound =
    | SetUserId(userId: UserId)                               // "set-user-id"
    | JoinChat(joinId: ChatId)                                // "join-chat"
    | LeaveChat(leaveId: ChatId)                              // "leave-chat"
    | NewMessage(message: Message)                            // "new-message"
    | Typing(typingChat: ChatId, typist: UserId, username: string)  // "typing"
    | StopTyping(stopChat: ChatId, stopper: UserId)           // "stop-typing"
    | DrawingPointSent(pointChat: ChatId, point: DrawPoint)   // "drawing-point"
    | ClearCanvas(clearChat: ChatId)                          // "clear-canvas"
    | NewDrawing(notice: DrawingNotice)                       // "new-drawing"

  /** Events the hub emits to a client socket. */
  datatype Outbound =
    | MessageReceived(received: Message)                      // "message-received"
    | UserTyping(typingUser: UserId, typingName: string)      // "user-typing"
    | UserStopTyping(stoppedUser: UserId)                     // "user-stop-typing"
    | DrawingPointRelayed(relayed: DrawPoint)                 // "drawing-point"
    | CanvasCleared                                           // "clear-canvas"
    | NewDrawingRelayed(drawing: DrawingNotice)               // "new-drawing"
}
