# DrawChat core, modelled in Dafny

DrawChat is a chat application with a shared drawing board. Its core is made of these parts:

- **The room-broadcast hub** (`lib/socket-server.ts`).
  - It is a Socket.IO server created once per process.
  - It keeps each socket's rooms: `chat:<id>` for an open chat and `user:<id>` for the signed-in user.
  - It relays each client event to one chat room. Depending on the event, it reaches every member or every member but the sending socket.
- **The client components around the hub.**
  - The chat window: the message list, optimistic sending and the typing indicator.
  - The drawing canvas: the undo/redo history and stroke streaming.
  - The chat list in the sidebar.
  - The two user pickers: the "New Chat" dialog and the group participant manager.
- **The server actions** (`app/actions/chat-actions.ts`). They read and write the chat database.
- **The route guard** (`middleware.ts`). It sends signed-out visitors to the login page and signed-in ones away from it.

The model keeps each part in the form of its source.

- **Imperative parts become classes.**
  - The hub is `SocketServer.Hub`. Its room table is a `map` from room name to a set of sockets. Each handler returns the list of (socket, event) deliveries it hands to the transport.
  - The component states are `ChatWindow.Window`, `DrawingCanvas.Canvas`, `NewChatDialog.Dialog` and `GroupParticipant.Manager`.
  - The database is `ChatActions.Store`, with fields for the users, chats, participant pairs, messages and drawings.
- **Expression-level logic becomes functions with lemmas.** This covers the list updaters, the typing text, the sidebar filter and sort, the selection transforms, participant normalisation and the redirect decision.
- **Loops become methods with loop invariants.** These are the fan-out of an event, the typing-indicator names, the message view assembly and the participant inserts.
- **Things the core only calls are parameters.** This covers timers, the clock, fresh ids, encryption and the database's failures.
  - A timer is an explicit "expired" step.
  - A statement that throws is named by a `failAt` parameter. It counts an action's statements from 0 in source order.
  - A transaction works on local copies that are written back only at COMMIT.

Shared pieces:

- `wrappers.dfy`: `Option`.
- `text.dfy`: ASCII trim and case, `split`/`join` with their round trip, and decimal printing.
- `events.dfy`: the event payloads.
- `selection.dfy`: the user-list transforms that both pickers use.

## Model

| member | source | states |
|---|---|---|
| SocketServer.ChatRoomInjective | lib/socket-server.ts:46 | two chats share a room only if they are the same chat |
| SocketServer.ChatRoomIsNoUserRoom | lib/socket-server.ts:40-46 | a `chat:` room is never a `user:` room, so a chat broadcast cannot reach a socket through its user room |
| SocketServer.JoinRoom | lib/socket-server.ts:46 | joining adds exactly the socket to exactly that room; every other room keeps its members; no room is ever left empty |
| SocketServer.LeaveRoom | lib/socket-server.ts:52 | leaving removes exactly the socket from exactly that room; other rooms keep their members; an emptied room disappears |
| SocketServer.JoinIdempotent | lib/socket-server.ts:45-48 | joining a room twice is the same as joining it once |
| SocketServer.JoinMemberIsNoop | lib/socket-server.ts:45-48 | joining a room the socket is already in changes nothing |
| SocketServer.LeaveNonMemberIsNoop | lib/socket-server.ts:51-54 | leaving a room the socket is not in changes nothing |
| SocketServer.LastMembershipOpWins | lib/socket-server.ts:45-54 | after any run of joins and leaves, the socket is in the room iff the last step was a join; other sockets and other rooms are untouched |
| SocketServer.FanOut | lib/socket-server.ts:59 | the event goes once to each socket of the audience and to no other socket (an empty audience gives no delivery) |
| SocketServer.AllButSenderCount | lib/socket-server.ts:65 | a relay to "everyone but the sender" reaches one socket fewer than the room has, and never the sender |
| SocketServer.RoutePolicy | lib/socket-server.ts:38-86 | only the membership events relay nothing; only `new-message` and `new-drawing` come back to the sender; every relay goes to a chat room, never a user room |
| SocketServer.Hub.OnSetUserId | lib/socket-server.ts:38-42 | the socket's user id is recorded; the socket joins `user:<id>`; no chat room changes |
| SocketServer.Hub.OnJoinChat | lib/socket-server.ts:45-48 | the socket is now in `chat:<id>`; if it was already a member, the room table is unchanged |
| SocketServer.Hub.OnLeaveChat | lib/socket-server.ts:51-54 | the socket loses exactly the room `chat:<id>`; leaving a room it was not in changes nothing |
| SocketServer.Hub.OnNewMessage | lib/socket-server.ts:57-60 | the unchanged message goes to every member of the message's chat room, sender included |
| SocketServer.Hub.OnTyping | lib/socket-server.ts:63-66 | `user-typing` with only the user id and name goes to the room's members but the sending socket |
| SocketServer.Hub.OnStopTyping | lib/socket-server.ts:69-71 | `user-stop-typing` with only the user id goes to the room's members but the sending socket |
| SocketServer.Hub.OnDrawingPoint | lib/socket-server.ts:74-76 | only the point (not the chat id) goes to the room's members but the sending socket |
| SocketServer.Hub.OnClearCanvas | lib/socket-server.ts:79-81 | `clear-canvas` with no payload goes to the room's members but the sending socket |
| SocketServer.Hub.OnNewDrawing | lib/socket-server.ts:84-86 | the full drawing notice goes to every member of the room, sender included |
| SocketServer.Hub.Handle | lib/socket-server.ts:34-92 | dispatch by event name: membership events change only the rooms; every other event changes nothing and is relayed by its route |
| SocketServer.Hub.HandleMembership | lib/socket-server.ts:38-54 | `set-user-id`, `join-chat` and `leave-chat` change the user ids and rooms as their handlers say, and keep every room non-empty |
| SocketServer.Hub.Relay | lib/socket-server.ts:57-86 | every relayed event reaches exactly the audience of its route, each socket once |
| SocketServer.SocketModule.GetSocketIO | lib/socket-server.ts:16-31 | an existing server is returned whatever the response is; with none and no response, null is returned and nothing is created; otherwise a fresh server is created, stored and attached to the response |
| SocketServer.GetSocketIOTwice | lib/socket-server.ts:16-21 | a second call returns the instance the first call created |
| ChatWindow.AddIncoming | components/chat-window.tsx:99-105 | the list grows by the message at its end exactly when no message has its id; otherwise it is unchanged; unique ids stay unique |
| ChatWindow.Confirm | components/chat-window.tsx:222 | only messages with the temporary id change, to the confirmed message with `pending` off |
| ChatWindow.MarkFailed | components/chat-window.tsx:229 | only messages with the temporary id change, to themselves marked failed and not pending |
| ChatWindow.Optimistic | components/chat-window.tsx:189-198 | the optimistic copy carries the temporary id and the current user as sender, is pending, not failed and not a drawing |
| ChatWindow.EchoAfterConfirmIsDropped | components/chat-window.tsx:99-105 | the hub's echo of one's own confirmed message is dropped by the id check, so the message does not appear twice |
| ChatWindow.TypingText | components/chat-window.tsx:292-300 | empty for no names, "A is typing..." for one, "A and B are typing..." for two, "N people are typing..." for more |
| ChatWindow.FirstChars | components/chat-window.tsx:241-242 | the first character of each non-empty word, in order |
| ChatWindow.Initials | components/chat-window.tsx:238-245 | at most two characters: the upper-cased first characters of the first space-separated non-empty words |
| ChatWindow.IsSelfChat | components/chat-window.tsx:256 | holds iff the details list exactly one participant and it is the current user |
| ChatWindow.Window.OnMessageReceived | components/chat-window.tsx:96-114 | a message for the open chat is merged by id and its sender stops showing as typing; any other message changes nothing |
| ChatWindow.Window.OnUserTyping | components/chat-window.tsx:117-124 | another user's typing is recorded under their id; the current user's own echo is ignored |
| ChatWindow.Window.OnUserStopTyping | components/chat-window.tsx:127-133 | exactly that user's entry is removed |
| ChatWindow.Window.TypingIndicator | components/chat-window.tsx:292-300 | the names are the map's values, one per typing user, in the order of a ghost enumeration `keys` of the map's keys without repeats; the text is TypingText of them, and it is empty exactly when nobody is typing |
| ChatWindow.Window.HandleTyping | components/chat-window.tsx:152-169 | `typing` is emitted only on the idle-to-typing change with a chat open; the stop timer is always re-armed |
| ChatWindow.Window.TypingTimerExpired | components/chat-window.tsx:164-169 | with a chat open the state goes back to idle and `stop-typing` is emitted; otherwise nothing happens |
| ChatWindow.Window.BeginSend | components/chat-window.tsx:172-203 | a blank draft or no open chat changes nothing; otherwise the timer is cleared, `stop-typing` is emitted, one pending message is appended and the draft is cleared |
| ChatWindow.Window.CompleteSend | components/chat-window.tsx:205-235 | success confirms the temporary message and broadcasts the confirmed one; failure or a throw marks it failed and emits nothing |
| ChatWindow.CountTypingAppend | components/chat-window.tsx:152-156 | `typing` events in a joined run of emits add up |
| ChatWindow.TypingBurst | components/chat-window.tsx:152-170 | any burst of input emits `typing` at most once, and not at all when already typing |
| DrawingCanvas.Init | components/drawing-canvas.tsx:97-108 | a history with a current entry is kept; otherwise it becomes just the blank canvas at index 0 |
| DrawingCanvas.Undo | components/drawing-canvas.tsx:291-302 | one entry back with the list unchanged; nothing at the first entry; the index stays in range |
| DrawingCanvas.Redo | components/drawing-canvas.tsx:304-315 | one entry forward with the list unchanged; nothing at the last entry; the index stays in range |
| DrawingCanvas.Commit | components/drawing-canvas.tsx:266-273 | the entries after the current one are dropped, the new snapshot is appended and becomes current |
| DrawingCanvas.RemoteEnd | components/drawing-canvas.tsx:143-153 | a remote stroke's end advances the index by one and keeps it in range |
| DrawingCanvas.AppendCleared | components/drawing-canvas.tsx:328-331 | the cleared snapshot is appended to the whole list (redo entries kept) and becomes current |
| DrawingCanvas.RedoUndoes | components/drawing-canvas.tsx:291-315 | redo after undo restores the history |
| DrawingCanvas.UndoRedoes | components/drawing-canvas.tsx:291-315 | undo after redo restores the history |
| DrawingCanvas.CommitDropsRedo | components/drawing-canvas.tsx:269-273 | after a stroke there is nothing to redo, and undo shows the entry current before the stroke |
| DrawingCanvas.RemoteEndIsCommit | components/drawing-canvas.tsx:143-153 | on a valid history a remote stroke's end has the same effect as a local one |
| DrawingCanvas.UndoAfterClear | components/drawing-canvas.tsx:328-331 | a clear keeps every older entry; undo right after it returns to the entry shown before the clear iff there was nothing to redo |
| DrawingCanvas.Canvas.Resize | components/drawing-canvas.tsx:89-108 | the history gets a current entry, which is what is shown |
| DrawingCanvas.Canvas.HandleUndo | components/drawing-canvas.tsx:291-302 | the history steps back as `Undo` says, and the restored entry is the new current one |
| DrawingCanvas.Canvas.HandleRedo | components/drawing-canvas.tsx:304-315 | the history steps forward as `Redo` says, and the restored entry is the new current one |
| DrawingCanvas.Canvas.StartDrawing | components/drawing-canvas.tsx:164-211 | with a chat open, drawing starts and a `start` sample in the current colour and size is emitted if connected; otherwise nothing happens |
| DrawingCanvas.Canvas.Draw | components/drawing-canvas.tsx:213-252 | a `move` sample is emitted only while drawing in an open chat, and only when connected |
| DrawingCanvas.Canvas.StopDrawing | components/drawing-canvas.tsx:254-288 | while drawing in an open chat: drawing stops, the snapshot is committed and an `end` sample at (0, 0) is emitted; otherwise nothing changes |
| DrawingCanvas.Canvas.HandleClear | components/drawing-canvas.tsx:318-337 | the cleared snapshot is appended to the history; `clear-canvas` is emitted only in an open chat while connected |
| DrawingCanvas.Canvas.OnRemotePoint | components/drawing-canvas.tsx:120-160 | only a remote `end` in an open chat changes the history, as `RemoteEnd` says |
| DrawingCanvas.Canvas.BeginSendDrawing | components/drawing-canvas.tsx:352-358 | with no chat open nothing is sent; otherwise sending starts for the open chat |
| DrawingCanvas.Canvas.CompleteSendDrawing | components/drawing-canvas.tsx:377-414 | on success the canvas is cleared and only then `new-drawing` with the stored id and time is emitted; on failure only the sending flag changes |
| DrawingCanvas.StrokeGate | components/drawing-canvas.tsx:164-288 | no `move` sample before `start` or after `end`; between them each move emits exactly one `move` sample |
| ChatSidebar.SetLastMessage | components/chat-sidebar.tsx:39-57 | only the entries whose id equals the event's chat id get the new last message and update time; the others are unchanged |
| ChatSidebar.OnMessageReceived | components/chat-sidebar.tsx:38-58 | the list keeps its length, ids and names; the addressed chat's last message is built from the message's fields |
| ChatSidebar.OnNewDrawing | components/chat-sidebar.tsx:61-81 | the addressed chat's last message reads "Sent a drawing", is a drawing, and carries the event's id, sender and time; other chats are unchanged |
| ChatSidebar.UnknownChatIgnored | components/chat-sidebar.tsx:40-56 | an event for a chat not in the list leaves the list as it was |
| ChatSidebar.FilterByName | components/chat-sidebar.tsx:93-94 | exactly the chats whose lower-cased name contains the lower-cased query (order and multiplicity: FilterDistributes) |
| ChatSidebar.FilterDistributes | components/chat-sidebar.tsx:93-94 | filtering distributes over concatenation; with FilterSingle, the result is the matching chats in list order, each as often as listed |
| ChatSidebar.FilterSingle | components/chat-sidebar.tsx:93-94 | one chat is kept exactly when it matches |
| ChatSidebar.EmptyQueryKeepsAll | components/chat-sidebar.tsx:93-94 | the empty query keeps every chat, in order |
| ChatSidebar.StepwiseIsNewestFirst | components/chat-sidebar.tsx:95-100 | ordered neighbours imply that the whole list is newest first |
| ChatSidebar.InsertByRecency | components/chat-sidebar.tsx:95-100 | inserting into a newest-first list keeps it newest first and adds exactly the one chat |
| ChatSidebar.SortByRecency | components/chat-sidebar.tsx:95-100 | the result is newest first by last message time (else update time) and a permutation of the input |
| ChatSidebar.Shown | components/chat-sidebar.tsx:93-100 | the shown list holds exactly the matching chats, each as often as in the filtered list, newest first |
| ChatSidebar.NoChatsFound | components/chat-sidebar.tsx:156-157 | "No chats found" is shown iff no chat's name matches |
| Selection.ErrorText | components/new-chat-dialog.tsx:82 | a non-empty message wins; an absent or empty one gives the fallback |
| Selection.Ids | components/new-chat-dialog.tsx:154 | the ids of the users, position by position |
| Selection.SelectUser | components/new-chat-dialog.tsx:54-60 | the user is appended only if no selected user has its id |
| Selection.SelectKeepsUnique | components/new-chat-dialog.tsx:54-60 | selecting keeps ids unique and leaves the user's id selected |
| Selection.SelectIdempotent | components/new-chat-dialog.tsx:54-60 | selecting the same user twice equals selecting it once |
| Selection.RemoveById | components/new-chat-dialog.tsx:63-65 | exactly the users with other ids remain, so the id is gone |
| Selection.RemoveAbsentIsIdentity | components/new-chat-dialog.tsx:63-65 | removing an id that is not selected changes nothing |
| Selection.ExcludeDistributes | components/group-participant.tsx:35 | the filter distributes over concatenation; with ExcludeSingle, the result is the non-participant hits in search order |
| Selection.ExcludeSingle | components/group-participant.tsx:35 | one hit is kept exactly when its id is no participant's |
| Selection.RemoveDistributes | components/new-chat-dialog.tsx:63-65 | removal keeps the order of the rest: it distributes over concatenation |
| Selection.RemoveUndoesSelect | components/new-chat-dialog.tsx:54-65 | removing a freshly selected user gives back the earlier selection |
| Selection.RemoveKeepsUnique | components/group-participant.tsx:65-67 | removal keeps ids unique |
| Selection.ExcludeParticipants | components/group-participant.tsx:35 | exactly the hits whose id is no participant's id (order and multiplicity: ExcludeDistributes) |
| NewChatDialog.ValidateGroup | components/new-chat-dialog.tsx:130-154 | an empty selection is refused first, then a blank name; otherwise the form carries the name, "true" and ids that split back to the selection |
| NewChatDialog.PayloadRoundTrip | components/new-chat-dialog.tsx:154 | for comma-free ids, splitting the joined ids on "," gives the ids back |
| NewChatDialog.EnabledButtonPassesValidation | components/new-chat-dialog.tsx:360 | an enabled Create Group button always passes validation, and a disabled one that is not loading never does |
| NewChatDialog.Dialog.SearchTimerFired | components/new-chat-dialog.tsx:36-51 | a search runs iff the trimmed query has at least 2 characters; a short query or a refusal empties the results; a throw keeps them |
| NewChatDialog.Dialog.HandleSelectUser | components/new-chat-dialog.tsx:54-60 | the selection becomes `SelectUser` of the old one, ids stay unique, and the query is cleared |
| NewChatDialog.Dialog.HandleRemoveUser | components/new-chat-dialog.tsx:63-65 | the selection loses exactly that id and stays unique |
| NewChatDialog.Dialog.BeginCreate | components/new-chat-dialog.tsx:68-70 | loading starts before the direct or self chat is requested |
| NewChatDialog.Dialog.BeginCreateGroupChat | components/new-chat-dialog.tsx:130-150 | a failed check shows its toast and sends nothing; otherwise loading starts and the form is sent |
| NewChatDialog.Dialog.CompleteCreate | components/new-chat-dialog.tsx:70-95 | success closes the dialog and navigates to `/chat?id=<id>`; a refusal shows its message or the fallback; a throw shows the generic error; loading always ends |
| NewChatDialog.Dialog.HandleOpenChange | components/new-chat-dialog.tsx:184-193 | closing resets the query, results, selection, name and tab; opening changes nothing else |
| GroupParticipant.RemoveControls | components/group-participant.tsx:145-180 | a remove control for every participant but the current user, and none when the chat is not a group |
| GroupParticipant.RemoveControlsExceptSelf | components/group-participant.tsx:177-180 | in a group, the controls number the participants minus the entries of the current user |
| GroupParticipant.Manager.HandleSearch | components/group-participant.tsx:28-53 | a short query does nothing; found users minus current participants become the results; a refusal empties them with its message; a throw keeps them |
| GroupParticipant.Manager.HandleSelectUser | components/group-participant.tsx:56-62 | the user is added if absent by id, and the query and results are cleared |
| GroupParticipant.Manager.HandleRemoveSelectedUser | components/group-participant.tsx:65-67 | the selection loses exactly that id |
| GroupParticipant.Manager.BeginRemoveUser | components/group-participant.tsx:107-110 | loading starts and the removal request names exactly the given user |
| GroupParticipant.Manager.BeginAddUsers | components/group-participant.tsx:70-77 | an empty selection sends nothing; otherwise loading starts and the selected ids are sent |
| GroupParticipant.Manager.CompleteAddUsers | components/group-participant.tsx:78-104 | success closes the dialog and clears the selection; a refusal or throw keeps both and shows its message |
| GroupParticipant.Manager.CompleteRemoveUser | components/group-participant.tsx:107-134 | each outcome gives its own toast, and loading ends |
| ChatActions.Caller | app/actions/chat-actions.ts:74-78 | a caller exists iff the `user_id` cookie is present and non-empty, and it is the cookie's value |
| Text.DropEmpty | app/actions/chat-actions.ts:83 | exactly the non-empty parts (order and multiplicity: DropEmptyDistributes) |
| Text.DropEmptyDistributes | app/actions/chat-actions.ts:83 | `filter(Boolean)` distributes over concatenation; with DropEmptySingle, the result is the non-empty parts in input order |
| Text.DropEmptySingle | app/actions/chat-actions.ts:83 | one part is kept exactly when it is non-empty |
| Text.DropEmptyKeepsNonEmpty | app/actions/chat-actions.ts:83 | parts that are all non-empty are kept as they are |
| ChatActions.ParticipantList | app/actions/chat-actions.ts:83-88 | exactly the non-empty split ids (in input order, by DropEmptyDistributes) when the caller is among them, and exactly those ids followed by one caller otherwise; no id is empty for a non-empty caller |
| ChatActions.GroupFormParticipants | app/actions/chat-actions.ts:83-88 | the dialog's group form arrives as the selected ids, plus the caller when not selected |
| ChatActions.ShownContent | app/actions/chat-actions.ts:291 | a drawing message reads "Sent a drawing"; any other message reads as its decrypted text |
| ChatActions.RowsOf | app/actions/chat-actions.ts:281-287 | exactly the chat's messages whose sender is a known user (order and multiplicity: RowsOfDistributes) |
| ChatActions.RowsOfDistributes | app/actions/chat-actions.ts:281-287 | the join distributes over concatenation; with RowsOfSingle, the rows stay in stored order |
| ChatActions.RowsOfSingle | app/actions/chat-actions.ts:281-287 | one row is kept exactly when it belongs to the chat and its sender is a known user |
| ChatActions.BaseView | app/actions/chat-actions.ts:290-302 | a view carries the row's id, sender and drawing flag, the shown content, and no drawing data |
| ChatActions.WithDrawing | app/actions/chat-actions.ts:317-324 | drawing data is attached only to a drawing message that has a drawings row; nothing else changes |
| ChatActions.ChatViews | app/actions/chat-actions.ts:291-325 | one view per row, in order, with content and drawing data as the two functions above say |
| ChatActions.CollectViews | app/actions/chat-actions.ts:281-302 | the loop yields the base view of each of the chat's rows |
| ChatActions.AttachDrawings | app/actions/chat-actions.ts:304-325 | the loop leaves every view as `WithDrawing` says |
| ChatActions.BaseViews | app/actions/chat-actions.ts:290-302 | one base view per row, in order |
| ChatActions.InsertParticipants | app/actions/chat-actions.ts:103-108 | the inserts fail iff one of their statements throws; otherwise exactly the given users become participants of the chat |
| ChatActions.AddMissingParticipants | app/actions/chat-actions.ts:536-548 | users are inserted only when absent; the loop fails iff one of its steps throws; otherwise the participants gain exactly the given users |
| ChatActions.NewChatMembers | app/actions/chat-actions.ts:90-115 | a new chat with its participant rows keeps the store consistent, and its members are exactly the listed users |
| ChatActions.Store.Members | app/actions/chat-actions.ts:459-465 | a user is a member of the chat iff the participant pair is stored |
| ChatActions.Store.CreateChat | app/actions/chat-actions.ts:73-122 | unauthenticated: refused and nothing changes; any failing statement rolls everything back; otherwise one chat with exactly the normalised participants is stored |
| ChatActions.Store.CreateDirectChat | app/actions/chat-actions.ts:125-192 | unknown users are refused; an existing direct chat of the two is returned with `existing` and nothing changes; otherwise a chat named after the other user with exactly the two of them, or a full rollback |
| ChatActions.Store.CreateSelfChat | app/actions/chat-actions.ts:195-260 | an existing "<username> (You)" chat of the caller alone is returned with `existing`; otherwise one such chat with the caller as only member, or a full rollback |
| ChatActions.Store.GetChatMessages | app/actions/chat-actions.ts:263-332 | refusals in order (not signed in, query failure, not a participant), else the views of the chat's messages |
| ChatActions.Store.SendTextMessage | app/actions/chat-actions.ts:335-380 | the statements as written: a failing chat update leaves the message stored but answers failure |
| ChatActions.Store.SendTextMessageAtomic | app/actions/chat-actions.ts:335-380 | a non-participant is refused before any write; a failure stores nothing; success stores exactly the encrypted message and bumps the chat's time |
| ChatActions.TextSendFailureExample | app/actions/chat-actions.ts:358-368 | with the chat update failing, the written version reports failure with one message stored; the atomic one stores none |
| ChatActions.Store.SendDrawingMessage | app/actions/chat-actions.ts:383-447 | a non-participant is refused; an unparsable drawing or any failure rolls everything back; success stores the "Sent a drawing" message, its drawing and the chat's new time |
| ChatActions.Store.GetChatDetails | app/actions/chat-actions.ts:450-499 | refusals in source order; "Chat not found" cannot happen on a consistent store; otherwise the chat row and its participants who are known users |
| ChatActions.Store.AddUsersToChat | app/actions/chat-actions.ts:502-561 | checks in order: participation, chat existence, group; each user is added only if absent, so participants stay a set; a failure rolls back |
| ChatActions.Store.RemoveUserFromChat | app/actions/chat-actions.ts:564-606 | checks in order: participation, existence, group; then exactly that pair is removed; a failure changes nothing |
| Middleware.Decide | middleware.ts:4-30 | a login redirect always carries the request URL as its callback |
| Middleware.Guard | middleware.ts:13-35 | the login redirect happens iff the path is matched, the request is unauthenticated and the path is neither public nor "/"; the chat redirect iff the path is matched, the request authenticated and the path public; every other request passes |
| Middleware.LoginRedirectExactly | middleware.ts:18-22 | the login redirect happens iff the request is unauthenticated and the path is neither public nor "/" |
| Middleware.ChatRedirectExactly | middleware.ts:25-27 | the chat redirect happens iff the request is authenticated and the path is public |
| Middleware.RootAlwaysPasses | middleware.ts:18-29 | "/" passes whatever the cookies |
| Middleware.TrailingSlashIsProtected | middleware.ts:15-18 | public paths match exactly: "/login/" is protected and "/login" is not |
| Middleware.EmptyCookieIsSignedOut | middleware.ts:5-9 | an empty session cookie counts as signed out |
| Middleware.ApiPrefixIsUnguarded | middleware.ts:33-35 | the matcher excludes by prefix: "/apiary" is never guarded, while "/chat" is |
| Middleware.ChatIsMatched | middleware.ts:33-35 | the chat page "/chat" reaches the guard |
| Middleware.ExcludedPathsPass | middleware.ts:33-35 | for every path, an API route, a Next.js static or image asset or a ".png" file passes whatever the cookies |
| Middleware.OrdinaryPageIsMatched | middleware.ts:33-35 | every path whose first character after "/" cannot begin an excluded prefix, and which does not end in ".png", reaches the guard |
| Middleware.PublicPathsMatched | middleware.ts:15-35 | every public page reaches the guard |
| Middleware.ForgotPasswordIsMatched | middleware.ts:15-35 | "/forgot-password" reaches the guard although it starts like "favicon" |
| Middleware.SignedInPublicVisitGoesToChat | middleware.ts:25-35 | a signed-in visit to any public page is sent on to "/chat" |

## Left out

- **Transport.** Socket.IO server options (path, CORS), actual delivery, reconnection and the client wiring in `contexts/socket-context.tsx` are not modelled. Deliveries are returned as lists. Client emits depend only on a `connected` flag.
- **Disconnect.** The disconnect handler only logs. The model adds no cleanup to it, because the source has none.
- **`pages/api/socketio.ts` and `app/api/socket/route.ts`** are not part of this model. The first is initialisation glue. The second is a duplicate hub on a path the client does not use.
- **The room joins of the components.** The `joinChat`/`leaveChat` calls in the components' effects go through the socket context. They are not modelled; the hub side of `join-chat` and `leave-chat` is.
- **Timers.** The 3000 ms typing timer and the 300 ms search debounce are explicit "expired" steps, not real timers.
- **Canvas rasterisation.** `getContext`, `putImageData`, `toDataURL`, pixel data and floating-point coordinates are not modelled. Snapshots are opaque values and coordinates are integers.
- **Data loading.** The effects that load the chat details and message history are not modelled, nor is `getUserChats`.
- **React scheduling.** Batching and stale closures are not modelled. Each handler runs to completion on the current state.
- **Navigation effects.** `onChatCreated` and `router.refresh` are not modelled.
- **Plain input setters.** Typing into a field only stores the text.
- **Sidebar prop reset.** Replacing the chat list when the `chats` prop changes is a plain assignment and is not modelled.
- **SQL and Postgres semantics.** SQL text, `ILIKE`, `ANY`, cookies and `revalidatePath` are not modelled.
  - `ORDER BY created_at` is replaced by insertion order.
  - Participants are a set of pairs. A duplicate-insert constraint the schema may impose is not modelled.
- **Crypto.** Encryption and decryption are function parameters. `lib/encryption.ts` and `app/actions/auth-actions.ts` are not part of this model.
- **JSON.parse of the drawing** is an `Option`: `None` stands for a parse failure.
- **`app/actions/user-actions.ts`.** `searchUsers` is not part of this model. Its answer is a parameter of the pickers.
- **Unicode.** Trimming, `toLowerCase` and `toUpperCase` are restricted to ASCII.
- **Date formatting.** Times are integers, and date formatting is not modelled.
- **Unspecified order.** The order in which `Object.values` lists the typing users, and the order of a fan-out, are left unspecified.
- Middleware.Decide: the callback is the raw request URL. `encodeURI` and the URL building are not modelled.
- ChatSidebar.SortByRecency: it is proved sorted and a permutation of its input. It is not proved stable; the source's `sort` is stable.
- ChatActions.Store.CreateDirectChat: queries that the source runs before its `try` and that could throw are not modelled as failures.
- ChatActions.Store.CreateSelfChat: as with `CreateDirectChat`, queries before the `try` that could throw are not modelled as failures.
- ChatActions.Store.CreateChat: a missing `participantIds` form field is modelled as the empty string.
- SocketServer.Hub.OnNewMessage: a message with no `chatId` goes to the room "chat:undefined", as the template string gives it.

## Findings

| source | as written | input that shows it | evidently intended | confidence | as-written member | corrected member |
|---|---|---|---|---|---|---|
| app/actions/chat-actions.ts:358-368 | `sendTextMessage` inserts the message, then updates the chat's time, outside any transaction | the chat update throws after the insert succeeded | answer failure only when nothing was stored, as `createChat` and `sendDrawingMessage` do with BEGIN/ROLLBACK | medium, not executed | ChatActions.TextSendFailureExample | ChatActions.Store.SendTextMessageAtomic |
