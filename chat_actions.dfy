/**
 * The server actions of `app/actions/chat-actions.ts` over an in-memory
 * store that stands for the database tables `users`, `chats`,
 * `chat_participants`, `messages` and `drawings`.
 *
 * What the database decides on its own is a parameter: the id a new row
 * gets (required to be unused), the current time, and which statement of
 * an action throws (`failAt`, counting the action's statements from 0 in
 * the order the source issues them). Encryption is a pair of functions
 * passed in. A transaction is modelled by working on local copies that
 * are written back only at COMMIT, so a ROLLBACK leaves the fields as
 * they were.
 */
module ChatActions {
  import opened Wrappers
  import opened Text
  import opened Events
  import opened Selection

  /** An action's answer: `{ success: true, ... }` or `{ success: false, message }`. */
  datatype Reply<T> = Ok(value: T) | Refused(message: string)

  datatype UserRow = UserRow(username: string, avatarUrl: Option<string>)
  datatype ChatRow = ChatRow(name: string, isGroup: bool, avatarUrl: Option<string>, updatedAt: int)
  datatype MessageRow = MessageRow(
    id: MessageId,
    chatId: ChatId,
    senderId: UserId,
    ciphertext: string,
    isDrawing: bool,
    createdAt: int)

  /** The answer of `createDirectChat` and `createSelfChat`: the chat, and whether it existed already. */
  datatype Opened = Opened(chatId: ChatId, existing: bool)

  /** The answer of the send actions: the stored message's id and time. */
  datatype Sent = Sent(messageId: MessageId, createdAt: int)

  /** One message as `getChatMessages` returns it. */
  datatype MessageView = MessageView(
    id: MessageId,
    senderId: UserId,
    senderName: string,
    senderAvatar: Option<string>,
    content: string,
    isDrawing: bool,
    createdAt: int,
    drawingData: Option<string>)

  /** The answer of `getChatDetails`. */
  datatype Details = Details(id: ChatId, chat: ChatRow, participants: set<UserId>)

  /** The statement numbered `step` throws. */
  predicate FailsAt(failAt: Option<nat>, step: nat) {
    failAt == Some(step)
  }

  /** Some statement numbered at most `last` throws. */
  predicate FailsBy(failAt: Option<nat>, last: nat) {
    failAt.Some? && failAt.value <= last
  }

  /** The caller named by the `user_id` cookie; an absent or empty cookie names nobody. */
  function Caller(cookie: Option<string>): (r: Option<UserId>)
    ensures r.Some? <==> cookie.Some? && cookie.value != ""
    ensures r.Some? ==> r.value == cookie.value
  {
    if cookie.Some? && cookie.value != "" then cookie else None
  }

  const NotAuthenticated := "Not authenticated"

  // ---------------------------------------------------------------------
  // Participant list of `createChat`.
  // ---------------------------------------------------------------------

  /**
   * The participants `createChat` inserts: the field split on "," without
   * empty pieces, in order, then the caller if not already listed.
   */
  function ParticipantList(field: string, caller: UserId): (r: seq<UserId>)
    ensures DropEmpty(Split(field, ',')) <= r
    ensures caller in r
    ensures forall p :: p in r <==> p == caller || (p in Split(field, ',') && p != "")
    ensures caller != "" ==> forall i :: 0 <= i < |r| ==> r[i] != ""
    ensures caller in DropEmpty(Split(field, ',')) ==> r == DropEmpty(Split(field, ','))
    ensures caller !in DropEmpty(Split(field, ',')) ==> r == DropEmpty(Split(field, ',')) + [caller]
  {
    var listed := DropEmpty(Split(field, ','));
    if caller in listed then listed else listed + [caller]
  }

  /**
   * The group form of the new-chat dialog reaches `createChat` intact: for
   * a selection of non-empty ids without commas, the participants are the
   * selected ids in order, followed by the caller unless selected.
   */
  lemma GroupFormParticipants(selected: seq<User>, caller: UserId)
    requires |selected| >= 1
    requires forall i :: 0 <= i < |selected| ==> selected[i].id != "" && ',' !in selected[i].id
    ensures ParticipantList(Join(Ids(selected), ','), caller)
      == Ids(selected) + (if caller in Ids(selected) then [] else [caller])
  {
    var ids := Ids(selected);
    SplitJoin(ids, ',');
    DropEmptyKeepsNonEmpty(ids);
  }

  // ---------------------------------------------------------------------
  // Message views of `getChatMessages`.
  // ---------------------------------------------------------------------

  /** The shown content: the fixed placeholder for a drawing, else the decrypted text. */
  function ShownContent(row: MessageRow, decrypt: string -> string): (r: string)
    ensures row.isDrawing ==> r == "Sent a drawing"
    ensures !row.isDrawing ==> r == decrypt(row.ciphertext)
  {
    if row.isDrawing then "Sent a drawing" else decrypt(row.ciphertext)
  }

  /** The rows of `chatId` whose sender has a user row (the join with `users`), in store order. */
  function RowsOf(rows: seq<MessageRow>, chatId: ChatId, users: map<UserId, UserRow>): (r: seq<MessageRow>)
    ensures forall m :: m in r <==> m in rows && m.chatId == chatId && m.senderId in users
    ensures forall i :: 0 <= i < |r| ==> r[i].chatId == chatId && r[i].senderId in users
    ensures |r| <= |rows|
  {
    if rows == [] then []
    else
      var last := rows[|rows| - 1];
      RowsOf(rows[..|rows| - 1], chatId, users)
      + (if last.chatId == chatId && last.senderId in users then [last] else [])
  }

  /** The join keeps stored order: it distributes over concatenation. */
  lemma {:induction false} RowsOfDistributes(a: seq<MessageRow>, b: seq<MessageRow>, chatId: ChatId, users: map<UserId, UserRow>)
    ensures RowsOf(a + b, chatId, users) == RowsOf(a, chatId, users) + RowsOf(b, chatId, users)
    decreases |b|
  {
    if b == [] {
      assert a + b == a;
    } else {
      var b' := b[..|b| - 1];
      assert (a + b)[..|a + b| - 1] == a + b';
      assert (a + b)[|a + b| - 1] == b[|b| - 1];
      RowsOfDistributes(a, b', chatId, users);
    }
  }

  /** One row is kept exactly when it is the chat's and its sender is known. */
  lemma RowsOfSingle(row: MessageRow, chatId: ChatId, users: map<UserId, UserRow>)
    ensures RowsOf([row], chatId, users) == if row.chatId == chatId && row.senderId in users then [row] else []
  {
    assert [row][..0] == [];
  }

  /** Some row is a drawing message (`drawingMessages.length > 0`). */
  predicate HasDrawing(rows: seq<MessageRow>) {
    exists k :: 0 <= k < |rows| && rows[k].isDrawing
  }

  /** A row as shown, before any drawing data is attached. */
  function BaseView(row: MessageRow, sender: UserRow, decrypt: string -> string): (v: MessageView)
    ensures v.id == row.id && v.senderId == row.senderId && v.isDrawing == row.isDrawing
    ensures v.content == ShownContent(row, decrypt) && v.drawingData.None?
  {
    MessageView(row.id, row.senderId, sender.username, sender.avatarUrl,
      ShownContent(row, decrypt), row.isDrawing, row.createdAt, None)
  }

  /** The stored drawing of a drawing message, when a drawings row for it exists. */
  function WithDrawing(v: MessageView, drawings: map<MessageId, string>): (w: MessageView)
    ensures w == v.(drawingData := w.drawingData)
    ensures w.drawingData.Some? <==> v.drawingData.Some? || (v.isDrawing && v.id in drawings)
    ensures v.isDrawing && v.id in drawings ==> w.drawingData == Some(drawings[v.id])
  {
    if v.isDrawing && v.id in drawings then v.(drawingData := Some(drawings[v.id])) else v
  }

  /** The views `getChatMessages` returns for the given rows, with drawing data attached. */
  function ChatViews(rows: seq<MessageRow>, users: map<UserId, UserRow>, drawings: map<MessageId, string>,
                     decrypt: string -> string): (r: seq<MessageView>)
    requires forall i :: 0 <= i < |rows| ==> rows[i].senderId in users
    ensures |r| == |rows|
    ensures forall i :: 0 <= i < |rows| ==>
      r[i] == WithDrawing(BaseView(rows[i], users[rows[i].senderId], decrypt), drawings)
  {
    seq(|rows|, i requires 0 <= i < |rows| => WithDrawing(BaseView(rows[i], users[rows[i].senderId], decrypt), drawings))
  }

  /**
   * The messages query and its mapping to views: the rows of `chatId` whose
   * sender is a user, in store order, and whether any is a drawing.
   */
  method CollectViews(messages: seq<MessageRow>, chatId: ChatId, users: map<UserId, UserRow>, decrypt: string -> string)
    returns (views: seq<MessageView>, anyDrawing: bool)
    ensures var rows := RowsOf(messages, chatId, users);
      && |views| == |rows|
      && (forall k :: 0 <= k < |rows| ==> views[k] == BaseView(rows[k], users[rows[k].senderId], decrypt))
      && (anyDrawing <==> HasDrawing(rows))
  {
    views, anyDrawing := [], false;
    ghost var rows: seq<MessageRow> := [];
    var i := 0;
    while i < |messages|
      invariant 0 <= i <= |messages|
      invariant rows == RowsOf(messages[..i], chatId, users)
      invariant views == BaseViews(rows, users, decrypt)
      invariant anyDrawing <==> HasDrawing(rows)
    {
      var row := messages[i];
      RowsOfStep(messages, i, chatId, users);
      if row.chatId == chatId && row.senderId in users {
        HasDrawingSnoc(rows, row);
        assert (rows + [row])[..|rows|] == rows;
        views := views + [BaseView(row, users[row.senderId], decrypt)];
        anyDrawing := anyDrawing || row.isDrawing;
        rows := rows + [row];
      }
      i := i + 1;
    }
    assert messages[..i] == messages;
  }

  /** The base views of `rows`, in order. */
  function BaseViews(rows: seq<MessageRow>, users: map<UserId, UserRow>, decrypt: string -> string): (r: seq<MessageView>)
    requires forall k :: 0 <= k < |rows| ==> rows[k].senderId in users
    ensures |r| == |rows|
    ensures forall k :: 0 <= k < |rows| ==> r[k] == BaseView(rows[k], users[rows[k].senderId], decrypt)
  {
    if rows == [] then []
    else
      var last := rows[|rows| - 1];
      BaseViews(rows[..|rows| - 1], users, decrypt) + [BaseView(last, users[last.senderId], decrypt)]
  }

  /** A drawing among `rows + [row]` is a drawing among `rows` or `row` itself. */
  lemma HasDrawingSnoc(rows: seq<MessageRow>, row: MessageRow)
    ensures HasDrawing(rows + [row]) <==> HasDrawing(rows) || row.isDrawing
  {
    if row.isDrawing { assert (rows + [row])[|rows|] == row; }
    if HasDrawing(rows) {
      var k :| 0 <= k < |rows| && rows[k].isDrawing;
      assert (rows + [row])[k] == rows[k];
    }
  }

  /** One more stored row extends the chat's rows by that row when it belongs to the chat. */
  lemma RowsOfStep(messages: seq<MessageRow>, i: nat, chatId: ChatId, users: map<UserId, UserRow>)
    requires i < |messages|
    ensures RowsOf(messages[..i + 1], chatId, users) ==
      RowsOf(messages[..i], chatId, users)
      + (if messages[i].chatId == chatId && messages[i].senderId in users then [messages[i]] else [])
  {
    assert messages[..i + 1][..i] == messages[..i];
  }

  /** Attaches, in place, the stored drawing to each drawing message that has one. */
  method AttachDrawings(views: seq<MessageView>, drawings: map<MessageId, string>) returns (out: seq<MessageView>)
    ensures |out| == |views|
    ensures forall k :: 0 <= k < |views| ==> out[k] == WithDrawing(views[k], drawings)
  {
    out := views;
    var j := 0;
    while j < |out|
      invariant 0 <= j <= |out| && |out| == |views|
      invariant forall k :: 0 <= k < j ==> out[k] == WithDrawing(views[k], drawings)
      invariant forall k :: j <= k < |out| ==> out[k] == views[k]
    {
      if out[j].isDrawing && out[j].id in drawings {
        out := out[j := out[j].(drawingData := Some(drawings[out[j].id]))];
      }
      j := j + 1;
    }
  }

  /** The participant rows of chat `c` for the users `xs`. */
  function Pairs(c: ChatId, xs: seq<UserId>): set<(ChatId, UserId)> {
    set p | p in xs :: (c, p)
  }

  /** One more user adds one more row. */
  lemma PairsSnoc(c: ChatId, xs: seq<UserId>, x: UserId)
    ensures Pairs(c, xs + [x]) == Pairs(c, xs) + {(c, x)}
  {
    assert forall p :: p in xs + [x] <==> p in xs || p == x;
  }

  /**
   * The participant inserts of a transaction: statement `first + k` inserts
   * the k-th user; the first failing one aborts the loop.
   */
  method InsertParticipants(base: set<(ChatId, UserId)>, c: ChatId, ids: seq<UserId>, failAt: Option<nat>, first: nat)
    returns (failed: bool, out: set<(ChatId, UserId)>)
    ensures failed <==> failAt.Some? && first <= failAt.value < first + |ids|
    ensures !failed ==> out == base + Pairs(c, ids)
  {
    out := base;
    var i := 0;
    while i < |ids|
      invariant 0 <= i <= |ids|
      invariant out == base + Pairs(c, ids[..i])
      invariant !(failAt.Some? && first <= failAt.value < first + i)
    {
      if FailsAt(failAt, first + i) {
        return true, out;
      }
      PairsSnoc(c, ids[..i], ids[i]);
      assert ids[..i + 1] == ids[..i] + [ids[i]];
      out := out + {(c, ids[i])};
      i := i + 1;
    }
    assert ids[..i] == ids;
    failed := false;
  }

  /**
   * The loop of `addUsersToChat`: each user is looked up and inserted only
   * when not yet a participant. Step `first + k` stands for the k-th user's
   * lookup and insert together; the first failing step aborts the loop.
   */
  method AddMissingParticipants(base: set<(ChatId, UserId)>, c: ChatId, ids: seq<UserId>, failAt: Option<nat>, first: nat)
    returns (failed: bool, out: set<(ChatId, UserId)>)
    ensures failed <==> failAt.Some? && first <= failAt.value < first + |ids|
    ensures !failed ==> out == base + Pairs(c, ids)
  {
    out := base;
    var i := 0;
    while i < |ids|
      invariant 0 <= i <= |ids|
      invariant out == base + Pairs(c, ids[..i])
      invariant !(failAt.Some? && first <= failAt.value < first + i)
    {
      if FailsAt(failAt, first + i) {
        return true, out;
      }
      PairsSnoc(c, ids[..i], ids[i]);
      assert ids[..i + 1] == ids[..i] + [ids[i]];
      if (c, ids[i]) !in out {
        out := out + {(c, ids[i])};
      }
      i := i + 1;
    }
    assert ids[..i] == ids;
    failed := false;
  }

  /**
   * A chat id unused in a consistent store: adding its chat row and its
   * participant rows keeps the store consistent, and its members are exactly `ids`.
   */
  lemma NewChatMembers(chats: map<ChatId, ChatRow>, participants: set<(ChatId, UserId)>,
                       messages: seq<MessageRow>, drawings: map<MessageId, string>,
                       c: ChatId, row: ChatRow, ids: seq<UserId>)
    requires Consistent(chats, participants, messages, drawings) && c !in chats
    ensures Consistent(chats[c := row], participants + Pairs(c, ids), messages, drawings)
    ensures forall u :: (c, u) in participants + Pairs(c, ids) <==> u in ids
  {
  }

  /** Store invariant: participants, messages and drawings refer to existing rows. */
  ghost predicate Consistent(
    chats: map<ChatId, ChatRow>,
    participants: set<(ChatId, UserId)>,
    messages: seq<MessageRow>,
    drawings: map<MessageId, string>)
  {
    && (forall p :: p in participants ==> p.0 in chats)
    && (forall m :: m in messages ==> m.chatId in chats)
    && (forall id :: id in drawings ==> exists m :: m in messages && m.id == id && m.isDrawing)
  }

  class Store {
    var users: map<UserId, UserRow>
    var chats: map<ChatId, ChatRow>
    var participants: set<(ChatId, UserId)>
    var messages: seq<MessageRow>
    var drawings: map<MessageId, string>

    ghost predicate Valid()
      reads this
    {
      Consistent(chats, participants, messages, drawings)
    }

    constructor (users: map<UserId, UserRow>)
      ensures Valid()
      ensures this.users == users && chats == map[] && participants == {} && messages == [] && drawings == map[]
    {
      this.users := users;
      chats := map[];
      participants := {};
      messages := [];
      drawings := map[];
    }

    /** The users taking part in chat `c`. */
    function Members(c: ChatId): (r: set<UserId>)
      reads this
      ensures forall u :: u in r <==> (c, u) in participants
    {
      set p | p in participants && p.0 == c :: p.1
    }

    /** `c` is a direct chat of exactly `a` and `b` (the query of `createDirectChat`). */
    predicate IsDirectChat(c: ChatId, a: UserId, b: UserId)
      reads this
    {
      && c in chats && !chats[c].isGroup
      && (c, a) in participants && (c, b) in participants
      && |Members(c)| == 2
    }

    /** `c` is the self chat named `name` of `u` (the query of `createSelfChat`; no group check). */
    predicate IsSelfChat(c: ChatId, name: string, u: UserId)
      reads this
    {
      c in chats && chats[c].name == name && (c, u) in participants && |Members(c)| == 1
    }

    /** True iff there is a message with that id. */
    predicate MessageIdUsed(id: MessageId)
      reads this
    {
      exists m :: m in messages && m.id == id
    }

    /**
     * `createChat`. Statement 0 inserts the chat, statement k+1 inserts the
     * k-th participant, the last one commits; any failure rolls back.
     */
    method CreateChat(cookie: Option<string>, name: string, isGroupField: Option<string>,
                      avatarField: Option<string>, participantIdsField: string,
                      freshId: ChatId, now: int, failAt: Option<nat>)
      returns (r: Reply<ChatId>)
      requires Valid()
      requires freshId !in chats
      modifies this`chats, this`participants
      ensures Valid()
      ensures Caller(cookie).None? ==> r == Refused(NotAuthenticated) && unchanged(this)
      ensures Caller(cookie).Some? ==>
        var ids := ParticipantList(participantIdsField, Caller(cookie).value);
        if FailsBy(failAt, |ids| + 1) then
          r == Refused("Failed to create chat") && unchanged(this)
        else
          && r == Ok(freshId)
          && chats == old(chats)[freshId := ChatRow(name, isGroupField == Some("true"),
               if avatarField.Some? && avatarField.value != "" then avatarField else None, now)]
          && participants == old(participants) + (set p | p in ids :: (freshId, p))
          && Members(freshId) == (set p | p in ids)
    {
      var caller := Caller(cookie);
      if caller.None? {
        return Refused(NotAuthenticated);
      }
      var ids := ParticipantList(participantIdsField, caller.value);
      if FailsAt(failAt, 0) {
        return Refused("Failed to create chat");
      }
      var avatar := if avatarField.Some? && avatarField.value != "" then avatarField else None;
      var failed, newParticipants := InsertParticipants(participants, freshId, ids, failAt, 1);
      if failed || FailsAt(failAt, |ids| + 1) {
        return Refused("Failed to create chat");
      }
      var row := ChatRow(name, isGroupField == Some("true"), avatar, now);
      NewChatMembers(chats, participants, messages, drawings, freshId, row, ids);
      chats := chats[freshId := row];
      participants := newParticipants;
      r := Ok(freshId);
    }

    /**
     * `createDirectChat`. An existing direct chat of the two users is
     * returned as it is; otherwise statement 0 inserts the chat named after
     * the other user, statement 1 both participants, statement 2 commits.
     */
    method CreateDirectChat(cookie: Option<string>, otherUserId: UserId, freshId: ChatId, now: int, failAt: Option<nat>)
      returns (r: Reply<Opened>)
      requires Valid()
      requires freshId !in chats
      modifies this`chats, this`participants
      ensures Valid()
      ensures Caller(cookie).None? ==> r == Refused(NotAuthenticated) && unchanged(this)
      ensures Caller(cookie).Some? && otherUserId !in users ==> r == Refused("User not found") && unchanged(this)
      ensures Caller(cookie).Some? && otherUserId in users ==>
        var me := Caller(cookie).value;
        if old(exists c :: c in chats && IsDirectChat(c, me, otherUserId)) then
          r.Ok? && r.value.existing && IsDirectChat(r.value.chatId, me, otherUserId) && unchanged(this)
        else if FailsBy(failAt, 2) then
          r == Refused("Failed to create chat") && unchanged(this)
        else
          && r == Ok(Opened(freshId, false))
          && chats == old(chats)[freshId := ChatRow(users[otherUserId].username, false, None, now)]
          && participants == old(participants) + {(freshId, me), (freshId, otherUserId)}
          && Members(freshId) == {me, otherUserId}
    {
      var caller := Caller(cookie);
      if caller.None? {
        return Refused(NotAuthenticated);
      }
      var me := caller.value;
      if otherUserId !in users {
        return Refused("User not found");
      }
      if exists c :: c in chats && IsDirectChat(c, me, otherUserId) {
        var c :| c in chats && IsDirectChat(c, me, otherUserId);
        return Ok(Opened(c, true));
      }
      if FailsBy(failAt, 2) {
        return Refused("Failed to create chat");
      }
      chats := chats[freshId := ChatRow(users[otherUserId].username, false, None, now)];
      participants := participants + {(freshId, me), (freshId, otherUserId)};
      r := Ok(Opened(freshId, false));
      assert forall u :: u in Members(freshId) <==> u == me || u == otherUserId;
    }

    /**
     * `createSelfChat`. An existing chat named "<username> (You)" whose only
     * participant is the caller is returned as it is; otherwise statement 0
     * inserts the chat, statement 1 the caller, statement 2 commits.
     */
    method CreateSelfChat(cookie: Option<string>, freshId: ChatId, now: int, failAt: Option<nat>)
      returns (r: Reply<Opened>)
      requires Valid()
      requires freshId !in chats
      modifies this`chats, this`participants
      ensures Valid()
      ensures Caller(cookie).None? ==> r == Refused(NotAuthenticated) && unchanged(this)
      ensures Caller(cookie).Some? && Caller(cookie).value !in users ==> r == Refused("User not found") && unchanged(this)
      ensures Caller(cookie).Some? && Caller(cookie).value in users ==>
        var me := Caller(cookie).value;
        var name := users[me].username + " (You)";
        if old(exists c :: c in chats && IsSelfChat(c, name, me)) then
          r.Ok? && r.value.existing && IsSelfChat(r.value.chatId, name, me) && unchanged(this)
        else if FailsBy(failAt, 2) then
          r == Refused("Failed to create self chat") && unchanged(this)
        else
          && r == Ok(Opened(freshId, false))
          && chats == old(chats)[freshId := ChatRow(name, false, None, now)]
          && participants == old(participants) + {(freshId, me)}
          && Members(freshId) == {me}
    {
      var caller := Caller(cookie);
      if caller.None? {
        return Refused(NotAuthenticated);
      }
      var me := caller.value;
      if me !in users {
        return Refused("User not found");
      }
      var name := users[me].username + " (You)";
      if exists c :: c in chats && IsSelfChat(c, name, me) {
        var c :| c in chats && IsSelfChat(c, name, me);
        return Ok(Opened(c, true));
      }
      if FailsBy(failAt, 2) {
        return Refused("Failed to create self chat");
      }
      chats := chats[freshId := ChatRow(name, false, None, now)];
      participants := participants + {(freshId, me)};
      r := Ok(Opened(freshId, false));
      assert forall u :: u in Members(freshId) <==> u == me;
    }

    /**
     * `getChatMessages`. The participant check is statement 0 and a caller
     * who does not take part is refused before any message is read; 1 reads
     * the messages, 2 the drawings, which happens only when a drawing
     * message is among them.
     */
    method GetChatMessages(cookie: Option<string>, chatId: ChatId, decrypt: string -> string, failAt: Option<nat>)
      returns (r: Reply<seq<MessageView>>)
      ensures Caller(cookie).None? ==> r == Refused(NotAuthenticated)
      ensures Caller(cookie).Some? ==>
        if FailsAt(failAt, 0) then
          r == Refused("Failed to get messages")
        else if (chatId, Caller(cookie).value) !in participants then
          r == Refused("Not authorized to view this chat")
        else if FailsAt(failAt, 1) || (FailsAt(failAt, 2) && HasDrawing(RowsOf(messages, chatId, users))) then
          r == Refused("Failed to get messages")
        else
          r == Ok(ChatViews(RowsOf(messages, chatId, users), users, drawings, decrypt))
    {
      var caller := Caller(cookie);
      if caller.None? {
        return Refused(NotAuthenticated);
      }
      if FailsAt(failAt, 0) {
        return Refused("Failed to get messages");
      }
      if (chatId, caller.value) !in participants {
        return Refused("Not authorized to view this chat");
      }
      if FailsAt(failAt, 1) {
        return Refused("Failed to get messages");
      }
      var views, anyDrawing := CollectViews(messages, chatId, users, decrypt);
      ghost var rows := RowsOf(messages, chatId, users);
      ghost var expected := ChatViews(rows, users, drawings, decrypt);
      assert |views| == |expected|;
      if anyDrawing {
        if FailsAt(failAt, 2) {
          return Refused("Failed to get messages");
        }
        views := AttachDrawings(views, drawings);
      } else {
        assert forall k :: 0 <= k < |views| ==> WithDrawing(views[k], drawings) == views[k];
      }
      assert forall k :: 0 <= k < |rows| ==> views[k] == expected[k];
      assert views == expected;
      r := Ok(views);
    }

    /**
     * `sendTextMessage` as written: statement 0 is the participant check,
     * 1 the insert, 2 the update of the chat's time. There is no transaction,
     * so a failure of statement 2 keeps the inserted message yet answers
     * with a failure.
     */
    method SendTextMessage(cookie: Option<string>, chatId: ChatId, content: string, encrypt: string -> string,
                           freshId: MessageId, now: int, failAt: Option<nat>)
      returns (r: Reply<Sent>)
      requires Valid()
      requires !MessageIdUsed(freshId)
      modifies this`chats, this`messages
      ensures Valid()
      ensures Caller(cookie).None? ==> r == Refused(NotAuthenticated) && unchanged(this)
      ensures Caller(cookie).Some? ==>
        var row := MessageRow(freshId, chatId, Caller(cookie).value, encrypt(content), false, now);
        if FailsAt(failAt, 0) then
          r == Refused("Failed to send message") && unchanged(this)
        else if (chatId, Caller(cookie).value) !in participants then
          r == Refused("Not authorized to send messages to this chat") && unchanged(this)
        else if FailsAt(failAt, 1) then
          r == Refused("Failed to send message") && unchanged(this)
        else if FailsAt(failAt, 2) then
          r == Refused("Failed to send message") && messages == old(messages) + [row] && chats == old(chats)
        else
          && r == Ok(Sent(freshId, now))
          && messages == old(messages) + [row]
          && chats == old(chats)[chatId := old(chats)[chatId].(updatedAt := now)]
    {
      var caller := Caller(cookie);
      if caller.None? {
        return Refused(NotAuthenticated);
      }
      if FailsAt(failAt, 0) {
        return Refused("Failed to send message");
      }
      if (chatId, caller.value) !in participants {
        return Refused("Not authorized to send messages to this chat");
      }
      if FailsAt(failAt, 1) {
        return Refused("Failed to send message");
      }
      messages := messages + [MessageRow(freshId, chatId, caller.value, encrypt(content), false, now)];
      if FailsAt(failAt, 2) {
        return Refused("Failed to send message");
      }
      chats := chats[chatId := chats[chatId].(updatedAt := now)];
      r := Ok(Sent(freshId, now));
    }

    /**
     * `sendTextMessage` with the insert and the update in one transaction,
     * as `sendDrawingMessage` does: every failure leaves the store unchanged.
     */
    method SendTextMessageAtomic(cookie: Option<string>, chatId: ChatId, content: string, encrypt: string -> string,
                                 freshId: MessageId, now: int, failAt: Option<nat>)
      returns (r: Reply<Sent>)
      requires Valid()
      requires !MessageIdUsed(freshId)
      modifies this`chats, this`messages
      ensures Valid()
      ensures r.Refused? ==> unchanged(this)
      ensures Caller(cookie).None? ==> r == Refused(NotAuthenticated)
      ensures Caller(cookie).Some? ==>
        if FailsAt(failAt, 0) then
          r == Refused("Failed to send message")
        else if (chatId, Caller(cookie).value) !in participants then
          r == Refused("Not authorized to send messages to this chat")
        else if FailsBy(failAt, 3) then
          r == Refused("Failed to send message")
        else
          && r == Ok(Sent(freshId, now))
          && messages == old(messages) + [MessageRow(freshId, chatId, Caller(cookie).value, encrypt(content), false, now)]
          && chats == old(chats)[chatId := old(chats)[chatId].(updatedAt := now)]
    {
      var caller := Caller(cookie);
      if caller.None? {
        return Refused(NotAuthenticated);
      }
      if FailsAt(failAt, 0) {
        return Refused("Failed to send message");
      }
      if (chatId, caller.value) !in participants {
        return Refused("Not authorized to send messages to this chat");
      }
      var newMessages := messages + [MessageRow(freshId, chatId, caller.value, encrypt(content), false, now)];
      var newChats := chats[chatId := chats[chatId].(updatedAt := now)];
      if FailsBy(failAt, 3) {
        return Refused("Failed to send message");
      }
      messages, chats := newMessages, newChats;
      r := Ok(Sent(freshId, now));
    }

    /**
     * `sendDrawingMessage`: statement 0 is the participant check; then in one
     * transaction 1 inserts the message, 2 the drawing, 3 updates the chat's
     * time, 4 commits. `drawing` is the parsed drawing data, absent when the
     * text does not parse, which fails the transaction like a database error.
     */
    method SendDrawingMessage(cookie: Option<string>, chatId: ChatId, drawing: Option<string>,
                              encrypt: string -> string, freshId: MessageId, now: int, failAt: Option<nat>)
      returns (r: Reply<Sent>)
      requires Valid()
      requires !MessageIdUsed(freshId)
      modifies this`chats, this`messages, this`drawings
      ensures Valid()
      ensures r.Refused? ==> unchanged(this)
      ensures Caller(cookie).None? ==> r == Refused(NotAuthenticated)
      ensures Caller(cookie).Some? ==>
        if FailsAt(failAt, 0) then
          r == Refused("Failed to send drawing")
        else if (chatId, Caller(cookie).value) !in participants then
          r == Refused("Not authorized to send messages to this chat")
        else if FailsBy(failAt, 4) || drawing.None? then
          r == Refused("Failed to send drawing")
        else
          && r == Ok(Sent(freshId, now))
          && messages == old(messages) + [MessageRow(freshId, chatId, Caller(cookie).value, encrypt("Sent a drawing"), true, now)]
          && drawings == old(drawings)[freshId := drawing.value]
          && chats == old(chats)[chatId := old(chats)[chatId].(updatedAt := now)]
    {
      var caller := Caller(cookie);
      if caller.None? {
        return Refused(NotAuthenticated);
      }
      if FailsAt(failAt, 0) {
        return Refused("Failed to send drawing");
      }
      if (chatId, caller.value) !in participants {
        return Refused("Not authorized to send messages to this chat");
      }
      if FailsAt(failAt, 1) {
        return Refused("Failed to send drawing");
      }
      var row := MessageRow(freshId, chatId, caller.value, encrypt("Sent a drawing"), true, now);
      var newMessages := messages + [row];
      if drawing.None? || FailsBy(failAt, 4) {
        return Refused("Failed to send drawing");
      }
      var newDrawings := drawings[freshId := drawing.value];
      var newChats := chats[chatId := chats[chatId].(updatedAt := now)];
      assert row in newMessages;
      messages, drawings, chats := newMessages, newDrawings, newChats;
      r := Ok(Sent(freshId, now));
    }

    /**
     * `getChatDetails`: statement 0 is the participant check, 1 reads the
     * chat, 2 its participants (joined with `users`).
     */
    method GetChatDetails(cookie: Option<string>, chatId: ChatId, failAt: Option<nat>)
      returns (r: Reply<Details>)
      ensures Caller(cookie).None? ==> r == Refused(NotAuthenticated)
      ensures Caller(cookie).Some? ==>
        if FailsAt(failAt, 0) then
          r == Refused("Failed to get chat details")
        else if (chatId, Caller(cookie).value) !in participants then
          r == Refused("Not authorized to view this chat")
        else if FailsAt(failAt, 1) then
          r == Refused("Failed to get chat details")
        else if chatId !in chats then
          r == Refused("Chat not found")
        else if FailsAt(failAt, 2) then
          r == Refused("Failed to get chat details")
        else
          r == Ok(Details(chatId, chats[chatId], Members(chatId) * users.Keys))
      ensures Valid() ==> r != Refused("Chat not found")
    {
      var caller := Caller(cookie);
      if caller.None? {
        return Refused(NotAuthenticated);
      }
      if FailsAt(failAt, 0) {
        return Refused("Failed to get chat details");
      }
      if (chatId, caller.value) !in participants {
        return Refused("Not authorized to view this chat");
      }
      if FailsAt(failAt, 1) {
        return Refused("Failed to get chat details");
      }
      if chatId !in chats {
        return Refused("Chat not found");
      }
      if FailsAt(failAt, 2) {
        return Refused("Failed to get chat details");
      }
      r := Ok(Details(chatId, chats[chatId], Members(chatId) * users.Keys));
    }

    /**
     * `addUsersToChat`: statement 0 is the participant check, 1 reads the
     * chat; then in one transaction each user k is looked up and inserted
     * when absent (statement k+2), and statement |userIds|+2 commits.
     */
    method AddUsersToChat(cookie: Option<string>, chatId: ChatId, userIds: seq<UserId>, failAt: Option<nat>)
      returns (r: Reply<()>)
      requires Valid()
      modifies this`participants
      ensures Valid()
      ensures r.Refused? ==> unchanged(this)
      ensures Caller(cookie).None? ==> r == Refused(NotAuthenticated)
      ensures Caller(cookie).Some? ==>
        if FailsAt(failAt, 0) then
          r == Refused("Failed to add users to chat")
        else if (chatId, Caller(cookie).value) !in participants then
          r == Refused("Not authorized to add users to this chat")
        else if FailsAt(failAt, 1) then
          r == Refused("Failed to add users to chat")
        else if chatId !in chats then
          r == Refused("Chat not found")
        else if !chats[chatId].isGroup then
          r == Refused("Cannot add users to a direct chat")
        else if FailsBy(failAt, |userIds| + 2) then
          r == Refused("Failed to add users to chat")
        else
          && r == Ok(())
          && participants == old(participants) + (set u | u in userIds :: (chatId, u))
          && Members(chatId) == old(Members(chatId)) + (set u | u in userIds)
      ensures Valid() ==> r != Refused("Chat not found")
    {
      var caller := Caller(cookie);
      if caller.None? {
        return Refused(NotAuthenticated);
      }
      if FailsAt(failAt, 0) {
        return Refused("Failed to add users to chat");
      }
      if (chatId, caller.value) !in participants {
        return Refused("Not authorized to add users to this chat");
      }
      if FailsAt(failAt, 1) {
        return Refused("Failed to add users to chat");
      }
      if chatId !in chats {
        return Refused("Chat not found");
      }
      if !chats[chatId].isGroup {
        return Refused("Cannot add users to a direct chat");
      }
      var failed, newParticipants := AddMissingParticipants(participants, chatId, userIds, failAt, 2);
      if failed || FailsAt(failAt, |userIds| + 2) {
        return Refused("Failed to add users to chat");
      }
      participants := newParticipants;
      r := Ok(());
      assert forall u :: u in Members(chatId) <==> u in old(Members(chatId)) || u in userIds;
    }

    /**
     * `removeUserFromChat`: statement 0 is the participant check, 1 reads
     * the chat, 2 deletes the pair. Any participant may remove anyone,
     * themselves included; removing a non-participant deletes nothing.
     */
    method RemoveUserFromChat(cookie: Option<string>, chatId: ChatId, userIdToRemove: UserId, failAt: Option<nat>)
      returns (r: Reply<()>)
      requires Valid()
      modifies this`participants
      ensures Valid()
      ensures r.Refused? ==> unchanged(this)
      ensures Caller(cookie).None? ==> r == Refused(NotAuthenticated)
      ensures Caller(cookie).Some? ==>
        if FailsAt(failAt, 0) then
          r == Refused("Failed to remove user from chat")
        else if (chatId, Caller(cookie).value) !in old(participants) then
          r == Refused("Not authorized to remove users from this chat")
        else if FailsAt(failAt, 1) then
          r == Refused("Failed to remove user from chat")
        else if chatId !in chats then
          r == Refused("Chat not found")
        else if !chats[chatId].isGroup then
          r == Refused("Cannot remove users from a direct chat")
        else if FailsAt(failAt, 2) then
          r == Refused("Failed to remove user from chat")
        else
          && r == Ok(())
          && participants == old(participants) - {(chatId, userIdToRemove)}
          && Members(chatId) == old(Members(chatId)) - {userIdToRemove}
      ensures Valid() ==> r != Refused("Chat not found")
    {
      var caller := Caller(cookie);
      if caller.None? {
        return Refused(NotAuthenticated);
      }
      if FailsAt(failAt, 0) {
        return Refused("Failed to remove user from chat");
      }
      if (chatId, caller.value) !in participants {
        return Refused("Not authorized to remove users from this chat");
      }
      if FailsAt(failAt, 1) {
        return Refused("Failed to remove user from chat");
      }
      if chatId !in chats {
        return Refused("Chat not found");
      }
      if !chats[chatId].isGroup {
        return Refused("Cannot remove users from a direct chat");
      }
      if FailsAt(failAt, 2) {
        return Refused("Failed to remove user from chat");
      }
      participants := participants - {(chatId, userIdToRemove)};
      r := Ok(());
      assert forall u :: u in Members(chatId) <==> u in old(Members(chatId)) && u != userIdToRemove;
    }
  }

  /**
   * A concrete case of the discrepancy in `sendTextMessage`: the chat's
   * time update fails after the insert, so the sender is told the message
   * was not sent although it is stored; the transactional version stores
   * nothing in the same case.
   */
  method TextSendFailureExample() returns (written: Reply<Sent>, storedWritten: nat,
                                           atomic: Reply<Sent>, storedAtomic: nat)
    ensures written == Refused("Failed to send message") && storedWritten == 1
    ensures atomic == Refused("Failed to send message") && storedAtomic == 0
  {
    var encrypt := (s: string) => s;
    var a := new Store(map["u" := UserRow("ann", None)]);
    a.chats := map["c" := ChatRow("notes", true, None, 0)];
    a.participants := {("c", "u")};
    written := a.SendTextMessage(Some("u"), "c", "hi", encrypt, "m1", 1, Some(2));
    storedWritten := |a.messages|;
    var b := new Store(map["u" := UserRow("ann", None)]);
    b.chats := map["c" := ChatRow("notes", true, None, 0)];
    b.participants := {("c", "u")};
    atomic := b.SendTextMessageAtomic(Some("u"), "c", "hi", encrypt, "m1", 1, Some(2));
    storedAtomic := |b.messages|;
  }
}
