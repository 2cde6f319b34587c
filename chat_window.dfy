/**
 * The open-chat pane of `components/chat-window.tsx`: its message list
 * (incoming messages merged without duplicates, optimistic sends marked
 * pending and then confirmed or failed), the map of users typing in the chat
 * and the text shown for it, and the local typing state with its 3-second
 * timer, modelled as an abstract expiry event.
 */
module ChatWindow {
  import opened Wrappers
  import opened Text
  import opened Events

  /** The signed-in user. */
  datatype CurrentUser = CurrentUser(id: UserId, username: string, avatarUrl: Option<string>)

  /** A participant entry of the chat details. */
  datatype Participant = Participant(id: UserId, username: string)

  // ---------------------------------------------------------------------
  // The message list.
  // ---------------------------------------------------------------------

  /** Some message in `msgs` has id `id` (`msgs.some(m => m.id === id)`). */
  predicate HasId(msgs: seq<Message>, id: MessageId) {
    exists i :: 0 <= i < |msgs| && msgs[i].id == id
  }

  /** No two messages share an id. */
  predicate UniqueIds(msgs: seq<Message>) {
    forall i, j :: 0 <= i < j < |msgs| ==> msgs[i].id != msgs[j].id
  }

  /**
   * The list after an incoming message for the open chat: the message is
   * appended exactly when its id is new, so the list only grows at the end,
   * holds the message's id afterwards and keeps ids unique.
   */
  function AddIncoming(msgs: seq<Message>, m: Message): (r: seq<Message>)
    ensures msgs <= r && |r| <= |msgs| + 1
    ensures HasId(r, m.id)
    ensures |r| == |msgs| + 1 <==> !HasId(msgs, m.id)
    ensures |r| == |msgs| + 1 ==> r[|msgs|] == m
    ensures UniqueIds(msgs) ==> UniqueIds(r)
  {
    if HasId(msgs, m.id) then msgs
    else
      var r := msgs + [m];
      assert r[|msgs|].id == m.id;
      r
  }

  /** Replaces every message with id `id` by `f` of it; the others stay as they are. */
  function UpdateById(msgs: seq<Message>, id: MessageId, f: Message -> Message): (r: seq<Message>)
    ensures |r| == |msgs|
    ensures forall i :: 0 <= i < |msgs| && msgs[i].id != id ==> r[i] == msgs[i]
    ensures forall i :: 0 <= i < |msgs| && msgs[i].id == id ==> r[i] == f(msgs[i])
  {
    if msgs == [] then []
    else [if msgs[0].id == id then f(msgs[0]) else msgs[0]] + UpdateById(msgs[1..], id, f)
  }

  /** A successful send: the optimistic message becomes the server-confirmed one, no longer pending. */
  function Confirm(msgs: seq<Message>, tempId: MessageId, confirmed: Message): (r: seq<Message>)
    ensures |r| == |msgs|
    ensures forall i :: 0 <= i < |msgs| && msgs[i].id != tempId ==> r[i] == msgs[i]
    ensures forall i :: 0 <= i < |msgs| && msgs[i].id == tempId ==> r[i] == confirmed.(pending := false)
  {
    UpdateById(msgs, tempId, _ => confirmed.(pending := false))
  }

  /** A failed send: the optimistic message is kept, marked failed and no longer pending. */
  function MarkFailed(msgs: seq<Message>, tempId: MessageId): (r: seq<Message>)
    ensures |r| == |msgs|
    ensures forall i :: 0 <= i < |msgs| && msgs[i].id != tempId ==> r[i] == msgs[i]
    ensures forall i :: 0 <= i < |msgs| && msgs[i].id == tempId ==>
      r[i] == msgs[i].(failed := true, pending := false)
  {
    UpdateById(msgs, tempId, (m: Message) => m.(failed := true, pending := false))
  }

  /**
   * The hub returns a sent message to its sender too; once the optimistic
   * copy has been confirmed, that echo finds its id and is dropped.
   */
  lemma EchoAfterConfirmIsDropped(msgs: seq<Message>, tempId: MessageId, confirmed: Message)
    requires HasId(msgs, tempId)
    requires !confirmed.pending
    ensures AddIncoming(Confirm(msgs, tempId, confirmed), confirmed) == Confirm(msgs, tempId, confirmed)
  {
    var i :| 0 <= i < |msgs| && msgs[i].id == tempId;
    assert Confirm(msgs, tempId, confirmed)[i].id == confirmed.id;
  }

  // ---------------------------------------------------------------------
  // Pure view helpers.
  // ---------------------------------------------------------------------

  /** The indicator line: nobody, one name, two names, or a head count. */
  function TypingText(names: seq<string>): (r: string)
    ensures r == "" <==> |names| == 0
    ensures |names| == 1 ==> r == names[0] + " is typing..."
    ensures |names| == 2 ==> r == names[0] + " and " + names[1] + " are typing..."
    ensures |names| > 2 ==> r == NatToString(|names|) + " people are typing..."
  {
    if |names| == 1 then names[0] + " is typing..."
    else if |names| == 2 then names[0] + " and " + names[1] + " are typing..."
    else if |names| > 2 then NatToString(|names|) + " people are typing..."
    else ""
  }

  /**
   * The first character of each word; an empty word (from two spaces in a
   * row) gives nothing, as `undefined` joins to the empty string.
   */
  function FirstChars(words: seq<string>): (r: string)
    ensures |r| == |DropEmpty(words)|
    ensures forall k :: 0 <= k < |r| ==> r[k] == DropEmpty(words)[k][0]
  {
    if words == [] then ""
    else (if words[0] == "" then "" else [words[0][0]]) + FirstChars(words[1..])
  }

  /** `getInitials`: the upper-cased first letters of the first two non-empty words. */
  function Initials(name: string): (r: string)
    ensures var words := DropEmpty(Split(name, ' '));
      && |r| == (if |words| < 2 then |words| else 2)
      && forall k :: 0 <= k < |r| ==> r[k] == UpperChar(words[k][0])
  {
    Prefix(ToUpper(FirstChars(Split(name, ' '))), 2)
  }

  /** A self chat: the chat's only participant is the current user. */
  function IsSelfChat(participants: Option<seq<Participant>>, currentUserId: UserId): (r: bool)
    ensures r ==> participants.Some? && (set p | p in participants.value :: p.id) == {currentUserId}
    ensures r <==> participants.Some? && |participants.value| == 1 && participants.value[0].id == currentUserId
  {
    participants.Some? && |participants.value| == 1 && participants.value[0].id == currentUserId
  }

  // ---------------------------------------------------------------------
  // The component's state.
  // ---------------------------------------------------------------------

  /** A send awaiting the server's answer: the temporary id and what was sent. */
  datatype PendingSend = PendingSend(tempId: MessageId, chatId: ChatId, content: string)

  /** The server's answer to a text message; an exception counts as `Failed`. */
  datatype SendOutcome = Sent(messageId: MessageId, createdAt: int) | Failed

  /** The optimistic copy of a message being sent: the current user's, pending, with a temporary id. */
  function Optimistic(tempId: MessageId, user: CurrentUser, content: string, now: int): (m: Message)
    ensures m.id == tempId && m.chatId.None? && m.senderId == user.id && m.content == content
    ensures m.pending && !m.failed && !m.isDrawing
  {
    Message(tempId, None, user.id, user.username, user.avatarUrl, content, false, now, true, false)
  }

  class Window {
    /** The open chat (the `chatId` prop). */
    var chatId: Option<ChatId>
    const user: CurrentUser
    /** `socket && isConnected`: client emits are dropped otherwise. */
    var connected: bool
    var messages: seq<Message>
    /** User id to user name of everybody shown as typing. */
    var typingUsers: map<UserId, string>
    /** The text in the input box (`newMessage`). */
    var draft: string
    var isTyping: bool
    /** A stop-typing timer is pending (`typingTimeoutRef`). */
    var timerArmed: bool

    constructor (chatId: Option<ChatId>, user: CurrentUser, connected: bool)
      ensures this.chatId == chatId && this.user == user && this.connected == connected
      ensures messages == [] && typingUsers == map[] && draft == ""
      ensures !isTyping && !timerArmed
    {
      this.chatId := chatId;
      this.user := user;
      this.connected := connected;
      messages := [];
      typingUsers := map[];
      draft := "";
      isTyping := false;
      timerArmed := false;
    }

    /** What a client emit yields: the event when connected, nothing otherwise. */
    function Emit(ev: Inbound): seq<Inbound>
      reads this
    {
      if connected then [ev] else []
    }

    /**
     * `message-received`: a message for the open chat is merged into the list
     * and its sender no longer shows as typing; anything else is ignored.
     */
    method OnMessageReceived(m: Message)
      modifies this`messages, this`typingUsers
      ensures m.chatId.Some? && m.chatId == chatId ==>
        && messages == AddIncoming(old(messages), m)
        && typingUsers == old(typingUsers) - {m.senderId}
      ensures !(m.chatId.Some? && m.chatId == chatId) ==>
        messages == old(messages) && typingUsers == old(typingUsers)
    {
      if m.chatId.Some? && m.chatId == chatId {
        messages := AddIncoming(messages, m);
        typingUsers := typingUsers - {m.senderId};
      }
    }

    /** `user-typing`: somebody else typing is recorded under their id; one's own echo is ignored. */
    method OnUserTyping(userId: UserId, username: string)
      modifies this`typingUsers
      ensures userId != user.id ==> typingUsers == old(typingUsers)[userId := username]
      ensures userId == user.id ==> typingUsers == old(typingUsers)
    {
      if userId != user.id {
        typingUsers := typingUsers[userId := username];
      }
    }

    /** `user-stop-typing`: the user no longer shows as typing; nobody else changes. */
    method OnUserStopTyping(userId: UserId)
      modifies this`typingUsers
      ensures typingUsers == old(typingUsers) - {userId}
    {
      typingUsers := typingUsers - {userId};
    }

    /**
     * The typing indicator (`Object.values(typingUsers)`): the name of each
     * typing user, once per user and in some order of the users, given by
     * `keys`, and the text for them, which is empty exactly when nobody is
     * typing.
     */
    method TypingIndicator() returns (names: seq<string>, text: string, ghost keys: seq<UserId>)
      ensures |names| == |typingUsers|
      ensures forall n :: n in names ==> n in typingUsers.Values
      ensures forall u :: u in typingUsers ==> typingUsers[u] in names
      ensures |keys| == |names|
      ensures forall u :: u in keys <==> u in typingUsers
      ensures forall i, j :: 0 <= i < j < |keys| ==> keys[i] != keys[j]
      ensures forall i :: 0 <= i < |keys| ==> keys[i] in typingUsers && names[i] == typingUsers[keys[i]]
      ensures text == TypingText(names)
      ensures text == "" <==> typingUsers == map[]
    {
      names, keys := [], [];
      var rest := typingUsers.Keys;
      while rest != {}
        invariant rest <= typingUsers.Keys
        invariant |names| + |rest| == |typingUsers|
        invariant |keys| == |names|
        invariant forall u :: u in keys <==> u in typingUsers && u !in rest
        invariant forall i, j :: 0 <= i < j < |keys| ==> keys[i] != keys[j]
        invariant forall i :: 0 <= i < |keys| ==> keys[i] in typingUsers && names[i] == typingUsers[keys[i]]
        invariant forall n :: n in names ==> n in typingUsers.Values
        invariant forall u :: u in typingUsers && u !in rest ==> typingUsers[u] in names
        decreases |rest|
      {
        var u :| u in rest;
        names, keys := names + [typingUsers[u]], keys + [u];
        rest := rest - {u};
      }
      text := TypingText(names);
    }

    /**
     * Input in the box: only the idle-to-typing change (with a chat open)
     * emits `typing`; every input re-arms the stop timer.
     */
    method HandleTyping() returns (emits: seq<Inbound>)
      modifies this`isTyping, this`timerArmed
      ensures timerArmed
      ensures isTyping == (old(isTyping) || chatId.Some?)
      ensures emits == if !old(isTyping) && chatId.Some?
                       then Emit(Typing(chatId.value, user.id, user.username)) else []
    {
      emits := [];
      if !isTyping && chatId.Some? {
        isTyping := true;
        emits := Emit(Typing(chatId.value, user.id, user.username));
      }
      timerArmed := true;
    }

    /** The stop timer fires: with a chat open, back to idle and `stop-typing` is emitted. */
    method TypingTimerExpired() returns (emits: seq<Inbound>)
      modifies this`isTyping, this`timerArmed
      ensures !timerArmed
      ensures old(timerArmed) && chatId.Some? ==> !isTyping && emits == Emit(StopTyping(chatId.value, user.id))
      ensures !(old(timerArmed) && chatId.Some?) ==> isTyping == old(isTyping) && emits == []
    {
      emits := [];
      if timerArmed {
        timerArmed := false;
        if chatId.Some? {
          isTyping := false;
          emits := Emit(StopTyping(chatId.value, user.id));
        }
      }
    }

    /**
     * Send pressed: nothing for a blank draft (one that `trim` empties, see
     * `Trim`) or no open chat; otherwise the
     * stop timer is cleared, `stop-typing` emitted, exactly one pending
     * message with the fresh temporary id appended, and the draft cleared.
     */
    method BeginSend(tempId: MessageId, now: int) returns (emits: seq<Inbound>, pending: Option<PendingSend>)
      requires !HasId(messages, tempId)
      modifies this`messages, this`draft, this`isTyping, this`timerArmed
      ensures IsBlank(old(draft)) || chatId.None? ==>
        && pending == None && emits == []
        && messages == old(messages) && draft == old(draft)
        && isTyping == old(isTyping) && timerArmed == old(timerArmed)
      ensures !IsBlank(old(draft)) && chatId.Some? ==>
        && pending == Some(PendingSend(tempId, chatId.value, old(draft)))
        && emits == Emit(StopTyping(chatId.value, user.id))
        && messages == old(messages) + [Optimistic(tempId, user, old(draft), now)]
        && draft == "" && !isTyping && !timerArmed
    {
      if IsBlank(draft) || chatId.None? {
        emits, pending := [], None;
        return;
      }
      var content := draft;
      timerArmed, isTyping := false, false;
      emits := Emit(StopTyping(chatId.value, user.id));
      messages := messages + [Optimistic(tempId, user, content, now)];
      pending := Some(PendingSend(tempId, chatId.value, content));
      draft := "";
    }

    /**
     * The server answered a send: only the message with the temporary id
     * changes, to the confirmed message (then broadcast) or to a failed one.
     */
    method CompleteSend(p: PendingSend, outcome: SendOutcome) returns (emits: seq<Inbound>)
      modifies this`messages
      ensures outcome.Sent? ==>
        var confirmed := Message(outcome.messageId, Some(p.chatId), user.id, user.username, user.avatarUrl,
                                 p.content, false, outcome.createdAt, false, false);
        && messages == Confirm(old(messages), p.tempId, confirmed)
        && emits == Emit(NewMessage(confirmed))
      ensures outcome.Failed? ==> messages == MarkFailed(old(messages), p.tempId) && emits == []
    {
      match outcome
      case Sent(messageId, createdAt) =>
        var confirmed := Message(messageId, Some(p.chatId), user.id, user.username, user.avatarUrl,
                                 p.content, false, createdAt, false, false);
        messages := Confirm(messages, p.tempId, confirmed);
        emits := Emit(NewMessage(confirmed));
      case Failed =>
        messages := MarkFailed(messages, p.tempId);
        emits := [];
    }
  }

  /** The number of `typing` events in `emits`. */
  function CountTyping(emits: seq<Inbound>): nat {
    if emits == [] then 0 else (if emits[0].Typing? then 1 else 0) + CountTyping(emits[1..])
  }

  lemma {:induction false} CountTypingAppend(a: seq<Inbound>, b: seq<Inbound>)
    ensures CountTyping(a + b) == CountTyping(a) + CountTyping(b)
  {
    if a == [] {
      assert a + b == b;
    } else {
      assert (a + b)[0] == a[0];
      assert (a + b)[1..] == a[1..] + b;
      CountTypingAppend(a[1..], b);
    }
  }

  /**
   * A burst of `n` inputs with no timer expiry in between emits `typing` at
   * most once, and not at all when the user was typing already.
   */
  method TypingBurst(w: Window, n: nat) returns (emits: seq<Inbound>)
    modifies w`isTyping, w`timerArmed
    ensures CountTyping(emits) <= 1
    ensures old(w.isTyping) ==> CountTyping(emits) == 0
    ensures n > 0 ==> w.timerArmed && w.isTyping == (old(w.isTyping) || w.chatId.Some?)
  {
    emits := [];
    var i := 0;
    while i < n
      invariant 0 <= i <= n
      invariant CountTyping(emits) <= 1
      invariant old(w.isTyping) ==> CountTyping(emits) == 0
      invariant i > 0 ==> w.timerArmed && w.isTyping == (old(w.isTyping) || w.chatId.Some?)
      invariant CountTyping(emits) == 1 ==> w.isTyping
      invariant i == 0 ==> w.isTyping == old(w.isTyping) && emits == []
    {
      var more := w.HandleTyping();
      CountTypingAppend(emits, more);
      emits := emits + more;
      i := i + 1;
    }
  }
}
