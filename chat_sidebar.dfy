/**
 * The chat list of `components/chat-sidebar.tsx`: live updates of each
 * chat's last message from the hub's `message-received` and `new-drawing`
 * events, and the shown list, filtered by name without regard to case and
 * sorted newest first. Timestamps are integers; `updated_at` is the time the
 * update was applied, given as a parameter.
 */
module ChatSidebar {
  import opened Wrappers
  import opened Text
  import opened Events

  /** The preview of a chat's latest message. */
  datatype LastMessage = LastMessage(
    id: MessageId,
    senderId: UserId,
    senderName: string,
    content: string,
    isDrawing: bool,
    createdAt: int)

  /** One entry of the chat list. */
  datatype ChatEntry = ChatEntry(
    id: ChatId,
    name: string,
    isGroup: bool,
    updatedAt: int,
    lastMessage: Option<LastMessage>)

  /** The entry matches an event addressed to `chatId` (`chat.id === event.chatId`). */
  predicate IsAddressed(c: ChatEntry, chatId: Option<ChatId>) {
    chatId == Some(c.id)
  }

  /** Sets `last` and `updatedAt := now` on the entries addressed by `chatId`; all others are kept. */
  function SetLastMessage(chats: seq<ChatEntry>, chatId: Option<ChatId>, last: LastMessage, now: int)
    : (r: seq<ChatEntry>)
    ensures |r| == |chats|
    ensures forall i :: 0 <= i < |chats| && IsAddressed(chats[i], chatId) ==>
      r[i] == chats[i].(lastMessage := Some(last), updatedAt := now)
    ensures forall i :: 0 <= i < |chats| && !IsAddressed(chats[i], chatId) ==> r[i] == chats[i]
  {
    if chats == [] then []
    else
      [if IsAddressed(chats[0], chatId) then chats[0].(lastMessage := Some(last), updatedAt := now) else chats[0]]
      + SetLastMessage(chats[1..], chatId, last, now)
  }

  /** `message-received`: the addressed chat's preview becomes the message. */
  function OnMessageReceived(chats: seq<ChatEntry>, m: Message, now: int): (r: seq<ChatEntry>)
    ensures |r| == |chats|
    ensures forall i :: 0 <= i < |chats| ==> r[i].id == chats[i].id && r[i].name == chats[i].name
    ensures forall i :: 0 <= i < |chats| && IsAddressed(chats[i], m.chatId) ==>
      && r[i].updatedAt == now
      && r[i].lastMessage == Some(LastMessage(m.id, m.senderId, m.senderName, m.content, m.isDrawing, m.createdAt))
    ensures forall i :: 0 <= i < |chats| && !IsAddressed(chats[i], m.chatId) ==> r[i] == chats[i]
  {
    SetLastMessage(chats, m.chatId,
      LastMessage(m.id, m.senderId, m.senderName, m.content, m.isDrawing, m.createdAt), now)
  }

  /** `new-drawing`: the addressed chat's preview becomes "Sent a drawing" by the drawing's sender. */
  function OnNewDrawing(chats: seq<ChatEntry>, d: DrawingNotice, now: int): (r: seq<ChatEntry>)
    ensures |r| == |chats|
    ensures forall i :: 0 <= i < |chats| ==> r[i].id == chats[i].id && r[i].name == chats[i].name
    ensures forall i :: 0 <= i < |chats| && chats[i].id == d.chatId ==>
      && r[i].updatedAt == now
      && r[i].lastMessage == Some(LastMessage(d.messageId, d.senderId, d.senderName, "Sent a drawing", true, d.createdAt))
    ensures forall i :: 0 <= i < |chats| && chats[i].id != d.chatId ==> r[i] == chats[i]
  {
    SetLastMessage(chats, Some(d.chatId),
      LastMessage(d.messageId, d.senderId, d.senderName, "Sent a drawing", true, d.createdAt), now)
  }

  /** An event for a chat that is not in the list leaves the list as it was. */
  lemma {:induction false} UnknownChatIgnored(chats: seq<ChatEntry>, m: Message, d: DrawingNotice, now: int)
    requires forall i :: 0 <= i < |chats| ==> !IsAddressed(chats[i], m.chatId)
    requires forall i :: 0 <= i < |chats| ==> chats[i].id != d.chatId
    ensures OnMessageReceived(chats, m, now) == chats
    ensures OnNewDrawing(chats, d, now) == chats
  {
    var a := OnMessageReceived(chats, m, now);
    var b := OnNewDrawing(chats, d, now);
    assert forall i :: 0 <= i < |chats| ==> a[i] == chats[i];
    assert forall i :: 0 <= i < |chats| ==> b[i] == chats[i];
  }

  // ---------------------------------------------------------------------
  // The shown list.
  // ---------------------------------------------------------------------

  /** The lower-cased name contains the lower-cased query. */
  predicate Matches(c: ChatEntry, query: string) {
    Contains(ToLower(c.name), ToLower(query))
  }

  /** The entries that match the query, in list order. */
  function FilterByName(chats: seq<ChatEntry>, query: string): (r: seq<ChatEntry>)
    ensures forall c :: c in r <==> c in chats && Matches(c, query)
    ensures |r| <= |chats|
  {
    if chats == [] then []
    else (if Matches(chats[0], query) then [chats[0]] else []) + FilterByName(chats[1..], query)
  }

  /** Filtering keeps list order: it distributes over concatenation. */
  lemma {:induction false} FilterDistributes(a: seq<ChatEntry>, b: seq<ChatEntry>, query: string)
    ensures FilterByName(a + b, query) == FilterByName(a, query) + FilterByName(b, query)
  {
    if a == [] {
      assert a + b == b;
    } else {
      assert (a + b)[0] == a[0];
      assert (a + b)[1..] == a[1..] + b;
      FilterDistributes(a[1..], b, query);
    }
  }

  /** One chat is kept exactly when it matches. */
  lemma FilterSingle(c: ChatEntry, query: string)
    ensures FilterByName([c], query) == if Matches(c, query) then [c] else []
  {
    assert [c][1..] == [];
  }

  /** The empty query matches every chat, so filtering by it keeps the list. */
  lemma {:induction false} EmptyQueryKeepsAll(chats: seq<ChatEntry>)
    ensures FilterByName(chats, "") == chats
  {
    if chats != [] {
      assert ToLower("") == "";
      assert Matches(chats[0], "");
      EmptyQueryKeepsAll(chats[1..]);
      assert [chats[0]] + chats[1..] == chats;
    }
  }

  /** The time a chat sorts by: its last message's, else its own update time. */
  function RecencyKey(c: ChatEntry): int {
    if c.lastMessage.Some? then c.lastMessage.value.createdAt else c.updatedAt
  }

  /** Newest first. */
  predicate NewestFirst(s: seq<ChatEntry>) {
    forall i, j :: 0 <= i < j < |s| ==> RecencyKey(s[i]) >= RecencyKey(s[j])
  }

  /** Each entry is at least as recent as the next one. */
  predicate StepwiseNewestFirst(s: seq<ChatEntry>) {
    forall i :: 0 < i < |s| ==> RecencyKey(s[i - 1]) >= RecencyKey(s[i])
  }

  lemma {:induction false} StepwiseIsNewestFirst(s: seq<ChatEntry>)
    requires StepwiseNewestFirst(s)
    ensures NewestFirst(s)
  {
    if |s| > 1 {
      StepwiseIsNewestFirst(s[1..]);
      assert forall j :: 1 <= j < |s| ==> RecencyKey(s[1]) >= RecencyKey(s[j]) by {
        forall j | 1 < j < |s| ensures RecencyKey(s[1]) >= RecencyKey(s[j]) {
          assert s[1] == s[1..][0] && s[j] == s[1..][j - 1];
        }
      }
    }
  }

  /** Inserts `c` into a newest-first list ahead of the entries that are not newer than it. */
  function InsertByRecency(c: ChatEntry, sorted: seq<ChatEntry>): (r: seq<ChatEntry>)
    requires StepwiseNewestFirst(sorted)
    ensures StepwiseNewestFirst(r)
    ensures multiset(r) == multiset(sorted) + multiset{c}
    ensures |r| == |sorted| + 1 && (r[0] == c || (sorted != [] && r[0] == sorted[0]))
  {
    if sorted == [] || RecencyKey(c) >= RecencyKey(sorted[0]) then
      [c] + sorted
    else
      assert [sorted[0]] + sorted[1..] == sorted;
      [sorted[0]] + InsertByRecency(c, sorted[1..])
  }

  /** The list ordered newest first; equally recent entries keep their order. */
  function SortByRecency(chats: seq<ChatEntry>): (r: seq<ChatEntry>)
    ensures StepwiseNewestFirst(r)
    ensures multiset(r) == multiset(chats)
  {
    if chats == [] then []
    else
      assert [chats[0]] + chats[1..] == chats;
      InsertByRecency(chats[0], SortByRecency(chats[1..]))
  }

  /** `filteredChats`: the matching chats, newest first. */
  function Shown(chats: seq<ChatEntry>, query: string): (r: seq<ChatEntry>)
    ensures NewestFirst(r)
    ensures forall c :: c in r <==> c in chats && Matches(c, query)
    ensures multiset(r) == multiset(FilterByName(chats, query))
  {
    var r := SortByRecency(FilterByName(chats, query));
    StepwiseIsNewestFirst(r);
    assert forall c :: c in r <==> c in multiset(r);
    r
  }

  /** "No chats found" is shown exactly when no chat matches the query. */
  lemma NoChatsFound(chats: seq<ChatEntry>, query: string)
    ensures Shown(chats, query) == [] <==> forall i :: 0 <= i < |chats| ==> !Matches(chats[i], query)
  {
    if Shown(chats, query) != [] {
      assert Shown(chats, query)[0] in Shown(chats, query);
    }
  }
}
