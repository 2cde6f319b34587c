/**
 * The shared drawing board of `components/drawing-canvas.tsx`: the undo/redo
 * history of canvas snapshots (`drawingHistory`, `historyIndex`), the
 * `isDrawing` gate on the stroke samples a client emits, the handling of a
 * remote stroke's end, and the events emitted around clearing and sending a
 * drawing. Canvas images are opaque snapshots; pixels are not modelled.
 */
module DrawingCanvas {
  import opened Wrappers
  import opened Events

  /** An opaque canvas image (`ImageData`). */
  datatype Snapshot = Snapshot(tag: nat)

  /** The history list and the position of the shown entry. */
  datatype History = History(entries: seq<Snapshot>, index: int)

  /**
   * The history is either not yet started (empty, index -1, as first
   * rendered) or the index points at an entry.
   */
  predicate ValidHistory(h: History) {
    (h.entries == [] && h.index == -1) || 0 <= h.index < |h.entries|
  }

  /** The index names an entry to show (the `resizeCanvas` test). */
  predicate HasCurrent(h: History) {
    0 <= h.index < |h.entries|
  }

  /** History at first layout: kept if it has a current entry, else just the blank canvas. */
  function Init(h: History, blank: Snapshot): (r: History)
    ensures HasCurrent(h) ==> r == h
    ensures !HasCurrent(h) ==> r.entries == [blank] && r.index == 0
    ensures ValidHistory(r) && HasCurrent(r)
  {
    if HasCurrent(h) then h else History([blank], 0)
  }

  /** The undo button is enabled. */
  predicate CanUndo(h: History) {
    h.index > 0
  }

  /** The redo button is enabled. */
  predicate CanRedo(h: History) {
    h.index < |h.entries| - 1
  }

  /** Undo: one entry back, the list unchanged; nothing at the first entry. */
  function Undo(h: History): (r: History)
    ensures r.entries == h.entries
    ensures CanUndo(h) ==> r.index == h.index - 1
    ensures !CanUndo(h) ==> r == h
    ensures ValidHistory(h) ==> ValidHistory(r)
  {
    if CanUndo(h) then h.(index := h.index - 1) else h
  }

  /** Redo: one entry forward, the list unchanged; nothing at the last entry. */
  function Redo(h: History): (r: History)
    ensures r.entries == h.entries
    ensures CanRedo(h) ==> r.index == h.index + 1
    ensures !CanRedo(h) ==> r == h
    ensures ValidHistory(h) ==> ValidHistory(r)
  {
    if CanRedo(h) then h.(index := h.index + 1) else h
  }

  /**
   * A finished local stroke: the entries after the current one are dropped,
   * the new snapshot is appended and becomes current.
   */
  function Commit(h: History, s: Snapshot): (r: History)
    requires ValidHistory(h)
    ensures r.entries == h.entries[..h.index + 1] + [s]
    ensures r.index == |r.entries| - 1 && ValidHistory(r)
  {
    var kept := h.entries[..h.index + 1];
    History(kept + [s], |kept|)
  }

  /** A remote stroke's end: the same truncation, with the index advanced by one. */
  function RemoteEnd(h: History, s: Snapshot): (r: History)
    requires ValidHistory(h)
    ensures r.index == h.index + 1 && ValidHistory(r)
  {
    History(h.entries[..h.index + 1] + [s], h.index + 1)
  }

  /** Clear: the cleared snapshot is appended to the whole list (redo entries kept) and becomes current. */
  function AppendCleared(h: History, s: Snapshot): (r: History)
    ensures r.entries == h.entries + [s] && r.index == |h.entries|
    ensures ValidHistory(r)
  {
    History(h.entries + [s], |h.entries|)
  }

  /** Undo followed by redo returns to the same history. */
  lemma RedoUndoes(h: History)
    requires ValidHistory(h) && CanUndo(h)
    ensures Redo(Undo(h)) == h
  {
  }

  /** Redo followed by undo returns to the same history. */
  lemma UndoRedoes(h: History)
    requires ValidHistory(h) && CanRedo(h)
    ensures Undo(Redo(h)) == h
  {
  }

  /** After a stroke there is nothing to redo, and undo shows the entry that was current before. */
  lemma CommitDropsRedo(h: History, s: Snapshot)
    requires ValidHistory(h)
    ensures !CanRedo(Commit(h, s))
    ensures HasCurrent(h) ==> Undo(Commit(h, s)) == History(h.entries[..h.index + 1] + [s], h.index)
    ensures HasCurrent(h) ==> Undo(Commit(h, s)).entries[h.index] == h.entries[h.index]
  {
  }

  /** On a valid history a remote stroke's end does what a local stroke's end does. */
  lemma RemoteEndIsCommit(h: History, s: Snapshot)
    requires ValidHistory(h)
    ensures RemoteEnd(h, s) == Commit(h, s)
  {
  }

  /**
   * Clearing keeps every older entry, redo entries included, so an undo right
   * after a clear goes to the last older entry, which is the one shown before
   * the clear only when there was nothing to redo.
   */
  lemma UndoAfterClear(h: History, s: Snapshot)
    requires HasCurrent(h)
    ensures h.entries <= AppendCleared(h, s).entries
    ensures Undo(AppendCleared(h, s)) == History(h.entries + [s], |h.entries| - 1)
    ensures Undo(AppendCleared(h, s)).index == h.index <==> !CanRedo(h)
  {
  }

  /** The outcome of storing a drawing on the server; an exception counts as `Failed`. */
  datatype DrawingOutcome = Stored(messageId: MessageId, createdAt: int) | Failed

  class Canvas {
    /** The open chat (the `chatId` prop). */
    var chatId: Option<ChatId>
    const userId: UserId
    const username: string
    /** `socket && isConnected`: client emits are dropped otherwise. */
    var connected: bool
    var color: string
    var brushSize: int
    var history: seq<Snapshot>
    var historyIndex: int
    var isDrawing: bool
    var isSending: bool

    ghost predicate Valid()
      reads this
    {
      ValidHistory(Hist())
    }

    /** The history as one value. */
    function Hist(): History
      reads this
    {
      History(history, historyIndex)
    }

    constructor (chatId: Option<ChatId>, userId: UserId, username: string, connected: bool)
      ensures Valid()
      ensures this.chatId == chatId && this.userId == userId && this.username == username
      ensures this.connected == connected && color == "#000000" && brushSize == 5
      ensures history == [] && historyIndex == -1 && !isDrawing && !isSending
    {
      this.chatId := chatId;
      this.userId := userId;
      this.username := username;
      this.connected := connected;
      color := "#000000";
      brushSize := 5;
      history := [];
      historyIndex := -1;
      isDrawing := false;
      isSending := false;
    }

    /** What a client emit yields: the event when connected, nothing otherwise. */
    function Emit(ev: Inbound): seq<Inbound>
      reads this
    {
      if connected then [ev] else []
    }

    /** A stroke sample with the current colour and brush size. */
    function Sample(x: int, y: int, kind: StrokeKind): DrawPoint
      reads this
    {
      DrawPoint(x, y, color, brushSize, kind)
    }

    /** `resizeCanvas`: shows the current entry, or starts the history with the blank canvas. */
    method Resize(blank: Snapshot) returns (shown: Snapshot)
      requires Valid()
      modifies this`history, this`historyIndex
      ensures Valid() && HasCurrent(Hist())
      ensures Hist() == Init(old(Hist()), blank)
      ensures shown == history[historyIndex]
    {
      if !(0 <= historyIndex < |history|) {
        history := [blank];
        historyIndex := 0;
      }
      shown := history[historyIndex];
    }

    /** `handleUndo`: the entry restored, if the index moved back. */
    method HandleUndo() returns (restored: Option<Snapshot>)
      requires Valid()
      modifies this`historyIndex
      ensures Valid() && Hist() == Undo(old(Hist()))
      ensures restored == if CanUndo(old(Hist())) then Some(history[historyIndex]) else None
    {
      if historyIndex <= 0 {
        return None;
      }
      historyIndex := historyIndex - 1;
      restored := Some(history[historyIndex]);
    }

    /** `handleRedo`: the entry restored, if the index moved forward. */
    method HandleRedo() returns (restored: Option<Snapshot>)
      requires Valid()
      modifies this`historyIndex
      ensures Valid() && Hist() == Redo(old(Hist()))
      ensures restored == if CanRedo(old(Hist())) then Some(history[historyIndex]) else None
    {
      if historyIndex >= |history| - 1 {
        return None;
      }
      historyIndex := historyIndex + 1;
      restored := Some(history[historyIndex]);
    }

    /** `startDrawing`: with a chat open, drawing starts and a `start` sample is emitted. */
    method StartDrawing(x: int, y: int) returns (emits: seq<Inbound>)
      modifies this`isDrawing
      ensures chatId.None? ==> isDrawing == old(isDrawing) && emits == []
      ensures chatId.Some? ==> isDrawing && emits == Emit(DrawingPointSent(chatId.value, Sample(x, y, Start)))
    {
      if chatId.None? {
        return [];
      }
      isDrawing := true;
      emits := Emit(DrawingPointSent(chatId.value, Sample(x, y, Start)));
    }

    /** `draw`: a `move` sample is emitted only while drawing in an open chat. */
    method Draw(x: int, y: int) returns (emits: seq<Inbound>)
      ensures emits == if isDrawing && chatId.Some?
                       then Emit(DrawingPointSent(chatId.value, Sample(x, y, Move))) else []
    {
      if !isDrawing || chatId.None? {
        return [];
      }
      emits := Emit(DrawingPointSent(chatId.value, Sample(x, y, Move)));
    }

    /**
     * `stopDrawing`: while drawing in an open chat, drawing stops, the
     * snapshot is committed and an `end` sample at (0, 0) is emitted;
     * otherwise nothing happens.
     */
    method StopDrawing(current: Snapshot) returns (emits: seq<Inbound>)
      requires Valid()
      modifies this`isDrawing, this`history, this`historyIndex
      ensures Valid()
      ensures !(old(isDrawing) && chatId.Some?) ==>
        Hist() == old(Hist()) && isDrawing == old(isDrawing) && emits == []
      ensures old(isDrawing) && chatId.Some? ==>
        && !isDrawing
        && Hist() == Commit(old(Hist()), current)
        && emits == Emit(DrawingPointSent(chatId.value, Sample(0, 0, End)))
    {
      if !isDrawing || chatId.None? {
        return [];
      }
      isDrawing := false;
      var kept := history[..historyIndex + 1];
      history := kept + [current];
      historyIndex := |kept|;
      emits := Emit(DrawingPointSent(chatId.value, Sample(0, 0, End)));
    }

    /** `handleClear`: the cleared snapshot is appended; `clear-canvas` is emitted in an open chat. */
    method HandleClear(cleared: Snapshot) returns (emits: seq<Inbound>)
      requires Valid()
      modifies this`history, this`historyIndex
      ensures Valid() && Hist() == AppendCleared(old(Hist()), cleared)
      ensures emits == if chatId.Some? then Emit(ClearCanvas(chatId.value)) else []
    {
      history := history + [cleared];
      historyIndex := |history| - 1;
      emits := if chatId.Some? then Emit(ClearCanvas(chatId.value)) else [];
    }

    /**
     * A remote `drawing-point`: only an `end` sample changes the history (the
     * listener exists only while a chat is open).
     */
    method OnRemotePoint(point: DrawPoint, current: Snapshot)
      requires Valid()
      modifies this`history, this`historyIndex
      ensures Valid()
      ensures point.kind == End && chatId.Some? ==> Hist() == RemoteEnd(old(Hist()), current)
      ensures !(point.kind == End && chatId.Some?) ==> Hist() == old(Hist())
    {
      if point.kind == End && chatId.Some? {
        history := history[..historyIndex + 1] + [current];
        historyIndex := historyIndex + 1;
      }
    }

    /** Send pressed: with a chat open, sending starts for that chat. */
    method BeginSendDrawing() returns (request: Option<ChatId>)
      modifies this`isSending
      ensures request == chatId
      ensures chatId.Some? ==> isSending
      ensures chatId.None? ==> isSending == old(isSending)
    {
      if chatId.None? {
        return None;
      }
      isSending := true;
      request := chatId;
    }

    /**
     * The server answered: on success the canvas is cleared and only then is
     * `new-drawing` emitted; on failure nothing but the sending flag changes.
     */
    method CompleteSendDrawing(sentTo: ChatId, outcome: DrawingOutcome, cleared: Snapshot)
      returns (emits: seq<Inbound>)
      requires Valid()
      modifies this`history, this`historyIndex, this`isSending
      ensures Valid() && !isSending
      ensures outcome.Failed? ==> Hist() == old(Hist()) && emits == []
      ensures outcome.Stored? ==>
        && Hist() == AppendCleared(old(Hist()), cleared)
        && emits == (if chatId.Some? then Emit(ClearCanvas(chatId.value)) else [])
                    + Emit(NewDrawing(DrawingNotice(sentTo, outcome.messageId, userId, username, outcome.createdAt)))
    {
      emits := [];
      if outcome.Stored? {
        emits := HandleClear(cleared);
        emits := emits + Emit(NewDrawing(DrawingNotice(sentTo, outcome.messageId, userId, username, outcome.createdAt)));
      }
      isSending := false;
    }
  }

  /** The samples a client emits are `move` samples only between a `start` and the next `end`. */
  method StrokeGate(c: Canvas, x: int, y: int, current: Snapshot) returns (before: seq<Inbound>, during: seq<Inbound>, after: seq<Inbound>)
    requires c.Valid() && !c.isDrawing
    modifies c`isDrawing, c`history, c`historyIndex
    ensures before == []
    ensures c.chatId.Some? && c.connected ==> |during| == 1 && during[0].DrawingPointSent? && during[0].point.kind == Move
    ensures after == []
  {
    before := c.Draw(x, y);
    var start := c.StartDrawing(x, y);
    during := c.Draw(x, y);
    var end := c.StopDrawing(current);
    after := c.Draw(x, y);
  }
}
