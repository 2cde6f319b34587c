/**
 * The room-broadcast hub of `lib/socket-server.ts`: a process-wide server
 * created once, which keeps each socket's rooms (`chat:<id>` for an open
 * chat, `user:<id>` for the socket's user) and fans each inbound event out to
 * a room, either to every member or to every member but the sending socket.
 *
 * Delivery is modelled by returning the list of (recipient, event) pairs the
 * server hands to the transport; the transport itself is not modelled.
 */
module SocketServer {
  import opened Wrappers
  import opened Events

  type SocketId = string
  type RoomName = string

  /** The room of a chat: `chat:<chatId>`. */
  function ChatRoom(chatId: ChatId): RoomName {
    "chat:" + chatId
  }

  /** The room of a user: `user:<userId>`. */
  function UserRoom(userId: UserId): RoomName {
    "user:" + userId
  }

  /** Distinct chats have distinct rooms. */
  lemma ChatRoomInjective(c1: ChatId, c2: ChatId)
    ensures ChatRoom(c1) == ChatRoom(c2) ==> c1 == c2
  {
    assert ChatRoom(c1)[5..] == c1;
    assert ChatRoom(c2)[5..] == c2;
  }

  /** The two prefixes keep chat rooms and user rooms apart. */
  lemma ChatRoomIsNoUserRoom(c: ChatId, u: UserId)
    ensures ChatRoom(c) != UserRoom(u)
  {
    assert ChatRoom(c)[0] == 'c' && UserRoom(u)[0] == 'u';
  }

  /**
   * The room a `new-message` payload is sent to: the template string turns a
   * missing `chatId` into the text "undefined".
   */
  function MessageRoom(m: Message): RoomName {
    ChatRoom(m.chatId.GetOr("undefined"))
  }

  // ---------------------------------------------------------------------
  // The room table: room name to the set of member sockets. A room exists
  // only while it has a member, as in the server's in-memory adapter.
  // ---------------------------------------------------------------------

  type Rooms = map<RoomName, set<SocketId>>

  /** The sockets in `room` (none when the room does not exist). */
  function Members(rooms: Rooms, room: RoomName): set<SocketId> {
    if room in rooms then rooms[room] else {}
  }

  /** The rooms `s` belongs to (`socket.rooms`, without its own-id room). */
  function RoomsOf(rooms: Rooms, s: SocketId): set<RoomName> {
    set r | r in rooms && s in rooms[r]
  }

  /** No room is kept without members. */
  ghost predicate NoEmptyRooms(rooms: Rooms) {
    forall r :: r in rooms ==> rooms[r] != {}
  }

  /** `socket.join(room)`: `s` is a member afterwards; no other membership changes. */
  function JoinRoom(rooms: Rooms, room: RoomName, s: SocketId): (r: Rooms)
    ensures Members(r, room) == Members(rooms, room) + {s}
    ensures forall q :: q != room ==> Members(r, q) == Members(rooms, q)
    ensures NoEmptyRooms(rooms) ==> NoEmptyRooms(r)
  {
    rooms[room := Members(rooms, room) + {s}]
  }

  /** `socket.leave(room)`: `s` is no member afterwards; no other membership changes. */
  function LeaveRoom(rooms: Rooms, room: RoomName, s: SocketId): (r: Rooms)
    ensures Members(r, room) == Members(rooms, room) - {s}
    ensures forall q :: q != room ==> Members(r, q) == Members(rooms, q)
    ensures NoEmptyRooms(rooms) ==> NoEmptyRooms(r)
  {
    var rest := Members(rooms, room) - {s};
    if rest == {} then rooms - {room} else rooms[room := rest]
  }

  /** Joining a room twice is the same as joining it once. */
  lemma JoinIdempotent(rooms: Rooms, room: RoomName, s: SocketId)
    requires NoEmptyRooms(rooms)
    ensures JoinRoom(JoinRoom(rooms, room, s), room, s) == JoinRoom(rooms, room, s)
  {
  }

  /** Joining a room one is in already changes nothing. */
  lemma JoinMemberIsNoop(rooms: Rooms, room: RoomName, s: SocketId)
    requires s in Members(rooms, room)
    ensures JoinRoom(rooms, room, s) == rooms
  {
    assert room in rooms && Members(rooms, room) + {s} == rooms[room];
  }

  /** Leaving a room one never joined changes nothing. */
  lemma LeaveNonMemberIsNoop(rooms: Rooms, room: RoomName, s: SocketId)
    requires NoEmptyRooms(rooms)
    requires s !in Members(rooms, room)
    ensures LeaveRoom(rooms, room, s) == rooms
  {
    if room in rooms {
      assert Members(rooms, room) - {s} == rooms[room];
    } else {
      assert rooms - {room} == rooms;
    }
  }

  /** Applies a run of joins (`true`) and leaves (`false`) of one socket to one room. */
  function ApplyMembership(rooms: Rooms, room: RoomName, s: SocketId, ops: seq<bool>): Rooms
    decreases |ops|
  {
    if ops == [] then rooms
    else
      var next := if ops[0] then JoinRoom(rooms, room, s) else LeaveRoom(rooms, room, s);
      ApplyMembership(next, room, s, ops[1..])
  }

  /**
   * After any run of joins and leaves, the socket is in the room exactly when
   * the last operation was a join (or, for the empty run, when it was before),
   * and every other socket's membership in that room is as it was.
   */
  lemma {:induction false} LastMembershipOpWins(rooms: Rooms, room: RoomName, s: SocketId, ops: seq<bool>)
    ensures var r := ApplyMembership(rooms, room, s, ops);
      && (s in Members(r, room) <==> if ops == [] then s in Members(rooms, room) else ops[|ops| - 1])
      && Members(r, room) - {s} == Members(rooms, room) - {s}
      && forall q :: q != room ==> Members(r, q) == Members(rooms, q)
    decreases |ops|
  {
    if ops != [] {
      var next := if ops[0] then JoinRoom(rooms, room, s) else LeaveRoom(rooms, room, s);
      LastMembershipOpWins(next, room, s, ops[1..]);
      if |ops| > 1 {
        assert ops[1..][|ops[1..]| - 1] == ops[|ops| - 1];
      }
    }
  }

  // ---------------------------------------------------------------------
  // Fan-out.
  // ---------------------------------------------------------------------

  /** One event handed to the transport for one socket. */
  datatype Delivery = Delivery(recipient: SocketId, event: Outbound)

  /** The sockets `ds` delivers to. */
  function Recipients(ds: seq<Delivery>): set<SocketId> {
    set i | 0 <= i < |ds| :: ds[i].recipient
  }

  /** No socket receives twice. */
  predicate Distinct(ds: seq<Delivery>) {
    forall i, j :: 0 <= i < j < |ds| ==> ds[i].recipient != ds[j].recipient
  }

  /** `ds` delivers `ev` once to each socket of `audience` and to nobody else. */
  predicate IsFanOut(ds: seq<Delivery>, audience: set<SocketId>, ev: Outbound) {
    && Recipients(ds) == audience
    && Distinct(ds)
    && |ds| == |audience|
    && forall i :: 0 <= i < |ds| ==> ds[i].event == ev
  }

  /** Emits `ev` to every socket of `audience`, one delivery each, in some order. */
  method FanOut(audience: set<SocketId>, ev: Outbound) returns (ds: seq<Delivery>)
    ensures IsFanOut(ds, audience, ev)
  {
    ds := [];
    var rest := audience;
    while rest != {}
      invariant rest <= audience
      invariant Recipients(ds) == audience - rest
      invariant Distinct(ds)
      invariant |ds| + |rest| == |audience|
      invariant forall i :: 0 <= i < |ds| ==> ds[i].event == ev
      decreases |rest|
    {
      var s :| s in rest;
      RecipientsSnoc(ds, Delivery(s, ev));
      assert forall i :: 0 <= i < |ds| ==> ds[i].recipient != s by {
        forall i | 0 <= i < |ds| ensures ds[i].recipient != s {
          assert ds[i].recipient in Recipients(ds);
        }
      }
      ds := ds + [Delivery(s, ev)];
      rest := rest - {s};
    }
  }

  /** Appending a delivery adds its recipient. */
  lemma RecipientsSnoc(ds: seq<Delivery>, d: Delivery)
    ensures Recipients(ds + [d]) == Recipients(ds) + {d.recipient}
  {
    var ds' := ds + [d];
    assert ds'[|ds|] == d;
    forall t | t in Recipients(ds') ensures t in Recipients(ds) + {d.recipient} {
      var i :| 0 <= i < |ds'| && ds'[i].recipient == t;
      if i < |ds| { assert ds[i].recipient == t; }
    }
    forall t | t in Recipients(ds) ensures t in Recipients(ds') {
      var i :| 0 <= i < |ds| && ds[i].recipient == t;
      assert ds'[i].recipient == t;
    }
  }

  /** A fan-out to a room but its sender, when the sender is in the room, reaches one socket fewer than the room has. */
  lemma AllButSenderCount(ds: seq<Delivery>, room: set<SocketId>, sender: SocketId, ev: Outbound)
    requires sender in room
    requires IsFanOut(ds, room - {sender}, ev)
    ensures |ds| == |room| - 1
    ensures sender !in Recipients(ds)
  {
  }

  // ---------------------------------------------------------------------
  // The recipient policy of each broadcast event.
  // ---------------------------------------------------------------------

  /** Who in the room receives an event: `io.to(room)` or `socket.to(room)`. */
  datatype Audience = Everyone | AllButSender

  /** Where and how an inbound event is relayed. */
  datatype Route = Route(room: RoomName, audience: Audience, event: Outbound)

  /** The relay rule of each handler; membership events relay nothing. */
  function RouteOf(ev: Inbound): Option<Route> {
    match ev
    case SetUserId(_) => None
    case JoinChat(_) => None
    case LeaveChat(_) => None
    case NewMessage(m) => Some(Route(MessageRoom(m), Everyone, MessageReceived(m)))
    case Typing(c, u, name) => Some(Route(ChatRoom(c), AllButSender, UserTyping(u, name)))
    case StopTyping(c, u) => Some(Route(ChatRoom(c), AllButSender, UserStopTyping(u)))
    case DrawingPointSent(c, p) => Some(Route(ChatRoom(c), AllButSender, DrawingPointRelayed(p)))
    case ClearCanvas(c) => Some(Route(ChatRoom(c), AllButSender, CanvasCleared))
    case NewDrawing(d) => Some(Route(ChatRoom(d.chatId), Everyone, NewDrawingRelayed(d)))
  }

  /** The sockets a route reaches when `sender` emitted the event. */
  function AudienceOf(rooms: Rooms, sender: SocketId, route: Route): set<SocketId> {
    match route.audience
    case Everyone => Members(rooms, route.room)
    case AllButSender => Members(rooms, route.room) - {sender}
  }

  /**
   * Only the two persisted events (a message, a drawing) echo back to the
   * sending socket; every relayed event goes to a chat room, never to a
   * user room.
   */
  lemma RoutePolicy(ev: Inbound)
    ensures RouteOf(ev).Some? <==> !(ev.SetUserId? || ev.JoinChat? || ev.LeaveChat?)
    ensures RouteOf(ev).Some? ==>
      (RouteOf(ev).value.audience == Everyone <==> ev.NewMessage? || ev.NewDrawing?)
    ensures RouteOf(ev).Some? ==> forall u :: RouteOf(ev).value.room != UserRoom(u)
  {
    if RouteOf(ev).Some? {
      forall u ensures RouteOf(ev).value.room != UserRoom(u) {
        var c :| RouteOf(ev).value.room == ChatRoom(c);
        ChatRoomIsNoUserRoom(c, u);
      }
    }
  }

  // ---------------------------------------------------------------------
  // The server and its connection handlers.
  // ---------------------------------------------------------------------

  class Hub {
    /** Room name to member sockets. */
    var rooms: Rooms
    /** `socket.data.userId` of each socket that sent `set-user-id`. */
    var userIds: map<SocketId, UserId>

    ghost predicate Valid()
      reads this
    {
      NoEmptyRooms(rooms)
    }

    constructor ()
      ensures Valid() && rooms == map[] && userIds == map[]
    {
      rooms := map[];
      userIds := map[];
    }

    /** `set-user-id`: remembers the user of `s` and joins `s` to that user's room. */
    method OnSetUserId(s: SocketId, userId: UserId)
      requires Valid()
      modifies this
      ensures Valid()
      ensures userIds == old(userIds)[s := userId]
      ensures rooms == JoinRoom(old(rooms), UserRoom(userId), s)
      ensures forall c :: Members(rooms, ChatRoom(c)) == Members(old(rooms), ChatRoom(c))
    {
      forall c ensures ChatRoom(c) != UserRoom(userId) {
        ChatRoomIsNoUserRoom(c, userId);
      }
      userIds := userIds[s := userId];
      rooms := JoinRoom(rooms, UserRoom(userId), s);
    }

    /** `join-chat`: `s` joins `chat:<chatId>`; joining again changes nothing. */
    method OnJoinChat(s: SocketId, chatId: ChatId)
      requires Valid()
      modifies this
      ensures Valid() && userIds == old(userIds)
      ensures rooms == JoinRoom(old(rooms), ChatRoom(chatId), s)
      ensures s in Members(rooms, ChatRoom(chatId))
      ensures s in Members(old(rooms), ChatRoom(chatId)) ==> rooms == old(rooms)
    {
      if s in Members(rooms, ChatRoom(chatId)) {
        JoinMemberIsNoop(rooms, ChatRoom(chatId), s);
      }
      rooms := JoinRoom(rooms, ChatRoom(chatId), s);
    }

    /** `leave-chat`: `s` leaves `chat:<chatId>` only; leaving a room it is not in changes nothing. */
    method OnLeaveChat(s: SocketId, chatId: ChatId)
      requires Valid()
      modifies this
      ensures Valid() && userIds == old(userIds)
      ensures rooms == LeaveRoom(old(rooms), ChatRoom(chatId), s)
      ensures RoomsOf(rooms, s) == RoomsOf(old(rooms), s) - {ChatRoom(chatId)}
      ensures s !in Members(old(rooms), ChatRoom(chatId)) ==> rooms == old(rooms)
    {
      if s !in Members(rooms, ChatRoom(chatId)) {
        LeaveNonMemberIsNoop(rooms, ChatRoom(chatId), s);
      }
      rooms := LeaveRoom(rooms, ChatRoom(chatId), s);
    }

    /** `new-message`: the message, unchanged, to every socket in its chat room, the sender's included. */
    method OnNewMessage(s: SocketId, m: Message) returns (ds: seq<Delivery>)
      ensures IsFanOut(ds, Members(rooms, MessageRoom(m)), MessageReceived(m))
    {
      ds := FanOut(Members(rooms, MessageRoom(m)), MessageReceived(m));
    }

    /** `typing`: `{userId, username}` to the chat room but the sending socket. */
    method OnTyping(s: SocketId, chatId: ChatId, userId: UserId, username: string) returns (ds: seq<Delivery>)
      ensures IsFanOut(ds, Members(rooms, ChatRoom(chatId)) - {s}, UserTyping(userId, username))
    {
      ds := FanOut(Members(rooms, ChatRoom(chatId)) - {s}, UserTyping(userId, username));
    }

    /** `stop-typing`: `{userId}` to the chat room but the sending socket. */
    method OnStopTyping(s: SocketId, chatId: ChatId, userId: UserId) returns (ds: seq<Delivery>)
      ensures IsFanOut(ds, Members(rooms, ChatRoom(chatId)) - {s}, UserStopTyping(userId))
    {
      ds := FanOut(Members(rooms, ChatRoom(chatId)) - {s}, UserStopTyping(userId));
    }

    /** `drawing-point`: the bare point (no chat id) to the chat room but the sending socket. */
    method OnDrawingPoint(s: SocketId, chatId: ChatId, point: DrawPoint) returns (ds: seq<Delivery>)
      ensures IsFanOut(ds, Members(rooms, ChatRoom(chatId)) - {s}, DrawingPointRelayed(point))
    {
      ds := FanOut(Members(rooms, ChatRoom(chatId)) - {s}, DrawingPointRelayed(point));
    }

    /** `clear-canvas`: a payload-free clear to the chat room but the sending socket. */
    method OnClearCanvas(s: SocketId, chatId: ChatId) returns (ds: seq<Delivery>)
      ensures IsFanOut(ds, Members(rooms, ChatRoom(chatId)) - {s}, CanvasCleared)
    {
      ds := FanOut(Members(rooms, ChatRoom(chatId)) - {s}, CanvasCleared);
    }

    /** `new-drawing`: the whole notice to every socket in the chat room, the sender's included. */
    method OnNewDrawing(s: SocketId, d: DrawingNotice) returns (ds: seq<Delivery>)
      ensures IsFanOut(ds, Members(rooms, ChatRoom(d.chatId)), NewDrawingRelayed(d))
    {
      ds := FanOut(Members(rooms, ChatRoom(d.chatId)), NewDrawingRelayed(d));
    }

    /**
     * One inbound event from socket `s`, dispatched to its handler: membership
     * events change the room table and deliver nothing; every other event
     * leaves the table alone and is delivered along its route.
     */
    method Handle(s: SocketId, ev: Inbound) returns (ds: seq<Delivery>)
      requires Valid()
      modifies this
      ensures Valid()
      ensures RouteOf(ev).None? ==> ds == []
      ensures RouteOf(ev).Some? ==>
        && rooms == old(rooms) && userIds == old(userIds)
        && IsFanOut(ds, AudienceOf(rooms, s, RouteOf(ev).value), RouteOf(ev).value.event)
      ensures ev.SetUserId? ==>
        && userIds == old(userIds)[s := ev.userId]
        && rooms == JoinRoom(old(rooms), UserRoom(ev.userId), s)
      ensures ev.JoinChat? ==> userIds == old(userIds) && rooms == JoinRoom(old(rooms), ChatRoom(ev.joinId), s)
      ensures ev.LeaveChat? ==> userIds == old(userIds) && rooms == LeaveRoom(old(rooms), ChatRoom(ev.leaveId), s)
    {
      if RouteOf(ev).None? {
        HandleMembership(s, ev);
        ds := [];
      } else {
        ds := Relay(s, ev);
      }
    }

    /** The three membership events. */
    method HandleMembership(s: SocketId, ev: Inbound)
      requires Valid() && RouteOf(ev).None?
      modifies this
      ensures Valid()
      ensures ev.SetUserId? ==>
        && userIds == old(userIds)[s := ev.userId]
        && rooms == JoinRoom(old(rooms), UserRoom(ev.userId), s)
      ensures ev.JoinChat? ==> userIds == old(userIds) && rooms == JoinRoom(old(rooms), ChatRoom(ev.joinId), s)
      ensures ev.LeaveChat? ==> userIds == old(userIds) && rooms == LeaveRoom(old(rooms), ChatRoom(ev.leaveId), s)
    {
      match ev
      case SetUserId(u) => OnSetUserId(s, u);
      case JoinChat(c) => OnJoinChat(s, c);
      case LeaveChat(c) => OnLeaveChat(s, c);
    }

    /** The relayed events, each through its own handler. */
    method Relay(s: SocketId, ev: Inbound) returns (ds: seq<Delivery>)
      requires RouteOf(ev).Some?
      ensures IsFanOut(ds, AudienceOf(rooms, s, RouteOf(ev).value), RouteOf(ev).value.event)
    {
      var route := RouteOf(ev).value;
      var audience := AudienceOf(rooms, s, route);
      match ev
      case NewMessage(m) =>
        assert audience == Members(rooms, MessageRoom(m));
        ds := OnNewMessage(s, m);
      case Typing(c, u, name) =>
        assert audience == Members(rooms, ChatRoom(c)) - {s};
        ds := OnTyping(s, c, u, name);
      case StopTyping(c, u) =>
        assert audience == Members(rooms, ChatRoom(c)) - {s};
        ds := OnStopTyping(s, c, u);
      case DrawingPointSent(c, p) =>
        assert audience == Members(rooms, ChatRoom(c)) - {s};
        ds := OnDrawingPoint(s, c, p);
      case ClearCanvas(c) =>
        assert audience == Members(rooms, ChatRoom(c)) - {s};
        ds := OnClearCanvas(s, c);
      case NewDrawing(d) =>
        assert audience == Members(rooms, ChatRoom(d.chatId));
        ds := OnNewDrawing(s, d);
    }
  }

  /** The HTTP server object the hub is attached to (`res.socket.server`). */
  class HttpServer {
    var io: Hub?

    constructor ()
      ensures io == null
    {
      io := null;
    }
  }

  /** The module holding the process-wide server (`let io` of the source). */
  class SocketModule {
    var io: Hub?

    constructor ()
      ensures io == null
    {
      io := null;
    }

    /**
     * `getSocketIO(res)`: the existing server whatever `res` is; without one
     * and without `res`, null and nothing created; otherwise a new, empty
     * server, remembered here and attached to `res`.
     */
    method GetSocketIO(res: HttpServer?) returns (r: Hub?)
      modifies this, res
      ensures old(io) != null ==> r == old(io) && io == old(io) && (res != null ==> res.io == old(res.io))
      ensures old(io) == null && res == null ==> r == null && io == null
      ensures old(io) == null && res != null ==>
        && r != null && fresh(r) && io == r && res.io == r
        && r.Valid() && r.rooms == map[] && r.userIds == map[]
    {
      if io != null {
        return io;
      }
      if res == null {
        return null;
      }
      io := new Hub();
      res.io := io;
      return io;
    }
  }

  /** A second call returns the server the first call created, whatever it is given. */
  method GetSocketIOTwice(m: SocketModule, res1: HttpServer, res2: HttpServer?) returns (first: Hub?, second: Hub?)
    requires m.io == null
    modifies m, res1, res2
    ensures first != null && second == first
  {
    first := m.GetSocketIO(res1);
    second := m.GetSocketIO(res2);
  }
}
