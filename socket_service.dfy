/**
 * The Socket.IO room-synchronisation handlers registered by `initSocket`
 * in backend/services/socketService.js.  Each handler is one atomic
 * transition of a `Server` holding the room store, the socket-to-room
 * membership relation kept by Socket.IO, and an outbox of every emit
 * call made so far.  Each emission records the recipient set that
 * Socket.IO resolves at the moment of the call.
 */
module SocketService {
  import opened RoomModel

  type SocketId = string

  /** Memberships created by `socket.join`: the rooms each socket has joined. */
  type Memberships = map<SocketId, set<RoomId>>

  /** The payloads the server sends. */
  datatype Payload =
    | History(records: seq<StrokeRecord>)                     // `loadDrawing`
    | Stroke(data: StrokeData)                                // `drawing`
    | Joined(username: string, socketId: SocketId)            // `userJoined`
    | Chat(username: string, message: string, timestamp: int) // `chatMessage`

  const LOAD_DRAWING: string := "loadDrawing"
  const USER_JOINED: string := "userJoined"
  const DRAWING: string := "drawing"
  const CHAT_MESSAGE: string := "chatMessage"

  /** One emit call: who it reaches, under which event name, with which payload. */
  datatype Emission = Emission(recipients: set<SocketId>, event: string, payload: Payload)

  /** What one socket receives from one emission. */
  datatype Delivery = Delivery(event: string, payload: Payload)

  /** The rooms socket `sid` has joined. */
  function RoomsOf(joined: Memberships, sid: SocketId): (rs: set<RoomId>)
  {
    if sid in joined then joined[sid] else {}
  }

  /** The sockets that `io.to(id)` reaches: every socket that has joined room `id`. */
  function MembersOf(joined: Memberships, id: RoomId): (m: set<SocketId>)
    ensures forall s :: s in m <==> id in RoomsOf(joined, s)
  {
    set s | s in joined && id in joined[s]
  }

  /** `socket.join(id)`: adds room `id` to the socket's rooms; earlier rooms are kept. */
  function JoinSocket(joined: Memberships, sid: SocketId, id: RoomId): (j: Memberships)
    ensures RoomsOf(j, sid) == RoomsOf(joined, sid) + {id}
    ensures forall s :: s != sid ==> RoomsOf(j, s) == RoomsOf(joined, s)
  {
    joined[sid := RoomsOf(joined, sid) + {id}]
  }

  /** What a socket receives from a single emission. */
  function DeliveredBy(e: Emission, sid: SocketId): (d: seq<Delivery>)
  {
    if sid in e.recipients then [Delivery(e.event, e.payload)] else []
  }

  /** The messages socket `sid` has been sent, in emission order. */
  function Inbox(outbox: seq<Emission>, sid: SocketId): (inbox: seq<Delivery>)
    decreases |outbox|
  {
    if outbox == [] then [] else DeliveredBy(outbox[0], sid) + Inbox(outbox[1..], sid)
  }

  /** A new emission reaches exactly its recipients, after everything they had already received. */
  lemma {:induction false} InboxAppend(outbox: seq<Emission>, e: Emission, sid: SocketId)
    ensures Inbox(outbox + [e], sid) == Inbox(outbox, sid) + DeliveredBy(e, sid)
    decreases |outbox|
  {
    if outbox == [] {
      assert [e][1..] == [];
    } else {
      assert (outbox + [e])[1..] == outbox[1..] + [e];
      InboxAppend(outbox[1..], e, sid);
    }
  }

  /** Joining adds exactly the joiner to the room's members and changes no other room's members. */
  lemma JoinAddsMember(joined: Memberships, sid: SocketId, id: RoomId)
    ensures MembersOf(JoinSocket(joined, sid, id), id) == MembersOf(joined, id) + {sid}
    ensures forall r :: r != id ==> MembersOf(JoinSocket(joined, sid, id), r) == MembersOf(joined, r)
  {
  }

  /** Joining a room twice leaves the same memberships as joining it once. */
  lemma JoinIdempotent(joined: Memberships, sid: SocketId, id: RoomId)
    ensures JoinSocket(JoinSocket(joined, sid, id), sid, id) == JoinSocket(joined, sid, id)
  {
  }

  class Server {
    /** The `Room` collection. */
    var rooms: Store
    /** Socket.IO's room membership. */
    var joined: Memberships
    /** Every emit call made by the handlers, oldest first. */
    var outbox: seq<Emission>

    /** Every room a socket has joined exists in the store: a join always follows the room's creation. */
    ghost predicate Valid()
      reads this
    {
      forall s, r :: s in joined && r in joined[s] ==> r in rooms
    }

    /** A freshly started server over the rooms already persisted. */
    constructor (persisted: Store)
      ensures Valid()
      ensures rooms == persisted && joined == map[] && outbox == []
    {
      rooms := persisted;
      joined := map[];
      outbox := [];
    }

    /**
     * `joinRoom {roomId, username}`: fetch-or-create the room, join it,
     * send the whole history to the joiner alone and announce the joiner
     * to the room's other members.  `storeFails` is a `findOne` or `save`
     * that throws.  The handler does not catch it: the rejection escapes
     * the listener uncaught, and the model takes it as a step that changes
     * nothing.
     */
    method JoinRoom(sid: SocketId, roomId: RoomId, username: string, storeFails: bool)
      requires Valid()
      modifies this
      ensures Valid()
      ensures storeFails ==> rooms == old(rooms) && joined == old(joined) && outbox == old(outbox)
      ensures !storeFails ==>
        && rooms == EnsureRoom(old(rooms), roomId)
        && joined == JoinSocket(old(joined), sid, roomId)
        && outbox == old(outbox) + [
             Emission({sid}, LOAD_DRAWING, History(rooms[roomId])),
             Emission(MembersOf(old(joined), roomId) - {sid}, USER_JOINED, Joined(username, sid))]
      ensures !storeFails ==>
        Inbox(outbox, sid) == Inbox(old(outbox), sid) + [Delivery(LOAD_DRAWING, History(rooms[roomId]))]
      ensures !storeFails ==> forall s :: s != sid ==>
        Inbox(outbox, s) == Inbox(old(outbox), s)
          + (if roomId in RoomsOf(old(joined), s) then [Delivery(USER_JOINED, Joined(username, sid))] else [])
    {
      if storeFails {
        return;
      }
      var history: seq<StrokeRecord>;
      if roomId in rooms {
        history := rooms[roomId];
      } else {
        history := [];
        rooms := rooms[roomId := history];
      }
      joined := JoinSocket(joined, sid, roomId);
      JoinAddsMember(old(joined), sid, roomId);
      assert MembersOf(joined, roomId) - {sid} == MembersOf(old(joined), roomId) - {sid};
      var toJoiner := Emission({sid}, LOAD_DRAWING, History(history));
      var toOthers := Emission(MembersOf(joined, roomId) - {sid}, USER_JOINED, Joined(username, sid));
      outbox := outbox + [toJoiner];
      outbox := outbox + [toOthers];
      forall s ensures Inbox(outbox, s) == Inbox(old(outbox), s) + DeliveredBy(toJoiner, s) + DeliveredBy(toOthers, s) {
        InboxAppend(old(outbox), toJoiner, s);
        InboxAppend(old(outbox) + [toJoiner], toOthers, s);
      }
    }

    /**
     * `drawing {roomId, strokeData}`: relay the stroke to the room's other
     * members, then append it to the room's history.  The relay happens
     * whatever the write does; a failed write (`storeFails`) is caught and
     * only logged, and a write to a room missing from the store matches
     * nothing.
     */
    method Drawing(sid: SocketId, roomId: RoomId, strokeData: StrokeData, now: int, storeFails: bool)
      requires Valid()
      modifies this
      ensures Valid()
      ensures joined == old(joined)
      ensures outbox == old(outbox) + [Emission(MembersOf(joined, roomId) - {sid}, DRAWING, Stroke(strokeData))]
      ensures rooms == if storeFails then old(rooms) else PushStroke(old(rooms), roomId, StrokeRecord(strokeData, now))
      ensures !storeFails && roomId in RoomsOf(old(joined), sid) ==>
        rooms[roomId] == old(rooms)[roomId] + [StrokeRecord(strokeData, now)]
      ensures Inbox(outbox, sid) == Inbox(old(outbox), sid)
      ensures forall s :: s != sid ==>
        Inbox(outbox, s) == Inbox(old(outbox), s)
          + (if roomId in RoomsOf(joined, s) then [Delivery(DRAWING, Stroke(strokeData))] else [])
    {
      var relay := Emission(MembersOf(joined, roomId) - {sid}, DRAWING, Stroke(strokeData));
      outbox := outbox + [relay];
      forall s ensures Inbox(outbox, s) == Inbox(old(outbox), s) + DeliveredBy(relay, s) {
        InboxAppend(old(outbox), relay, s);
      }
      if !storeFails && roomId in rooms {
        rooms := rooms[roomId := rooms[roomId] + [StrokeRecord(strokeData, now)]];
      }
    }

    /**
     * `clearCanvas {roomId}`: empty the room's history, then send the empty
     * history to every member, the sender included.  When the write throws
     * (`storeFails`) the error is caught and nothing is sent.
     */
    method ClearCanvas(sid: SocketId, roomId: RoomId, storeFails: bool)
      requires Valid()
      modifies this
      ensures Valid()
      ensures joined == old(joined)
      ensures storeFails ==> rooms == old(rooms) && outbox == old(outbox)
      ensures !storeFails ==>
        && rooms == ClearHistory(old(rooms), roomId)
        && outbox == old(outbox) + [Emission(MembersOf(joined, roomId), LOAD_DRAWING, History([]))]
      ensures !storeFails ==> forall s ::
        Inbox(outbox, s) == Inbox(old(outbox), s)
          + (if roomId in RoomsOf(joined, s) then [Delivery(LOAD_DRAWING, History([]))] else [])
    {
      if storeFails {
        return;
      }
      if roomId in rooms {
        rooms := rooms[roomId := []];
      }
      var reset := Emission(MembersOf(joined, roomId), LOAD_DRAWING, History([]));
      outbox := outbox + [reset];
      forall s ensures Inbox(outbox, s) == Inbox(old(outbox), s) + DeliveredBy(reset, s) {
        InboxAppend(old(outbox), reset, s);
      }
    }

    /**
     * `undoLastStroke {roomId}`: when the room exists and its history is
     * non-empty, drop the last record, save, and send the remaining
     * history to every member, the sender included.  Otherwise, or when
     * `findOne` or `save` throws (`storeFails`), nothing changes and
     * nothing is sent.
     */
    method UndoLastStroke(sid: SocketId, roomId: RoomId, storeFails: bool)
      requires Valid()
      modifies this
      ensures Valid()
      ensures joined == old(joined)
      ensures storeFails || !CanUndo(old(rooms), roomId) ==> rooms == old(rooms) && outbox == old(outbox)
      ensures !storeFails && CanUndo(old(rooms), roomId) ==>
        && rooms == Undo(old(rooms), roomId)
        && outbox == old(outbox) + [Emission(MembersOf(joined, roomId), LOAD_DRAWING, History(rooms[roomId]))]
      ensures !storeFails && CanUndo(old(rooms), roomId) ==> forall s ::
        Inbox(outbox, s) == Inbox(old(outbox), s)
          + (if roomId in RoomsOf(joined, s) then [Delivery(LOAD_DRAWING, History(rooms[roomId]))] else [])
    {
      if storeFails || roomId !in rooms || |rooms[roomId]| == 0 {
        return;
      }
      var history := rooms[roomId];
      history := history[..|history| - 1];
      rooms := rooms[roomId := history];
      var update := Emission(MembersOf(joined, roomId), LOAD_DRAWING, History(history));
      outbox := outbox + [update];
      forall s ensures Inbox(outbox, s) == Inbox(old(outbox), s) + DeliveredBy(update, s) {
        InboxAppend(old(outbox), update, s);
      }
    }

    /**
     * `chatMessage {roomId, message, username}`: send the message with a
     * server timestamp to every member, the sender included.  Nothing is
     * stored.
     */
    method ChatMessage(sid: SocketId, roomId: RoomId, message: string, username: string, now: int)
      requires Valid()
      modifies this
      ensures Valid()
      ensures rooms == old(rooms) && joined == old(joined)
      ensures outbox == old(outbox) + [Emission(MembersOf(joined, roomId), CHAT_MESSAGE, Chat(username, message, now))]
      ensures forall s ::
        Inbox(outbox, s) == Inbox(old(outbox), s)
          + (if roomId in RoomsOf(joined, s) then [Delivery(CHAT_MESSAGE, Chat(username, message, now))] else [])
    {
      var chat := Emission(MembersOf(joined, roomId), CHAT_MESSAGE, Chat(username, message, now));
      outbox := outbox + [chat];
      forall s ensures Inbox(outbox, s) == Inbox(old(outbox), s) + DeliveredBy(chat, s) {
        InboxAppend(old(outbox), chat, s);
      }
    }

    /**
     * `disconnect`: the handler only logs.  Socket.IO itself removes the
     * socket from every room it joined; the store and the outbox are
     * untouched.
     */
    method Disconnect(sid: SocketId)
      requires Valid()
      modifies this
      ensures Valid()
      ensures rooms == old(rooms) && outbox == old(outbox)
      ensures joined == old(joined) - {sid}
      ensures forall r :: MembersOf(joined, r) == MembersOf(old(joined), r) - {sid}
    {
      joined := joined - {sid};
    }
  }

  /**
   * Room `abc123` starts empty; X and Y join; X draws; Y receives the
   * stroke and the room holds one record; X undoes; both are sent the
   * empty history.
   */
  method ScenarioDrawThenUndo()
  {
    var server := new Server(map[]);
    server.JoinRoom("Y", "abc123", "yann", false);
    server.JoinRoom("X", "abc123", "xena", false);
    var stroke := JObject([("x0", JNumber("0")), ("y0", JNumber("0")), ("x1", JNumber("10")), ("y1", JNumber("10"))]);
    var seenByY := Inbox(server.outbox, "Y");
    server.Drawing("X", "abc123", stroke, 1000, false);
    assert Inbox(server.outbox, "Y") == seenByY + [Delivery(DRAWING, Stroke(stroke))];
    assert server.rooms["abc123"] == [StrokeRecord(stroke, 1000)];
    var seenByX := Inbox(server.outbox, "X");
    seenByY := Inbox(server.outbox, "Y");
    server.UndoLastStroke("X", "abc123", false);
    assert server.rooms["abc123"] == [];
    assert Inbox(server.outbox, "X") == seenByX + [Delivery(LOAD_DRAWING, History([]))];
    assert Inbox(server.outbox, "Y") == seenByY + [Delivery(LOAD_DRAWING, History([]))];
  }
}
