/**
 * The client's replica of a room: the state cells of `RoomProvider` in
 * CanvasConnect/src/context/RoomContext.jsx and the socket listeners
 * that overwrite them.  Each listener callback and each exported
 * function is one atomic method.
 */
module RoomContext {
  import opened Common
  import opened RoomModel

  /** The events the client emits to the server. */
  datatype Outgoing =
    | JoinRoomOut(roomId: RoomId, username: string)
    | LeaveRoomOut(roomId: RoomId, username: string)
    | DrawingOut(roomId: RoomId, strokeData: StrokeData)

  /** `history.map(item => item.data)`: the stroke data of each record, in order. */
  function Project(history: seq<StrokeRecord>): (r: seq<StrokeData>)
    ensures |r| == |history|
    ensures forall i :: 0 <= i < |history| ==> r[i] == history[i].data
    decreases |history|
  {
    if history == [] then [] else [history[0].data] + Project(history[1..])
  }

  /** `n` copies of `x`: what `n` identical listeners append for one event. */
  function Repeat<T>(x: T, n: nat): (r: seq<T>)
    ensures |r| == n
    ensures forall i :: 0 <= i < n ==> r[i] == x
    decreases n
  {
    if n == 0 then [] else [x] + Repeat(x, n - 1)
  }

  /** A room identifier is set in JavaScript's sense: not `null` and not the empty string. */
  predicate IsRoomSet(roomId: Option<RoomId>)
  {
    roomId.Some? && roomId.value != ""
  }

  /**
   * A receiving client follows the server's log: if it shows the
   * projection of the server's history, then after the server appends a
   * record and the client (with one listener) appends the relayed
   * stroke, it still shows the projection.  The client that drew the
   * stroke is not relayed it and does not follow until its next
   * `loadDrawing`.
   */
  lemma ReplicaFollowsAppend(log: seq<StrokeRecord>, rec: StrokeRecord)
    ensures Project(log + [rec]) == Project(log) + Repeat(rec.data, 1)
  {
  }

  /** The same after an undo: the pushed history is the projection with its last stroke removed. */
  lemma ReplicaFollowsUndo(log: seq<StrokeRecord>)
    requires |log| > 0
    ensures Project(log[..|log| - 1]) == Project(log)[..|log| - 1]
  {
  }

  class RoomProvider {
    /** Whether a socket was created (the user was authenticated when the provider connected). */
    const hasSocket: bool
    var isConnected: bool
    var roomId: Option<RoomId>
    var drawingHistory: seq<StrokeData>
    var usersInRoom: seq<string>
    /**
     * How many times the `loadDrawing`, `drawing` and `userJoined`
     * listeners are registered: each `joinRoom` adds one set, `leaveRoom`
     * removes all of them, a disconnect removes none.
     */
    var roomListeners: nat
    /** Every event the client has emitted, oldest first. */
    var sent: seq<Outgoing>

    /** Listeners and emits exist only on a socket, and a room is only ever entered with listeners registered. */
    ghost predicate Valid()
      reads this
    {
      && (!hasSocket ==> !isConnected && roomListeners == 0 && sent == [])
      && (roomId.Some? ==> hasSocket && roomListeners > 0)
    }

    /** The initial cells, with or without a socket. */
    constructor (hasSocket: bool)
      ensures Valid()
      ensures this.hasSocket == hasSocket
      ensures !isConnected && roomId == None && drawingHistory == [] && usersInRoom == []
      ensures roomListeners == 0 && sent == []
    {
      this.hasSocket := hasSocket;
      isConnected := false;
      roomId := None;
      drawingHistory := [];
      usersInRoom := [];
      roomListeners := 0;
      sent := [];
    }

    /** The `connect` listener. */
    method OnConnect()
      requires hasSocket
      requires Valid()
      modifies this
      ensures Valid()
      ensures isConnected
      ensures roomId == old(roomId) && drawingHistory == old(drawingHistory) && usersInRoom == old(usersInRoom)
      ensures roomListeners == old(roomListeners) && sent == old(sent)
    {
      isConnected := true;
    }

    /** The `disconnect` listener: everything about the room is reset; the room listeners stay registered. */
    method OnDisconnect()
      requires hasSocket
      requires Valid()
      modifies this
      ensures Valid()
      ensures !isConnected && roomId == None && drawingHistory == [] && usersInRoom == []
      ensures roomListeners == old(roomListeners) && sent == old(sent)
    {
      isConnected := false;
      roomId := None;
      drawingHistory := [];
      usersInRoom := [];
    }

    /**
     * `joinRoom(id)`.  With a socket and a current user, the socket is
     * connected first (awaiting `connect` if need be), then `roomId`
     * becomes `id`, `joinRoom {roomId: id, username}` is emitted and the
     * room listeners are registered once more.  Without them nothing is
     * emitted and no cell changes (a `connect()` started on a
     * disconnected socket completes later, as `OnConnect`).
     */
    method JoinRoom(id: RoomId, currentUser: Option<string>)
      requires Valid()
      modifies this
      ensures Valid()
      ensures drawingHistory == old(drawingHistory) && usersInRoom == old(usersInRoom)
      ensures hasSocket && currentUser.Some? ==>
        && isConnected
        && roomId == Some(id)
        && sent == old(sent) + [JoinRoomOut(id, currentUser.value)]
        && roomListeners == old(roomListeners) + 1
      ensures !(hasSocket && currentUser.Some?) ==>
        && isConnected == old(isConnected) && roomId == old(roomId)
        && sent == old(sent) && roomListeners == old(roomListeners)
    {
      if hasSocket && currentUser.Some? {
        isConnected := true;
        roomId := Some(id);
        sent := sent + [JoinRoomOut(id, currentUser.value)];
        roomListeners := roomListeners + 1;
      }
    }

    /**
     * `leaveRoom()`.  With a socket and a room set, emits `leaveRoom`,
     * unregisters the room listeners and resets the room cells.  With no
     * current user, reading `currentUser.username` throws a `TypeError`
     * (`threw`) before anything happens.  With no socket or no room set,
     * nothing changes.
     */
    method LeaveRoom(currentUser: Option<string>) returns (threw: bool)
      requires Valid()
      modifies this
      ensures Valid()
      ensures threw <==> hasSocket && IsRoomSet(old(roomId)) && currentUser.None?
      ensures isConnected == old(isConnected)
      ensures hasSocket && IsRoomSet(old(roomId)) && currentUser.Some? ==>
        && sent == old(sent) + [LeaveRoomOut(old(roomId).value, currentUser.value)]
        && roomListeners == 0
        && roomId == None && drawingHistory == [] && usersInRoom == []
      ensures !(hasSocket && IsRoomSet(old(roomId)) && currentUser.Some?) ==>
        && sent == old(sent) && roomListeners == old(roomListeners)
        && roomId == old(roomId) && drawingHistory == old(drawingHistory) && usersInRoom == old(usersInRoom)
    {
      threw := hasSocket && IsRoomSet(roomId) && currentUser.None?;
      if hasSocket && IsRoomSet(roomId) && currentUser.Some? {
        sent := sent + [LeaveRoomOut(roomId.value, currentUser.value)];
        roomListeners := 0;
        roomId := None;
        drawingHistory := [];
        usersInRoom := [];
      }
    }

    /** `emitDrawing(strokeData)`: emits `drawing {roomId, strokeData}` only with a socket and a room set. */
    method EmitDrawing(strokeData: StrokeData)
      requires Valid()
      modifies this
      ensures Valid()
      ensures isConnected == old(isConnected) && roomId == old(roomId)
      ensures drawingHistory == old(drawingHistory) && usersInRoom == old(usersInRoom)
      ensures roomListeners == old(roomListeners)
      ensures sent == if hasSocket && IsRoomSet(roomId) then old(sent) + [DrawingOut(roomId.value, strokeData)] else old(sent)
      ensures IsRoomSet(roomId) ==> sent == old(sent) + [DrawingOut(roomId.value, strokeData)]
    {
      if hasSocket && IsRoomSet(roomId) {
        sent := sent + [DrawingOut(roomId.value, strokeData)];
      }
    }

    /** A `loadDrawing` event: each registered listener replaces the history with the records' data. */
    method OnLoadDrawing(history: seq<StrokeRecord>)
      requires Valid()
      modifies this
      ensures Valid()
      ensures isConnected == old(isConnected) && roomId == old(roomId) && usersInRoom == old(usersInRoom)
      ensures roomListeners == old(roomListeners) && sent == old(sent)
      ensures roomListeners > 0 ==>
        |drawingHistory| == |history| && forall i :: 0 <= i < |history| ==> drawingHistory[i] == history[i].data
      ensures roomListeners == 0 ==> drawingHistory == old(drawingHistory)
    {
      if roomListeners > 0 {
        drawingHistory := Project(history);
      }
    }

    /** A `drawing` event: each registered listener appends the stroke. */
    method OnDrawing(strokeData: StrokeData)
      requires Valid()
      modifies this
      ensures Valid()
      ensures isConnected == old(isConnected) && roomId == old(roomId) && usersInRoom == old(usersInRoom)
      ensures roomListeners == old(roomListeners) && sent == old(sent)
      ensures drawingHistory == old(drawingHistory) + Repeat(strokeData, roomListeners)
      ensures roomListeners == 1 ==> drawingHistory == old(drawingHistory) + [strokeData]
    {
      drawingHistory := drawingHistory + Repeat(strokeData, roomListeners);
    }

    /** A `userJoined` event: each registered listener appends the joined username. */
    method OnUserJoined(username: string)
      requires Valid()
      modifies this
      ensures Valid()
      ensures isConnected == old(isConnected) && roomId == old(roomId) && drawingHistory == old(drawingHistory)
      ensures roomListeners == old(roomListeners) && sent == old(sent)
      ensures usersInRoom == old(usersInRoom) + Repeat(username, roomListeners)
      ensures roomListeners == 1 ==> usersInRoom == old(usersInRoom) + [username]
    {
      usersInRoom := usersInRoom + Repeat(username, roomListeners);
    }
  }

  /**
   * A disconnect keeps the room listeners, so rejoining the same room
   * afterwards leaves two of them and every relayed stroke is then
   * appended twice.
   */
  method RejoinAfterDisconnect(id: RoomId, user: string, stroke: StrokeData)
  {
    var room := new RoomProvider(true);
    room.OnConnect();
    room.JoinRoom(id, Some(user));
    room.OnDrawing(stroke);
    assert room.drawingHistory == [stroke];
    room.OnDisconnect();
    room.OnConnect();
    room.JoinRoom(id, Some(user));
    assert room.roomListeners == 2;
    room.OnDrawing(stroke);
    assert room.drawingHistory == [stroke, stroke];
  }

  /**
   * The client that draws a stroke only emits it: `emitDrawing` leaves
   * `drawingHistory` as it was, and the server relays the stroke to the
   * other members only, so the drawer's replica lacks its own stroke
   * until the next `loadDrawing`.
   */
  method DrawerMissesOwnStroke(id: RoomId, user: string, stroke: StrokeData)
    requires id != ""
  {
    var room := new RoomProvider(true);
    room.OnConnect();
    room.JoinRoom(id, Some(user));
    room.OnLoadDrawing([]);
    room.EmitDrawing(stroke);
    assert room.sent == [JoinRoomOut(id, user), DrawingOut(id, stroke)];
    assert room.drawingHistory == [];
  }
}
