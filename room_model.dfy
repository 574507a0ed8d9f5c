/**
 * The persisted side of a whiteboard room: the `Room` document of
 * backend/models/Room.js and the store operations the socket handlers
 * apply to it.  The Mongo collection is a map from room identifier to
 * the room's ordered drawing history; a map makes `roomId` unique by
 * construction.
 */
module RoomModel {

  type RoomId = string

  /**
   * Stroke payloads are schema-free JSON objects that the server
   * stores and relays verbatim.  Numbers are kept as their literal
   * text, since no handler ever computes with them.
   */
  datatype Json =
    | JNull
    | JBool(b: bool)
    | JNumber(literal: string)
    | JString(s: string)
    | JArray(items: seq<Json>)
    | JObject(members: seq<(string, Json)>)

  type StrokeData = Json

  /** One element of `drawingHistory`: the stroke and its creation time in milliseconds. */
  datatype StrokeRecord = StrokeRecord(data: StrokeData, timestamp: int)

  /** The `Room` collection: each room's ordered drawing history. */
  type Store = map<RoomId, seq<StrokeRecord>>

  /**
   * `findOne({roomId})`, and when nothing is found, a new room with an
   * empty history that is saved: fetch-or-create.
   */
  function EnsureRoom(rooms: Store, id: RoomId): (r: Store)
    ensures r.Keys == rooms.Keys + {id}
    ensures id !in rooms ==> r[id] == []
    ensures forall k :: k in rooms ==> r[k] == rooms[k]
  {
    if id in rooms then rooms else rooms[id := []]
  }

  /**
   * `updateOne({roomId}, {$push: {drawingHistory: rec}})` without upsert:
   * a missing room stays missing.
   */
  function PushStroke(rooms: Store, id: RoomId, rec: StrokeRecord): (r: Store)
    ensures r.Keys == rooms.Keys
    ensures id in rooms ==> r[id] == rooms[id] + [rec]
    ensures forall k :: k in rooms && k != id ==> r[k] == rooms[k]
  {
    if id in rooms then rooms[id := rooms[id] + [rec]] else rooms
  }

  /** `updateOne({roomId}, {$set: {drawingHistory: []}})` without upsert. */
  function ClearHistory(rooms: Store, id: RoomId): (r: Store)
    ensures r.Keys == rooms.Keys
    ensures id in rooms ==> r[id] == []
    ensures forall k :: k in rooms && k != id ==> r[k] == rooms[k]
  {
    if id in rooms then rooms[id := []] else rooms
  }

  /** The guard of the undo handler: the room exists and has at least one stroke. */
  predicate CanUndo(rooms: Store, id: RoomId)
  {
    id in rooms && |rooms[id]| > 0
  }

  /** `room.drawingHistory.pop()` followed by `room.save()`, applied only when `CanUndo`. */
  function Undo(rooms: Store, id: RoomId): (r: Store)
    ensures r.Keys == rooms.Keys
    ensures CanUndo(rooms, id) ==> |r[id]| == |rooms[id]| - 1 && r[id] == rooms[id][..|rooms[id]| - 1]
    ensures !CanUndo(rooms, id) ==> r == rooms
    ensures forall k :: k in rooms && k != id ==> r[k] == rooms[k]
  {
    if CanUndo(rooms, id) then rooms[id := rooms[id][..|rooms[id]| - 1]] else rooms
  }

  /** The store after successive successful `drawing` writes of `recs` to room `id`, in receipt order. */
  function PushAll(rooms: Store, id: RoomId, recs: seq<StrokeRecord>): (r: Store)
    decreases |recs|
  {
    if recs == [] then rooms else PushAll(PushStroke(rooms, id, recs[0]), id, recs[1..])
  }

  /**
   * Appends are order-preserving: after any number of successful
   * drawing writes, the room's history is the old history followed by
   * exactly those records in the order they were received, and no
   * other room changes.
   */
  lemma {:induction false} DrawingsKeepReceiptOrder(rooms: Store, id: RoomId, recs: seq<StrokeRecord>)
    ensures PushAll(rooms, id, recs).Keys == rooms.Keys
    ensures id in rooms ==> PushAll(rooms, id, recs)[id] == rooms[id] + recs
    ensures forall k :: k in rooms && k != id ==> PushAll(rooms, id, recs)[k] == rooms[k]
    decreases |recs|
  {
    if recs != [] {
      var next := PushStroke(rooms, id, recs[0]);
      DrawingsKeepReceiptOrder(next, id, recs[1..]);
      if id in rooms {
        assert rooms[id] + recs == (rooms[id] + [recs[0]]) + recs[1..];
      }
    }
  }

  /**
   * A late joiner gets everything: once a room exists, a connection that
   * joins after `recs` were written is sent the history it had at
   * creation (or earlier join) followed by exactly those strokes, in order.
   */
  lemma LateJoinerReplay(rooms: Store, id: RoomId, recs: seq<StrokeRecord>)
    ensures EnsureRoom(PushAll(EnsureRoom(rooms, id), id, recs), id)[id] == EnsureRoom(rooms, id)[id] + recs
  {
    DrawingsKeepReceiptOrder(EnsureRoom(rooms, id), id, recs);
  }

  /** Undo is the inverse of a successful drawing write: it removes exactly that record. */
  lemma UndoRemovesLastDrawing(rooms: Store, id: RoomId, rec: StrokeRecord)
    requires id in rooms
    ensures CanUndo(PushStroke(rooms, id, rec), id)
    ensures Undo(PushStroke(rooms, id, rec), id) == rooms
  {
  }

  /** The undo guard decides exactly whether an undo changes the store at all. */
  lemma UndoChangesExactlyWhenCanUndo(rooms: Store, id: RoomId)
    ensures Undo(rooms, id) != rooms <==> CanUndo(rooms, id)
  {
  }

  /** Clearing is idempotent, and undo after a clear changes nothing. */
  lemma ClearIsFinal(rooms: Store, id: RoomId)
    ensures ClearHistory(ClearHistory(rooms, id), id) == ClearHistory(rooms, id)
    ensures Undo(ClearHistory(rooms, id), id) == ClearHistory(rooms, id)
  {
  }
}
