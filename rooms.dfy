/**
 * The room listing endpoints of `Backend/app/api/rooms.py` over the `rooms`
 * collection, which is held as a map from object id to document.
 */
module Rooms {
  import opened Wrappers
  import opened Http
  import opened Bson

  /** A stored room document: the fields of `RoomCreate.dict()`. */
  datatype RoomDoc = RoomDoc(
    title: string,
    description: Option<string>,
    address: string,
    pricePerMonth: real,
    postcode: string)

  /** The `RoomPublic` response body. */
  datatype RoomPublic = RoomPublic(
    id: ObjectId,
    title: string,
    description: Option<string>,
    address: string,
    pricePerMonth: real,
    postcode: string)

  /** A `RoomUpdate` request: every field optional. */
  datatype RoomUpdate = RoomUpdate(
    title: Option<string>,
    description: Option<string>,
    address: Option<string>,
    pricePerMonth: Option<real>,
    postcode: Option<string>)

  /** The document a response body was made from. */
  function DocOf(room: RoomPublic): RoomDoc {
    RoomDoc(room.title, room.description, room.address, room.pricePerMonth, room.postcode)
  }

  /** `room_serializer`: the response carries the document's id and all of its fields. */
  function RoomSerializer(id: ObjectId, room: RoomDoc): (r: RoomPublic)
    ensures r.id == id && DocOf(r) == room
  {
    RoomPublic(id, room.title, room.description, room.address, room.pricePerMonth, room.postcode)
  }

  /** `not update_data`: no field of the update is supplied. */
  predicate IsEmptyUpdate(data: RoomUpdate) {
    data.title.None? && data.description.None? && data.address.None?
    && data.pricePerMonth.None? && data.postcode.None?
  }

  /** `$set` with the non-`None` fields of `data`. */
  function ApplyUpdate(room: RoomDoc, data: RoomUpdate): RoomDoc {
    RoomDoc(
      data.title.GetOr(room.title),
      if data.description.Some? then data.description else room.description,
      data.address.GetOr(room.address),
      data.pricePerMonth.GetOr(room.pricePerMonth),
      data.postcode.GetOr(room.postcode))
  }

  class RoomCollection {
    var docs: map<ObjectId, RoomDoc>

    constructor ()
      ensures docs == map[]
    {
      docs := map[];
    }

    /** `create_room`: inserts the document under the id the database assigns and returns it serialized. */
    method CreateRoom(room: RoomDoc, newId: ObjectId) returns (r: RoomPublic)
      requires newId !in docs
      modifies this
      ensures docs == old(docs)[newId := room]
      ensures r == RoomSerializer(newId, room)
    {
      docs := docs[newId := room];
      r := RoomSerializer(newId, docs[newId]);
    }

    /** `list_rooms`: every room of the collection, serialized, each exactly once. */
    method ListRooms() returns (rooms: seq<RoomPublic>)
      ensures forall i :: 0 <= i < |rooms| ==> rooms[i].id in docs && rooms[i] == RoomSerializer(rooms[i].id, docs[rooms[i].id])
      ensures (set room | room in rooms :: room.id) == docs.Keys
      ensures forall i, j :: 0 <= i < j < |rooms| ==> rooms[i].id != rooms[j].id
    {
      rooms := [];
      var pending := docs.Keys;
      while pending != {}
        invariant pending <= docs.Keys
        invariant forall i :: 0 <= i < |rooms| ==> rooms[i].id in docs && rooms[i].id !in pending
        invariant forall i :: 0 <= i < |rooms| ==> rooms[i] == RoomSerializer(rooms[i].id, docs[rooms[i].id])
        invariant (set room | room in rooms :: room.id) == docs.Keys - pending
        invariant forall i, j :: 0 <= i < j < |rooms| ==> rooms[i].id != rooms[j].id
        decreases pending
      {
        var id :| id in pending;
        ghost var listed := rooms;
        rooms := rooms + [RoomSerializer(id, docs[id])];
        assert (set room | room in rooms :: room.id) == (set room | room in listed :: room.id) + {id};
        pending := pending - {id};
      }
    }

    /** `get_room`: 400 for an invalid id, 404 for a missing room, otherwise the room. */
    method GetRoom(roomId: string) returns (r: Result<RoomPublic>)
      ensures !IsValidObjectId(roomId) ==> r == Err(HttpError(400, "Invalid room ID"))
      ensures IsValidObjectId(roomId) && Parse(roomId) !in docs ==> r == Err(HttpError(404, "Room not found"))
      ensures IsValidObjectId(roomId) && Parse(roomId) in docs ==> r == Ok(RoomSerializer(Parse(roomId), docs[Parse(roomId)]))
    {
      if !IsValidObjectId(roomId) {
        return Err(HttpError(400, "Invalid room ID"));
      }
      var id := Parse(roomId);
      if id !in docs {
        return Err(HttpError(404, "Room not found"));
      }
      r := Ok(RoomSerializer(id, docs[id]));
    }

    /**
     * `update_room`: 400 for an invalid id, then 400 for an update with no
     * field supplied, then 404 for a missing room; otherwise only the supplied
     * fields are written.
     */
    method UpdateRoom(roomId: string, data: RoomUpdate) returns (r: Result<RoomPublic>)
      modifies this
      ensures !IsValidObjectId(roomId) ==> r == Err(HttpError(400, "Invalid room ID")) && docs == old(docs)
      ensures IsValidObjectId(roomId) && IsEmptyUpdate(data) ==>
        r == Err(HttpError(400, "No data provided to update")) && docs == old(docs)
      ensures IsValidObjectId(roomId) && !IsEmptyUpdate(data) && Parse(roomId) !in old(docs) ==>
        r == Err(HttpError(404, "Room not found")) && docs == old(docs)
      ensures IsValidObjectId(roomId) && !IsEmptyUpdate(data) && Parse(roomId) in old(docs) ==>
        && docs == old(docs)[Parse(roomId) := ApplyUpdate(old(docs)[Parse(roomId)], data)]
        && r == Ok(RoomSerializer(Parse(roomId), docs[Parse(roomId)]))
    {
      if !IsValidObjectId(roomId) {
        return Err(HttpError(400, "Invalid room ID"));
      }
      if IsEmptyUpdate(data) {
        return Err(HttpError(400, "No data provided to update"));
      }
      var id := Parse(roomId);
      if id !in docs {
        return Err(HttpError(404, "Room not found"));
      }
      docs := docs[id := ApplyUpdate(docs[id], data)];
      r := Ok(RoomSerializer(id, docs[id]));
    }

    /** `delete_room`: 400 for an invalid id, 404 when nothing was deleted, otherwise exactly that room is removed. */
    method DeleteRoom(roomId: string) returns (r: Result<()>)
      modifies this
      ensures !IsValidObjectId(roomId) ==> r == Err(HttpError(400, "Invalid room ID")) && docs == old(docs)
      ensures IsValidObjectId(roomId) && Parse(roomId) !in old(docs) ==>
        r == Err(HttpError(404, "Room not found")) && docs == old(docs)
      ensures IsValidObjectId(roomId) && Parse(roomId) in old(docs) ==>
        r == Ok(()) && docs == old(docs) - {Parse(roomId)}
    {
      if !IsValidObjectId(roomId) {
        return Err(HttpError(400, "Invalid room ID"));
      }
      var id := Parse(roomId);
      if id !in docs {
        return Err(HttpError(404, "Room not found"));
      }
      docs := docs - {id};
      r := Ok(());
    }
  }

  // ----- Properties of the partial update -----

  /**
   * A supplied field is written and an unsupplied one keeps its old value;
   * `description` can be changed but never cleared back to `None`.
   */
  lemma ApplyUpdateFields(room: RoomDoc, data: RoomUpdate)
    ensures ApplyUpdate(room, data).title == if data.title.Some? then data.title.value else room.title
    ensures ApplyUpdate(room, data).description == if data.description.Some? then data.description else room.description
    ensures ApplyUpdate(room, data).address == if data.address.Some? then data.address.value else room.address
    ensures ApplyUpdate(room, data).pricePerMonth == if data.pricePerMonth.Some? then data.pricePerMonth.value else room.pricePerMonth
    ensures ApplyUpdate(room, data).postcode == if data.postcode.Some? then data.postcode.value else room.postcode
    ensures room.description.Some? ==> ApplyUpdate(room, data).description.Some?
  {
  }

  /** An update with no field supplied would change nothing; applying the same update twice is applying it once. */
  lemma ApplyUpdateLaws(room: RoomDoc, data: RoomUpdate)
    ensures IsEmptyUpdate(data) ==> ApplyUpdate(room, data) == room
    ensures ApplyUpdate(ApplyUpdate(room, data), data) == ApplyUpdate(room, data)
  {
  }

  /** Serializing a document and reading the document back is the identity. */
  lemma SerializerRoundTrip(id: ObjectId, room: RoomDoc)
    ensures DocOf(RoomSerializer(id, room)) == room && RoomSerializer(id, room).id == id
  {
  }
}
