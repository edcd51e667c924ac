/**
 * The application endpoints of `Backend/app/api/applications.py` over the
 * `applications` collection: apply for a room, list one's own applications,
 * read one, cancel one. The authenticated user (`get_current_user`) is the
 * `user` parameter and `datetime.utcnow()` is the `now` parameter.
 */
module Applications {
  import opened Http
  import opened Bson
  import Text
  import Rooms

  const Applied := "applied"
  const Cancelled := "cancelled"

  /** An application document as `apply_for_room` inserts it. */
  datatype ApplicationDoc = ApplicationDoc(userEmail: string, roomId: string, status: string, appliedAt: int)

  /** The `ApplicationPublic` response body. */
  datatype ApplicationPublic = ApplicationPublic(id: ObjectId, userEmail: string, roomId: string, status: string, appliedAt: int)

  /** The document a response body was made from. */
  function DocOf(app: ApplicationPublic): ApplicationDoc {
    ApplicationDoc(app.userEmail, app.roomId, app.status, app.appliedAt)
  }

  /** `application_serializer`: the response carries the document's id and all of its fields. */
  function ApplicationSerializer(id: ObjectId, app: ApplicationDoc): (r: ApplicationPublic)
    ensures r.id == id && DocOf(r) == app
  {
    ApplicationPublic(id, app.userEmail, app.roomId, app.status, app.appliedAt)
  }

  /** The document `apply_for_room` inserts. */
  function NewApplication(user: string, roomId: string, now: int): ApplicationDoc {
    ApplicationDoc(user, roomId, Applied, now)
  }

  /** The filter `{"user_email": user, "room_id": room_id, "status": "applied"}`. */
  predicate IsAppliedBy(app: ApplicationDoc, user: string, roomId: string) {
    app.userEmail == user && app.roomId == roomId && app.status == Applied
  }

  /** Whether `find_one` with that filter finds a document. */
  predicate HasApplied(docs: map<ObjectId, ApplicationDoc>, user: string, roomId: string) {
    exists id :: id in docs && IsAppliedBy(docs[id], user, roomId)
  }

  /** No user holds two `"applied"` applications for the same `room_id`. */
  ghost predicate OneAppliedPerRoom(docs: map<ObjectId, ApplicationDoc>) {
    forall a, b ::
      (a in docs && b in docs && docs[a].status == Applied && IsAppliedBy(docs[b], docs[a].userEmail, docs[a].roomId))
      ==> a == b
  }

  /** The ids of the applications `user` owns. */
  ghost function OwnedBy(docs: map<ObjectId, ApplicationDoc>, user: string): set<ObjectId> {
    set id | id in docs && docs[id].userEmail == user
  }

  class ApplicationCollection {
    var docs: map<ObjectId, ApplicationDoc>

    ghost predicate Valid()
      reads this
    {
      OneAppliedPerRoom(docs)
    }

    constructor ()
      ensures Valid() && docs == map[]
    {
      docs := map[];
    }

    /**
     * `apply_for_room`. A text id that is not an object id makes `ObjectId()`
     * raise, which FastAPI answers with 500; a missing room gives 404; an
     * `"applied"` application of the same user for the same `room_id` gives
     * 400. Otherwise a new `"applied"` application is inserted under the id
     * the database assigns. The invariant holds afterwards.
     */
    method ApplyForRoom(rooms: Rooms.RoomCollection, user: string, roomId: string, newId: ObjectId, now: int)
      returns (r: Result<ApplicationPublic>)
      requires Valid()
      requires newId !in docs
      modifies this
      ensures Valid()
      ensures !IsValidObjectId(roomId) ==> r == Err(InternalServerError) && docs == old(docs)
      ensures IsValidObjectId(roomId) && Parse(roomId) !in rooms.docs ==>
        r == Err(HttpError(404, "Room not found")) && docs == old(docs)
      ensures IsValidObjectId(roomId) && Parse(roomId) in rooms.docs && HasApplied(old(docs), user, roomId) ==>
        r == Err(HttpError(400, "Already applied for this room.")) && docs == old(docs)
      ensures IsValidObjectId(roomId) && Parse(roomId) in rooms.docs && !HasApplied(old(docs), user, roomId) ==>
        && docs == old(docs)[newId := NewApplication(user, roomId, now)]
        && r == Ok(ApplicationSerializer(newId, NewApplication(user, roomId, now)))
    {
      if !IsValidObjectId(roomId) {
        return Err(InternalServerError);
      }
      if Parse(roomId) !in rooms.docs {
        return Err(HttpError(404, "Room not found"));
      }
      if HasApplied(docs, user, roomId) {
        return Err(HttpError(400, "Already applied for this room."));
      }
      docs := docs[newId := NewApplication(user, roomId, now)];
      r := Ok(ApplicationSerializer(newId, docs[newId]));
    }

    /** `get_my_applications`: exactly the applications whose `user_email` is `user`, each once. */
    method GetMyApplications(user: string) returns (apps: seq<ApplicationPublic>)
      ensures forall i :: 0 <= i < |apps| ==> apps[i].id in docs && apps[i] == ApplicationSerializer(apps[i].id, docs[apps[i].id])
      ensures forall i :: 0 <= i < |apps| ==> apps[i].userEmail == user
      ensures (set app | app in apps :: app.id) == OwnedBy(docs, user)
      ensures forall i, j :: 0 <= i < j < |apps| ==> apps[i].id != apps[j].id
    {
      apps := [];
      var pending := docs.Keys;
      while pending != {}
        invariant pending <= docs.Keys
        invariant forall i :: 0 <= i < |apps| ==> apps[i].id in docs && apps[i].id !in pending
        invariant forall i :: 0 <= i < |apps| ==> apps[i] == ApplicationSerializer(apps[i].id, docs[apps[i].id])
        invariant forall i :: 0 <= i < |apps| ==> apps[i].userEmail == user
        invariant (set app | app in apps :: app.id) == OwnedBy(docs, user) - pending
        invariant forall i, j :: 0 <= i < j < |apps| ==> apps[i].id != apps[j].id
        decreases pending
      {
        var id :| id in pending;
        if docs[id].userEmail == user {
          ghost var listed := apps;
          apps := apps + [ApplicationSerializer(id, docs[id])];
          assert (set app | app in apps :: app.id) == (set app | app in listed :: app.id) + {id};
        }
        pending := pending - {id};
      }
    }

    /** `get_application_by_id`: 400 for an invalid id; 404 for a missing application or one another user owns. */
    method GetApplicationById(user: string, applicationId: string) returns (r: Result<ApplicationPublic>)
      ensures !IsValidObjectId(applicationId) ==> r == Err(HttpError(400, "Invalid application ID"))
      ensures IsValidObjectId(applicationId) && (Parse(applicationId) !in docs || docs[Parse(applicationId)].userEmail != user) ==>
        r == Err(HttpError(404, "Application not found"))
      ensures IsValidObjectId(applicationId) && Parse(applicationId) in docs && docs[Parse(applicationId)].userEmail == user ==>
        r == Ok(ApplicationSerializer(Parse(applicationId), docs[Parse(applicationId)]))
    {
      if !IsValidObjectId(applicationId) {
        return Err(HttpError(400, "Invalid application ID"));
      }
      var id := Parse(applicationId);
      if id !in docs || docs[id].userEmail != user {
        return Err(HttpError(404, "Application not found"));
      }
      r := Ok(ApplicationSerializer(id, docs[id]));
    }

    /**
     * `cancel_application`: the same 400 and 404 as a read; 400 when the
     * application is already cancelled; otherwise only its status changes, to
     * `"cancelled"`. The invariant holds afterwards.
     */
    method CancelApplication(user: string, applicationId: string) returns (r: Result<ApplicationPublic>)
      requires Valid()
      modifies this
      ensures Valid()
      ensures !IsValidObjectId(applicationId) ==> r == Err(HttpError(400, "Invalid application ID")) && docs == old(docs)
      ensures IsValidObjectId(applicationId) && (Parse(applicationId) !in old(docs) || old(docs)[Parse(applicationId)].userEmail != user) ==>
        r == Err(HttpError(404, "Application not found")) && docs == old(docs)
      ensures (IsValidObjectId(applicationId) && Parse(applicationId) in old(docs) && old(docs)[Parse(applicationId)].userEmail == user
        && old(docs)[Parse(applicationId)].status == Cancelled) ==>
        r == Err(HttpError(400, "Application already cancelled")) && docs == old(docs)
      ensures (IsValidObjectId(applicationId) && Parse(applicationId) in old(docs) && old(docs)[Parse(applicationId)].userEmail == user
        && old(docs)[Parse(applicationId)].status != Cancelled) ==>
        && docs == old(docs)[Parse(applicationId) := old(docs)[Parse(applicationId)].(status := Cancelled)]
        && r == Ok(ApplicationSerializer(Parse(applicationId), docs[Parse(applicationId)]))
    {
      if !IsValidObjectId(applicationId) {
        return Err(HttpError(400, "Invalid application ID"));
      }
      var id := Parse(applicationId);
      if id !in docs || docs[id].userEmail != user {
        return Err(HttpError(404, "Application not found"));
      }
      if docs[id].status == Cancelled {
        return Err(HttpError(400, "Application already cancelled"));
      }
      docs := docs[id := docs[id].(status := Cancelled)];
      r := Ok(ApplicationSerializer(id, docs[id]));
    }
  }

  // ----- Properties of the application state machine -----

  /**
   * Cancelling the `"applied"` application a user holds for a room clears the
   * way to apply again: the duplicate check matches `"applied"` only.
   */
  lemma CancelUnblocksReapply(docs: map<ObjectId, ApplicationDoc>, id: ObjectId)
    requires OneAppliedPerRoom(docs)
    requires id in docs && docs[id].status == Applied
    ensures !HasApplied(docs[id := docs[id].(status := Cancelled)], docs[id].userEmail, docs[id].roomId)
  {
  }

  /**
   * The duplicate check compares `room_id` as submitted, while the room lookup
   * parses it: the same id in two letter cases passes the check twice, and the
   * user ends up with two `"applied"` applications for one room.
   */
  method ApplyTwiceInTwoCases(
    apps: ApplicationCollection, rooms: Rooms.RoomCollection, user: string,
    lower: string, upper: string, first: ObjectId, second: ObjectId, now: int)
    returns (r1: Result<ApplicationPublic>, r2: Result<ApplicationPublic>)
    requires apps.Valid()
    requires IsValidObjectId(lower) && IsValidObjectId(upper) && lower != upper
    requires Text.Lower(lower) == Text.Lower(upper) && Parse(lower) in rooms.docs
    requires !HasApplied(apps.docs, user, lower) && !HasApplied(apps.docs, user, upper)
    requires first !in apps.docs && second !in apps.docs && first != second
    modifies apps
    ensures apps.Valid() && r1.Ok? && r2.Ok?
    ensures first in apps.docs && second in apps.docs
    ensures apps.docs[first].status == Applied && apps.docs[second].status == Applied
    ensures apps.docs[first].userEmail == user && apps.docs[second].userEmail == user
    ensures apps.docs[first].roomId == lower && apps.docs[second].roomId == upper
    ensures Parse(lower) == Parse(upper)
  {
    r1 := apps.ApplyForRoom(rooms, user, lower, first, now);
    assert Parse(upper) == Parse(lower);
    r2 := apps.ApplyForRoom(rooms, user, upper, second, now);
  }
}
