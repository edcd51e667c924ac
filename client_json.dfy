/**
 * The JSON objects the client pages read. Every field may be missing; the
 * pages reach a document's id through `id || _id`.
 */
module ClientJson {
  import opened Wrappers
  import Js

  /** A room as `Frontend/src/pages/Rooms.jsx` reads it. */
  datatype RoomJson = RoomJson(
    id: Option<string>,
    mongoId: Option<string>,
    title: Option<string>,
    location: Option<string>,
    pricePerMonth: Js.Number,
    price: Js.Number,
    languages: Option<seq<string>>,
    postcode: Option<string>)

  /** The nested `room` object an application may carry. */
  datatype RoomRef = RoomRef(location: Option<string>, title: Option<string>)

  /** An application as the two pages read it. */
  datatype AppJson = AppJson(
    id: Option<string>,
    mongoId: Option<string>,
    roomId: string,
    status: string,
    room: Option<RoomRef>,
    roomLocation: Option<string>,
    createdAt: Option<string>,
    appliedAt: Option<string>)

  /** `room.id || room._id`. */
  function RoomKey(room: RoomJson): Option<string> {
    Js.Or(room.id, room.mongoId)
  }

  /** `app.id || app._id`. */
  function AppKey(app: AppJson): Option<string> {
    Js.Or(app.id, app.mongoId)
  }

  /** The status pills both pages draw; `Raw` shows the status text itself. */
  datatype Badge = PendingBadge | AcceptedBadge | RejectedBadge | CancelledBadge | Raw(text: string)
}
