/**
 * The "Your Applications" page of `Frontend/src/pages/Applications.jsx`: the
 * client-side filter over the fetched applications, the filter inputs, the
 * cancel handler and the status pill. The outcome of the cancel request is
 * the parameter `ok`; the re-fetch it triggers and the toasts are not
 * modelled.
 */
module ApplicationsPage {
  import opened Wrappers
  import Text
  import Js
  import Seqs
  import Bson
  import Applications
  import RoomsPage
  import opened ClientJson

  datatype AppFilter = AppFilter(location: string, status: string, date: string)

  const NoFilter := AppFilter("", "", "")

  /** The `name` of the input that changed. */
  datatype FilterField = LocationField | StatusField | DateField

  /** `room.location || room.title || app.room_location || ""`. */
  function RoomLabel(app: AppJson): (text: string)
    ensures var room := app.room.GetOr(RoomRef(None, None));
      && (text == "" <==> !Js.Truthy(room.location) && !Js.Truthy(room.title) && !Js.Truthy(app.roomLocation))
      && (Js.Truthy(room.location) ==> Some(text) == room.location)
      && (!Js.Truthy(room.location) && Js.Truthy(room.title) ==> Some(text) == room.title)
      && (text != "" ==> Some(text) in {room.location, room.title, app.roomLocation})
  {
    var room := app.room.GetOr(RoomRef(None, None));
    var v := Js.Or(Js.Or(room.location, room.title), app.roomLocation);
    if Js.Truthy(v) then v.value else ""
  }

  /** A case-insensitive substring of the room label. */
  predicate MatchesLocation(app: AppJson, query: string) {
    query == "" || Text.Contains(Text.Lower(RoomLabel(app)), Text.Lower(query))
  }

  /** Case-insensitive equality, where the query `"pending"` also takes `"applied"`. */
  predicate MatchesStatus(app: AppJson, query: string) {
    var status := Text.Lower(app.status);
    var wanted := Text.Lower(query);
    query == "" || (wanted == "pending" && (status == "pending" || status == "applied")) || status == wanted
  }

  /** The first ten characters of `created_at`, or "" without one. */
  function AppDate(app: AppJson): (d: string)
    ensures Js.Truthy(app.createdAt) ==>
      d <= app.createdAt.value && |d| == if |app.createdAt.value| <= 10 then |app.createdAt.value| else 10
    ensures !Js.Truthy(app.createdAt) ==> d == ""
  {
    if Js.Truthy(app.createdAt) then Text.Take(app.createdAt.value, 10) else ""
  }

  predicate MatchesDate(app: AppJson, date: string) {
    date == "" || AppDate(app) == date
  }

  predicate Matches(app: AppJson, f: AppFilter) {
    MatchesLocation(app, f.location) && MatchesStatus(app, f.status) && MatchesDate(app, f.date)
  }

  /** `filteredApplications`: the applications passing all three filters, in their order. */
  function FilteredApplications(apps: seq<AppJson>, f: AppFilter): (r: seq<AppJson>)
    ensures Seqs.IsSubsequence(r, apps)
    ensures forall i :: 0 <= i < |r| ==> Matches(r[i], f)
    ensures forall i :: 0 <= i < |apps| && Matches(apps[i], f) ==> apps[i] in r
    ensures forall app :: multiset(r)[app] == if Matches(app, f) then multiset(apps)[app] else 0
  {
    Seqs.Filter(apps, app => Matches(app, f))
  }

  /** `statusBadge`: the known statuses get their pill, anything else the raw text. */
  function StatusBadge(status: string): (b: Badge)
    ensures b.Raw? <==> status !in {"pending", "applied", "accepted", "rejected", "cancelled"}
    ensures b.Raw? ==> b.text == status
    ensures b == PendingBadge <==> status == "pending" || status == "applied"
    ensures b == AcceptedBadge <==> status == "accepted"
    ensures b == RejectedBadge <==> status == "rejected"
    ensures b == CancelledBadge <==> status == "cancelled"
  {
    if status == "pending" || status == "applied" then PendingBadge
    else if status == "accepted" then AcceptedBadge
    else if status == "rejected" then RejectedBadge
    else if status == "cancelled" then CancelledBadge
    else Raw(status)
  }

  /** The Cancel button is offered for a pending application only. */
  predicate ShowsCancel(status: string) {
    status == "pending" || status == "applied"
  }

  /** The path segment `${app.id || app._id}`: a missing id is written "undefined". */
  function PathId(id: Option<string>): string {
    id.GetOr("undefined")
  }

  class ApplicationsPage {
    var apps: seq<AppJson>
    var filter: AppFilter
    var cancelId: Option<string>

    constructor ()
      ensures apps == [] && filter == NoFilter && cancelId == None
    {
      apps, filter, cancelId := [], NoFilter, None;
    }

    /**
     * The fetch effect: with no user nothing is requested; otherwise the
     * fetched list replaces `apps`, and a failed request (`None`) leaves it.
     */
    method LoadApplications(signedIn: bool, reply: Option<seq<AppJson>>)
      modifies this
      ensures apps == if signedIn && reply.Some? then reply.value else old(apps)
      ensures filter == old(filter) && cancelId == old(cancelId)
    {
      if signedIn && reply.Some? {
        apps := reply.value;
      }
    }

    /** `handleInputChange`: only the named field takes the new value. */
    method HandleInputChange(field: FilterField, value: string)
      modifies this
      ensures filter == match field
        case LocationField => old(filter).(location := value)
        case StatusField => old(filter).(status := value)
        case DateField => old(filter).(date := value)
      ensures apps == old(apps) && cancelId == old(cancelId)
    {
      match field
      case LocationField => filter := filter.(location := value);
      case StatusField => filter := filter.(status := value);
      case DateField => filter := filter.(date := value);
    }

    /** `handleClear`: all three fields empty. */
    method HandleClear()
      modifies this
      ensures filter == NoFilter
      ensures apps == old(apps) && cancelId == old(cancelId)
    {
      filter := NoFilter;
    }

    /**
     * `handleCancel`: the request names `app.id || app._id`; whatever its
     * outcome, `cancelId` is back to `null` afterwards.
     */
    method HandleCancel(app: AppJson, ok: bool) returns (requestId: string)
      modifies this
      ensures requestId == PathId(AppKey(app))
      ensures cancelId == None
      ensures apps == old(apps) && filter == old(filter)
    {
      cancelId := AppKey(app);
      requestId := PathId(AppKey(app));
      cancelId := None;
    }
  }

  // ----- Properties of the filter -----

  /** With every field empty the filter keeps every application. */
  lemma NoFilterKeepsAll(apps: seq<AppJson>)
    ensures FilteredApplications(apps, NoFilter) == apps
  {
    Seqs.FilterKeepsAll(apps, app => Matches(app, NoFilter));
  }

  /** The `"pending"` query takes exactly the pending and the applied applications, in any case. */
  lemma PendingQuery(app: AppJson)
    ensures MatchesStatus(app, "pending") <==> Text.Lower(app.status) == "pending" || Text.Lower(app.status) == "applied"
  {
    assert Text.Lower("pending") == "pending";
  }

  /** The status filter ignores the case of the query. */
  lemma StatusIgnoresCase(app: AppJson, query: string)
    ensures MatchesStatus(app, Text.Upper(query)) == MatchesStatus(app, query)
  {
    Text.LowerOfUpper(query);
  }

  /** An application without `created_at` fails every non-empty date query. */
  lemma MissingDateFails(app: AppJson, date: string)
    requires date != "" && !Js.Truthy(app.createdAt)
    ensures !MatchesDate(app, date)
  {
  }

  /** The two pages draw the same pill for every known status; the rooms page draws none for the others. */
  lemma BadgesAgree(status: string)
    ensures RoomsPage.StatusBadge(status).Some? ==> RoomsPage.StatusBadge(status).value == StatusBadge(status)
    ensures RoomsPage.StatusBadge(status).None? <==> StatusBadge(status).Raw?
  {
  }

  /** Cancel is offered exactly for the statuses drawn as pending. */
  lemma CancelOnlyWhenPending(status: string)
    ensures ShowsCancel(status) <==> StatusBadge(status) == PendingBadge
  {
  }

  // ----- The date filter against the backend's fields -----

  /**
   * The JSON of an `ApplicationPublic`: `id`, `room_id`, `status` and
   * `applied_at`, written by `iso`; neither `created_at` nor a room label.
   */
  function FromBackend(app: Applications.ApplicationPublic, iso: int -> string): (j: AppJson)
    ensures j.id == Some(app.id) && j.roomId == app.roomId && j.status == app.status
    ensures j.createdAt.None? && j.room.None? && j.roomLocation.None?
  {
    AppJson(Some(app.id), None, app.roomId, app.status, None, None, None, Some(iso(app.appliedAt)))
  }

  /** As written, a non-empty date query hides every application the backend sends. */
  lemma DateQueryHidesBackendApps(app: Applications.ApplicationPublic, iso: int -> string, date: string)
    requires date != ""
    ensures !MatchesDate(FromBackend(app, iso), date)
  {
    MissingDateFails(FromBackend(app, iso), date);
  }

  /** Likewise a non-empty location query hides every application the backend sends: it has no room label. */
  lemma LocationQueryHidesBackendApps(app: Applications.ApplicationPublic, iso: int -> string, query: string)
    requires query != ""
    ensures RoomLabel(FromBackend(app, iso)) == ""
    ensures !MatchesLocation(FromBackend(app, iso), query)
  {
    var q := Text.Lower(query);
    assert |q| > 0;
    assert Text.Lower("") == "";
    assert !Text.Contains("", q);
  }

  /** The date filter as evidently intended: on the first ten characters of `applied_at`. */
  predicate MatchesAppliedDate(app: AppJson, date: string) {
    date == "" || (Js.Truthy(app.appliedAt) && Text.Take(app.appliedAt.value, 10) == date)
  }

  /** The corrected filter finds every backend application by the day it was made. */
  lemma AppliedDateFindsBackendApps(app: Applications.ApplicationPublic, iso: int -> string)
    ensures MatchesAppliedDate(FromBackend(app, iso), Text.Take(iso(app.appliedAt), 10))
  {
  }
}
