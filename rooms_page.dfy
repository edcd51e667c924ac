/**
 * The room listing page of `Frontend/src/pages/Rooms.jsx`: the search
 * filters, and the per-room application status kept in `appStatus` (room id
 * to shown status) and `appIds` (room id to application id). Each handler
 * runs to completion; the outcome of a request is the parameter `ok` or
 * `reply`, and toasts are not modelled.
 */
module RoomsPage {
  import opened Wrappers
  import Text
  import Js
  import Seqs
  import opened ClientJson

  datatype Filters = Filters(location: string, maxPrice: string, language: string, postcode: string)

  const NoFilters := Filters("", "", "", "")

  /** The `name` of the input that changed. */
  datatype FilterField = LocationField | MaxPriceField | LanguageField | PostcodeField

  // ----- The search predicate -----

  /** A case-insensitive substring of the room's `location` or of its `title`. */
  predicate MatchesLocation(room: RoomJson, query: string) {
    query == ""
    || (room.location.Some? && Text.Contains(Text.Lower(room.location.value), Text.Lower(query)))
    || (room.title.Some? && Text.Contains(Text.Lower(room.title.value), Text.Lower(query)))
  }

  /** `room.price_per_month ?? room.price`. */
  function EffectivePrice(room: RoomJson): Js.Number {
    Js.Coalesce(room.pricePerMonth, room.price)
  }

  /** The effective price is at most `Number(maxPrice)`. */
  predicate MatchesPrice(room: RoomJson, maxPrice: string) {
    maxPrice == "" || Js.LessEq(EffectivePrice(room), Js.ToNumber(maxPrice))
  }

  function LowerAll(s: seq<string>): (r: seq<string>)
    ensures |r| == |s|
    ensures forall i :: 0 <= i < |s| ==> r[i] == Text.Lower(s[i])
  {
    if s == [] then [] else [Text.Lower(s[0])] + LowerAll(s[1..])
  }

  /** A case-insensitive exact match with one of the room's `languages`. */
  predicate MatchesLanguage(room: RoomJson, language: string) {
    language == "" || Text.Lower(language) in LowerAll(room.languages.GetOr([]))
  }

  /** A case-sensitive substring of the room's postcode, which must be non-empty. */
  predicate MatchesPostcode(room: RoomJson, postcode: string) {
    postcode == "" || (Js.Truthy(room.postcode) && Text.Contains(room.postcode.value, postcode))
  }

  predicate Matches(room: RoomJson, f: Filters) {
    MatchesLocation(room, f.location) && MatchesPrice(room, f.maxPrice)
    && MatchesLanguage(room, f.language) && MatchesPostcode(room, f.postcode)
  }

  /** `handleSearch`: the rooms that pass every filter, in their order. */
  function Search(rooms: seq<RoomJson>, f: Filters): (r: seq<RoomJson>)
    ensures Seqs.IsSubsequence(r, rooms)
    ensures forall i :: 0 <= i < |r| ==> Matches(r[i], f)
    ensures forall i :: 0 <= i < |rooms| && Matches(rooms[i], f) ==> rooms[i] in r
    ensures forall room :: multiset(r)[room] == if Matches(room, f) then multiset(rooms)[room] else 0
  {
    Seqs.Filter(rooms, room => Matches(room, f))
  }

  // ----- The status maps -----

  /** `"applied"` is shown as `"pending"`; every other status as it is. */
  function ShownStatus(status: string): (s: string)
    ensures s != "applied"
    ensures status == "applied" ==> s == "pending"
    ensures status != "applied" ==> s == status
  {
    if status == "applied" then "pending" else status
  }

  /** `statusMap` after the `forEach` over `apps`. */
  function StatusMapOf(apps: seq<AppJson>): map<string, string> {
    if apps == [] then map[]
    else StatusMapOf(apps[..|apps| - 1])[apps[|apps| - 1].roomId := ShownStatus(apps[|apps| - 1].status)]
  }

  /** `idsMap` after the `forEach` over `apps`. */
  function IdsMapOf(apps: seq<AppJson>): map<string, Option<string>> {
    if apps == [] then map[]
    else IdsMapOf(apps[..|apps| - 1])[apps[|apps| - 1].roomId := AppKey(apps[|apps| - 1])]
  }

  /** The index of the last application for `roomId`. */
  function LastFor(apps: seq<AppJson>, roomId: string): (r: Option<nat>)
    ensures r.None? ==> forall i :: 0 <= i < |apps| ==> apps[i].roomId != roomId
    ensures r.Some? ==> r.value < |apps| && apps[r.value].roomId == roomId
    ensures r.Some? ==> forall j :: r.value < j < |apps| ==> apps[j].roomId != roomId
  {
    if apps == [] then None
    else if apps[|apps| - 1].roomId == roomId then Some(|apps| - 1)
    else LastFor(apps[..|apps| - 1], roomId)
  }

  /** A room has an entry exactly when some application names it, and the last such application wins. */
  lemma {:induction false} StatusMapsLastWins(apps: seq<AppJson>, roomId: string)
    ensures roomId in StatusMapOf(apps) <==> LastFor(apps, roomId).Some?
    ensures roomId in IdsMapOf(apps) <==> LastFor(apps, roomId).Some?
    ensures LastFor(apps, roomId).Some? ==>
      && StatusMapOf(apps)[roomId] == ShownStatus(apps[LastFor(apps, roomId).value].status)
      && IdsMapOf(apps)[roomId] == AppKey(apps[LastFor(apps, roomId).value])
  {
    if apps != [] {
      var init := apps[..|apps| - 1];
      StatusMapsLastWins(init, roomId);
      if apps[|apps| - 1].roomId != roomId {
        var k := LastFor(init, roomId);
        if k.Some? {
          assert apps[k.value] == init[k.value];
        }
      }
    }
  }

  /** The `forEach` of `fetchStatus` that fills `statusMap` and `idsMap`. */
  method BuildStatusMaps(apps: seq<AppJson>) returns (statusMap: map<string, string>, idsMap: map<string, Option<string>>)
    ensures statusMap == StatusMapOf(apps) && idsMap == IdsMapOf(apps)
  {
    statusMap, idsMap := map[], map[];
    for i := 0 to |apps|
      invariant statusMap == StatusMapOf(apps[..i]) && idsMap == IdsMapOf(apps[..i])
    {
      assert apps[..i + 1][..i] == apps[..i];
      var app := apps[i];
      statusMap := statusMap[app.roomId := ShownStatus(app.status)];
      idsMap := idsMap[app.roomId := AppKey(app)];
    }
    assert apps[..|apps|] == apps;
  }

  /** The application id `handleCancel` would send for `roomId`, when one is recorded and non-empty. */
  function CancelTarget(appIds: map<string, Option<string>>, roomId: string): (r: Option<string>)
    ensures r.Some? <==> roomId in appIds && Js.Truthy(appIds[roomId])
    ensures r.Some? ==> r == appIds[roomId]
  {
    if roomId in appIds && Js.Truthy(appIds[roomId]) then appIds[roomId] else None
  }

  // ----- What each room card shows -----

  datatype Control = ApplyButton | CancelButton | LoginPrompt

  /** Signed out, a prompt; signed in, Apply while the status is absent, empty or `"cancelled"`, else Cancel. */
  function ApplicationControl(signedIn: bool, status: Option<string>): (c: Control)
    ensures !signedIn <==> c == LoginPrompt
    ensures signedIn ==> (c == ApplyButton <==> !Js.Truthy(status) || status == Some("cancelled"))
  {
    if !signedIn then LoginPrompt
    else if !Js.Truthy(status) || status.value == "cancelled" then ApplyButton
    else CancelButton
  }

  /** `getStatusBadge`: a pill for each known status, with `"applied"` drawn as pending, and none otherwise. */
  function StatusBadge(status: string): (b: Option<Badge>)
    ensures b.Some? <==> status in {"pending", "applied", "accepted", "rejected", "cancelled"}
    ensures b.Some? ==> !b.value.Raw?
    ensures b == Some(PendingBadge) <==> status == "pending" || status == "applied"
    ensures b == Some(AcceptedBadge) <==> status == "accepted"
    ensures b == Some(RejectedBadge) <==> status == "rejected"
    ensures b == Some(CancelledBadge) <==> status == "cancelled"
  {
    if status == "pending" || status == "applied" then Some(PendingBadge)
    else if status == "accepted" then Some(AcceptedBadge)
    else if status == "rejected" then Some(RejectedBadge)
    else if status == "cancelled" then Some(CancelledBadge)
    else None
  }

  class RoomsPage {
    var filters: Filters
    var rooms: seq<RoomJson>
    var filteredRooms: seq<RoomJson>
    var appStatus: map<string, string>
    var appIds: map<string, Option<string>>
    var loadingId: Option<string>

    constructor ()
      ensures filters == NoFilters && rooms == [] && filteredRooms == []
      ensures appStatus == map[] && appIds == map[] && loadingId == None
    {
      filters := NoFilters;
      rooms, filteredRooms := [], [];
      appStatus, appIds := map[], map[];
      loadingId := None;
    }

    /** A successful `fetchRooms`: both lists become the fetched rooms. */
    method LoadRooms(data: seq<RoomJson>)
      modifies this
      ensures rooms == data && filteredRooms == data
      ensures filters == old(filters) && appStatus == old(appStatus) && appIds == old(appIds) && loadingId == old(loadingId)
    {
      rooms, filteredRooms := data, data;
    }

    /** `handleFilterChange`: only the named field takes the new value. */
    method HandleFilterChange(field: FilterField, value: string)
      modifies this
      ensures filters == match field
        case LocationField => old(filters).(location := value)
        case MaxPriceField => old(filters).(maxPrice := value)
        case LanguageField => old(filters).(language := value)
        case PostcodeField => old(filters).(postcode := value)
      ensures rooms == old(rooms) && filteredRooms == old(filteredRooms)
      ensures appStatus == old(appStatus) && appIds == old(appIds) && loadingId == old(loadingId)
    {
      match field
      case LocationField => filters := filters.(location := value);
      case MaxPriceField => filters := filters.(maxPrice := value);
      case LanguageField => filters := filters.(language := value);
      case PostcodeField => filters := filters.(postcode := value);
    }

    /** `handleSearch`: the displayed list becomes the rooms passing the current filters. */
    method HandleSearch()
      modifies this
      ensures filteredRooms == Search(rooms, filters)
      ensures filters == old(filters) && rooms == old(rooms)
      ensures appStatus == old(appStatus) && appIds == old(appIds) && loadingId == old(loadingId)
    {
      filteredRooms := Search(rooms, filters);
    }

    /** `handleReset`: every filter field empty and every room displayed. */
    method HandleReset()
      modifies this
      ensures filters == NoFilters && filteredRooms == rooms
      ensures rooms == old(rooms) && appStatus == old(appStatus) && appIds == old(appIds) && loadingId == old(loadingId)
    {
      filters := NoFilters;
      filteredRooms := rooms;
    }

    /**
     * `fetchStatus`: signed out, both maps are emptied; a failed request
     * (`reply` is `None`) leaves them; otherwise both are rebuilt from the
     * user's applications.
     */
    method FetchStatus(signedIn: bool, reply: Option<seq<AppJson>>)
      modifies this
      ensures !signedIn ==> appStatus == map[] && appIds == map[]
      ensures signedIn && reply.None? ==> appStatus == old(appStatus) && appIds == old(appIds)
      ensures signedIn && reply.Some? ==> appStatus == StatusMapOf(reply.value) && appIds == IdsMapOf(reply.value)
      ensures filters == old(filters) && rooms == old(rooms) && filteredRooms == old(filteredRooms) && loadingId == old(loadingId)
    {
      if !signedIn {
        appStatus, appIds := map[], map[];
        return;
      }
      if reply.None? {
        return;
      }
      appStatus, appIds := BuildStatusMaps(reply.value);
    }

    /**
     * `handleApply` as written: on success the room's status becomes
     * `"pending"`; `appIds` is never touched; `loadingId` ends cleared.
     */
    method HandleApply(roomId: string, ok: bool)
      modifies this
      ensures appStatus == if ok then old(appStatus)[roomId := "pending"] else old(appStatus)
      ensures appIds == old(appIds) && loadingId == None
      ensures filters == old(filters) && rooms == old(rooms) && filteredRooms == old(filteredRooms)
    {
      loadingId := Some(roomId);
      if ok {
        appStatus := appStatus[roomId := "pending"];
      }
      loadingId := None;
    }

    /**
     * `handleApply` as evidently intended: the created application, the
     * response body (`None` on failure), also has its id recorded.
     */
    method HandleApplyRecordingId(roomId: string, created: Option<AppJson>)
      modifies this
      ensures appStatus == if created.Some? then old(appStatus)[roomId := "pending"] else old(appStatus)
      ensures appIds == if created.Some? then old(appIds)[roomId := AppKey(created.value)] else old(appIds)
      ensures loadingId == None
      ensures filters == old(filters) && rooms == old(rooms) && filteredRooms == old(filteredRooms)
    {
      loadingId := Some(roomId);
      if created.Some? {
        appStatus := appStatus[roomId := "pending"];
        appIds := appIds[roomId := AppKey(created.value)];
      }
      loadingId := None;
    }

    /**
     * `handleCancel`: with no recorded id no request is made (`request` is
     * `None`); otherwise the id is sent and, on success, the room's status
     * becomes `"cancelled"`. `loadingId` ends cleared.
     */
    method HandleCancel(roomId: string, ok: bool) returns (request: Option<string>)
      modifies this
      ensures request == CancelTarget(old(appIds), roomId)
      ensures appStatus == if request.Some? && ok then old(appStatus)[roomId := "cancelled"] else old(appStatus)
      ensures appIds == old(appIds) && loadingId == None
      ensures filters == old(filters) && rooms == old(rooms) && filteredRooms == old(filteredRooms)
    {
      loadingId := Some(roomId);
      request := None;
      var applicationId := if roomId in appIds then appIds[roomId] else None;
      if Js.Truthy(applicationId) {
        request := applicationId;
        if ok {
          appStatus := appStatus[roomId := "cancelled"];
        }
      }
      loadingId := None;
    }
  }

  // ----- Properties of the page -----

  /** With every field empty the search keeps every room. */
  lemma NoFiltersKeepAll(rooms: seq<RoomJson>)
    ensures Search(rooms, NoFilters) == rooms
  {
    Seqs.FilterKeepsAll(rooms, room => Matches(room, NoFilters));
  }

  /** The location filter ignores the case of the query. */
  lemma LocationIgnoresCase(room: RoomJson, query: string)
    ensures MatchesLocation(room, Text.Upper(query)) == MatchesLocation(room, query)
  {
    Text.LowerOfUpper(query);
  }

  /**
   * With a whole-number bound, a room passes the price filter exactly when its
   * effective price is a number at most the bound, or `null`, which compares
   * as 0.
   */
  lemma PriceBound(room: RoomJson, bound: nat)
    ensures MatchesPrice(room, Js.NatString(bound)) <==>
      match EffectivePrice(room)
      case Num(v) => v <= bound as real
      case Null => true
      case Undefined => false
  {
    Js.ToNumberOfNatString(bound);
    Js.NatStringDigits(bound);
  }

  /** Whatever value a non-empty bound reads as, a room passes exactly when its effective price is at most that value. */
  lemma PriceBoundOfValue(room: RoomJson, maxPrice: string, v: real)
    requires maxPrice != "" && Js.ToNumber(maxPrice) == Some(v)
    ensures MatchesPrice(room, maxPrice) <==>
      match EffectivePrice(room)
      case Num(w) => w <= v
      case Null => 0.0 <= v
      case Undefined => false
  {
  }

  /**
   * A bound with a fraction, such as "499.5": digits, a `.` at position `k`
   * and digits, compared with its decimal value.
   */
  lemma PriceBoundDecimal(room: RoomJson, bound: string, k: nat)
    requires k < |bound| && bound[k] == '.' && |bound| > 1
    requires Js.AllDigits(bound[..k]) && Js.AllDigits(bound[k + 1..])
    ensures MatchesPrice(room, bound) <==>
      match EffectivePrice(room)
      case Num(w) => w <= Js.DigitsValue(bound[..k]) as real + Js.Fraction(bound[k + 1..])
      case Null => true
      case Undefined => false
  {
    var v := Js.DigitsValue(bound[..k]) as real + Js.Fraction(bound[k + 1..]);
    assert Js.ToNumber(bound) == Some(v) by {
      assert bound == bound[..k] + "." + bound[k + 1..];
      Js.ToNumberOfDecimalForm(bound[..k], bound[k + 1..]);
    }
    PriceBoundOfValue(room, bound, v);
  }

  /**
   * A bound written with an exponent, as a number input may hold it, filters
   * like the whole number it denotes: "1e3" keeps the rooms "1000" keeps.
   */
  lemma PriceBoundWithExponent(room: RoomJson, m: nat, k: nat)
    ensures MatchesPrice(room, Js.NatString(m) + "e" + Js.NatString(k)) <==> MatchesPrice(room, Js.NatString(m * Js.Pow10(k)))
  {
    var n: nat := m * Js.Pow10(k);
    var written := Js.NatString(m) + "e" + Js.NatString(k);
    assert Js.ToNumber(written) == Js.ToNumber(Js.NatString(n)) by {
      Js.ToNumberOfExponent(m, k);
      Js.ScaleOfNat(m, k);
      Js.ToNumberOfNatString(n);
    }
    assert Js.NatString(n) != "" by {
      Js.NatStringDigits(n);
    }
  }

  /** A successful apply turns the room's control into Cancel, and a successful cancel back into Apply. */
  lemma ControlAfterUpdates(appStatus: map<string, string>, roomId: string)
    ensures ApplicationControl(true, Some(appStatus[roomId := "pending"][roomId])) == CancelButton
    ensures ApplicationControl(true, Some(appStatus[roomId := "cancelled"][roomId])) == ApplyButton
  {
  }

  // ----- Apply followed by cancel -----

  /**
   * As written: applying for a room with no recorded application and then
   * cancelling sends no request, although the room shows as pending.
   */
  method ApplyThenCancel(page: RoomsPage, roomId: string) returns (request: Option<string>)
    requires roomId !in page.appIds
    modifies page
    ensures roomId in page.appStatus && page.appStatus[roomId] == "pending"
    ensures ApplicationControl(true, Some(page.appStatus[roomId])) == CancelButton
    ensures request.None?
  {
    page.HandleApply(roomId, true);
    request := page.HandleCancel(roomId, true);
  }

  /** As written: after a re-apply, cancel sends the id of the earlier application. */
  method ReapplyThenCancel(page: RoomsPage, roomId: string, earlier: string) returns (request: Option<string>)
    requires roomId in page.appIds && page.appIds[roomId] == Some(earlier) && earlier != ""
    modifies page
    ensures request == Some(earlier)
  {
    page.HandleApply(roomId, true);
    request := page.HandleCancel(roomId, true);
  }

  /** Corrected: cancel after an apply sends the id of the application just created. */
  method ApplyThenCancelRecordingId(page: RoomsPage, roomId: string, created: AppJson) returns (request: Option<string>)
    requires Js.Truthy(AppKey(created))
    modifies page
    ensures request == AppKey(created)
    ensures roomId in page.appStatus && page.appStatus[roomId] == "cancelled"
  {
    page.HandleApplyRecordingId(roomId, Some(created));
    request := page.HandleCancel(roomId, true);
  }
}
