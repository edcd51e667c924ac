/**
 * The cache-aside endpoints of `Backend/app/api/external_services.py`.
 *
 * Both handlers share the one process-wide `Cache.TtlCache`, read with the
 * default expiry. The postcodes.io lookup (`postcode_to_coords`) and the OSRM
 * route lookup (`calculate_osrm_distance`) are the oracle parameters
 * `geocode` and `route`; `now` is the clock at the cache read and `storedAt`
 * the clock at the cache write.
 */
module ExternalServices {
  import opened Wrappers
  import opened Http
  import Text
  import Bson
  import Cache
  import Rooms

  const CampusPostcode := "E1 4NS"
  const GeocodePrefix := "geocode:"
  const DistancePrefix := "distance:"

  /** What `postcode_to_coords` answers: either coordinate may be missing. */
  datatype LatLon = LatLon(latitude: Option<real>, longitude: Option<real>)

  /** What `calculate_osrm_distance` answers: distance in metres and duration in seconds. */
  datatype RouteReply = RouteReply(meters: Option<real>, duration: Option<real>)

  /** The two kinds of dictionary the endpoints store and return. */
  datatype Payload =
    | Coordinates(latitude: real, longitude: real)
    | Route(distanceMeters: real, durationSeconds: Option<real>)

  /**
   * The geocode cache key: the postcode stripped, without spaces, upper-cased,
   * after the geocode prefix. The lemmas below state what the normalisation
   * achieves.
   */
  function GeocodeKey(postcode: string): (k: string)
    ensures IsGeocodeKey(k)
  {
    var k := GeocodePrefix + Text.Upper(Text.RemoveSpaces(Text.Strip(postcode)));
    assert k[..|GeocodePrefix|] == GeocodePrefix;
    k
  }

  /** The distance cache key: the stripped room id. */
  function DistanceKey(roomId: string): (k: string)
    ensures IsDistanceKey(k)
  {
    var k := DistancePrefix + Text.Strip(roomId);
    assert k[..|DistancePrefix|] == DistancePrefix;
    k
  }

  predicate IsGeocodeKey(k: string) {
    |GeocodePrefix| <= |k| && k[..|GeocodePrefix|] == GeocodePrefix
  }

  predicate IsDistanceKey(k: string) {
    |DistancePrefix| <= |k| && k[..|DistancePrefix|] == DistancePrefix
  }

  /** Every geocode key holds coordinates and every distance key holds a route. */
  ghost predicate PayloadsMatchKeys(entries: map<string, Cache.Entry<Payload>>) {
    forall k :: k in entries ==>
      (IsGeocodeKey(k) ==> entries[k].value.Coordinates?) && (IsDistanceKey(k) ==> entries[k].value.Route?)
  }

  /**
   * `geocode_postcode`: a fresh cached value is returned as it is and nothing
   * is written. On a miss the geocoder sees the postcode as given; a missing
   * coordinate gives 400 and nothing is written; otherwise the coordinates are
   * cached and returned. Only the read's own eviction happens on a failure.
   */
  method GeocodePostcode(cache: Cache.TtlCache<Payload>, postcode: string, now: real, storedAt: real, geocode: string -> LatLon)
    returns (r: Result<Payload>)
    requires PayloadsMatchKeys(cache.entries)
    modifies cache
    ensures PayloadsMatchKeys(cache.entries)
    ensures r.Ok? ==> r.value.Coordinates?
    ensures
      var key := GeocodeKey(postcode);
      var hit := Cache.Lookup(old(cache.entries), key, now, Cache.DefaultExpireSeconds);
      var missed := Cache.AfterLookup(old(cache.entries), key, now, Cache.DefaultExpireSeconds);
      var reply := geocode(postcode);
      && (hit.Some? ==> r == Ok(hit.value) && cache.entries == old(cache.entries))
      && (hit.None? && (reply.latitude.None? || reply.longitude.None?) ==>
            r == Err(HttpError(400, "Could not geocode postcode")) && cache.entries == missed)
      && (hit.None? && reply.latitude.Some? && reply.longitude.Some? ==>
            var value := Coordinates(reply.latitude.value, reply.longitude.value);
            r == Ok(value) && cache.entries == Cache.Store(missed, key, value, storedAt))
  {
    var key := GeocodeKey(postcode);
    ghost var before := cache.entries;
    HitMatchesKey(before, key, now);
    AfterLookupKeepsMatch(before, key, now);
    var result := cache.Get(key, now);
    if result.Some? {
      return Ok(result.value);
    }
    var reply := geocode(postcode);
    if reply.latitude.None? || reply.longitude.None? {
      return Err(HttpError(400, "Could not geocode postcode"));
    }
    var value := Coordinates(reply.latitude.value, reply.longitude.value);
    PrefixesExclusive(key);
    StoreKeepsMatch(cache.entries, key, value, storedAt);
    cache.Set(key, value, storedAt);
    r := Ok(value);
  }

  /**
   * `room_to_campus_distance`. The id is stripped; an id that is not an object
   * id gives 400 before the cache is read. A fresh cached value is returned
   * with no room lookup. Then a missing room gives 404, a missing coordinate
   * of the room's or the campus postcode 400, and a route without a distance
   * 400, all without a write. Otherwise the route is cached and returned.
   */
  method RoomToCampusDistance(
    cache: Cache.TtlCache<Payload>, rooms: Rooms.RoomCollection, roomId: string, now: real, storedAt: real,
    geocode: string -> LatLon, route: (real, real, real, real) -> RouteReply)
    returns (r: Result<Payload>)
    requires PayloadsMatchKeys(cache.entries)
    modifies cache
    ensures PayloadsMatchKeys(cache.entries)
    ensures r.Ok? ==> r.value.Route?
    ensures !Bson.IsValidObjectId(Text.Strip(roomId)) ==>
      r == Err(HttpError(400, "Invalid room ID")) && cache.entries == old(cache.entries)
    ensures Bson.IsValidObjectId(Text.Strip(roomId)) ==>
      var key := DistanceKey(roomId);
      var id := Bson.Parse(Text.Strip(roomId));
      var hit := Cache.Lookup(old(cache.entries), key, now, Cache.DefaultExpireSeconds);
      var missed := Cache.AfterLookup(old(cache.entries), key, now, Cache.DefaultExpireSeconds);
      && (hit.Some? ==> r == Ok(hit.value) && cache.entries == old(cache.entries))
      && (hit.None? && id !in rooms.docs ==>
            r == Err(HttpError(404, "Room not found")) && cache.entries == missed)
      && (hit.None? && id in rooms.docs ==>
            var here := geocode(rooms.docs[id].postcode);
            var campus := geocode(CampusPostcode);
            var coordsKnown := here.latitude.Some? && here.longitude.Some? && campus.latitude.Some? && campus.longitude.Some?;
            && (!coordsKnown ==> r == Err(HttpError(400, "Failed to geocode postcodes")) && cache.entries == missed)
            && (coordsKnown ==>
                  var reply := route(here.latitude.value, here.longitude.value, campus.latitude.value, campus.longitude.value);
                  && (reply.meters.None? ==> r == Err(HttpError(400, "OSRM routing failed")) && cache.entries == missed)
                  && (reply.meters.Some? ==>
                        var value := Route(reply.meters.value, reply.duration);
                        r == Ok(value) && cache.entries == Cache.Store(missed, key, value, storedAt))))
  {
    var cleanId := Text.Strip(roomId);
    if !Bson.IsValidObjectId(cleanId) {
      return Err(HttpError(400, "Invalid room ID"));
    }
    var id := Bson.Parse(cleanId);
    var key := DistanceKey(roomId);
    ghost var before := cache.entries;
    HitMatchesKey(before, key, now);
    AfterLookupKeepsMatch(before, key, now);
    var result := cache.Get(key, now);
    if result.Some? {
      return Ok(result.value);
    }
    r := RouteOnMiss(cache, rooms, id, key, storedAt, geocode, route);
  }

  /**
   * The miss path of `room_to_campus_distance`: a missing room gives 404, a
   * missing coordinate of the room's or the campus postcode 400, and a route
   * without a distance 400, all without a write. Otherwise the route is cached
   * under `key` and returned.
   */
  method RouteOnMiss(
    cache: Cache.TtlCache<Payload>, rooms: Rooms.RoomCollection, id: Bson.ObjectId, key: string, storedAt: real,
    geocode: string -> LatLon, route: (real, real, real, real) -> RouteReply)
    returns (r: Result<Payload>)
    requires PayloadsMatchKeys(cache.entries) && IsDistanceKey(key)
    modifies cache
    ensures PayloadsMatchKeys(cache.entries)
    ensures r.Ok? ==> r.value.Route?
    ensures id !in rooms.docs ==> r == Err(HttpError(404, "Room not found")) && cache.entries == old(cache.entries)
    ensures id in rooms.docs ==>
      var here := geocode(rooms.docs[id].postcode);
      var campus := geocode(CampusPostcode);
      var coordsKnown := here.latitude.Some? && here.longitude.Some? && campus.latitude.Some? && campus.longitude.Some?;
      && (!coordsKnown ==> r == Err(HttpError(400, "Failed to geocode postcodes")) && cache.entries == old(cache.entries))
      && (coordsKnown ==>
            var reply := route(here.latitude.value, here.longitude.value, campus.latitude.value, campus.longitude.value);
            && (reply.meters.None? ==> r == Err(HttpError(400, "OSRM routing failed")) && cache.entries == old(cache.entries))
            && (reply.meters.Some? ==>
                  var value := Route(reply.meters.value, reply.duration);
                  r == Ok(value) && cache.entries == Cache.Store(old(cache.entries), key, value, storedAt)))
  {
    if id !in rooms.docs {
      return Err(HttpError(404, "Room not found"));
    }
    var here := geocode(rooms.docs[id].postcode);
    var campus := geocode(CampusPostcode);
    if here.latitude.None? || here.longitude.None? || campus.latitude.None? || campus.longitude.None? {
      return Err(HttpError(400, "Failed to geocode postcodes"));
    }
    var reply := route(here.latitude.value, here.longitude.value, campus.latitude.value, campus.longitude.value);
    if reply.meters.None? {
      return Err(HttpError(400, "OSRM routing failed"));
    }
    var value := Route(reply.meters.value, reply.duration);
    PrefixesExclusive(key);
    StoreKeepsMatch(cache.entries, key, value, storedAt);
    cache.Set(key, value, storedAt);
    r := Ok(value);
  }

  // ----- The cache invariant -----

  /** No key carries both prefixes. */
  lemma PrefixesExclusive(k: string)
    ensures !(IsGeocodeKey(k) && IsDistanceKey(k))
  {
    if IsGeocodeKey(k) {
      assert k[0] == k[..|GeocodePrefix|][0] == 'g';
    }
  }

  /** A write keeps the invariant when the value has the kind its key calls for. */
  lemma StoreKeepsMatch(entries: map<string, Cache.Entry<Payload>>, key: string, value: Payload, t: real)
    requires PayloadsMatchKeys(entries)
    requires IsGeocodeKey(key) ==> value.Coordinates?
    requires IsDistanceKey(key) ==> value.Route?
    ensures PayloadsMatchKeys(Cache.Store(entries, key, value, t))
  {
  }

  /** A read keeps the invariant: it only removes an entry. */
  lemma AfterLookupKeepsMatch(entries: map<string, Cache.Entry<Payload>>, key: string, now: real)
    requires PayloadsMatchKeys(entries)
    ensures PayloadsMatchKeys(Cache.AfterLookup(entries, key, now, Cache.DefaultExpireSeconds))
  {
  }

  /** A hit returns the kind of value its key calls for. */
  lemma HitMatchesKey(entries: map<string, Cache.Entry<Payload>>, key: string, now: real)
    requires PayloadsMatchKeys(entries)
    ensures Cache.Lookup(entries, key, now, Cache.DefaultExpireSeconds).Some? && IsGeocodeKey(key) ==>
      Cache.Lookup(entries, key, now, Cache.DefaultExpireSeconds).value.Coordinates?
    ensures Cache.Lookup(entries, key, now, Cache.DefaultExpireSeconds).Some? && IsDistanceKey(key) ==>
      Cache.Lookup(entries, key, now, Cache.DefaultExpireSeconds).value.Route?
  {
  }

  // ----- Properties of the cache keys -----

  /** Two postcodes that agree once spaces are removed and letters upper-cased share a geocode key. */
  lemma GeocodeKeyNormalises(p: string, q: string)
    requires Text.Upper(Text.RemoveSpaces(p)) == Text.Upper(Text.RemoveSpaces(q))
    ensures GeocodeKey(p) == GeocodeKey(q)
  {
    Text.NormalisedStrip(p);
    Text.NormalisedStrip(q);
  }

  /** The geocode key ignores the case of letters. */
  lemma GeocodeKeyIgnoresCase(p: string)
    ensures GeocodeKey(Text.Lower(p)) == GeocodeKey(p)
  {
    Text.UpperRemoveSpaces(Text.Lower(p));
    Text.UpperOfLower(p);
    Text.UpperRemoveSpaces(p);
    GeocodeKeyNormalises(Text.Lower(p), p);
  }

  /** The geocode key ignores spaces anywhere in the postcode. */
  lemma GeocodeKeyIgnoresSpaces(a: string, b: string)
    ensures GeocodeKey(a + " " + b) == GeocodeKey(a + b)
  {
    assert Text.RemoveSpaces(a + " " + b) == Text.RemoveSpaces(a + b) by {
      assert Text.RemoveSpaces(" ") == [];
      Text.RemoveSpacesAppend(a + " ", b);
      Text.RemoveSpacesAppend(a, " ");
      Text.RemoveSpacesAppend(a, b);
    }
    GeocodeKeyNormalises(a + " " + b, a + b);
  }

  /** Surrounding whitespace in the room id does not change the distance key. */
  lemma DistanceKeyIgnoresPadding(roomId: string)
    ensures DistanceKey(Text.Strip(roomId)) == DistanceKey(roomId)
  {
    Text.StripIdempotent(roomId);
  }

  /** Geocode and distance entries never share a key. */
  lemma KeysDisjoint(postcode: string, roomId: string)
    ensures GeocodeKey(postcode) != DistanceKey(roomId)
    ensures !IsDistanceKey(GeocodeKey(postcode)) && !IsGeocodeKey(DistanceKey(roomId))
  {
    assert GeocodeKey(postcode)[0] == 'g';
    assert DistanceKey(roomId)[0] == 'd';
  }
}
